/** Pref-ordered rule lists are determined by what they hold at each pref. */
module RuleLists {
  import opened NetKernel

  ghost predicate Sorted(rules: seq<IpRule>) {
    forall i, j :: 0 <= i < j < |rules| ==> rules[i].pref <= rules[j].pref
  }

  /** The rules at one pref, in order. */
  function At(rules: seq<IpRule>, pref: nat): seq<IpRule> {
    if rules == [] then []
    else (if rules[0].pref == pref then [rules[0]] else []) + At(rules[1..], pref)
  }

  lemma {:induction false} AtMember(rules: seq<IpRule>, r: IpRule)
    ensures r in rules <==> r in At(rules, r.pref)
  {
    if rules == [] {
    } else {
      AtMember(rules[1..], r);
      assert r in rules <==> r == rules[0] || r in rules[1..];
    }
  }

  lemma {:induction false} AtPref(rules: seq<IpRule>, pref: nat)
    ensures forall r :: r in At(rules, pref) ==> r in rules && r.pref == pref
  {
    if rules == [] {
    } else {
      AtPref(rules[1..], pref);
    }
  }

  lemma AtAbove(rules: seq<IpRule>, pref: nat)
    requires forall r :: r in rules ==> r.pref != pref
    ensures At(rules, pref) == []
  {
    AtPref(rules, pref);
    if At(rules, pref) != [] { assert At(rules, pref)[0] in At(rules, pref); }
  }

  lemma {:induction false} InsertedMembers(rules: seq<IpRule>, r: IpRule)
    ensures forall x :: x in InsertRule(rules, r) <==> x == r || x in rules
  {
    if rules == [] || rules[0].pref > r.pref {
    } else {
      InsertedMembers(rules[1..], r);
      forall x ensures x in InsertRule(rules, r) <==> x == r || x in rules {
        assert x in rules <==> x == rules[0] || x in rules[1..];
      }
    }
  }

  lemma {:induction false} InsertedSorted(rules: seq<IpRule>, r: IpRule)
    requires Sorted(rules)
    ensures Sorted(InsertRule(rules, r))
  {
    if rules == [] || rules[0].pref > r.pref {
    } else {
      InsertedSorted(rules[1..], r);
      InsertedMembers(rules[1..], r);
      var rest := InsertRule(rules[1..], r);
      forall j | 0 <= j < |rest| ensures rules[0].pref <= rest[j].pref {
        assert rest[j] in rest;
      }
    }
  }

  /** A rule goes behind the ones that share its pref and disturbs nothing else. */
  lemma {:induction false} Inserted(rules: seq<IpRule>, r: IpRule, pref: nat)
    requires Sorted(rules)
    ensures At(InsertRule(rules, r), pref) == At(rules, pref) + if pref == r.pref then [r] else []
  {
    var out := InsertRule(rules, r);
    if rules != [] && rules[0].pref <= r.pref {
      Inserted(rules[1..], r, pref);
      assert out[1..] == InsertRule(rules[1..], r);
    } else {
      assert out[1..] == rules;
      AtAboveSorted(rules, r.pref);
    }
  }

  lemma AtAboveSorted(rules: seq<IpRule>, pref: nat)
    requires Sorted(rules)
    ensures rules == [] || pref < rules[0].pref ==> At(rules, pref) == []
  {
    if rules == [] || pref < rules[0].pref { AtAbove(rules, pref); }
  }

  lemma {:induction false} Deleted(rules: seq<IpRule>, pref: nat)
    requires Sorted(rules)
    ensures DeleteRule(rules, pref).None? <==> At(rules, pref) == []
    ensures DeleteRule(rules, pref).Some? ==>
              var out := DeleteRule(rules, pref).value;
              && Sorted(out)
              && (forall x :: x in out ==> x in rules)
              && At(out, pref) == At(rules, pref)[1..]
              && forall q :: q != pref ==> At(out, q) == At(rules, q)
  {
    if rules != [] && rules[0].pref != pref {
      Deleted(rules[1..], pref);
      var rest := DeleteRule(rules[1..], pref);
      if rest.Some? {
        var out := [rules[0]] + rest.value;
        assert out[1..] == rest.value;
        forall x | x in out ensures x in rules { if x != rules[0] { assert x in rules[1..]; } }
        forall j | 0 < j < |out| ensures out[0].pref <= out[j].pref { assert out[j] in rules[1..]; }
      }
    } else if rules != [] {
      assert ([rules[0]] + At(rules[1..], pref))[1..] == At(rules[1..], pref);
    }
  }

  lemma SameHead(a: seq<IpRule>, b: seq<IpRule>)
    requires Sorted(a) && Sorted(b)
    requires forall pref :: At(a, pref) == At(b, pref)
    requires a != []
    ensures b != [] && a[0] == b[0]
  {
    AtMember(a, a[0]);
    AtMember(b, a[0]);
    AtMember(b, b[0]);
    AtMember(a, b[0]);
    assert a[0].pref == b[0].pref;
    assert a[0] == At(a, a[0].pref)[0] == At(b, a[0].pref)[0] == b[0];
  }

  lemma AtTail(rules: seq<IpRule>, pref: nat)
    requires rules != []
    ensures At(rules[1..], pref) == if rules[0].pref == pref then At(rules, pref)[1..] else At(rules, pref)
  {
  }

  /** Extensionality. */
  lemma {:induction false} SameEverywhere(a: seq<IpRule>, b: seq<IpRule>)
    requires Sorted(a) && Sorted(b)
    requires forall pref :: At(a, pref) == At(b, pref)
    ensures a == b
  {
    if a != [] {
      SameHead(a, b);
      forall pref ensures At(a[1..], pref) == At(b[1..], pref) {
        AtTail(a, pref);
        AtTail(b, pref);
      }
      SameEverywhere(a[1..], b[1..]);
    } else if b != [] {
      SameHead(b, a);
    }
  }

  /** Whatever is said up to a preference where something is said, if it is one and the same
      thing, is what becomes of the packet. */
  lemma {:induction false} FirstToDecide(rules: seq<IpRule>, routes: seq<Route>, p: Packet, decider: IpRule)
    requires Sorted(rules) && decider in rules && RuleHop(decider, routes, p).Some?
    requires forall r :: r in rules && r.pref <= decider.pref ==>
              RuleHop(r, routes, p).None? || RuleHop(r, routes, p) == RuleHop(decider, routes, p)
    ensures RouteOf(rules, routes, p) == RuleHop(decider, routes, p)
  {
    assert rules[0].pref <= decider.pref by {
      var i :| 0 <= i < |rules| && rules[i] == decider;
    }
    if RuleHop(rules[0], routes, p).Some? {
    } else {
      assert decider in rules[1..];
      FirstToDecide(rules[1..], routes, p, decider);
    }
  }

  lemma OnlyAt(rules: seq<IpRule>, r: IpRule)
    requires At(rules, r.pref) == [r]
    ensures r in rules && forall q :: q in rules && q.pref == r.pref ==> q == r
  {
    AtMember(rules, r);
    forall q | q in rules && q.pref == r.pref ensures q == r { AtMember(rules, q); }
  }
}
