/** What the routing part of the script leaves in the rule list. */
module EgressRouting {
  import opened Lists
  import opened NetKernel
  import opened RuleLists
  import opened EgressPolicy
  import opened Text

  /** Inspecting, deleting and flushing fail only when there is nothing there. */
  ghost predicate Manageable(k: Kernel) {
    && (forall pref :: !k.refuses(RuleDel(pref)))
    && (forall m :: !k.refuses(MangleCheck(m)))
    && !k.refuses(FlushChain)
    && !k.refuses(JumpCheck)
  }

  function Tail<T>(s: seq<T>): seq<T> {
    if s == [] then [] else s[1..]
  }

  lemma {:induction false} RunConcat(k: Kernel, a: seq<Sh>, b: seq<Sh>, w: World)
    ensures Run(k, a + b, w) == if Run(k, a, w).ok then Run(k, b, Run(k, a, w).world) else Run(k, a, w)
  {
    if a == [] {
      assert a + b == b;
    } else {
      assert (a + b)[1..] == a[1..] + b;
      if Eval(k, a[0], w).ok { RunConcat(k, a[1..], b, Eval(k, a[0], w).world); }
    }
  }

  lemma RunOne(k: Kernel, sh: Sh, w: World)
    ensures Run(k, [sh], w) == Eval(k, sh, w)
  {
    assert Run(k, [sh][1..], Eval(k, sh, w).world).ok;
  }

  /** Only the rule list changed, only at one pref, and it is still in order. */
  ghost predicate Only(before: World, after: World, pref: nat, now: seq<IpRule>) {
    && after == before.(net := before.net.(rules := after.net.rules))
    && Sorted(after.net.rules)
    && At(after.net.rules, pref) == now
    && forall q :: q != pref ==> At(after.net.rules, q) == At(before.net.rules, q)
  }

  lemma DeleteStep(k: Kernel, pref: nat, w: World)
    requires Manageable(k) && Sorted(w.net.rules)
    ensures var s := Eval(k, Or(Do(RuleDel(pref)), True), w);
            s.ok && Only(w, s.world, pref, Tail(At(w.net.rules, pref)))
  {
    Deleted(w.net.rules, pref);
  }

  lemma AddStep(k: Kernel, r: IpRule, w: World)
    requires Sorted(w.net.rules)
    ensures var s := Eval(k, Do(RuleAdd(r)), w);
            && (s.ok <==> Supports(k, RuleAdd(r)) && r !in At(w.net.rules, r.pref))
            && (s.ok ==> Only(w, s.world, r.pref, At(w.net.rules, r.pref) + [r]))
  {
    InsertedSorted(w.net.rules, r);
    forall pref { Inserted(w.net.rules, r, pref); }
    AtMember(w.net.rules, r);
  }

  lemma {:induction false} DrainStep(k: Kernel, pref: nat, net: Net)
    requires Manageable(k) && Sorted(net.rules)
    ensures Only(World(net, []), World(Drain(k, pref, net), []), pref, [])
    decreases |net.rules|
  {
    Deleted(net.rules, pref);
    var next := Exec(k, RuleDel(pref), net);
    if next.None? {
    } else {
      DrainStep(k, pref, next.value);
    }
  }

  function LinkRules(p: Policy, d: Discovered, links: seq<Cidr>): seq<IpRule>
    requires WellOrdered(p)
  {
    seq(|links|, i requires 0 <= i < |links| => LinkRule(p, d, links[i]))
  }

  lemma Octets(a: nat, b: nat, c: nat, d: nat)
    requires a < 256 && b < 256 && c < 256 && d < 256
    ensures var base := a * 0x100_0000 + b * 0x1_0000 + c * 256 + d;
            base / 0x100_0000 == a && base / 0x1_0000 % 256 == b && base / 256 % 256 == c && base % 256 == d
  {
    var base := a * 0x100_0000 + b * 0x1_0000 + c * 256 + d;
    assert base / 0x1_0000 == a * 256 + b;
    assert base / 256 == (a * 256 + b) * 256 + c;
  }

  /** A prefix is spelled by its octets. */
  lemma SpelledByOctets(a: nat, b: nat, c: nat, d: nat, bits: nat)
    requires a < 256 && b < 256 && c < 256 && d < 256
    ensures Spelled(Cidr(a * 0x100_0000 + b * 0x1_0000 + c * 256 + d, bits)) == Dotted(a, b, c, d, bits)
  {
    Octets(a, b, c, d);
  }

  /** The prefixes in the order they are printed in. */
  ghost predicate ByText(links: seq<Cidr>) {
    forall i, j :: 0 <= i < j < |links| ==> Precedes(Spelled(links[i]), Spelled(links[j]))
  }

  lemma {:induction false} InsertedMembers(links: seq<Cidr>, n: Cidr)
    ensures forall x :: x in InsertByText(links, n) <==> x == n || x in links
  {
    if links == [] || Precedes(Spelled(n), Spelled(links[0])) {
    } else {
      InsertedMembers(links[1..], n);
      assert forall x :: x in links <==> x == links[0] || x in links[1..];
    }
  }

  lemma DistinctCons<T>(x: T, s: seq<T>)
    requires Distinct(s) && x !in s
    ensures Distinct([x] + s)
  {
  }

  lemma ByTextCons(n: Cidr, links: seq<Cidr>)
    requires ByText(links) && forall j :: 0 <= j < |links| ==> Precedes(Spelled(n), Spelled(links[j]))
    ensures ByText([n] + links)
  {
  }

  lemma {:induction false} InsertedDistinct(links: seq<Cidr>, n: Cidr)
    requires n !in links && Distinct(links)
    ensures Distinct(InsertByText(links, n))
  {
    if links != [] && !Precedes(Spelled(n), Spelled(links[0])) {
      InsertedDistinct(links[1..], n);
      InsertedMembers(links[1..], n);
      var rest := InsertByText(links[1..], n);
      forall j | 0 <= j < |rest| ensures rest[j] != links[0] {
        assert rest[j] in rest && links[0] !in links[1..];
      }
      DistinctCons(links[0], rest);
    } else {
      DistinctCons(n, links);
    }
  }

  lemma {:induction false} InsertedInOrder(links: seq<Cidr>, n: Cidr)
    requires ByText(links)
    ensures ByText(InsertByText(links, n))
  {
    if links != [] && !Precedes(Spelled(n), Spelled(links[0])) {
      InsertedInOrder(links[1..], n);
      InsertedMembers(links[1..], n);
      PrecedesIsTotal(Spelled(n), Spelled(links[0]));
      var rest := InsertByText(links[1..], n);
      forall j | 0 <= j < |rest| ensures Precedes(Spelled(links[0]), Spelled(rest[j])) {
        assert rest[j] in rest;
      }
      ByTextCons(links[0], rest);
    } else {
      forall j | 0 <= j < |links| ensures Precedes(Spelled(n), Spelled(links[j])) {
        if j > 0 { PrecedesIsTransitive(Spelled(n), Spelled(links[0]), Spelled(links[j])); }
      }
      ByTextCons(n, links);
    }
  }

  /** What is offered to `ip rule add`: every connected prefix, once, sorted. */
  lemma {:induction false} LinksDistinct(routes: seq<Route>, tun: string)
    ensures Distinct(Links(routes, tun)) && ByText(Links(routes, tun))
    ensures forall n :: n in Links(routes, tun) <==> exists r :: r in routes && IsLink(r, tun) && r.dst.value == n
  {
    if routes == [] {
    } else {
      var rest := Links(routes[1..], tun);
      LinksDistinct(routes[1..], tun);
      if IsLink(routes[0], tun) && routes[0].dst.value !in rest {
        InsertedMembers(rest, routes[0].dst.value);
        InsertedDistinct(rest, routes[0].dst.value);
        InsertedInOrder(rest, routes[0].dst.value);
      }
      forall n ensures n in Links(routes, tun) <==> exists r :: r in routes && IsLink(r, tun) && r.dst.value == n {
        if n in rest {
          var r :| r in routes[1..] && IsLink(r, tun) && r.dst.value == n;
          assert r in routes;
        }
        if r :| r in routes && IsLink(r, tun) && r.dst.value == n { assert r == routes[0] || r in routes[1..]; }
      }
    }
  }

  lemma {:induction false} LinkSteps(k: Kernel, p: Policy, d: Discovered, done: seq<Cidr>, links: seq<Cidr>, w: World)
    requires WellOrdered(p) && Sorted(w.net.rules) && Distinct(done + links)
    requires At(w.net.rules, LocalPref(p)) == LinkRules(p, d, done)
    ensures var s := Run(k, AddLinks(p, d, links), w);
            && (s.ok <==> forall n :: n in links ==> Supports(k, RuleAdd(LinkRule(p, d, n))))
            && (s.ok ==> Only(w, s.world, LocalPref(p), LinkRules(p, d, done + links)))
    decreases |links|
  {
    if links == [] {
      assert done + links == done;
    } else {
      var r := LinkRule(p, d, links[0]);
      AddStep(k, r, w);
      assert r !in LinkRules(p, d, done) by {
        forall i | 0 <= i < |done| ensures LinkRules(p, d, done)[i] != r {
          assert (done + links)[i] != (done + links)[|done|];
        }
      }
      var s := Eval(k, Do(RuleAdd(r)), w);
      var cmds := AddLinks(p, d, links);
      assert cmds[0] == Do(RuleAdd(r)) && cmds[1..] == AddLinks(p, d, links[1..]);
      if s.ok {
        assert LinkRules(p, d, done) + [r] == LinkRules(p, d, done + [links[0]]);
        assert done + [links[0]] + links[1..] == done + links;
        LinkSteps(k, p, d, done + [links[0]], links[1..], s.world);
      } else {
        assert links[0] in links;
      }
    }
  }

  /** The whole effect of the routing part on the rule list. */
  ghost predicate RoutingDone(p: Policy, d: Discovered, before: World, after: World)
    requires WellOrdered(p)
  {
    && after == before.(net := before.net.(rules := after.net.rules))
    && Sorted(after.net.rules)
    && At(after.net.rules, p.bypassPref) == Tail(At(before.net.rules, p.bypassPref)) + [BypassRule(p, d)]
    && At(after.net.rules, p.bypassPref + 1) == Tail(At(before.net.rules, p.bypassPref + 1)) + [SecondChanceRule(p)]
    && At(after.net.rules, LocalPref(p)) == LinkRules(p, d, d.links)
    && At(after.net.rules, p.tunPref) == Tail(At(before.net.rules, p.tunPref)) + [TunRule(p)]
    && forall q :: q !in OwnPrefs(p) ==> At(after.net.rules, q) == At(before.net.rules, q)
  }

  function OwnPrefs(p: Policy): set<nat>
    requires WellOrdered(p)
  {
    {p.bypassPref, p.bypassPref + 1, LocalPref(p), p.tunPref}
  }

  /** The kernel takes every rule the policy adds. */
  ghost predicate TakesRules(k: Kernel, p: Policy, d: Discovered)
    requires WellOrdered(p)
  {
    && Supports(k, RuleAdd(BypassRule(p, d)))
    && Supports(k, RuleAdd(SecondChanceRule(p)))
    && Supports(k, RuleAdd(TunRule(p)))
    && forall n :: n in d.links ==> Supports(k, RuleAdd(LinkRule(p, d, n)))
  }

  /** At most one leftover at each pref the script empties with a single delete. */
  ghost predicate SingleLeftovers(p: Policy, rules: seq<IpRule>) {
    |At(rules, p.bypassPref)| <= 1 && |At(rules, p.bypassPref + 1)| <= 1 && |At(rules, p.tunPref)| <= 1
  }

  ghost predicate RulesOnly(before: World, after: World) {
    after == before.(net := before.net.(rules := after.net.rules)) && Sorted(after.net.rules)
  }

  ghost predicate OldDeleted(p: Policy, before: World, after: World) {
    && RulesOnly(before, after)
    && forall q :: At(after.net.rules, q) ==
                   if q in {p.bypassPref, p.bypassPref + 1, p.tunPref}
                   then Tail(At(before.net.rules, q)) else At(before.net.rules, q)
  }

  ghost predicate BypassAdded(p: Policy, d: Discovered, before: World, after: World) {
    && RulesOnly(before, after)
    && At(after.net.rules, p.bypassPref) == At(before.net.rules, p.bypassPref) + [BypassRule(p, d)]
    && At(after.net.rules, p.bypassPref + 1) == At(before.net.rules, p.bypassPref + 1) + [SecondChanceRule(p)]
    && forall q :: q !in {p.bypassPref, p.bypassPref + 1} ==> At(after.net.rules, q) == At(before.net.rules, q)
  }

  ghost predicate TunAdded(p: Policy, d: Discovered, before: World, after: World)
    requires WellOrdered(p)
  {
    && RulesOnly(before, after)
    && At(after.net.rules, LocalPref(p)) == LinkRules(p, d, d.links)
    && At(after.net.rules, p.tunPref) == At(before.net.rules, p.tunPref) + [TunRule(p)]
    && forall q :: q !in {LocalPref(p), p.tunPref} ==> At(after.net.rules, q) == At(before.net.rules, q)
  }

  lemma Compose(p: Policy, d: Discovered, w: World, w1: World, w2: World, w3: World)
    requires WellOrdered(p)
    requires OldDeleted(p, w, w1) && BypassAdded(p, d, w1, w2) && TunAdded(p, d, w2, w3)
    ensures RoutingDone(p, d, w, w3)
  {
    var a, b, c, l := p.bypassPref, p.bypassPref + 1, p.tunPref, LocalPref(p);
    assert At(w3.net.rules, a) == At(w2.net.rules, a) && At(w3.net.rules, b) == At(w2.net.rules, b);
    assert At(w2.net.rules, c) == At(w1.net.rules, c);
    forall q | q !in OwnPrefs(p) ensures At(w3.net.rules, q) == At(w.net.rules, q) {
      assert q !in {l, c} && q !in {a, b} && q !in {a, b, c};
    }
  }

  function DeleteOne(pref: nat): Sh {
    Or(Do(RuleDel(pref)), True)
  }

  lemma DeleteOneRun(k: Kernel, pref: nat, w: World)
    requires Manageable(k) && Sorted(w.net.rules)
    ensures var s := Run(k, [DeleteOne(pref)], w);
            s.ok && Only(w, s.world, pref, Tail(At(w.net.rules, pref)))
  {
    DeleteStep(k, pref, w);
    RunOne(k, DeleteOne(pref), w);
  }

  lemma ThreeDeleted(p: Policy, w: World, w1: World, w2: World, w3: World)
    requires WellOrdered(p)
    requires Only(w, w1, p.bypassPref, Tail(At(w.net.rules, p.bypassPref)))
    requires Only(w1, w2, p.bypassPref + 1, Tail(At(w1.net.rules, p.bypassPref + 1)))
    requires Only(w2, w3, p.tunPref, Tail(At(w2.net.rules, p.tunPref)))
    ensures OldDeleted(p, w, w3)
  {
  }

  lemma DeleteOldRun(k: Kernel, p: Policy, w: World)
    requires Manageable(k) && WellOrdered(p) && Sorted(w.net.rules)
    ensures var s := Run(k, DeleteOld(p), w);
            s.ok && OldDeleted(p, w, s.world)
  {
    var a, b, c := DeleteOne(p.bypassPref), DeleteOne(p.bypassPref + 1), DeleteOne(p.tunPref);
    assert DeleteOld(p) == [a] + ([b] + [c]);
    RunConcat(k, [a], [b] + [c], w);
    DeleteOneRun(k, p.bypassPref, w);
    var w1 := Run(k, [a], w).world;
    RunConcat(k, [b], [c], w1);
    DeleteOneRun(k, p.bypassPref + 1, w1);
    var w2 := Run(k, [b], w1).world;
    DeleteOneRun(k, p.tunPref, w2);
    ThreeDeleted(p, w, w1, w2, Run(k, [c], w2).world);
  }

  lemma AddBypassRun(k: Kernel, p: Policy, d: Discovered, w: World)
    requires WellOrdered(p) && Sorted(w.net.rules)
    ensures var s := Run(k, AddBypass(p, d), w);
            && (s.ok <==> && Supports(k, RuleAdd(BypassRule(p, d)))
                          && BypassRule(p, d) !in At(w.net.rules, p.bypassPref)
                          && Supports(k, RuleAdd(SecondChanceRule(p)))
                          && SecondChanceRule(p) !in At(w.net.rules, p.bypassPref + 1))
            && (s.ok ==> BypassAdded(p, d, w, s.world))
  {
    var a := Do(RuleAdd(BypassRule(p, d)));
    var b := Do(RuleAdd(SecondChanceRule(p)));
    assert AddBypass(p, d) == [a] + [b];
    AddStep(k, BypassRule(p, d), w);
    RunOne(k, a, w);
    RunConcat(k, [a], [b], w);
    if Eval(k, a, w).ok {
      var w1 := Eval(k, a, w).world;
      AddStep(k, SecondChanceRule(p), w1);
      RunOne(k, b, w1);
    }
  }

  lemma RoutingTail(k: Kernel, p: Policy, d: Discovered, w: World)
    requires Manageable(k) && WellOrdered(p) && Sorted(w.net.rules) && Distinct(d.links)
    ensures var s := Run(k, RoutingTailOf(p, d), w);
            && (s.ok <==> && (forall n :: n in d.links ==> Supports(k, RuleAdd(LinkRule(p, d, n))))
                          && Supports(k, RuleAdd(TunRule(p)))
                          && TunRule(p) !in At(w.net.rules, p.tunPref))
            && (s.ok ==> TunAdded(p, d, w, s.world))
  {
    var drain := DrainPref(LocalPref(p));
    var add := Do(RuleAdd(TunRule(p)));
    var links := AddLinks(p, d, d.links);
    RunConcat(k, [drain] + links, [add], w);
    RunConcat(k, [drain], links, w);
    RunOne(k, drain, w);
    DrainStep(k, LocalPref(p), w.net);
    var w1 := Eval(k, drain, w).world;
    assert [] + d.links == d.links;
    LinkSteps(k, p, d, [], d.links, w1);
    var s := Run(k, links, w1);
    if s.ok {
      AddStep(k, TunRule(p), s.world);
      RunOne(k, add, s.world);
    }
  }

  function RoutingTailOf(p: Policy, d: Discovered): seq<Sh>
    requires WellOrdered(p)
  {
    [DrainPref(LocalPref(p))] + AddLinks(p, d, d.links) + [Do(RuleAdd(TunRule(p)))]
  }

  lemma RoutingStages(k: Kernel, p: Policy, d: Discovered, w: World)
    requires Manageable(k) && WellOrdered(p) && Sorted(w.net.rules)
    ensures var w1 := Run(k, DeleteOld(p), w).world;
            var s := Run(k, AddBypass(p, d), w1);
            Run(k, RoutingPart(p, d), w) == if s.ok then Run(k, RoutingTailOf(p, d), s.world) else s
  {
    var a, b, c := DeleteOld(p), AddBypass(p, d), RoutingTailOf(p, d);
    assert RoutingPart(p, d) == a + (b + c);
    RunConcat(k, a, b + c, w);
    DeleteOldRun(k, p, w);
    RunConcat(k, b, c, Run(k, a, w).world);
  }

  /** With nothing left over, each of the script's prefs holds its own rules and no other. */
  lemma OnlyOwn(p: Policy, d: Discovered, before: World, after: World)
    requires WellOrdered(p) && RoutingDone(p, d, before, after) && SingleLeftovers(p, before.net.rules)
    ensures At(after.net.rules, p.bypassPref) == [BypassRule(p, d)]
    ensures At(after.net.rules, p.bypassPref + 1) == [SecondChanceRule(p)]
    ensures At(after.net.rules, p.tunPref) == [TunRule(p)]
  {
  }

  lemma OldGone(p: Policy, w: World, w1: World)
    requires OldDeleted(p, w, w1) && SingleLeftovers(p, w.net.rules)
    ensures At(w1.net.rules, p.bypassPref) == [] && At(w1.net.rules, p.bypassPref + 1) == []
             && At(w1.net.rules, p.tunPref) == []
  {
  }

  lemma RoutingRun(k: Kernel, p: Policy, d: Discovered, w: World)
    requires Manageable(k) && WellOrdered(p) && Sorted(w.net.rules) && Distinct(d.links)
    ensures var s := Run(k, RoutingPart(p, d), w);
            && (s.ok ==> RoutingDone(p, d, w, s.world) && TakesRules(k, p, d))
            && (SingleLeftovers(p, w.net.rules) && TakesRules(k, p, d) ==> s.ok)
  {
    RoutingStages(k, p, d, w);
    DeleteOldRun(k, p, w);
    var w1 := Run(k, DeleteOld(p), w).world;
    AddBypassRun(k, p, d, w1);
    if SingleLeftovers(p, w.net.rules) { OldGone(p, w, w1); }
    var s := Run(k, AddBypass(p, d), w1);
    if s.ok {
      RoutingTail(k, p, d, s.world);
      var t := Run(k, RoutingTailOf(p, d), s.world);
      if t.ok { Compose(p, d, w, w1, s.world, t.world); }
    }
  }
}
