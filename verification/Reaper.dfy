/** The sweep that removes containers no live job can still be using, and the one that
    returns camera leases nothing accounts for. */
module Reaper {
  import opened Lists
  import opened Options
  import opened Docker
  import CameraSlots

  /** What the database said, when a container's turn came, of whether its job is live. One
      that is missing could not be looked up. */
  type Answers = map<Name, bool>

  function Answer(answers: Answers, name: Name): Option<bool> {
    if name in answers then Some(answers[name]) else None
  }

  datatype Fate = Young | Undecided | Alive | Reapable

  function FateOf(c: Container, now: int, graceMs: nat, answer: Option<bool>): Fate {
    if c.createdAt.Some? && now - c.createdAt.value < graceMs then Young
    else if c.job.None? || c.job.value == "" then Reapable
    else if answer.None? then Undecided
    else if answer.value then Alive
    else Reapable
  }

  predicate IsGateway(c: Container) {
    c.role == Some(GatewayRole)
  }

  // ----- order of the sweep -----

  function Keep(listing: seq<Name>, containers: Containers, gateways: bool): seq<Name>
    requires forall n :: n in listing ==> n in containers
  {
    if listing == [] then []
    else (if IsGateway(containers[listing[0]]) == gateways then [listing[0]] else [])
         + Keep(listing[1..], containers, gateways)
  }

  function DevicesBeforeGateways(listing: seq<Name>, containers: Containers): seq<Name>
    requires forall n :: n in listing ==> n in containers
  {
    Keep(listing, containers, false) + Keep(listing, containers, true)
  }

  lemma {:induction false} KeepProperties(listing: seq<Name>, containers: Containers, gateways: bool)
    requires forall n :: n in listing ==> n in containers
    ensures var k := Keep(listing, containers, gateways);
            && (forall n :: n in k <==> n in listing && IsGateway(containers[n]) == gateways)
            && (forall i :: 0 <= i < |k| ==> k[i] in listing && IsGateway(containers[k[i]]) == gateways)
            && (Distinct(listing) ==> Distinct(k))
  {
    if listing == [] {
    } else {
      KeepProperties(listing[1..], containers, gateways);
      assert forall n :: n in listing <==> n == listing[0] || n in listing[1..];
    }
  }

  lemma {:induction false} KeepCounts(listing: seq<Name>, containers: Containers)
    requires forall n :: n in listing ==> n in containers
    ensures multiset(Keep(listing, containers, false)) + multiset(Keep(listing, containers, true)) == multiset(listing)
  {
    if listing == [] {
    } else {
      var n, rest := listing[0], listing[1..];
      KeepCounts(rest, containers);
      assert listing == [n] + rest;
      var gateway := IsGateway(containers[n]);
      assert Keep(listing, containers, gateway) == [n] + Keep(rest, containers, gateway);
      assert Keep(listing, containers, !gateway) == Keep(rest, containers, !gateway);
    }
  }

  ghost predicate ComesBefore(order: seq<Name>, first: Name, second: Name) {
    exists p, q :: 0 <= p < q < |order| && order[p] == first && order[q] == second
  }

  lemma {:induction false} KeepIsStable(listing: seq<Name>, containers: Containers, gateways: bool, i: nat, j: nat)
      returns (p: nat, q: nat)
    requires forall n :: n in listing ==> n in containers
    requires i < j < |listing|
    requires IsGateway(containers[listing[i]]) == gateways && IsGateway(containers[listing[j]]) == gateways
    ensures var k := Keep(listing, containers, gateways); p < q < |k| && k[p] == listing[i] && k[q] == listing[j]
  {
    var rest := listing[1..];
    var shift := if IsGateway(containers[listing[0]]) == gateways then 1 else 0;
    if i > 0 {
      p, q := KeepIsStable(rest, containers, gateways, i - 1, j - 1);
      p, q := p + shift, q + shift;
    } else {
      q := KeepHas(rest, containers, gateways, j - 1);
      p, q := 0, q + 1;
    }
  }

  /** And the split is stable: of two gateways, or two others, the first listed goes first. */
  lemma SweepIsStable(listing: seq<Name>, containers: Containers, i: nat, j: nat)
    requires forall n :: n in listing ==> n in containers
    requires i < j < |listing|
    requires containers[listing[i]].role == Some(GatewayRole) <==> containers[listing[j]].role == Some(GatewayRole)
    ensures ComesBefore(DevicesBeforeGateways(listing, containers), listing[i], listing[j])
  {
    var gateway := IsGateway(containers[listing[i]]);
    var p, q := KeepIsStable(listing, containers, gateway, i, j);
    var order := DevicesBeforeGateways(listing, containers);
    var shift := if gateway then |Keep(listing, containers, false)| else 0;
    assert order[p + shift] == listing[i] && order[q + shift] == listing[j];
  }

  lemma {:induction false} KeepHas(listing: seq<Name>, containers: Containers, gateways: bool, j: nat) returns (q: nat)
    requires forall n :: n in listing ==> n in containers
    requires j < |listing| && IsGateway(containers[listing[j]]) == gateways
    ensures q < |Keep(listing, containers, gateways)| && Keep(listing, containers, gateways)[q] == listing[j]
  {
    if j == 0 {
      q := 0;
    } else {
      q := KeepHas(listing[1..], containers, gateways, j - 1);
      q := q + if IsGateway(containers[listing[0]]) == gateways then 1 else 0;
    }
  }

  /** The sweep's order is a rearrangement of the listing that puts every device, bridge or
      other container ahead of every gateway. */
  lemma SweepOrder(listing: seq<Name>, containers: Containers)
    requires IsListing(listing, containers)
    ensures var order := DevicesBeforeGateways(listing, containers);
            && multiset(order) == multiset(listing)
            && (forall n :: n in order <==> n in listing)
            && Distinct(order)
            && (forall i, j :: 0 <= i < j < |order| && containers[order[i]].role == Some(GatewayRole) ==>
                containers[order[j]].role == Some(GatewayRole))
  {
    KeepProperties(listing, containers, false);
    KeepProperties(listing, containers, true);
    KeepCounts(listing, containers);
    var a, b := Keep(listing, containers, false), Keep(listing, containers, true);
    forall i, j | 0 <= i < j < |a + b| ensures (a + b)[i] != (a + b)[j] {
      if i < |a| && |a| <= j { assert a[i] in a && b[j - |a|] in b; }
    }
  }

  // ----- the sweep -----

  datatype ReapResult = ReapResult(inspected: nat, removed: seq<Name>, failed: seq<Name>)

  /** Namespaces are lent by gateways, to containers that are not gateways. */
  ghost predicate OnlyGatewaysLend(containers: Containers) {
    forall n :: n in containers && containers[n].network.InsideOf? ==>
      && containers[n].role != Some(GatewayRole)
      && var lender := containers[n].network.container;
         (lender in containers ==> containers[lender].role == Some(GatewayRole))
  }

  function Names(s: seq<Name>): set<Name> {
    set n | n in s
  }

  datatype Outcome = Gone | Reported | Skipped

  /** One container's turn. */
  method SweepOne(host: Host, name: Name, fate: Fate) returns (outcome: Outcome)
    requires name in host.containers
    modifies host`containers, host`events
    ensures host.containers == if outcome.Gone? then old(host.containers) - {name} else old(host.containers)
    ensures match fate
            case Reapable =>
              outcome == if name !in host.wedged && !Borrowed(old(host.containers), name) then Gone else Reported
            case Undecided => outcome == Reported
            case _ => outcome == Skipped
  {
    if fate == Undecided {
      return Reported;
    }
    if fate != Reapable {
      return Skipped;
    }
    var ok := host.Remove(name);
    return if ok then Gone else Reported;
  }

  /** A container goes only if it is owned, old enough, and its job is known to be dead;
      everything inspected is removed, reported or skipped. A container due to go that
      the daemon does not refuse for reasons of its own stays only while something that
      also stayed is inside it. */
  ghost predicate Swept(before: Containers, wedged: set<Name>, listing: seq<Name>, now: int, graceMs: nat,
                        answers: Answers,
                        removed: seq<Name>, failed: seq<Name>)
  {
    && Distinct(removed) && Distinct(failed)
    && (forall n :: n in removed || n in failed ==> n in listing)
    && forall n :: n in listing ==>
         && n in before
         && Settled(before, wedged, n, now, graceMs, answers, removed, failed)
         && (OnlyGatewaysLend(before) ==>
             Final(before - Names(removed), wedged, before, n, now, graceMs, answers, removed))
  }

  // ----- the same in terms of what is on a container -----

  predicate IsOld(c: Container, now: int, graceMs: nat) {
    c.createdAt.None? || c.createdAt.value + graceMs <= now
  }

  predicate NamesJob(c: Container) {
    c.job.Some? && c.job.value != ""
  }

  /** Nobody's, or of a job that was answered dead, and old enough to be sure. */
  predicate MayGo(c: Container, now: int, graceMs: nat, answer: Option<bool>) {
    c.owned && IsOld(c, now, graceMs) && (NamesJob(c) ==> answer == Some(false))
  }

  /** Of a job that could not be looked up. */
  predicate IsUnknown(c: Container, now: int, graceMs: nat, answer: Option<bool>) {
    c.owned && IsOld(c, now, graceMs) && NamesJob(c) && answer.None?
  }

  /** Nothing is removed that may not go; what may go does, unless the daemon is wedged or something is
      inside it; what is unknown is reported and stays; and nothing else is removed or reported. */
  ghost predicate SweptRight(before: Containers, wedged: set<Name>, now: int, graceMs: nat, answers: Answers,
                             removed: seq<Name>, failed: seq<Name>) {
    && (forall n :: n in removed || n in failed ==> n in before)
    && forall n :: n in before ==>
         var c, answer := before[n], if n in answers then Some(answers[n]) else None;
         && (n in removed ==> MayGo(c, now, graceMs, answer) && n !in failed)
         && (n in failed ==> MayGo(c, now, graceMs, answer) || IsUnknown(c, now, graceMs, answer))
         && (IsUnknown(c, now, graceMs, answer) ==> n in failed && n !in removed)
         && (MayGo(c, now, graceMs, answer) ==> n in removed || n in failed)
         && (MayGo(c, now, graceMs, answer) && n !in wedged && !Borrowed(before, n) ==> n in removed)
  }

  lemma SweptRightly(before: Containers, wedged: set<Name>, listing: seq<Name>, now: int, graceMs: nat,
                     answers: Answers, removed: seq<Name>, failed: seq<Name>)
    requires IsListing(listing, before) && Swept(before, wedged, listing, now, graceMs, answers, removed, failed)
    ensures SweptRight(before, wedged, now, graceMs, answers, removed, failed)
  {
    forall n | n in before && before[n].owned
      ensures Settled(before, wedged, n, now, graceMs, answers, removed, failed)
    {
      assert n in listing;
    }
  }

  method ReapAndroidContainers(host: Host, listing: seq<Name>, now: int, graceMs: nat, answers: Answers)
      returns (r: ReapResult)
    requires IsListing(listing, host.containers)
    modifies host`containers, host`events
    ensures r.inspected == |listing|
    ensures host.containers == old(host.containers) - Names(r.removed)
    ensures Swept(old(host.containers), host.wedged, listing, now, graceMs, answers, r.removed, r.failed)
    ensures SweptRight(old(host.containers), host.wedged, now, graceMs, answers, r.removed, r.failed)
  {
    ghost var before := host.containers;
    var order := DevicesBeforeGateways(listing, host.containers);
    OrderReady(listing, host.containers, order);
    var removed, failed := [], [];
    assert before - Names([]) == before;
    for i := 0 to |order|
      invariant host.containers == before - Names(removed)
      invariant Progress(before, host.wedged, order, i, now, graceMs, answers, removed, failed)
    {
      var name := order[i];
      Turn(before, host.wedged, order, i, now, graceMs, answers, removed, failed);
      var outcome := SweepOne(host, name, FateOf(host.containers[name], now, graceMs, Answer(answers, name)));
      Advance(before, host.wedged, order, i, now, graceMs, answers, removed, failed, outcome);
      if outcome == Gone {
        removed := removed + [name];
      } else if outcome == Reported {
        failed := failed + [name];
      }
    }
    Conclude(before, host.wedged, listing, order, now, graceMs, answers, removed, failed);
    SweptRightly(before, host.wedged, listing, now, graceMs, answers, removed, failed);
    return ReapResult(|listing|, removed, failed);
  }

  lemma OrderReady(listing: seq<Name>, containers: Containers, order: seq<Name>)
    requires IsListing(listing, containers) && order == DevicesBeforeGateways(listing, containers)
    ensures Ordered(containers, order) && forall n :: n in order <==> n in listing
  {
    SweepOrder(listing, containers);
  }

  lemma Turn(before: Containers, wedged: set<Name>, order: seq<Name>, i: nat, now: int, graceMs: nat, answers: Answers,
             removed: seq<Name>, failed: seq<Name>)
    requires i < |order| && Progress(before, wedged, order, i, now, graceMs, answers, removed, failed)
    ensures order[i] in before - Names(removed)
             && before - Names(removed) - {order[i]} == before - Names(removed + [order[i]])
  {
    assert order[i] !in order[..i];
  }

  lemma Conclude(before: Containers, wedged: set<Name>, listing: seq<Name>, order: seq<Name>, now: int, graceMs: nat,
                 answers: Answers, removed: seq<Name>, failed: seq<Name>)
    requires Progress(before, wedged, order, |order|, now, graceMs, answers, removed, failed)
    requires forall n :: n in order <==> n in listing
    ensures Swept(before, wedged, listing, now, graceMs, answers, removed, failed)
  {
    assert order[..|order|] == order;
    forall n | n in listing
      ensures n in before && Settled(before, wedged, n, now, graceMs, answers, removed, failed)
      ensures OnlyGatewaysLend(before) ==>
                Final(before - Names(removed), wedged, before, n, now, graceMs, answers, removed)
    {
      var j :| 0 <= j < |order| && order[j] == n;
    }
  }

  ghost predicate Ordered(before: Containers, order: seq<Name>) {
    && (forall n :: n in order ==> n in before)
    && Distinct(order)
    && forall i, j :: 0 <= i < j < |order| && IsGateway(before[order[i]]) ==> IsGateway(before[order[j]])
  }

  /** The first `i` containers of the order have had their turn. */
  ghost predicate Progress(before: Containers, wedged: set<Name>, order: seq<Name>, i: nat, now: int, graceMs: nat,
                           answers: Answers, removed: seq<Name>, failed: seq<Name>)
  {
    && i <= |order| && Ordered(before, order)
    && Distinct(removed) && Distinct(failed)
    && (forall n :: n in removed || n in failed ==> n in order[..i])
    && (forall j :: 0 <= j < i ==> Settled(before, wedged, order[j], now, graceMs, answers, removed, failed))
    && (OnlyGatewaysLend(before) ==>
          forall j :: 0 <= j < i ==>
            Final(before - Names(removed), wedged, before, order[j], now, graceMs, answers, removed))
  }

  lemma Advance(before: Containers, wedged: set<Name>, order: seq<Name>, i: nat, now: int, graceMs: nat,
                answers: Answers,
                removed: seq<Name>, failed: seq<Name>, outcome: Outcome)
    requires i < |order| && Progress(before, wedged, order, i, now, graceMs, answers, removed, failed)
    requires match FateOf(before[order[i]], now, graceMs, Answer(answers, order[i]))
             case Reapable =>
               outcome == if order[i] !in wedged && !Borrowed(before - Names(removed), order[i]) then Gone else Reported
             case Undecided => outcome == Reported
             case _ => outcome == Skipped
    ensures Progress(before, wedged, order, i + 1, now, graceMs, answers,
                     if outcome.Gone? then removed + [order[i]] else removed,
                     if outcome.Reported? then failed + [order[i]] else failed)
  {
    var removed1 := if outcome.Gone? then removed + [order[i]] else removed;
    var failed1 := if outcome.Reported? then failed + [order[i]] else failed;
    assert order[..i + 1] == order[..i] + [order[i]];
    assert order[i] !in order[..i];
    forall j | 0 <= j <= i ensures Settled(before, wedged, order[j], now, graceMs, answers, removed1, failed1) {
      if j < i {
        assert order[j] != order[i] && Settled(before, wedged, order[j], now, graceMs, answers, removed, failed);
      }
    }
    if OnlyGatewaysLend(before) {
      KeepsFinal(before, wedged, order, i, now, graceMs, answers, removed, removed1);
    }
  }

  ghost predicate Settled(before: Containers, wedged: set<Name>, n: Name, now: int, graceMs: nat, answers: Answers,
                          removed: seq<Name>, failed: seq<Name>)
    requires n in before
  {
    match FateOf(before[n], now, graceMs, Answer(answers, n))
    case Reapable =>
      (n in removed) != (n in failed) && (n in wedged ==> n in failed)
      && (n !in wedged && !Borrowed(before, n) ==> n in removed)
    case Undecided => n in failed && n !in removed
    case _ => n !in failed && n !in removed
  }

  /** A container due to go is gone, or something inside it is still there. */
  ghost predicate Final(containers: Containers, wedged: set<Name>, before: Containers, n: Name,
                        now: int, graceMs: nat, answers: Answers, removed: seq<Name>)
    requires n in before
  {
    FateOf(before[n], now, graceMs, Answer(answers, n)) == Reapable && n !in wedged ==>
      (n in removed <==> !Borrowed(containers, n))
  }

  /** Taking out the next container of the order settles it and unsettles nothing: what it
      is inside of is a gateway, and gateways come later. */
  lemma KeepsFinal(before: Containers, wedged: set<Name>, order: seq<Name>, i: nat, now: int, graceMs: nat,
                   answers: Answers,
                   removed0: seq<Name>, removed: seq<Name>)
    requires OnlyGatewaysLend(before) && i < |order| && Ordered(before, order)
    requires order[i] !in order[..i] && forall n :: n in removed0 ==> n in order[..i]
    requires forall j :: 0 <= j < i ==>
              Final(before - Names(removed0), wedged, before, order[j], now, graceMs, answers, removed0)
    requires removed == removed0 || removed == removed0 + [order[i]]
    requires FateOf(before[order[i]], now, graceMs, Answer(answers, order[i])) == Reapable && order[i] !in wedged ==>
               (removed != removed0 <==> !Borrowed(before - Names(removed0), order[i]))
    ensures forall j :: 0 <= j <= i ==>
              Final(before - Names(removed), wedged, before, order[j], now, graceMs, answers, removed)
  {
    var c0, c1, name := before - Names(removed0), before - Names(removed), order[i];
    assert removed != removed0 ==> c1 == c0 - {name};
    forall j | 0 <= j <= i ensures Final(c1, wedged, before, order[j], now, graceMs, answers, removed) {
      var n := order[j];
      assert Borrowed(c1, n) ==> Borrowed(c0, n);
      if j < i {
        assert n in order[..i] && n != name;
        assert Final(c0, wedged, before, n, now, graceMs, answers, removed0);
        if Borrowed(c0, n) {
          var b :| b in c0 && c0[b].network == InsideOf(n);
          assert before[b].network == InsideOf(n) && IsGateway(before[n]) && !IsGateway(before[b]);
          assert b in c1;
        }
      }
    }
  }

  // ----- what one pass is enough for -----

  /** Whoever borrows a container of this job is of this job too, and is listed. */
  ghost predicate JobKeepsToItself(containers: Containers, job: JobId) {
    forall n, b :: n in containers && b in containers && containers[n].job == Some(job)
        && containers[b].network == InsideOf(n)
      ==> containers[b].job == Some(job) && containers[b].owned
  }

  ghost predicate OldEnough(containers: Containers, job: JobId, now: int, graceMs: nat) {
    forall n :: n in containers && containers[n].job == Some(job) && containers[n].createdAt.Some? ==>
      now - containers[n].createdAt.value >= graceMs
  }

  /** A dead job leaves nothing behind after a single sweep: its devices go first, which
      frees its gateway. This is what finishes a teardown that could not remove something. */
  lemma DeadJobCollected(before: Containers, wedged: set<Name>, listing: seq<Name>, now: int, graceMs: nat,
                         answers: Answers,
                         removed: seq<Name>, failed: seq<Name>, job: JobId)
    requires IsListing(listing, before) && Swept(before, wedged, listing, now, graceMs, answers, removed, failed)
    requires OnlyGatewaysLend(before) && JobKeepsToItself(before, job) && OldEnough(before, job, now, graceMs)
    requires job != "" && forall n :: n in before && before[n].job == Some(job) ==> Answer(answers, n) == Some(false)
    requires forall n :: n in before && before[n].job == Some(job) ==> n !in wedged
    ensures forall n :: n in before - Names(removed) && before[n].job == Some(job) ==> !before[n].owned
  {
    var after := before - Names(removed);
    forall n | n in listing && before[n].job == Some(job) ensures n in removed {
      assert FateOf(before[n], now, graceMs, Answer(answers, n)) == Reapable;
      assert Final(after, wedged, before, n, now, graceMs, answers, removed);
    }
  }

  // ----- camera leases -----

  ghost predicate HeldBy(containers: Containers, index: Index) {
    exists n :: n in containers && containers[n].owned && containers[n].camera == Some(index)
  }

  /** A lease is returned only when no owned container carries its index and its job is
      known to be gone; every other lease stays. */
  method ReconcileCameraLeases(host: Host, redis: CameraSlots.Redis, listing: seq<Name>, pool: seq<Index>,
                               active: map<Index, bool>)
      returns (freed: seq<Index>)
    requires IsListing(listing, host.containers)
    modifies redis`leases
    ensures forall i :: i in freed <==>
              && i in pool && !HeldBy(host.containers, i)
              && old(CameraSlots.Holder(redis.leases, i, redis.now)).Some?
              && i in active && !active[i]
    ensures forall i :: CameraSlots.Holder(redis.leases, i, redis.now) ==
                        if i in freed then None else old(CameraSlots.Holder(redis.leases, i, redis.now))
  {
    var held: set<Index> := {};
    for k := 0 to |listing|
      invariant forall i :: i in held <==> exists j :: 0 <= j < k && host.containers[listing[j]].camera == Some(i)
    {
      assert listing[k] in listing;
      var camera := host.containers[listing[k]].camera;
      if camera.Some? {
        held := held + {camera.value};
      }
    }
    forall i ensures i in held <==> HeldBy(host.containers, i) {
      if i in held {
        var j :| 0 <= j < |listing| && host.containers[listing[j]].camera == Some(i);
        assert listing[j] in listing;
      }
      if HeldBy(host.containers, i) {
        var n :| n in host.containers && host.containers[n].owned && host.containers[n].camera == Some(i);
        assert n in listing;
      }
    }
    freed := redis.ReconcileCameraSlots(pool, held, active);
  }
}
