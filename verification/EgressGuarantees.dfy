/** What a successful run of the egress script guarantees. */
module EgressGuarantees {
  import opened Options
  import opened NetKernel
  import opened RuleLists
  import opened EgressPolicy
  import opened EgressRouting
  import opened EgressAcl

  // ----- the three parts in sequence -----

  function Found(p: Policy, net: Net): Discovered {
    Discover(net.routes, p.tunDevice)
  }

  lemma Stages(k: Kernel, p: Policy, net: Net) returns (w1: World, w2: World)
    requires WellOrdered(p)
    ensures var w0, s := World(net, []), Apply(k, p, net);
            && Run(k, RoutingPart(p, Found(p, net)), w0).world == w1
            && (s.ok ==> && k.backend
                         && Run(k, RoutingPart(p, Found(p, net)), w0).ok
                         && Run(k, ManglePart(p), w1) == Status(w2, true)
                         && Run(k, FilterPart(p), w2) == s)
            && (k.backend && Run(k, RoutingPart(p, Found(p, net)), w0).ok && Run(k, ManglePart(p), w1).ok ==>
                  Run(k, ManglePart(p), w1).world == w2 && Run(k, FilterPart(p), w2) == s)
  {
    var w0 := World(net, []);
    var a, b, c := RoutingPart(p, Found(p, net)), ManglePart(p), FilterPart(p);
    w1 := Run(k, a, w0).world;
    w2 := Run(k, b, w1).world;
    assert EgressScript(p, Found(p, net)) == [NeedBackend] + (a + (b + c));
    RunConcat(k, [NeedBackend], a + (b + c), w0);
    RunOne(k, NeedBackend, w0);
    RunConcat(k, a, b + c, w0);
    RunConcat(k, b, c, w1);
  }

  // ----- what never touches the filter OUTPUT chain -----

  predicate LeavesOutput(sh: Sh) {
    match sh
    case Do(cmd) => !cmd.JumpInsert?
    case Or(a, b) => LeavesOutput(a) && LeavesOutput(b)
    case Unless(a, b) => LeavesOutput(a) && LeavesOutput(b)
    case _ => true
  }

  lemma {:induction false} DrainLeavesOutput(k: Kernel, pref: nat, net: Net)
    ensures Drain(k, pref, net).output == net.output && Drain(k, pref, net).routes == net.routes
    decreases |net.rules|
  {
    var next := Exec(k, RuleDel(pref), net);
    if next.None? {
    } else {
      DrainLeavesOutput(k, pref, next.value);
    }
  }

  lemma {:induction false} EvalLeavesOutput(k: Kernel, sh: Sh, w: World)
    requires LeavesOutput(sh)
    ensures Eval(k, sh, w).world.net.output == w.net.output
  {
    match sh
    case Or(a, b) =>
      EvalLeavesOutput(k, a, w);
      EvalLeavesOutput(k, b, Eval(k, a, w).world);
    case Unless(a, b) =>
      EvalLeavesOutput(k, a, w);
      EvalLeavesOutput(k, b, Eval(k, a, w).world);
    case DrainPref(pref) => DrainLeavesOutput(k, pref, w.net);
    case _ =>
  }

  lemma {:induction false} RunLeavesOutput(k: Kernel, script: seq<Sh>, w: World)
    requires forall sh :: sh in script ==> LeavesOutput(sh)
    ensures Run(k, script, w).world.net.output == w.net.output
  {
    if script == [] {
    } else {
      EvalLeavesOutput(k, script[0], w);
      if Eval(k, script[0], w).ok { RunLeavesOutput(k, script[1..], Eval(k, script[0], w).world); }
    }
  }

  lemma {:induction false} LinksLeaveOutput(p: Policy, d: Discovered, links: seq<Cidr>)
    requires WellOrdered(p)
    ensures forall sh :: sh in AddLinks(p, d, links) ==> LeavesOutput(sh)
  {
    if links == [] {
    } else {
      LinksLeaveOutput(p, d, links[1..]);
    }
  }

  lemma PartsLeaveOutput(p: Policy, d: Discovered)
    requires WellOrdered(p)
    ensures forall sh :: sh in RoutingPart(p, d) || sh in ManglePart(p) ==> LeavesOutput(sh)
  {
    LinksLeaveOutput(p, d, d.links);
    var check, append := Do(MangleCheck(ClearMark(p))), Do(MangleAppend(ClearMark(p)));
    assert LeavesOutput(check) && LeavesOutput(append);
    assert LeavesOutput(Or(check, append));
  }

  // ----- fail closed -----

  ghost predicate JumpAbsentOrFirst(output: seq<OutRule>) {
    JumpToEgress !in output || output[0] == JumpToEgress
  }

  lemma FilterStage(k: Kernel, p: Policy, net: Net) returns (w2: World)
    requires WellOrdered(p) && Apply(k, p, net).ok
    ensures FilterDone(k, p, w2, Apply(k, p, net).world) && TakesAcl(k, p)
    ensures w2.net.output == net.output
  {
    var w1;
    w1, w2 := Stages(k, p, net);
    FilterRun(k, p, w2);
    PartsLeaveOutput(p, Found(p, net));
    RunLeavesOutput(k, RoutingPart(p, Found(p, net)), World(net, []));
    RunLeavesOutput(k, ManglePart(p), w1);
  }

  /** Whatever the kernel lacks and whatever was in the namespace before: a run that
      exits zero leaves an OUTPUT that lets out the declared set and nothing else. */
  lemma FailClosed(k: Kernel, p: Policy, net: Net, pkt: Packet, dev: string)
    requires WellOrdered(p) && JumpAbsentOrFirst(net.output) && Apply(k, p, net).ok
    ensures var out := Apply(k, p, net).world.net;
            OutputVerdict(out.output, out.egress, pkt, dev) == Accept <==> Declared(k, p, pkt, dev)
  {
    var w2 := FilterStage(k, p, net);
    var out := Apply(k, p, net).world.net;
    assert out.output[0] == JumpToEgress;
    AllAccept(p);
    FirstMatch(k, AclSteps(p), Denial(k), pkt, dev);
    HitsDeclared(k, p, pkt, dev);
  }

  /** The hook is consulted first exactly when it was not already sitting further down:
      `-C` finds it there, and `-I` never runs. */
  lemma HookFirstIff(k: Kernel, p: Policy, net: Net)
    requires WellOrdered(p) && !k.refuses(JumpCheck) && Apply(k, p, net).ok
    ensures var out := Apply(k, p, net).world.net.output;
            out != [] && (out[0] == JumpToEgress <==> JumpAbsentOrFirst(net.output))
  {
    var w2 := FilterStage(k, p, net);
  }

  /** What stands before the hook in OUTPUT, once the script has run. */
  function BeforeHook(output: seq<OutRule>): seq<AclRule> {
    if JumpToEgress !in output || output[0] == JumpToEgress then []
    else [output[0].rule] + BeforeHook(output[1..])
  }

  /** The hook's verdict is final, because its chain ends in a denial; what is before it goes first. */
  lemma {:induction false} UpToHook(output: seq<OutRule>, egress: seq<AclRule>, pkt: Packet, dev: string)
    requires JumpToEgress in output && ChainVerdict(egress, pkt, dev).Some?
    ensures OutputVerdict(output, Some(egress), pkt, dev) ==
            var first := ChainVerdict(BeforeHook(output), pkt, dev);
            if first.Some? then first.value else ChainVerdict(egress, pkt, dev).value
  {
    if output[0] == JumpToEgress {
    } else {
      assert JumpToEgress in output[1..];
      UpToHook(output[1..], egress, pkt, dev);
      var rest := BeforeHook(output[1..]);
      assert BeforeHook(output) == [output[0].rule] + rest && ([output[0].rule] + rest)[1..] == rest;
      assert ChainVerdict([output[0].rule][1..], pkt, dev) == None;
    }
  }

  /** For whatever was in OUTPUT before: a packet gets out if and only if a rule that stands
      before the hook accepts it, or none of those decides and it is declared. The hook is
      left where it was found, and goes first only if it was not there. */
  lemma LetOutIff(k: Kernel, p: Policy, net: Net, pkt: Packet, dev: string)
    requires WellOrdered(p) && !k.refuses(JumpCheck) && Apply(k, p, net).ok
    ensures var out := Apply(k, p, net).world.net;
            var first := ChainVerdict(BeforeHook(net.output), pkt, dev);
            OutputVerdict(out.output, out.egress, pkt, dev) == Accept <==>
            first == Some(Accept) || (first.None? && Declared(k, p, pkt, dev))
  {
    var w2 := FilterStage(k, p, net);
    var out := Apply(k, p, net).world.net;
    AllAccept(p);
    FirstMatch(k, AclSteps(p), Denial(k), pkt, dev);
    HitsDeclared(k, p, pkt, dev);
    UpToHook(out.output, out.egress.value, pkt, dev);
    assert JumpToEgress !in net.output ==> out.output[0] == JumpToEgress;
  }

  // ----- the namespace after a successful run -----

  /** A namespace as it may stand before the script, and a kernel that can at least
      look things up and clear them away. */
  ghost predicate Ready(k: Kernel, p: Policy, net: Net) {
    WellOrdered(p) && Manageable(k) && Sorted(net.rules) && MangleConsistent(k, p, net)
  }

  lemma AllStages(k: Kernel, p: Policy, net: Net) returns (w1: World, w2: World)
    requires Ready(k, p, net) && Apply(k, p, net).ok
    ensures RoutingDone(p, Found(p, net), World(net, []), w1) && TakesRules(k, p, Found(p, net))
    ensures Run(k, ManglePart(p), w1) == Status(w2, true)
    ensures FilterDone(k, p, w2, Apply(k, p, net).world) && TakesAcl(k, p)
  {
    w1, w2 := Stages(k, p, net);
    LinksDistinct(net.routes, p.tunDevice);
    RoutingRun(k, p, Found(p, net), World(net, []));
    MangleRun(k, p, w1);
    FilterRun(k, p, w2);
  }

  /** The mangle rules a packet goes through before the script's own, and after it. The
      script leaves its rule where it finds it, and otherwise appends it. */
  function BeforeClear(p: Policy, mangle: seq<MangleRule>): seq<MangleRule> {
    if mangle == [] || mangle[0] == ClearMark(p) then [] else [mangle[0]] + BeforeClear(p, mangle[1..])
  }

  function AfterClear(p: Policy, mangle: seq<MangleRule>): seq<MangleRule> {
    if mangle == [] then []
    else if mangle[0] == ClearMark(p) then mangle[1..]
    else AfterClear(p, mangle[1..])
  }

  lemma {:induction false} ClearSplits(p: Policy, mangle: seq<MangleRule>)
    ensures mangle == if ClearMark(p) in mangle then BeforeClear(p, mangle) + [ClearMark(p)] + AfterClear(p, mangle)
                      else BeforeClear(p, mangle)
    ensures ClearMark(p) !in mangle ==> AfterClear(p, mangle) == []
  {
    if mangle == [] || mangle[0] == ClearMark(p) {
    } else {
      ClearSplits(p, mangle[1..]);
      assert mangle == [mangle[0]] + mangle[1..];
    }
  }

  lemma {:induction false} MangleConcat(a: seq<MangleRule>, b: seq<MangleRule>, m: Mark)
    ensures MangleAll(a + b, m) == MangleAll(b, MangleAll(a, m))
  {
    if a == [] {
      assert a + b == b;
    } else {
      assert (a + b)[1..] == a[1..] + b;
      MangleConcat(a[1..], b, MangleOne(a[0], m));
    }
  }

  /** The mark a packet has when it reaches the script's rule. */
  function Reaching(p: Policy, net: Net, pkt: Packet): Mark {
    MangleAll(BeforeClear(p, net.mangle), pkt.mark)
  }

  /** The mark a packet is routed with: the script's rule lets the gateway's mark by and
      clears any other, and the rules behind it have the last word. */
  lemma FinalMark(k: Kernel, p: Policy, net: Net, pkt: Packet)
    requires Ready(k, p, net) && Apply(k, p, net).ok
    ensures var out := Apply(k, p, net).world.net;
            var m := Reaching(p, net, pkt);
            MangleAll(out.mangle, pkt.mark) ==
            if ClearMark(p) in out.mangle then
              MangleAll(AfterClear(p, net.mangle), if Masked(m, Low16) != p.mark then 0 else m)
            else m
    ensures ClearMark(p) !in Apply(k, p, net).world.net.mangle ==> AfterClear(p, net.mangle) == []
  {
    var w1, w2 := AllStages(k, p, net);
    MangleRun(k, p, w1);
    var out := Apply(k, p, net).world.net;
    var a, b := BeforeClear(p, net.mangle), AfterClear(p, net.mangle);
    ClearSplits(p, net.mangle);
    var m := MangleAll(a, pkt.mark);
    assert MangleAll([ClearMark(p)], m) == MangleOne(ClearMark(p), m);
    if ClearMark(p) in out.mangle {
      assert out.mangle == a + [ClearMark(p)] + b;
      MangleConcat(a, [ClearMark(p)], pkt.mark);
      MangleConcat(a + [ClearMark(p)], b, pkt.mark);
    }
  }

  // ----- routing -----

  /** No rule below the catch-all, other than the script's own, has a route for the
      packet: it is not bound for a local address. */
  ghost predicate Quiet(p: Policy, net: Net, pkt: Packet)
    requires WellOrdered(p)
  {
    forall r :: r in net.rules && r.pref < p.tunPref && r.pref !in OwnPrefs(p) ==> RuleHop(r, net.routes, pkt).None?
  }

  /** A prefix, not a single host, that is directly connected on a device other than the tun. */
  ghost predicate IsConnected(routes: seq<Route>, tun: string, n: Cidr) {
    n.bits < 32 && exists r :: r in routes && r.linkScope && r.dst == Some(n) && !(tun <= r.dev)
  }

  ghost predicate IsNeighbour(p: Policy, net: Net, dst: Address) {
    exists n :: IsConnected(net.routes, p.tunDevice, n) && InNet(dst, n)
  }

  lemma LinksAreConnected(p: Policy, net: Net)
    ensures forall n :: n in Found(p, net).links <==> IsConnected(net.routes, p.tunDevice, n)
  {
    LinksDistinct(net.routes, p.tunDevice);
    forall n ensures n in Found(p, net).links <==> IsConnected(net.routes, p.tunDevice, n) {
      if IsConnected(net.routes, p.tunDevice, n) {
        var r :| r in net.routes && r.linkScope && r.dst == Some(n) && !(p.tunDevice <= r.dev);
        assert IsLink(r, p.tunDevice) && r.dst.value == n;
      }
    }
  }

  /** The first default route that is not on the tun, nor on a device its name begins. */
  ghost predicate IsUplink(routes: seq<Route>, tun: string, i: nat) {
    && i < |routes| && routes[i].dst.None? && !(tun <= routes[i].dev)
    && forall j :: 0 <= j < i && routes[j].dst.None? ==> tun <= routes[j].dev
  }

  /** Where the gateway's own traffic has to go: the uplink's table, or main when there is none. */
  ghost predicate IsBypass(routes: seq<Route>, tun: string, table: string) {
    if exists i: nat :: IsUplink(routes, tun, i) then
      exists i: nat :: IsUplink(routes, tun, i) && routes[i].table == table
    else table == "main"
  }

  lemma {:induction false} DiscoversUplink(routes: seq<Route>, tun: string) returns (i: nat)
    ensures i <= |routes| && forall j :: 0 <= j < i && routes[j].dst.None? ==> tun <= routes[j].dev
    ensures i < |routes| ==> IsUplink(routes, tun, i) && FirstDefault(routes, tun) == routes[i].table
    ensures i == |routes| ==> FirstDefault(routes, tun) == "main"
  {
    if routes == [] || (routes[0].dst.None? && !(tun <= routes[0].dev)) {
      i := 0;
    } else {
      i := DiscoversUplink(routes[1..], tun);
      i := i + 1;
    }
  }

  lemma BypassIsFound(p: Policy, net: Net, table: string)
    ensures IsBypass(net.routes, p.tunDevice, table) <==> Found(p, net).bypassTable == table
  {
    var i := DiscoversUplink(net.routes, p.tunDevice);
    forall j: nat | IsUplink(net.routes, p.tunDevice, j) ensures i == j {
      assert j < i || i < j || i == j;
    }
  }

  /** A table with a default route has an answer for every destination. */
  lemma {:induction false} DefaultAnswers(routes: seq<Route>, r: Route, dst: Address)
    requires r in routes && r.dst.None?
    ensures TableHop(routes, r.table, dst).Some?
  {
    if routes[0] == r {
    } else {
      DefaultAnswers(routes[1..], r, dst);
    }
  }

  lemma OwnRules(k: Kernel, p: Policy, net: Net)
    requires Ready(k, p, net) && SingleLeftovers(p, net.rules) && Apply(k, p, net).ok
    ensures var out := Apply(k, p, net).world.net;
            && out.routes == net.routes && Sorted(out.rules)
            && At(out.rules, p.bypassPref) == [BypassRule(p, Found(p, net))]
            && At(out.rules, p.bypassPref + 1) == [SecondChanceRule(p)]
            && At(out.rules, LocalPref(p)) == LinkRules(p, Found(p, net), Found(p, net).links)
            && At(out.rules, p.tunPref) == [TunRule(p)]
            && (forall q :: q !in OwnPrefs(p) ==> At(out.rules, q) == At(net.rules, q))
  {
    var w1, w2 := AllStages(k, p, net);
    MangleRun(k, p, w1);
    OnlyOwn(p, Found(p, net), World(net, []), w1);
  }

  lemma NeighbourRulesLeft(k: Kernel, p: Policy, net: Net)
    requires Ready(k, p, net) && SingleLeftovers(p, net.rules) && Apply(k, p, net).ok
    ensures var rules, table := Apply(k, p, net).world.net.rules, Found(p, net).bypassTable;
            && (forall r :: r in rules && r.pref == p.tunPref - 5 ==> r.sel.To? && r.action == Lookup(table))
            && (forall n :: IpRule(p.tunPref - 5, To(n), Lookup(table)) in rules <==>
                            IsConnected(net.routes, p.tunDevice, n))
  {
    OwnRules(k, p, net);
    LinksAreConnected(p, net);
    var rules, links := Apply(k, p, net).world.net.rules, Found(p, net).links;
    var added := LinkRules(p, Found(p, net), links);
    forall r | r in rules && r.pref == LocalPref(p) ensures r.sel.To? && r.action == Lookup(Found(p, net).bypassTable) {
      AtMember(rules, r);
    }
    forall n ensures LinkRule(p, Found(p, net), n) in rules <==> n in links {
      AtMember(rules, LinkRule(p, Found(p, net), n));
      if n in links {
        var i :| 0 <= i < |links| && links[i] == n;
        assert added[i] == LinkRule(p, Found(p, net), n);
      }
    }
  }

  /** The same in terms of the policy and the routes alone: four preferences, each with its own
      rules and no other, and a table that is the uplink's. */
  lemma RulesLeft(k: Kernel, p: Policy, net: Net, table: string)
    requires Ready(k, p, net) && SingleLeftovers(p, net.rules) && Apply(k, p, net).ok
    requires IsBypass(net.routes, p.tunDevice, table)
    ensures var rules := Apply(k, p, net).world.net.rules;
            var marked := Fwmark(p.mark, if p.mark == 0 then NoBits else Whole);
            && At(rules, p.bypassPref) == [IpRule(p.bypassPref, marked, Lookup(table))]
            && At(rules, p.bypassPref + 1) == [IpRule(p.bypassPref + 1, marked, Lookup("main"))]
            && At(rules, p.tunPref) == [IpRule(p.tunPref, FromAll, Lookup(p.table))]
            && (forall r :: r in rules && r.pref == p.tunPref - 5 ==> r.sel.To? && r.action == Lookup(table))
            && (forall n :: IpRule(p.tunPref - 5, To(n), Lookup(table)) in rules <==>
                            IsConnected(net.routes, p.tunDevice, n))
            && (forall r: IpRule :: r.pref !in {p.bypassPref, p.bypassPref + 1, p.tunPref - 5, p.tunPref} ==>
                  (r in rules <==> r in net.rules))
  {
    assert Found(p, net).bypassTable == table by { BypassIsFound(p, net, table); }
    OwnRules(k, p, net);
    NeighbourRulesLeft(k, p, net);
    forall r: IpRule | r.pref !in OwnPrefs(p) ensures r in Apply(k, p, net).world.net.rules <==> r in net.rules {
      AtMember(Apply(k, p, net).world.net.rules, r);
      AtMember(net.rules, r);
    }
  }

  /** A rule of the result that is up to the catch-all either is one of the script's or was
      there before. */
  lemma RuleUpTo(k: Kernel, p: Policy, net: Net, table: string, r: IpRule)
    requires Ready(k, p, net) && SingleLeftovers(p, net.rules) && Apply(k, p, net).ok
    requires IsBypass(net.routes, p.tunDevice, table)
    requires r in Apply(k, p, net).world.net.rules
    ensures || (r.pref !in OwnPrefs(p) && r in net.rules)
            || r == BypassRule(p, Found(p, net)) || r == SecondChanceRule(p) || r == TunRule(p)
            || (exists n :: IsConnected(net.routes, p.tunDevice, n) && r == LinkRule(p, Found(p, net), n))
  {
    RulesLeft(k, p, net, table);
    BypassIsFound(p, net, table);
    AtMember(Apply(k, p, net).world.net.rules, r);
    if r.pref == LocalPref(p) {
      assert r == LinkRule(p, Found(p, net), r.sel.net);
    }
  }

  /** A packet that does not carry the gateway's mark when it is routed, and is not for
      a neighbour, goes by the tun's table, whatever rules sit above the catch-all. */
  lemma TunnelledUnlessMarked(k: Kernel, p: Policy, net: Net, pkt: Packet)
    requires Ready(k, p, net) && SingleLeftovers(p, net.rules) && Apply(k, p, net).ok
    requires p.mark != 0 && pkt.mark != p.mark && Quiet(p, net, pkt) && !IsNeighbour(p, net, pkt.dst)
    requires TableHop(net.routes, p.table, pkt.dst).Some?
    ensures RouteOf(Apply(k, p, net).world.net.rules, net.routes, pkt) == TableHop(net.routes, p.table, pkt.dst)
  {
    OwnRules(k, p, net);
    var rules := Apply(k, p, net).world.net.rules;
    OnlyAt(rules, TunRule(p));
    BypassIsFound(p, net, Found(p, net).bypassTable);
    forall r | r in rules && r.pref < p.tunPref ensures RuleHop(r, net.routes, pkt).None? {
      RuleUpTo(k, p, net, Found(p, net).bypassTable, r);
    }
    FirstToDecide(rules, net.routes, pkt, TunRule(p));
  }

  /** A packet that does carry it goes by the bypass table; with FWMARK 0 every packet does. */
  lemma BypassedWhenMarked(k: Kernel, p: Policy, net: Net, pkt: Packet, table: string)
    requires Ready(k, p, net) && SingleLeftovers(p, net.rules) && Apply(k, p, net).ok
    requires (pkt.mark == p.mark || p.mark == 0) && Quiet(p, net, pkt)
    requires IsBypass(net.routes, p.tunDevice, table) && TableHop(net.routes, table, pkt.dst).Some?
    ensures RouteOf(Apply(k, p, net).world.net.rules, net.routes, pkt) == TableHop(net.routes, table, pkt.dst)
  {
    var rules := Apply(k, p, net).world.net.rules;
    assert Sorted(rules) && At(rules, p.bypassPref) == [BypassRule(p, Found(p, net))] by { OwnRules(k, p, net); }
    BypassIsFound(p, net, table);
    OnlyAt(rules, BypassRule(p, Found(p, net)));
    forall r | r in rules && r.pref < p.bypassPref ensures RuleHop(r, net.routes, pkt).None? {
      RuleUpTo(k, p, net, table, r);
    }
    FirstToDecide(rules, net.routes, pkt, BypassRule(p, Found(p, net)));
  }

  /** Where there is an uplink its table has an answer, and the gateway's traffic takes it,
      off the tun if that table has nothing on the tun. */
  lemma GatewayReachesUplink(k: Kernel, p: Policy, net: Net, pkt: Packet, i: nat)
    requires Ready(k, p, net) && SingleLeftovers(p, net.rules) && Apply(k, p, net).ok
    requires p.mark != 0 && pkt.mark == p.mark && Quiet(p, net, pkt) && IsUplink(net.routes, p.tunDevice, i)
    ensures var hop := RouteOf(Apply(k, p, net).world.net.rules, net.routes, pkt);
            && hop.Some? && hop == TableHop(net.routes, net.routes[i].table, pkt.dst)
            && ((forall r :: r in net.routes && r.table == net.routes[i].table ==> r.dev != p.tunDevice) ==>
                hop != Some(Via(p.tunDevice)))
  {
    DefaultAnswers(net.routes, net.routes[i], pkt.dst);
    assert IsBypass(net.routes, p.tunDevice, net.routes[i].table) by {
      var j := DiscoversUplink(net.routes, p.tunDevice);
    }
    BypassedWhenMarked(k, p, net, pkt, net.routes[i].table);
    BestIsThere(net.routes, net.routes[i].table, pkt.dst);
  }

  lemma {:induction false} BestIsThere(routes: seq<Route>, table: string, dst: Address)
    ensures var r := BestRoute(routes, table, dst); r.Some? ==> r.value in routes && r.value.table == table
  {
    if routes == [] {
    } else {
      BestIsThere(routes[1..], table, dst);
    }
  }

  /** Of the rules up to the neighbours', those that say anything of an unmarked packet send it
      by the bypass table. */
  lemma UpToNeighbours(k: Kernel, p: Policy, net: Net, pkt: Packet, table: string, r: IpRule)
    requires Ready(k, p, net) && SingleLeftovers(p, net.rules) && Apply(k, p, net).ok
    requires p.mark != 0 && pkt.mark != p.mark && Quiet(p, net, pkt) && IsBypass(net.routes, p.tunDevice, table)
    requires r in Apply(k, p, net).world.net.rules && r.pref <= LocalPref(p)
    ensures RuleHop(r, net.routes, pkt).None? || RuleHop(r, net.routes, pkt) == TableHop(net.routes, table, pkt.dst)
  {
    RuleUpTo(k, p, net, table, r);
    BypassIsFound(p, net, table);
  }

  lemma OneNeighbourRule(k: Kernel, p: Policy, net: Net, pkt: Packet, table: string, n: Cidr)
    requires Ready(k, p, net) && SingleLeftovers(p, net.rules) && Apply(k, p, net).ok
    requires p.mark != 0 && pkt.mark != p.mark && Quiet(p, net, pkt) && IsBypass(net.routes, p.tunDevice, table)
    requires InNet(pkt.dst, n) && TableHop(net.routes, table, pkt.dst).Some?
    requires IpRule(LocalPref(p), To(n), Lookup(table)) in Apply(k, p, net).world.net.rules
    requires Sorted(Apply(k, p, net).world.net.rules)
    ensures RouteOf(Apply(k, p, net).world.net.rules, net.routes, pkt) == TableHop(net.routes, table, pkt.dst)
  {
    var rules, r := Apply(k, p, net).world.net.rules, IpRule(LocalPref(p), To(n), Lookup(table));
    forall q | q in rules && q.pref <= r.pref
      ensures RuleHop(q, net.routes, pkt).None? || RuleHop(q, net.routes, pkt) == RuleHop(r, net.routes, pkt)
    {
      UpToNeighbours(k, p, net, pkt, table, q);
    }
    FirstToDecide(rules, net.routes, pkt, r);
  }

  /** A packet for a machine next door goes by the bypass table too, whatever the tun's table
      says of it: the control plane is not sent through the proxy. */
  lemma NeighboursAreDirect(k: Kernel, p: Policy, net: Net, pkt: Packet, table: string)
    requires Ready(k, p, net) && SingleLeftovers(p, net.rules) && Apply(k, p, net).ok
    requires p.mark != 0 && pkt.mark != p.mark && Quiet(p, net, pkt) && IsNeighbour(p, net, pkt.dst)
    requires IsBypass(net.routes, p.tunDevice, table) && TableHop(net.routes, table, pkt.dst).Some?
    ensures RouteOf(Apply(k, p, net).world.net.rules, net.routes, pkt) == TableHop(net.routes, table, pkt.dst)
  {
    var n :| IsConnected(net.routes, p.tunDevice, n) && InNet(pkt.dst, n);
    assert Sorted(Apply(k, p, net).world.net.rules) by { OwnRules(k, p, net); }
    RulesLeft(k, p, net, table);
    OneNeighbourRule(k, p, net, pkt, table, n);
  }

  /** The device's traffic: where its mark is to be cleared, it does not carry the gateway's
      in its low sixteen bits. */
  ghost predicate Foreign(p: Policy, net: Net, pkt: Packet) {
    Masked(Reaching(p, net, pkt), Low16) != Masked(p.mark, Low16)
  }

  /** The gateway has a mark that tells it apart, and what the namespace does behind the
      script's rule does not give it to a packet whose mark was cleared. */
  predicate Telling(p: Policy, net: Net) {
    p.mark != 0 && MangleAll(AfterClear(p, net.mangle), 0) != p.mark
  }

  /** Everything a routing claim needs to know about the namespace and the packet. */
  ghost predicate Routable(k: Kernel, p: Policy, net: Net, pkt: Packet) {
    && Ready(k, p, net) && SingleLeftovers(p, net.rules) && Apply(k, p, net).ok
    && Quiet(p, net, Remarked(Apply(k, p, net).world.net, pkt))
    && !IsNeighbour(p, net, pkt.dst)
    && TableHop(net.routes, p.table, pkt.dst) == Some(Via(p.tunDevice))
  }

  /** The device's packets are routed without the gateway's mark. */
  lemma ForeignIsUnmarked(k: Kernel, p: Policy, net: Net, pkt: Packet)
    requires Ready(k, p, net) && Apply(k, p, net).ok && Foreign(p, net, pkt)
    ensures var m := MangleAll(Apply(k, p, net).world.net.mangle, pkt.mark);
            Telling(p, net) ==> m != p.mark
    ensures var m := MangleAll(Apply(k, p, net).world.net.mangle, pkt.mark);
            MangleAll(AfterClear(p, net.mangle), 0) == p.mark && p.mark != 0 ==> m == p.mark
  {
    FinalMark(k, p, net, pkt);
  }

  /** The whole pipeline: mangle, route lookup, filter. The device's own packets take
      the tun, and whatever is let out another way is one of the declared exemptions. */
  lemma NoLeak(k: Kernel, p: Policy, net: Net, pkt: Packet)
    requires Routable(k, p, net, pkt) && Telling(p, net)
    requires JumpAbsentOrFirst(net.output)
    ensures var out := Apply(k, p, net).world.net;
            && (Foreign(p, net, pkt) ==> Routed(out, pkt) == Some(Via(p.tunDevice)))
            && (forall dev :: Routed(out, pkt) == Some(Via(dev)) && dev != "lo" && dev != p.tunDevice
                  && OutputVerdict(out.output, out.egress, Remarked(out, pkt), dev) == Accept
                  ==> !Foreign(p, net, pkt) && Exempt(k, p, Remarked(out, pkt)))
  {
    var out := Apply(k, p, net).world.net;
    OwnRules(k, p, net);
    if Foreign(p, net, pkt) {
      ForeignIsUnmarked(k, p, net, pkt);
      TunnelledUnlessMarked(k, p, net, Remarked(out, pkt));
    }
    forall dev { FailClosed(k, p, net, Remarked(out, pkt), dev); }
  }

  /** The exact condition, whatever the kernel lacks. With FWMARK 0 the rule at the head of the
      list selects every packet, and the device's take the bypass. */
  lemma ForeignTunnelledIff(k: Kernel, p: Policy, net: Net, pkt: Packet, table: string, dev: string)
    requires Routable(k, p, net, pkt) && Foreign(p, net, pkt)
    requires IsBypass(net.routes, p.tunDevice, table)
    requires TableHop(net.routes, table, pkt.dst) == Some(Via(dev)) && dev != p.tunDevice
    ensures var out := Apply(k, p, net).world.net;
            Routed(out, pkt) == Some(Via(p.tunDevice)) <==> Telling(p, net)
  {
    var out := Apply(k, p, net).world.net;
    ForeignIsUnmarked(k, p, net, pkt);
    OwnRules(k, p, net);
    if Telling(p, net) {
      TunnelledUnlessMarked(k, p, net, Remarked(out, pkt));
    } else {
      BypassedWhenMarked(k, p, net, Remarked(out, pkt), table);
    }
  }

  /** What becomes of them then is up to the filter. With its marks cleared a packet looks
      like the gateway's own and is let out: FWMARK 0 is a leak end to end. Where the kernel
      cannot clear marks it is stopped, unless it is exempt for another reason. */
  lemma ZeroMarkLeaks(k: Kernel, p: Policy, net: Net, pkt: Packet, table: string, dev: string)
    requires Routable(k, p, net, pkt) && Foreign(p, net, pkt) && JumpAbsentOrFirst(net.output)
    requires IsBypass(net.routes, p.tunDevice, table)
    requires TableHop(net.routes, table, pkt.dst) == Some(Via(dev)) && dev != p.tunDevice
    requires p.mark == 0 && AfterClear(p, net.mangle) == []
    ensures var out := Apply(k, p, net).world.net;
            && Routed(out, pkt) == Some(Via(dev))
            && (OutputVerdict(out.output, out.egress, Remarked(out, pkt), dev) == Accept <==>
                  Declared(k, p, Remarked(out, pkt), dev))
            && (MarkedLikeGateway(p, Remarked(out, pkt)) <==> ClearMark(p) in out.mangle)
  {
    var out := Apply(k, p, net).world.net;
    FinalMark(k, p, net, pkt);
    OwnRules(k, p, net);
    BypassedWhenMarked(k, p, net, Remarked(out, pkt), table);
    FailClosed(k, p, net, Remarked(out, pkt), dev);
  }

  lemma GatewayKeepsMarkIff(k: Kernel, p: Policy, net: Net, pkt: Packet)
    requires Ready(k, p, net) && Apply(k, p, net).ok && p.mark != 0 && Reaching(p, net, pkt) == p.mark
    ensures var out := Apply(k, p, net).world.net;
            Remarked(out, pkt).mark == p.mark <==>
            ClearMark(p) !in out.mangle
            || MangleAll(AfterClear(p, net.mangle), if p.mark < 0x1_0000 then p.mark else 0) == p.mark
  {
    FinalMark(k, p, net, pkt);
  }

  /** The gateway's own connection reaches the bypass exactly when its mark survives: it fits
      the sixteen bits the iptables match looks at, whereas the rule list compares all of
      them, and the rules behind the script's leave it alone. */
  lemma GatewayBypassIff(k: Kernel, p: Policy, net: Net, pkt: Packet, table: string, dev: string)
    requires Routable(k, p, net, pkt) && p.mark != 0
    requires Reaching(p, net, pkt) == p.mark
    requires IsBypass(net.routes, p.tunDevice, table)
    requires TableHop(net.routes, table, pkt.dst) == Some(Via(dev)) && dev != p.tunDevice
    ensures var out := Apply(k, p, net).world.net;
            Routed(out, pkt) == Some(Via(dev)) <==>
            ClearMark(p) !in out.mangle
            || MangleAll(AfterClear(p, net.mangle), if p.mark < 0x1_0000 then p.mark else 0) == p.mark
  {
    var out := Apply(k, p, net).world.net;
    GatewayKeepsMarkIff(k, p, net, pkt);
    assert out.routes == net.routes by { OwnRules(k, p, net); }
    if Remarked(out, pkt).mark == p.mark {
      BypassedWhenMarked(k, p, net, Remarked(out, pkt), table);
    } else {
      TunnelledUnlessMarked(k, p, net, Remarked(out, pkt));
    }
  }

  // ----- running it again -----

  lemma SecondReady(k: Kernel, p: Policy, net: Net)
    requires Ready(k, p, net) && SingleLeftovers(p, net.rules) && Apply(k, p, net).ok
    ensures var out := Apply(k, p, net).world.net;
            && Ready(k, p, out) && SingleLeftovers(p, out.rules) && Found(p, out) == Found(p, net)
            && out.egress.Some? && JumpToEgress in out.output
            && (ClearMark(p) in out.mangle <==> ClearMark(p) in net.mangle || ClearsMarks(k, p))
  {
    OwnRules(k, p, net);
    var w1, w2 := AllStages(k, p, net);
    MangleRun(k, p, w1);
  }

  lemma SecondSucceeds(k: Kernel, p: Policy, net: Net)
    requires Ready(k, p, net) && SingleLeftovers(p, net.rules) && Apply(k, p, net).ok
    ensures Apply(k, p, Apply(k, p, net).world.net).ok
  {
    var out := Apply(k, p, net).world.net;
    SecondReady(k, p, net);
    var v1, v2 := AllStages(k, p, net);
    var w1, w2 := Stages(k, p, out);
    var s0, s := Stages(k, p, net);
    LinksDistinct(out.routes, p.tunDevice);
    RoutingRun(k, p, Found(p, out), World(out, []));
    MangleRun(k, p, w1);
    FilterRun(k, p, w2);
  }

  lemma SameRules(k: Kernel, p: Policy, net: Net)
    requires Ready(k, p, net) && SingleLeftovers(p, net.rules) && Apply(k, p, net).ok
    requires Apply(k, p, Apply(k, p, net).world.net).ok
    ensures Apply(k, p, Apply(k, p, net).world.net).world.net.rules == Apply(k, p, net).world.net.rules
  {
    var out := Apply(k, p, net).world.net;
    SecondReady(k, p, net);
    OwnRules(k, p, net);
    OwnRules(k, p, out);
    var again := Apply(k, p, out).world.net;
    forall q ensures At(again.rules, q) == At(out.rules, q) {
    }
    SameEverywhere(again.rules, out.rules);
  }

  /** Running the script in the namespace it left changes nothing and says the same. */
  lemma Idempotent(k: Kernel, p: Policy, net: Net)
    requires Ready(k, p, net) && SingleLeftovers(p, net.rules) && Apply(k, p, net).ok
    ensures Apply(k, p, Apply(k, p, net).world.net) == Apply(k, p, net)
  {
    var out := Apply(k, p, net).world.net;
    SecondReady(k, p, net);
    SecondSucceeds(k, p, net);
    SameRules(k, p, net);
    var v1, v2 := AllStages(k, p, net);
    MangleRun(k, p, v1);
    var w1, w2 := AllStages(k, p, out);
    MangleRun(k, p, w1);
  }

  // ----- degrading instead of failing -----

  lemma AclNeedsNoModule(k: Kernel, p: Policy)
    requires forall c :: !k.refuses(c)
    ensures TakesAcl(k, p)
  {
    AclParts(p);
    EndpointsAccept(p.proxyEndpoints);
    SubnetsAccept(p.controlSubnets);
  }

  /** Without one it says so, and has not touched anything. */
  lemma NothingWithoutBackend(k: Kernel, p: Policy, net: Net)
    requires WellOrdered(p) && !k.backend
    ensures Apply(k, p, net) == Status(World(net, [NoBackend]), false)
  {
    assert EgressScript(p, Found(p, net))[0] == NeedBackend;
  }

  /** With nothing refused but what a missing module accounts for, the only thing that
      stops the script is having no iptables at all. */
  lemma MissingModulesNeverFail(k: Kernel, p: Policy, net: Net)
    requires WellOrdered(p) && Sorted(net.rules) && MangleConsistent(k, p, net) && SingleLeftovers(p, net.rules)
    requires forall c :: !k.refuses(c)
    ensures Apply(k, p, net).ok <==> k.backend
  {
    var w1, w2 := Stages(k, p, net);
    LinksDistinct(net.routes, p.tunDevice);
    RoutingRun(k, p, Found(p, net), World(net, []));
    MangleRun(k, p, w1);
    FilterRun(k, p, w2);
    AclNeedsNoModule(k, p);
  }

  lemma TrySteps(p: Policy)
    ensures Try(ConntrackRule(), WarnConntrack) in AclSteps(p) && Try(MarkRule(p), WarnMark) in AclSteps(p)
    ensures forall s :: s in AclSteps(p) ==>
              if s.Try? then s == Try(ConntrackRule(), WarnConntrack) || s == Try(MarkRule(p), WarnMark)
              else !s.rule.cond.Established? && !s.rule.cond.MarkIs?
  {
    AclParts(p);
    EndpointsAccept(p.proxyEndpoints);
    SubnetsAccept(p.controlSubnets);
  }

  lemma MissedAndKept(k: Kernel, p: Policy)
    ensures var steps := AclSteps(p);
            && (WarnConntrack in Missed(k, steps) <==> ConntrackRule() !in Kept(k, steps))
            && (WarnMark in Missed(k, steps) <==> MarkRule(p) !in Kept(k, steps))
            && WarnMangle !in Missed(k, steps)
  {
    KeptMembers(k, AclSteps(p));
    TrySteps(p);
  }

  /** What the script prints is what is missing from the namespace it leaves. */
  lemma WarningsAreExact(k: Kernel, p: Policy, net: Net)
    requires Ready(k, p, net) && Apply(k, p, net).ok
    ensures var w := Apply(k, p, net).world;
            && w.net.egress.Some?
            && (WarnMangle in w.lines <==> ClearMark(p) !in w.net.mangle)
            && (WarnConntrack in w.lines <==> ConntrackRule() !in w.net.egress.value)
            && (WarnMark in w.lines <==> MarkRule(p) !in w.net.egress.value)
  {
    var w1, w2 := AllStages(k, p, net);
    MangleRun(k, p, w1);
    MissedAndKept(k, p);
  }

  // ----- the caller -----

  function Warnings(lines: seq<Line>): (w: seq<Line>)
    ensures forall l :: l in w <==> l in lines && IsWarning(l)
    ensures forall l :: multiset(w)[l] == if IsWarning(l) then multiset(lines)[l] else 0
  {
    assert lines == [] || lines == [lines[0]] + lines[1..];
    if lines == [] then []
    else (if IsWarning(lines[0]) then [lines[0]] else []) + Warnings(lines[1..])
  }

  datatype PinError = CouldNotPin

  class Gateway {
    var net: Net

    constructor (net: Net)
      ensures this.net == net
    {
      this.net := net;
    }

    /** A failing script is an error; a weaker policy than intended is a success with
        a warning for each layer that is not in the namespace. */
    method ApplyEgressPolicy(k: Kernel, p: Policy) returns (r: Result<seq<Line>, PinError>)
      requires Ready(k, p, net)
      modifies this
      ensures net == Apply(k, p, old(net)).world.net
      ensures r.Ok? <==> Apply(k, p, old(net)).ok
      ensures r.Ok? ==>
                && net.egress.Some?
                && (WarnMangle in r.value <==> ClearMark(p) !in net.mangle)
                && (WarnConntrack in r.value <==> ConntrackRule() !in net.egress.value)
                && (WarnMark in r.value <==> MarkRule(p) !in net.egress.value)
      ensures r.Ok? && JumpAbsentOrFirst(old(net).output) ==>
                forall pkt, dev :: OutputVerdict(net.output, net.egress, pkt, dev) == Accept <==>
                    Declared(k, p, pkt, dev)
    {
      var status := Apply(k, p, net);
      ghost var before := net;
      net := status.world.net;
      if !status.ok {
        return Err(CouldNotPin);
      }
      WarningsAreExact(k, p, before);
      if JumpAbsentOrFirst(before.output) {
        forall pkt, dev { FailClosed(k, p, before, pkt, dev); }
      }
      return Ok(Warnings(status.world.lines));
    }
  }
}
