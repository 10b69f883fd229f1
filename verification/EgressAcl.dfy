/** What the mangle and filter parts of the script leave behind. */
module EgressAcl {
  import opened Options
  import opened NetKernel
  import opened EgressPolicy
  import opened EgressRouting

  predicate StepTaken(k: Kernel, s: AclStep) {
    Supports(k, AclAppend(s.rule))
  }

  ghost predicate MandatoryTaken(k: Kernel, steps: seq<AclStep>) {
    forall a :: a in steps && a.Must? ==> StepTaken(k, a)
  }

  /** The rules that made it into the chain. */
  function Kept(k: Kernel, steps: seq<AclStep>): seq<AclRule> {
    if steps == [] then []
    else (if StepTaken(k, steps[0]) then [steps[0].rule] else []) + Kept(k, steps[1..])
  }

  /** The warnings for those that did not. */
  function Missed(k: Kernel, steps: seq<AclStep>): seq<Line> {
    if steps == [] then []
    else (if StepTaken(k, steps[0]) || steps[0].Must? then [] else [steps[0].warning]) + Missed(k, steps[1..])
  }

  lemma EvalAppend(k: Kernel, step: AclStep, w: World)
    requires w.net.egress.Some?
    ensures var s := Eval(k, AclCommand(step), w);
            && (s.ok <==> step.Try? || StepTaken(k, step))
            && (s.ok ==> s.world == World(w.net.(egress := Some(w.net.egress.value + Kept(k, [step]))),
                                          w.lines + Missed(k, [step])))
  {
    assert Eval(k, Do(AclAppend(step.rule)), w).ok <==> StepTaken(k, step);
    assert w.net.egress.value + [] == w.net.egress.value && w.lines + [] == w.lines;
    assert Kept(k, [step]) == if StepTaken(k, step) then [step.rule] else [];
    assert Missed(k, [step]) == if StepTaken(k, step) || step.Must? then [] else [step.warning];
  }

  lemma {:induction false} AclRun(k: Kernel, steps: seq<AclStep>, w: World)
    requires w.net.egress.Some?
    ensures var s := Run(k, AclCommands(steps), w);
            && (s.ok <==> MandatoryTaken(k, steps))
            && (s.ok ==> s.world == World(w.net.(egress := Some(w.net.egress.value + Kept(k, steps))),
                                          w.lines + Missed(k, steps)))
  {
    if steps == [] {
      assert w.net.egress.value + [] == w.net.egress.value && w.lines + [] == w.lines;
    } else {
      var cmds := AclCommands(steps);
      assert cmds[0] == AclCommand(steps[0]) && cmds[1..] == AclCommands(steps[1..]);
      var s := Eval(k, cmds[0], w);
      EvalAppend(k, steps[0], w);
      assert forall a :: a in steps <==> a == steps[0] || a in steps[1..];
      if s.ok {
        AclRun(k, steps[1..], s.world);
        assert s.world.net.egress.value + Kept(k, steps[1..]) == w.net.egress.value + Kept(k, steps);
        assert s.world.lines + Missed(k, steps[1..]) == w.lines + Missed(k, steps);
      }
    }
  }

  lemma {:induction false} KeptMembers(k: Kernel, steps: seq<AclStep>)
    ensures forall r :: r in Kept(k, steps) <==> exists s :: s in steps && StepTaken(k, s) && s.rule == r
    ensures forall l :: l in Missed(k, steps) <==>
              exists s :: s in steps && s.Try? && !StepTaken(k, s) && s.warning == l
  {
    if steps == [] {
    } else {
      KeptMembers(k, steps[1..]);
      assert forall s :: s in steps <==> s == steps[0] || s in steps[1..];
    }
  }

  // ----- the declared set -----

  /** Who may send: stated from the policy, not from the chain. */
  ghost predicate Declared(k: Kernel, p: Policy, pkt: Packet, dev: string) {
    || dev == "lo"
    || dev == p.tunDevice
    || Exempt(k, p, pkt)
  }

  predicate MarkedLikeGateway(p: Policy, pkt: Packet) {
    Masked(pkt.mark, Low16) == p.mark
  }

  /** The traffic that may leave through something other than loopback and the tun. */
  ghost predicate Exempt(k: Kernel, p: Policy, pkt: Packet) {
    || (pkt.tcp && pkt.sport == p.adbPort)
    || (pkt.established && Supports(k, AclAppend(ConntrackRule())))
    || (pkt.tcp && Endpoint(pkt.dst, pkt.dport) in p.proxyEndpoints)
    || (MarkedLikeGateway(p, pkt) && Supports(k, AclAppend(MarkRule(p))))
    || (exists n :: n in p.controlSubnets && InNet(pkt.dst, n))
  }

  /** Every mandatory rule of the chain was taken. */
  ghost predicate TakesAcl(k: Kernel, p: Policy) {
    && MandatoryTaken(k, AclSteps(p))
    && (Supports(k, AclAppend(AclRule(Any, Reject))) || Supports(k, AclAppend(AclRule(Any, Drop))))
  }

  predicate LetsOut(k: Kernel, s: AclStep, pkt: Packet, dev: string) {
    StepTaken(k, s) && Matches(s.rule.cond, pkt, dev)
  }

  predicate Hits(k: Kernel, steps: seq<AclStep>, pkt: Packet, dev: string) {
    steps != [] && (LetsOut(k, steps[0], pkt, dev) || Hits(k, steps[1..], pkt, dev))
  }

  lemma {:induction false} HitsConcat(k: Kernel, a: seq<AclStep>, b: seq<AclStep>, pkt: Packet, dev: string)
    ensures Hits(k, a + b, pkt, dev) <==> Hits(k, a, pkt, dev) || Hits(k, b, pkt, dev)
  {
    if a == [] {
      assert a + b == b;
    } else {
      assert (a + b)[1..] == a[1..] + b;
      HitsConcat(k, a[1..], b, pkt, dev);
    }
  }

  lemma HitsOne(k: Kernel, s: AclStep, pkt: Packet, dev: string)
    ensures Hits(k, [s], pkt, dev) <==> StepTaken(k, s) && Matches(s.rule.cond, pkt, dev)
  {
  }

  lemma {:induction false} HitsEndpoints(k: Kernel, es: seq<Endpoint>, pkt: Packet, dev: string)
    requires MandatoryTaken(k, EndpointSteps(es))
    ensures Hits(k, EndpointSteps(es), pkt, dev) <==> pkt.tcp && Endpoint(pkt.dst, pkt.dport) in es
  {
    if es == [] {
    } else {
      var steps := EndpointSteps(es);
      assert steps[0] in steps && steps[1..] == EndpointSteps(es[1..]);
      HitsEndpoints(k, es[1..], pkt, dev);
    }
  }

  lemma {:induction false} HitsSubnets(k: Kernel, subnets: seq<Cidr>, pkt: Packet, dev: string)
    requires MandatoryTaken(k, SubnetSteps(subnets))
    ensures Hits(k, SubnetSteps(subnets), pkt, dev) <==> exists n :: n in subnets && InNet(pkt.dst, n)
  {
    if subnets == [] {
    } else {
      var steps := SubnetSteps(subnets);
      assert steps[0] in steps && steps[1..] == SubnetSteps(subnets[1..]);
      assert forall n :: n in subnets <==> n == subnets[0] || n in subnets[1..];
      HitsSubnets(k, subnets[1..], pkt, dev);
    }
  }

  /** The fixed rules at the head of the chain. */
  function FixedSteps(p: Policy): seq<AclStep> {
    [Must(AclRule(OutDev("lo"), Accept)),
     Must(AclRule(OutDev(p.tunDevice), Accept)),
     Must(AclRule(FromTcpPort(p.adbPort), Accept)),
     Try(ConntrackRule(), WarnConntrack)]
  }

  lemma HitsFixed(k: Kernel, p: Policy, pkt: Packet, dev: string)
    requires MandatoryTaken(k, FixedSteps(p))
    ensures Hits(k, FixedSteps(p), pkt, dev) <==>
            (|| dev == "lo" || dev == p.tunDevice || (pkt.tcp && pkt.sport == p.adbPort)
             || (pkt.established && Supports(k, AclAppend(ConntrackRule()))))
  {
    var s := FixedSteps(p);
    assert s[0] in s && s[1] in s && s[2] in s;
    HitsFour(k, s, pkt, dev);
  }

  lemma HitsFour(k: Kernel, s: seq<AclStep>, pkt: Packet, dev: string)
    requires |s| == 4
    ensures Hits(k, s, pkt, dev) <==>
            (|| LetsOut(k, s[0], pkt, dev) || LetsOut(k, s[1], pkt, dev)
             || LetsOut(k, s[2], pkt, dev) || LetsOut(k, s[3], pkt, dev))
  {
    assert s == [s[0]] + ([s[1]] + ([s[2]] + [s[3]]));
    HitsConcat(k, [s[0]], [s[1]] + ([s[2]] + [s[3]]), pkt, dev);
    HitsConcat(k, [s[1]], [s[2]] + [s[3]], pkt, dev);
    HitsConcat(k, [s[2]], [s[3]], pkt, dev);
  }

  lemma AclParts(p: Policy)
    ensures AclSteps(p) == FixedSteps(p) + (EndpointSteps(p.proxyEndpoints) +
                                            ([Try(MarkRule(p), WarnMark)] + SubnetSteps(p.controlSubnets)))
  {
  }

  lemma PartsTaken(k: Kernel, p: Policy)
    requires MandatoryTaken(k, AclSteps(p))
    ensures MandatoryTaken(k, FixedSteps(p))
    ensures MandatoryTaken(k, EndpointSteps(p.proxyEndpoints))
    ensures MandatoryTaken(k, SubnetSteps(p.controlSubnets))
  {
    AclParts(p);
  }

  lemma HitsParts(k: Kernel, p: Policy, pkt: Packet, dev: string)
    ensures Hits(k, AclSteps(p), pkt, dev) <==>
            (|| Hits(k, FixedSteps(p), pkt, dev)
             || Hits(k, EndpointSteps(p.proxyEndpoints), pkt, dev)
             || Hits(k, [Try(MarkRule(p), WarnMark)], pkt, dev)
             || Hits(k, SubnetSteps(p.controlSubnets), pkt, dev))
  {
    AclParts(p);
    var es, m, ss := EndpointSteps(p.proxyEndpoints), [Try(MarkRule(p), WarnMark)], SubnetSteps(p.controlSubnets);
    HitsConcat(k, FixedSteps(p), es + (m + ss), pkt, dev);
    HitsConcat(k, es, m + ss, pkt, dev);
    HitsConcat(k, m, ss, pkt, dev);
  }

  lemma AddressedParts(k: Kernel, p: Policy, pkt: Packet, dev: string)
    requires TakesAcl(k, p)
    ensures Hits(k, EndpointSteps(p.proxyEndpoints), pkt, dev) <==>
            pkt.tcp && Endpoint(pkt.dst, pkt.dport) in p.proxyEndpoints
    ensures Hits(k, SubnetSteps(p.controlSubnets), pkt, dev) <==>
            exists n :: n in p.controlSubnets && InNet(pkt.dst, n)
  {
    PartsTaken(k, p);
    HitsEndpoints(k, p.proxyEndpoints, pkt, dev);
    HitsSubnets(k, p.controlSubnets, pkt, dev);
  }

  lemma FixedPart(k: Kernel, p: Policy, pkt: Packet, dev: string)
    requires TakesAcl(k, p)
    ensures Hits(k, FixedSteps(p), pkt, dev) <==>
            (|| dev == "lo" || dev == p.tunDevice || (pkt.tcp && pkt.sport == p.adbPort)
             || (pkt.established && Supports(k, AclAppend(ConntrackRule()))))
  {
    PartsTaken(k, p);
    HitsFixed(k, p, pkt, dev);
  }

  lemma MarkPart(k: Kernel, p: Policy, pkt: Packet, dev: string)
    ensures Hits(k, [Try(MarkRule(p), WarnMark)], pkt, dev) <==>
            MarkedLikeGateway(p, pkt) && Supports(k, AclAppend(MarkRule(p)))
  {
    HitsOne(k, Try(MarkRule(p), WarnMark), pkt, dev);
  }

  /** The rules in the chain and the declared set say the same thing. */
  lemma HitsDeclared(k: Kernel, p: Policy, pkt: Packet, dev: string)
    requires TakesAcl(k, p)
    ensures Hits(k, AclSteps(p), pkt, dev) <==> Declared(k, p, pkt, dev)
  {
    HitsParts(k, p, pkt, dev);
    AddressedParts(k, p, pkt, dev);
    FixedPart(k, p, pkt, dev);
    MarkPart(k, p, pkt, dev);
  }

  // ----- first match -----

  lemma AllAccept(p: Policy)
    ensures forall s :: s in AclSteps(p) ==> s.rule.target == Accept
  {
    EndpointsAccept(p.proxyEndpoints);
    SubnetsAccept(p.controlSubnets);
  }

  lemma {:induction false} EndpointsAccept(es: seq<Endpoint>)
    ensures forall s :: s in EndpointSteps(es) ==> s.Must? && s.rule.target == Accept && s.rule.cond.ToEndpoint?
  {
    if es == [] {
    } else {
      EndpointsAccept(es[1..]);
    }
  }

  lemma {:induction false} SubnetsAccept(ns: seq<Cidr>)
    ensures forall s :: s in SubnetSteps(ns) ==> s.Must? && s.rule.target == Accept && s.rule.cond.ToNet?
  {
    if ns == [] {
    } else {
      SubnetsAccept(ns[1..]);
    }
  }

  /** Accepting rules and then one that denies everything: the chain always decides,
      and lets through what some rule matches. */
  lemma {:induction false} FirstMatch(k: Kernel, steps: seq<AclStep>, deny: Verdict, pkt: Packet, dev: string)
    requires forall s :: s in steps ==> s.rule.target == Accept
    requires deny != Accept
    ensures var v := ChainVerdict(Kept(k, steps) + [AclRule(Any, deny)], pkt, dev);
            v.Some? && (v.value == Accept <==> Hits(k, steps, pkt, dev))
  {
    if steps != [] {
      FirstMatch(k, steps[1..], deny, pkt, dev);
      var rest := Kept(k, steps[1..]) + [AclRule(Any, deny)];
      if StepTaken(k, steps[0]) {
        var chain := [steps[0].rule] + rest;
        assert Kept(k, steps) + [AclRule(Any, deny)] == chain;
        assert chain[1..] == rest && steps[0] in steps;
      } else {
        assert Kept(k, steps) == Kept(k, steps[1..]);
      }
    } else {
      assert Kept(k, steps) + [AclRule(Any, deny)] == [AclRule(Any, deny)];
    }
  }

  function Denial(k: Kernel): Verdict {
    if Supports(k, AclAppend(AclRule(Any, Reject))) then Reject else Drop
  }

  /** The chain and hook the filter part leaves. */
  ghost predicate FilterDone(k: Kernel, p: Policy, before: World, after: World) {
    && after.net.egress.Some?
    && after == World(before.net.(egress := after.net.egress, output := after.net.output),
                      before.lines + Missed(k, AclSteps(p)))
    && after.net.egress.value == Kept(k, AclSteps(p)) + [AclRule(Any, Denial(k))]
    && after.net.output == (if JumpToEgress in before.net.output && Supports(k, JumpCheck) then before.net.output
                            else [JumpToEgress] + before.net.output)
  }

  ghost predicate OpensChain(k: Kernel, net: Net) {
    if net.egress.None? then Supports(k, NewChain) else Supports(k, FlushChain)
  }

  ghost predicate HooksChain(k: Kernel, net: Net) {
    (JumpToEgress in net.output && Supports(k, JumpCheck)) || Supports(k, JumpInsert)
  }

  lemma EvalOpen(k: Kernel, w: World)
    ensures var s := Eval(k, OpenChain(), w);
            && (s.ok <==> OpensChain(k, w.net))
            && (s.ok ==> s.world == w.(net := w.net.(egress := Some([]))))
  {
    assert Eval(k, Do(NewChain), w).ok <==> w.net.egress.None? && Supports(k, NewChain);
  }

  lemma EvalDeny(k: Kernel, w: World)
    requires w.net.egress.Some?
    ensures var s := Eval(k, DenyRest(), w);
            && (s.ok <==> || Supports(k, AclAppend(AclRule(Any, Reject)))
                          || Supports(k, AclAppend(AclRule(Any, Drop))))
            && (s.ok ==> s.world == w.(net := w.net.(egress := Some(w.net.egress.value + [AclRule(Any, Denial(k))]))))
  {
    assert Eval(k, Do(AclAppend(AclRule(Any, Reject))), w).ok <==> Supports(k, AclAppend(AclRule(Any, Reject)));
  }

  lemma EvalHook(k: Kernel, w: World)
    requires w.net.egress.Some?
    ensures var s := Eval(k, HookChain(), w);
            && (s.ok <==> HooksChain(k, w.net))
            && (s.ok ==> s.world == w.(net := w.net.(output :=
                  if JumpToEgress in w.net.output && Supports(k, JumpCheck) then w.net.output
                  else [JumpToEgress] + w.net.output)))
  {
    assert Eval(k, Do(JumpCheck), w).ok <==> JumpToEgress in w.net.output && Supports(k, JumpCheck);
  }

  lemma FilterRun(k: Kernel, p: Policy, w: World)
    ensures var s := Run(k, FilterPart(p), w);
            && (s.ok ==> FilterDone(k, p, w, s.world) && TakesAcl(k, p))
            && (s.ok <==> OpensChain(k, w.net) && TakesAcl(k, p) && HooksChain(k, w.net))
  {
    var acl := AclCommands(AclSteps(p));
    assert FilterPart(p) == [OpenChain()] + (acl + ([DenyRest()] + [HookChain()]));
    RunConcat(k, [OpenChain()], acl + ([DenyRest()] + [HookChain()]), w);
    RunOne(k, OpenChain(), w);
    EvalOpen(k, w);
    var s1 := Eval(k, OpenChain(), w);
    if s1.ok {
      RunConcat(k, acl, [DenyRest()] + [HookChain()], s1.world);
      AclRun(k, AclSteps(p), s1.world);
      var s2 := Run(k, acl, s1.world);
      if s2.ok {
        assert [] + Kept(k, AclSteps(p)) == Kept(k, AclSteps(p));
        RunConcat(k, [DenyRest()], [HookChain()], s2.world);
        RunOne(k, DenyRest(), s2.world);
        EvalDeny(k, s2.world);
        var s3 := Eval(k, DenyRest(), s2.world);
        if s3.ok {
          RunOne(k, HookChain(), s3.world);
          EvalHook(k, s3.world);
        }
      }
    }
  }

  // ----- the mangle part -----

  predicate ClearsMarks(k: Kernel, p: Policy) {
    Supports(k, MangleCheck(ClearMark(p))) && Supports(k, MangleAppend(ClearMark(p)))
  }

  /** The kernel can only be holding the rule if it knows the modules it needs. */
  ghost predicate MangleConsistent(k: Kernel, p: Policy, net: Net) {
    && (Supports(k, MangleAppend(ClearMark(p))) ==> Supports(k, MangleCheck(ClearMark(p))))
    && (ClearMark(p) in net.mangle ==> Supports(k, MangleCheck(ClearMark(p))))
  }

  lemma MangleRun(k: Kernel, p: Policy, w: World)
    requires MangleConsistent(k, p, w.net)
    ensures var s := Run(k, ManglePart(p), w);
            && s.ok
            && s.world.net == w.net.(mangle := s.world.net.mangle)
            && (ClearMark(p) in w.net.mangle ==> s.world == w)
            && (ClearMark(p) !in w.net.mangle && ClearsMarks(k, p) ==>
                  s.world == w.(net := w.net.(mangle := w.net.mangle + [ClearMark(p)])))
            && (ClearMark(p) !in w.net.mangle && !ClearsMarks(k, p) ==>
                  s.world == w.(lines := w.lines + [WarnMangle]))
  {
    var m := Unless(Or(Do(MangleCheck(ClearMark(p))), Do(MangleAppend(ClearMark(p)))), Echo(WarnMangle));
    RunOne(k, m, w);
    var check, append := Do(MangleCheck(ClearMark(p))), Do(MangleAppend(ClearMark(p)));
    assert Eval(k, check, w).ok <==> ClearMark(p) in w.net.mangle && Supports(k, check.cmd);
    assert Eval(k, append, w).ok <==> Supports(k, append.cmd);
    assert Eval(k, Or(check, append), w) == if Eval(k, check, w).ok then Eval(k, check, w) else Eval(k, append, w);
  }
}
