/** The egress policy, the script it compiles to, and a run of that script. */
module EgressPolicy {
  import opened Options
  import opened NetKernel
  import opened Text

  datatype Endpoint = Endpoint(address: Address, port: nat)

  datatype Policy = Policy(
    table: string,
    mark: Mark,
    tunDevice: string,
    controlSubnets: seq<Cidr>,
    bypassPref: nat,
    tunPref: nat,
    proxyEndpoints: seq<Endpoint>,
    adbPort: nat)

  const BYPASS_PREF := 90
  const TUN_PREF := 100

  /** Android's own rules start here; the kernel's local table is at zero. */
  const NETD_LOWEST_PREF := 10_000

  /** The gateway's environment, where TABLE, FWMARK and TUN may be overridden. */
  datatype GatewayEnv = GatewayEnv(table: Option<string>, fwmark: Option<Mark>, tun: Option<string>)

  function PolicyFromEnv(env: GatewayEnv, controlSubnets: seq<Cidr>, proxyEndpoints: seq<Endpoint>,
                         adbPort: Option<nat>): (p: Policy)
    ensures WellOrdered(p) && 0 < p.bypassPref && p.tunPref < NETD_LOWEST_PREF
    ensures env.fwmark.Some? ==> p.mark == env.fwmark.value
    ensures env.table.Some? ==> p.table == env.table.value
    ensures env.tun.Some? ==> p.tunDevice == env.tun.value
    ensures env == GatewayEnv(None, None, None) ==> p.table == "0x22b" && p.mark == 0x22b && p.tunDevice == "tun0"
    ensures p.controlSubnets == controlSubnets && p.proxyEndpoints == proxyEndpoints
    ensures p.adbPort == if adbPort.Some? then adbPort.value else 5555
  {
    Policy(if env.table.Some? then env.table.value else "0x22b",
           if env.fwmark.Some? then env.fwmark.value else 0x22b,
           if env.tun.Some? then env.tun.value else "tun0",
           controlSubnets, BYPASS_PREF, TUN_PREF, proxyEndpoints,
           if adbPort.Some? then adbPort.value else 5555)
  }

  function LocalPref(p: Policy): nat
    requires WellOrdered(p)
  {
    p.tunPref - 5
  }

  /** Bypass, second chance, local subnets and catch-all, in that order. */
  predicate WellOrdered(p: Policy) {
    p.bypassPref + 1 < p.tunPref - 5
  }

  // ----- what the script finds out about the namespace -----

  datatype Discovered = Discovered(bypassTable: string, links: seq<Cidr>)

  /** `index($0, "dev " tun)` is a substring test, so every device whose name
      starts with the tun's is left out along with it. */
  predicate OnTun(r: Route, tun: string) {
    tun <= r.dev
  }

  function FirstDefault(routes: seq<Route>, tun: string): string {
    if routes == [] then "main"
    else if routes[0].dst.None? && !OnTun(routes[0], tun) then routes[0].table
    else FirstDefault(routes[1..], tun)
  }

  /** Directly connected prefixes; a host route is printed without a length and is passed over. */
  predicate IsLink(r: Route, tun: string) {
    r.linkScope && !OnTun(r, tun) && r.dst.Some? && r.dst.value.bits < 32
  }

  /** A prefix as it is printed. */
  function Spelled(c: Cidr): string {
    Dotted(c.base / 0x100_0000, c.base / 0x1_0000 % 256, c.base / 256 % 256, c.base % 256, c.bits)
  }

  function Dotted(a: nat, b: nat, c: nat, d: nat, bits: nat): string {
    Decimal(a) + "." + Decimal(b) + "." + Decimal(c) + "." + Decimal(d) + "/" + Decimal(bits)
  }

  function InsertByText(links: seq<Cidr>, n: Cidr): seq<Cidr> {
    if links == [] || Precedes(Spelled(n), Spelled(links[0])) then [n] + links
    else [links[0]] + InsertByText(links[1..], n)
  }

  /** Each once, sorted as text. */
  function Links(routes: seq<Route>, tun: string): seq<Cidr> {
    if routes == [] then [] else
    var rest := Links(routes[1..], tun);
    if IsLink(routes[0], tun) && routes[0].dst.value !in rest then InsertByText(rest, routes[0].dst.value) else rest
  }

  function Discover(routes: seq<Route>, tun: string): Discovered {
    Discovered(FirstDefault(routes, tun), Links(routes, tun))
  }

  // ----- the shell -----

  datatype Line = NoBackend | WarnMangle | WarnConntrack | WarnMark

  predicate IsWarning(l: Line) {
    !l.NoBackend?
  }

  datatype Sh =
    | Do(cmd: Cmd)
    | Echo(line: Line)
    | True
    | Or(first: Sh, second: Sh)      // first || second
    | Unless(cond: Sh, els: Sh)      // if cond; then :; else els; fi
    | DrainPref(pref: nat)           // while ip rule del pref N; do :; done
    | NeedBackend                    // exit 1 when no iptables answers

  datatype World = World(net: Net, lines: seq<Line>)
  datatype Status = Status(world: World, ok: bool)

  function Drain(k: Kernel, pref: nat, net: Net): Net
    decreases |net.rules|
  {
    var next := Exec(k, RuleDel(pref), net);
    if next.None? then net else Drain(k, pref, next.value)
  }

  function Eval(k: Kernel, sh: Sh, w: World): Status {
    match sh
    case Do(cmd) =>
      var next := Exec(k, cmd, w.net);
      if next.None? then Status(w, false) else Status(w.(net := next.value), true)
    case Echo(line) => Status(w.(lines := w.lines + [line]), true)
    case True => Status(w, true)
    case Or(first, second) =>
      var s := Eval(k, first, w);
      if s.ok then s else Eval(k, second, s.world)
    case Unless(cond, els) =>
      var s := Eval(k, cond, w);
      if s.ok then s else Eval(k, els, s.world)
    case DrainPref(pref) => Status(w.(net := Drain(k, pref, w.net)), true)
    case NeedBackend => if k.backend then Status(w, true) else Status(w.(lines := w.lines + [NoBackend]), false)
  }

  /** `set -e`: the first command that fails on its own ends the script. */
  function Run(k: Kernel, script: seq<Sh>, w: World): Status {
    if script == [] then Status(w, true) else
    var s := Eval(k, script[0], w);
    if s.ok then Run(k, script[1..], s.world) else s
  }

  // ----- the compiler -----

  function BypassRule(p: Policy, d: Discovered): IpRule {
    IpRule(p.bypassPref, Fwmark(p.mark, ImpliedMask(p.mark)), Lookup(d.bypassTable))
  }

  function SecondChanceRule(p: Policy): IpRule {
    IpRule(p.bypassPref + 1, Fwmark(p.mark, ImpliedMask(p.mark)), Lookup("main"))
  }

  function LinkRule(p: Policy, d: Discovered, net: Cidr): IpRule
    requires WellOrdered(p)
  {
    IpRule(LocalPref(p), To(net), Lookup(d.bypassTable))
  }

  function TunRule(p: Policy): IpRule {
    IpRule(p.tunPref, FromAll, Lookup(p.table))
  }

  function ClearMark(p: Policy): MangleRule {
    MangleRule(true, p.mark, Low16, 0)
  }

  function AddLinks(p: Policy, d: Discovered, links: seq<Cidr>): seq<Sh>
    requires WellOrdered(p)
  {
    if links == [] then [] else [Do(RuleAdd(LinkRule(p, d, links[0])))] + AddLinks(p, d, links[1..])
  }

  function DeleteOld(p: Policy): seq<Sh> {
    [Or(Do(RuleDel(p.bypassPref)), True),
     Or(Do(RuleDel(p.bypassPref + 1)), True),
     Or(Do(RuleDel(p.tunPref)), True)]
  }

  function AddBypass(p: Policy, d: Discovered): seq<Sh> {
    [Do(RuleAdd(BypassRule(p, d))), Do(RuleAdd(SecondChanceRule(p)))]
  }

  function RoutingPart(p: Policy, d: Discovered): seq<Sh>
    requires WellOrdered(p)
  {
    DeleteOld(p) + AddBypass(p, d) + [DrainPref(LocalPref(p))] + AddLinks(p, d, d.links) + [Do(RuleAdd(TunRule(p)))]
  }

  function ManglePart(p: Policy): seq<Sh> {
    [Unless(Or(Do(MangleCheck(ClearMark(p))), Do(MangleAppend(ClearMark(p)))), Echo(WarnMangle))]
  }

  /** A rule of the chain: mandatory, or given up with a warning. */
  datatype AclStep = Must(rule: AclRule) | Try(rule: AclRule, warning: Line)

  function EndpointSteps(endpoints: seq<Endpoint>): seq<AclStep> {
    if endpoints == [] then []
    else [Must(AclRule(ToEndpoint(endpoints[0].address, endpoints[0].port), Accept))] + EndpointSteps(endpoints[1..])
  }

  function SubnetSteps(subnets: seq<Cidr>): seq<AclStep> {
    if subnets == [] then [] else [Must(AclRule(ToNet(subnets[0]), Accept))] + SubnetSteps(subnets[1..])
  }

  function ConntrackRule(): AclRule { AclRule(Established, Accept) }

  function MarkRule(p: Policy): AclRule { AclRule(MarkIs(p.mark, Low16), Accept) }

  function AclSteps(p: Policy): seq<AclStep> {
    [Must(AclRule(OutDev("lo"), Accept)),
     Must(AclRule(OutDev(p.tunDevice), Accept)),
     Must(AclRule(FromTcpPort(p.adbPort), Accept)),
     Try(ConntrackRule(), WarnConntrack)]
    + EndpointSteps(p.proxyEndpoints)
    + [Try(MarkRule(p), WarnMark)]
    + SubnetSteps(p.controlSubnets)
  }

  function AclCommand(s: AclStep): Sh {
    match s
    case Must(rule) => Do(AclAppend(rule))
    case Try(rule, warning) => Or(Do(AclAppend(rule)), Echo(warning))
  }

  function AclCommands(steps: seq<AclStep>): seq<Sh> {
    if steps == [] then [] else [AclCommand(steps[0])] + AclCommands(steps[1..])
  }

  function OpenChain(): Sh { Or(Do(NewChain), Do(FlushChain)) }

  /** Rejecting is preferred, but what matters is the denial. */
  function DenyRest(): Sh { Or(Do(AclAppend(AclRule(Any, Reject))), Do(AclAppend(AclRule(Any, Drop)))) }

  function HookChain(): Sh { Or(Do(JumpCheck), Do(JumpInsert)) }

  function FilterPart(p: Policy): seq<Sh> {
    [OpenChain()] + AclCommands(AclSteps(p)) + [DenyRest(), HookChain()]
  }

  function EgressScript(p: Policy, d: Discovered): seq<Sh>
    requires WellOrdered(p)
  {
    [NeedBackend] + RoutingPart(p, d) + ManglePart(p) + FilterPart(p)
  }

  /** One run of the script in a namespace. */
  function Apply(k: Kernel, p: Policy, net: Net): Status
    requires WellOrdered(p)
  {
    Run(k, EgressScript(p, Discover(net.routes, p.tunDevice)), World(net, []))
  }
}
