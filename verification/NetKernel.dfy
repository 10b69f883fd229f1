/** The part of a Linux network namespace the egress script rewrites: the
    pref-ordered rule list, the route tables, the mangle and filter OUTPUT chains
    and the script's own chain, with what each does to a packet. */
module NetKernel {
  import opened Options

  type Address = nat

  datatype Cidr = Cidr(base: Address, bits: nat)

  function Pow2(n: nat): (p: nat)
    ensures p > 0
  {
    if n == 0 then 1 else 2 * Pow2(n - 1)
  }

  predicate InNet(a: Address, net: Cidr) {
    net.bits <= 32 && a / Pow2(32 - net.bits) == net.base / Pow2(32 - net.bits)
  }

  datatype Packet = Packet(dst: Address, tcp: bool, sport: nat, dport: nat, established: bool, mark: Mark)

  // ----- policy routing -----

  /** SO_MARK values, and the masks a comparison may carry. */
  type Mark = m: nat | m < 0x1_0000_0000
  datatype Mask = NoBits | Low16 | Whole

  function Masked(m: Mark, mask: Mask): Mark {
    match mask
    case NoBits => 0
    case Low16 => m % 0x1_0000
    case Whole => m
  }

  /** What a routing rule compares that names a mark and no mask: every bit, unless the mark
      is zero. Then it compares none, and selects every packet. */
  function ImpliedMask(value: Mark): Mask {
    if value == 0 then NoBits else Whole
  }

  datatype Selector = FromAll | Fwmark(value: Mark, mask: Mask) | To(net: Cidr)
  datatype Action = Lookup(table: string) | Unreachable
  datatype IpRule = IpRule(pref: nat, sel: Selector, action: Action)

  /** One line of `ip route show table all`; `dst` is None for a default route. */
  datatype Route = Route(table: string, dst: Option<Cidr>, dev: string, linkScope: bool)

  /** What a matching rule decides: a device, or an explicit refusal. */
  datatype Hop = Via(dev: string) | NoRoute

  predicate Selects(sel: Selector, p: Packet) {
    match sel
    case FromAll => true
    case Fwmark(value, mask) => Masked(p.mark, mask) == value
    case To(net) => InNet(p.dst, net)
  }

  function PrefixLength(r: Route): int {
    if r.dst.None? then 0 else r.dst.value.bits
  }

  /** Longest prefix wins inside one table; the earlier route wins a tie. */
  function BestRoute(routes: seq<Route>, table: string, dst: Address): Option<Route> {
    if routes == [] then None else
    var r := routes[0];
    var rest := BestRoute(routes[1..], table, dst);
    if r.table != table || (r.dst.Some? && !InNet(dst, r.dst.value)) then rest
    else if rest.Some? && PrefixLength(rest.value) > PrefixLength(r) then rest
    else Some(r)
  }

  function TableHop(routes: seq<Route>, table: string, dst: Address): Option<Hop> {
    var r := BestRoute(routes, table, dst);
    if r.None? then None else Some(Via(r.value.dev))
  }

  /** None when the rule does not match, or its table has nothing for the packet. */
  function RuleHop(r: IpRule, routes: seq<Route>, p: Packet): Option<Hop> {
    if !Selects(r.sel, p) then None
    else if r.action.Unreachable? then Some(NoRoute)
    else TableHop(routes, r.action.table, p.dst)
  }

  function RouteOf(rules: seq<IpRule>, routes: seq<Route>, p: Packet): Option<Hop> {
    if rules == [] then None else
    var h := RuleHop(rules[0], routes, p);
    if h.Some? then h else RouteOf(rules[1..], routes, p)
  }

  // ----- netfilter -----

  /** `-m mark [!] --mark value/mask -j MARK --set-xmark setTo/0xffffffff`. */
  datatype MangleRule = MangleRule(inverted: bool, value: Mark, mask: Mask, setTo: Mark)

  function MangleOne(r: MangleRule, mark: Mark): Mark {
    if (Masked(mark, r.mask) == r.value) != r.inverted then r.setTo else mark
  }

  function MangleAll(rules: seq<MangleRule>, mark: Mark): Mark {
    if rules == [] then mark else MangleAll(rules[1..], MangleOne(rules[0], mark))
  }

  datatype Match =
    | Any
    | OutDev(dev: string)
    | FromTcpPort(port: nat)
    | Established
    | ToEndpoint(address: Address, port: nat)
    | MarkIs(value: Mark, mask: Mask)
    | ToNet(net: Cidr)

  datatype Verdict = Accept | Reject | Drop
  datatype AclRule = AclRule(cond: Match, target: Verdict)
  datatype OutRule = JumpToEgress | Other(rule: AclRule)

  predicate Matches(m: Match, p: Packet, dev: string) {
    match m
    case Any => true
    case OutDev(d) => dev == d
    case FromTcpPort(port) => p.tcp && p.sport == port
    case Established => p.established
    case ToEndpoint(address, port) => p.tcp && p.dst == address && p.dport == port
    case MarkIs(value, mask) => Masked(p.mark, mask) == value
    case ToNet(net) => InNet(p.dst, net)
  }

  function ChainVerdict(chain: seq<AclRule>, p: Packet, dev: string): Option<Verdict> {
    if chain == [] then None
    else if Matches(chain[0].cond, p, dev) then Some(chain[0].target)
    else ChainVerdict(chain[1..], p, dev)
  }

  /** The built-in chain's own policy is ACCEPT, so falling off the end lets a packet out. */
  function OutputVerdict(output: seq<OutRule>, egress: Option<seq<AclRule>>, p: Packet, dev: string): Verdict {
    if output == [] then Accept else
    var here := match output[0]
                case JumpToEgress => if egress.None? then None else ChainVerdict(egress.value, p, dev)
                case Other(rule) => ChainVerdict([rule], p, dev);
    if here.Some? then here.value else OutputVerdict(output[1..], egress, p, dev)
  }

  datatype Net = Net(
    rules: seq<IpRule>,
    routes: seq<Route>,
    mangle: seq<MangleRule>,
    egress: Option<seq<AclRule>>,
    output: seq<OutRule>)

  /** The mark a packet leaves mangle OUTPUT with; changing it there re-runs the route lookup. */
  function Remarked(net: Net, p: Packet): Packet {
    p.(mark := MangleAll(net.mangle, p.mark))
  }

  function Routed(net: Net, p: Packet): Option<Hop> {
    RouteOf(net.rules, net.routes, Remarked(net, p))
  }

  // ----- the commands of the script -----

  datatype Cmd =
    | RuleDel(pref: nat)
    | RuleAdd(rule: IpRule)
    | MangleCheck(m: MangleRule)
    | MangleAppend(m: MangleRule)
    | NewChain
    | FlushChain
    | AclAppend(a: AclRule)
    | JumpCheck
    | JumpInsert

  /** What the host kernel and the gateway image offer. `refuses` stands for any
      other reason a command may have to fail. */
  datatype Kernel = Kernel(
    backend: bool,
    mangleTable: bool,
    markTarget: bool,
    markMatch: bool,
    conntrack: bool,
    rejectTarget: bool,
    refuses: Cmd -> bool)

  predicate Supports(k: Kernel, c: Cmd) {
    !k.refuses(c) &&
    match c
    case MangleCheck(_) => k.mangleTable && k.markTarget && k.markMatch
    case MangleAppend(_) => k.mangleTable && k.markTarget && k.markMatch
    case AclAppend(a) =>
      && (a.cond.Established? ==> k.conntrack)
      && (a.cond.MarkIs? ==> k.markMatch)
      && (a.target.Reject? ==> k.rejectTarget)
    case _ => true
  }

  /** Rules are kept in order of preference; a new one goes after its equals. */
  function InsertRule(rules: seq<IpRule>, r: IpRule): seq<IpRule> {
    if rules != [] && rules[0].pref <= r.pref then [rules[0]] + InsertRule(rules[1..], r) else [r] + rules
  }

  /** `ip rule del pref N` takes out the first rule there, and fails when there is none. */
  function DeleteRule(rules: seq<IpRule>, pref: nat): (out: Option<seq<IpRule>>)
    ensures out.Some? ==> |out.value| == |rules| - 1
  {
    if rules == [] then None
    else if rules[0].pref == pref then Some(rules[1..])
    else
      var rest := DeleteRule(rules[1..], pref);
      if rest.None? then None else Some([rules[0]] + rest.value)
  }

  /** None is a non-zero exit status. */
  function Exec(k: Kernel, c: Cmd, net: Net): Option<Net> {
    if !Supports(k, c) then None else
    match c
    case RuleDel(pref) =>
      var out := DeleteRule(net.rules, pref);
      if out.None? then None else Some(net.(rules := out.value))
    case RuleAdd(r) => if r in net.rules then None else Some(net.(rules := InsertRule(net.rules, r)))
    case MangleCheck(m) => if m in net.mangle then Some(net) else None
    case MangleAppend(m) => Some(net.(mangle := net.mangle + [m]))
    case NewChain => if net.egress.Some? then None else Some(net.(egress := Some([])))
    case FlushChain => if net.egress.None? then None else Some(net.(egress := Some([])))
    case AclAppend(a) => if net.egress.None? then None else Some(net.(egress := Some(net.egress.value + [a])))
    case JumpCheck => if JumpToEgress in net.output then Some(net) else None
    case JumpInsert => if net.egress.None? then None else Some(net.(output := [JumpToEgress] + net.output))
  }
}
