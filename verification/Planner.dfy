/** plan: turning what the user asked for into cluster.yaml (create/plan.py). */
module Planner {
  import opened Basics
  import opened Numbers
  import opened Addresses
  import opened Ranges
  import opened ClusterModel
  import opened Placement
  import opened Allocation

  datatype PlanError =
    | NoNodes
    | NamedGroupCount(name: string)
    | NameTwice(name: string)
    | FirstNotControlPlane
    | EvenControlPlanes(n: nat)
    | TooManyControlPlanes(n: nat)
    | HostsNeedRange
    | PlacementNeedsHosts
    | GvisorMultiHost
    | AllocatedFromRange
    | HostTwice(name: string)
    | TwoLocalHosts
    | NodeHostUnknown(name: string)
    | RouterHostUnknown(name: string)
    | RouterHostsCount(want: nat)
    | BadRange(why: RangeError)
    | NodesNotIndexed
    | IndexUsed(index: nat)
    | OtherRouters
    | RouterAddress(router: Addr)
    | RouterIsARouter(router: Addr)
    | VipNeedsBgp
    | VipOutside(vip: Addr)
    | NotAnAddress
    | NeedLanFacts
    | NoHosts
    | OtherLan(host: string)
    | RangeOutsideLan
    | RangeHasNetworkAddress(ip: int)
    | HostInRange(host: string)
    | TooSmall(short: AllocationError)
    | ResumeSingleHost
    | ResumeInterface(host: string)
    | ResumeHosts
    | ResumePlacement

  // ---- validation

  function GroupNames(groups: seq<NodeGroup>): seq<string> {
    if groups == [] then []
    else
      var g := groups[|groups| - 1];
      GroupNames(groups[..|groups| - 1]) + if g.name.Some? then [g.name.value] else []
  }

  /** The first named group that is not a single node or repeats a name. */
  function NameProblem(groups: seq<NodeGroup>): Option<PlanError> {
    if groups == [] then None
    else
      var before, g := groups[..|groups| - 1], groups[|groups| - 1];
      var p := NameProblem(before);
      if p.Some? || g.name.None? then p
      else if g.count != 1 then Some(NamedGroupCount(g.name.value))
      else if g.name.value in GroupNames(before) then Some(NameTwice(g.name.value))
      else None
  }

  function UserHostNames(hosts: seq<UserHost>): seq<string> { Map(hosts, (h: UserHost) => h.name) }

  function Repeated(names: seq<string>): Option<string> {
    if names == [] then None
    else
      var n := |names| - 1;
      var r := Repeated(names[..n]);
      if r.Some? then r else if names[n] in names[..n] then Some(names[n]) else None
  }

  function WantRouters(u: UserCluster): RouterCount {
    if u.network.Some? && u.network.value.routers.Some? then u.network.value.routers.value else One
  }

  function HostsProblem(u: UserCluster): Option<PlanError> {
    var net := u.network;
    var range := if net.Some? then net.value.range else None;
    if u.hosts.None? != range.None? then Some(HostsNeedRange)
    else if u.hosts.None? then
      if (exists g :: g in u.nodes && Pin(g).Some?)
         || (net.Some? && net.value.routerHosts.Some? && net.value.routerHosts.value != [])
      then Some(PlacementNeedsHosts)
      else None
    else if u.gvisor then Some(GvisorMultiHost)
    else if net.value.nodes.Some? || net.value.router.Some? then Some(AllocatedFromRange)
    else
      var hosts, names := u.hosts.value, UserHostNames(u.hosts.value);
      var twice := Repeated(names);
      var stray := First(u.nodes, (g: NodeGroup) => Pin(g).Some? && Pin(g).value !in names);
      var routers := if net.value.routerHosts.Some? then net.value.routerHosts.value else [];
      var strayRouter := First(routers, (r: string) => r !in names);
      if twice.Some? then Some(HostTwice(twice.value))
      else if |Filter(hosts, (h: UserHost) => h.ssh.None?)| > 1 then Some(TwoLocalHosts)
      else if stray.Some? then Some(NodeHostUnknown(Pin(stray.value).value))
      else if strayRouter.Some? then Some(RouterHostUnknown(strayRouter.value))
      else if net.value.routerHosts.Some? && |routers| != Routing(WantRouters(u)) then
        Some(RouterHostsCount(Routing(WantRouters(u))))
      else
        var pool := Pool(range.value);
        if pool.Err? then Some(BadRange(pool.error)) else None
  }

  /** The rules a definition must follow; the first broken one is reported. */
  function Problem(u: UserCluster): Option<PlanError> {
    if u.nodes == [] then Some(NoNodes)
    else
      var naming := NameProblem(u.nodes);
      if naming.Some? then naming
      else if u.nodes[0].role != ControlPlane then Some(FirstNotControlPlane)
      else
        var cps := RoleCount(Slots(u.nodes), ControlPlane);
        if cps % 2 == 0 then Some(EvenControlPlanes(cps))
        else if cps > 5 then Some(TooManyControlPlanes(cps))
        else HostsProblem(u)
  }

  // ---- the subnet index

  const NODE_NETS: int := 0xAC16_0000 // 172.22.0.0
  const VIP_NETS: int := 0xAC17_0000 // 172.23.0.0
  const POD_NETS: int := 0x0AF4_0000 // 10.244.0.0
  const SERVICE_NETS: int := 0x0A62_0000 // 10.98.0.0

  /** The smallest number from n on that is not used. */
  function LeastUnused(used: set<int>, n: nat): (r: nat)
    ensures r >= n && r !in used
    ensures forall k :: n <= k < r ==> k in used
    decreases |set x | x in used && x >= n|
  {
    if n in used then
      Shrinks(used, n);
      LeastUnused(used, n + 1)
    else n
  }

  lemma Shrinks(used: set<int>, n: nat)
    requires n in used
    ensures |set x | x in used && x >= n + 1| < |set x | x in used && x >= n|
  {
    var big, small := set x | x in used && x >= n, set x | x in used && x >= n + 1;
    assert big == small + {n};
  }

  function PickIndex(u: UserCluster, existing: Option<Cluster>, used: set<int>): Result<nat, PlanError> {
    if existing.Some? then Ok(existing.value.spec.network.index)
    else if u.network.Some? && u.network.value.nodes.Some? then
      var want := u.network.value.nodes.value;
      if want.len == 24 && NODE_NETS <= want.base < NODE_NETS + 0x1_0000 && want.base % 256 == 0 then
        Ok((want.base - NODE_NETS) / 256)
      else Err(NodesNotIndexed)
    else Ok(LeastUnused(used, 0))
  }

  /** The index search itself: count up from zero until a number is free. */
  method SearchIndex(used: set<int>) returns (n: nat)
    ensures n !in used && forall k :: 0 <= k < n ==> k in used
    ensures n == LeastUnused(used, 0)
  {
    n := 0;
    while n in used
      invariant forall k :: 0 <= k < n ==> k in used
      decreases |set x | x in used && x >= n|
    {
      Shrinks(used, n);
      n := n + 1;
    }
  }

  // ---- networks

  function NetworkByIndex(index: nat, wantRouter: Option<Addr>, ha: Option<Mode>, wantVip: Option<Addr>,
                          routers: Option<RouterCount>): Result<Network, PlanError> {
    var mode := if ha.Some? then ha.value else Proxy;
    var nodes, vips := NODE_NETS + index * 256, VIP_NETS + index * 256;
    if wantRouter.Some? && !(index <= 255 && nodes + 220 <= wantRouter.value <= nodes + 253) then
      Err(RouterAddress(wantRouter.value))
    else if routers == Some(Two) && wantRouter.Some? && wantRouter.value % 256 in {251, 252} then
      Err(RouterIsARouter(wantRouter.value))
    else if index > 255 then Err(NotAnAddress)
    else if wantVip.Some? && mode != Bgp then Err(VipNeedsBgp)
    else if wantVip.Some? && !(vips < wantVip.value < vips + 255) then Err(VipOutside(wantVip.value))
    else if index * 8 > 255 then Err(NotAnAddress)
    else
      Ok(Network(
           index,
           Prefix(nodes, 24),
           nodes + 254,
           if wantRouter.Some? then wantRouter.value else nodes + 253,
           mode,
           if routers.Some? then routers.value else One,
           if mode != Bgp then None else if wantVip.Some? then wantVip else Some(vips + 1),
           AddrText(nodes + 201) + ['-'] + AddrText(nodes + 219),
           Prefix(POD_NETS + index * 8 * 256, 21),
           Prefix(SERVICE_NETS + index * 256, 24),
           None,
           None,
           None,
           Some(nodes + 200)))
  }

  datatype LanFacts = LanFacts(iface: string, subnet: Prefix, gateway: Addr, address: Addr)

  function NetworkMulti(index: nat, lan: LanFacts, range: string, ha: Option<Mode>, wantVip: Option<Addr>,
                        routers: RouterCount, a: Allocation, routerHosts: seq<string>): Result<Network, PlanError> {
    var net :- NetworkByIndex(index, None, ha, wantVip, Some(routers));
    Ok(net.(nodes := lan.subnet, gateway := lan.gateway, router := a.router, lbRange := a.lbRange,
            range := Some(range), routerHosts := Some(routerHosts), shim := a.shim, mesh := Some(a.mesh)))
  }

  // ---- nodes

  function NameBase(cluster: string, role: Role): string {
    cluster + (if role == ControlPlane then "-control-plane-" else "-worker-")
  }

  function AutoName(cluster: string, role: Role, k: nat): string { NameBase(cluster, role) + Decimal(k) }

  /** Node p of the definition: its given name, or its number within its role. */
  function NodeName(cluster: string, groups: seq<NodeGroup>, p: nat): string
    requires p < |Order(groups)|
  {
    var g := groups[Order(groups)[p]];
    OrderSlots(groups);
    if g.name.Some? then g.name.value else AutoName(cluster, g.role, RoleCount(Slots(groups)[..p + 1], g.role))
  }

  function NodeAt(cluster: string, groups: seq<NodeGroup>, p: nat, ip: Addr, host: Option<string>): Node
    requires p < |Order(groups)|
  {
    var g := groups[Order(groups)[p]];
    Node(g.role, NodeName(cluster, groups, p), ip, g.cpu, g.memory, g.join, host, None)
  }

  function Nodes(cluster: string, groups: seq<NodeGroup>, ips: seq<Addr>,
          hosts: Option<seq<string>>): (nodes: seq<Node>)
    requires |ips| == |Order(groups)|
    requires hosts.Some? ==> |hosts.value| == |ips|
    ensures |nodes| == |ips|
  {
    seq(|ips|, p requires 0 <= p < |ips| =>
      NodeAt(cluster, groups, p, ips[p], if hosts.Some? then Some(hosts.value[p]) else None))
  }

  /** Addresses .1 upwards of the node subnet. */
  function Upwards(index: nat, n: nat): (ips: seq<Addr>)
    requires index <= 255 && n <= 255
    ensures |ips| == n
  {
    seq(n, p requires 0 <= p < n => NODE_NETS + index * 256 + p + 1)
  }

  /** expand_nodes on one host: more than 255 nodes do not have an address to be written with. */
  function ExpandSingle(cluster: string, groups: seq<NodeGroup>, index: nat): Result<seq<Node>, PlanError> {
    if |Order(groups)| > 0 && (index > 255 || |Order(groups)| > 255) then Err(NotAnAddress)
    else Ok(Nodes(cluster, groups, if index <= 255 then Upwards(index, |Order(groups)|) else [], None))
  }

  /** expand_nodes: one pass over the groups with a counter per role. */
  method ExpandNodes(cluster: string, groups: seq<NodeGroup>, ips: seq<Addr>,
          hosts: Option<seq<string>>) returns (nodes: seq<Node>)
    requires |ips| == |Order(groups)|
    requires hosts.Some? ==> |hosts.value| == |ips|
    ensures nodes == Nodes(cluster, groups, ips, hosts)
  {
    hide RoleCount;
    hide Order;
    hide Slots;
    var order := Order(groups);
    ghost var slots := Slots(groups);
    OrderSlots(groups);
    nodes := [];
    var cp, wk := 0, 0;
    assert slots[..0] == [];
    NothingDealt(ControlPlane, ["h"], 0);
    NothingDealt(Worker, ["h"], 0);
    for p := 0 to |order|
      invariant |nodes| == p
      invariant cp == RoleCount(slots[..p], ControlPlane) && wk == RoleCount(slots[..p], Worker)
      invariant forall q :: 0 <= q < p ==> nodes[q] == Nodes(cluster, groups, ips, hosts)[q]
    {
      var g := groups[order[p]];
      CountUpTo(slots, p, ControlPlane);
      CountUpTo(slots, p, Worker);
      var auto;
      if g.role == ControlPlane {
        cp := cp + 1;
        auto := AutoName(cluster, ControlPlane, cp);
      } else {
        wk := wk + 1;
        auto := AutoName(cluster, Worker, wk);
      }
      nodes := nodes + [Node(g.role, if g.name.Some? then g.name.value else auto, ips[p], g.cpu, g.memory, g.join,
                             if hosts.Some? then Some(hosts.value[p]) else None, None)];
    }
  }

  lemma CountUpTo(slots: seq<Slot>, p: nat, role: Role)
    requires p < |slots|
    ensures RoleCount(slots[..p + 1], role) == RoleCount(slots[..p], role) + if slots[p].role == role then 1 else 0
  {
    assert slots[..p + 1][..p] == slots[..p];
  }

  // ---- resolve

  function OtherLanHost(names: seq<string>, lans: map<string, LanFacts>, lan: LanFacts): Option<string>
    requires forall n :: n in names ==> n in lans
  {
    First(names, (n: string) => n in lans && (lans[n].subnet != lan.subnet || lans[n].gateway != lan.gateway))
  }

  /** What a multi-host definition's range may not contain. */
  function LanProblem(pool: seq<Addr>, names: seq<string>, lans: map<string, LanFacts>,
          lan: LanFacts): Option<PlanError>
    requires forall n :: n in names ==> n in lans
  {
    var own := First(names, (n: string) => n in lans && lans[n].address in pool);
    if exists ip :: ip in pool && !InPrefix(ip, lan.subnet) then Some(RangeOutsideLan)
    else if lan.subnet.base in pool then Some(RangeHasNetworkAddress(lan.subnet.base))
    else if exists ip :: ip in pool && ip == Broadcast(lan.subnet) then Some(RangeHasNetworkAddress(Broadcast(lan.subnet)))
    else if own.Some? then Some(HostInRange(own.value))
    else None
  }

  function RecordedHosts(hosts: seq<UserHost>, lans: map<string, LanFacts>): (r: seq<Host>)
    requires forall h :: h in hosts ==> h.name in lans
    ensures |r| == |hosts|
  {
    seq(|hosts|, i requires 0 <= i < |hosts| => Host(hosts[i].name, hosts[i].ssh, lans[hosts[i].name].iface))
  }

  datatype Plan = Plan(network: Network, nodes: seq<Node>, hosts: Option<seq<Host>>)

  function PlanSingle(u: UserCluster, index: nat): Result<Plan, PlanError> {
    var n := u.network;
    var net :- NetworkByIndex(index,
                              if n.Some? then n.value.router else None,
                              if n.Some? then n.value.ha else None,
                              if n.Some? then n.value.vip else None,
                              if n.Some? then n.value.routers else None);
    var nodes :- ExpandSingle(u.name, u.nodes, index);
    Ok(Plan(net, nodes, None))
  }

  predicate LansKnown(hosts: seq<UserHost>, lans: map<string, LanFacts>) {
    forall h :: h in hosts ==> h.name in lans
  }

  function PlanMulti(u: UserCluster, index: nat, lans: Option<map<string, LanFacts>>): Result<Plan, PlanError>
    requires u.hosts.Some? && u.network.Some? && u.network.value.range.Some?
  {
    if lans.None? || !LansKnown(u.hosts.value, lans.value) then Err(NeedLanFacts)
    else if u.hosts.value == [] then Err(NoHosts)
    else
      var names := UserHostNames(u.hosts.value);
      var facts := lans.value;
      var first := facts[names[0]];
      var other := OtherLanHost(names[1..], facts, first);
      if other.Some? then Err(OtherLan(other.value))
      else
        var pool := Pool(u.network.value.range.value);
        if pool.Err? then Err(BadRange(pool.error))
        else
          var bad := LanProblem(pool.value, names, facts, first);
          if bad.Some? then Err(bad.value)
          else PlanPlaced(u, index, facts, pool.value)
  }

  function PlanPlaced(u: UserCluster, index: nat, lans: map<string, LanFacts>, pool: seq<Addr>): Result<Plan, PlanError>
    requires u.hosts.Some? && u.network.Some? && u.hosts.value != []
    requires LansKnown(u.hosts.value, lans)
  {
    var names := UserHostNames(u.hosts.value);
    var slots := Slots(u.nodes);
    var shim := exists h :: h in u.hosts.value && h.ssh.None?;
    var a := Allocate(pool, shim, WantRouters(u), |slots|);
    if a.Err? then Err(TooSmall(a.error))
    else
      var net :- NetworkMulti(index, lans[names[0]], RangesText(pool), u.network.value.ha, u.network.value.vip, WantRouters(u),
                              a.value, PlaceRouters(u.network.value.routerHosts, names, WantRouters(u)));
      OrderSlots(u.nodes);
      Ok(Plan(net,
              Nodes(u.name, u.nodes, a.value.nodes, Some(RoundRobin(slots, names))),
              Some(RecordedHosts(u.hosts.value, lans))))
  }

  /** The first difference between a recorded spec and a resumed plan that the resume refuses. */
  function ResumeProblem(was: Spec, hosts: seq<Host>, nodes: seq<Node>, net: Network): Option<PlanError> {
    if was.hosts.None? then Some(ResumeSingleHost)
    else
      var moved := First(hosts, (h: Host) =>
        var prior := First(was.hosts.value, (x: Host) => x.name == h.name);
        prior.Some? && prior.value.iface != h.iface);
      if moved.Some? then Some(ResumeInterface(moved.value.name))
      else if Map(was.hosts.value, (h: Host) => (h.name, h.ssh)) != Map(hosts, (h: Host) => (h.name, h.ssh)) then
        Some(ResumeHosts)
      else if Seats(was.nodes) != Seats(nodes) || was.network.routerHosts != net.routerHosts || was.network.range != net.range then
        Some(ResumePlacement)
      else None
  }

  /** What check_resume compares of the nodes: name, address, host. */
  function Seats(nodes: seq<Node>): seq<(string, Addr, Option<string>)> {
    Map(nodes, (n: Node) => (n.name, n.ip, n.host))
  }

  function Resolve(u: UserCluster, existing: Option<Cluster>, used: set<int>, allowOverlap: bool,
                   lans: Option<map<string, LanFacts>>, operator: Option<string>): Result<Cluster, PlanError> {
    var problem := Problem(u);
    if problem.Some? then Err(problem.value)
    else
      var index :- PickIndex(u, existing, used);
      if existing.None? && index in used && !allowOverlap then Err(IndexUsed(index))
      else if existing.Some? && WantRouters(u) != existing.value.spec.network.routers then Err(OtherRouters)
      else
        var plan :- if u.hosts.None? then PlanSingle(u, index) else PlanMulti(u, index, lans);
        var refused :=
          if u.hosts.Some? && existing.Some? && plan.hosts.Some? then
            ResumeProblem(existing.value.spec, plan.hosts.value, plan.nodes, plan.network)
          else None;
        if refused.Some? then Err(refused.value)
        else
          Ok(Cluster(u.name, Spec(plan.network, plan.nodes, plan.hosts),
                     if existing.Some? then existing.value.status else Some(Status(false, true, operator, []))))
  }
}
