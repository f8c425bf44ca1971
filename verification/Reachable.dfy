/** From planning, new or resumed, to any later cluster.yaml: the invariant of node verbs holds of a
    planned cluster exactly when the definition avoids two clashes the planner does not look for. */
module Reachable {
  import opened Basics
  import opened Addresses
  import opened Ranges
  import opened ClusterModel
  import opened Placement
  import opened Allocation
  import opened Planner
  import opened Resolved
  import opened NodeEdits

  /** What a user can check before the call: no explicit name equal to an automatic one and, on one
      host, at most 199 nodes. */
  ghost predicate Clear(u: UserCluster) {
    && NamesClear(u.name, u.nodes)
    && (u.hosts.None? ==> |Order(u.nodes)| <= 199)
  }

  lemma CpCountOfPrefix(cluster: string, groups: seq<NodeGroup>, ips: seq<Addr>, hosts: Option<seq<string>>, p: nat)
    requires |ips| == |Order(groups)| == |Slots(groups)| && (hosts.Some? ==> |hosts.value| == |ips|)
    requires p <= |ips|
    ensures CpCount(Nodes(cluster, groups, ips, hosts)[..p]) == RoleCount(Slots(groups)[..p], ControlPlane)
  {
    hide Order;
    hide Slots;
    hide CpCount;
    hide RoleCount;
    var nodes := Nodes(cluster, groups, ips, hosts);
    if p == 0 {
      assert nodes[..0] == [] && Slots(groups)[..0] == [];
      NothingDealt(ControlPlane, ["h"], 0);
      NoControlPlanes();
    } else {
      CpCountOfPrefix(cluster, groups, ips, hosts, p - 1);
      OrderSlots(groups);
      Snoc(nodes[..p]);
      assert nodes[..p][..p - 1] == nodes[..p - 1];
      CpCountSnoc(nodes[..p - 1], nodes[p - 1]);
      CountUpTo(Slots(groups), p - 1, ControlPlane);
    }
  }

  lemma NoControlPlanes()
    ensures CpCount([]) == 0
  {
  }

  lemma PlannedRoles(u: UserCluster, ips: seq<Addr>, hosts: Option<seq<string>>)
    requires u.nodes != [] && u.nodes[0].role == ControlPlane
    requires RoleCount(Slots(u.nodes), ControlPlane) % 2 == 1 && RoleCount(Slots(u.nodes), ControlPlane) <= 5
    requires |ips| == |Order(u.nodes)| && (hosts.Some? ==> |hosts.value| == |ips|)
    requires u.nodes[0].count >= 1
    ensures var nodes := Nodes(u.name, u.nodes, ips, hosts);
            nodes != [] && nodes[0].role == ControlPlane && CpCount(nodes) <= 5
  {
    OrderSlots(u.nodes);
    OrderHead(u.nodes);
    hide Order;
    hide Slots;
    hide CpCount;
    hide RoleCount;
    var nodes := Nodes(u.name, u.nodes, ips, hosts);
    CpCountOfPrefix(u.name, u.nodes, ips, hosts, |ips|);
    assert nodes[..|ips|] == nodes && Slots(u.nodes)[..|ips|] == Slots(u.nodes);
  }

  lemma {:induction false} OrderHead(groups: seq<NodeGroup>)
    requires groups != [] && groups[0].count >= 1
    ensures Order(groups) != [] && Order(groups)[0] == 0
  {
    if |groups| > 1 {
      OrderHead(groups[..|groups| - 1]);
    }
  }

  lemma DistinctIps(cluster: string, groups: seq<NodeGroup>, ips: seq<Addr>, hosts: Option<seq<string>>)
    requires |ips| == |Order(groups)| && (hosts.Some? ==> |hosts.value| == |ips|)
    ensures NodeIps(Nodes(cluster, groups, ips, hosts)) == ips
  {
    hide Order;
    hide NodeName;
  }

  lemma SeatedMulti(u: UserCluster, c: Cluster, pool: seq<Addr>, a: Allocation, lans: map<string, LanFacts>)
    requires MultiPlan(u, c, pool, a, lans) && PlacementListed(u) && Distinct(pool)
    ensures c.HostNames() == UserHostNames(u.hosts.value)
    ensures Distinct(a.nodes)
    ensures Seated(c, c.spec.nodes)
  {
    hide Slots;
    hide Order;
    hide Pool;
    hide RangesText;
    hide Allocate;
    hide RoundRobin;
    hide NodeRegion;
    MultiConsistent(u, c, lans);
    AllocationPartitionsPool(pool, Shim(u), WantRouters(u), |Slots(u.nodes)|, a, c.spec.network);
    AllocatedDistinct(pool, Shim(u), WantRouters(u), |Slots(u.nodes)|, a);
    DistinctIps(u.name, u.nodes, a.nodes, Some(RoundRobin(Slots(u.nodes), UserHostNames(u.hosts.value))));
    forall n | n in c.spec.nodes
      ensures n.ip in NodeRegion(c.spec.network).value
    {
      var p :| 0 <= p < |c.spec.nodes| && c.spec.nodes[p] == n;
      assert NodeIps(c.spec.nodes)[p] == n.ip == a.nodes[p];
      assert a.nodes[p] == NodeRegion(c.spec.network).value[p];
    }
  }

  lemma AllocatedDistinct(pool: seq<Addr>, shim: bool, routers: RouterCount, nodes: nat, a: Allocation)
    requires Distinct(pool) && Allocate(pool, shim, routers, nodes) == Ok(a)
    ensures Distinct(a.nodes)
  {
    hide RangesText;
    var head := Head(shim, routers);
    AllocationSlices(pool, shim, routers, nodes, a);
    RegionAvoidsReserved(pool, head, head + nodes);
  }

  /** A planned cluster, whether the create is new or resumes an interrupted one, satisfies the node
      verbs' invariant if and only if the definition is clear. (count is at least one in every group a
      definition can hold.) */
  lemma PlannedInvariant(u: UserCluster, existing: Option<Cluster>, used: set<int>, allowOverlap: bool,
                         lans: Option<map<string, LanFacts>>, operator: Option<string>, c: Cluster)
    requires Resolve(u, existing, used, allowOverlap, lans, operator) == Ok(c)
    requires forall g :: g in u.nodes ==> g.count >= 1
    ensures Inv(c) <==> Clear(u)
  {
    hide Resolve;
    hide Slots;
    hide Order;
    hide Pool;
    hide Allocate;
    hide HostsProblem;
    hide NameProblem;
    hide RoleCount;
    hide NamesClear;
    hide Nodes;
    hide CpCount;
    hide InRegion;
    ResolvedIsValid(u, existing, used, allowOverlap, lans, operator);
    assert u.nodes[0] in u.nodes;
    OrderSlots(u.nodes);
    if u.hosts.None? {
      ResolvedSingle(u, existing, used, allowOverlap, lans, operator, c);
      var ips := Upwards(c.spec.network.index, |Order(u.nodes)|);
      PlannedRoles(u, ips, None);
      DistinctIps(u.name, u.nodes, ips, None);
      NamesDistinctIffClear(u.name, u.nodes, ips, None);
      UpwardsInRegion(c, |Order(u.nodes)|);
      UnhostedNodes(u.name, u.nodes, ips);
    } else {
      ResolvedMulti(u, existing, used, allowOverlap, lans, operator, c);
      AcceptedPlacementListed(u);
      var pool := Pool(u.network.value.range.value).value;
      var a := Allocate(pool, Shim(u), WantRouters(u), |Slots(u.nodes)|).value;
      SeatedMulti(u, c, pool, a, lans.value);
      var placed := Some(RoundRobin(Slots(u.nodes), UserHostNames(u.hosts.value)));
      PlannedRoles(u, a.nodes, placed);
      DistinctIps(u.name, u.nodes, a.nodes, placed);
      NamesDistinctIffClear(u.name, u.nodes, a.nodes, placed);
    }
  }

  lemma UnhostedNodes(cluster: string, groups: seq<NodeGroup>, ips: seq<Addr>)
    requires |ips| == |Order(groups)|
    ensures forall n :: n in Nodes(cluster, groups, ips, None) ==> n.host.None?
  {
    hide Order;
    hide NodeName;
  }

  /** On one host the addresses .1 upwards stay below the reserved ones up to 199 nodes, and no
      further. */
  lemma UpwardsInRegion(c: Cluster, n: nat)
    requires c.spec.network.range.None? && c.spec.network.index <= 31 && n <= 255
    requires c.spec.network.nodes == Prefix(NODE_NETS + c.spec.network.index * 256, 24)
    requires NodeIps(c.spec.nodes) == Upwards(c.spec.network.index, n)
    ensures Distinct(NodeIps(c.spec.nodes))
    ensures (forall m :: m in c.spec.nodes ==> InRegion(c.spec.network, m.ip)) <==> n <= 199
  {
    var ips := Upwards(c.spec.network.index, n);
    assert |c.spec.nodes| == |NodeIps(c.spec.nodes)| == n;
    forall m | m in c.spec.nodes
      ensures n <= 199 ==> InRegion(c.spec.network, m.ip)
    {
      var p :| 0 <= p < |c.spec.nodes| && c.spec.nodes[p] == m;
      assert NodeIps(c.spec.nodes)[p] == m.ip;
    }
    if n > 199 {
      assert NodeIps(c.spec.nodes)[199] == c.spec.nodes[199].ip;
      assert c.spec.nodes[199] in c.spec.nodes;
    }
  }

  /** The one invariant over every reachable cluster.yaml: whatever sequence of add, join, delete and
      CIDR recording follows a clear create, resumed or not, names and addresses stay distinct,
      addresses stay in the node region, every host is a listed one, there are at most five control
      planes, and the network, the hosts and the original control plane's seat are what planning made
      them. */
  lemma EveryReachableFile(u: UserCluster, existing: Option<Cluster>, used: set<int>, allowOverlap: bool,
                           lans: Option<map<string, LanFacts>>, operator: Option<string>, c: Cluster,
                           edits: seq<Edit>, b: Cluster)
    requires Resolve(u, existing, used, allowOverlap, lans, operator) == Ok(c)
    requires (forall g :: g in u.nodes ==> g.count >= 1) && Clear(u)
    requires Reached(c, edits, b)
    ensures Inv(b) && SameFrame(c, b)
  {
    hide Resolve;
    hide Clear;
    hide Inv;
    hide Reached;
    PlannedInvariant(u, existing, used, allowOverlap, lans, operator, c);
    ReachedKeeps(c, edits, b);
  }

  // ---- the spread of an all-unpinned cluster

  lemma {:induction false} NodesOnIsLoad(cluster: string, groups: seq<NodeGroup>, ips: seq<Addr>,
          placed: seq<string>, h: string, p: nat)
    requires |ips| == |Order(groups)| == |Slots(groups)| == |placed| && p <= |ips|
    requires forall s :: s in Slots(groups) ==> s.pin.None?
    ensures NodesOn(Nodes(cluster, groups, ips, Some(placed))[..p], h) == Load(Slots(groups)[..p], placed[..p], h)
  {
    hide Order;
    hide Slots;
    hide NodeName;
    var nodes, slots := Nodes(cluster, groups, ips, Some(placed)), Slots(groups);
    if p > 0 {
      NodesOnIsLoad(cluster, groups, ips, placed, h, p - 1);
      assert nodes[..p][..p - 1] == nodes[..p - 1];
      assert slots[..p][..p - 1] == slots[..p - 1];
      assert placed[..p][..p - 1] == placed[..p - 1];
      assert slots[p - 1] in slots;
    }
  }

  lemma {:induction false} UnpinnedSlots(groups: seq<NodeGroup>)
    requires forall g :: g in groups ==> Pin(g).None?
    ensures forall s :: s in Slots(groups) ==> s.pin.None?
  {
    if groups != [] {
      Snoc(groups);
      UnpinnedSlots(groups[..|groups| - 1]);
      assert groups[|groups| - 1] in groups;
    }
  }

  /** Created without any host pinned, and grown by any number of adds that name no host, a cluster's
      hosts never differ by more than one node. */
  lemma UnpinnedClusterStaysEven(u: UserCluster, existing: Option<Cluster>, used: set<int>, allowOverlap: bool,
                                 lans: Option<map<string, LanFacts>>, operator: Option<string>, c: Cluster,
                                 reqs: seq<NodeRequest>, b: Cluster)
    requires Resolve(u, existing, used, allowOverlap, lans, operator) == Ok(c) && u.hosts.Some?
    requires (forall g :: g in u.nodes ==> g.count >= 1 && Pin(g).None?) && Clear(u)
    requires forall r :: r in reqs ==> r.host.None?
    requires Reached(c, Map(reqs, (r: NodeRequest) => Add(r)), b)
    ensures SpreadWithin(b.HostNames(), b.spec.nodes, 1)
  {
    hide Resolve;
    hide Clear;
    hide Inv;
    hide Reached;
    hide Slots;
    hide Order;
    hide Pool;
    hide Allocate;
    hide HostsProblem;
    hide Nodes;
    hide NodesOn;
    hide Load;
    hide RoundRobin;
    PlannedInvariant(u, existing, used, allowOverlap, lans, operator, c);
    ResolvedIsValid(u, existing, used, allowOverlap, lans, operator);
    ResolvedMulti(u, existing, used, allowOverlap, lans, operator, c);
    AcceptedPlacementListed(u);
    MultiConsistent(u, c, lans.value);
    UnpinnedSlots(u.nodes);
    OrderSlots(u.nodes);
    var slots, hosts := Slots(u.nodes), UserHostNames(u.hosts.value);
    var placed, nodes := RoundRobin(slots, hosts), c.spec.nodes;
    var a := Allocate(Pool(u.network.value.range.value).value, Shim(u), WantRouters(u), |slots|).value;
    assert nodes[..|slots|] == nodes && slots[..|slots|] == slots && placed[..|slots|] == placed;
    forall i, j | 0 <= i < |hosts| && 0 <= j < |hosts|
      ensures NodesOn(nodes, hosts[i]) <= NodesOn(nodes, hosts[j]) + 1
    {
      NodesOnIsLoad(u.name, u.nodes, a.nodes, placed, hosts[i], |slots|);
      NodesOnIsLoad(u.name, u.nodes, a.nodes, placed, hosts[j], |slots|);
      PlacementIsEven(slots, hosts, i, j);
    }
    AutoAddsKeepSpread(c, reqs, 1, b);
  }
}
