/** Addresses on a LAN that planning does not keep from nodes: router-2's when the pool is out of order,
    and the LAN gateway's. When planning gives one away, and when a later node add can. */
module Clashes {
  import opened Basics
  import opened Addresses
  import opened Ranges
  import opened ClusterModel
  import opened Placement
  import opened Allocation
  import opened Planner
  import opened Resolved
  import opened NodeEdits
  import opened Reachable
  import Preflight
  import Resume

  /** Some node has this address. */
  ghost predicate Taken(c: Cluster, ip: int) { exists n :: n in c.spec.nodes && n.ip as int == ip }

  /** A node and a router container of this cluster have one address. */
  ghost predicate Clash(c: Cluster) {
    c.Routers().Some? && exists n, r :: n in c.spec.nodes && r in c.Routers().value && n.ip == r.ip
  }

  /** A definition for several hosts, out of this pool. */
  ghost predicate Ranged(u: UserCluster, pool: seq<Addr>) {
    && u.hosts.Some? && u.network.Some? && u.network.value.range.Some? && Pool(u.network.value.range.value) == Ok(pool)
  }

  function NodesFrom(u: UserCluster): nat
    requires u.hosts.Some?
  {
    Head(Shim(u), WantRouters(u))
  }

  /** Addresses nodes may take. */
  function RegionOf(u: UserCluster, pool: seq<Addr>): seq<Addr>
    requires u.hosts.Some? && |pool| >= NodesFrom(u) + 6
  {
    pool[NodesFrom(u)..|pool| - 6]
  }

  lemma PlannedPool(u: UserCluster, existing: Option<Cluster>, used: set<int>, allowOverlap: bool,
                    lans: Option<map<string, LanFacts>>, operator: Option<string>, c: Cluster, pool: seq<Addr>)
    requires Resolve(u, existing, used, allowOverlap, lans, operator) == Ok(c) && Ranged(u, pool)
    ensures Distinct(pool) && |pool| >= NodesFrom(u) + |c.spec.nodes| + 6
    ensures c.spec.network.range == Some(RangesText(pool)) && c.spec.network.routers == WantRouters(u)
    ensures c.spec.network.shim.Some? == Shim(u) && c.MultiHost() && c.HostNames() != [] && c.spec.nodes != []
    ensures NodeIps(c.spec.nodes) == pool[NodesFrom(u)..][..|c.spec.nodes|]
    ensures NodeRegion(c.spec.network) == Ok(RegionOf(u, pool))
  {
    hide Resolve;
    hide Pool;
    hide Slots;
    hide Order;
    hide RangesText;
    hide Cluster.Routers;
    hide NodeRegion;
    ResolvedMulti(u, existing, used, allowOverlap, lans, operator, c);
    var a := Allocate(pool, Shim(u), WantRouters(u), |Slots(u.nodes)|).value;
    AllocationSlices(pool, Shim(u), WantRouters(u), |Slots(u.nodes)|, a);
    ResolvedIsValid(u, existing, used, allowOverlap, lans, operator);
    Resume.SomeNode(u);
    PlannedIps(u, c, pool, a, lans.value);
    RegionOfAllocation(pool, c.spec.network, Shim(u));
  }

  lemma PlannedIps(u: UserCluster, c: Cluster, pool: seq<Addr>, a: Allocation, lans: map<string, LanFacts>)
    requires MultiPlan(u, c, pool, a, lans)
    ensures NodeIps(c.spec.nodes) == a.nodes && |c.spec.nodes| == |a.nodes| == |Order(u.nodes)|
    ensures c.spec.network.range == Some(RangesText(pool)) && c.spec.network.shim == a.shim && c.HostNames() != []
    ensures c.spec.network.routers == WantRouters(u) && c.MultiHost()
  {
    hide Slots;
    hide Order;
    hide Pool;
    hide Allocate;
    hide RoundRobin;
    hide NodeName;
    var ips := NodeIps(c.spec.nodes);
    forall p | 0 <= p < |a.nodes|
      ensures ips[p] == a.nodes[p]
    {
    }
  }

  /** Of the two derived routers only the second can meet a node. */
  lemma ClashIs(c: Cluster, pool: seq<Addr>)
    requires Distinct(pool) && |pool| >= Head(c.spec.network.shim.Some?, Two) + 6
    requires c.spec.network.range == Some(RangesText(pool)) && c.spec.network.routers == Two && c.Routers().Some?
    requires forall n :: n in c.spec.nodes ==> n.ip in pool[Head(c.spec.network.shim.Some?, Two)..|pool| - 6]
    ensures pool[0] as int + 2 < 0x1_0000_0000
    ensures Clash(c) <==> exists n :: n in c.spec.nodes && n.ip == pool[0] + 2
  {
    hide RangesText;
    hide RangeStart;
    var head := Head(c.spec.network.shim.Some?, Two);
    RangeStartOfPrinted(pool);
    RegionAvoidsReserved(pool, head, |pool| - 6);
    assert pool[1] in pool[..head];
    var rs := c.Routers().value;
    assert rs == [rs[0], rs[1]] && rs[0].ip == pool[1] && rs[1].ip == pool[0] + 2;
    assert rs[1] in rs;
  }

  lemma DealtInRegion(pool: seq<Addr>, from: nat, count: nat, end: nat)
    requires from + count <= end <= |pool|
    ensures forall ip :: ip in pool[from..][..count] ==> ip in pool[from..end]
  {
    assert pool[from..][..count] == pool[from..end][..count];
  }

  lemma IpsOfNodes(nodes: seq<Node>)
    ensures forall ip :: ip in NodeIps(nodes) <==> exists n :: n in nodes && n.ip == ip
  {
    var ips := NodeIps(nodes);
    forall n | n in nodes
      ensures n.ip in ips
    {
      MapIn(nodes, (n: Node) => n.ip, n);
    }
    forall ip | ip in ips
      ensures exists n :: n in nodes && n.ip == ip
    {
      var k :| 0 <= k < |ips| && ips[k] == ip;
      assert nodes[k] in nodes;
    }
  }

  const AnyWorker := NodeRequest(Worker, None, None, None)

  /** Adding workers takes the addresses of the node region one after the other. */
  lemma {:induction false} GrowTo(a: Cluster, region: seq<Addr>, k: nat) returns (edits: seq<Edit>, b: Cluster)
    requires a.spec.nodes != [] && a.HostNames() != []
    requires a.spec.network.range.Some? && NodeRegion(a.spec.network) == Ok(region) && k <= |region|
    ensures Reached(a, edits, b) && b.spec.nodes != [] && b.spec.network == a.spec.network && b.spec.hosts == a.spec.hosts
    ensures forall i :: 0 <= i < k ==> Taken(b, region[i])
  {
    hide Reached;
    hide NodeRegion;
    if k == 0 {
      edits, b := [], a;
      ReachedNothing(a);
    } else {
      edits, b := GrowTo(a, region, k - 1);
      hide Apply;
      if !Taken(b, region[k - 1]) {
        AddTakes(b, region, k - 1);
        ReachedNext(a, edits, b, Add(AnyWorker));
        edits, b := edits + [Add(AnyWorker)], Apply(b, Add(AnyWorker));
      }
      hide Taken;
    }
  }

  lemma AddTakes(b: Cluster, region: seq<Addr>, k: nat)
    requires b.spec.nodes != [] && b.HostNames() != []
    requires b.spec.network.range.Some? && NodeRegion(b.spec.network) == Ok(region) && k < |region|
    requires (forall i :: 0 <= i < k ==> Taken(b, region[i])) && !Taken(b, region[k])
    ensures var next := Apply(b, Add(AnyWorker));
            && next.spec.network == b.spec.network && next.spec.hosts == b.spec.hosts
            && next.spec.nodes != [] && forall i :: 0 <= i <= k ==> Taken(next, region[i])
  {
    hide NodeRegion;
    hide NextName;
    FirstIsLeast(region, (ip: Addr) => forall n :: n in b.spec.nodes ==> n.ip != ip, k);
    var n, next := PlanAdd(b, AnyWorker).value, Apply(b, Add(AnyWorker));
    assert next.spec.nodes == b.spec.nodes + [n] && n.ip == region[k];
    assert next.spec.nodes[|b.spec.nodes|] == n;
    hide PlanAdd;
    hide Apply;
    forall i | 0 <= i < k
      ensures Taken(next, region[i])
    {
      var m :| m in b.spec.nodes && m.ip == region[i];
      assert m in next.spec.nodes;
    }
  }

  // ---- any address

  /** Planning gives a node this address exactly when it is among those dealt. */
  lemma PlannedTakenIff(u: UserCluster, existing: Option<Cluster>, used: set<int>, allowOverlap: bool,
                        lans: Option<map<string, LanFacts>>, operator: Option<string>, c: Cluster, pool: seq<Addr>, ip: int)
    requires Resolve(u, existing, used, allowOverlap, lans, operator) == Ok(c) && Ranged(u, pool)
    ensures |pool| >= NodesFrom(u) + |c.spec.nodes| + 6
    ensures Taken(c, ip) <==> ip in pool[NodesFrom(u)..][..|c.spec.nodes|]
  {
    hide Resolve;
    hide Pool;
    hide RangesText;
    PlannedPool(u, existing, used, allowOverlap, lans, operator, c, pool);
    IpsOfNodes(c.spec.nodes);
  }

  lemma ReachedTaken(u: UserCluster, existing: Option<Cluster>, used: set<int>, allowOverlap: bool,
                     lans: Option<map<string, LanFacts>>, operator: Option<string>, c: Cluster, pool: seq<Addr>,
                     edits: seq<Edit>, b: Cluster)
    requires Resolve(u, existing, used, allowOverlap, lans, operator) == Ok(c) && Ranged(u, pool)
    requires (forall g :: g in u.nodes ==> g.count >= 1) && Clear(u) && Reached(c, edits, b)
    ensures |pool| >= NodesFrom(u) + 6 && b.spec.network == c.spec.network
    ensures forall n :: n in b.spec.nodes ==> n.ip in RegionOf(u, pool)
  {
    hide Resolve;
    hide Pool;
    hide RangesText;
    hide NodeRegion;
    hide Reached;
    hide Clear;
    PlannedPool(u, existing, used, allowOverlap, lans, operator, c, pool);
    EveryReachableFile(u, existing, used, allowOverlap, lans, operator, c, edits, b);
    assert forall n :: n in b.spec.nodes ==> InRegion(b.spec.network, n.ip);
  }

  /** Some sequence of verbs gives a node this address exactly when it is anywhere in the region. */
  lemma ReachableTakenIff(u: UserCluster, existing: Option<Cluster>, used: set<int>, allowOverlap: bool,
                          lans: Option<map<string, LanFacts>>, operator: Option<string>, c: Cluster, pool: seq<Addr>, ip: int)
    requires Resolve(u, existing, used, allowOverlap, lans, operator) == Ok(c) && Ranged(u, pool)
    requires (forall g :: g in u.nodes ==> g.count >= 1) && Clear(u)
    ensures |pool| >= NodesFrom(u) + 6
    ensures (exists edits, b :: Reached(c, edits, b) && Taken(b, ip)) <==> ip in RegionOf(u, pool)
  {
    hide Resolve;
    hide Pool;
    hide Clear;
    hide Reached;
    hide NodeRegion;
    PlannedPool(u, existing, used, allowOverlap, lans, operator, c, pool);
    forall edits, b | Reached(c, edits, b) && Taken(b, ip)
      ensures ip in RegionOf(u, pool)
    {
      ReachedTaken(u, existing, used, allowOverlap, lans, operator, c, pool, edits, b);
    }
    if ip in RegionOf(u, pool) {
      Reach(c, RegionOf(u, pool), ip);
    }
  }

  lemma Reach(c: Cluster, region: seq<Addr>, ip: int)
    requires c.spec.nodes != [] && c.HostNames() != [] && c.spec.network.range.Some?
    requires NodeRegion(c.spec.network) == Ok(region) && ip in region
    ensures exists edits, b :: Reached(c, edits, b) && Taken(b, ip)
  {
    hide NodeRegion;
    hide Reached;
    var k :| 0 <= k < |region| && region[k] as int == ip;
    var edits, b := GrowTo(c, region, k + 1);
  }

  // ---- router-2

  lemma SameRouting(c: Cluster, b: Cluster)
    requires c.spec.network == b.spec.network
    ensures c.Routers().Some? <==> b.Routers().Some?
  {
    hide RangeStart;
  }

  /** With two routers, a clash is a node with the second address after the pool's first. */
  lemma ClashIsTaken(u: UserCluster, existing: Option<Cluster>, used: set<int>, allowOverlap: bool,
                     lans: Option<map<string, LanFacts>>, operator: Option<string>, c: Cluster, pool: seq<Addr>, b: Cluster)
    requires Resolve(u, existing, used, allowOverlap, lans, operator) == Ok(c) && Ranged(u, pool)
    requires WantRouters(u) == Two && c.Routers().Some? && b.spec.network == c.spec.network
    requires |pool| >= NodesFrom(u) + 6 && forall n :: n in b.spec.nodes ==> n.ip in RegionOf(u, pool)
    ensures Clash(b) <==> Taken(b, pool[0] as int + 2)
  {
    hide Resolve;
    hide Pool;
    hide RangesText;
    hide NodeRegion;
    hide Cluster.Routers;
    PlannedPool(u, existing, used, allowOverlap, lans, operator, c, pool);
    SameRouting(c, b);
    hide Clash;
    ClashIs(b, pool);
  }

  /** Planning gives a node router-2's address exactly when the second address after the floating one
      is among the first the nodes are dealt (a pool out of order, such as .20-.21,.23,.22,...). */
  lemma PlannedClashIff(u: UserCluster, existing: Option<Cluster>, used: set<int>, allowOverlap: bool,
                        lans: Option<map<string, LanFacts>>, operator: Option<string>, c: Cluster, pool: seq<Addr>)
    requires Resolve(u, existing, used, allowOverlap, lans, operator) == Ok(c) && Ranged(u, pool)
    requires WantRouters(u) == Two && c.Routers().Some?
    ensures |pool| >= NodesFrom(u) + |c.spec.nodes| + 6
    ensures Clash(c) <==> pool[0] as int + 2 in pool[NodesFrom(u)..][..|c.spec.nodes|]
  {
    hide Resolve;
    hide Pool;
    hide RangesText;
    hide NodeRegion;
    hide Cluster.Routers;
    hide Clash;
    PlannedPool(u, existing, used, allowOverlap, lans, operator, c, pool);
    PlannedTakenIff(u, existing, used, allowOverlap, lans, operator, c, pool, pool[0] as int + 2);
    hide Taken;
    DealtInRegion(pool, NodesFrom(u), |c.spec.nodes|, |pool| - 6);
    IpsOfNodes(c.spec.nodes);
    ClashIsTaken(u, existing, used, allowOverlap, lans, operator, c, pool, c);
  }

  /** Some sequence of verbs gives a node router-2's address exactly when the pool lists that address
      anywhere among those nodes may take. */
  lemma ReachableClashIff(u: UserCluster, existing: Option<Cluster>, used: set<int>, allowOverlap: bool,
                          lans: Option<map<string, LanFacts>>, operator: Option<string>, c: Cluster, pool: seq<Addr>)
    requires Resolve(u, existing, used, allowOverlap, lans, operator) == Ok(c) && Ranged(u, pool)
    requires WantRouters(u) == Two && c.Routers().Some?
    requires (forall g :: g in u.nodes ==> g.count >= 1) && Clear(u)
    ensures |pool| >= NodesFrom(u) + 6
    ensures (exists edits, b :: Reached(c, edits, b) && Clash(b)) <==> pool[0] as int + 2 in RegionOf(u, pool)
  {
    hide Resolve;
    hide Pool;
    hide Clear;
    hide Reached;
    hide Clash;
    hide Cluster.Routers;
    PlannedPool(u, existing, used, allowOverlap, lans, operator, c, pool);
    ReachableTakenIff(u, existing, used, allowOverlap, lans, operator, c, pool, pool[0] as int + 2);
    hide Taken;
    forall edits, b | Reached(c, edits, b)
      ensures Clash(b) <==> Taken(b, pool[0] as int + 2)
    {
      ReachedTaken(u, existing, used, allowOverlap, lans, operator, c, pool, edits, b);
      ClashIsTaken(u, existing, used, allowOverlap, lans, operator, c, pool, b);
    }
  }

  // ---- the LAN gateway

  /** Planning does not look for the LAN gateway in the range: a node gets its address exactly when the
      gateway is among the addresses dealt, and can get it later exactly when it is in the region. */
  lemma GatewayTakenIff(u: UserCluster, existing: Option<Cluster>, used: set<int>, allowOverlap: bool,
                        lans: Option<map<string, LanFacts>>, operator: Option<string>, c: Cluster, pool: seq<Addr>)
    requires Resolve(u, existing, used, allowOverlap, lans, operator) == Ok(c) && Ranged(u, pool)
    requires (forall g :: g in u.nodes ==> g.count >= 1) && Clear(u)
    ensures lans.Some? && u.hosts.value != [] && u.hosts.value[0].name in lans.value
    ensures |pool| >= NodesFrom(u) + |c.spec.nodes| + 6
    ensures var gateway := lans.value[u.hosts.value[0].name].gateway;
            && c.spec.network.gateway == gateway
            && (Taken(c, gateway) <==> gateway in pool[NodesFrom(u)..][..|c.spec.nodes|])
            && ((exists edits, b :: Reached(c, edits, b) && Taken(b, b.spec.network.gateway)) <==> gateway in RegionOf(u, pool))
  {
    hide Resolve;
    hide Reached;
    hide Clear;
    hide Pool;
    ResolvedFitsLan(u, existing, used, allowOverlap, lans, operator, c);
    ResolvedMulti(u, existing, used, allowOverlap, lans, operator, c);
    hide FitsLan;
    FirstHost(u, c, lans.value);
    hide MultiPlan;
    hide Pool;
    PlannedTakenIff(u, existing, used, allowOverlap, lans, operator, c, pool, c.spec.network.gateway);
    ReachableTakenIff(u, existing, used, allowOverlap, lans, operator, c, pool, c.spec.network.gateway);
    hide Taken;
    forall edits, b | Reached(c, edits, b)
      ensures b.spec.network == c.spec.network
    {
      ReachedTaken(u, existing, used, allowOverlap, lans, operator, c, pool, edits, b);
    }
  }

  lemma FirstHost(u: UserCluster, c: Cluster, lans: map<string, LanFacts>)
    requires exists pool, a :: MultiPlan(u, c, pool, a, lans)
    requires exists pool :: LansKnown(u.hosts.value, lans) && FitsLan(u, c.spec.network, pool, lans)
    ensures u.hosts.value != [] && u.hosts.value[0].name in lans && c.spec.network.gateway == lans[u.hosts.value[0].name].gateway
  {
    assert u.hosts.value[0] in u.hosts.value;
  }

  /** A whole create asks the LAN before it plans: while no target of the cluster is active, whatever
      answers there, the gateway included, is no address of the pool, so no node ever gets it. */
  lemma AnsweringNeverTaken(u: UserCluster, existing: Option<Cluster>, used: set<int>, allowOverlap: bool,
                            lans: Option<map<string, LanFacts>>, operator: Option<string>, c: Cluster, pool: seq<Addr>,
                            answering: set<Addr>, edits: seq<Edit>, b: Cluster, ip: Addr)
    requires Resolve(u, existing, used, allowOverlap, lans, operator) == Ok(c) && Ranged(u, pool)
    requires (forall g :: g in u.nodes ==> g.count >= 1) && Clear(u) && Reached(c, edits, b)
    requires Preflight.AddressesPass(c, answering, false) && ip in answering
    ensures !Taken(b, ip)
  {
    hide Resolve;
    hide Reached;
    hide Clear;
    hide Pool;
    hide RangesText;
    hide NodeRegion;
    PlannedPool(u, existing, used, allowOverlap, lans, operator, c, pool);
    RoundTrip(pool);
    ReachedTaken(u, existing, used, allowOverlap, lans, operator, c, pool, edits, b);
    assert forall x :: x in RegionOf(u, pool) ==> x in pool;
  }
}
