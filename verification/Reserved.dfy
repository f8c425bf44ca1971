/** Reserved addresses: whatever verbs follow planning, no node takes the floating address, the shim's
    or the mesh's, the gateway of a single host, or an address of the LoadBalancer pool. */
module Reserved {
  import opened Basics
  import opened Addresses
  import opened Ranges
  import opened ClusterModel
  import opened Placement
  import opened Allocation
  import opened Planner
  import opened Resolved
  import opened NodeEdits
  import opened Reachable

  /** The floating address, the shim's and the mesh's, the LoadBalancer pool and, on one host, the
      gateway. (On a LAN the gateway is not kept from nodes.) */
  ghost predicate IsReserved(net: Network, ip: Addr) {
    || ip == net.router || net.shim == Some(ip) || net.mesh == Some(ip)
    || (Pool(net.lbRange).Ok? && ip in Pool(net.lbRange).value)
    || (net.range.None? && ip == net.gateway)
  }

  /** What planning fixes on one host, by offset in the node subnet. */
  lemma SingleOffsets(u: UserCluster, existing: Option<Cluster>, used: set<int>, allowOverlap: bool,
                      lans: Option<map<string, LanFacts>>, operator: Option<string>, c: Cluster)
    requires Resolve(u, existing, used, allowOverlap, lans, operator) == Ok(c) && u.hosts.None?
    ensures var net, base := c.spec.network, c.spec.network.nodes.base;
            && net.range.None? && net.shim.None? && base <= 0xAC17_0000
            && base + 220 <= net.router <= base + 253
            && (net.routers == Two ==> net.router != base + 251 && net.router != base + 252)
            && net.gateway == base + 254 && net.mesh == Some(base + 200)
            && net.lbRange == AddrText(base + 201) + ['-'] + AddrText(base + 219)
  {
    hide Problem;
    hide AddrText;
    hide ExpandSingle;
    hide PickIndex;
  }

  lemma OneRun(run: Run)
    ensures Runs(Members(run)) == [run]
  {
    hide Runs;
    hide Interval;
    CoveredSnoc([], run);
    assert [] + [run] == [run];
    assert Covered([]) == [];
    assert [] + Members(run) == Members(run);
    MaximalRunsUnique([run]);
  }

  /** A single stretch is printed as its one segment, and reads back as itself. */
  lemma StretchText(run: Run)
    ensures Pool(SegmentText(run)) == Ok(Members(run))
  {
    hide SegmentText;
    hide Pool;
    hide Runs;
    hide Interval;
    OneRun(run);
    assert Map([run], SegmentText) == [SegmentText(run)];
    assert RangesText(Members(run)) == SegmentText(run);
    hide RangesText;
    ProperInterval(run.first, run.count);
    RoundTrip(Members(run));
  }

  lemma ProperInterval(a: Addr, n: nat)
    requires a + n <= 0x1_0000_0000
    ensures Distinct(Interval(a, n)) && (n > 0 ==> Interval(a, n) != [])
  {
  }

  lemma TailOfOffsets(base: Addr)
    requires base <= 0xAC17_0000
    ensures var text := AddrText(base + 201) + ['-'] + AddrText(base + 219);
            Pool(text).Ok? && forall ip :: ip in Pool(text).value <==> base + 201 <= ip <= base + 219
  {
    hide Pool;
    hide AddrText;
    var run := Stretch(base + 201, 19);
    StretchText(run);
    IntervalMembers(base + 201, 19);
  }

  lemma IntervalMembers(a: Addr, n: nat)
    requires a + n <= 0x1_0000_0000
    ensures forall ip :: ip in Interval(a, n) <==> a <= ip < a + n
  {
    forall ip | a <= ip < a + n
      ensures ip in Interval(a, n)
    {
      assert Interval(a, n)[ip - a] == ip;
    }
  }

  lemma SingleAvoids(u: UserCluster, existing: Option<Cluster>, used: set<int>, allowOverlap: bool,
                     lans: Option<map<string, LanFacts>>, operator: Option<string>, c: Cluster, b: Cluster, n: Node)
    requires Resolve(u, existing, used, allowOverlap, lans, operator) == Ok(c) && u.hosts.None?
    requires Inv(b) && SameFrame(c, b) && n in b.spec.nodes
    ensures !IsReserved(b.spec.network, n.ip)
    ensures b.Routers().Some? && forall r :: r in b.Routers().value ==> r.ip != n.ip
  {
    hide Resolve;
    hide Pool;
    hide AddrText;
    hide Cluster.Routers;
    SingleOffsets(u, existing, used, allowOverlap, lans, operator, c);
    TailOfOffsets(c.spec.network.nodes.base);
    assert InRegion(b.spec.network, n.ip);
    hide Inv;
    SingleRouters(b);
  }

  lemma SingleRouters(b: Cluster)
    requires var net, base := b.spec.network, b.spec.network.nodes.base;
             net.range.None? && base <= 0xAC17_0000 && base + 220 <= net.router <= base + 253
    ensures b.Routers().Some? && forall r :: r in b.Routers().value ==> b.spec.network.nodes.base + 220 <= r.ip
  {
  }

  lemma MultiRegion(u: UserCluster, existing: Option<Cluster>, used: set<int>, allowOverlap: bool,
                    lans: Option<map<string, LanFacts>>, operator: Option<string>, c: Cluster) returns (pool: seq<Addr>)
    requires Resolve(u, existing, used, allowOverlap, lans, operator) == Ok(c) && u.hosts.Some?
    ensures Distinct(pool) && |pool| >= 7 && c.spec.network.range == Some(RangesText(pool))
    ensures var net := c.spec.network;
            var head, end := Head(net.shim.Some?, net.routers), |pool| - 6;
            && head <= end && NodeRegion(net) == Ok(pool[head..end])
            && net.router == pool[0] && (net.shim.Some? ==> net.shim.value in pool[..head])
            && net.mesh == Some(pool[end]) && Pool(net.lbRange) == Ok(pool[end + 1..])
  {
    hide Resolve;
    hide Slots;
    hide Allocate;
    hide Pool;
    hide RangesText;
    hide Nodes;
    hide RoundRobin;
    hide NodeRegion;
    hide PickIndex;
    ResolvedMulti(u, existing, used, allowOverlap, lans, operator, c);
    pool := Pool(u.network.value.range.value).value;
    var a := Allocate(pool, Shim(u), WantRouters(u), |Slots(u.nodes)|).value;
    AllocationSlices(pool, Shim(u), WantRouters(u), |Slots(u.nodes)|, a);
    hide MultiPlan;
    PlannedNetwork(u, c, pool, a, lans.value);
    RegionOfAllocation(pool, c.spec.network, Shim(u));
    TailReadsBack(pool, 5);
    ShimInHead(pool, Head(Shim(u), WantRouters(u)), if WantRouters(u) == Two then 3 else 1, a.shim);
  }

  lemma PlannedNetwork(u: UserCluster, c: Cluster, pool: seq<Addr>, a: Allocation, lans: map<string, LanFacts>)
    requires MultiPlan(u, c, pool, a, lans)
    ensures AllocatedFrom(c.spec.network, pool, a) && c.spec.network.routers == WantRouters(u)
  {
  }

  lemma ShimInHead(pool: seq<Addr>, head: nat, start: nat, shim: Option<Addr>)
    requires start <= head <= |pool| && Optional(shim) == pool[start..head]
    ensures shim.Some? ==> shim.value in pool[..head]
  {
    if shim.Some? {
      assert pool[start..head][0] == shim.value;
      assert pool[..head][start] == shim.value;
    }
  }

  /** On any cluster.yaml that verbs can make of a clear definition, no node has a reserved address. */
  lemma NodesAvoidReserved(u: UserCluster, existing: Option<Cluster>, used: set<int>, allowOverlap: bool,
                           lans: Option<map<string, LanFacts>>, operator: Option<string>, c: Cluster,
                           edits: seq<Edit>, b: Cluster, n: Node)
    requires Resolve(u, existing, used, allowOverlap, lans, operator) == Ok(c)
    requires (forall g :: g in u.nodes ==> g.count >= 1) && Clear(u)
    requires Reached(c, edits, b) && n in b.spec.nodes
    ensures !IsReserved(b.spec.network, n.ip)
  {
    hide Resolve;
    hide Clear;
    hide Reached;
    EveryReachableFile(u, existing, used, allowOverlap, lans, operator, c, edits, b);
    if u.hosts.None? {
      hide Inv;
      SingleAvoids(u, existing, used, allowOverlap, lans, operator, c, b, n);
    } else {
      MultiAvoids(u, existing, used, allowOverlap, lans, operator, c, b, n);
    }
  }

  lemma MultiAvoids(u: UserCluster, existing: Option<Cluster>, used: set<int>, allowOverlap: bool,
                    lans: Option<map<string, LanFacts>>, operator: Option<string>, c: Cluster, b: Cluster, n: Node)
    requires Resolve(u, existing, used, allowOverlap, lans, operator) == Ok(c) && u.hosts.Some?
    requires Inv(b) && SameFrame(c, b) && n in b.spec.nodes
    ensures !IsReserved(b.spec.network, n.ip)
  {
    hide Resolve;
    hide Pool;
    hide NodeRegion;
    hide RangesText;
    var pool := MultiRegion(u, existing, used, allowOverlap, lans, operator, c);
    assert InRegion(b.spec.network, n.ip);
    hide Inv;
    var net := c.spec.network;
    var head, end := Head(net.shim.Some?, net.routers), |pool| - 6;
    RegionAvoidsReserved(pool, head, end);
    assert pool[0] in pool[..head] && pool[end] in pool[end..];
    assert forall ip :: ip in pool[end + 1..] ==> ip in pool[end..];
  }
}
