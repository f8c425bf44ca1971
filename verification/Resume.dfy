/** Resuming an interrupted create: what an accepted resume keeps, and exactly when it keeps it. */
module Resume {
  import opened Basics
  import opened Addresses
  import opened Ranges
  import opened ClusterModel
  import opened Placement
  import opened Allocation
  import opened Planner
  import opened Resolved

  /** The cluster.yaml of an interrupted create: what planning wrote, except that pod CIDRs may have
      been recorded meanwhile and the status has moved on. */
  ghost predicate SamePlan(e: Cluster, c: Cluster) {
    && e.spec.network == c.spec.network
    && e.spec.hosts == c.spec.hosts
    && Seats(e.spec.nodes) == Seats(c.spec.nodes)
  }

  lemma ResumeAccepted(u: UserCluster, e: Cluster, used: set<int>, allowOverlap: bool,
                       lans: Option<map<string, LanFacts>>, operator: Option<string>, c: Cluster)
    requires Resolve(u, Some(e), used, allowOverlap, lans, operator) == Ok(c)
    requires u.hosts.Some? && c.spec.hosts.Some?
    ensures ResumeProblem(e.spec, c.spec.hosts.value, c.spec.nodes, c.spec.network).None?
    ensures e.spec.network.routers == WantRouters(u)
  {
    hide NameProblem;
    hide HostsProblem;
    hide PlanMulti;
    hide PlanSingle;
    hide ResumeProblem;
    hide Slots;
  }

  /** Hosts a resume lets pass are the recorded ones, interfaces included. */
  lemma SameInterfaces(was: Spec, hosts: seq<Host>, nodes: seq<Node>, net: Network)
    requires ResumeProblem(was, hosts, nodes, net).None? && was.hosts.Some? && Distinct(Names(was.hosts.value))
    ensures was.hosts.value == hosts
  {
    var old1, pair := was.hosts.value, (h: Host) => (h.name, h.ssh);
    assert |Map(old1, pair)| == |old1| && |Map(hosts, pair)| == |hosts|;
    forall i | 0 <= i < |hosts|
      ensures old1[i] == hosts[i]
    {
      assert Map(old1, pair)[i] == pair(old1[i]) && Map(hosts, pair)[i] == pair(hosts[i]);
      forall j | 0 <= j < i
        ensures old1[j].name != hosts[i].name
      {
        assert Names(old1)[j] != Names(old1)[i];
      }
      FirstIsLeast(old1, (x: Host) => x.name == hosts[i].name, i);
      assert hosts[i] in hosts;
    }
  }

  lemma SameHostsSameShim(u1: UserCluster, u2: UserCluster, h1: seq<Host>, h2: seq<Host>,
                          lans1: map<string, LanFacts>, lans2: map<string, LanFacts>)
    requires u1.hosts.Some? && u2.hosts.Some?
    requires LansKnown(u1.hosts.value, lans1) && LansKnown(u2.hosts.value, lans2)
    requires h1 == RecordedHosts(u1.hosts.value, lans1) && h2 == RecordedHosts(u2.hosts.value, lans2)
    requires Map(h1, (h: Host) => (h.name, h.ssh)) == Map(h2, (h: Host) => (h.name, h.ssh))
    ensures Shim(u1) == Shim(u2)
  {
    var m1, m2 := Map(h1, (h: Host) => (h.name, h.ssh)), Map(h2, (h: Host) => (h.name, h.ssh));
    assert |h1| == |m1| == |m2| == |h2|;
    forall i | 0 <= i < |h1|
      ensures u1.hosts.value[i].ssh == u2.hosts.value[i].ssh
    {
      assert m1[i] == (h1[i].name, h1[i].ssh) && m2[i] == (h2[i].name, h2[i].ssh);
    }
    if Shim(u1) {
      var h :| h in u1.hosts.value && h.ssh.None?;
      var i :| 0 <= i < |u1.hosts.value| && u1.hosts.value[i] == h;
      assert u2.hosts.value[i] in u2.hosts.value;
    }
    if Shim(u2) {
      var h :| h in u2.hosts.value && h.ssh.None?;
      var i :| 0 <= i < |u2.hosts.value| && u2.hosts.value[i] == h;
      assert u1.hosts.value[i] in u1.hosts.value;
    }
  }

  /** A resume that is accepted moves nothing: the same nodes at the same addresses on the same
      hosts with the same interfaces, the same router addresses and hosts, shim, mesh address and
      LoadBalancer range. */
  lemma ResumeMovesNothing(u1: UserCluster, e1: Option<Cluster>, e: Cluster, c1: Cluster, used1: set<int>, overlap1: bool,
                           lans1: Option<map<string, LanFacts>>, op1: Option<string>,
                           u2: UserCluster, c2: Cluster, used2: set<int>, overlap2: bool,
                           lans2: Option<map<string, LanFacts>>, op2: Option<string>)
    requires u1.hosts.Some? && Resolve(u1, e1, used1, overlap1, lans1, op1) == Ok(c1)
    requires SamePlan(e, c1)
    requires u2.hosts.Some? && Resolve(u2, Some(e), used2, overlap2, lans2, op2) == Ok(c2)
    requires u2.name == u1.name
    ensures Seats(c2.spec.nodes) == Seats(c1.spec.nodes) && c2.spec.hosts == c1.spec.hosts
    ensures c2.spec.network.routers == c1.spec.network.routers && c2.Routers() == c1.Routers()
    ensures c2.spec.network.shim == c1.spec.network.shim
    ensures c2.spec.network.mesh == c1.spec.network.mesh
    ensures c2.spec.network.lbRange == c1.spec.network.lbRange
    ensures c2.spec.network.router == c1.spec.network.router
    ensures c2.spec.network.index == c1.spec.network.index
    ensures c2.spec.network.pods == c1.spec.network.pods && c2.spec.network.services == c1.spec.network.services
  {
    hide Resolve;
    hide Pool;
    hide RangesText;
    hide Slots;
    hide Order;
    hide RangeStart;
    hide RoundRobin;
    hide Allocate;
    ResolvedMulti(u1, e1, used1, overlap1, lans1, op1, c1);
    ResolvedMulti(u2, Some(e), used2, overlap2, lans2, op2, c2);
    ResumeAccepted(u2, e, used2, overlap2, lans2, op2, c2);
    SubnetsByIndex(u1, e1, used1, overlap1, lans1, op1, c1);
    SubnetsByIndex(u2, Some(e), used2, overlap2, lans2, op2, c2);
    var r1, r2 := u1.network.value.range.value, u2.network.value.range.value;
    SameTextSamePool(r1, r2);
    assert Pool(r1) == Pool(r2);
    ResolvedConsistent(u1, e1, used1, overlap1, lans1, op1, c1);
    SameInterfaces(e.spec, c2.spec.hosts.value, c2.spec.nodes, c2.spec.network);
    SameHostsSameShim(u1, u2, c1.spec.hosts.value, c2.spec.hosts.value, lans1.value, lans2.value);
    SeatsCount(c1.spec.nodes, c2.spec.nodes);
    assert |Slots(u1.nodes)| == |Slots(u2.nodes)|;
  }

  lemma SeatsCount(a: seq<Node>, b: seq<Node>)
    requires Seats(a) == Seats(b)
    ensures |a| == |b|
  {
    assert |Seats(a)| == |a| && |Seats(b)| == |b|;
  }

  // ---- a definition without hosts

  /** The names a definition expands to, in the order of its nodes. */
  function PlannedNames(u: UserCluster): seq<string> {
    seq(|Order(u.nodes)|, p requires 0 <= p < |Order(u.nodes)| => NodeName(u.name, u.nodes, p))
  }

  lemma SeatAt(cluster: string, groups: seq<NodeGroup>, ips: seq<Addr>, hosts: Option<seq<string>>, p: nat)
    requires |ips| == |Order(groups)| && (hosts.Some? ==> |hosts.value| == |ips|) && p < |ips|
    ensures Seats(Nodes(cluster, groups, ips, hosts))[p] ==
            (NodeName(cluster, groups, p), ips[p], if hosts.Some? then Some(hosts.value[p]) else None)
  {
    hide Order;
    hide NodeName;
  }

  lemma SomeNode(u: UserCluster)
    requires RoleCount(Slots(u.nodes), ControlPlane) % 2 == 1
    ensures |Order(u.nodes)| > 0
  {
    OrderSlots(u.nodes);
  }

  /** A resume with a definition without hosts is not compared with what is being created. It moves no
      node exactly when the create was on one host too and both definitions expand to the same names
      in the same order. */
  lemma HostlessResumeMovesNoNodeIff(u1: UserCluster, e1: Option<Cluster>, e: Cluster, c1: Cluster, used1: set<int>, overlap1: bool,
                                     lans1: Option<map<string, LanFacts>>, op1: Option<string>,
                                     u2: UserCluster, c2: Cluster, used2: set<int>, overlap2: bool,
                                     lans2: Option<map<string, LanFacts>>, op2: Option<string>)
    requires Resolve(u1, e1, used1, overlap1, lans1, op1) == Ok(c1) && SamePlan(e, c1)
    requires u2.hosts.None? && Resolve(u2, Some(e), used2, overlap2, lans2, op2) == Ok(c2)
    ensures Seats(c2.spec.nodes) == Seats(c1.spec.nodes) <==> u1.hosts.None? && PlannedNames(u1) == PlannedNames(u2)
  {
    hide Resolve;
    hide Order;
    hide Slots;
    hide Nodes;
    hide NodeName;
    hide RoleCount;
    hide Seats;
    ResolvedSingle(u2, Some(e), used2, overlap2, lans2, op2, c2);
    var index := c2.spec.network.index;
    var n2 := |Order(u2.nodes)|;
    if u1.hosts.None? {
      ResolvedSingle(u1, e1, used1, overlap1, lans1, op1, c1);
      SameSeatsIffSameNames(u1, u2, index);
    } else {
      ResolvedIsValid(u1, e1, used1, overlap1, lans1, op1);
      ResolvedIsValid(u2, Some(e), used2, overlap2, lans2, op2);
      SomeNode(u2);
      ResolvedMulti(u1, e1, used1, overlap1, lans1, op1, c1);
      SomeNode(u1);
      HostedSeat(u1, c1, lans1.value);
      SeatAt(u2.name, u2.nodes, Upwards(index, n2), None, 0);
    }
  }

  /** The floating address a definition without hosts asks for, its index being this. */
  function FloatingWish(u: UserCluster, index: nat): int {
    if u.network.Some? && u.network.value.router.Some? then u.network.value.router.value else NODE_NETS + index * 256 + 253
  }

  /** Everything placed is where it was: nodes, routers, floating, mesh and shim addresses, and the
      LoadBalancer range. */
  predicate SamePlaces(a: Cluster, b: Cluster) {
    && Seats(a.spec.nodes) == Seats(b.spec.nodes) && a.Routers() == b.Routers()
    && a.spec.network.router == b.spec.network.router && a.spec.network.mesh == b.spec.network.mesh
    && a.spec.network.shim == b.spec.network.shim && a.spec.network.lbRange == b.spec.network.lbRange
  }

  lemma SingleNetwork(u: UserCluster, existing: Option<Cluster>, used: set<int>, allowOverlap: bool,
                      lans: Option<map<string, LanFacts>>, operator: Option<string>, c: Cluster)
    requires Resolve(u, existing, used, allowOverlap, lans, operator) == Ok(c) && u.hosts.None?
    ensures var net, base := c.spec.network, NODE_NETS + c.spec.network.index * 256;
            && net.index <= 31 && net.router == FloatingWish(u, net.index) && net.routers == WantRouters(u)
            && net.nodes == Prefix(base, 24) && net.range.None? && net.routerHosts.None? && net.shim.None?
            && net.mesh == Some(base + 200) && net.lbRange == AddrText(base + 201) + ['-'] + AddrText(base + 219)
  {
    hide NameProblem;
    hide HostsProblem;
    hide AddrText;
    hide Slots;
    hide Order;
    hide Nodes;
    hide PickIndex;
  }

  lemma SameIndex(u1: UserCluster, e1: Option<Cluster>, e: Cluster, c1: Cluster, used1: set<int>, overlap1: bool,
                  lans1: Option<map<string, LanFacts>>, op1: Option<string>,
                  u2: UserCluster, c2: Cluster, used2: set<int>, overlap2: bool,
                  lans2: Option<map<string, LanFacts>>, op2: Option<string>)
    requires Resolve(u1, e1, used1, overlap1, lans1, op1) == Ok(c1) && SamePlan(e, c1)
    requires u2.hosts.None? && Resolve(u2, Some(e), used2, overlap2, lans2, op2) == Ok(c2)
    ensures c2.spec.network.index == c1.spec.network.index && WantRouters(u2) == c1.spec.network.routers
    ensures c1.name == u1.name && c2.name == u2.name
  {
    hide NameProblem;
    hide HostsProblem;
    hide AddrText;
    hide Slots;
    hide PlanMulti;
    hide PlanSingle;
    hide ResumeProblem;
    ResolvedSingle(u2, Some(e), used2, overlap2, lans2, op2, c2);
  }

  /** Such a resume moves nothing at all exactly when, besides, both definitions come to the same
      floating address. */
  lemma HostlessResumeMovesNothingIff(u1: UserCluster, e1: Option<Cluster>, e: Cluster, c1: Cluster, used1: set<int>, overlap1: bool,
                                      lans1: Option<map<string, LanFacts>>, op1: Option<string>,
                                      u2: UserCluster, c2: Cluster, used2: set<int>, overlap2: bool,
                                      lans2: Option<map<string, LanFacts>>, op2: Option<string>)
    requires Resolve(u1, e1, used1, overlap1, lans1, op1) == Ok(c1) && SamePlan(e, c1)
    requires u2.hosts.None? && Resolve(u2, Some(e), used2, overlap2, lans2, op2) == Ok(c2) && u2.name == u1.name
    ensures SamePlaces(c2, c1) <==>
            && u1.hosts.None? && PlannedNames(u1) == PlannedNames(u2)
            && FloatingWish(u1, c1.spec.network.index) == FloatingWish(u2, c1.spec.network.index)
  {
    hide Resolve;
    hide Seats;
    hide PlannedNames;
    hide AddrText;
    hide SamePlan;
    HostlessResumeMovesNoNodeIff(u1, e1, e, c1, used1, overlap1, lans1, op1, u2, c2, used2, overlap2, lans2, op2);
    SameIndex(u1, e1, e, c1, used1, overlap1, lans1, op1, u2, c2, used2, overlap2, lans2, op2);
    SingleNetwork(u2, Some(e), used2, overlap2, lans2, op2, c2);
    if u1.hosts.None? {
      SingleNetwork(u1, e1, used1, overlap1, lans1, op1, c1);
    }
  }

  lemma HostedSeat(u: UserCluster, c: Cluster, lans: map<string, LanFacts>)
    requires exists pool, a :: MultiPlan(u, c, pool, a, lans)
    requires |Order(u.nodes)| > 0
    ensures |Seats(c.spec.nodes)| > 0 && Seats(c.spec.nodes)[0].2.Some?
  {
    hide Order;
    hide Slots;
    hide Nodes;
    hide Allocate;
    hide RoundRobin;
    var pool, a :| MultiPlan(u, c, pool, a, lans);
    SeatAt(u.name, u.nodes, a.nodes, Some(RoundRobin(Slots(u.nodes), UserHostNames(u.hosts.value))), 0);
  }

  lemma SameSeatsIffSameNames(u1: UserCluster, u2: UserCluster, index: nat)
    requires index <= 255 && |Order(u1.nodes)| <= 255 && |Order(u2.nodes)| <= 255
    ensures Seats(Nodes(u1.name, u1.nodes, Upwards(index, |Order(u1.nodes)|), None)) ==
            Seats(Nodes(u2.name, u2.nodes, Upwards(index, |Order(u2.nodes)|), None)) <==>
            PlannedNames(u1) == PlannedNames(u2)
  {
    hide Order;
    hide Nodes;
    hide NodeName;
    var n1, n2 := |Order(u1.nodes)|, |Order(u2.nodes)|;
    var s1 := Seats(Nodes(u1.name, u1.nodes, Upwards(index, n1), None));
    var s2 := Seats(Nodes(u2.name, u2.nodes, Upwards(index, n2), None));
    assert |s1| == n1 && |s2| == n2;
    hide Seats;
    forall p: nat | p < n1
      ensures s1[p] == (PlannedNames(u1)[p], Upwards(index, n1)[p], None)
    {
      SeatAt(u1.name, u1.nodes, Upwards(index, n1), None, p);
    }
    forall p: nat | p < n2
      ensures s2[p] == (PlannedNames(u2)[p], Upwards(index, n2)[p], None)
    {
      SeatAt(u2.name, u2.nodes, Upwards(index, n2), None, p);
    }
    hide PlannedNames;
    SamePairs(s1, s2, PlannedNames(u1), PlannedNames(u2), n1, n2, index);
  }

  lemma SamePairs(s1: seq<(string, Addr, Option<string>)>, s2: seq<(string, Addr, Option<string>)>,
          names1: seq<string>, names2: seq<string>, n1: nat, n2: nat, index: nat)
    requires |s1| == |names1| == n1 && |s2| == |names2| == n2 && index <= 255 && n1 <= 255 && n2 <= 255
    requires forall p: nat :: p < n1 ==> s1[p] == (names1[p], Upwards(index, n1)[p], None)
    requires forall p: nat :: p < n2 ==> s2[p] == (names2[p], Upwards(index, n2)[p], None)
    ensures s1 == s2 <==> names1 == names2
  {
    if s1 == s2 {
      forall p: nat | p < n1
        ensures names1[p] == names2[p]
      {
        assert s1[p] == s2[p];
      }
    }
  }

  /** No CIDR that was on record is lost. */
  predicate KeepsCidrs(e: Cluster, c: Cluster) {
    forall n :: n in e.spec.nodes && n.podCidr.Some? ==> exists m :: m in c.spec.nodes && m.name == n.name && m.podCidr == n.podCidr
  }

  /** Whatever resumes it, with hosts or without, a create keeps its recorded CIDRs exactly when there
      are none. */
  lemma ResumeKeepsCidrsIff(u: UserCluster, e: Cluster, used: set<int>, allowOverlap: bool,
                            lans: Option<map<string, LanFacts>>, operator: Option<string>, c: Cluster)
    requires Resolve(u, Some(e), used, allowOverlap, lans, operator) == Ok(c)
    ensures KeepsCidrs(e, c) <==> forall n :: n in e.spec.nodes ==> n.podCidr.None?
  {
    hide Resolve;
    ResolvedFresh(u, Some(e), used, allowOverlap, lans, operator, c);
  }
}
