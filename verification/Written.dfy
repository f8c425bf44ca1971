/** What holds of a cluster.yaml once it is written: its routers can be derived, deletes and rendering
    can work with it, and when its container names differ. */
module Written {
  import opened Basics
  import opened Addresses
  import opened Ranges
  import opened ClusterModel
  import opened Hosts
  import opened Placement
  import opened Allocation
  import opened Planner
  import opened Resolved
  import opened NodeEdits
  import opened Reachable
  import opened Numbers
  import DeleteResumes
  import Preflight
  import RenderedFiles
  import SharedHosts
  import Units
  import UnitsHold

  // ---- what verbs leave as planning wrote it, clear definition or not

  /** After a verb every node sits where one sat before, or is the one just added. */
  lemma ApplyNodes(c: Cluster, e: Edit, n: Node)
    requires Editable(c) && n in Apply(c, e).spec.nodes
    ensures (exists m :: m in c.spec.nodes && Seat(m) == Seat(n)) || (e.Add? && PlanAdd(c, e.req) == Ok(n))
  {
    hide PlanAdd;
    match e
    case Add(req) =>
    case Join(name) => MappedSeat(c, name, n);
    case Remove(name) =>
    case RecordCidrs(reports) =>
      if PodCidrs.WithPodCidrs(c, reports).Ok? {
        var b := PodCidrs.WithPodCidrs(c, reports).value.spec.nodes;
        var i :| 0 <= i < |b| && b[i] == n;
        PodCidrs.RecordedAt(c.spec.nodes, c.spec.network.pods, reports, i);
        assert c.spec.nodes[i] in c.spec.nodes;
      }
  }

  lemma MappedSeat(c: Cluster, name: string, n: Node)
    requires n in MarkedJoined(c, name).spec.nodes
    ensures exists m :: m in c.spec.nodes && Seat(m) == Seat(n)
  {
    var b := MarkedJoined(c, name).spec.nodes;
    var i :| 0 <= i < |b| && b[i] == n;
    assert c.spec.nodes[i] in c.spec.nodes;
  }

  predicate SameRest(a: Cluster, b: Cluster) {
    a.name == b.name && a.status == b.status && a.spec.network == b.spec.network && a.spec.hosts == b.spec.hosts
  }

  lemma ApplyRest(c: Cluster, e: Edit)
    requires Editable(c)
    ensures SameRest(c, Apply(c, e)) && Apply(c, e).spec.nodes != []
  {
    hide PlanAdd;
    if e.Remove? && WithoutNode(c, e.name).Ok? {
      FilterHead(c.spec.nodes, (n: Node) => n.name != e.name);
    }
  }


  lemma {:induction false} ReachedRest(a: Cluster, edits: seq<Edit>, b: Cluster)
    requires a.spec.nodes != [] && Reached(a, edits, b)
    ensures b.spec.nodes != [] && SameRest(a, b)
    decreases |edits|
  {
    if edits != [] {
      ApplyRest(a, edits[0]);
      hide Apply;
      ReachedRest(Apply(a, edits[0]), edits[1..], b);
    }
  }

  lemma {:induction false} ReachedConsistent(a: Cluster, edits: seq<Edit>, b: Cluster)
    requires a.spec.nodes != [] && HostsConsistent(a.spec) && Reached(a, edits, b)
    ensures HostsConsistent(b.spec)
    decreases |edits|
  {
    hide HostsConsistent;
    if edits != [] {
      ApplyRest(a, edits[0]);
      ApplyConsistent(a, edits[0]);
      hide Apply;
      ReachedConsistent(Apply(a, edits[0]), edits[1..], b);
    }
  }

  lemma ApplyConsistent(c: Cluster, e: Edit)
    requires Editable(c) && HostsConsistent(c.spec)
    ensures HostsConsistent(Apply(c, e).spec)
  {
    hide Apply;
    hide PlanAdd;
    var b := Apply(c, e);
    ApplyRest(c, e);
    forall n | n in b.spec.nodes
      ensures if c.MultiHost() then n.host.Some? && n.host.value in c.HostNames() else n.host.None?
    {
      ApplyNodes(c, e, n);
      if e.Add? && PlanAdd(c, e.req) == Ok(n) {
        AddedHost(c, e.req, n);
      }
    }
    hide Distinct;
  }

  lemma AddedHost(c: Cluster, req: NodeRequest, n: Node)
    requires Editable(c) && PlanAdd(c, req) == Ok(n)
    ensures if c.MultiHost() then n.host.Some? && n.host.value in c.HostNames() else n.host.None?
    ensures n.name == NextName(c, req.role)
  {
    hide NextIp;
    hide NextName;
    hide LeastOf;
    HostIsListed(c, req);
  }

  // ---- a planned cluster is written only if its routers can be derived

  /** The plan phase names every router of a multi-host cluster before it saves cluster.yaml. */
  predicate Saves(c: Cluster) { !c.MultiHost() || c.Routers().Some? }

  lemma SingleSaves(c: Cluster)
    requires c.spec.network.range.None? && c.spec.network.nodes.base <= 0xAC17_0000
    ensures c.Routers().Some?
  {
  }

  /** The routers of a cluster on several hosts: one is the floating address itself; two are the
      addresses after the range's first, when that one can be read. */
  lemma MultiRouters(c: Cluster, pool: seq<Addr>)
    requires |pool| > 1 && c.spec.network.range == Some(RangesText(pool)) && pool[1] < 0xFFFF_FFFF
    ensures c.Routers().Some? <==> c.spec.network.routers == One || pool[1] == pool[0] as int + 1
    ensures c.spec.network.routers == Two && c.Routers().Some? ==>
              |c.Routers().value| == 2 && c.Routers().value[0].ip == pool[1] && c.Routers().value[1].ip == pool[0] as int + 2
  {
    hide RangesText;
    hide RangeStart;
    RangeStartOfPrinted(pool);
  }

  /** What every LAN fact is: a network, so it ends within the address space. */
  predicate Networks(lans: map<string, LanFacts>) {
    forall n :: n in lans ==> Broadcast(lans[n].subnet) <= 0xFFFF_FFFF
  }

  /** An accepted definition leads to a cluster.yaml exactly when it is for one host, or has one router,
      or its second address follows its first. */
  lemma SavesIff(u: UserCluster, existing: Option<Cluster>, used: set<int>, allowOverlap: bool,
                 lans: Option<map<string, LanFacts>>, operator: Option<string>, c: Cluster)
    requires Resolve(u, existing, used, allowOverlap, lans, operator) == Ok(c) && (lans.Some? ==> Networks(lans.value))
    ensures u.hosts.Some? ==> u.network.Some? && u.network.value.range.Some? && Pool(u.network.value.range.value).Ok? && |Pool(u.network.value.range.value).value| > 1
    ensures Saves(c) <==> u.hosts.None? || WantRouters(u) == One ||
                          var pool := Pool(u.network.value.range.value).value; pool[1] == pool[0] as int + 1
    ensures Saves(c) ==> c.Routers().Some?
  {
    hide Resolve;
    hide Cluster.Routers;
    if u.hosts.None? {
      ResolvedSingle(u, existing, used, allowOverlap, lans, operator, c);
      SingleSaves(c);
    } else {
      ResolvedMulti(u, existing, used, allowOverlap, lans, operator, c);
      ResolvedFitsLan(u, existing, used, allowOverlap, lans, operator, c);
      PlannedRouters(u, c, Pool(u.network.value.range.value).value, lans.value);
    }
  }

  lemma PlannedRouters(u: UserCluster, c: Cluster, pool: seq<Addr>, lans: map<string, LanFacts>)
    requires exists a :: MultiPlan(u, c, pool, a, lans)
    requires Networks(lans) && FitsLan(u, c.spec.network, pool, lans)
    ensures |pool| > 1 && pool[1] < 0xFFFF_FFFF && c.MultiHost()
    ensures c.Routers().Some? <==> WantRouters(u) == One || pool[1] == pool[0] as int + 1
  {
    hide Slots;
    hide Order;
    hide Nodes;
    hide RoundRobin;
    hide Pool;
    hide RangesText;
    hide Cluster.Routers;
    var a :| MultiPlan(u, c, pool, a, lans);
    AllocationSlices(pool, Shim(u), WantRouters(u), |Slots(u.nodes)|, a);
    assert pool[1] in pool && u.hosts.value[0] in u.hosts.value;
    MultiRouters(c, pool);
  }

  /** ssh targets as a definition can hold them. */
  predicate TargetsGiven(u: UserCluster) {
    u.hosts.Some? ==> forall h :: h in u.hosts.value ==> h.ssh != Some("")
  }

  lemma PlannedHosts(u: UserCluster, existing: Option<Cluster>, used: set<int>, allowOverlap: bool,
                     lans: Option<map<string, LanFacts>>, operator: Option<string>, c: Cluster)
    requires Resolve(u, existing, used, allowOverlap, lans, operator) == Ok(c)
    ensures c.MultiHost() <==> u.hosts.Some?
    ensures c.MultiHost() ==> |c.spec.hosts.value| == |u.hosts.value|
    ensures c.MultiHost() ==> forall i :: 0 <= i < |u.hosts.value| ==> c.spec.hosts.value[i].ssh == u.hosts.value[i].ssh
  {
    hide Resolve;
    if u.hosts.None? {
      ResolvedSingle(u, existing, used, allowOverlap, lans, operator, c);
    } else {
      ResolvedMulti(u, existing, used, allowOverlap, lans, operator, c);
    }
  }

  lemma HasNodes(u: UserCluster, existing: Option<Cluster>, used: set<int>, allowOverlap: bool,
                 lans: Option<map<string, LanFacts>>, operator: Option<string>, c: Cluster)
    requires Resolve(u, existing, used, allowOverlap, lans, operator) == Ok(c)
    ensures c.spec.nodes != [] && c.name == u.name && c.spec.network.routers == WantRouters(u)
  {
    hide Resolve;
    ResolvedIsValid(u, existing, used, allowOverlap, lans, operator);
    OrderSlots(u.nodes);
    hide Slots;
    hide Order;
    PlannedCount(u, existing, used, allowOverlap, lans, operator, c);
    if u.hosts.None? {
      ResolvedSingle(u, existing, used, allowOverlap, lans, operator, c);
    } else {
      ResolvedMulti(u, existing, used, allowOverlap, lans, operator, c);
    }
  }

  lemma PlannedCount(u: UserCluster, existing: Option<Cluster>, used: set<int>, allowOverlap: bool,
                     lans: Option<map<string, LanFacts>>, operator: Option<string>, c: Cluster)
    requires Resolve(u, existing, used, allowOverlap, lans, operator) == Ok(c)
    ensures c.spec.network.routers == WantRouters(u)
  {
    hide NameProblem;
    hide HostsProblem;
    hide Slots;
    hide Order;
    hide Nodes;
    hide AddrText;
    hide Pool;
    hide LanProblem;
    hide ResumeProblem;
    hide Allocate;
    hide PickIndex;
  }

  /** Every file reached from one that planning saved can be deleted, and meets what rendering asks of
      it but that its hosts are different machines. */
  lemma EveryWrittenFile(u: UserCluster, existing: Option<Cluster>, used: set<int>, allowOverlap: bool,
                         lans: Option<map<string, LanFacts>>, operator: Option<string>, c: Cluster,
                         edits: seq<Edit>, b: Cluster)
    requires Resolve(u, existing, used, allowOverlap, lans, operator) == Ok(c) && (lans.Some? ==> Networks(lans.value))
    requires TargetsGiven(u) && Saves(c) && Reached(c, edits, b)
    ensures DeleteResumes.Manageable(b)
    ensures HostsConsistent(b.spec) && b.Routers().Some?
    ensures HostsApart(b) <==>
            u.hosts.Some? ==> forall i, j :: 0 <= i < j < |u.hosts.value| ==> u.hosts.value[i].ssh != u.hosts.value[j].ssh
  {
    hide Resolve;
    hide Reached;
    HasNodes(u, existing, used, allowOverlap, lans, operator, c);
    PlannedHosts(u, existing, used, allowOverlap, lans, operator, c);
    SavesIff(u, existing, used, allowOverlap, lans, operator, c);
    ResolvedConsistent(u, existing, used, allowOverlap, lans, operator, c);
    ReachedRest(c, edits, b);
    ReachedConsistent(c, edits, b);
    SameRouters(c, b);
    hide Saves;
    hide Cluster.Routers;
    hide HostsConsistent;
    TargetsCarry(u, b);
  }

  /** Preflight comes before plan in every whole create, and asks the cluster that is to be written. */
  predicate Checked(c: Cluster, names: Preflight.Hostnames) { c.MultiHost() ==> Preflight.HostnamesPass(c, names) }

  /** Whatever a whole create wrote, and whatever verbs made of it, units.run makes units.done true for
      it from every state of the hosts. */
  lemma WholeCreateRenders(u: UserCluster, existing: Option<Cluster>, used: set<int>, allowOverlap: bool,
                           lans: Option<map<string, LanFacts>>, operator: Option<string>, c: Cluster,
                           names: Preflight.Hostnames, edits: seq<Edit>, b: Cluster, text: Units.Template, d: Units.Disks)
    requires Resolve(u, existing, used, allowOverlap, lans, operator) == Ok(c) && (lans.Some? ==> Networks(lans.value))
    requires TargetsGiven(u) && Checked(c, names) && Saves(c) && Reached(c, edits, b)
    ensures UnitsHold.Sound(b)
    ensures Units.Done(text, b, Units.Ran(text, b, d))
  {
    hide Resolve;
    hide Reached;
    hide HostsConsistent;
    hide Cluster.Routers;
    hide Units.Done;
    hide Units.Ran;
    hide NodeHosts;
    ReachedNothing(c);
    EveryWrittenFile(u, existing, used, allowOverlap, lans, operator, c, [], c);
    EveryWrittenFile(u, existing, used, allowOverlap, lans, operator, c, edits, b);
    Preflight.PassedHostsApart(c, names);
    UnitsHold.RunEstablishesDone(text, b, d);
  }

  /** What a create wrote that skipped preflight: with the templates' own texts and distinct names,
      units.done can be reached exactly when host entries on one machine run nothing and leave by one
      interface, and then units.run reaches it from everywhere. */
  lemma SkippedPreflightRenders(u: UserCluster, existing: Option<Cluster>, used: set<int>, allowOverlap: bool,
                                lans: Option<map<string, LanFacts>>, operator: Option<string>, c: Cluster,
                                edits: seq<Edit>, b: Cluster, text: Units.Template)
    requires Resolve(u, existing, used, allowOverlap, lans, operator) == Ok(c) && (lans.Some? ==> Networks(lans.value))
    requires TargetsGiven(u) && Saves(c) && Reached(c, edits, b)
    requires Distinct(UnitsHold.AllNames(b)) && SharedHosts.NamesPlain(b) && SharedHosts.AsWritten(text, b)
    ensures SharedHosts.SharedAreIdle(b) ==> forall d :: Units.Done(text, b, Units.Ran(text, b, d))
    ensures !SharedHosts.SharedAreIdle(b) ==> forall d :: !Units.Done(text, b, d)
  {
    hide Resolve;
    hide Reached;
    hide HostsConsistent;
    hide Cluster.Routers;
    hide Units.Done;
    hide Units.Ran;
    hide SharedHosts.SharedAreIdle;
    hide SharedHosts.AsWritten;
    hide UnitsHold.AllNames;
    EveryWrittenFile(u, existing, used, allowOverlap, lans, operator, c, edits, b);
    SharedHosts.SharedDoneIff(text, b);
  }

  lemma SameRouters(a: Cluster, b: Cluster)
    requires SameRest(a, b)
    ensures a.Routers() == b.Routers() && RoutersOf(a) == RoutersOf(b)
  {
    hide RangeStart;
  }

  lemma TargetsCarry(u: UserCluster, b: Cluster)
    requires TargetsGiven(u) && (b.MultiHost() <==> u.hosts.Some?)
    requires b.MultiHost() ==> |b.spec.hosts.value| == |u.hosts.value|
    requires b.MultiHost() ==> forall i :: 0 <= i < |u.hosts.value| ==> b.spec.hosts.value[i].ssh == u.hosts.value[i].ssh
    ensures b.MultiHost() ==> forall h :: h in b.spec.hosts.value ==> h.ssh != Some("")
    ensures HostsApart(b) <==>
            u.hosts.Some? ==> forall i, j :: 0 <= i < j < |u.hosts.value| ==> u.hosts.value[i].ssh != u.hosts.value[j].ssh
  {
    if b.MultiHost() {
      forall h | h in b.spec.hosts.value
        ensures h.ssh != Some("")
      {
        var i :| 0 <= i < |b.spec.hosts.value| && b.spec.hosts.value[i] == h;
        assert u.hosts.value[i] in u.hosts.value;
      }
    }
  }

  // ---- container names

  function RouterNames(cluster: string, routers: RouterCount): seq<string> {
    if routers == One then [cluster + "-router"] else [cluster + "-router-1", cluster + "-router-2"]
  }

  /** No explicit node name is the name of a router container. */
  ghost predicate NoRouterNamed(u: UserCluster) {
    forall g :: g in u.nodes && g.name.Some? ==> g.name.value !in RouterNames(u.name, WantRouters(u))
  }

  lemma RouterNamesAre(c: Cluster)
    requires c.Routers().Some?
    ensures Map(RoutersOf(c), (r: Router) => r.name) == RouterNames(c.name, c.spec.network.routers)
  {
    hide RangeStart;
  }

  lemma RouterNamesDiffer(cluster: string, routers: RouterCount)
    ensures Distinct(RouterNames(cluster, routers))
    ensures forall role, k :: AutoName(cluster, role, k) !in RouterNames(cluster, routers)
  {
    var a, b, c := cluster + "-router-1", cluster + "-router-2", cluster + "-router";
    assert a[|a| - 1] == '1' && b[|b| - 1] == '2';
    assert a[|cluster| + 1] == b[|cluster| + 1] == c[|cluster| + 1] == 'r';
    forall role, k: nat
      ensures AutoName(cluster, role, k)[|cluster| + 1] != 'r'
    {
      var base := NameBase(cluster, role);
      assert AutoName(cluster, role, k)[|cluster| + 1] == base[|cluster| + 1];
    }
    hide AutoName;
  }

  lemma {:induction false} OrderCovers(groups: seq<NodeGroup>, i: nat) returns (p: nat)
    requires i < |groups| && groups[i].count >= 1
    ensures p < |Order(groups)| && Order(groups)[p] == i
  {
    var n := |groups| - 1;
    if i < n {
      p := OrderCovers(groups[..n], i);
    } else {
      p := |Order(groups[..n])|;
    }
  }

  /** No planned node is called like a router if and only if no explicit name is. */
  lemma NodesAreNoRouters(u: UserCluster, ips: seq<Addr>, hosts: Option<seq<string>>)
    requires NameProblem(u.nodes).None?
    requires |ips| == |Order(u.nodes)| && (hosts.Some? ==> |hosts.value| == |ips|)
    ensures (forall n :: n in Nodes(u.name, u.nodes, ips, hosts) ==> n.name !in RouterNames(u.name, WantRouters(u))) <==> NoRouterNamed(u)
  {
    hide Order;
    hide NameProblem;
    hide AutoName;
    hide RoleCount;
    hide Slots;
    hide RouterNames;
    hide WantRouters;
    var nodes := Nodes(u.name, u.nodes, ips, hosts);
    RouterNamesDiffer(u.name, WantRouters(u));
    NamedGroups(u.nodes);
    if NoRouterNamed(u) {
      forall n | n in nodes
        ensures n.name !in RouterNames(u.name, WantRouters(u))
      {
        var p :| 0 <= p < |nodes| && nodes[p] == n;
        assert u.nodes[Order(u.nodes)[p]] in u.nodes;
      }
    } else {
      var g :| g in u.nodes && g.name.Some? && g.name.value in RouterNames(u.name, WantRouters(u));
      var i :| 0 <= i < |u.nodes| && u.nodes[i] == g;
      var p := OrderCovers(u.nodes, i);
      NamedName(u.name, u.nodes, p);
      assert nodes[p].name == g.name.value;
    }
  }

  lemma DistinctIff(a: seq<string>, b: seq<string>)
    ensures Distinct(a + b) <==> Distinct(a) && Distinct(b) && forall x :: x in a ==> x !in b
  {
    if Distinct(a + b) {
      DistinctParts(a, b);
    } else if Distinct(a) && Distinct(b) && forall x :: x in a ==> x !in b {
      DistinctAppend(a, b);
      assert false;
    }
  }

  /** Nodes and routers of a planned cluster have distinct names if and only if no explicit node name
      is an automatic one of the same definition or the name of a router: planning checks neither. */
  lemma ContainerNamesDistinctIff(u: UserCluster, existing: Option<Cluster>, used: set<int>, allowOverlap: bool,
                                  lans: Option<map<string, LanFacts>>, operator: Option<string>, c: Cluster)
    requires Resolve(u, existing, used, allowOverlap, lans, operator) == Ok(c) && c.Routers().Some?
    ensures Distinct(UnitsHold.AllNames(c)) <==> NamesClear(u.name, u.nodes) && NoRouterNamed(u)
  {
    hide Resolve;
    hide NamesClear;
    hide NoRouterNamed;
    hide Cluster.Routers;
    hide RoutersOf;
    hide NameProblem;
    hide RouterNames;
    HasNodes(u, existing, used, allowOverlap, lans, operator, c);
    ResolvedIsValid(u, existing, used, allowOverlap, lans, operator);
    RouterNamesAre(c);
    RouterNamesDiffer(u.name, WantRouters(u));
    DistinctIff(NodeNames(c.spec.nodes), RouterNames(u.name, WantRouters(u)));
    NamesAvoid(c.spec.nodes, RouterNames(u.name, WantRouters(u)));
    hide WantRouters;
    hide Nodes;
    hide NodeNames;
    hide Slots;
    hide Order;
    if u.hosts.None? {
      ResolvedSingle(u, existing, used, allowOverlap, lans, operator, c);
      var ips := Upwards(c.spec.network.index, |Order(u.nodes)|);
      NamesDistinctIffClear(u.name, u.nodes, ips, None);
      NodesAreNoRouters(u, ips, None);
    } else {
      ResolvedMulti(u, existing, used, allowOverlap, lans, operator, c);
      MultiNames(u, c, lans.value);
    }
  }

  lemma MultiNames(u: UserCluster, c: Cluster, lans: map<string, LanFacts>)
    requires NameProblem(u.nodes).None? && exists pool, a :: MultiPlan(u, c, pool, a, lans)
    ensures Distinct(NodeNames(c.spec.nodes)) <==> NamesClear(u.name, u.nodes)
    ensures (forall n :: n in c.spec.nodes ==> n.name !in RouterNames(u.name, WantRouters(u))) <==> NoRouterNamed(u)
  {
    hide NamesClear;
    hide NoRouterNamed;
    hide Slots;
    hide Order;
    hide Nodes;
    hide NodeNames;
    hide RoundRobin;
    hide RouterNames;
    hide NameProblem;
    var pool, a :| MultiPlan(u, c, pool, a, lans);
    var placed := Some(RoundRobin(Slots(u.nodes), UserHostNames(u.hosts.value)));
    NamesDistinctIffClear(u.name, u.nodes, a.nodes, placed);
    NodesAreNoRouters(u, a.nodes, placed);
  }

  lemma NamesAvoid(nodes: seq<Node>, names: seq<string>)
    ensures (forall x :: x in NodeNames(nodes) ==> x !in names) <==> forall n :: n in nodes ==> n.name !in names
  {
    forall n | n in nodes
      ensures n.name in NodeNames(nodes)
    {
      MapIn(nodes, (x: Node) => x.name, n);
    }
    forall x | x in NodeNames(nodes)
      ensures exists n :: n in nodes && n.name == x
    {
      var i :| 0 <= i < |nodes| && NodeNames(nodes)[i] == x;
      assert nodes[i] in nodes;
    }
  }

  ghost predicate NodesAvoidRouters(c: Cluster) {
    forall n :: n in c.spec.nodes ==> n.name !in RouterNames(c.name, c.spec.network.routers)
  }

  lemma {:induction false} ReachedAvoid(a: Cluster, edits: seq<Edit>, b: Cluster)
    requires a.spec.nodes != [] && NodesAvoidRouters(a) && Reached(a, edits, b)
    ensures NodesAvoidRouters(b)
    decreases |edits|
  {
    hide RouterNames;
    if edits != [] {
      ApplyRest(a, edits[0]);
      var next := Apply(a, edits[0]);
      forall n | n in next.spec.nodes
        ensures n.name !in RouterNames(next.name, next.spec.network.routers)
      {
        ApplyNodes(a, edits[0], n);
        if edits[0].Add? && PlanAdd(a, edits[0].req) == Ok(n) {
          AddedHost(a, edits[0].req, n);
          RouterNamesDiffer(a.name, a.spec.network.routers);
          assert n.name == AutoName(a.name, edits[0].req.role, MaxSuffix(NameBase(a.name, edits[0].req.role), a.spec.nodes) + 1);
        }
        hide Apply;
        hide PlanAdd;
      }
      hide Apply;
      hide NodesAvoidRouters;
      ReachedAvoid(next, edits[1..], b);
    }
  }

  /** And so have those of every file reached from a clear create that names no node like a router. */
  lemma EveryContainerNameDistinct(u: UserCluster, existing: Option<Cluster>, used: set<int>, allowOverlap: bool,
                                   lans: Option<map<string, LanFacts>>, operator: Option<string>, c: Cluster,
                                   edits: seq<Edit>, b: Cluster)
    requires Resolve(u, existing, used, allowOverlap, lans, operator) == Ok(c) && (lans.Some? ==> Networks(lans.value))
    requires (forall g :: g in u.nodes ==> g.count >= 1) && Clear(u) && NoRouterNamed(u)
    requires Saves(c) && Reached(c, edits, b)
    ensures Distinct(UnitsHold.AllNames(b))
  {
    hide Resolve;
    hide Reached;
    hide NoRouterNamed;
    hide NamesClear;
    HasNodes(u, existing, used, allowOverlap, lans, operator, c);
    SavesIff(u, existing, used, allowOverlap, lans, operator, c);
    ContainerNamesDistinctIff(u, existing, used, allowOverlap, lans, operator, c);
    EveryReachableFile(u, existing, used, allowOverlap, lans, operator, c, edits, b);
    hide Clear;
    hide Saves;
    hide Cluster.Routers;
    hide RoutersOf;
    hide RouterNames;
    hide NodeNames;
    RouterNamesAre(c);
    DistinctIff(NodeNames(c.spec.nodes), RouterNames(c.name, c.spec.network.routers));
    NamesAvoid(c.spec.nodes, RouterNames(c.name, c.spec.network.routers));
    ReachedAvoid(c, edits, b);
    ReachedRest(c, edits, b);
    SameRouters(c, b);
    RouterNamesDiffer(b.name, b.spec.network.routers);
    NamesAvoid(b.spec.nodes, RouterNames(b.name, b.spec.network.routers));
    DistinctIff(NodeNames(b.spec.nodes), RouterNames(b.name, b.spec.network.routers));
    InvNames(b);
  }

  lemma InvNames(b: Cluster)
    requires Inv(b)
    ensures Distinct(NodeNames(b.spec.nodes))
  {
  }

  // ---- what a node of a created cluster finds

  /** Whatever verbs make of a cluster created without an existing record, it stays sized. */
  lemma EveryCreatedIsSized(u: UserCluster, used: set<int>, allowOverlap: bool, lans: Option<map<string, LanFacts>>,
                            operator: Option<string>, c: Cluster, edits: seq<Edit>, b: Cluster)
    requires Resolve(u, None, used, allowOverlap, lans, operator) == Ok(c) && Reached(c, edits, b)
    ensures b.status == c.status && Units.Sized(b)
  {
    hide Resolve;
    hide Reached;
    PlannedStatus(u, None, used, allowOverlap, lans, operator, c);
    HasNodes(u, None, used, allowOverlap, lans, operator, c);
    ReachedRest(c, edits, b);
  }

  /** So after units.run each of its nodes has, on its own machine, its nine files and as cpu entries
      exactly cpu0 to cpu(k-1), whatever the hosts held before. */
  lemma CreatedNodesAreSized(u: UserCluster, used: set<int>, allowOverlap: bool, lans: Option<map<string, LanFacts>>,
                             operator: Option<string>, c: Cluster, names: Preflight.Hostnames, edits: seq<Edit>, b: Cluster,
                             text: Units.Template, n: Node)
    requires Resolve(u, None, used, allowOverlap, lans, operator) == Ok(c) && (lans.Some? ==> Networks(lans.value))
    requires TargetsGiven(u) && Checked(c, names) && Saves(c) && Reached(c, edits, b)
    requires Distinct(UnitsHold.AllNames(b)) && n in b.spec.nodes
    ensures forall rest :: rest in RenderedFiles.NODE_FILES ==>
              RenderedFiles.Written(text, b, MachineOf(b, n.name), Units.State(b.name, ["nodes", n.name] + rest))
    ensures forall d, e :: Units.IsCpu(e) ==>
              Units.Look(Units.Ran(text, b, d), MachineOf(b, n.name), Units.State(b.name, ["nodes", n.name, "sys-node", "node0", e])) ==
              if exists i: nat :: i < n.cpu && e == "cpu" + Decimal(i) then Some(Units.Link("/sys/devices/system/cpu/" + e)) else None
  {
    hide Resolve;
    hide Reached;
    hide Checked;
    hide Saves;
    hide Networks;
    hide TargetsGiven;
    hide Units.Ran;
    hide Units.Look;
    hide Units.Sized;
    hide UnitsHold.Sound;
    hide Units.IsCpu;
    hide UnitsHold.AllNames;
    hide MachineOf;
    hide RenderedFiles.Written;
    hide RenderedFiles.Unwritten;
    EveryCreatedIsSized(u, used, allowOverlap, lans, operator, c, edits, b);
    WholeCreateRenders(u, None, used, allowOverlap, lans, operator, c, names, edits, b, text, map[]);
    forall rest | rest in RenderedFiles.NODE_FILES
      ensures RenderedFiles.Written(text, b, MachineOf(b, n.name), Units.State(b.name, ["nodes", n.name] + rest))
    {
      RenderedFiles.NodeDirectory(text, b, n, rest);
    }
    hide RenderedFiles.NODE_FILES;
    forall d, e | Units.IsCpu(e)
      ensures Units.Look(Units.Ran(text, b, d), MachineOf(b, n.name), Units.State(b.name, ["nodes", n.name, "sys-node", "node0", e])) ==
              if exists i: nat :: i < n.cpu && e == "cpu" + Decimal(i) then Some(Units.Link("/sys/devices/system/cpu/" + e)) else None
    {
      UnitsHold.CpuEntriesExact(text, b, d, n, e);
    }
  }
}
