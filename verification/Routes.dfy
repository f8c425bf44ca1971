/** The operator's routes to pods (create/units.py: node_routes; create/cni.py: host-routes; delete.py:
    subnets): what is routed where, what a delete takes away, when the recording phase is done. */
module Routes {
  import opened Basics
  import opened Addresses
  import opened ClusterModel
  import opened Hosts
  import opened PodCidrs
  import opened RangeRoutes
  import Clashes
  import NodeEdits
  import NodeVerbs
  import Planner
  import Preflight
  import Ranges
  import Resolved
  import Reachable
  import Written
  import DeleteCluster
  import Units
  import UnitsHold

  /** Through a next hop, or straight out of the shim. */
  datatype Route = Route(dest: Prefix, via: Addr) | OnLink(dest: Prefix)

  /** Every node with a CIDR on record is a next hop for it, except the node that heads the list. */
  function NodeRoutes(c: Cluster): seq<Route>
    requires c.spec.nodes != []
  {
    var routed := Filter(c.spec.nodes, (n: Node) => n.podCidr.Some? && n.name != c.spec.nodes[0].name);
    Map(routed, (n: Node) => if n.podCidr.Some? then Route(n.podCidr.value, n.ip) else Route(c.spec.network.pods, n.ip))
  }

  /** The routes of the routes unit to pods, services and the VIP. */
  function PlainRoutes(c: Cluster): seq<Route>
    requires c.spec.nodes != []
  {
    var net, cp := c.spec.network, c.spec.nodes[0];
    [Route(net.pods, cp.ip)] + NodeRoutes(c) + [Route(net.services, cp.ip)]
    + if net.vip.Some? then [Route(Prefix(net.vip.value, 32), net.router)] else []
  }

  /** One of the cluster's hosts is the operator, whose routes unit builds the shim. */
  predicate Shimmed(c: Cluster) { c.MultiHost() && exists h :: h in c.spec.hosts.value && h.ssh.None? }

  /** The shim's routes to the cluster's own range. */
  function ShimRoutes(c: Cluster): seq<Route> {
    if !Shimmed(c) || c.spec.network.range.None? then []
    else
      var ps := RangePrefixes(c.spec.network.range.value);
      if ps.None? then [] else Map(ps.value, (p: Prefix) => OnLink(p))
  }

  /** The operator's routes unit. */
  function HostRoutes(c: Cluster): seq<Route>
    requires c.spec.nodes != []
  {
    ShimRoutes(c) + PlainRoutes(c)
  }

  /** Longest-prefix matching: r is the one route the address takes. */
  ghost predicate Takes(table: seq<Route>, a: Addr, r: Route) {
    && r in table && InPrefix(a, r.dest)
    && forall s :: s in table && InPrefix(a, s.dest) ==> s == r || s.dest.len < r.dest.len
  }

  /** What with_pod_cidrs accepts: a proper part of the pod subnet. */
  predicate Accepted(c: Cluster) {
    forall n :: n in c.spec.nodes && n.podCidr.Some? ==> SubnetOf(n.podCidr.value, c.spec.network.pods) && n.podCidr.value != c.spec.network.pods
  }

  ghost predicate CidrsApart(c: Cluster) {
    forall i, j :: 0 <= i < j < |c.spec.nodes| && c.spec.nodes[i].podCidr.Some? && c.spec.nodes[j].podCidr.Some? ==>
      Apart(c.spec.nodes[i].podCidr.value, c.spec.nodes[j].podCidr.value)
  }

  lemma {:induction false} SizesDiffer(a: PrefixLength, b: PrefixLength)
    requires a < b
    ensures Size(b) < Size(a)
    decreases b - a
  {
    if a + 1 < b {
      SizesDiffer(a + 1, b);
    }
  }

  /** A proper part has a longer prefix. */
  lemma PartIsLonger(p: Prefix, q: Prefix)
    requires SubnetOf(p, q) && p != q
    ensures p.len > q.len
  {
    if p.len < q.len {
      SizesDiffer(p.len, q.len);
      assert false;
    }
  }

  /** Routes of the host that are not the cluster's node routes: none competes for pod addresses. */
  ghost predicate Others(c: Cluster, table: seq<Route>)
    requires c.spec.nodes != []
  {
    forall r :: r in table && r !in NodeRoutes(c) && r != Route(c.spec.network.pods, c.spec.nodes[0].ip) ==>
      Apart(r.dest, c.spec.network.pods) || r.dest.len < c.spec.network.pods.len
  }

  ghost predicate HasPodRoutes(c: Cluster, table: seq<Route>)
    requires c.spec.nodes != []
  {
    Route(c.spec.network.pods, c.spec.nodes[0].ip) in table && forall r :: r in NodeRoutes(c) ==> r in table
  }

  lemma NodeRouteIn(c: Cluster, r: Route)
    requires c.spec.nodes != []
    ensures r in NodeRoutes(c) <==>
            r.Route? && exists n :: n in c.spec.nodes && n.podCidr == Some(r.dest) && n.ip == r.via && n.name != c.spec.nodes[0].name
  {
    var routed := Filter(c.spec.nodes, (n: Node) => n.podCidr.Some? && n.name != c.spec.nodes[0].name);
    if r in NodeRoutes(c) {
      var i :| 0 <= i < |routed| && NodeRoutes(c)[i] == r;
      assert routed[i] in routed;
    }
    if r.Route? && exists n :: n in c.spec.nodes && n.podCidr == Some(r.dest) && n.ip == r.via && n.name != c.spec.nodes[0].name {
      var n :| n in c.spec.nodes && n.podCidr == Some(r.dest) && n.ip == r.via && n.name != c.spec.nodes[0].name;
      assert n in routed;
      var i :| 0 <= i < |routed| && routed[i] == n;
      assert NodeRoutes(c)[i] == r;
    }
  }

  lemma CidrsMeet(c: Cluster, m: Node, n: Node, a: Addr)
    requires CidrsApart(c) && m in c.spec.nodes && n in c.spec.nodes
    requires m.podCidr.Some? && n.podCidr.Some? && InPrefix(a, m.podCidr.value) && InPrefix(a, n.podCidr.value)
    ensures m == n
  {
    var i :| 0 <= i < |c.spec.nodes| && c.spec.nodes[i] == m;
    var j :| 0 <= j < |c.spec.nodes| && c.spec.nodes[j] == n;
  }

  /** Every address of a node's CIDR is sent to that node: straight, or, for the first control plane,
      through the cluster's pod subnet. Nothing else on the host changes that, as long as it does not
      compete for pod addresses. */
  lemma PodsReachTheirNode(c: Cluster, table: seq<Route>, n: Node, a: Addr)
    requires c.spec.nodes != [] && Distinct(NodeNames(c.spec.nodes))
    requires Accepted(c) && CidrsApart(c) && Others(c, table) && HasPodRoutes(c, table)
    requires n in c.spec.nodes && n.podCidr.Some? && InPrefix(a, n.podCidr.value)
    ensures Takes(table, a, if n == c.spec.nodes[0] then Route(c.spec.network.pods, n.ip) else Route(n.podCidr.value, n.ip))
  {
    var pods, first := c.spec.network.pods, c.spec.nodes[0];
    SameName(c, n);
    PartIsLonger(n.podCidr.value, pods);
    var r := if n == first then Route(pods, n.ip) else Route(n.podCidr.value, n.ip);
    NodeRouteIn(c, r);
    hide NodeRoutes;
    forall s | s in table && InPrefix(a, s.dest)
      ensures s == r || s.dest.len < r.dest.len
    {
      NodeRouteIn(c, s);
      if s in NodeRoutes(c) {
        var m :| m in c.spec.nodes && m.podCidr == Some(s.dest) && m.ip == s.via && m.name != first.name;
        CidrsMeet(c, m, n, a);
      } else if s != Route(pods, first.ip) {
        assert InPrefix(a, pods);
      }
    }
  }

  lemma SameName(c: Cluster, n: Node)
    requires n in c.spec.nodes && Distinct(NodeNames(c.spec.nodes))
    ensures n.name == c.spec.nodes[0].name <==> n == c.spec.nodes[0]
  {
    var i :| 0 <= i < |c.spec.nodes| && c.spec.nodes[i] == n;
    assert NodeNames(c.spec.nodes)[i] == n.name && NodeNames(c.spec.nodes)[0] == c.spec.nodes[0].name;
  }

  /** A pod address of no recorded node goes to the first control plane. */
  lemma OtherPodsReachTheFirst(c: Cluster, table: seq<Route>, a: Addr)
    requires c.spec.nodes != [] && Others(c, table) && HasPodRoutes(c, table) && InPrefix(a, c.spec.network.pods)
    requires forall n :: n in c.spec.nodes && n.podCidr.Some? ==> !InPrefix(a, n.podCidr.value)
    ensures Takes(table, a, Route(c.spec.network.pods, c.spec.nodes[0].ip))
  {
    forall s | s in table && InPrefix(a, s.dest)
      ensures s !in NodeRoutes(c)
    {
      NodeRouteIn(c, s);
    }
    hide NodeRoutes;
  }

  /** Whatever sequence of verbs edits cluster.yaml, only accepted CIDRs are ever recorded. */
  lemma {:induction false} OnlyAcceptedCidrs(a: Cluster, edits: seq<NodeEdits.Edit>, b: Cluster)
    requires Accepted(a) && NodeEdits.Reached(a, edits, b)
    ensures Accepted(b)
    decreases |edits|
  {
    if edits != [] {
      ApplyAccepted(a, edits[0]);
      OnlyAcceptedCidrs(NodeEdits.Apply(a, edits[0]), edits[1..], b);
    }
  }

  /** From planning on, over any sequence of verbs, every CIDR in cluster.yaml is a proper part of the
      cluster's pod subnet. */
  lemma EveryFileIsAccepted(u: UserCluster, existing: Option<Cluster>, used: set<int>, allowOverlap: bool,
                            lans: Option<map<string, Planner.LanFacts>>, operator: Option<string>, c: Cluster,
                            edits: seq<NodeEdits.Edit>, b: Cluster)
    requires Planner.Resolve(u, existing, used, allowOverlap, lans, operator) == Ok(c) && NodeEdits.Reached(c, edits, b)
    ensures Accepted(b)
  {
    hide Planner.Resolve;
    hide Planner.Nodes;
    hide NodeEdits.Reached;
    Resolved.ResolvedFresh(u, existing, used, allowOverlap, lans, operator, c);
    OnlyAcceptedCidrs(c, edits, b);
  }

  lemma ApplyAccepted(c: Cluster, e: NodeEdits.Edit)
    requires NodeEdits.Editable(c) && Accepted(c)
    ensures Accepted(NodeEdits.Apply(c, e))
  {
    if e.RecordCidrs? && WithPodCidrs(c, e.reports).Ok? {
      RecordingAccepted(c, e.reports);
      hide WithPodCidrs;
    } else if e.Add? {
      hide NodeEdits.NextName;
      hide NodeEdits.NextIp;
      hide NodeEdits.HostForRequest;
    } else if e.Join? {
      var nodes := Map(c.spec.nodes, (n: Node) => if n.name == e.name then n.(join := true) else n);
      forall m | m in nodes
        ensures exists n :: n in c.spec.nodes && n.podCidr == m.podCidr
      {
        var i :| 0 <= i < |nodes| && nodes[i] == m;
        assert c.spec.nodes[i] in c.spec.nodes;
      }
    }
  }

  lemma RecordingAccepted(c: Cluster, reports: Reports)
    requires Accepted(c) && WithPodCidrs(c, reports).Ok?
    ensures Accepted(WithPodCidrs(c, reports).value)
  {
    var nodes := RecordedAll(c.spec.nodes, c.spec.network.pods, reports).value;
    forall m | m in nodes && m.podCidr.Some?
      ensures SubnetOf(m.podCidr.value, c.spec.network.pods) && m.podCidr.value != c.spec.network.pods
    {
      var i :| 0 <= i < |nodes| && nodes[i] == m;
      RecordedAt(c.spec.nodes, c.spec.network.pods, reports, i);
      assert c.spec.nodes[i] in c.spec.nodes;
    }
  }

  // ---- the routes unit's own table

  lemma PlainRoutesQualify(u: UserCluster, existing: Option<Cluster>, used: set<int>, allowOverlap: bool,
                           lans: Option<map<string, Planner.LanFacts>>, operator: Option<string>, c: Cluster,
                           edits: seq<NodeEdits.Edit>, b: Cluster)
    requires Planner.Resolve(u, existing, used, allowOverlap, lans, operator) == Ok(c) && NodeEdits.Reached(c, edits, b)
    ensures b.spec.nodes != [] && HasPodRoutes(b, PlainRoutes(b)) && Others(b, PlainRoutes(b))
  {
    hide Planner.Resolve;
    hide NodeEdits.Reached;
    Written.HasNodes(u, existing, used, allowOverlap, lans, operator, c);
    Resolved.SubnetsByIndex(u, existing, used, allowOverlap, lans, operator, c);
    Written.ReachedRest(c, edits, b);
    NetworkSizes();
    hide NodeRoutes;
    hide Size;
  }

  /** No route to the range takes pod addresses from the pod routes. */
  ghost predicate ShimApart(c: Cluster) {
    forall s :: s in ShimRoutes(c) ==> Apart(s.dest, c.spec.network.pods) || s.dest.len < c.spec.network.pods.len
  }

  /** In the table of a cluster's own routes unit nothing competes for pod addresses exactly when no
      route to the range does. */
  lemma UnitRoutesQualify(u: UserCluster, existing: Option<Cluster>, used: set<int>, allowOverlap: bool,
                          lans: Option<map<string, Planner.LanFacts>>, operator: Option<string>, c: Cluster,
                          edits: seq<NodeEdits.Edit>, b: Cluster)
    requires Planner.Resolve(u, existing, used, allowOverlap, lans, operator) == Ok(c) && NodeEdits.Reached(c, edits, b)
    ensures b.spec.nodes != [] && HasPodRoutes(b, HostRoutes(b))
    ensures Others(b, HostRoutes(b)) <==> ShimApart(b)
  {
    hide Planner.Resolve;
    hide NodeEdits.Reached;
    hide PlainRoutes;
    hide NodeRoutes;
    PlainRoutesQualify(u, existing, used, allowOverlap, lans, operator, c, edits, b);
    ShimRoutesOnLink(b);
    hide ShimRoutes;
    forall r | r in ShimRoutes(b)
      ensures r !in NodeRoutes(b)
    {
      NodeRouteIn(b, r);
    }
    hide Apart;
  }

  lemma ShimRoutesOnLink(c: Cluster)
    ensures forall r :: r in ShimRoutes(c) ==> r.OnLink?
  {
    hide RangePrefixes;
  }

  /** The shim's own routes lose at this address to one of this length. */
  ghost predicate ShimYields(c: Cluster, a: Addr, len: nat) {
    forall s :: s in ShimRoutes(c) && InPrefix(a, s.dest) ==> s.dest.len < len
  }

  lemma TakesBoth(c: Cluster, a: Addr, r: Route)
    requires c.spec.nodes != [] && r.Route? && Takes(PlainRoutes(c), a, r)
    ensures Takes(HostRoutes(c), a, r) <==> ShimYields(c, a, r.dest.len)
  {
    hide PlainRoutes;
    ShimRoutesOnLink(c);
    hide ShimRoutes;
    if Takes(HostRoutes(c), a, r) {
      forall s | s in ShimRoutes(c) && InPrefix(a, s.dest)
        ensures s.dest.len < r.dest.len
      {
        assert s in HostRoutes(c);
      }
    }
  }

  /** The shim's routes hold exactly the pool: an address outside it is none of theirs. */
  lemma ShimRoutesAre(u: UserCluster, existing: Option<Cluster>, used: set<int>, allowOverlap: bool,
                      lans: Option<map<string, Planner.LanFacts>>, operator: Option<string>, c: Cluster,
                      edits: seq<NodeEdits.Edit>, b: Cluster, a: int)
    requires Planner.Resolve(u, existing, used, allowOverlap, lans, operator) == Ok(c) && NodeEdits.Reached(c, edits, b)
    ensures (exists s :: s in ShimRoutes(b) && InPrefix(a, s.dest)) <==>
            b.spec.hosts.Some? && (exists h :: h in b.spec.hosts.value && h.ssh.None?) && a in Preflight.PoolOf(b)
    ensures (exists s :: s in ShimRoutes(b) && InPrefix(a, s.dest)) ==> Shimmed(b)
  {
    hide Planner.Resolve;
    hide NodeEdits.Reached;
    hide Ranges.Pool;
    hide Ranges.RangesText;
    hide RangePrefixes;
    Written.HasNodes(u, existing, used, allowOverlap, lans, operator, c);
    Written.ReachedRest(c, edits, b);
    if u.hosts.None? {
      Resolved.ResolvedSingle(u, existing, used, allowOverlap, lans, operator, c);
    } else {
      Resolved.ResolvedMulti(u, existing, used, allowOverlap, lans, operator, c);
      var pool := Ranges.Pool(u.network.value.range.value).value;
      Clashes.PlannedPool(u, existing, used, allowOverlap, lans, operator, c, pool);
      Ranges.RoundTrip(pool);
      PrefixesCover(pool, a);
      if Shimmed(b) {
        OnLinks(RangePrefixes(b.spec.network.range.value).value, a);
      }
    }
  }

  lemma OnLinks(ps: seq<Prefix>, a: int)
    ensures (exists s :: s in Map(ps, (p: Prefix) => OnLink(p)) && InPrefix(a, s.dest)) <==> InSome(ps, a)
  {
    var routes := Map(ps, (p: Prefix) => OnLink(p));
    if s :| s in routes && InPrefix(a, s.dest) {
      var i :| 0 <= i < |routes| && routes[i] == s;
      assert ps[i] in ps;
    }
    if p :| p in ps && InPrefix(a, p) {
      MapIn(ps, (x: Prefix) => OnLink(x), p);
    }
  }

  /** On every file reached from a clear create whose recorded CIDRs do not overlap, the routes unit
      sends an address of a node's CIDR to that node exactly when the route there is longer than the
      shim's own ones that hold it; outside the pool none does. */
  lemma EveryPodReachesItsNode(u: UserCluster, existing: Option<Cluster>, used: set<int>, allowOverlap: bool,
                               lans: Option<map<string, Planner.LanFacts>>, operator: Option<string>, c: Cluster,
                               edits: seq<NodeEdits.Edit>, b: Cluster, n: Node, a: Addr)
    requires Planner.Resolve(u, existing, used, allowOverlap, lans, operator) == Ok(c) && NodeEdits.Reached(c, edits, b)
    requires (forall g :: g in u.nodes ==> g.count >= 1) && Reachable.Clear(u)
    requires CidrsApart(b) && n in b.spec.nodes && n.podCidr.Some? && InPrefix(a, n.podCidr.value)
    ensures b.spec.nodes != []
    ensures var r := if n == b.spec.nodes[0] then Route(b.spec.network.pods, n.ip) else Route(n.podCidr.value, n.ip);
            && (Takes(HostRoutes(b), a, r) <==> ShimYields(b, a, r.dest.len))
            && (!Shimmed(b) || a !in Preflight.PoolOf(b) ==> Takes(HostRoutes(b), a, r))
  {
    hide Planner.Resolve;
    hide NodeEdits.Reached;
    hide Reachable.Clear;
    PlainRoutesQualify(u, existing, used, allowOverlap, lans, operator, c, edits, b);
    EveryFileIsAccepted(u, existing, used, allowOverlap, lans, operator, c, edits, b);
    Reachable.EveryReachableFile(u, existing, used, allowOverlap, lans, operator, c, edits, b);
    Written.InvNames(b);
    hide NodeEdits.Inv;
    hide PlainRoutes;
    hide Accepted;
    hide Others;
    hide HasPodRoutes;
    hide Preflight.PoolOf;
    PodsReachTheirNode(b, PlainRoutes(b), n, a);
    ShimRoutesAre(u, existing, used, allowOverlap, lans, operator, c, edits, b, a);
    hide CidrsApart;
    hide Shimmed;
    hide ShimRoutes;
    hide HostRoutes;
    hide Takes;
    TakesBoth(b, a, if n == b.spec.nodes[0] then Route(b.spec.network.pods, n.ip) else Route(n.podCidr.value, n.ip));
  }

  /** And every other pod address to the first control plane, under the same condition. */
  lemma EveryOtherPodReachesTheFirst(u: UserCluster, existing: Option<Cluster>, used: set<int>, allowOverlap: bool,
                                     lans: Option<map<string, Planner.LanFacts>>, operator: Option<string>, c: Cluster,
                                     edits: seq<NodeEdits.Edit>, b: Cluster, a: Addr)
    requires Planner.Resolve(u, existing, used, allowOverlap, lans, operator) == Ok(c) && NodeEdits.Reached(c, edits, b)
    requires InPrefix(a, b.spec.network.pods)
    requires forall n :: n in b.spec.nodes && n.podCidr.Some? ==> !InPrefix(a, n.podCidr.value)
    ensures b.spec.nodes != []
    ensures var r := Route(b.spec.network.pods, b.spec.nodes[0].ip);
            && (Takes(HostRoutes(b), a, r) <==> ShimYields(b, a, r.dest.len))
            && (!Shimmed(b) || a !in Preflight.PoolOf(b) ==> Takes(HostRoutes(b), a, r))
  {
    hide Planner.Resolve;
    hide NodeEdits.Reached;
    PlainRoutesQualify(u, existing, used, allowOverlap, lans, operator, c, edits, b);
    hide PlainRoutes;
    hide Preflight.PoolOf;
    OtherPodsReachTheFirst(b, PlainRoutes(b), a);
    ShimRoutesAre(u, existing, used, allowOverlap, lans, operator, c, edits, b, a);
    hide Shimmed;
    hide ShimRoutes;
    hide HostRoutes;
    hide Takes;
    TakesBoth(b, a, Route(b.spec.network.pods, b.spec.nodes[0].ip));
  }

  /** The other two routes of the unit: services through the first control plane, the virtual address
      through the router that holds the floating one. */
  lemma OtherRoutesWin(c: Cluster, a: Addr)
    requires c.spec.nodes != [] && Accepted(c) && Resolved.ByIndex(c.spec.network)
    ensures InPrefix(a, c.spec.network.services) ==> Takes(PlainRoutes(c), a, Route(c.spec.network.services, c.spec.nodes[0].ip))
    ensures c.spec.network.vip == Some(a) ==> Takes(PlainRoutes(c), a, Route(Prefix(a, 32), c.spec.network.router))
  {
    NetworkSizes();
    hide NodeRoutes;
    hide Size;
    var net := c.spec.network;
    forall s | s in NodeRoutes(c) && InPrefix(a, s.dest)
      ensures InPrefix(a, net.pods)
    {
      NodeRouteIn(c, s);
    }
  }

  /** The route wins in the whole unit exactly when the shim's own routes there are shorter. */
  ghost predicate WinsUnlessShim(c: Cluster, a: Addr, r: Route)
    requires c.spec.nodes != []
  {
    && (Takes(HostRoutes(c), a, r) <==> ShimYields(c, a, r.dest.len))
    && (!Shimmed(c) || a !in Preflight.PoolOf(c) ==> Takes(HostRoutes(c), a, r))
  }

  lemma EveryServiceReachesTheFirst(u: UserCluster, existing: Option<Cluster>, used: set<int>, allowOverlap: bool,
                                    lans: Option<map<string, Planner.LanFacts>>, operator: Option<string>, c: Cluster,
                                    edits: seq<NodeEdits.Edit>, b: Cluster, a: Addr)
    requires Planner.Resolve(u, existing, used, allowOverlap, lans, operator) == Ok(c) && NodeEdits.Reached(c, edits, b)
    ensures b.spec.nodes != []
    ensures InPrefix(a, b.spec.network.services) ==> WinsUnlessShim(b, a, Route(b.spec.network.services, b.spec.nodes[0].ip))
    ensures b.spec.network.vip == Some(a) ==> WinsUnlessShim(b, a, Route(Prefix(a, 32), b.spec.network.router))
  {
    hide Planner.Resolve;
    hide NodeEdits.Reached;
    hide Resolved.ByIndex;
    Written.HasNodes(u, existing, used, allowOverlap, lans, operator, c);
    Resolved.SubnetsByIndex(u, existing, used, allowOverlap, lans, operator, c);
    Written.ReachedRest(c, edits, b);
    EveryFileIsAccepted(u, existing, used, allowOverlap, lans, operator, c, edits, b);
    OtherRoutesWin(b, a);
    ShimRoutesAre(u, existing, used, allowOverlap, lans, operator, c, edits, b, a);
    hide PlainRoutes;
    hide Preflight.PoolOf;
    hide Shimmed;
    hide ShimRoutes;
    hide HostRoutes;
    hide Takes;
    hide Accepted;
    if InPrefix(a, b.spec.network.services) {
      TakesBoth(b, a, Route(b.spec.network.services, b.spec.nodes[0].ip));
    }
    if b.spec.network.vip == Some(a) {
      TakesBoth(b, a, Route(Prefix(a, 32), b.spec.network.router));
    }
  }

  // ---- what a delete takes away

  lemma {:induction false} CidrsIn(nodes: seq<Node>, p: Prefix)
    ensures p in DeleteCluster.CidrsOf(nodes) <==> exists n :: n in nodes && n.podCidr == Some(p)
  {
    if nodes != [] {
      var k := |nodes| - 1;
      CidrsIn(nodes[..k], p);
      Snoc(nodes);
    }
  }

  /** The destinations a delete removes are exactly those of the routes unit, but for the VIP's own. */
  lemma DeleteKnowsEveryRoute(c: Cluster, peers: seq<string>, p: Prefix)
    requires c.spec.nodes != []
    ensures p in DeleteCluster.Subnets(Some(DeleteCluster.Yaml(c, peers))) <==>
            p == c.spec.network.pods || p == c.spec.network.services || exists r :: r in NodeRoutes(c) && r.dest == p
  {
    var routed := Filter(c.spec.nodes, (n: Node) => n.podCidr.Some? && n.name != c.spec.nodes[0].name);
    CidrsIn(routed, p);
    if n :| n in routed && n.podCidr == Some(p) {
      NodeRouteIn(c, Route(p, n.ip));
    }
    if r :| r in NodeRoutes(c) && r.dest == p {
      NodeRouteIn(c, r);
    }
    hide NodeRoutes;
    hide DeleteCluster.CidrsOf;
  }

  // ---- the host-routes phase

  function RoutesPath(c: Cluster): Units.Path { Units.Systemd(c.name + "-routes.service") }

  /** str(n.pod_cidr or "") is what the node reports. */
  predicate Recorded(n: Node, report: Report) {
    match report
    case Empty => n.podCidr.None?
    case Unreadable => false
    case Net(cidr) => n.podCidr == Some(cidr)
  }

  predicate RoutesCurrent(text: Units.Template, c: Cluster, d: Units.Disks) {
    forall hf :: hf in Units.PerHost(c) && RoutesPath(c) in hf.files ==>
      Units.Look(d, hf.machine, RoutesPath(c)) == Some(Units.File(text(c, hf.name, RoutesPath(c))))
  }

  predicate HostRoutesDone(text: Units.Template, c: Cluster, d: Units.Disks, reports: Reports) {
    (forall n :: n in c.spec.nodes && n.name in reports ==> Recorded(n, reports[n.name])) && RoutesCurrent(text, c, d)
  }

  predicate Waiting(n: Node, reports: Reports) { n.join && n.name in reports && reports[n.name].Empty? }

  function Rewritten(text: Units.Template, c: Cluster, d: Units.Disks, hfs: seq<Units.HostFiles>): Units.Disks {
    if hfs == [] then d
    else
      var k := |hfs| - 1;
      var before := Rewritten(text, c, d, hfs[..k]);
      if RoutesPath(c) in hfs[k].files then
        Units.Step(before, Units.Put(hfs[k].machine, RoutesPath(c), Units.File(text(c, hfs[k].name, RoutesPath(c)))))
      else before
  }

  /** host_routes_run: cluster.yaml with the CIDRs, and the routes unit rendered from it. */
  function HostRoutesRun(text: Units.Template, c: Cluster, d: Units.Disks,
          reports: Reports): Result<(Cluster, Units.Disks), CidrError> {
    var waiting := First(c.spec.nodes, (n: Node) => Waiting(n, reports));
    if waiting.Some? then Err(NoCidrYet(waiting.value.name))
    else
      var recorded :- WithPodCidrs(c, reports);
      Ok((recorded, Rewritten(text, recorded, d, Units.PerHost(recorded))))
  }

  lemma RewrittenNext(text: Units.Template, c: Cluster, d: Units.Disks, hfs: seq<Units.HostFiles>, i: nat)
    requires i < |hfs|
    ensures Rewritten(text, c, d, hfs[..i + 1]) ==
            if RoutesPath(c) in hfs[i].files then
              Units.Step(Rewritten(text, c, d, hfs[..i]), Units.Put(hfs[i].machine, RoutesPath(c), Units.File(text(c, hfs[i].name, RoutesPath(c)))))
            else Rewritten(text, c, d, hfs[..i])
  {
    assert hfs[..i + 1][..i] == hfs[..i];
  }

  /** The phase's state: cluster.yaml, its copies on the other hosts, and the hosts' files. */
  class Operator {
    var cluster: Cluster
    var copies: map<HostId, Cluster>
    var disks: Units.Disks

    constructor (c: Cluster, others: map<HostId, Cluster>, d: Units.Disks)
      ensures cluster == c && copies == others && disks == d
    {
      cluster := c;
      copies := others;
      disks := d;
    }

    /** save_cluster: here, then on every other host. */
    method Save(c: Cluster)
      modifies this`cluster, this`copies
      ensures cluster == c && copies == Copied(old(copies), RemotesOf(c), c)
    {
      cluster := c;
      var hosts := RemotesOf(c);
      for i := 0 to |hosts|
        invariant cluster == c && copies == Copied(old(copies), hosts[..i], c)
      {
        assert hosts[..i + 1][..i] == hosts[..i];
        copies := copies[hosts[i] := c];
      }
      assert hosts[..|hosts|] == hosts;
    }

    method WriteRoutes(text: Units.Template)
      modifies this`disks
      ensures disks == Rewritten(text, cluster, old(disks), Units.PerHost(cluster))
    {
      hide Units.PerHost;
      hide Units.Step;
      var hfs := Units.PerHost(cluster);
      for i := 0 to |hfs|
        invariant disks == Rewritten(text, cluster, old(disks), hfs[..i])
      {
        RewrittenNext(text, cluster, old(disks), hfs, i);
        if RoutesPath(cluster) in hfs[i].files {
          var unit := Units.File(text(cluster, hfs[i].name, RoutesPath(cluster)));
          disks := Units.Step(disks, Units.Put(hfs[i].machine, RoutesPath(cluster), unit));
        }
      }
      assert hfs[..|hfs|] == hfs;
    }

    /** Refused, it leaves everything as it was. */
    method Run(text: Units.Template, reports: Reports) returns (error: Option<CidrError>)
      modifies this
      ensures var r := HostRoutesRun(text, old(cluster), old(disks), reports);
              match r
              case Ok(after) =>
                error == None && cluster == after.0 && disks == after.1 && copies == Copied(old(copies), RemotesOf(after.0), after.0)
              case Err(e) =>
                error == Some(e) && cluster == old(cluster) && disks == old(disks) && copies == old(copies)
    {
      hide Units.PerHost;
      hide RemotesOf;
      hide Copied;
      for i := 0 to |cluster.spec.nodes|
        invariant forall j :: 0 <= j < i ==> !Waiting(cluster.spec.nodes[j], reports)
        invariant cluster == old(cluster) && disks == old(disks) && copies == old(copies)
      {
        if Waiting(cluster.spec.nodes[i], reports) {
          FirstIsLeast(cluster.spec.nodes, (n: Node) => Waiting(n, reports), i);
          return Some(NoCidrYet(cluster.spec.nodes[i].name));
        }
      }
      assert First(cluster.spec.nodes, (n: Node) => Waiting(n, reports)).None?;
      var recorded := RecordPodCidrs(cluster, reports);
      if recorded.Err? {
        return Some(recorded.error);
      }
      Save(recorded.value);
      WriteRoutes(text);
      return None;
    }
  }

  lemma {:induction false} RewrittenHolds(text: Units.Template, c: Cluster, d: Units.Disks,
          hfs: seq<Units.HostFiles>, hf: Units.HostFiles)
    requires UnitsHold.Apart(hfs) && hf in hfs && RoutesPath(c) in hf.files
    ensures Units.Look(Rewritten(text, c, d, hfs), hf.machine, RoutesPath(c)) == Some(Units.File(text(c, hf.name, RoutesPath(c))))
  {
    var k := |hfs| - 1;
    Snoc(hfs);
    if hf in hfs[..k] {
      RewrittenHolds(text, c, d, hfs[..k], hf);
      var i :| 0 <= i < k && hfs[i] == hf;
      assert hfs[i].machine != hfs[k].machine;
    }
  }

  /** The phase is refused exactly when a node that joins has no CIDR yet, or a node reports something
      that is no proper part of the pod subnet; a node without a CIDR is named, the first one. Otherwise
      it records what was reported. */
  lemma HostRoutesRefusedIff(text: Units.Template, c: Cluster, d: Units.Disks, reports: Reports)
    requires NodeEdits.Editable(c)
    ensures HostRoutesRun(text, c, d, reports).Ok? <==>
            forall n :: n in c.spec.nodes && n.name in reports ==>
              NodeVerbs.Acceptable(c.spec.network.pods, reports[n.name]) && !(n.join && reports[n.name] == Empty)
    ensures forall i :: 0 <= i < |c.spec.nodes| && c.spec.nodes[i].join && c.spec.nodes[i].name in reports && reports[c.spec.nodes[i].name] == Empty
              && (forall j :: 0 <= j < i && c.spec.nodes[j].join && c.spec.nodes[j].name in reports ==> reports[c.spec.nodes[j].name] != Empty)
              ==> HostRoutesRun(text, c, d, reports) == Err(NoCidrYet(c.spec.nodes[i].name))
    ensures HostRoutesRun(text, c, d, reports).Ok? ==>
              HostRoutesRun(text, c, d, reports).value.0 == NodeEdits.Apply(c, NodeEdits.RecordCidrs(reports))
  {
    hide Rewritten;
    hide Units.PerHost;
    hide NodeEdits.Apply;
    CidrsOk(c, reports);
    hide NodeVerbs.Acceptable;
    var waits := (n: Node) => Waiting(n, reports);
    forall i: nat | i < |c.spec.nodes| && waits(c.spec.nodes[i]) && forall j :: 0 <= j < i ==> !waits(c.spec.nodes[j])
      ensures First(c.spec.nodes, waits) == Some(c.spec.nodes[i])
    {
      FirstIsLeast(c.spec.nodes, waits, i);
    }
    hide WithPodCidrs;
  }

  lemma CidrsOk(c: Cluster, reports: Reports)
    requires NodeEdits.Editable(c)
    ensures WithPodCidrs(c, reports).Ok? <==>
            forall n :: n in c.spec.nodes && n.name in reports ==> NodeVerbs.Acceptable(c.spec.network.pods, reports[n.name])
    ensures WithPodCidrs(c, reports).Ok? ==> NodeEdits.Apply(c, NodeEdits.RecordCidrs(reports)) == WithPodCidrs(c, reports).value
  {
    NodeVerbs.CidrsMean(c, reports);
    hide WithPodCidrs;
  }

  /** After the phase has run, it is done exactly when no node that still reports an empty CIDR has
      one on record (an unjoined node that came back): the run keeps it, the check misses it. */
  lemma HostRoutesEstablished(text: Units.Template, c: Cluster, d: Units.Disks, reports: Reports)
    requires HostRoutesRun(text, c, d, reports).Ok?
    requires UnitsHold.Sound(c)
    ensures var (after, disks) := HostRoutesRun(text, c, d, reports).value;
            && (forall hf :: hf in Units.PerHost(after) && Units.Systemd(c.name + "-routes.service") in hf.files ==>
                  Units.Look(disks, hf.machine, Units.Systemd(c.name + "-routes.service")) ==
                  Some(Units.File(text(after, hf.name, Units.Systemd(c.name + "-routes.service")))))
            && RoutesCurrent(text, after, disks)
            && (HostRoutesDone(text, after, disks, reports) <==>
                forall n :: n in c.spec.nodes && n.name in reports && reports[n.name].Empty? ==> n.podCidr.None?)
  {
    hide Units.PerHost;
    hide UnitsHold.Sound;
    var after := WithPodCidrs(c, reports).value;
    var disks := HostRoutesRun(text, c, d, reports).value.1;
    RecordingSound(c, reports);
    UnitsHold.PerHostIs(after);
    forall hf | hf in Units.PerHost(after) && RoutesPath(after) in hf.files
      ensures Units.Look(disks, hf.machine, RoutesPath(after)) == Some(Units.File(text(after, hf.name, RoutesPath(after))))
    {
      RewrittenHolds(text, after, d, Units.PerHost(after), hf);
    }
    hide Rewritten;
    hide Units.Look;
    RecordsMatch(c, reports);
  }

  /** The phase counts as done exactly when a run would record nothing new, the routes unit is current
      wherever there is one, and no node that reports an empty CIDR has one on record. */
  lemma HostRoutesDoneIff(text: Units.Template, c: Cluster, d: Units.Disks, reports: Reports)
    requires HostRoutesRun(text, c, d, reports).Ok? && NodeEdits.Editable(c)
    ensures HostRoutesDone(text, c, d, reports) <==>
            && HostRoutesRun(text, c, d, reports).value.0 == c
            && (forall n :: n in c.spec.nodes && n.name in reports && reports[n.name] == Empty ==> n.podCidr.None?)
            && (forall hf :: hf in Units.PerHost(c) && Units.Systemd(c.name + "-routes.service") in hf.files ==>
                  Units.Look(d, hf.machine, Units.Systemd(c.name + "-routes.service")) ==
                  Some(Units.File(text(c, hf.name, Units.Systemd(c.name + "-routes.service")))))
  {
    hide Units.PerHost;
    hide Units.Look;
    hide Rewritten;
    var after := WithPodCidrs(c, reports).value;
    assert HostRoutesRun(text, c, d, reports).value.0 == after;
    NodeVerbs.CidrsMean(c, reports);
    hide WithPodCidrs;
    hide HostRoutesRun;
    NothingNew(c, after, reports);
  }

  lemma NothingNew(c: Cluster, after: Cluster, reports: Reports)
    requires forall n :: n in c.spec.nodes && n.name in reports ==> NodeVerbs.Acceptable(c.spec.network.pods, reports[n.name])
    requires after.name == c.name && after.status == c.status && after.spec.network == c.spec.network && after.spec.hosts == c.spec.hosts
    requires |after.spec.nodes| == |c.spec.nodes|
    requires forall i :: 0 <= i < |c.spec.nodes| ==>
               var m, n := c.spec.nodes[i], after.spec.nodes[i];
               n == m.(podCidr := n.podCidr) && n.podCidr == if m.name in reports && reports[m.name].Net? then Some(reports[m.name].cidr) else m.podCidr
    ensures (forall n :: n in c.spec.nodes && n.name in reports ==> Recorded(n, reports[n.name])) <==>
            after == c && forall n :: n in c.spec.nodes && n.name in reports && reports[n.name] == Empty ==> n.podCidr.None?
  {
    var a, b := c.spec.nodes, after.spec.nodes;
    if forall n :: n in a && n.name in reports ==> Recorded(n, reports[n.name]) {
      forall i | 0 <= i < |a|
        ensures b[i] == a[i]
      {
        assert a[i] in a;
      }
      assert a == b;
    } else if a == b {
      forall n | n in a && n.name in reports && reports[n.name].Net?
        ensures n.podCidr == Some(reports[n.name].cidr)
      {
        var i :| 0 <= i < |a| && a[i] == n;
      }
    }
  }

  lemma RecordsMatch(c: Cluster, reports: Reports)
    requires WithPodCidrs(c, reports).Ok?
    ensures (forall n :: n in WithPodCidrs(c, reports).value.spec.nodes && n.name in reports ==> Recorded(n, reports[n.name])) <==>
            (forall n :: n in c.spec.nodes && n.name in reports && reports[n.name].Empty? ==> n.podCidr.None?)
  {
    var a, pods := c.spec.nodes, c.spec.network.pods;
    var b := WithPodCidrs(c, reports).value.spec.nodes;
    forall i: nat | i < |a|
      ensures b[i].name == a[i].name
      ensures a[i].name in reports ==> (Recorded(b[i], reports[a[i].name]) <==>
              (reports[a[i].name].Empty? ==> a[i].podCidr.None?))
    {
      RecordedAt(a, pods, reports, i);
    }
    hide WithPodCidrs;
    if forall n :: n in b && n.name in reports ==> Recorded(n, reports[n.name]) {
      forall n | n in a && n.name in reports && reports[n.name].Empty?
        ensures n.podCidr.None?
      {
        var i :| 0 <= i < |a| && a[i] == n;
        assert b[i] in b;
      }
    }
    if forall n :: n in a && n.name in reports && reports[n.name].Empty? ==> n.podCidr.None? {
      forall n | n in b && n.name in reports
        ensures Recorded(n, reports[n.name])
      {
        var i :| 0 <= i < |b| && b[i] == n;
        assert a[i] in a;
      }
    }
  }

  lemma RecordingSound(c: Cluster, reports: Reports)
    requires WithPodCidrs(c, reports).Ok? && UnitsHold.Sound(c)
    ensures UnitsHold.Sound(WithPodCidrs(c, reports).value)
  {
    hide RangeStart;
    hide RecordedAll;
    var a, pods := c.spec.nodes, c.spec.network.pods;
    var b := RecordedAll(a, pods, reports).value;
    forall n | n in b
      ensures exists m :: m in a && m.host == n.host
    {
      var i :| 0 <= i < |b| && b[i] == n;
      RecordedAt(a, pods, reports, i);
      assert a[i] in a;
    }
    hide RecordedAll;
    hide Distinct;
  }
}
