/** The edits node verbs make to cluster.yaml (node/common.py), and what every file reachable by
    them keeps. */
module NodeEdits {
  import opened Basics
  import opened Numbers
  import opened Text
  import opened Addresses
  import opened Ranges
  import opened ClusterModel
  import opened Allocation
  import opened Planner
  import opened PodCidrs

  datatype NodeRequest = NodeRequest(role: Role, cpu: Option<nat>, memory: Option<string>, host: Option<string>)

  datatype EditError =
    | NoAddressLeft
    | NoRegion(why: RangeError)
    | HostOnSingleHost
    | HostUnknown(host: string)
    | FiveControlPlanes
    | FirstControlPlaneStays
    | NodeNotFound(name: string)
    | Cidr(refused: CidrError)

  function Find(c: Cluster, name: string): Option<Node> {
    First(c.spec.nodes, (n: Node) => n.name == name)
  }

  // ---- the next name

  /** The number a node name carries after the base, when the rest of it is digits. */
  function Suffix(base: string, name: string): Option<nat> {
    if StartsWith(name, base) then Read(name[|base|..], 10) else None
  }

  function MaxSuffix(base: string, nodes: seq<Node>): nat {
    if nodes == [] then 0
    else
      var k := |nodes| - 1;
      var before := MaxSuffix(base, nodes[..k]);
      var s := Suffix(base, nodes[k].name);
      if s.Some? && s.value > before then s.value else before
  }

  function NextName(c: Cluster, role: Role): string {
    var base := NameBase(c.name, role);
    base + Decimal(MaxSuffix(base, c.spec.nodes) + 1)
  }

  lemma {:induction false} MaxSuffixBounds(base: string, nodes: seq<Node>, k: nat)
    requires k < |nodes| && Suffix(base, nodes[k].name).Some?
    ensures Suffix(base, nodes[k].name).value <= MaxSuffix(base, nodes)
  {
    var m := |nodes| - 1;
    if k < m {
      MaxSuffixBounds(base, nodes[..m], k);
    }
  }

  /** The new name is not taken, and its number is above every number its role's names carry: a
      deleted node's name does not come back while a higher one exists. */
  lemma NextNameIsNew(c: Cluster, role: Role, n: Node)
    requires n in c.spec.nodes
    ensures n.name != NextName(c, role)
    ensures forall k: nat :: n.name == AutoName(c.name, role, k) ==> k < MaxSuffix(NameBase(c.name, role), c.spec.nodes) + 1
  {
    var base := NameBase(c.name, role);
    var i :| 0 <= i < |c.spec.nodes| && c.spec.nodes[i] == n;
    forall k: nat | n.name == base + Decimal(k)
      ensures k <= MaxSuffix(base, c.spec.nodes)
    {
      assert n.name[|base|..] == Decimal(k);
      ReadPrint(k, 10);
      MaxSuffixBounds(base, c.spec.nodes, i);
    }
  }

  // ---- the next address

  function MaxOffset(nodes: seq<Node>, base: int): int
    requires nodes != []
  {
    var k := |nodes| - 1;
    var o := nodes[k].ip - base;
    if k == 0 then o
    else
      var before := MaxOffset(nodes[..k], base);
      if o > before then o else before
  }

  function NextIp(c: Cluster): Result<Addr, EditError>
    requires c.spec.nodes != []
  {
    var net := c.spec.network;
    if net.range.Some? then
      var region := NodeRegion(net);
      if region.Err? then Err(NoRegion(region.error))
      else
        var free := First(region.value, (ip: Addr) => forall n :: n in c.spec.nodes ==> n.ip != ip);
        if free.None? then Err(NoAddressLeft) else Ok(free.value)
    else
      var host := MaxOffset(c.spec.nodes, net.nodes.base) + 1;
      if host > 199 || net.nodes.base + host >= 0x1_0000_0000 || net.nodes.base + host < 0 then Err(NoAddressLeft)
      else Ok(net.nodes.base + host)
  }

  lemma {:induction false} MaxOffsetBounds(nodes: seq<Node>, base: int, k: nat)
    requires k < |nodes|
    ensures nodes[k].ip - base <= MaxOffset(nodes, base)
    ensures exists i :: 0 <= i < |nodes| && nodes[i].ip - base == MaxOffset(nodes, base)
  {
    var m := |nodes| - 1;
    if m > 0 {
      MaxOffsetBounds(nodes[..m], base, if k < m then k else 0);
      var i :| 0 <= i < m && nodes[..m][i].ip - base == MaxOffset(nodes[..m], base);
      assert nodes[i].ip - base == MaxOffset(nodes[..m], base);
    }
    assert nodes[m] == nodes[|nodes| - 1];
  }

  // ---- the host

  function NodesOn(nodes: seq<Node>, host: string): nat {
    if nodes == [] then 0
    else NodesOn(nodes[..|nodes| - 1], host) + if nodes[|nodes| - 1].host == Some(host) then 1 else 0
  }

  function LeastOf(hosts: seq<string>, nodes: seq<Node>): string
    requires hosts != []
  {
    var k := |hosts| - 1;
    if k == 0 then hosts[0]
    else
      var best := LeastOf(hosts[..k], nodes);
      if NodesOn(nodes, hosts[k]) < NodesOn(nodes, best) then hosts[k] else best
  }

  ghost predicate FirstLeast(hosts: seq<string>, nodes: seq<Node>, i: nat)
    requires i < |hosts|
  {
    && (forall j :: 0 <= j < |hosts| ==> NodesOn(nodes, hosts[i]) <= NodesOn(nodes, hosts[j]))
    && (forall j :: 0 <= j < i ==> NodesOn(nodes, hosts[i]) < NodesOn(nodes, hosts[j]))
  }

  /** LeastOf picks a minimum, and among equal minima the one at the least position. */
  lemma {:induction false} LeastLoaded(hosts: seq<string>, nodes: seq<Node>)
    requires hosts != []
    ensures exists i :: 0 <= i < |hosts| && hosts[i] == LeastOf(hosts, nodes) && FirstLeast(hosts, nodes, i)
  {
    hide NodesOn;
    var k := |hosts| - 1;
    if k == 0 {
      assert FirstLeast(hosts, nodes, 0);
    } else {
      var before := hosts[..k];
      LeastLoaded(before, nodes);
      var i :| 0 <= i < k && before[i] == LeastOf(before, nodes) && FirstLeast(before, nodes, i);
      forall j | 0 <= j < k
        ensures NodesOn(nodes, hosts[i]) <= NodesOn(nodes, hosts[j])
        ensures j < i ==> NodesOn(nodes, hosts[i]) < NodesOn(nodes, hosts[j])
      {
        assert before[j] == hosts[j];
      }
      if NodesOn(nodes, hosts[k]) < NodesOn(nodes, hosts[i]) {
        assert FirstLeast(hosts, nodes, k);
      } else {
        assert FirstLeast(hosts, nodes, i);
      }
    }
  }

  function HostForRequest(c: Cluster, req: NodeRequest): Result<Option<string>, EditError>
    requires c.MultiHost() ==> c.HostNames() != []
  {
    if !c.MultiHost() then
      if req.host.Some? then Err(HostOnSingleHost) else Ok(None)
    else if req.host.None? then Ok(Some(LeastOf(c.HostNames(), c.spec.nodes)))
    else if req.host.value !in c.HostNames() then Err(HostUnknown(req.host.value))
    else Ok(req.host)
  }

  // ---- the edits

  function Like(c: Cluster, role: Role): Node
    requires c.spec.nodes != []
  {
    var like := First(c.spec.nodes, (n: Node) => n.role == role);
    if like.Some? then like.value else c.spec.nodes[0]
  }

  function PlanAdd(c: Cluster, req: NodeRequest): Result<Node, EditError>
    requires c.spec.nodes != []
    requires c.MultiHost() ==> c.HostNames() != []
  {
    if req.role == ControlPlane && |c.ControlPlanes()| >= 5 then Err(FiveControlPlanes)
    else
      var like := Like(c, req.role);
      var ip :- NextIp(c);
      var host :- HostForRequest(c, req);
      Ok(Node(req.role, NextName(c, req.role), ip,
              if req.cpu.Some? && req.cpu.value != 0 then req.cpu.value else like.cpu,
              if req.memory.Some? && req.memory.value != [] then req.memory.value else like.memory,
              false, host, None))
  }

  function WithNodes(c: Cluster, nodes: seq<Node>): Cluster { c.(spec := c.spec.(nodes := nodes)) }

  function WithNode(c: Cluster, n: Node): Cluster { WithNodes(c, c.spec.nodes + [n]) }

  function WithoutNode(c: Cluster, name: string): Result<Cluster, EditError>
    requires c.spec.nodes != []
  {
    if name == c.spec.nodes[0].name then Err(FirstControlPlaneStays)
    else if Find(c, name).None? then Err(NodeNotFound(name))
    else Ok(WithNodes(c, Filter(c.spec.nodes, (n: Node) => n.name != name)))
  }

  function MarkedJoined(c: Cluster, name: string): Cluster {
    WithNodes(c, Map(c.spec.nodes, (n: Node) => if n.name == name then n.(join := true) else n))
  }

  datatype Edit =
    | Add(req: NodeRequest)
    | Join(name: string)
    | Remove(name: string)
    | RecordCidrs(reports: Reports)

  /** One verb; a refused one leaves the file as it was. */
  function Apply(c: Cluster, e: Edit): Cluster
    requires Editable(c)
  {
    match e
    case Add(req) => var n := PlanAdd(c, req); if n.Ok? then WithNode(c, n.value) else c
    case Join(name) => MarkedJoined(c, name)
    case Remove(name) => var r := WithoutNode(c, name); if r.Ok? then r.value else c
    case RecordCidrs(reports) => var r := WithPodCidrs(c, reports); if r.Ok? then r.value else c
  }

  // ---- what stays true

  /** The addresses nodes may have: .1 to .199 of the node subnet, or the pool's node region. */
  ghost predicate InRegion(net: Network, ip: Addr) {
    if net.range.None? then net.nodes.base < ip <= net.nodes.base + 199
    else NodeRegion(net).Ok? && ip in NodeRegion(net).value
  }

  ghost predicate Seated(c: Cluster, nodes: seq<Node>) {
    forall n :: n in nodes ==>
      && InRegion(c.spec.network, n.ip)
      && (if c.MultiHost() then n.host.Some? && n.host.value in c.HostNames() else n.host.None?)
  }

  function CpCount(nodes: seq<Node>): nat { |Filter(nodes, (n: Node) => n.role == ControlPlane)| }

  ghost predicate Inv(c: Cluster) {
    && c.spec.nodes != [] && c.spec.nodes[0].role == ControlPlane
    && Distinct(NodeNames(c.spec.nodes))
    && Distinct(NodeIps(c.spec.nodes))
    && Seated(c, c.spec.nodes)
    && CpCount(c.spec.nodes) <= 5
    && (c.spec.network.range.Some? <==> c.MultiHost())
    && Editable(c)
  }

  /** What an edit leaves alone: everything but the node list, and the first control plane's seat. */
  ghost predicate SameFrame(a: Cluster, b: Cluster) {
    && a.name == b.name && a.status == b.status
    && a.spec.network == b.spec.network && a.spec.hosts == b.spec.hosts
    && a.spec.nodes != [] && b.spec.nodes != []
    && Seat(a.spec.nodes[0]) == Seat(b.spec.nodes[0])
  }

  function Seat(n: Node): (string, Role, Addr, Option<string>) { (n.name, n.role, n.ip, n.host) }

  lemma NextIpIsFree(c: Cluster)
    requires c.spec.nodes != [] && NextIp(c).Ok?
    requires c.spec.network.range.None? ==> exists n :: n in c.spec.nodes && n.ip > c.spec.network.nodes.base
    ensures InRegion(c.spec.network, NextIp(c).value)
    ensures forall n :: n in c.spec.nodes ==> n.ip != NextIp(c).value
  {
    var net := c.spec.network;
    if net.range.None? {
      forall n | n in c.spec.nodes
        ensures n.ip - net.nodes.base <= MaxOffset(c.spec.nodes, net.nodes.base)
      {
        var k :| 0 <= k < |c.spec.nodes| && c.spec.nodes[k] == n;
        MaxOffsetBounds(c.spec.nodes, net.nodes.base, k);
      }
    }
  }

  lemma HostIsListed(c: Cluster, req: NodeRequest)
    requires c.MultiHost() ==> c.HostNames() != []
    requires HostForRequest(c, req).Ok?
    ensures var h := HostForRequest(c, req).value;
            if c.MultiHost() then h.Some? && h.value in c.HostNames() else h.None?
  {
    if c.MultiHost() {
      LeastLoaded(c.HostNames(), c.spec.nodes);
    }
  }

  lemma WithNodeKeeps(c: Cluster, n: Node)
    requires Inv(c)
    requires forall m :: m in c.spec.nodes ==> m.name != n.name && m.ip != n.ip
    requires Seated(c, [n])
    requires n.role == ControlPlane ==> CpCount(c.spec.nodes) < 5
    ensures Inv(WithNode(c, n)) && SameFrame(c, WithNode(c, n))
  {
    hide InRegion;
    hide CpCount;
    hide Distinct;
    assert n in [n];
    AddDistinct(c.spec.nodes, n);
    CpCountSnoc(c.spec.nodes, n);
  }

  lemma CpCountSnoc(nodes: seq<Node>, n: Node)
    ensures CpCount(nodes + [n]) == CpCount(nodes) + if n.role == ControlPlane then 1 else 0
  {
    FilterAppend(nodes, [n], (m: Node) => m.role == ControlPlane);
    FilterSingle(n, (m: Node) => m.role == ControlPlane);
  }

  lemma AddKeeps(c: Cluster, req: NodeRequest)
    requires Inv(c) && PlanAdd(c, req).Ok?
    ensures Inv(WithNode(c, PlanAdd(c, req).value)) && SameFrame(c, WithNode(c, PlanAdd(c, req).value))
  {
    hide InRegion;
    hide NextIp;
    hide NextName;
    hide LeastOf;
    hide WithNode;
    var n := PlanAdd(c, req).value;
    FirstAddress(c);
    NextIpIsFree(c);
    HostIsListed(c, req);
    forall m | m in c.spec.nodes
      ensures m.name != n.name && m.ip != n.ip
    {
      NextNameIsNew(c, req.role, m);
    }
    WithNodeKeeps(c, n);
  }

  lemma FirstAddress(c: Cluster)
    requires Inv(c)
    ensures c.spec.network.range.None? ==> exists n :: n in c.spec.nodes && n.ip > c.spec.network.nodes.base
  {
    assert c.spec.nodes[0] in c.spec.nodes;
  }

  lemma AddDistinct(nodes: seq<Node>, n: Node)
    requires Distinct(NodeNames(nodes)) && Distinct(NodeIps(nodes))
    requires forall m :: m in nodes ==> m.name != n.name && m.ip != n.ip
    ensures Distinct(NodeNames(nodes + [n])) && Distinct(NodeIps(nodes + [n]))
  {
    assert NodeNames(nodes + [n]) == NodeNames(nodes) + [n.name];
    assert NodeIps(nodes + [n]) == NodeIps(nodes) + [n.ip];
    forall x | x in NodeNames(nodes) ensures x != n.name {
      var k :| 0 <= k < |nodes| && NodeNames(nodes)[k] == x;
      assert nodes[k] in nodes;
    }
    forall x | x in NodeIps(nodes) ensures x != n.ip {
      var k :| 0 <= k < |nodes| && NodeIps(nodes)[k] == x;
      assert nodes[k] in nodes;
    }
    DistinctAppend(NodeNames(nodes), [n.name]);
    DistinctAppend(NodeIps(nodes), [n.ip]);
  }

  lemma {:induction false} FilterCps(nodes: seq<Node>, p: Node -> bool)
    ensures CpCount(Filter(nodes, p)) <= CpCount(nodes)
  {
    if nodes != [] {
      hide CpCount;
      var k := |nodes| - 1;
      Snoc(nodes);
      FilterCps(nodes[..k], p);
      CpCountSnoc(nodes[..k], nodes[k]);
      CpCountSnoc(Filter(nodes[..k], p), nodes[k]);
    }
  }

  /** Keeping only some nodes keeps names and addresses distinct. */
  lemma {:induction false} FilterKeeps(nodes: seq<Node>, p: Node -> bool)
    requires Distinct(NodeNames(nodes)) && Distinct(NodeIps(nodes))
    ensures Distinct(NodeNames(Filter(nodes, p))) && Distinct(NodeIps(Filter(nodes, p)))
  {
    if nodes != [] {
      var k := |nodes| - 1;
      var before, n := nodes[..k], nodes[k];
      assert NodeNames(before) == NodeNames(nodes)[..k] && NodeIps(before) == NodeIps(nodes)[..k];
      FilterKeeps(before, p);
      if p(n) {
        forall m | m in Filter(before, p)
          ensures m.name != n.name && m.ip != n.ip
        {
          var i :| 0 <= i < k && nodes[i] == m;
          assert NodeNames(nodes)[i] != NodeNames(nodes)[k] && NodeIps(nodes)[i] != NodeIps(nodes)[k];
        }
        AddDistinct(Filter(before, p), n);
      }
    }
  }

  lemma {:induction false} FilterHead(nodes: seq<Node>, p: Node -> bool)
    requires nodes != [] && p(nodes[0])
    ensures Filter(nodes, p) != [] && Filter(nodes, p)[0] == nodes[0]
  {
    if |nodes| > 1 {
      FilterHead(nodes[..|nodes| - 1], p);
    }
  }

  lemma OnlySomeNodes(c: Cluster, nodes: seq<Node>)
    requires Inv(c)
    requires forall n :: n in nodes ==> n in c.spec.nodes
    requires nodes != [] && nodes[0] == c.spec.nodes[0]
    requires Distinct(NodeNames(nodes)) && Distinct(NodeIps(nodes)) && CpCount(nodes) <= CpCount(c.spec.nodes)
    ensures Inv(WithNodes(c, nodes)) && SameFrame(c, WithNodes(c, nodes))
  {
    hide InRegion;
    hide CpCount;
    hide Distinct;
  }

  lemma RemoveKeeps(c: Cluster, name: string)
    requires Inv(c) && WithoutNode(c, name).Ok?
    ensures Inv(WithoutNode(c, name).value) && SameFrame(c, WithoutNode(c, name).value)
  {
    hide InRegion;
    var p := (n: Node) => n.name != name;
    FilterKeeps(c.spec.nodes, p);
    FilterCps(c.spec.nodes, p);
    FilterHead(c.spec.nodes, p);
    OnlySomeNodes(c, Filter(c.spec.nodes, p));
  }

  /** An edit in place that keeps every seat. */
  lemma {:induction false} InPlaceKeeps(a: seq<Node>, b: seq<Node>)
    requires |a| == |b| && forall k :: 0 <= k < |a| ==> Seat(a[k]) == Seat(b[k])
    ensures NodeNames(a) == NodeNames(b) && NodeIps(a) == NodeIps(b) && CpCount(a) == CpCount(b)
  {
    if a != [] {
      InPlaceKeeps(a[..|a| - 1], b[..|b| - 1]);
      assert Seat(a[|a| - 1]) == Seat(b[|b| - 1]);
      Snoc(a);
      Snoc(b);
      assert NodeNames(a) == NodeNames(a[..|a| - 1]) + [a[|a| - 1].name];
      assert NodeNames(b) == NodeNames(b[..|b| - 1]) + [b[|b| - 1].name];
      assert NodeIps(a) == NodeIps(a[..|a| - 1]) + [a[|a| - 1].ip];
      assert NodeIps(b) == NodeIps(b[..|b| - 1]) + [b[|b| - 1].ip];
    }
  }

  lemma InPlaceInv(c: Cluster, nodes: seq<Node>)
    requires Inv(c)
    requires |nodes| == |c.spec.nodes| && forall k :: 0 <= k < |nodes| ==> Seat(nodes[k]) == Seat(c.spec.nodes[k])
    ensures Inv(WithNodes(c, nodes)) && SameFrame(c, WithNodes(c, nodes))
  {
    hide InRegion;
    hide Distinct;
    hide NodeNames;
    hide NodeIps;
    hide CpCount;
    InPlaceKeeps(nodes, c.spec.nodes);
    forall n | n in nodes
      ensures InRegion(c.spec.network, n.ip)
      ensures if c.MultiHost() then n.host.Some? && n.host.value in c.HostNames() else n.host.None?
    {
      var k :| 0 <= k < |nodes| && nodes[k] == n;
      assert c.spec.nodes[k] in c.spec.nodes;
    }
  }

  lemma ApplyKeeps(c: Cluster, e: Edit)
    requires Inv(c)
    ensures Inv(Apply(c, e)) && SameFrame(c, Apply(c, e))
  {
    hide InRegion;
    hide PlanAdd;
    match e
    case Add(req) =>
      if PlanAdd(c, req).Ok? {
        AddKeeps(c, req);
      }
    case Join(name) => InPlaceInv(c, MarkedJoined(c, name).spec.nodes);
    case Remove(name) =>
      if WithoutNode(c, name).Ok? {
        RemoveKeeps(c, name);
      }
    case RecordCidrs(reports) =>
      var r := WithPodCidrs(c, reports);
      if r.Ok? {
        forall k | 0 <= k < |c.spec.nodes|
          ensures Seat(r.value.spec.nodes[k]) == Seat(c.spec.nodes[k])
        {
          RecordedAt(c.spec.nodes, c.spec.network.pods, reports, k);
        }
        InPlaceInv(c, r.value.spec.nodes);
      }
  }

  /** A file the verbs can read: at least one node, and hosts to choose from if it has any. */
  predicate Editable(c: Cluster) {
    c.spec.nodes != [] && (c.MultiHost() ==> c.HostNames() != [])
  }

  /** b is what this sequence of verbs makes of a. */
  ghost predicate Reached(a: Cluster, edits: seq<Edit>, b: Cluster)
    decreases |edits|
  {
    if edits == [] then a == b
    else Editable(a) && Reached(Apply(a, edits[0]), edits[1..], b)
  }

  lemma {:induction false} ReachedKeeps(a: Cluster, edits: seq<Edit>, b: Cluster)
    requires Inv(a) && Reached(a, edits, b)
    ensures Inv(b) && SameFrame(a, b)
    decreases |edits|
  {
    if edits != [] {
      ApplyKeeps(a, edits[0]);
      ReachedKeeps(Apply(a, edits[0]), edits[1..], b);
    }
  }

  lemma {:induction false} ReachedNext(a: Cluster, edits: seq<Edit>, b: Cluster, e: Edit)
    requires Reached(a, edits, b) && Editable(b)
    ensures Reached(a, edits + [e], Apply(b, e))
    decreases |edits|
  {
    hide Apply;
    if edits == [] {
      assert [e][1..] == [];
    } else {
      assert (edits + [e])[1..] == edits[1..] + [e];
      ReachedNext(Apply(a, edits[0]), edits[1..], b, e);
    }
  }

  lemma ReachedNothing(a: Cluster)
    ensures Reached(a, [], a)
  {
  }

  // ---- spreading over the hosts

  ghost predicate SpreadWithin(hosts: seq<string>, nodes: seq<Node>, d: nat) {
    forall i, j :: 0 <= i < |hosts| && 0 <= j < |hosts| ==> NodesOn(nodes, hosts[i]) <= NodesOn(nodes, hosts[j]) + d
  }

  lemma OneMore(nodes: seq<Node>, n: Node, h: string)
    ensures NodesOn(nodes + [n], h) == NodesOn(nodes, h) + if n.host == Some(h) then 1 else 0
  {
    assert (nodes + [n])[..|nodes|] == nodes;
  }

  /** A node added without naming a host never widens the gap between the fullest and the emptiest
      host beyond one. */
  lemma AutoAddKeepsSpread(c: Cluster, req: NodeRequest, d: nat)
    requires Editable(c) && c.MultiHost() && d >= 1
    requires Distinct(c.HostNames())
    requires req.host.None? && PlanAdd(c, req).Ok?
    requires SpreadWithin(c.HostNames(), c.spec.nodes, d)
    ensures SpreadWithin(c.HostNames(), WithNode(c, PlanAdd(c, req).value).spec.nodes, d)
  {
    hide NextIp;
    hide NextName;
    hide NodesOn;
    var hosts, nodes, n := c.HostNames(), c.spec.nodes, PlanAdd(c, req).value;
    LeastLoaded(hosts, nodes);
    var k :| 0 <= k < |hosts| && hosts[k] == LeastOf(hosts, nodes) && FirstLeast(hosts, nodes, k);
    forall i, j | 0 <= i < |hosts| && 0 <= j < |hosts|
      ensures NodesOn(nodes + [n], hosts[i]) <= NodesOn(nodes + [n], hosts[j]) + d
    {
      OneMore(nodes, n, hosts[i]);
      OneMore(nodes, n, hosts[j]);
    }
  }

  /** Any number of such adds (refused ones change nothing). */
  lemma {:induction false} AutoAddsKeepSpread(c: Cluster, reqs: seq<NodeRequest>, d: nat, b: Cluster)
    requires Inv(c) && c.MultiHost() && Distinct(c.HostNames()) && d >= 1
    requires forall r :: r in reqs ==> r.host.None?
    requires SpreadWithin(c.HostNames(), c.spec.nodes, d)
    requires Reached(c, Map(reqs, (r: NodeRequest) => Add(r)), b)
    ensures SpreadWithin(b.HostNames(), b.spec.nodes, d)
    decreases |reqs|
  {
    if reqs != [] {
      hide PlanAdd;
      hide Inv;
      var edits := Map(reqs, (r: NodeRequest) => Add(r));
      var next := Apply(c, Add(reqs[0]));
      assert reqs[0] in reqs;
      ApplyKeeps(c, Add(reqs[0]));
      if PlanAdd(c, reqs[0]).Ok? {
        AutoAddKeepsSpread(c, reqs[0], d);
      }
      assert edits[1..] == Map(reqs[1..], (r: NodeRequest) => Add(r));
      AutoAddsKeepSpread(next, reqs[1..], d, b);
    }
  }
}
