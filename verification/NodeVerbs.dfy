/** What each node verb does to cluster.yaml, field by field (node/common.py), and what that makes of
    every node over any sequence of verbs. */
module NodeVerbs {
  import opened Basics
  import opened Numbers
  import opened Addresses
  import opened ClusterModel
  import opened Allocation
  import opened Planner
  import opened PodCidrs
  import opened NodeEdits

  // ---- join

  /** Join records one thing: the nodes of that name are joined. */
  lemma JoinMeans(c: Cluster, name: string, i: nat)
    requires Editable(c) && i < |c.spec.nodes|
    ensures var b := Apply(c, Join(name));
            && b.name == c.name && b.status == c.status && b.spec.network == c.spec.network && b.spec.hosts == c.spec.hosts
            && |b.spec.nodes| == |c.spec.nodes|
            && var m, n := c.spec.nodes[i], b.spec.nodes[i];
               if m.name != name then n == m
               else n.join && n.role == m.role && n.name == m.name && n.ip == m.ip && n.cpu == m.cpu
                    && n.memory == m.memory && n.host == m.host && n.podCidr == m.podCidr
  {
  }

  // ---- add

  /** The node a new one takes its size from: the first of its role, or the first of all. */
  ghost predicate IsModel(c: Cluster, role: Role, m: Node) {
    exists i :: 0 <= i < |c.spec.nodes| && c.spec.nodes[i] == m && IsModelAt(c, role, i)
  }

  predicate IsModelAt(c: Cluster, role: Role, i: nat)
    requires i < |c.spec.nodes|
  {
    || (c.spec.nodes[i].role == role && forall j :: 0 <= j < i ==> c.spec.nodes[j].role != role)
    || (i == 0 && forall j :: 0 <= j < |c.spec.nodes| ==> c.spec.nodes[j].role != role)
  }

  lemma {:induction false} FirstAt<T>(s: seq<T>, p: T -> bool) returns (i: nat)
    requires First(s, p).Some?
    ensures i < |s| && s[i] == First(s, p).value && p(s[i]) && forall j :: 0 <= j < i ==> !p(s[j])
  {
    if p(s[0]) {
      i := 0;
    } else {
      var k := FirstAt(s[1..], p);
      i := k + 1;
      forall j | 0 <= j < i
        ensures !p(s[j])
      {
        assert j > 0 ==> s[j] == s[1..][j - 1];
      }
    }
  }

  /** An accepted add appends one node and changes nothing else. The new one has the role asked for, a
      name and an address of its own, the size asked for or that of the first node of its role, and is
      neither joined nor routed. A refused one changes nothing. */
  lemma AddMeans(c: Cluster, req: NodeRequest)
    requires Editable(c)
    ensures var b := Apply(c, Add(req));
            && b.name == c.name && b.status == c.status && b.spec.network == c.spec.network && b.spec.hosts == c.spec.hosts
            && (PlanAdd(c, req).Err? ==> b == c)
            && (PlanAdd(c, req).Ok? ==>
                  && |b.spec.nodes| == |c.spec.nodes| + 1
                  && b.spec.nodes[..|c.spec.nodes|] == c.spec.nodes
                  && var n := b.spec.nodes[|c.spec.nodes|];
                     && n.role == req.role && !n.join && n.podCidr.None?
                     && (forall m :: m in c.spec.nodes ==> m.name != n.name)
                     && (exists m :: IsModel(c, req.role, m)
                                     && n.cpu == (if req.cpu.Some? && req.cpu.value != 0 then req.cpu.value else m.cpu)
                                     && n.memory == (if req.memory.Some? && req.memory.value != "" then req.memory.value else m.memory))
                     && (if !c.MultiHost() then n.host.None?
                         else if req.host.Some? then n.host == req.host
                         else n.host.Some? && n.host.value in c.HostNames()
                              && forall h :: h in c.HostNames() ==> NodesOn(c.spec.nodes, n.host.value) <= NodesOn(c.spec.nodes, h)))
  {
    hide NextIp;
    hide NextName;
    hide LeastOf;
    if PlanAdd(c, req).Ok? {
      var n := PlanAdd(c, req).value;
      forall m | m in c.spec.nodes
        ensures m.name != n.name
      {
        NextNameIsNew(c, req.role, m);
      }
      ModelIs(c, req.role);
      assert (c.spec.nodes + [n])[..|c.spec.nodes|] == c.spec.nodes;
      if c.MultiHost() && req.host.None? {
        LeastHost(c);
      }
    }
  }

  lemma LeastHost(c: Cluster)
    requires c.HostNames() != []
    ensures var h := LeastOf(c.HostNames(), c.spec.nodes);
            h in c.HostNames() && forall x :: x in c.HostNames() ==> NodesOn(c.spec.nodes, h) <= NodesOn(c.spec.nodes, x)
  {
    LeastLoaded(c.HostNames(), c.spec.nodes);
  }

  lemma ModelIs(c: Cluster, role: Role)
    requires c.spec.nodes != []
    ensures IsModel(c, role, Like(c, role))
  {
    var p := (n: Node) => n.role == role;
    if First(c.spec.nodes, p).Some? {
      var i := FirstAt(c.spec.nodes, p);
      assert IsModelAt(c, role, i);
    } else {
      assert forall j :: 0 <= j < |c.spec.nodes| ==> c.spec.nodes[j] in c.spec.nodes;
      assert IsModelAt(c, role, 0);
    }
  }

  /** Some address is left for a node. */
  ghost predicate AddressLeft(c: Cluster) {
    var net := c.spec.network;
    if net.range.Some? then
      NodeRegion(net).Ok? && exists ip :: ip in NodeRegion(net).value && forall n :: n in c.spec.nodes ==> n.ip != ip
    else forall n :: n in c.spec.nodes ==> n.ip < net.nodes.base + 199
  }

  /** An add is accepted exactly when there is room for its role, an address is left and the host asked
      for, if any, is one of the cluster's. */
  lemma AddAcceptedIff(c: Cluster, req: NodeRequest)
    requires Inv(c) && c.spec.network.nodes.base + 199 < 0x1_0000_0000
    ensures PlanAdd(c, req).Ok? <==>
            && (req.role == ControlPlane ==> CpCount(c.spec.nodes) < 5)
            && AddressLeft(c)
            && (req.host.Some? ==> c.MultiHost() && req.host.value in c.HostNames())
  {
    hide NextName;
    hide LeastOf;
    hide NodeRegion;
    assert |c.ControlPlanes()| == CpCount(c.spec.nodes);
    AddressLeftIff(c);
    hide NextIp;
    hide AddressLeft;
    hide Inv;
  }

  lemma AddressLeftIff(c: Cluster)
    requires Inv(c) && c.spec.network.nodes.base + 199 < 0x1_0000_0000
    ensures NextIp(c).Ok? <==> AddressLeft(c)
  {
    hide NodeRegion;
    hide Distinct;
    hide CpCount;
    hide MaxOffset;
    if c.spec.network.range.None? {
      assert forall n :: n in c.spec.nodes ==> InRegion(c.spec.network, n.ip);
      hide Inv;
      HighestOffset(c);
    }
  }

  lemma HighestOffset(c: Cluster)
    requires c.spec.nodes != []
    ensures forall n :: n in c.spec.nodes ==> n.ip - c.spec.network.nodes.base <= MaxOffset(c.spec.nodes, c.spec.network.nodes.base)
    ensures exists n :: n in c.spec.nodes && n.ip - c.spec.network.nodes.base == MaxOffset(c.spec.nodes, c.spec.network.nodes.base)
  {
    hide MaxOffset;
    var nodes, base := c.spec.nodes, c.spec.network.nodes.base;
    forall n | n in nodes
      ensures n.ip - base <= MaxOffset(nodes, base)
    {
      var k :| 0 <= k < |nodes| && nodes[k] == n;
      MaxOffsetBounds(nodes, base, k);
    }
    MaxOffsetBounds(nodes, base, 0);
    var i :| 0 <= i < |nodes| && nodes[i].ip - base == MaxOffset(nodes, base);
    assert nodes[i] in nodes;
  }

  /** What the names of a role's nodes start with. */
  function Stem(c: Cluster, role: Role): string {
    c.name + if role == ControlPlane then "-control-plane-" else "-worker-"
  }

  /** The number a node has for that role, 0 when its name is not of that form. */
  function Numbered(c: Cluster, role: Role, m: Node): nat {
    var s := Suffix(Stem(c, role), m.name);
    if s.Some? then s.value else 0
  }

  /** The new name is the cluster's for that role with the number after the highest in use. */
  lemma NextNameIs(c: Cluster, role: Role) returns (k: nat)
    ensures NextName(c, role) == Stem(c, role) + Decimal(k + 1)
    ensures forall m :: m in c.spec.nodes ==> Numbered(c, role, m) <= k
    ensures k == 0 || exists m :: m in c.spec.nodes && Numbered(c, role, m) == k
  {
    hide MaxSuffix;
    hide Suffix;
    hide Decimal;
    assert NameBase(c.name, role) == Stem(c, role);
    k := MaxSuffix(Stem(c, role), c.spec.nodes);
    HighestSuffix(Stem(c, role), c.spec.nodes);
  }

  lemma {:induction false} HighestSuffix(base: string, nodes: seq<Node>)
    ensures forall m :: m in nodes && Suffix(base, m.name).Some? ==> Suffix(base, m.name).value <= MaxSuffix(base, nodes)
    ensures MaxSuffix(base, nodes) == 0 || exists m :: m in nodes && Suffix(base, m.name) == Some(MaxSuffix(base, nodes))
  {
    hide Suffix;
    if nodes != [] {
      var k := |nodes| - 1;
      Snoc(nodes);
      HighestSuffix(base, nodes[..k]);
      assert nodes[k] in nodes;
    }
  }

  ghost predicate AllTaken(c: Cluster, ips: seq<Addr>) {
    forall ip :: ip in ips ==> exists n :: n in c.spec.nodes && n.ip == ip
  }

  /** The new address is, on one host, the one after the highest in use, and on several the first of
      the region that no node has. */
  lemma NextIpIs(c: Cluster)
    requires c.spec.nodes != [] && NextIp(c).Ok?
    ensures var ip, net := NextIp(c).value, c.spec.network;
            if net.range.None? then
              (forall n :: n in c.spec.nodes ==> n.ip < ip) && exists n :: n in c.spec.nodes && n.ip + 1 == ip
            else
              && NodeRegion(net).Ok? && (forall n :: n in c.spec.nodes ==> n.ip != ip)
              && exists k :: 0 <= k < |NodeRegion(net).value| && NodeRegion(net).value[k] == ip && AllTaken(c, NodeRegion(net).value[..k])
  {
    hide NodeRegion;
    hide MaxOffset;
    if c.spec.network.range.None? {
      HighestOffset(c);
    } else {
      var region := NodeRegion(c.spec.network).value;
      var k := FirstAt(region, (ip: Addr) => forall n :: n in c.spec.nodes ==> n.ip != ip);
      assert AllTaken(c, region[..k]);
    }
  }

  // ---- remove

  /** A removal takes the node of that name out of the list and nothing else; it is refused exactly for
      the first control plane and for a name nobody has. */
  lemma RemoveMeans(c: Cluster, name: string)
    requires Inv(c)
    ensures var b := Apply(c, Remove(name));
            if name == c.spec.nodes[0].name || forall n :: n in c.spec.nodes ==> n.name != name then b == c
            else
              && b.name == c.name && b.status == c.status && b.spec.network == c.spec.network && b.spec.hosts == c.spec.hosts
              && exists i :: 0 < i < |c.spec.nodes| && c.spec.nodes[i].name == name
                             && b.spec.nodes == c.spec.nodes[..i] + c.spec.nodes[i + 1..]
  {
    hide Seated;
    hide CpCount;
    hide Distinct;
    var nodes := c.spec.nodes;
    if name != nodes[0].name && exists n :: n in nodes && n.name == name {
      var i :| 0 <= i < |nodes| && nodes[i].name == name;
      RemovedAt(c, name, i);
      hide Inv;
    }
  }

  lemma RemovedAt(c: Cluster, name: string, i: nat)
    requires c.spec.nodes != [] && Distinct(NodeNames(c.spec.nodes)) && name != c.spec.nodes[0].name
    requires i < |c.spec.nodes| && c.spec.nodes[i].name == name
    ensures WithoutNode(c, name) == Ok(WithNodes(c, c.spec.nodes[..i] + c.spec.nodes[i + 1..]))
  {
    var nodes := c.spec.nodes;
    var p := (n: Node) => n.name != name;
    forall j | 0 <= j < |nodes|
      ensures p(nodes[j]) <==> j != i
    {
      assert NodeNames(nodes)[j] == nodes[j].name && NodeNames(nodes)[i] == name;
    }
    assert nodes[i] in nodes;
    hide Distinct;
    hide NodeNames;
    FilterAllBut(nodes, p, i);
  }

  lemma FilterAllBut<T>(s: seq<T>, p: T -> bool, i: nat)
    requires i < |s| && forall j :: 0 <= j < |s| ==> (p(s[j]) <==> j != i)
    ensures Filter(s, p) == s[..i] + s[i + 1..]
  {
    assert s == s[..i] + [s[i]] + s[i + 1..];
    FilterAppend(s[..i] + [s[i]], s[i + 1..], p);
    FilterAppend(s[..i], [s[i]], p);
    FilterSingle(s[i], p);
    FilterAll(s[..i], p);
    FilterAll(s[i + 1..], p);
  }

  // ---- recording CIDRs

  /** What a report may say of a node. */
  ghost predicate Acceptable(pods: Prefix, r: Report) {
    r.Empty? || (r.Net? && r.cidr != pods && pods.base <= r.cidr.base && r.cidr.base + Size(r.cidr.len) <= pods.base + Size(pods.len))
  }

  /** Recording sets the CIDR of every node that reports one, keeps that of every other node, and is
      refused exactly when a listed node reports something that is no proper part of the pod subnet. */
  lemma CidrsMean(c: Cluster, reports: Reports)
    requires Editable(c)
    ensures var b := Apply(c, RecordCidrs(reports));
            && b.name == c.name && b.status == c.status && b.spec.network == c.spec.network && b.spec.hosts == c.spec.hosts
            && |b.spec.nodes| == |c.spec.nodes|
            && (WithPodCidrs(c, reports).Ok? <==>
                forall n :: n in c.spec.nodes && n.name in reports ==> Acceptable(c.spec.network.pods, reports[n.name]))
            && (WithPodCidrs(c, reports).Err? ==> b == c)
            && (WithPodCidrs(c, reports).Ok? ==>
                  forall i :: 0 <= i < |c.spec.nodes| ==>
                    var m, n := c.spec.nodes[i], b.spec.nodes[i];
                    && n == m.(podCidr := n.podCidr)
                    && n.podCidr == if m.name in reports && reports[m.name].Net? then Some(reports[m.name].cidr) else m.podCidr)
  {
    hide RecordedAll;
    hide Size;
    RecordedIff(c.spec.nodes, c.spec.network.pods, reports);
    if WithPodCidrs(c, reports).Ok? {
      forall i | 0 <= i < |c.spec.nodes|
        ensures Recorded(c.spec.nodes[i], c.spec.network.pods, reports) == Ok(Apply(c, RecordCidrs(reports)).spec.nodes[i])
      {
        RecordedAt(c.spec.nodes, c.spec.network.pods, reports, i);
      }
    }
  }

  lemma {:induction false} RecordedIff(nodes: seq<Node>, pods: Prefix, reports: Reports)
    ensures RecordedAll(nodes, pods, reports).Ok? <==>
            forall n :: n in nodes && n.name in reports ==> Acceptable(pods, reports[n.name])
  {
    hide Size;
    if nodes != [] {
      var k := |nodes| - 1;
      Snoc(nodes);
      RecordedIff(nodes[..k], pods, reports);
      assert nodes[k] in nodes;
    }
  }

  // ---- any sequence of verbs

  function After(a: Cluster, edits: seq<Edit>): Cluster {
    if edits == [] then a
    else
      var before := After(a, edits[..|edits| - 1]);
      if Editable(before) then Apply(before, edits[|edits| - 1]) else before
  }

  lemma {:induction false} AfterKeeps(a: Cluster, edits: seq<Edit>)
    requires Inv(a)
    ensures Inv(After(a, edits))
  {
    hide Inv;
    hide Apply;
    if edits != [] {
      AfterKeeps(a, edits[..|edits| - 1]);
      var before := After(a, edits[..|edits| - 1]);
      InvEditable(before);
      ApplyKeeps(before, edits[|edits| - 1]);
    }
  }

  lemma InvEditable(c: Cluster)
    requires Inv(c)
    ensures Editable(c)
  {
  }

  lemma SliceTwice<T>(s: seq<T>, i: nat, n: nat)
    requires i <= n <= |s|
    ensures s[..n][i..] == s[i..][..n - i]
  {
  }

  lemma {:induction false} AfterHead(a: Cluster, edits: seq<Edit>)
    requires edits != [] && Editable(a)
    ensures After(a, edits) == After(Apply(a, edits[0]), edits[1..])
    decreases |edits|
  {
    hide Apply;
    var n := |edits| - 1;
    if n == 0 {
      assert edits[..0] == [] && edits[1..] == [];
    } else {
      AfterHead(a, edits[..n]);
      SliceTwice(edits, 1, n);
    }
  }

  lemma {:induction false} ReachedIsAfter(a: Cluster, edits: seq<Edit>, b: Cluster)
    requires Reached(a, edits, b)
    ensures b == After(a, edits)
    decreases |edits|
  {
    hide Apply;
    if edits != [] {
      AfterHead(a, edits);
      ReachedIsAfter(Apply(a, edits[0]), edits[1..], b);
    }
  }

  ghost predicate Has(c: Cluster, name: string) { exists n :: n in c.spec.nodes && n.name == name }

  /** After how many verbs the name was listed for the last time after not being listed. */
  ghost function Since(a: Cluster, edits: seq<Edit>, name: string): (k: nat)
    ensures k <= |edits|
  {
    if edits == [] then 0
    else if Has(After(a, edits[..|edits| - 1]), name) then Since(a, edits[..|edits| - 1], name)
    else |edits|
  }

  /** It has been listed without a break since then, and was not just before. */
  lemma {:induction false} SinceMeans(a: Cluster, edits: seq<Edit>, name: string)
    ensures var k := Since(a, edits, name);
            && (forall i :: k <= i < |edits| ==> Has(After(a, edits[..i]), name))
            && (k > 0 ==> !Has(After(a, edits[..k - 1]), name))
  {
    hide After;
    hide Has;
    if edits != [] {
      var n := |edits| - 1;
      SinceMeans(a, edits[..n], name);
      forall i | 0 <= i <= n
        ensures edits[..n][..i] == edits[..i]
      {
      }
    }
  }

  /** One verb on one node that stays: only Join joins, only recording routes. */
  lemma OneVerb(c: Cluster, e: Edit, m: Node, n: Node)
    requires Inv(c) && m in c.spec.nodes && n in Apply(c, e).spec.nodes && m.name == n.name
    ensures n == m.(join := n.join, podCidr := n.podCidr)
    ensures n.join <==> m.join || e == Join(m.name)
    ensures n.podCidr == if e.RecordCidrs? && WithPodCidrs(c, e.reports).Ok? && m.name in e.reports && e.reports[m.name].Net? then
                           Some(e.reports[m.name].cidr) else m.podCidr
  {
    hide Apply;
    hide WithPodCidrs;
    match e
    case Add(req) => AddOn(c, req, m, n);
    case Join(name) => JoinOn(c, name, m, n);
    case Remove(name) =>
      RemovedFrom(c, name, n);
      InvNamesUnique(c);
      hide Inv;
    case RecordCidrs(reports) => CidrsOn(c, reports, m, n);
  }

  lemma AddOn(c: Cluster, req: NodeRequest, m: Node, n: Node)
    requires Inv(c) && m in c.spec.nodes && n in Apply(c, Add(req)).spec.nodes && m.name == n.name
    ensures n == m
  {
    hide PlanAdd;
    InvNamesUnique(c);
    InvEditable(c);
    hide Inv;
    AddMeans(c, req);
  }

  lemma JoinOn(c: Cluster, name: string, m: Node, n: Node)
    requires Inv(c) && m in c.spec.nodes && n in Apply(c, Join(name)).spec.nodes && m.name == n.name
    ensures n == m.(join := n.join) && (n.join <==> m.join || name == m.name)
  {
    InvNamesUnique(c);
    InvEditable(c);
    hide Inv;
    var b := Apply(c, Join(name));
    var k :| 0 <= k < |b.spec.nodes| && b.spec.nodes[k] == n;
    assert c.spec.nodes[k] in c.spec.nodes;
    JoinMeans(c, name, k);
  }

  lemma CidrsOn(c: Cluster, reports: Reports, m: Node, n: Node)
    requires Inv(c) && m in c.spec.nodes && n in Apply(c, RecordCidrs(reports)).spec.nodes && m.name == n.name
    ensures n == m.(podCidr := n.podCidr)
    ensures n.podCidr == if WithPodCidrs(c, reports).Ok? && m.name in reports && reports[m.name].Net? then
                           Some(reports[m.name].cidr) else m.podCidr
  {
    hide WithPodCidrs;
    hide Apply;
    hide Acceptable;
    InvNamesUnique(c);
    InvEditable(c);
    hide Inv;
    CidrsMean(c, reports);
    var b := Apply(c, RecordCidrs(reports));
    var k :| 0 <= k < |b.spec.nodes| && b.spec.nodes[k] == n;
    assert c.spec.nodes[k] in c.spec.nodes;
  }

  lemma UniqueName(nodes: seq<Node>)
    requires Distinct(NodeNames(nodes))
    ensures forall m, n :: m in nodes && n in nodes && m.name == n.name ==> m == n
  {
    forall m, n | m in nodes && n in nodes && m.name == n.name
      ensures m == n
    {
      var i :| 0 <= i < |nodes| && nodes[i] == m;
      var j :| 0 <= j < |nodes| && nodes[j] == n;
      assert NodeNames(nodes)[i] == m.name && NodeNames(nodes)[j] == n.name;
    }
  }

  lemma RemovedFrom(c: Cluster, name: string, n: Node)
    requires Inv(c) && n in Apply(c, Remove(name)).spec.nodes
    ensures n in c.spec.nodes
  {
    RemoveMeans(c, name);
    hide Inv;
    hide Apply;
  }

  /** A verb that brings in a name it did not find is an add, and brings it in unjoined and unrouted. */
  lemma NewName(c: Cluster, e: Edit, n: Node)
    requires Inv(c) && n in Apply(c, e).spec.nodes
    ensures Has(c, n.name) || (e.Add? && !n.join && n.podCidr.None?)
  {
    hide PlanAdd;
    hide WithPodCidrs;
    hide Seated;
    hide CpCount;
    var b := Apply(c, e);
    var k :| 0 <= k < |b.spec.nodes| && b.spec.nodes[k] == n;
    assert k < |c.spec.nodes| ==> c.spec.nodes[k] in c.spec.nodes;
    match e
    case Add(req) => AddMeans(c, req);
    case Join(name) => JoinMeans(c, name, k);
    case Remove(name) => RemovedFrom(c, name, n);
    case RecordCidrs(reports) => CidrsMean(c, reports);
  }

  /** Over any sequence of verbs: a node is recorded as joined exactly when it was so from the start and
      has been listed ever since, or a join named it after it was last added. */
  lemma {:induction false} JoinedIff(a: Cluster, edits: seq<Edit>, n: Node)
    requires Inv(a) && n in After(a, edits).spec.nodes
    ensures n.join <==>
            || (Since(a, edits, n.name) == 0 && exists m :: m in a.spec.nodes && m.name == n.name && m.join)
            || exists j :: Since(a, edits, n.name) <= j < |edits| && edits[j] == Join(n.name)
  {
    hide Apply;
    if edits == [] {
      InvNamesUnique(a);
      hide Inv;
    } else {
      var k := |edits| - 1;
      var before, e := After(a, edits[..k]), edits[k];
      AfterKeeps(a, edits[..k]);
      InvEditable(before);
      hide Inv;
      hide After;
      assert After(a, edits) == Apply(before, e) by {
        AfterNext(a, edits);
      }
      if Has(before, n.name) {
        var m :| m in before.spec.nodes && m.name == n.name;
        JoinedIff(a, edits[..k], m);
        OneVerb(before, e, m, n);
        assert Since(a, edits, n.name) == Since(a, edits[..k], n.name);
        LaterJoin(edits, k, Since(a, edits, n.name), n.name);
      } else {
        NewName(before, e, n);
        assert Since(a, edits, n.name) == |edits|;
      }
    }
  }

  lemma AfterNext(a: Cluster, edits: seq<Edit>)
    requires edits != [] && Editable(After(a, edits[..|edits| - 1]))
    ensures After(a, edits) == Apply(After(a, edits[..|edits| - 1]), edits[|edits| - 1])
  {
  }

  lemma LaterJoin(edits: seq<Edit>, k: nat, since: nat, name: string)
    requires |edits| == k + 1 && since <= k
    ensures (exists j :: since <= j < |edits| && edits[j] == Join(name)) <==>
            (exists j :: since <= j < k && edits[..k][j] == Join(name)) || edits[k] == Join(name)
  {
    if j :| since <= j < k && edits[..k][j] == Join(name) {
      assert edits[j] == Join(name);
    }
    if j :| since <= j < |edits| && edits[j] == Join(name) {
      assert j < k ==> edits[..k][j] == Join(name);
    }
  }

  lemma InvNamesUnique(c: Cluster)
    requires Inv(c)
    ensures forall m, n :: m in c.spec.nodes && n in c.spec.nodes && m.name == n.name ==> m == n
  {
    UniqueName(c.spec.nodes);
  }

  lemma ReachedJoined(a: Cluster, edits: seq<Edit>, b: Cluster, n: Node)
    requires Inv(a) && Reached(a, edits, b) && n in b.spec.nodes
    ensures n.join <==>
            || (Since(a, edits, n.name) == 0 && exists m :: m in a.spec.nodes && m.name == n.name && m.join)
            || exists j :: Since(a, edits, n.name) <= j < |edits| && edits[j] == Join(n.name)
  {
    hide Inv;
    hide Reached;
    hide After;
    ReachedIsAfter(a, edits, b);
    JoinedIff(a, edits, n);
  }

  /** Some node here is this one but for join and CIDR. */
  ghost predicate CameAs(c: Cluster, n: Node) {
    exists m :: m in c.spec.nodes && n == m.(join := n.join, podCidr := n.podCidr)
  }

  lemma CameHere(c: Cluster, n: Node)
    requires n in c.spec.nodes
    ensures CameAs(c, n)
  {
    assert n == n.(join := n.join, podCidr := n.podCidr);
  }

  lemma CameThrough(c: Cluster, m: Node, n: Node)
    requires CameAs(c, m) && n == m.(join := n.join, podCidr := n.podCidr)
    ensures CameAs(c, n)
  {
    var x :| x in c.spec.nodes && m == x.(join := m.join, podCidr := m.podCidr);
    assert n == x.(join := n.join, podCidr := n.podCidr);
  }

  /** And its name, role, address, size and host are those it came with. */
  lemma {:induction false} SameSince(a: Cluster, edits: seq<Edit>, n: Node)
    requires Inv(a) && n in After(a, edits).spec.nodes
    ensures CameAs(After(a, edits[..Since(a, edits, n.name)]), n)
  {
    hide Apply;
    hide CameAs;
    assert edits[..|edits|] == edits;
    CameHere(After(a, edits), n);
    if edits != [] {
      var k := |edits| - 1;
      var before, e := After(a, edits[..k]), edits[k];
      AfterKeeps(a, edits[..k]);
      InvEditable(before);
      hide Inv;
      hide After;
      assert After(a, edits) == Apply(before, e) by {
        AfterNext(a, edits);
      }
      if Has(before, n.name) {
        var m :| m in before.spec.nodes && m.name == n.name;
        hide Has;
        SameSince(a, edits[..k], m);
        OneVerb(before, e, m, n);
        SinceStays(a, edits, n.name);
        CameThrough(After(a, edits[..Since(a, edits, n.name)]), m, n);
      }
    }
  }

  lemma SinceStays(a: Cluster, edits: seq<Edit>, name: string)
    requires edits != [] && Has(After(a, edits[..|edits| - 1]), name)
    ensures var k := Since(a, edits, name);
            k == Since(a, edits[..|edits| - 1], name) && edits[..|edits| - 1][..k] == edits[..k]
  {
    hide After;
    hide Has;
  }
}
