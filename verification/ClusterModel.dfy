/** cluster.yaml, typed (model.py): what the platform keeps about a cluster, and what it derives
    from it. Fields that are only copied (Kubernetes version, CNI, datapath) are not modelled. */
module ClusterModel {
  import opened Basics
  import opened Text
  import opened Addresses

  datatype Role = ControlPlane | Worker

  datatype Mode = Proxy | Bgp

  datatype RouterCount = One | Two

  datatype Node = Node(
    role: Role,
    name: string,
    ip: Addr,
    cpu: nat,
    memory: string,
    join: bool,
    host: Option<string>,
    podCidr: Option<Prefix>)

  datatype Network = Network(
    index: nat,
    nodes: Prefix,
    gateway: Addr,
    router: Addr,
    ha: Mode,
    routers: RouterCount,
    vip: Option<Addr>,
    lbRange: string,
    pods: Prefix,
    services: Prefix,
    range: Option<string>,
    routerHosts: Option<seq<string>>,
    shim: Option<Addr>,
    mesh: Option<Addr>)

  datatype Host = Host(name: string, ssh: Option<string>, iface: string)

  datatype Spec = Spec(network: Network, nodes: seq<Node>, hosts: Option<seq<Host>>)

  datatype Status = Status(ready: bool, sized: bool, operator: Option<string>, peers: seq<string>)

  datatype Router = Router(name: string, dir: string, ip: Addr, priority: Option<nat>, host: Option<string>)

  datatype Cluster = Cluster(name: string, spec: Spec, status: Option<Status>) {
    predicate MultiHost() { spec.hosts.Some? }

    function HostNames(): seq<string> {
      if spec.hosts.None? then [] else Map(spec.hosts.value, (h: Host) => h.name)
    }

    function ControlPlanes(): seq<Node> {
      Filter(spec.nodes, (n: Node) => n.role == ControlPlane)
    }

    function RouterHost(i: nat): Option<string> {
      match spec.network.routerHosts
      case None => None
      case Some(hosts) => if i < |hosts| then Some(hosts[i]) else None
    }

    /** The routers, derived from the network and never stored; None when an address cannot be
        derived (the range text does not start with an A-B segment, or A is too close to the end of
        the address space). */
    function Routers(): Option<seq<Router>> {
      var net := spec.network;
      if net.routers == One then
        Some([Router(name + "-router", "router", net.router, None, RouterHost(0))])
      else
        var base: Option<int> :=
          if net.range.None? then Some(net.nodes.base + 250)
          else
            var start := RangeStart(net.range.value);
            if start.None? then None else Some(start.value);
        if base.None? || base.value + 2 >= 0x1_0000_0000 then None
        else
          Some([Router(name + "-router-1", "router-1", base.value + 1, Some(200), RouterHost(0)),
                Router(name + "-router-2", "router-2", base.value + 2, Some(100), RouterHost(1))])
    }
  }

  /** The first address of the range text: what precedes the first dash, when that is an address. */
  function RangeStart(range: string): Option<Addr> {
    ParseAddr(Partition(range, '-').0)
  }

  function NodeNames(nodes: seq<Node>): seq<string> { Map(nodes, (n: Node) => n.name) }

  function NodeIps(nodes: seq<Node>): seq<Addr> { Map(nodes, (n: Node) => n.ip) }

  // ---- what the user writes

  /** A group of equal nodes; host is a host name, or "auto" or nothing for round-robin. */
  datatype NodeGroup = NodeGroup(
    role: Role,
    count: nat,
    name: Option<string>,
    cpu: nat,
    memory: string,
    join: bool,
    host: Option<string>)

  datatype UserHost = UserHost(name: string, ssh: Option<string>)

  datatype UserNetwork = UserNetwork(
    nodes: Option<Prefix>,
    router: Option<Addr>,
    ha: Option<Mode>,
    routers: Option<RouterCount>,
    vip: Option<Addr>,
    range: Option<string>,
    routerHosts: Option<seq<string>>)

  datatype UserCluster = UserCluster(
    name: string,
    gvisor: bool,
    network: Option<UserNetwork>,
    nodes: seq<NodeGroup>,
    hosts: Option<seq<UserHost>>)

  // ---- the file's own consistency rules

  /** A spec either has no host, no range and no placement at all, or it has all three: distinct host
      entries of which at most one is local, and nodes and routers that name one of them. */
  ghost predicate HostsConsistent(s: Spec) {
    var net := s.network;
    && (s.hosts.None? <==> net.range.None?)
    && match s.hosts
       case None =>
         && (forall n :: n in s.nodes ==> n.host.None?)
         && net.routerHosts.None?
       case Some(hosts) =>
         && Distinct(Names(hosts))
         && (forall i, j :: 0 <= i < j < |hosts| ==> hosts[i].ssh.Some? || hosts[j].ssh.Some?)
         && (forall n :: n in s.nodes ==> n.host.Some? && n.host.value in Names(hosts))
         && net.routerHosts.Some?
         && |net.routerHosts.value| == Routing(net.routers)
         && (forall r :: r in net.routerHosts.value ==> r in Names(hosts))
  }

  function Names(hosts: seq<Host>): seq<string> { Map(hosts, (h: Host) => h.name) }

  function Routing(r: RouterCount): nat { if r == One then 1 else 2 }

  function LocalCount(hosts: seq<Host>): nat {
    if hosts == [] then 0
    else LocalCount(hosts[..|hosts| - 1]) + if hosts[|hosts| - 1].ssh.None? then 1 else 0
  }

  lemma {:induction false} LocalCountMeans(hosts: seq<Host>)
    ensures LocalCount(hosts) == 0 <==> forall h :: h in hosts ==> h.ssh.Some?
    ensures LocalCount(hosts) <= 1 <==>
            forall i, j :: 0 <= i < j < |hosts| ==> hosts[i].ssh.Some? || hosts[j].ssh.Some?
  {
    if hosts != [] {
      var n := |hosts| - 1;
      LocalCountMeans(hosts[..n]);
      Snoc(hosts);
      if LocalCount(hosts) <= 1 {
        forall i, j | 0 <= i < j < |hosts|
          ensures hosts[i].ssh.Some? || hosts[j].ssh.Some?
        {
          if j == n && hosts[n].ssh.None? {
            assert hosts[i] in hosts[..n];
          }
        }
      } else if LocalCount(hosts[..n]) == 1 {
        var h :| h in hosts[..n] && h.ssh.None?;
        var i :| 0 <= i < n && hosts[i] == h;
        assert hosts[n].ssh.None?;
      } else {
        var i, j :| 0 <= i < j < n && hosts[i].ssh.None? && hosts[j].ssh.None?;
      }
    }
  }

  /** The validator run on every cluster.yaml that is read or built. */
  method CheckHosts(s: Spec) returns (ok: bool)
    ensures ok <==> HostsConsistent(s)
  {
    var net := s.network;
    if s.hosts.None? != net.range.None? {
      return false;
    }
    if s.hosts.None? {
      for k := 0 to |s.nodes|
        invariant forall i :: 0 <= i < k ==> s.nodes[i].host.None?
      {
        if s.nodes[k].host.Some? {
          assert s.nodes[k] in s.nodes;
          return false;
        }
      }
      return net.routerHosts.None?;
    }
    var hosts := s.hosts.value;
    var names: seq<string> := [];
    for k := 0 to |hosts|
      invariant names == Names(hosts)[..k]
      invariant Distinct(names)
    {
      if hosts[k].name in names {
        assert Names(hosts)[k] in names;
        return false;
      }
      names := names + [hosts[k].name];
    }
    assert names == Names(hosts);
    LocalCountMeans(hosts);
    if LocalCount(hosts) > 1 {
      return false;
    }
    for k := 0 to |s.nodes|
      invariant forall i :: 0 <= i < k ==> s.nodes[i].host.Some? && s.nodes[i].host.value in names
    {
      if s.nodes[k].host.None? || s.nodes[k].host.value !in names {
        assert s.nodes[k] in s.nodes;
        return false;
      }
    }
    if net.routerHosts.None? || |net.routerHosts.value| != Routing(net.routers) {
      return false;
    }
    for k := 0 to |net.routerHosts.value|
      invariant forall i :: 0 <= i < k ==> net.routerHosts.value[i] in names
    {
      if net.routerHosts.value[k] !in names {
        return false;
      }
    }
    return true;
  }
}
