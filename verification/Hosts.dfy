/** Which machine a host entry, a node or a router container stands for (phases.py: Context). */
module Hosts {
  import opened Basics
  import opened ClusterModel

  /** A machine: the operator is "", another one goes by its ssh target. */
  type HostId = string

  const OPERATOR: HostId := ""

  /** The machine a host entry stands for. */
  function Machine(c: Cluster, host: string): HostId {
    var h := First(if c.spec.hosts.Some? then c.spec.hosts.value else [], (x: Host) => x.name == host);
    if h.None? then OPERATOR else MachineOfEntry(h.value)
  }

  function RoutersOf(c: Cluster): seq<Router> { if c.Routers().Some? then c.Routers().value else [] }

  /** host_of: the host entry a node or router container is placed on. */
  function HostOf(c: Cluster, container: string): Option<string> {
    var n := First(c.spec.nodes, (x: Node) => x.name == container);
    var r := First(RoutersOf(c), (x: Router) => x.name == container);
    if n.Some? then n.value.host else if r.Some? then r.value.host else None
  }

  /** A container is where the first node of its name is placed; if there is none, the first router. */
  lemma PlacedWhere(c: Cluster, container: string)
    ensures forall i :: 0 <= i < |c.spec.nodes| && c.spec.nodes[i].name == container && (forall j :: 0 <= j < i ==> c.spec.nodes[j].name != container) ==>
              HostOf(c, container) == c.spec.nodes[i].host
    ensures (forall n :: n in c.spec.nodes ==> n.name != container) ==>
              && (forall i :: 0 <= i < |RoutersOf(c)| && RoutersOf(c)[i].name == container && (forall j :: 0 <= j < i ==> RoutersOf(c)[j].name != container) ==>
                    HostOf(c, container) == RoutersOf(c)[i].host)
              && ((forall r :: r in RoutersOf(c) ==> r.name != container) ==> HostOf(c, container).None?)
  {
    var node, router := (x: Node) => x.name == container, (x: Router) => x.name == container;
    forall i: nat | i < |c.spec.nodes| && node(c.spec.nodes[i]) && forall j :: 0 <= j < i ==> !node(c.spec.nodes[j])
      ensures First(c.spec.nodes, node) == Some(c.spec.nodes[i])
    {
      FirstIsLeast(c.spec.nodes, node, i);
    }
    hide RoutersOf;
    forall i: nat | i < |RoutersOf(c)| && router(RoutersOf(c)[i]) && forall j :: 0 <= j < i ==> !router(RoutersOf(c)[j])
      ensures First(RoutersOf(c), router) == Some(RoutersOf(c)[i])
    {
      FirstIsLeast(RoutersOf(c), router, i);
    }
  }

  /** host_for: the machine of the entry it is placed on; without an entry, the operator. */
  function MachineOf(c: Cluster, container: string): HostId {
    var host := HostOf(c, container);
    if host.None? then OPERATOR else Machine(c, host.value)
  }

  /** node_volumes: /var, /etc and /usr/local/bin of a node. */
  function NodeVolumes(node: string): seq<string> { [node + "-var", node + "-etc", node + "-usr-local-bin"] }

  function Remotes(hosts: seq<Host>): seq<HostId> {
    Map(Filter(hosts, (h: Host) => h.ssh.Some?), (h: Host) => MachineOfEntry(h))
  }

  function RemotesOf(c: Cluster): seq<HostId> { if c.MultiHost() then Remotes(c.spec.hosts.value) else [] }

  /** The copies of cluster.yaml once y has been saved to these machines. */
  function Copied(copies: map<HostId, Cluster>, hosts: seq<HostId>, y: Cluster): map<HostId, Cluster> {
    if hosts == [] then copies else Copied(copies, hosts[..|hosts| - 1], y)[hosts[|hosts| - 1] := y]
  }

  function MachineOfEntry(h: Host): HostId { if h.ssh.None? then OPERATOR else h.ssh.value }

  /** node_hosts: every host entry with its machine; a single-host cluster is ("", operator). */
  function NodeHosts(c: Cluster): seq<(string, HostId)> {
    if !c.MultiHost() then [("", OPERATOR)]
    else Map(c.spec.hosts.value, (h: Host) => (h.name, MachineOfEntry(h)))
  }

  lemma {:induction false} EntryMachine(c: Cluster, h: Host)
    requires c.MultiHost() && h in c.spec.hosts.value && Distinct(Names(c.spec.hosts.value))
    ensures Machine(c, h.name) == MachineOfEntry(h)
  {
    var hosts := c.spec.hosts.value;
    var i :| 0 <= i < |hosts| && hosts[i] == h;
    forall j | 0 <= j < i
      ensures hosts[j].name != h.name
    {
      assert Names(hosts)[j] != Names(hosts)[i];
    }
    FirstIsLeast(hosts, (x: Host) => x.name == h.name, i);
  }

  /** ssh targets are never empty, as connecting to them grants, and no two entries lead to one machine,
      which only preflight looks at, by hostname. */
  ghost predicate HostsApart(c: Cluster) {
    c.MultiHost() ==>
      && (forall h :: h in c.spec.hosts.value ==> h.ssh != Some(""))
      && forall i, j :: 0 <= i < j < |c.spec.hosts.value| ==> c.spec.hosts.value[i].ssh != c.spec.hosts.value[j].ssh
  }

  lemma MachinesDistinct(c: Cluster)
    requires HostsConsistent(c.spec)
    ensures HostsApart(c) ==> forall i, j :: 0 <= i < j < |NodeHosts(c)| ==> NodeHosts(c)[i].1 != NodeHosts(c)[j].1
    ensures forall i, j :: 0 <= i < j < |NodeHosts(c)| ==> NodeHosts(c)[i].0 != NodeHosts(c)[j].0
  {
    if c.MultiHost() {
      var hosts := c.spec.hosts.value;
      forall i, j | 0 <= i < j < |hosts|
        ensures HostsApart(c) ==> MachineOfEntry(hosts[i]) != MachineOfEntry(hosts[j])
        ensures hosts[i].name != hosts[j].name
      {
        assert Names(hosts)[i] != Names(hosts)[j];
        assert hosts[i] in hosts && hosts[j] in hosts;
      }
    }
  }
}
