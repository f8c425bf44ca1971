/** What preflight asks of the hosts of a cluster before plan writes anything (create/preflight.py): a
    hostname for every machine, and silence on the addresses of the range. */
module Preflight {
  import opened Basics
  import opened Addresses
  import opened Ranges
  import opened ClusterModel
  import opened Hosts

  /** What each machine answers to `hostname`. */
  type Hostnames = HostId -> string

  /** The entries asked, in order: every host of the cluster, then the operator. */
  function Asked(c: Cluster): seq<(string, HostId)> { NodeHosts(c) + [("operator", OPERATOR)] }

  /** The entry that answered this hostname first. */
  function FirstOf(asked: seq<(string, HostId)>, names: Hostnames, hostname: string): Option<string> {
    var e := First(asked, (x: (string, HostId)) => names(x.1) == hostname);
    if e.None? then None else Some(e.value.0)
  }

  /** An entry is refused when an earlier one of another name gave its hostname, unless it is the
      operator itself and that earlier one is a host entry. */
  predicate Refused(c: Cluster, names: Hostnames, k: nat)
    requires k < |Asked(c)|
  {
    var (name, machine) := Asked(c)[k];
    var seen := FirstOf(Asked(c)[..k], names, names(machine));
    seen.Some? && seen.value != name && !(machine == OPERATOR && seen.value in c.HostNames())
  }

  predicate HostnamesPass(c: Cluster, names: Hostnames) { forall k :: 0 <= k < |Asked(c)| ==> !Refused(c, names, k) }

  /** check_hostnames: one pass with the hostnames seen so far. */
  method CheckHostnames(c: Cluster, names: Hostnames) returns (ok: bool)
    ensures ok <==> HostnamesPass(c, names)
  {
    hide NodeHosts;
    hide Refused;
    hide FirstOf;
    NothingSeen(Asked(c), names);
    var asked := Asked(c);
    var seen: map<string, string> := map[];
    for k := 0 to |asked|
      invariant forall j :: 0 <= j < k ==> !Refused(c, names, j)
      invariant forall hn :: if hn in seen then FirstOf(asked[..k], names, hn) == Some(seen[hn]) else FirstOf(asked[..k], names, hn) == None
    {
      var (name, machine) := asked[k];
      var hn := names(machine);
      RefusedMeans(c, names, k);
      if hn in seen && seen[hn] != name && !(machine == OPERATOR && seen[hn] in c.HostNames()) {
        return false;
      }
      forall x
        ensures FirstOf(asked[..k + 1], names, x) == OneMore(FirstOf(asked[..k], names, x), names, asked[k], x)
      {
        FirstOfNext(asked, names, k, x);
      }
      if hn !in seen {
        seen := seen[hn := name];
      }
    }
    return true;
  }

  lemma NothingSeen(asked: seq<(string, HostId)>, names: Hostnames)
    ensures forall hn :: FirstOf(asked[..0], names, hn) == None
  {
  }

  lemma RefusedMeans(c: Cluster, names: Hostnames, k: nat)
    requires k < |Asked(c)|
    ensures var (name, machine) := Asked(c)[k];
            var seen := FirstOf(Asked(c)[..k], names, names(machine));
            Refused(c, names, k) <==> seen.Some? && seen.value != name && !(machine == OPERATOR && seen.value in c.HostNames())
  {
    hide FirstOf;
    hide NodeHosts;
  }

  function OneMore(before: Option<string>, names: Hostnames, e: (string, HostId), hostname: string): Option<string> {
    if before.Some? then before else if names(e.1) == hostname then Some(e.0) else None
  }

  lemma {:induction false} FirstAppend<T>(a: seq<T>, x: T, p: T -> bool)
    ensures First(a + [x], p) == if First(a, p).Some? then First(a, p) else if p(x) then Some(x) else None
  {
    if a == [] {
      assert a + [x] == [x];
    } else {
      assert (a + [x])[1..] == a[1..] + [x];
      FirstAppend(a[1..], x, p);
    }
  }

  lemma FirstOfNext(asked: seq<(string, HostId)>, names: Hostnames, k: nat, hostname: string)
    requires k < |asked|
    ensures FirstOf(asked[..k + 1], names, hostname) == OneMore(FirstOf(asked[..k], names, hostname), names, asked[k], hostname)
  {
    assert asked[..k + 1] == asked[..k] + [asked[k]];
    FirstAppend(asked[..k], asked[k], (x: (string, HostId)) => names(x.1) == hostname);
  }

  // ---- what it means

  /** A host entry answers the hostname of an earlier one. */
  ghost predicate Echoes(c: Cluster, names: Hostnames, i: int, j: int) {
    0 <= i < j < |NodeHosts(c)| && names(NodeHosts(c)[i].1) == names(NodeHosts(c)[j].1)
  }

  lemma FirstOfMeans(asked: seq<(string, HostId)>, names: Hostnames, hostname: string)
    ensures FirstOf(asked, names, hostname).Some? <==> exists i :: 0 <= i < |asked| && names(asked[i].1) == hostname
    ensures FirstOf(asked, names, hostname).Some? ==>
              exists i :: 0 <= i < |asked| && names(asked[i].1) == hostname && FirstOf(asked, names, hostname) == Some(asked[i].0)
  {
    var p := (x: (string, HostId)) => names(x.1) == hostname;
    var e := First(asked, p);
    if e.Some? {
      var i :| 0 <= i < |asked| && asked[i] == e.value;
    }
    if i :| 0 <= i < |asked| && names(asked[i].1) == hostname {
      assert asked[i] in asked && p(asked[i]);
    }
  }

  lemma EntryNames(c: Cluster)
    requires c.MultiHost() && HostsConsistent(c.spec)
    ensures forall i :: 0 <= i < |NodeHosts(c)| ==> NodeHosts(c)[i].0 in c.HostNames()
    ensures forall i, j :: 0 <= i < j < |NodeHosts(c)| ==> NodeHosts(c)[i].0 != NodeHosts(c)[j].0
  {
    MachinesDistinct(c);
    forall i | 0 <= i < |NodeHosts(c)|
      ensures NodeHosts(c)[i].0 in c.HostNames()
    {
      assert NodeHosts(c)[i].0 == c.HostNames()[i];
    }
  }

  /** The check passes exactly when only the local entry gives a hostname an earlier entry gave. The
      operator's own turn, the last, never refuses. */
  lemma PassMeans(c: Cluster, names: Hostnames)
    requires c.MultiHost() && HostsConsistent(c.spec)
    ensures HostnamesPass(c, names) <==> forall i, j :: Echoes(c, names, i, j) ==> NodeHosts(c)[j].1 == OPERATOR
  {
    var n := |NodeHosts(c)|;
    EntryNames(c);
    hide NodeHosts;
    forall k: nat | k < n
      ensures Refused(c, names, k) <==> NodeHosts(c)[k].1 != OPERATOR && exists i :: Echoes(c, names, i, k)
    {
      EntryRefused(c, names, k);
    }
    OperatorPasses(c, names);
    hide Refused;
    assert |Asked(c)| == n + 1;
    forall i, j | HostnamesPass(c, names) && Echoes(c, names, i, j)
      ensures NodeHosts(c)[j].1 == OPERATOR
    {
      assert !Refused(c, names, j);
    }
  }

  lemma EntryRefused(c: Cluster, names: Hostnames, k: nat)
    requires c.MultiHost() && HostsConsistent(c.spec) && k < |NodeHosts(c)|
    ensures Refused(c, names, k) <==> NodeHosts(c)[k].1 != OPERATOR && exists i :: Echoes(c, names, i, k)
  {
    EntryNames(c);
    hide NodeHosts;
    var nhs, asked := NodeHosts(c), Asked(c);
    assert asked[k] == nhs[k] && asked[..k] == nhs[..k];
    FirstOfMeans(nhs[..k], names, names(nhs[k].1));
    hide FirstOf;
    if i :| Echoes(c, names, i, k) {
      assert nhs[..k][i] == nhs[i];
    }
    if FirstOf(nhs[..k], names, names(nhs[k].1)).Some? {
      var i :| 0 <= i < k && names(nhs[..k][i].1) == names(nhs[k].1) && FirstOf(nhs[..k], names, names(nhs[k].1)) == Some(nhs[..k][i].0);
      assert nhs[..k][i] == nhs[i];
      assert Echoes(c, names, i, k);
    }
  }

  lemma OperatorPasses(c: Cluster, names: Hostnames)
    requires c.MultiHost() && HostsConsistent(c.spec)
    ensures !Refused(c, names, |NodeHosts(c)|)
  {
    EntryNames(c);
    hide NodeHosts;
    var n, nhs, asked := |NodeHosts(c)|, NodeHosts(c), Asked(c);
    assert asked[n] == ("operator", OPERATOR) && asked[..n] == nhs;
    FirstOfMeans(nhs, names, names(OPERATOR));
    hide FirstOf;
  }

  /** What the check is for: every machine of the cluster, the operator included, has a hostname of its
      own. */
  ghost predicate OwnHostnames(c: Cluster, names: Hostnames) {
    && (forall i, j :: 0 <= i < j < |NodeHosts(c)| && NodeHosts(c)[i].1 != NodeHosts(c)[j].1 ==>
          names(NodeHosts(c)[i].1) != names(NodeHosts(c)[j].1))
    && forall i :: 0 <= i < |NodeHosts(c)| && NodeHosts(c)[i].1 != OPERATOR ==> names(NodeHosts(c)[i].1) != names(OPERATOR)
  }

  /** A remote entry that gives the operator's hostname. */
  ghost predicate Posing(c: Cluster, names: Hostnames) {
    exists i :: 0 <= i < |NodeHosts(c)| && NodeHosts(c)[i].1 != OPERATOR && names(NodeHosts(c)[i].1) == names(OPERATOR)
  }

  /** Hosts that pass are different machines, whatever they are called. */
  lemma PassedHostsApart(c: Cluster, names: Hostnames)
    requires HostsConsistent(c.spec) && (c.MultiHost() ==> HostnamesPass(c, names))
    requires c.MultiHost() ==> forall h :: h in c.spec.hosts.value ==> h.ssh != Some("")
    ensures HostsApart(c)
  {
    if c.MultiHost() {
      PassMeans(c, names);
      var hosts := c.spec.hosts.value;
      forall i, j | 0 <= i < j < |hosts|
        ensures hosts[i].ssh != hosts[j].ssh
      {
        if hosts[i].ssh == hosts[j].ssh {
          assert hosts[j] in hosts;
          assert Echoes(c, names, i, j);
        }
      }
    }
  }

  /** The check meets its purpose exactly when no remote entry gives the operator's hostname: between
      the operator and a remote entry asked before it, the check tells nothing apart. */
  lemma PassIffOwnHostnames(c: Cluster, names: Hostnames)
    requires c.MultiHost() && HostsConsistent(c.spec)
    requires forall h :: h in c.spec.hosts.value ==> h.ssh != Some("")
    ensures HostnamesPass(c, names) && !Posing(c, names) <==> OwnHostnames(c, names) && HostsApart(c)
  {
    PassMeans(c, names);
    MachinesDistinct(c);
    if HostnamesPass(c, names) {
      PassedHostsApart(c, names);
    }
    hide HostnamesPass;
    hide HostsConsistent;
    hide NodeHosts;
    hide HostsApart;
    if HostnamesPass(c, names) && !Posing(c, names) {
      forall i, j | 0 <= i < j < |NodeHosts(c)| && NodeHosts(c)[i].1 != NodeHosts(c)[j].1
        ensures names(NodeHosts(c)[i].1) != names(NodeHosts(c)[j].1)
      {
        assert names(NodeHosts(c)[i].1) == names(NodeHosts(c)[j].1) ==> Echoes(c, names, i, j);
      }
    }
  }

  // ---- the address probe

  /** check_addresses_free: nothing answers on the LAN for an address of the range, asked only while no
      target of the cluster is active. */
  predicate AddressesPass(c: Cluster, answering: set<Addr>, active: bool) {
    active || (forall ip :: ip in answering ==> ip !in PoolOf(c))
  }

  /** So what answers in the range stops a fresh create, and not one that is resumed once its own nodes
      answer there. */
  lemma AnswersStopFreshOnly(c: Cluster, pool: seq<Addr>, answering: set<Addr>)
    requires c.spec.network.range == Some(RangesText(pool)) && pool != [] && Distinct(pool)
    ensures AddressesPass(c, answering, false) <==> forall ip :: ip in pool ==> ip !in answering
    ensures AddressesPass(c, answering, true)
  {
    RoundTrip(pool);
    hide Pool;
    hide RangesText;
  }

  function PoolOf(c: Cluster): seq<Addr> {
    var pool := Pool(if c.spec.network.range.Some? then c.spec.network.range.value else []);
    if pool.Ok? then pool.value else []
  }
}
