/** Host entries that lead to one machine: exactly when rendering can still be done there. A create that
    runs its preflight never writes such entries; one that skips it may. */
module SharedHosts {
  import opened Basics
  import opened Text
  import opened ClusterModel
  import opened Hosts
  import opened Runner
  import opened Units
  import opened UnitsHold

  // ---- entries that agree wherever they meet

  /** Entries on one machine say the same about every file they both render. */
  ghost predicate Agree(text: Template, c: Cluster) {
    forall a, b, p :: a in PerHost(c) && b in PerHost(c) && a.machine == b.machine && p in a.files && p in b.files ==>
      text(c, a.name, p) == text(c, b.name, p)
  }

  lemma EntryShape(c: Cluster, hf: HostFiles)
    requires hf in PerHost(c)
    ensures hf.files == Render(c, hf.name) && (hf.links == Links(c, hf.name) || hf.links == [])
    ensures (hf.name, hf.machine) in NodeHosts(c) || (hf.machine == OPERATOR && forall nh :: nh in NodeHosts(c) ==> nh.1 != OPERATOR)
  {
    hide Render;
    hide Links;
    hide NodeHosts;
    PerHostEntries(c);
    hide PerHost;
    var entries := Map(NodeHosts(c), (nh: (string, HostId)) => EntryFor(c, nh));
    if hf in entries {
      var i :| 0 <= i < |entries| && entries[i] == hf;
      assert NodeHosts(c)[i] in NodeHosts(c);
    }
  }

  lemma EntryPresent(c: Cluster, nh: (string, HostId))
    requires nh in NodeHosts(c)
    ensures EntryFor(c, nh) in PerHost(c)
  {
    hide Render;
    hide Links;
    hide NodeHosts;
    PerHostEntries(c);
    hide PerHost;
    MapIn(NodeHosts(c), (x: (string, HostId)) => EntryFor(c, x), nh);
  }

  lemma {:induction false} WritesAgreed(d: Disks, text: Template, c: Cluster, hfs: seq<HostFiles>, h: HostId, p: Path, want: Entry)
    requires forall hf :: hf in hfs && hf.machine == h ==> Wanted(text, c, hf, p) in {None, Some(want)}
    ensures Look(Do(d, AllWrites(text, c, hfs)), h, p) ==
            if exists hf :: hf in hfs && hf.machine == h && Wanted(text, c, hf, p).Some? then Some(want) else Look(d, h, p)
  {
    hide Exec;
    hide Look;
    hide Writes;
    hide Wanted;
    if hfs == [] {
      ExecNothing(Step, d);
    } else {
      var k := |hfs| - 1;
      Snoc(hfs);
      WritesAgreed(d, text, c, hfs[..k], h, p, want);
      ExecAppend(Step, d, AllWrites(text, c, hfs[..k]), Writes(text, c, hfs[k]));
      WritesLook(Do(d, AllWrites(text, c, hfs[..k])), text, c, hfs[k], h, p);
    }
  }

  lemma {:induction false} SweepAny(c: Cluster, d: Disks, nhs: seq<(string, HostId)>, h: HostId, p: Path)
    ensures Look(Do(d, Sweep(c, d, nhs)), h, p) ==
            if exists nh :: nh in nhs && nh.1 == h && Stale(c, nh.0, p) then None else Look(d, h, p)
  {
    hide Exec;
    hide Look;
    hide StaleLinks;
    hide Stale;
    if nhs == [] {
      ExecNothing(Step, d);
    } else {
      var k := |nhs| - 1;
      Snoc(nhs);
      var before := Sweep(c, d, nhs[..k]);
      SweepAny(c, d, nhs[..k], h, p);
      UnlinkStale(c, d, before, nhs[k], h, p);
    }
  }

  /** A link stale for one entry is wanted by none: every node is placed on one entry. */
  lemma StaleNowhereWanted(text: Template, c: Cluster, name: string, hf: HostFiles, p: Path)
    requires Distinct(AllNames(c)) && hf in PerHost(c) && Stale(c, name, p)
    ensures Wanted(text, c, hf, p) == None
  {
    hide PerHost;
    hide Render;
    EntryShape(c, hf);
    hide NodeHosts;
    assert CpuPath(p);
    if p in hf.files {
      FilesAreNotCpus(c, hf.name, p);
      assert false;
    }
    if p in hf.links {
      StaleUnlinked(c, name, hf.name, p);
      assert false;
    }
  }

  lemma StaleUnlinked(c: Cluster, name: string, other: string, p: Path)
    requires Distinct(AllNames(c)) && Stale(c, name, p)
    ensures p !in Links(c, other)
  {
    LinksIn(c, other, p);
    LinksIn(c, name, p);
    hide Links;
    hide NodesHere;
    hide IsCpu;
    if p in Links(c, other) {
      var n :| n in NodesHere(c, name) && InNode0(p, c.name, n.name) && IsCpu(p.parts[4]);
      var m :| m in NodesHere(c, other) && p in NodeLinks(c.name, m);
      NodeLinksMean(c.name, m, p);
      NodesHereListed(c, name, n);
      NodesHereListed(c, other, m);
      assert p.parts[1] == n.name by {
        assert p.parts[..4][1] == n.name;
      }
      SameNode(c, m, n);
    }
  }

  lemma NodesHereListed(c: Cluster, name: string, n: Node)
    requires n in NodesHere(c, name)
    ensures n in c.spec.nodes && Here(c, n.host, name)
  {
  }

  /** What every path holds after a run in which the entries agree. */
  lemma RanLook(text: Template, c: Cluster, d: Disks, hf: HostFiles, p: Path)
    requires Distinct(AllNames(c)) && Agree(text, c) && hf in PerHost(c) && Wanted(text, c, hf, p).Some?
    ensures Look(Ran(text, c, d), hf.machine, p) == Wanted(text, c, hf, p)
  {
    hide Exec;
    hide Look;
    hide Sweep;
    hide AllWrites;
    hide PerHost;
    hide NodeHosts;
    hide Stale;
    hide AllNames;
    var want := Wanted(text, c, hf, p).value;
    var writes := AllWrites(text, c, PerHost(c));
    var v := Do(d, writes);
    forall other | other in PerHost(c) && other.machine == hf.machine
      ensures Wanted(text, c, other, p) in {None, Some(want)}
    {
      SameWish(text, c, hf, other, p);
    }
    hide Agree;
    forall nh | nh in NodeHosts(c) && nh.1 == hf.machine
      ensures !Stale(c, nh.0, p)
    {
      if Stale(c, nh.0, p) {
        StaleNowhereWanted(text, c, nh.0, hf, p);
        assert false;
      }
    }
    hide Wanted;
    WritesAgreed(d, text, c, PerHost(c), hf.machine, p, want);
    SweepAny(c, v, NodeHosts(c), hf.machine, p);
    ExecAppend(Step, d, writes, Sweep(c, v, NodeHosts(c)));
  }

  lemma SameWish(text: Template, c: Cluster, a: HostFiles, b: HostFiles, p: Path)
    requires Agree(text, c) && a in PerHost(c) && b in PerHost(c) && a.machine == b.machine
    ensures Wanted(text, c, a, p).Some? ==> Wanted(text, c, b, p) in {None, Wanted(text, c, a, p)}
  {
    hide PerHost;
    hide NodeHosts;
    EntryShape(c, a);
    EntryShape(c, b);
    hide Render;
    hide Links;
    if p in a.files {
      FilesAreNotCpus(c, a.name, p);
    }
    if p in b.files {
      FilesAreNotCpus(c, b.name, p);
    }
    LinksAreCpus(c, a.name, p);
    LinksAreCpus(c, b.name, p);
  }

  lemma StaleGoes(text: Template, c: Cluster, d: Disks, nh: (string, HostId), p: Path)
    requires Distinct(AllNames(c)) && nh in NodeHosts(c) && Stale(c, nh.0, p)
    ensures Look(Ran(text, c, d), nh.1, p) == None
  {
    hide Exec;
    hide Look;
    hide Sweep;
    hide AllWrites;
    hide PerHost;
    hide NodeHosts;
    hide Stale;
    var writes := AllWrites(text, c, PerHost(c));
    var v := Do(d, writes);
    SweepAny(c, v, NodeHosts(c), nh.1, p);
    ExecAppend(Step, d, writes, Sweep(c, v, NodeHosts(c)));
  }

  /** Whatever entries share a machine: run makes done true from every state, or nothing ever does,
      according to whether the entries agree. */
  lemma DoneIffAgree(text: Template, c: Cluster)
    requires Distinct(AllNames(c))
    ensures Agree(text, c) ==> forall d :: Done(text, c, Ran(text, c, d))
    ensures !Agree(text, c) ==> forall d :: !Done(text, c, d)
  {
    hide PerHost;
    hide Look;
    if Agree(text, c) {
      forall d
        ensures Done(text, c, Ran(text, c, d))
      {
        AgreeDone(text, c, d);
      }
    }
  }

  lemma AgreeDone(text: Template, c: Cluster, d: Disks)
    requires Distinct(AllNames(c)) && Agree(text, c)
    ensures Done(text, c, Ran(text, c, d))
  {
    hide PerHost;
    hide NodeHosts;
    hide Ran;
    hide Look;
    hide StaleLinks;
    hide Stale;
    hide AllNames;
    hide Agree;
    var v := Ran(text, c, d);
    forall hf | hf in PerHost(c)
      ensures Holds(text, c, v, hf)
    {
      EntryHolds(text, c, d, hf);
      hide Holds;
    }
    forall nh | nh in NodeHosts(c)
      ensures StaleLinks(DiskAt(v, nh.1), c, nh.0) == []
    {
      NothingStaleThere(text, c, d, nh);
    }
    hide Holds;
  }

  lemma EntryHolds(text: Template, c: Cluster, d: Disks, hf: HostFiles)
    requires Distinct(AllNames(c)) && Agree(text, c) && hf in PerHost(c)
    ensures Holds(text, c, Ran(text, c, d), hf)
  {
    hide PerHost;
    hide Ran;
    hide Look;
    hide AllNames;
    hide Agree;
    EntryShape(c, hf);
    hide NodeHosts;
    hide Render;
    hide Links;
    forall p | p in hf.files || p in hf.links
      ensures Look(Ran(text, c, d), hf.machine, p) == Wanted(text, c, hf, p)
      ensures p in hf.files ==> p !in hf.links
    {
      RanLook(text, c, d, hf, p);
      if p in hf.files {
        FilesAreNotCpus(c, hf.name, p);
        LinksAreCpus(c, hf.name, p);
      }
    }
  }

  lemma NothingStaleThere(text: Template, c: Cluster, d: Disks, nh: (string, HostId))
    requires Distinct(AllNames(c)) && nh in NodeHosts(c)
    ensures StaleLinks(DiskAt(Ran(text, c, d), nh.1), c, nh.0) == []
  {
    hide NodeHosts;
    hide Ran;
    hide StaleLinks;
    hide Stale;
    hide AllNames;
    var stale := StaleLinks(DiskAt(Ran(text, c, d), nh.1), c, nh.0);
    if stale != [] {
      StaleLinksMeans(DiskAt(Ran(text, c, d), nh.1), c, nh.0, stale[0]);
      StaleGoes(text, c, d, nh, stale[0]);
      assert false;
    }
  }

  // ---- what two entries both render

  function NetworkFileOf(c: Cluster): Path { UnitDir(c.name, c.name + ".network") }

  function PolicyFileOf(c: Cluster): Path { State(c.name, ["logs", "apiserver", "audit-policy.yaml"]) }

  function TargetFileOf(c: Cluster): Path { Systemd(c.name + ".target") }

  function RoutesFileOf(c: Cluster): Path { Systemd(c.name + "-routes.service") }

  /** The services a host's target wants. */
  function Wants(c: Cluster, name: string): seq<string> {
    Map(RoutersHere(c, name), (r: Router) => r.name + ".service")
    + Map(NodesHere(c, name), (n: Node) => n.name + ".service")
    + if Me(c, name).None? || Me(c, name).value.ssh.None? then [c.name + "-routes.service"] else []
  }

  /** Besides the network, the policy, the target and the routes unit, a file belongs to one entry. */
  lemma OneHome(c: Cluster, m: string, n: string, p: Path)
    requires Distinct(AllNames(c)) && c.MultiHost() && m != n && p in Render(c, m) && p in Render(c, n)
    ensures p in {NetworkFileOf(c), PolicyFileOf(c), TargetFileOf(c), RoutesFileOf(c)}
  {
    RenderIn(c, m, p);
    RenderIn(c, n, p);
    hide Render;
    hide Me;
    hide RouterFiles;
    hide UnitFiles;
    hide AllNames;
    hide RoutersHere;
    hide NodesHere;
    if r :| r in RoutersHere(c, m) && p in RouterFiles(c.name, r) {
      RoutersHereListed(c, m, r);
      if q :| q in RoutersHere(c, n) && p in RouterFiles(c.name, q) {
        RoutersHereListed(c, n, q);
        OneRouter(c, q, r, p);
      } else if x :| x in NodesHere(c, n) && p in UnitFiles(c, x) {
        NodesHereListed(c, n, x);
        RouterOrNode(c, r, x, p);
      }
    } else if x :| x in NodesHere(c, m) && p in UnitFiles(c, x) {
      NodesHereListed(c, m, x);
      if q :| q in RoutersHere(c, n) && p in RouterFiles(c.name, q) {
        RoutersHereListed(c, n, q);
        RouterOrNode(c, q, x, p);
      } else if y :| y in NodesHere(c, n) && p in UnitFiles(c, y) {
        NodesHereListed(c, n, y);
        OneNode(c, x, y, p);
      }
    }
  }

  lemma RoutersHereListed(c: Cluster, name: string, r: Router)
    requires r in RoutersHere(c, name)
    ensures r in RoutersOf(c) && Here(c, r.host, name)
  {
  }

  lemma OneRouter(c: Cluster, q: Router, r: Router, p: Path)
    requires Distinct(AllNames(c)) && q in RoutersOf(c) && r in RoutersOf(c)
    requires p in RouterFiles(c.name, q) && p in RouterFiles(c.name, r)
    ensures q == r
  {
    NamesApart(c);
    if q != r {
      assert q.dir != r.dir;
      NameMatters(c, q.name, r.name);
      hide RoutersOf;
    }
  }

  lemma RouterOrNode(c: Cluster, r: Router, n: Node, p: Path)
    requires Distinct(AllNames(c)) && r in RoutersOf(c) && n in c.spec.nodes
    ensures p in RouterFiles(c.name, r) ==> p !in UnitFiles(c, n)
  {
    NamesApart(c);
    NameMatters(c, r.name, n.name);
    if p in NodeFiles(c.name, n.name) {
      NodeFileShape(c.name, n.name, p);
      RouterDirs(c, r, p);
    }
  }

  lemma OneNode(c: Cluster, m: Node, n: Node, p: Path)
    requires Distinct(AllNames(c)) && m in c.spec.nodes && n in c.spec.nodes
    requires p in UnitFiles(c, m) && p in UnitFiles(c, n)
    ensures m == n
  {
    NamesApart(c);
    NameMatters(c, m.name, n.name);
    if p in NodeFiles(c.name, m.name) && p in NodeFiles(c.name, n.name) {
      NodeFileShape(c.name, m.name, p);
      NodeFileShape(c.name, n.name, p);
    } else if p in NodeFiles(c.name, m.name) {
      NodeFileShape(c.name, m.name, p);
    } else if p in NodeFiles(c.name, n.name) {
      NodeFileShape(c.name, n.name, p);
    }
    hide NodeFiles;
  }

  // ---- what those files say

  /** The templates of the files several entries can render: the target has the wanted services in it,
      the network the interface (twice), and the policy nothing of the host. */
  ghost predicate AsWritten(text: Template, c: Cluster) {
    && (exists head: string, tail: string :: TargetAround(text, c, head, tail))
    && (exists head: string, mid: string, tail: string :: NetworkAround(text, c, head, mid, tail))
    && (forall m, n :: text(c, m, PolicyFileOf(c)) == text(c, n, PolicyFileOf(c)))
  }

  ghost predicate TargetAround(text: Template, c: Cluster, head: string, tail: string) {
    forall m :: text(c, m, TargetFileOf(c)) == head + Join(Wants(c, m), ' ') + tail
  }

  ghost predicate NetworkAround(text: Template, c: Cluster, head: string, mid: string, tail: string) {
    forall m :: Me(c, m).Some? ==>
      text(c, m, NetworkFileOf(c)) == head + Me(c, m).value.iface + mid + Me(c, m).value.iface + tail
  }

  /** Names as validation has them. */
  predicate NamesPlain(c: Cluster) { forall x :: x in AllNames(c) ==> ' ' !in x }

  /** No node and no router is placed on this entry. */
  predicate Idle(c: Cluster, name: string) {
    (forall n :: n in c.spec.nodes ==> n.host != Some(name)) && forall r :: r in RoutersOf(c) ==> r.host != Some(name)
  }

  /** Entries with one ssh target run nothing and leave by one interface. */
  ghost predicate SharedAreIdle(c: Cluster) {
    c.MultiHost() ==> forall g, h :: g in c.spec.hosts.value && h in c.spec.hosts.value && g.name != h.name && g.ssh == h.ssh ==>
      g.iface == h.iface && Idle(c, g.name) && Idle(c, h.name)
  }

  lemma TwiceInside(head: string, mid: string, tail: string, a: string, b: string)
    requires head + a + mid + a + tail == head + b + mid + b + tail
    ensures a == b
  {
    var s, t := head + a + mid + a + tail, head + b + mid + b + tail;
    assert |a| == |b|;
    assert a == s[|head|..][..|a|] && b == t[|head|..][..|a|];
  }

  lemma Inside(head: string, tail: string, a: string, b: string)
    requires head + a + tail == head + b + tail
    ensures a == b
  {
    var s, t := head + a + tail, head + b + tail;
    assert |a| == |b|;
    assert a == s[|head|..][..|a|] && b == t[|head|..][..|a|];
  }

  /** Lists of services read back from the target. */
  lemma WantsReadBack(a: seq<string>, b: seq<string>)
    requires forall x :: x in a || x in b ==> ' ' !in x && x != []
    requires Join(a, ' ') == Join(b, ' ')
    ensures a == b
  {
    if a != [] {
      JoinSays(a);
    }
    if b != [] {
      JoinSays(b);
    }
    if a != [] && b != [] {
      SplitJoin(a, ' ');
      SplitJoin(b, ' ');
    }
  }

  lemma JoinSays(a: seq<string>)
    requires a != [] && forall x :: x in a ==> x != []
    ensures Join(a, ' ') != []
  {
    assert a[0] in a;
  }

  lemma IdleWantsNothing(c: Cluster, name: string)
    requires c.MultiHost() && Me(c, name).Some? && Me(c, name).value.ssh.Some?
    ensures Idle(c, name) <==> Wants(c, name) == []
  {
    hide RoutersOf;
    if Wants(c, name) == [] {
      assert RoutersHere(c, name) == [] && NodesHere(c, name) == [] by {
        assert |Map(RoutersHere(c, name), (r: Router) => r.name + ".service")| == |RoutersHere(c, name)|;
        assert |Map(NodesHere(c, name), (n: Node) => n.name + ".service")| == |NodesHere(c, name)|;
      }
      forall n | n in c.spec.nodes
        ensures n.host != Some(name)
      {
        assert Here(c, n.host, name) ==> n in NodesHere(c, name);
      }
      forall r | r in RoutersOf(c)
        ensures r.host != Some(name)
      {
        assert Here(c, r.host, name) ==> r in RoutersHere(c, name);
      }
    }
    if Idle(c, name) {
      NobodyHere(c, name);
    }
  }

  lemma NobodyHere(c: Cluster, name: string)
    requires c.MultiHost() && Idle(c, name)
    ensures RoutersHere(c, name) == [] && NodesHere(c, name) == []
  {
    hide RoutersOf;
    FilterNone(RoutersOf(c), (r: Router) => Here(c, r.host, name));
    FilterNone(c.spec.nodes, (n: Node) => Here(c, n.host, name));
  }

  /** A wanted service is that of a router or node placed here. */
  lemma WantedService(c: Cluster, name: string, s: string)
    requires c.MultiHost() && Me(c, name).Some? && Me(c, name).value.ssh.Some? && s in Wants(c, name)
    ensures exists x :: x in AllNames(c) && s == x + ".service" && PlacedAt(c, x, name)
  {
    hide RoutersOf;
    var routers, nodes := RoutersHere(c, name), NodesHere(c, name);
    var a, b := Map(routers, (r: Router) => r.name + ".service"), Map(nodes, (n: Node) => n.name + ".service");
    if s in a {
      var i :| 0 <= i < |routers| && a[i] == s;
      var r := routers[i];
      assert r in routers && r in RoutersOf(c);
      MapIn(RoutersOf(c), (x: Router) => x.name, r);
      assert PlacedAt(c, r.name, name);
    } else {
      var i :| 0 <= i < |nodes| && b[i] == s;
      var n := nodes[i];
      assert n in nodes && n in c.spec.nodes;
      NameListed(c, n);
      assert PlacedAt(c, n.name, name);
    }
  }

  ghost predicate PlacedAt(c: Cluster, x: string, name: string) {
    || (exists n :: n in c.spec.nodes && n.name == x && n.host == Some(name))
    || (exists r :: r in RoutersOf(c) && r.name == x && r.host == Some(name))
  }

  lemma PlacedOnce(c: Cluster, x: string, m: string, n: string)
    requires Distinct(AllNames(c)) && PlacedAt(c, x, m) && PlacedAt(c, x, n)
    ensures m == n
  {
    NamesApart(c);
    hide RoutersOf;
    hide AllNames;
  }

  lemma SameService(x: string, y: string)
    requires x + ".service" == y + ".service"
    ensures x == y
  {
    assert x == (x + ".service")[..|x|] && y == (y + ".service")[..|x|];
  }

  /** Two entries on other machines want the same services only if they want none. */
  lemma SameWants(c: Cluster, m: string, n: string)
    requires Distinct(AllNames(c)) && c.MultiHost() && m != n
    requires Me(c, m).Some? && Me(c, m).value.ssh.Some? && Me(c, n).Some? && Me(c, n).value.ssh.Some?
    ensures Wants(c, m) == Wants(c, n) ==> Wants(c, m) == []
  {
    hide AllNames;
    hide Me;
    if Wants(c, m) == Wants(c, n) && Wants(c, m) != [] {
      var s := Wants(c, m)[0];
      WantedService(c, m, s);
      WantedService(c, n, s);
      hide Wants;
      var x :| x in AllNames(c) && s == x + ".service" && PlacedAt(c, x, m);
      var y :| y in AllNames(c) && s == y + ".service" && PlacedAt(c, y, n);
      SameService(x, y);
      PlacedOnce(c, x, m, n);
    }
  }

  lemma PlainService(x: string)
    requires ' ' !in x
    ensures ' ' !in x + ".service" && x + ".service" != []
  {
  }

  lemma PlainWants(c: Cluster, name: string)
    requires NamesPlain(c) && c.MultiHost() && Me(c, name).Some? && Me(c, name).value.ssh.Some?
    ensures forall s :: s in Wants(c, name) ==> ' ' !in s && s != []
  {
    hide AllNames;
    hide Wants;
    hide Me;
    forall s | s in Wants(c, name)
      ensures ' ' !in s && s != []
    {
      WantedService(c, name, s);
      var x :| x in AllNames(c) && s == x + ".service" && PlacedAt(c, x, name);
      PlainService(x);
    }
  }

  /** Two entries of one machine agree exactly when they have one interface and run nothing. */
  lemma TwoAgree(text: Template, c: Cluster, m: string, n: string)
    requires Distinct(AllNames(c)) && NamesPlain(c) && AsWritten(text, c) && c.MultiHost() && m != n
    requires Me(c, m).Some? && Me(c, m).value.ssh.Some? && Me(c, n).Some? && Me(c, n).value.ssh.Some?
    ensures (forall p :: p in Render(c, m) && p in Render(c, n) ==> text(c, m, p) == text(c, n, p)) <==>
            Me(c, m).value.iface == Me(c, n).value.iface && Idle(c, m) && Idle(c, n)
  {
    hide Me;
    hide AllNames;
    hide NamesPlain;
    hide Wants;
    hide Idle;
    SameTargets(text, c, m, n);
    SameNetworks(text, c, m, n);
    IdleWantsNothing(c, m);
    IdleWantsNothing(c, n);
    SameWants(c, m, n);
    SystemdFiles(c, m);
    SystemdFiles(c, n);
    NetworkFile(c, m);
    NetworkFile(c, n);
    forall p | p in Render(c, m) && p in Render(c, n)
      ensures p in {NetworkFileOf(c), PolicyFileOf(c), TargetFileOf(c)}
    {
      OneHome(c, m, n, p);
    }
    hide Render;
  }

  lemma SameTargets(text: Template, c: Cluster, m: string, n: string)
    requires NamesPlain(c) && AsWritten(text, c) && c.MultiHost()
    requires Me(c, m).Some? && Me(c, m).value.ssh.Some? && Me(c, n).Some? && Me(c, n).value.ssh.Some?
    ensures text(c, m, TargetFileOf(c)) == text(c, n, TargetFileOf(c)) <==> Wants(c, m) == Wants(c, n)
  {
    PlainWants(c, m);
    PlainWants(c, n);
    hide Me;
    hide NamesPlain;
    var head: string, tail: string :| TargetAround(text, c, head, tail);
    hide Wants;
    hide Join;
    if text(c, m, TargetFileOf(c)) == text(c, n, TargetFileOf(c)) {
      Inside(head, tail, Join(Wants(c, m), ' '), Join(Wants(c, n), ' '));
      WantsReadBack(Wants(c, m), Wants(c, n));
    }
  }

  lemma SameNetworks(text: Template, c: Cluster, m: string, n: string)
    requires AsWritten(text, c) && Me(c, m).Some? && Me(c, n).Some?
    ensures text(c, m, NetworkFileOf(c)) == text(c, n, NetworkFileOf(c)) <==> Me(c, m).value.iface == Me(c, n).value.iface
  {
    hide Me;
    var head: string, mid: string, tail: string :| NetworkAround(text, c, head, mid, tail);
    if text(c, m, NetworkFileOf(c)) == text(c, n, NetworkFileOf(c)) {
      TwiceInside(head, mid, tail, Me(c, m).value.iface, Me(c, n).value.iface);
    }
  }

  // ---- the exact condition

  lemma EntryByName(c: Cluster, h: Host)
    requires c.MultiHost() && HostsConsistent(c.spec) && h in c.spec.hosts.value
    ensures Me(c, h.name) == Some(h) && (h.name, MachineOfEntry(h)) in NodeHosts(c)
  {
    var hosts := c.spec.hosts.value;
    SameByName(hosts, (x: Host) => x.name);
    var i :| 0 <= i < |hosts| && hosts[i] == h;
    assert NodeHosts(c)[i] == (h.name, MachineOfEntry(h));
  }

  lemma EntryHost(c: Cluster, hf: HostFiles)
    requires c.MultiHost() && hf in PerHost(c) && (hf.name, hf.machine) in NodeHosts(c)
    ensures exists h :: h in c.spec.hosts.value && h.name == hf.name && MachineOfEntry(h) == hf.machine
  {
    var i :| 0 <= i < |c.spec.hosts.value| && NodeHosts(c)[i] == (hf.name, hf.machine);
    assert c.spec.hosts.value[i] in c.spec.hosts.value;
  }

  lemma LocalIsOne(c: Cluster, g: Host, h: Host)
    requires c.MultiHost() && HostsConsistent(c.spec) && g in c.spec.hosts.value && h in c.spec.hosts.value && g.name != h.name
    ensures g.ssh.Some? || h.ssh.Some?
  {
  }

  /** Entries of different names on one machine are two with one ssh target. */
  lemma SharingEntries(c: Cluster, a: HostFiles, b: HostFiles) returns (g: Host, h: Host)
    requires HostsConsistent(c.spec) && (c.MultiHost() ==> forall x :: x in c.spec.hosts.value ==> x.ssh != Some(""))
    requires a in PerHost(c) && b in PerHost(c) && a.machine == b.machine && a.name != b.name
    ensures c.MultiHost() && g in c.spec.hosts.value && h in c.spec.hosts.value
    ensures g.name == a.name && h.name == b.name && g.ssh == h.ssh && g.ssh.Some?
  {
    EntryShape(c, a);
    EntryShape(c, b);
    SingleEntry(c, a, b);
    hide PerHost;
    hide NodeHosts;
    EntriesListed(c, a, b);
    EntryHost(c, a);
    EntryHost(c, b);
    g :| g in c.spec.hosts.value && g.name == a.name && MachineOfEntry(g) == a.machine;
    h :| h in c.spec.hosts.value && h.name == b.name && MachineOfEntry(h) == b.machine;
    LocalIsOne(c, g, h);
  }

  lemma SingleEntry(c: Cluster, a: HostFiles, b: HostFiles)
    requires a in PerHost(c) && b in PerHost(c) && a.name != b.name
    ensures c.MultiHost()
  {
    OneEntry(c);
    hide PerHost;
  }

  lemma OneEntry(c: Cluster)
    ensures !c.MultiHost() ==> PerHost(c) == [EntryFor(c, ("", OPERATOR))]
  {
    hide Render;
    hide Links;
    PerHostEntries(c);
    hide PerHost;
    assert !c.MultiHost() ==> ("", OPERATOR) in NodeHosts(c);
  }

  lemma EntriesListed(c: Cluster, a: HostFiles, b: HostFiles)
    requires a in PerHost(c) && b in PerHost(c) && a.machine == b.machine && a.name != b.name
    ensures (a.name, a.machine) in NodeHosts(c) && (b.name, b.machine) in NodeHosts(c)
  {
    EntryShape(c, a);
    EntryShape(c, b);
    hide Render;
    hide Links;
    hide NodeHosts;
    PerHostEntries(c);
    hide PerHost;
    ListedOrFallback(c, a);
    ListedOrFallback(c, b);
  }

  lemma ListedOrFallback(c: Cluster, hf: HostFiles)
    requires hf in PerHost(c)
    ensures (hf.name, hf.machine) in NodeHosts(c) || hf.name == "operator"
  {
    hide Render;
    hide Links;
    hide NodeHosts;
    PerHostEntries(c);
    hide PerHost;
    var entries := Map(NodeHosts(c), (nh: (string, HostId)) => EntryFor(c, nh));
    if hf in entries {
      var i :| 0 <= i < |entries| && entries[i] == hf;
      assert NodeHosts(c)[i] in NodeHosts(c);
    }
  }

  lemma AgreeIffIdle(text: Template, c: Cluster)
    requires HostsConsistent(c.spec) && (c.MultiHost() ==> forall h :: h in c.spec.hosts.value ==> h.ssh != Some(""))
    requires Distinct(AllNames(c)) && NamesPlain(c) && AsWritten(text, c)
    ensures Agree(text, c) <==> SharedAreIdle(c)
  {
    hide AllNames;
    hide NamesPlain;
    hide AsWritten;
    hide PerHost;
    hide Idle;
    hide NodeHosts;
    if SharedAreIdle(c) {
      forall a, b, p | a in PerHost(c) && b in PerHost(c) && a.machine == b.machine && p in a.files && p in b.files
        ensures text(c, a.name, p) == text(c, b.name, p)
      {
        if a.name != b.name {
          IdleAgree(text, c, a, b, p);
        }
      }
    }
    if Agree(text, c) && c.MultiHost() {
      forall g, h | g in c.spec.hosts.value && h in c.spec.hosts.value && g.name != h.name && g.ssh == h.ssh
        ensures g.iface == h.iface && Idle(c, g.name) && Idle(c, h.name)
      {
        AgreeIdle(text, c, g, h);
      }
    }
  }

  lemma IdleAgree(text: Template, c: Cluster, a: HostFiles, b: HostFiles, p: Path)
    requires HostsConsistent(c.spec) && (c.MultiHost() ==> forall h :: h in c.spec.hosts.value ==> h.ssh != Some(""))
    requires Distinct(AllNames(c)) && NamesPlain(c) && AsWritten(text, c) && SharedAreIdle(c)
    requires a in PerHost(c) && b in PerHost(c) && a.machine == b.machine && a.name != b.name && p in a.files && p in b.files
    ensures text(c, a.name, p) == text(c, b.name, p)
  {
    hide AllNames;
    hide NamesPlain;
    hide AsWritten;
    hide PerHost;
    hide Idle;
    hide NodeHosts;
    hide Render;
    var g, h := SharingEntries(c, a, b);
    EntryByName(c, g);
    EntryByName(c, h);
    hide Me;
    hide HostsConsistent;
    TwoAgree(text, c, a.name, b.name);
    EntryShape(c, a);
    EntryShape(c, b);
  }

  lemma AgreeIdle(text: Template, c: Cluster, g: Host, h: Host)
    requires HostsConsistent(c.spec) && c.MultiHost()
    requires Distinct(AllNames(c)) && NamesPlain(c) && AsWritten(text, c) && Agree(text, c)
    requires g in c.spec.hosts.value && h in c.spec.hosts.value && g.name != h.name && g.ssh == h.ssh
    ensures g.iface == h.iface && Idle(c, g.name) && Idle(c, h.name)
  {
    hide AllNames;
    hide NamesPlain;
    hide AsWritten;
    hide PerHost;
    hide Idle;
    hide NodeHosts;
    hide Render;
    hide Links;
    EntryByName(c, g);
    EntryByName(c, h);
    LocalIsOne(c, g, h);
    hide Me;
    hide HostsConsistent;
    var x, y := (g.name, MachineOfEntry(g)), (h.name, MachineOfEntry(h));
    EntryPresent(c, x);
    EntryPresent(c, y);
    TwoAgree(text, c, g.name, h.name);
    forall p | p in Render(c, g.name) && p in Render(c, h.name)
      ensures text(c, g.name, p) == text(c, h.name, p)
    {
      assert p in EntryFor(c, x).files && p in EntryFor(c, y).files;
    }
  }

  /** Rendered as the templates say, a cluster with host entries that share a machine: if those run
      nothing and leave by one interface, run makes done true from every state; otherwise no state is
      done. */
  lemma SharedDoneIff(text: Template, c: Cluster)
    requires HostsConsistent(c.spec) && (c.MultiHost() ==> forall h :: h in c.spec.hosts.value ==> h.ssh != Some(""))
    requires Distinct(AllNames(c)) && NamesPlain(c) && AsWritten(text, c)
    ensures SharedAreIdle(c) ==> forall d :: Done(text, c, Ran(text, c, d))
    ensures !SharedAreIdle(c) ==> forall d :: !Done(text, c, d)
  {
    hide AllNames;
    hide NamesPlain;
    hide AsWritten;
    hide Done;
    hide Ran;
    hide SharedAreIdle;
    hide Agree;
    AgreeIffIdle(text, c);
    DoneIffAgree(text, c);
  }
}
