/** What units.run leaves on every host, from any state before it: every file and link in its place,
    no stale cpu link, every unit on the host it is placed on. */
module UnitsHold {
  import opened Basics
  import opened Numbers
  import opened ClusterModel
  import opened Hosts
  import opened Sorting
  import opened Runner
  import opened Units

  lemma {:induction false} FlatIn<T>(parts: seq<seq<T>>, x: T)
    ensures x in Flat(parts) <==> exists i :: 0 <= i < |parts| && x in parts[i]
  {
    if parts != [] {
      var n := |parts| - 1;
      var before := parts[..n];
      FlatIn(before, x);
      if i :| 0 <= i < |before| && x in before[i] {
        assert x in parts[i];
      }
      if i :| 0 <= i < |parts| && x in parts[i] {
        assert i < n ==> x in before[i];
      }
    }
  }

  // ---- single batches of writes

  lemma {:induction false} PutsLook(d: Disks, m: HostId, ps: seq<Path>, e: Path -> Entry, h: HostId, p: Path)
    ensures Look(Do(d, Map(ps, (q: Path) => Put(m, q, e(q)))), h, p) == if h == m && p in ps then Some(e(p)) else Look(d, h, p)
  {
    var ws := Map(ps, (q: Path) => Put(m, q, e(q)));
    if ps == [] {
      assert ws == [];
    } else {
      var k := |ps| - 1;
      Snoc(ps);
      assert ws[..k] == Map(ps[..k], (q: Path) => Put(m, q, e(q)));
      PutsLook(d, m, ps[..k], e, h, p);
    }
  }

  lemma {:induction false} UnlinksLook(d: Disks, m: HostId, ps: seq<Path>, h: HostId, p: Path)
    ensures Look(Do(d, Map(ps, (q: Path) => Unlink(m, q))), h, p) == if h == m && p in ps then None else Look(d, h, p)
  {
    var ws := Map(ps, (q: Path) => Unlink(m, q));
    if ps == [] {
      assert ws == [];
    } else {
      var k := |ps| - 1;
      Snoc(ps);
      assert ws[..k] == Map(ps[..k], (q: Path) => Unlink(m, q));
      UnlinksLook(d, m, ps[..k], h, p);
    }
  }

  /** What a host's entry wants at a path, if anything. */
  function Wanted(text: Template, c: Cluster, hf: HostFiles, p: Path): Option<Entry> {
    if p in hf.links then Some(Link(LinkTarget(p)))
    else if p in hf.files then Some(File(text(c, hf.name, p)))
    else None
  }

  function OrElse<T>(a: Option<T>, b: Option<T>): Option<T> { if a.Some? then a else b }

  lemma WritesLook(d: Disks, text: Template, c: Cluster, hf: HostFiles, h: HostId, p: Path)
    ensures Look(Do(d, Writes(text, c, hf)), h, p) ==
            if h == hf.machine then OrElse(Wanted(text, c, hf, p), Look(d, h, p)) else Look(d, h, p)
  {
    var file, link := (q: Path) => File(text(c, hf.name, q)), (q: Path) => Link(LinkTarget(q));
    var a := Map(hf.files, (q: Path) => Put(hf.machine, q, file(q)));
    var b := Map(hf.links, (q: Path) => Put(hf.machine, q, link(q)));
    assert Writes(text, c, hf) == a + b;
    ExecAppend(Step, d, a, b);
    PutsLook(d, hf.machine, hf.files, file, h, p);
    PutsLook(Do(d, a), hf.machine, hf.links, link, h, p);
    hide Exec;
    hide Look;
  }

  ghost predicate Apart(hfs: seq<HostFiles>) {
    forall i, j :: 0 <= i < j < |hfs| ==> hfs[i].machine != hfs[j].machine
  }

  lemma {:induction false} AllWritesLook(d: Disks, text: Template, c: Cluster, hfs: seq<HostFiles>, h: HostId, p: Path)
    requires Apart(hfs)
    ensures var after := Look(Do(d, AllWrites(text, c, hfs)), h, p);
            && ((forall hf :: hf in hfs ==> hf.machine != h) ==> after == Look(d, h, p))
            && (forall hf :: hf in hfs && hf.machine == h ==> after == OrElse(Wanted(text, c, hf, p), Look(d, h, p)))
  {
    hide Exec;
    hide Look;
    hide Writes;
    hide Wanted;
    if hfs == [] {
      ExecNothing(Step, d);
    } else {
      var k := |hfs| - 1;
      Snoc(hfs);
      AllWritesLook(d, text, c, hfs[..k], h, p);
      ExecAppend(Step, d, AllWrites(text, c, hfs[..k]), Writes(text, c, hfs[k]));
      WritesLook(Do(d, AllWrites(text, c, hfs[..k])), text, c, hfs[k], h, p);
    }
  }

  // ---- the sweep

  /** A link on this host entry's machine that units.run takes away. */
  ghost predicate Stale(c: Cluster, name: string, p: Path) {
    p !in Links(c, name) && exists n :: n in NodesHere(c, name) && InNode0(p, c.name, n.name) && IsCpu(p.parts[4])
  }

  lemma Node0Path(p: Path, cluster: string, node: string)
    requires InNode0(p, cluster, node)
    ensures p == Node0(cluster, node, p.parts[4])
  {
    assert p.parts == p.parts[..4] + [p.parts[4]];
  }

  lemma StaleOfMeans(disk: Disk, c: Cluster, wanted: seq<Path>, n: Node, p: Path)
    ensures p in StaleOf(disk, c, wanted, n) <==>
            p in disk && InNode0(p, c.name, n.name) && IsCpu(p.parts[4]) && p !in wanted
  {
    var entries := Listing(Entries(disk, c.name, n.name));
    var stale := Filter(entries, (e: string) => IsCpu(e) && Node0(c.name, n.name, e) !in wanted);
    if p in StaleOf(disk, c, wanted, n) {
      var i :| 0 <= i < |stale| && Node0(c.name, n.name, stale[i]) == p;
      assert stale[i] in entries;
      var q :| q in disk && InNode0(q, c.name, n.name) && q.parts[4] == stale[i];
      Node0Path(q, c.name, n.name);
    }
    if p in disk && InNode0(p, c.name, n.name) && IsCpu(p.parts[4]) && p !in wanted {
      Node0Path(p, c.name, n.name);
      assert p.parts[4] in entries;
      assert p.parts[4] in stale;
      var i :| 0 <= i < |stale| && stale[i] == p.parts[4];
      assert StaleOf(disk, c, wanted, n)[i] == p;
    }
  }

  lemma StaleLinksMeans(disk: Disk, c: Cluster, name: string, p: Path)
    ensures p in StaleLinks(disk, c, name) <==> p in disk && Stale(c, name, p)
  {
    var nodes := NodesHere(c, name);
    var wanted := Links(c, name);
    var parts := Map(nodes, (n: Node) => StaleOf(disk, c, wanted, n));
    FlatIn(parts, p);
    hide NodesHere;
    hide Links;
    hide StaleOf;
    if p in StaleLinks(disk, c, name) {
      var i :| 0 <= i < |parts| && p in parts[i];
      StaleOfMeans(disk, c, wanted, nodes[i], p);
    }
    if p in disk && Stale(c, name, p) {
      var n :| n in nodes && InNode0(p, c.name, n.name) && IsCpu(p.parts[4]);
      var i :| 0 <= i < |nodes| && nodes[i] == n;
      StaleOfMeans(disk, c, wanted, n, p);
      assert p in parts[i];
    }
  }

  ghost predicate ApartHosts(nhs: seq<(string, HostId)>) {
    forall i, j :: 0 <= i < j < |nhs| ==> nhs[i].1 != nhs[j].1
  }

  lemma {:induction false} SweepLook(c: Cluster, d: Disks, nhs: seq<(string, HostId)>, h: HostId, p: Path)
    requires ApartHosts(nhs)
    ensures var after := Look(Do(d, Sweep(c, d, nhs)), h, p);
            && ((forall nh :: nh in nhs ==> nh.1 != h) ==> after == Look(d, h, p))
            && (forall nh :: nh in nhs && nh.1 == h ==> after == if Stale(c, nh.0, p) then None else Look(d, h, p))
  {
    hide Exec;
    hide Look;
    hide StaleLinks;
    hide Stale;
    if nhs == [] {
      ExecNothing(Step, d);
    } else {
      var k := |nhs| - 1;
      Snoc(nhs);
      var before := Sweep(c, d, nhs[..k]);
      SweepLook(c, d, nhs[..k], h, p);
      UnlinkStale(c, d, before, nhs[k], h, p);
    }
  }

  lemma UnlinkStale(c: Cluster, d: Disks, before: seq<Write>, nh: (string, HostId), h: HostId, p: Path)
    ensures var v := Do(d, before);
            var unlinks := Map(StaleLinks(DiskAt(v, nh.1), c, nh.0), (q: Path) => Unlink(nh.1, q));
            Look(Do(d, before + unlinks), h, p) == if h == nh.1 && Stale(c, nh.0, p) then None else Look(v, h, p)
  {
    hide Exec;
    hide StaleLinks;
    hide Stale;
    var v := Do(d, before);
    var stale := StaleLinks(DiskAt(v, nh.1), c, nh.0);
    ExecAppend(Step, d, before, Map(stale, (q: Path) => Unlink(nh.1, q)));
    UnlinksLook(v, nh.1, stale, h, p);
    StaleLinksMeans(DiskAt(v, nh.1), c, nh.0, p);
  }

  // ---- the whole run

  /** The file passes its validator, its routers can be derived and its hosts are different machines. */
  ghost predicate Sound(c: Cluster) {
    HostsConsistent(c.spec) && c.Routers().Some? && HostsApart(c)
  }

  function EntryFor(c: Cluster, nh: (string, HostId)): HostFiles { HostFiles(nh.0, nh.1, Render(c, nh.0), Links(c, nh.0)) }

  lemma PerHostEntries(c: Cluster)
    ensures PerHost(c) == Map(NodeHosts(c), (nh: (string, HostId)) => EntryFor(c, nh)) +
                          if forall nh :: nh in NodeHosts(c) ==> nh.1 != OPERATOR then [HostFiles("operator", OPERATOR, Render(c, "operator"), [])] else []
  {
    hide Render;
    hide Links;
    hide NodeHosts;
    var nhs := NodeHosts(c);
    var out := Map(nhs, (nh: (string, HostId)) => EntryFor(c, nh));
    assert out == Map(nhs, (nh: (string, HostId)) => HostFiles(nh.0, nh.1, Render(c, nh.0), Links(c, nh.0)));
    forall nh | nh in nhs
      ensures EntryFor(c, nh) in out
    {
      MapIn(nhs, (x: (string, HostId)) => EntryFor(c, x), nh);
    }
    if hf :| hf in out && hf.machine == OPERATOR {
      var i :| 0 <= i < |out| && out[i] == hf;
      assert nhs[i] in nhs;
    }
  }

  lemma PerHostIs(c: Cluster)
    requires Sound(c)
    ensures Apart(PerHost(c)) && ApartHosts(NodeHosts(c))
    ensures |PerHost(c)| >= |NodeHosts(c)|
    ensures forall i :: 0 <= i < |NodeHosts(c)| ==> PerHost(c)[i] == EntryFor(c, NodeHosts(c)[i])
    ensures |PerHost(c)| == |NodeHosts(c)| || (
              && |PerHost(c)| == |NodeHosts(c)| + 1
              && PerHost(c)[|NodeHosts(c)|] == HostFiles("operator", OPERATOR, Render(c, "operator"), [])
              && forall nh :: nh in NodeHosts(c) ==> nh.1 != OPERATOR)
    ensures |PerHost(c)| == |NodeHosts(c)| ==> exists nh :: nh in NodeHosts(c) && nh.1 == OPERATOR
  {
    hide PerHost;
    hide Render;
    hide Links;
    hide NodeHosts;
    hide Sound;
    PerHostEntries(c);
    NodeHostsApart(c);
    forall i, j | 0 <= i < j < |PerHost(c)|
      ensures PerHost(c)[i].machine != PerHost(c)[j].machine
    {
      assert NodeHosts(c)[i] in NodeHosts(c);
    }
  }

  lemma NodeHostsApart(c: Cluster)
    requires Sound(c)
    ensures ApartHosts(NodeHosts(c))
  {
    MachinesDistinct(c);
    hide HostsConsistent;
    hide NodeHosts;
  }

  /** What every path on every machine holds after the run. */
  lemma RunMeans(text: Template, c: Cluster, d: Disks, hf: HostFiles, p: Path)
    requires Sound(c) && hf in PerHost(c)
    ensures Look(Ran(text, c, d), hf.machine, p) ==
            if Wanted(text, c, hf, p).Some? then Wanted(text, c, hf, p)
            else if (hf.name, hf.machine) in NodeHosts(c) && Stale(c, hf.name, p) then None
            else Look(d, hf.machine, p)
  {
    hide Exec;
    hide Look;
    hide Stale;
    hide Sweep;
    hide AllWrites;
    hide Sound;
    hide PerHost;
    hide NodeHosts;
    hide Render;
    hide Links;
    if Wanted(text, c, hf, p).Some? {
      WantedIsNotStale(text, c, hf, p);
    }
    hide Wanted;
    PerHostIs(c);
    var writes := AllWrites(text, c, PerHost(c));
    var v := Do(d, writes);
    ExecAppend(Step, d, writes, Sweep(c, v, NodeHosts(c)));
    AllWritesLook(d, text, c, PerHost(c), hf.machine, p);
    SweepLook(c, v, NodeHosts(c), hf.machine, p);
    var i :| 0 <= i < |PerHost(c)| && PerHost(c)[i] == hf;
    if i < |NodeHosts(c)| {
      assert NodeHosts(c)[i] == (hf.name, hf.machine);
      assert NodeHosts(c)[i] in NodeHosts(c);
    }
  }

  /** Machines the cluster has no entry for are left as they are. */
  lemma RunElsewhere(text: Template, c: Cluster, d: Disks, h: HostId, p: Path)
    requires Sound(c) && forall hf :: hf in PerHost(c) ==> hf.machine != h
    ensures Look(Ran(text, c, d), h, p) == Look(d, h, p)
  {
    hide Exec;
    hide Look;
    hide Sweep;
    hide AllWrites;
    hide Sound;
    PerHostIs(c);
    hide PerHost;
    hide NodeHosts;
    var writes := AllWrites(text, c, PerHost(c));
    var v := Do(d, writes);
    ExecAppend(Step, d, writes, Sweep(c, v, NodeHosts(c)));
    AllWritesLook(d, text, c, PerHost(c), h, p);
    forall nh | nh in NodeHosts(c)
      ensures nh.1 != h
    {
      var i :| 0 <= i < |NodeHosts(c)| && NodeHosts(c)[i] == nh;
      assert PerHost(c)[i] in PerHost(c);
    }
    SweepLook(c, v, NodeHosts(c), h, p);
  }

  // ---- links and files never meet

  lemma RenderIn(c: Cluster, name: string, p: Path)
    ensures p in Render(c, name) <==>
            || (p == UnitDir(c.name, c.name + ".network") && (Me(c, name).Some? || !c.MultiHost()))
            || (exists r :: r in RoutersHere(c, name) && p in RouterFiles(c.name, r))
            || (p == State(c.name, ["logs", "apiserver", "audit-policy.yaml"]) && Me(c, name).Some?)
            || (exists n :: n in NodesHere(c, name) && p in UnitFiles(c, n))
            || p == Systemd(c.name + ".target")
            || (p == Systemd(c.name + "-routes.service") && (Me(c, name).None? || Me(c, name).value.ssh.None?))
  {
    hide Me;
    hide RouterFiles;
    hide UnitFiles;
    hide NodesHere;
    hide RoutersHere;
    hide Flat;
    FlatMapIn(RoutersHere(c, name), (r: Router) => RouterFiles(c.name, r), p);
    FlatMapIn(NodesHere(c, name), (n: Node) => UnitFiles(c, n), p);
  }

  lemma FlatMapIn<T, U>(s: seq<T>, f: T -> seq<U>, u: U)
    ensures u in Flat(Map(s, f)) <==> exists x :: x in s && u in f(x)
  {
    FlatIn(Map(s, f), u);
    if x :| x in s && u in f(x) {
      var i :| 0 <= i < |s| && s[i] == x;
      assert u in Map(s, f)[i];
    }
  }

  lemma LinksIn(c: Cluster, name: string, p: Path)
    ensures p in Links(c, name) <==> Sized(c) && exists n :: n in NodesHere(c, name) && p in NodeLinks(c.name, n)
  {
    hide NodeLinks;
    FlatMapIn(NodesHere(c, name), (n: Node) => NodeLinks(c.name, n), p);
  }

  lemma NodeLinksMean(cluster: string, n: Node, p: Path)
    ensures p in NodeLinks(cluster, n) <==>
            exists i: nat :: i < n.cpu && p == Node0(cluster, n.name, "cpu" + Decimal(i))
  {
    if i: nat :| i < n.cpu && p == Node0(cluster, n.name, "cpu" + Decimal(i)) {
      assert NodeLinks(cluster, n)[i] == p;
    }
  }

  predicate CpuPath(p: Path) { p.State? && |p.parts| == 5 && IsCpu(p.parts[4]) }

  /** No rendered file has the name of a cpu link. */
  lemma FilesAreNotCpus(c: Cluster, name: string, p: Path)
    requires p in Render(c, name)
    ensures !CpuPath(p)
  {
    RenderIn(c, name, p);
    NotCpus();
    hide Render;
    hide RoutersHere;
    hide NodesHere;
    hide IsCpu;
  }

  lemma NotCpus()
    ensures !IsCpu("cpulist") && !IsCpu("cpumap") && !IsCpu("distance") && !IsCpu("meminfo")
  {
    assert "cpulist"[3] == 'l' && "cpumap"[3] == 'm';
    assert "distance"[..3] != "cpu" by { assert "distance"[..3][0] == 'd'; }
    assert "meminfo"[..3] != "cpu" by { assert "meminfo"[..3][0] == 'm'; }
  }

  /** A path a stale link has is no wanted one. */
  lemma StaleUnwanted(text: Template, c: Cluster, hf: HostFiles, p: Path)
    requires hf in PerHost(c) && Sound(c) && (hf.name, hf.machine) in NodeHosts(c) && Stale(c, hf.name, p)
    ensures Wanted(text, c, hf, p) == None
  {
    PerHostIs(c);
    EntryOf(c, hf);
    assert CpuPath(p);
    hide CpuPath;
    if p in Render(c, hf.name) {
      FilesAreNotCpus(c, hf.name, p);
    }
    hide PerHost;
    hide Render;
    hide Links;
  }

  lemma EntryOf(c: Cluster, hf: HostFiles)
    requires Sound(c) && hf in PerHost(c)
    ensures hf.files == Render(c, hf.name) && (forall p :: p in hf.links ==> p in Links(c, hf.name))
    ensures (hf.name, hf.machine) in NodeHosts(c) ==> hf.links == Links(c, hf.name)
    ensures (hf.name, hf.machine) !in NodeHosts(c) ==> hf.links == [] && hf.machine == OPERATOR && hf.name == "operator"
  {
    PerHostIs(c);
    hide PerHost;
    hide Render;
    hide Links;
    hide NodeHosts;
    hide Sound;
    var i :| 0 <= i < |PerHost(c)| && PerHost(c)[i] == hf;
    if i < |NodeHosts(c)| {
      assert NodeHosts(c)[i] == (hf.name, hf.machine);
      assert NodeHosts(c)[i] in NodeHosts(c);
    } else {
      assert (hf.name, hf.machine) !in NodeHosts(c);
    }
  }

  /** units.run makes units.done true, whatever the hosts held before. */
  lemma RunEstablishesDone(text: Template, c: Cluster, d: Disks)
    requires Sound(c)
    ensures Done(text, c, Ran(text, c, d))
  {
    hide Ran;
    hide PerHost;
    hide NodeHosts;
    hide Look;
    hide Sound;
    hide StaleLinks;
    hide Stale;
    hide Links;
    hide Render;
    var v := Ran(text, c, d);
    forall hf | hf in PerHost(c)
      ensures Holds(text, c, v, hf)
    {
      EntryOf(c, hf);
      forall p | p in hf.files || p in hf.links
        ensures Look(v, hf.machine, p) == Wanted(text, c, hf, p)
        ensures p in hf.files ==> p !in hf.links
      {
        RunMeans(text, c, d, hf, p);
        WantedIsNotStale(text, c, hf, p);
      }
    }
    forall nh | nh in NodeHosts(c)
      ensures StaleLinks(DiskAt(v, nh.1), c, nh.0) == []
    {
      NothingStale(text, c, d, nh);
    }
  }

  ghost predicate SameLook(v: Disks, d: Disks) { forall h, p :: Look(v, h, p) == Look(d, h, p) }

  lemma {:induction false} DoneSame(text: Template, c: Cluster, v: Disks, d: Disks)
    requires SameLook(v, d) && Done(text, c, v)
    ensures Done(text, c, d)
  {
    hide PerHost;
    hide NodeHosts;
    hide Render;
    hide Links;
    hide StaleLinks;
    forall hf | hf in PerHost(c)
      ensures Holds(text, c, d, hf)
    {
      assert Holds(text, c, v, hf);
    }
    if Sized(c) {
      forall nh | nh in NodeHosts(c)
        ensures StaleLinks(DiskAt(d, nh.1), c, nh.0) == []
      {
        NoneStale(c, v, d, nh);
      }
    }
  }

  lemma NoneStale(c: Cluster, v: Disks, d: Disks, nh: (string, HostId))
    requires SameLook(v, d) && StaleLinks(DiskAt(v, nh.1), c, nh.0) == []
    ensures StaleLinks(DiskAt(d, nh.1), c, nh.0) == []
  {
    hide StaleLinks;
    hide Stale;
    var left := StaleLinks(DiskAt(d, nh.1), c, nh.0);
    forall p | p in DiskAt(d, nh.1)
      ensures p in DiskAt(v, nh.1)
    {
      assert Look(v, nh.1, p) == Look(d, nh.1, p);
    }
    if left != [] {
      StaleLinksMeans(DiskAt(d, nh.1), c, nh.0, left[0]);
      StaleLinksMeans(DiskAt(v, nh.1), c, nh.0, left[0]);
    }
  }

  /** units.done says exactly that units.run would change nothing; on a cluster whose nodes are not
      sized it lets pass, besides, cpu entries that a run would remove. */
  lemma DoneIffUnchanged(text: Template, c: Cluster, d: Disks)
    requires Sound(c)
    ensures SameLook(Ran(text, c, d), d) ==> Done(text, c, d)
    ensures Done(text, c, d) ==> forall h, p :: Look(Ran(text, c, d), h, p) in {None, Look(d, h, p)}
    ensures Done(text, c, d) && Sized(c) ==> SameLook(Ran(text, c, d), d)
  {
    hide Ran;
    hide Sound;
    if SameLook(Ran(text, c, d), d) {
      RunEstablishesDone(text, c, d);
      DoneSame(text, c, Ran(text, c, d), d);
    }
    hide Done;
    hide Look;
    if Done(text, c, d) {
      forall h, p
        ensures Look(Ran(text, c, d), h, p) in {None, Look(d, h, p)}
        ensures Sized(c) ==> Look(Ran(text, c, d), h, p) == Look(d, h, p)
      {
        UnchangedAt(text, c, d, h, p);
      }
    }
  }

  lemma UnchangedAt(text: Template, c: Cluster, d: Disks, h: HostId, p: Path)
    requires Sound(c) && Done(text, c, d)
    ensures Look(Ran(text, c, d), h, p) in {None, Look(d, h, p)}
    ensures Sized(c) ==> Look(Ran(text, c, d), h, p) == Look(d, h, p)
  {
    hide Ran;
    hide Sound;
    hide Look;
    hide PerHost;
    hide NodeHosts;
    hide StaleLinks;
    hide Stale;
    if hf :| hf in PerHost(c) && hf.machine == h {
      RunMeans(text, c, d, hf, p);
      assert Holds(text, c, d, hf);
      if Sized(c) && (hf.name, hf.machine) in NodeHosts(c) {
        assert StaleLinks(DiskAt(d, hf.machine), c, hf.name) == [];
        StaleLinksMeans(DiskAt(d, hf.machine), c, hf.name, p);
        NotThere(d, hf.machine, p);
      }
    } else {
      RunElsewhere(text, c, d, h, p);
    }
  }

  lemma NotThere(d: Disks, h: HostId, p: Path)
    ensures p !in DiskAt(d, h) ==> Look(d, h, p).None?
  {
  }

  lemma WantedIsNotStale(text: Template, c: Cluster, hf: HostFiles, p: Path)
    requires Sound(c) && hf in PerHost(c) && (p in hf.files || p in hf.links)
    ensures (hf.name, hf.machine) in NodeHosts(c) ==> !Stale(c, hf.name, p)
    ensures p in hf.files ==> p !in hf.links
  {
    hide PerHost;
    hide NodeHosts;
    hide Sound;
    EntryOf(c, hf);
    hide Render;
    hide Links;
    hide Stale;
    if (hf.name, hf.machine) in NodeHosts(c) && Stale(c, hf.name, p) {
      StaleUnwanted(text, c, hf, p);
      assert false;
    }
    if p in hf.files {
      FilesAreNotCpus(c, hf.name, p);
      LinksAreCpus(c, hf.name, p);
    }
  }

  lemma LinksAreCpus(c: Cluster, name: string, p: Path)
    ensures p in Links(c, name) ==> CpuPath(p)
  {
    LinksIn(c, name, p);
    hide Links;
    hide NodesHere;
    if p in Links(c, name) {
      var n :| n in NodesHere(c, name) && p in NodeLinks(c.name, n);
      NodeLinksMean(c.name, n, p);
      var i: nat :| i < n.cpu && p == Node0(c.name, n.name, "cpu" + Decimal(i));
      CpuName(i);
    }
  }

  lemma CpuName(i: nat)
    ensures IsCpu("cpu" + Decimal(i))
  {
    DecimalDigits(i);
    var e := "cpu" + Decimal(i);
    assert e[..3] == "cpu";
    forall j | 3 <= j < |e|
      ensures '0' <= e[j] <= '9'
    {
      assert e[j] == Decimal(i)[j - 3];
      assert Decimal(i)[j - 3] in Decimal(i);
    }
  }

  lemma NothingStale(text: Template, c: Cluster, d: Disks, nh: (string, HostId))
    requires Sound(c) && nh in NodeHosts(c)
    ensures StaleLinks(DiskAt(Ran(text, c, d), nh.1), c, nh.0) == []
  {
    hide Ran;
    hide NodeHosts;
    hide Sound;
    hide StaleLinks;
    hide Stale;
    hide Links;
    hide Render;
    PerHostIs(c);
    hide PerHost;
    var v := Ran(text, c, d);
    var i :| 0 <= i < |NodeHosts(c)| && NodeHosts(c)[i] == nh;
    var hf := PerHost(c)[i];
    var stale := StaleLinks(DiskAt(v, nh.1), c, nh.0);
    if stale != [] {
      StaleLinksMeans(DiskAt(v, nh.1), c, nh.0, stale[0]);
      StaleUnwanted(text, c, hf, stale[0]);
      RunMeans(text, c, d, hf, stale[0]);
      assert false;
    }
  }

  // ---- where a unit is rendered

  function AllNames(c: Cluster): seq<string> { NodeNames(c.spec.nodes) + Map(RoutersOf(c), (r: Router) => r.name) }

  /** The one case in which the operator gets a second copy: it runs no node itself, and the container
      is placed on another machine that goes by the name operator. */
  predicate Twice(c: Cluster, x: string) {
    c.MultiHost() && (forall h :: h in c.spec.hosts.value ==> h.ssh.Some?) && HostOf(c, x) == Some("operator")
  }

  lemma NameMatters(c: Cluster, x: string, y: string)
    ensures NodeUnit(c.name, x) == NodeUnit(c.name, y) ==> x == y
    ensures NodeUnit(c.name, x) != UnitDir(c.name, c.name + ".network")
  {
    var a, b := x + ".container", y + ".container";
    assert a[|a| - 10..] == ".container" && b[|b| - 10..] == ".container";
    assert x == a[..|a| - 10] && y == b[..|b| - 10];
    var e := c.name + ".network";
    assert a[|a| - 1] == 'r' && e[|e| - 1] == 'k';
  }

  lemma UnitPlaced(c: Cluster, name: string, x: string)
    requires Distinct(AllNames(c)) && x in AllNames(c)
    ensures NodeUnit(c.name, x) in Render(c, name) <==> Here(c, HostOf(c, x), name)
  {
    var p := NodeUnit(c.name, x);
    RenderIn(c, name, p);
    UnitOfNode(c, name, x);
    UnitOfRouter(c, name, x);
    NameMatters(c, x, x);
    Placed(c, x);
    hide Render;
    hide HostOf;
    hide RouterFiles;
    hide UnitFiles;
    hide NodesHere;
    hide RoutersHere;
  }

  lemma UnitOfNode(c: Cluster, name: string, x: string)
    ensures (exists n :: n in NodesHere(c, name) && NodeUnit(c.name, x) in UnitFiles(c, n)) <==>
            exists n :: n in c.spec.nodes && n.name == x && Here(c, n.host, name)
  {
    forall n
      ensures NodeUnit(c.name, x) in UnitFiles(c, n) <==> n.name == x
    {
      NameMatters(c, x, n.name);
    }
    hide UnitFiles;
    hide Here;
  }

  lemma UnitOfRouter(c: Cluster, name: string, x: string)
    ensures (exists r :: r in RoutersHere(c, name) && NodeUnit(c.name, x) in RouterFiles(c.name, r)) <==>
            exists r :: r in RoutersOf(c) && r.name == x && Here(c, r.host, name)
  {
    forall r
      ensures NodeUnit(c.name, x) in RouterFiles(c.name, r) <==> r.name == x
    {
      NameMatters(c, x, r.name);
    }
    hide RouterFiles;
    hide Here;
    hide RoutersOf;
  }

  /** Names are distinct, so host_of finds the one node or router of that name. */
  lemma Placed(c: Cluster, x: string)
    requires Distinct(AllNames(c)) && x in AllNames(c)
    ensures forall n :: n in c.spec.nodes && n.name == x ==> HostOf(c, x) == n.host
    ensures forall r :: r in RoutersOf(c) && r.name == x ==> HostOf(c, x) == r.host
    ensures (exists n :: n in c.spec.nodes && n.name == x) || exists r :: r in RoutersOf(c) && r.name == x
  {
    NamesApart(c);
    hide RoutersOf;
    var nodes, routers := c.spec.nodes, RoutersOf(c);
    var names := AllNames(c);
    var k :| 0 <= k < |names| && names[k] == x;
    if k < |nodes| {
      assert nodes[k] in nodes;
    } else {
      assert routers[k - |nodes|] in routers;
    }
    hide AllNames;
  }

  lemma NamesApart(c: Cluster)
    requires Distinct(AllNames(c))
    ensures forall m, n :: m in c.spec.nodes && n in c.spec.nodes && m.name == n.name ==> m == n
    ensures forall q, r :: q in RoutersOf(c) && r in RoutersOf(c) && q.name == r.name ==> q == r
    ensures forall n, r :: n in c.spec.nodes && r in RoutersOf(c) ==> n.name != r.name
  {
    hide RoutersOf;
    var nodes, routers := c.spec.nodes, RoutersOf(c);
    DistinctParts(NodeNames(nodes), Map(routers, (r: Router) => r.name));
    SameByName(nodes, (n: Node) => n.name);
    SameByName(routers, (r: Router) => r.name);
    forall n, r | n in nodes && r in routers
      ensures n.name != r.name
    {
      MapIn(nodes, (x: Node) => x.name, n);
      MapIn(routers, (x: Router) => x.name, r);
    }
  }

  lemma SameByName<T>(s: seq<T>, f: T -> string)
    requires Distinct(Map(s, f))
    ensures forall m, n :: m in s && n in s && f(m) == f(n) ==> m == n
  {
    forall m, n | m in s && n in s && f(m) == f(n)
      ensures m == n
    {
      var i :| 0 <= i < |s| && s[i] == m;
      var j :| 0 <= j < |s| && s[j] == n;
      assert Map(s, f)[i] == Map(s, f)[j];
    }
  }

  function RenderedOn(c: Cluster, x: string): seq<HostId> {
    Map(Filter(PerHost(c), (hf: HostFiles) => NodeUnit(c.name, x) in hf.files), (hf: HostFiles) => hf.machine)
  }

  /** The unit of every node and router is rendered on the machine it is placed on and on no other,
      but for a host entry called operator while the operator runs no node. */
  lemma RenderedOnce(c: Cluster, x: string)
    requires Sound(c) && Distinct(AllNames(c)) && x in AllNames(c)
    ensures RenderedOn(c, x) == [MachineOf(c, x)] + if Twice(c, x) then [OPERATOR] else []
  {
    var i := HomeIndex(c, x);
    RenderedThere(c, x, i);
    NoLocalMeans(c);
    hide Render;
    hide Links;
    hide Sound;
    hide HostOf;
    hide MachineOf;
    hide AllNames;
    PerHostIs(c);
    hide PerHost;
    hide NodeHosts;
    RenderedAmong(c, x, i, |NodeHosts(c)|);
    hide RenderedOn;
  }

  lemma RenderedAmong(c: Cluster, x: string, i: nat, n: nat)
    requires i < n <= |PerHost(c)| <= n + 1
    requires forall j :: 0 <= j < n ==> (NodeUnit(c.name, x) in PerHost(c)[j].files <==> j == i)
    ensures RenderedOn(c, x) == [PerHost(c)[i].machine] +
            if |PerHost(c)| > n && NodeUnit(c.name, x) in PerHost(c)[n].files then [PerHost(c)[n].machine] else []
  {
    hide PerHost;
    FilterOneThen(PerHost(c), (hf: HostFiles) => NodeUnit(c.name, x) in hf.files, i, n);
  }

  lemma FilterOneThen<T>(s: seq<T>, p: T -> bool, i: nat, n: nat)
    requires i < n <= |s| <= n + 1 && forall j :: 0 <= j < n ==> p(s[j]) == (j == i)
    ensures Filter(s, p) == [s[i]] + if |s| > n && p(s[n]) then [s[n]] else []
  {
    if |s| == n {
      FilterOnly(s, p, i);
    } else {
      FilterOnly(s[..n], p, i);
      Snoc(s);
      FilterAppend(s[..n], [s[n]], p);
    }
  }

  lemma RenderedThere(c: Cluster, x: string, i: nat)
    requires Sound(c) && Distinct(AllNames(c)) && x in AllNames(c) && i < |NodeHosts(c)|
    requires forall j :: 0 <= j < |NodeHosts(c)| ==> (Here(c, HostOf(c, x), NodeHosts(c)[j].0) <==> j == i)
    ensures |PerHost(c)| >= |NodeHosts(c)|
    ensures forall j :: 0 <= j < |NodeHosts(c)| ==> (NodeUnit(c.name, x) in PerHost(c)[j].files <==> j == i)
    ensures |PerHost(c)| > |NodeHosts(c)| ==>
              (NodeUnit(c.name, x) in PerHost(c)[|NodeHosts(c)|].files <==> Here(c, HostOf(c, x), "operator"))
  {
    hide Render;
    hide Links;
    hide Sound;
    hide HostOf;
    hide Here;
    hide AllNames;
    PerHostIs(c);
    hide PerHost;
    hide NodeHosts;
    forall j | 0 <= j < |NodeHosts(c)|
      ensures NodeUnit(c.name, x) in PerHost(c)[j].files <==> Here(c, HostOf(c, x), NodeHosts(c)[j].0)
    {
      UnitPlaced(c, NodeHosts(c)[j].0, x);
    }
    UnitPlaced(c, "operator", x);
  }

  lemma NoLocalMeans(c: Cluster)
    requires Sound(c)
    ensures (forall nh :: nh in NodeHosts(c) ==> nh.1 != OPERATOR) <==>
            c.MultiHost() && forall h :: h in c.spec.hosts.value ==> h.ssh.Some?
  {
    if c.MultiHost() {
      var hosts := c.spec.hosts.value;
      forall h | h in hosts
        ensures (h.name, MachineOfEntry(h)) in NodeHosts(c)
      {
        var i :| 0 <= i < |hosts| && hosts[i] == h;
        assert NodeHosts(c)[i] == (h.name, MachineOfEntry(h));
      }
      forall nh | nh in NodeHosts(c)
        ensures exists h :: h in hosts && nh == (h.name, MachineOfEntry(h))
      {
        var i :| 0 <= i < |hosts| && NodeHosts(c)[i] == nh;
        assert hosts[i] in hosts;
      }
    } else {
      assert ("", OPERATOR) in NodeHosts(c);
    }
  }

  /** The entry of the host a container is placed on. */
  lemma HomeIndex(c: Cluster, x: string) returns (i: nat)
    requires Sound(c) && Distinct(AllNames(c)) && x in AllNames(c)
    ensures i < |NodeHosts(c)| && NodeHosts(c)[i].1 == MachineOf(c, x)
    ensures forall j :: 0 <= j < |NodeHosts(c)| ==> (Here(c, HostOf(c, x), NodeHosts(c)[j].0) <==> j == i)
    ensures c.MultiHost() ==> HostOf(c, x).Some? && HostOf(c, x).value == NodeHosts(c)[i].0
  {
    Placed(c, x);
    MachinesDistinct(c);
    PlacedOnListed(c, x);
    if !c.MultiHost() {
      i := 0;
    } else {
      var hosts := c.spec.hosts.value;
      i :| 0 <= i < |hosts| && Names(hosts)[i] == HostOf(c, x).value;
      EntryMachine(c, hosts[i]);
    }
  }

  lemma PlacedOnListed(c: Cluster, x: string)
    requires Sound(c) && Distinct(AllNames(c)) && x in AllNames(c)
    ensures if c.MultiHost() then HostOf(c, x).Some? && HostOf(c, x).value in Names(c.spec.hosts.value) else HostOf(c, x).None?
  {
    Placed(c, x);
    hide HostOf;
    if n :| n in c.spec.nodes && n.name == x {
    } else {
      var r :| r in RoutersOf(c) && r.name == x;
      RouterListed(c, r);
    }
  }

  lemma RouterListed(c: Cluster, r: Router)
    requires HostsConsistent(c.spec) && r in RoutersOf(c)
    ensures if c.MultiHost() then r.host.Some? && r.host.value in Names(c.spec.hosts.value) else r.host.None?
  {
  }

  /** Another machine goes by the name operator, and the operator runs no node. */
  predicate OperatorElsewhere(c: Cluster) {
    c.MultiHost() && (forall h :: h in c.spec.hosts.value ==> h.ssh.Some?) && exists h :: h in c.spec.hosts.value && h.name == "operator"
  }

  lemma MeIs(c: Cluster, name: string)
    requires Sound(c)
    ensures c.MultiHost() && name in Names(c.spec.hosts.value) <==> Me(c, name).Some?
    ensures (name, OPERATOR) in NodeHosts(c) && c.MultiHost() ==> Me(c, name).Some? && Me(c, name).value.ssh.None?
    ensures forall m :: (name, m) in NodeHosts(c) && m != OPERATOR ==> Me(c, name).Some? && Me(c, name).value.ssh.Some?
  {
    if c.MultiHost() {
      var hosts := c.spec.hosts.value;
      if name in Names(hosts) {
        var i :| 0 <= i < |hosts| && Names(hosts)[i] == name;
        assert hosts[i] in hosts;
      }
      if Me(c, name).Some? {
        MapIn(hosts, (h: Host) => h.name, Me(c, name).value);
      }
      forall m | (name, m) in NodeHosts(c)
        ensures Me(c, name).Some? && m == MachineOfEntry(Me(c, name).value)
      {
        var i :| 0 <= i < |hosts| && NodeHosts(c)[i] == (name, m);
        assert hosts[i] in hosts;
        SameByName(hosts, (h: Host) => h.name);
      }
      forall h | h in hosts
        ensures MachineOfEntry(h) == OPERATOR <==> h.ssh.None?
      {
      }
    }
  }

  /** Every host gets a target; the node hosts get a network; the routes unit goes to the operator
      alone, unless another machine goes by its name: then no host gets one. */
  lemma EveryHostGets(c: Cluster, hf: HostFiles)
    requires Sound(c) && hf in PerHost(c)
    ensures Systemd(c.name + ".target") in hf.files
    ensures UnitDir(c.name, c.name + ".network") in hf.files <==>
            (hf.name, hf.machine) in NodeHosts(c) || OperatorElsewhere(c)
    ensures Systemd(c.name + "-routes.service") in hf.files <==> hf.machine == OPERATOR && !OperatorElsewhere(c)
  {
    hide Render;
    hide PerHost;
    hide NodeHosts;
    hide Me;
    hide Sound;
    hide OperatorElsewhere;
    EntryOf(c, hf);
    MeIs(c, hf.name);
    OperatorEntry(c, hf);
    NetworkFile(c, hf.name);
    SystemdFiles(c, hf.name);
  }

  lemma SystemdFiles(c: Cluster, name: string)
    ensures Systemd(c.name + ".target") in Render(c, name)
    ensures Systemd(c.name + "-routes.service") in Render(c, name) <==> Me(c, name).None? || Me(c, name).value.ssh.None?
  {
    hide Render;
    hide Me;
    hide RouterFiles;
    hide UnitFiles;
    hide NodesHere;
    hide RoutersHere;
    var a, b := c.name + ".target", c.name + "-routes.service";
    assert a[|a| - 1] == 't' && b[|b| - 1] == 'e';
    RenderIn(c, name, Systemd(a));
    RenderIn(c, name, Systemd(b));
    NoSystemdFiles(c);
  }

  lemma NoSystemdFiles(c: Cluster)
    ensures forall r, f :: Systemd(f) !in RouterFiles(c.name, r)
    ensures forall n, f :: Systemd(f) !in UnitFiles(c, n)
  {
  }

  lemma FallbackEntry(c: Cluster, hf: HostFiles)
    requires Sound(c) && hf in PerHost(c) && (hf.name, hf.machine) !in NodeHosts(c)
    ensures forall nh :: nh in NodeHosts(c) ==> nh.1 != OPERATOR
  {
    hide Render;
    hide Links;
    PerHostIs(c);
    hide PerHost;
    hide NodeHosts;
    hide Sound;
    forall i | 0 <= i < |NodeHosts(c)|
      ensures PerHost(c)[i] != hf
    {
      assert NodeHosts(c)[i] in NodeHosts(c);
    }
  }

  lemma OperatorEntry(c: Cluster, hf: HostFiles)
    requires Sound(c) && hf in PerHost(c)
    ensures c.MultiHost() && (hf.name, hf.machine) !in NodeHosts(c) ==> (Me(c, hf.name).Some? <==> OperatorElsewhere(c))
    ensures c.MultiHost() && (hf.name, hf.machine) !in NodeHosts(c) && Me(c, hf.name).Some? ==> Me(c, hf.name).value.ssh.Some?
    ensures !c.MultiHost() ==> hf.machine == OPERATOR && (hf.name, hf.machine) in NodeHosts(c) && Me(c, hf.name).None?
    ensures (hf.name, hf.machine) in NodeHosts(c) && hf.machine == OPERATOR ==> !OperatorElsewhere(c)
  {
    hide Render;
    hide Links;
    hide HostsConsistent;
    hide Cluster.Routers;
    EntryOf(c, hf);
    PerHostIs(c);
    NoLocalMeans(c);
    if c.MultiHost() && (hf.name, hf.machine) !in NodeHosts(c) {
      FallbackEntry(c, hf);
    }
  }

  lemma NetworkIsNoUnit(c: Cluster)
    ensures forall r :: UnitDir(c.name, c.name + ".network") !in RouterFiles(c.name, r)
    ensures forall n :: UnitDir(c.name, c.name + ".network") !in UnitFiles(c, n)
  {
    forall x
      ensures NodeUnit(c.name, x) != UnitDir(c.name, c.name + ".network")
    {
      NameMatters(c, x, x);
    }
    hide NodeUnit;
  }

  lemma NetworkFile(c: Cluster, name: string)
    ensures UnitDir(c.name, c.name + ".network") in Render(c, name) <==> Me(c, name).Some? || !c.MultiHost()
  {
    hide Render;
    hide Me;
    hide RouterFiles;
    hide UnitFiles;
    hide NodesHere;
    hide RoutersHere;
    RenderIn(c, name, UnitDir(c.name, c.name + ".network"));
    NetworkIsNoUnit(c);
  }

  /** The files a node mounts go to its own host and no other, when nodes are sized. */
  lemma NodeFilesPlaced(c: Cluster, name: string, n: Node, p: Path)
    requires Distinct(AllNames(c)) && n in c.spec.nodes && p in NodeFiles(c.name, n.name)
    ensures p in Render(c, name) <==> Sized(c) && Here(c, n.host, name)
  {
    hide Render;
    hide Me;
    hide Here;
    hide NodeFiles;
    hide RouterFiles;
    hide UnitFiles;
    RenderIn(c, name, p);
    NodeFileShape(c.name, n.name, p);
    forall m | m in c.spec.nodes
      ensures p in UnitFiles(c, m) <==> m == n && Sized(c)
    {
      MountedBy(c, m, n, p);
    }
    forall r | r in RoutersHere(c, name)
      ensures p !in RouterFiles(c.name, r)
    {
      RouterDirs(c, r, p);
    }
    hide RoutersHere;
    hide AllNames;
  }

  lemma NodeFileShape(cluster: string, node: string, p: Path)
    requires p in NodeFiles(cluster, node)
    ensures p.State? && p.cluster == cluster && |p.parts| >= 3 && p.parts[0] == "nodes" && p.parts[1] == node
  {
  }

  lemma MountedBy(c: Cluster, m: Node, n: Node, p: Path)
    requires Distinct(AllNames(c)) && m in c.spec.nodes && n in c.spec.nodes && p in NodeFiles(c.name, n.name)
    ensures p in UnitFiles(c, m) <==> m == n && Sized(c)
  {
    hide NodeFiles;
    NodeFileShape(c.name, n.name, p);
    if p in NodeFiles(c.name, m.name) {
      NodeFileShape(c.name, m.name, p);
      SameNode(c, m, n);
    }
    hide AllNames;
  }

  lemma RouterDirs(c: Cluster, r: Router, p: Path)
    requires r in RoutersOf(c) && p.State? && p.parts != [] && p.parts[0] == "nodes"
    ensures p !in RouterFiles(c.name, r)
  {
    assert r.dir[0] == 'r' && "nodes"[0] == 'n';
    hide RoutersOf;
  }

  // ---- the cpus a node sees

  /** The entry of the host a node is placed on. */
  lemma HomeEntry(c: Cluster, n: Node) returns (hf: HostFiles)
    requires Sound(c) && Distinct(AllNames(c)) && n in c.spec.nodes
    ensures hf in PerHost(c) && (hf.name, hf.machine) in NodeHosts(c) && hf.machine == MachineOf(c, n.name)
    ensures n in NodesHere(c, hf.name)
  {
    hide Render;
    hide Links;
    hide AllNames;
    hide HostOf;
    NameListed(c, n);
    var i := HomeIndex(c, n.name);
    Placed(c, n.name);
    PerHostIs(c);
    hide PerHost;
    hide NodeHosts;
    hide Sound;
    hide MachineOf;
    hf := PerHost(c)[i];
    assert NodeHosts(c)[i] in NodeHosts(c);
  }

  /** After the run the cpu entries of a sized node's fake NUMA node are exactly cpu0 to cpu(k-1),
      each the link to the real one, whatever was there before (leading zeros included). */
  lemma CpuEntriesExact(text: Template, c: Cluster, d: Disks, n: Node, e: string)
    requires Sound(c) && Distinct(AllNames(c)) && Sized(c) && n in c.spec.nodes && IsCpu(e)
    ensures Look(Ran(text, c, d), MachineOf(c, n.name), Node0(c.name, n.name, e)) ==
            if exists i: nat :: i < n.cpu && e == "cpu" + Decimal(i) then Some(Link(SYSFS_CPU + e)) else None
  {
    hide Ran;
    hide Look;
    hide Sound;
    hide Stale;
    hide Render;
    hide Links;
    hide IsCpu;
    hide PerHost;
    hide NodeHosts;
    hide MachineOf;
    hide AllNames;
    var hf := HomeEntry(c, n);
    var p := Node0(c.name, n.name, e);
    EntryOf(c, hf);
    RunMeans(text, c, d, hf, p);
    CpuWanted(c, hf.name, n, e);
    CpuStale(c, hf.name, n, e);
    hide NodesHere;
  }

  lemma CpuStale(c: Cluster, name: string, n: Node, e: string)
    requires n in NodesHere(c, name) && IsCpu(e)
    ensures var p := Node0(c.name, n.name, e); p !in Render(c, name) && (Stale(c, name, p) <==> p !in Links(c, name))
  {
    hide Render;
    hide Links;
    hide NodesHere;
    hide IsCpu;
    var p := Node0(c.name, n.name, e);
    assert InNode0(p, c.name, n.name);
    if p in Render(c, name) {
      FilesAreNotCpus(c, name, p);
      assert false;
    }
  }

  lemma NameListed(c: Cluster, n: Node)
    requires n in c.spec.nodes
    ensures n.name in AllNames(c)
  {
    var i :| 0 <= i < |c.spec.nodes| && c.spec.nodes[i] == n;
    assert AllNames(c)[i] == n.name;
  }

  lemma CpuWanted(c: Cluster, name: string, n: Node, e: string)
    requires Distinct(AllNames(c)) && Sized(c) && n in NodesHere(c, name)
    ensures Node0(c.name, n.name, e) in Links(c, name) <==> exists i: nat :: i < n.cpu && e == "cpu" + Decimal(i)
  {
    var p := Node0(c.name, n.name, e);
    LinksIn(c, name, p);
    hide Links;
    NodeLinksMean(c.name, n, p);
    if p in Links(c, name) {
      var m :| m in NodesHere(c, name) && p in NodeLinks(c.name, m);
      NodeLinksMean(c.name, m, p);
      var i: nat :| i < m.cpu && p == Node0(c.name, m.name, "cpu" + Decimal(i));
      assert p.parts[1] == n.name && p.parts[1] == m.name && p.parts[4] == e;
      SameNode(c, m, n);
    }
    if i: nat :| i < n.cpu && e == "cpu" + Decimal(i) {
      assert p == Node0(c.name, n.name, "cpu" + Decimal(i));
    }
  }

  lemma SameNode(c: Cluster, m: Node, n: Node)
    requires Distinct(AllNames(c)) && m in c.spec.nodes && n in c.spec.nodes && m.name == n.name
    ensures m == n
  {
    var i :| 0 <= i < |c.spec.nodes| && c.spec.nodes[i] == m;
    var j :| 0 <= j < |c.spec.nodes| && c.spec.nodes[j] == n;
    assert AllNames(c)[i] == AllNames(c)[j];
  }

  /** Whatever is neither rendered nor a stale cpu link of one of the host's nodes stays. */
  lemma RunTouchesOnlyItsOwn(text: Template, c: Cluster, d: Disks, h: HostId, p: Path)
    requires Sound(c)
    requires forall hf :: hf in PerHost(c) && hf.machine == h ==> p !in hf.files && p !in hf.links
    requires forall nh :: nh in NodeHosts(c) && nh.1 == h ==> !Stale(c, nh.0, p)
    ensures Look(Ran(text, c, d), h, p) == Look(d, h, p)
  {
    hide Ran;
    hide Look;
    hide Sound;
    hide PerHost;
    hide NodeHosts;
    hide Stale;
    if hf :| hf in PerHost(c) && hf.machine == h {
      RunMeans(text, c, d, hf, p);
    } else {
      RunElsewhere(text, c, d, h, p);
    }
  }
}
