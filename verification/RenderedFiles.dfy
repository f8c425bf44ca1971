/** What units.run leaves below a node's and a router's directory, path by path (create/units.py,
    create/nodefs.py), and where the audit policy goes. */
module RenderedFiles {
  import opened Basics
  import opened Numbers
  import opened ClusterModel
  import opened Hosts
  import opened Units
  import opened UnitsHold

  /** A file that rendering c puts there, whatever the hosts held before; from empty disks nothing else
      is there but links. */
  ghost predicate Written(text: Template, c: Cluster, h: HostId, p: Path) {
    && (exists m :: forall d :: Look(Ran(text, c, d), h, p) == Some(File(text(c, m, p))))
    && Look(Ran(text, c, map[]), h, p).Some?
  }

  /** Nothing is written there: what is not a stale link stays, and nothing appears. */
  ghost predicate Unwritten(text: Template, c: Cluster, h: HostId, p: Path) {
    && Look(Ran(text, c, map[]), h, p).None?
    && forall d :: Look(Ran(text, c, d), h, p) in {None, Look(d, h, p)}
  }

  lemma RenderedIsWritten(text: Template, c: Cluster, hf: HostFiles, p: Path)
    requires Sound(c) && hf in PerHost(c)
    ensures p in Render(c, hf.name) ==> Written(text, c, hf.machine, p)
    ensures p !in Render(c, hf.name) && p !in hf.links ==> Unwritten(text, c, hf.machine, p)
  {
    hide Ran;
    hide PerHost;
    hide NodeHosts;
    hide Sound;
    hide Render;
    hide Links;
    hide Look;
    EntryOf(c, hf);
    if p in hf.files {
      WantedIsNotStale(text, c, hf, p);
      forall d
        ensures Look(Ran(text, c, d), hf.machine, p) == Some(File(text(c, hf.name, p)))
      {
        RunMeans(text, c, d, hf, p);
      }
    } else if p !in hf.links {
      forall d
        ensures Look(Ran(text, c, d), hf.machine, p) in {None, Look(d, hf.machine, p)}
      {
        RunMeans(text, c, d, hf, p);
        hide Stale;
      }
      NothingYet(hf.machine, p);
    }
  }

  lemma NothingYet(h: HostId, p: Path)
    ensures Look(map[], h, p).None?
  {
  }

  // ---- a node's directory

  /** What a sized node mounts of its directory. */
  const NODE_FILES: set<seq<string>> := {
    ["meminfo"],
    ["kubelet-reserved.conf"],
    ["kubelet-config-dir.conf"],
    ["sys-node", "node0", "cpulist"],
    ["sys-node", "node0", "cpumap"],
    ["sys-node", "node0", "distance"],
    ["sys-node", "node0", "meminfo"],
    ["sys-node", "node0", "hugepages", "hugepages-2048kB", "nr_hugepages"],
    ["sys-node", "node0", "hugepages", "hugepages-1048576kB", "nr_hugepages"]}

  /** On a sized cluster a node's directory gets, on the node's own machine, exactly its nine files and
      its cpu links; on an unsized one nothing. */
  lemma NodeDirectory(text: Template, c: Cluster, n: Node, rest: seq<string>)
    requires Sound(c) && Distinct(AllNames(c)) && n in c.spec.nodes
    ensures var p := State(c.name, ["nodes", n.name] + rest);
            var h := MachineOf(c, n.name);
            if Sized(c) && rest in NODE_FILES then
              Written(text, c, h, p)
            else
              || Unwritten(text, c, h, p)
              || (Sized(c) && exists i: nat :: i < n.cpu && rest == ["sys-node", "node0", "cpu" + Decimal(i)]
                                               && forall d :: Look(Ran(text, c, d), h, p) == Some(Link("/sys/devices/system/cpu/cpu" + Decimal(i))))
  {
    hide Sound;
    hide PerHost;
    hide NodeHosts;
    hide MachineOf;
    hide AllNames;
    hide Ran;
    hide Look;
    hide Written;
    hide Unwritten;
    hide Sized;
    hide NodesHere;
    var hf := HomeEntry(c, n);
    NodeDirectoryAt(text, c, n, hf, rest);
  }

  lemma NodeDirectoryAt(text: Template, c: Cluster, n: Node, hf: HostFiles, rest: seq<string>)
    requires Sound(c) && Distinct(AllNames(c)) && n in NodesHere(c, hf.name) && hf in PerHost(c)
    ensures var p := State(c.name, ["nodes", n.name] + rest);
            if Sized(c) && rest in NODE_FILES then Written(text, c, hf.machine, p)
            else
              || Unwritten(text, c, hf.machine, p)
              || (Sized(c) && exists i: nat :: i < n.cpu && rest == ["sys-node", "node0", "cpu" + Decimal(i)]
                                               && forall d :: Look(Ran(text, c, d), hf.machine, p) == Some(Link("/sys/devices/system/cpu/cpu" + Decimal(i))))
  {
    hide Sound;
    hide PerHost;
    hide AllNames;
    hide Ran;
    hide Look;
    hide Written;
    hide Unwritten;
    hide Sized;
    hide Render;
    hide Links;
    var p := State(c.name, ["nodes", n.name] + rest);
    EntryOf(c, hf);
    InDirectory(c, hf.name, n, rest);
    RenderedIsWritten(text, c, hf, p);
    if p in hf.links {
      var i := LinkHere(c, hf.name, n, rest);
      LinkWritten(text, c, hf, p, i);
    }
  }

  lemma LinkHere(c: Cluster, name: string, n: Node, rest: seq<string>) returns (i: nat)
    requires Distinct(AllNames(c)) && n in NodesHere(c, name) && State(c.name, ["nodes", n.name] + rest) in Links(c, name)
    ensures Sized(c) && i < n.cpu && rest == ["sys-node", "node0", "cpu" + Decimal(i)]
  {
    var p := State(c.name, ["nodes", n.name] + rest);
    LinksIn(c, name, p);
    hide Links;
    var m :| m in NodesHere(c, name) && p in NodeLinks(c.name, m);
    NodeLinksMean(c.name, m, p);
    i :| 0 <= i < m.cpu && p == Node0(c.name, m.name, "cpu" + Decimal(i));
    assert p.parts[1] == m.name && p.parts[1] == n.name;
    SameNode(c, m, n);
    assert p.parts[2..] == rest;
  }

  lemma LinkWritten(text: Template, c: Cluster, hf: HostFiles, p: Path, i: nat)
    requires Sound(c) && hf in PerHost(c) && p in hf.links && p.State? && p.parts != []
    requires p.parts[|p.parts| - 1] == "cpu" + Decimal(i)
    ensures forall d :: Look(Ran(text, c, d), hf.machine, p) == Some(Link("/sys/devices/system/cpu/cpu" + Decimal(i)))
  {
    hide Ran;
    hide Look;
    hide Sound;
    hide PerHost;
    forall d
      ensures Look(Ran(text, c, d), hf.machine, p) == Some(Link("/sys/devices/system/cpu/cpu" + Decimal(i)))
    {
      RunMeans(text, c, d, hf, p);
      assert SYSFS_CPU + ("cpu" + Decimal(i)) == "/sys/devices/system/cpu/cpu" + Decimal(i);
    }
  }

  /** Which paths of the directory are rendered at the entry the node is placed on. */
  lemma InDirectory(c: Cluster, name: string, n: Node, rest: seq<string>)
    requires Distinct(AllNames(c)) && n in c.spec.nodes && Here(c, n.host, name)
    ensures State(c.name, ["nodes", n.name] + rest) in Render(c, name) <==>
            Sized(c) && rest in NODE_FILES
  {
    var p := State(c.name, ["nodes", n.name] + rest);
    RestOf(c, n.name, rest);
    OnlyNodeFiles(c, name, n, p);
    hide NodeFiles;
    if p in NodeFiles(c.name, n.name) {
      NodeFilesPlaced(c, name, n, p);
    }
    hide Render;
  }

  lemma RestOf(c: Cluster, node: string, rest: seq<string>)
    ensures State(c.name, ["nodes", node] + rest) in NodeFiles(c.name, node) <==> rest in NODE_FILES
  {
    var p := State(c.name, ["nodes", node] + rest);
    hide NodeFiles;
    if p in NodeFiles(c.name, node) {
      NodeFileRest(c.name, node, p);
      assert p.parts[2..] == rest;
    }
    if rest in NODE_FILES {
      NodeFileHere(c.name, node, rest);
    }
  }

  lemma NodeFileHere(cluster: string, node: string, rest: seq<string>)
    requires rest in NODE_FILES
    ensures State(cluster, ["nodes", node] + rest) in NodeFiles(cluster, node)
  {
    if |rest| == 1 {
      assert ["nodes", node] + rest == ["nodes", node, rest[0]];
    } else if |rest| == 3 {
      assert ["nodes", node] + rest == ["nodes", node, rest[0], rest[1], rest[2]];
    } else {
      assert ["nodes", node] + rest == ["nodes", node, rest[0], rest[1], rest[2], rest[3], rest[4]];
    }
  }

  lemma NodeFileRest(cluster: string, node: string, p: Path)
    requires p in NodeFiles(cluster, node)
    ensures p.State? && |p.parts| >= 2 && p.parts[2..] in NODE_FILES
  {
  }

  lemma OnlyNodeFiles(c: Cluster, name: string, n: Node, p: Path)
    requires Distinct(AllNames(c)) && n in c.spec.nodes && InNodeDirectory(c, n, p)
    ensures p in Render(c, name) ==> p in NodeFiles(c.name, n.name)
  {
    RenderIn(c, name, p);
    hide Render;
    hide Me;
    if r :| r in RoutersHere(c, name) && p in RouterFiles(c.name, r) {
      RouterDirs(c, r, p);
      assert false;
    }
    if m :| m in NodesHere(c, name) && p in UnitFiles(c, m) {
      NodeFileShape(c.name, m.name, p);
      SameNode(c, m, n);
    }
    hide NodeFiles;
    hide RouterFiles;
  }

  predicate InNodeDirectory(c: Cluster, n: Node, p: Path) {
    p.State? && p.cluster == c.name && |p.parts| >= 2 && p.parts[0] == "nodes" && p.parts[1] == n.name
  }

  /** On any machine but the node's own nothing is written below its directory. */
  lemma NodeDirectoryElsewhere(text: Template, c: Cluster, n: Node, hf: HostFiles, p: Path)
    requires Sound(c) && Distinct(AllNames(c)) && n in c.spec.nodes && InNodeDirectory(c, n, p)
    requires hf in PerHost(c) && !Here(c, n.host, hf.name)
    ensures Unwritten(text, c, hf.machine, p)
  {
    hide Sound;
    hide PerHost;
    hide NodeHosts;
    hide AllNames;
    hide Unwritten;
    hide Written;
    EntryOf(c, hf);
    OnlyNodeFiles(c, hf.name, n, p);
    NoLinkElsewhere(c, hf.name, n, p);
    hide NodeFiles;
    if p in NodeFiles(c.name, n.name) {
      NodeFilesPlaced(c, hf.name, n, p);
    }
    hide Render;
    hide Links;
    RenderedIsWritten(text, c, hf, p);
  }

  lemma NoLinkElsewhere(c: Cluster, name: string, n: Node, p: Path)
    requires Distinct(AllNames(c)) && n in c.spec.nodes && InNodeDirectory(c, n, p) && !Here(c, n.host, name)
    ensures p !in Links(c, name)
  {
    LinksIn(c, name, p);
    hide Links;
    if m :| m in NodesHere(c, name) && p in NodeLinks(c.name, m) {
      NodeLinksMean(c.name, m, p);
      var i: nat :| i < m.cpu && p == Node0(c.name, m.name, "cpu" + Decimal(i));
      assert p.parts[1] == m.name;
      SameNode(c, m, n);
      assert Here(c, m.host, name);
    }
  }

  // ---- a router's directory

  const ROUTER_FILES: set<seq<string>> := {
    ["tkctl.boot"],
    ["scripts", "vyos-preconfig-bootup.script"],
    ["scripts", "vyos-postconfig-bootup.script"]}

  /** A router's directory gets exactly its three files on the router's own machine. */
  lemma RouterDirectory(text: Template, c: Cluster, r: Router, rest: seq<string>)
    requires Sound(c) && Distinct(AllNames(c)) && r in RoutersOf(c)
    ensures var p := State(c.name, [r.dir] + rest);
            if rest in ROUTER_FILES then Written(text, c, MachineOf(c, r.name), p) else Unwritten(text, c, MachineOf(c, r.name), p)
  {
    hide Sound;
    hide PerHost;
    hide NodeHosts;
    hide MachineOf;
    hide AllNames;
    hide Written;
    hide Unwritten;
    hide RoutersOf;
    var hf := RouterEntry(c, r);
    RouterDirectoryAt(text, c, r, hf, rest);
  }

  /** And nothing anywhere else. */
  lemma RouterDirectoryElsewhere(text: Template, c: Cluster, r: Router, hf: HostFiles, rest: seq<string>)
    requires Sound(c) && Distinct(AllNames(c)) && r in RoutersOf(c) && hf in PerHost(c) && !Here(c, r.host, hf.name)
    ensures Unwritten(text, c, hf.machine, State(c.name, [r.dir] + rest))
  {
    RouterDirectoryAt(text, c, r, hf, rest);
  }

  /** The entry of the host a router is placed on. */
  lemma RouterEntry(c: Cluster, r: Router) returns (hf: HostFiles)
    requires Sound(c) && Distinct(AllNames(c)) && r in RoutersOf(c)
    ensures hf in PerHost(c) && hf.machine == MachineOf(c, r.name) && Here(c, r.host, hf.name)
  {
    hide Render;
    hide Links;
    hide HostOf;
    hide RoutersOf;
    RouterNamed(c, r);
    var i := HomeIndex(c, r.name);
    Placed(c, r.name);
    hide AllNames;
    PerHostIs(c);
    hide PerHost;
    hide NodeHosts;
    hide Sound;
    hide MachineOf;
    hf := PerHost(c)[i];
  }

  lemma RouterNamed(c: Cluster, r: Router)
    requires r in RoutersOf(c)
    ensures r.name in AllNames(c)
  {
    hide RoutersOf;
    MapIn(RoutersOf(c), (x: Router) => x.name, r);
  }

  lemma RouterDirectoryAt(text: Template, c: Cluster, r: Router, hf: HostFiles, rest: seq<string>)
    requires Sound(c) && Distinct(AllNames(c)) && r in RoutersOf(c) && hf in PerHost(c)
    ensures var p := State(c.name, [r.dir] + rest);
            if Here(c, r.host, hf.name) && rest in ROUTER_FILES then Written(text, c, hf.machine, p)
            else Unwritten(text, c, hf.machine, p)
  {
    hide Sound;
    hide PerHost;
    hide NodeHosts;
    hide AllNames;
    hide Written;
    hide Unwritten;
    hide Here;
    var p := State(c.name, [r.dir] + rest);
    EntryOf(c, hf);
    InRouterDirectory(c, hf.name, r, rest);
    hide RoutersOf;
    NoRouterLinks(c, hf.name, r, rest);
    hide Render;
    hide Links;
    RenderedIsWritten(text, c, hf, p);
  }

  lemma NoRouterLinks(c: Cluster, name: string, r: Router, rest: seq<string>)
    requires r in RoutersOf(c)
    ensures State(c.name, [r.dir] + rest) !in Links(c, name)
  {
    var p := State(c.name, [r.dir] + rest);
    LinksIn(c, name, p);
    hide Links;
    assert p.parts[0] == r.dir && r.dir[0] == 'r' && "nodes"[0] == 'n';
    hide RoutersOf;
    hide NodesHere;
    forall m | m in NodesHere(c, name)
      ensures p !in NodeLinks(c.name, m)
    {
      NodeLinksMean(c.name, m, p);
    }
  }

  lemma InRouterDirectory(c: Cluster, name: string, r: Router, rest: seq<string>)
    requires Distinct(AllNames(c)) && r in RoutersOf(c)
    ensures State(c.name, [r.dir] + rest) in Render(c, name) <==> Here(c, r.host, name) && rest in ROUTER_FILES
  {
    var p := State(c.name, [r.dir] + rest);
    assert p.parts[0] == r.dir && p.parts[1..] == rest;
    RenderIn(c, name, p);
    RouterDirIsOwn(c, r);
    hide Render;
    hide Me;
    hide Here;
    hide AllNames;
    RouterRest(c, r, rest);
    forall q | q in RoutersHere(c, name) && p in RouterFiles(c.name, q)
      ensures q == r
    {
      RouterFileDir(c, q, p);
    }
    hide RoutersOf;
    forall m | m in NodesHere(c, name)
      ensures p !in UnitFiles(c, m)
    {
      if p in NodeFiles(c.name, m.name) {
        NodeFileShape(c.name, m.name, p);
      }
      hide NodeFiles;
    }
    hide NodesHere;
    hide RouterFiles;
  }

  lemma RouterDirIsOwn(c: Cluster, r: Router)
    requires r in RoutersOf(c)
    ensures r.dir != "nodes" && r.dir != "logs"
    ensures forall q :: q in RoutersOf(c) && q.dir == r.dir ==> q == r
  {
    assert r.dir[0] == 'r' && "nodes"[0] == 'n' && "logs"[0] == 'l';
  }

  lemma RouterFileDir(c: Cluster, r: Router, p: Path)
    requires p in RouterFiles(c.name, r) && p.State?
    ensures p.cluster == c.name && p.parts != [] && p.parts[0] == r.dir
  {
  }

  lemma RouterRest(c: Cluster, r: Router, rest: seq<string>)
    ensures State(c.name, [r.dir] + rest) in RouterFiles(c.name, r) <==> rest in ROUTER_FILES
  {
    var p := State(c.name, [r.dir] + rest);
    assert p.parts[1..] == rest;
    if rest in ROUTER_FILES {
      if |rest| == 1 {
        assert p.parts == [r.dir, rest[0]];
      } else {
        assert p.parts == [r.dir, rest[0], rest[1]];
      }
    }
  }

  // ---- everything else

  /** The audit policy goes to every host of a cluster on several hosts, and nothing else goes below
      logs. */
  lemma PolicyFile(text: Template, c: Cluster, hf: HostFiles, rest: seq<string>)
    requires Sound(c) && hf in PerHost(c)
    ensures var p := State(c.name, ["logs"] + rest);
            if rest == ["apiserver", "audit-policy.yaml"] && c.MultiHost() && exists h :: h in c.spec.hosts.value && h.name == hf.name then
              Written(text, c, hf.machine, p)
            else Unwritten(text, c, hf.machine, p)
  {
    hide Sound;
    hide PerHost;
    hide Render;
    hide Links;
    hide Written;
    hide Unwritten;
    hide Me;
    EntryOf(c, hf);
    InLogs(c, hf.name, rest);
    MeListed(c, hf.name);
    RenderedIsWritten(text, c, hf, State(c.name, ["logs"] + rest));
  }

  lemma InLogs(c: Cluster, name: string, rest: seq<string>)
    ensures var p := State(c.name, ["logs"] + rest);
            && p !in Links(c, name)
            && (p in Render(c, name) <==> rest == ["apiserver", "audit-policy.yaml"] && Me(c, name).Some?)
  {
    hide Me;
    var p := State(c.name, ["logs"] + rest);
    assert p.parts[0] == "logs" && p.parts[1..] == rest;
    assert rest == ["apiserver", "audit-policy.yaml"] ==> p.parts == ["logs", "apiserver", "audit-policy.yaml"];
    RenderIn(c, name, p);
    LinksIn(c, name, p);
    hide Render;
    hide Links;
    hide RoutersHere;
    hide NodesHere;
    hide UnitFiles;
    hide RouterFiles;
    hide NodeLinks;
    RoutersLog(c, name, p);
    NodesLog(c, name, p);
  }

  lemma RoutersLog(c: Cluster, name: string, p: Path)
    requires p.State? && p.parts != [] && p.parts[0] == "logs"
    ensures forall r :: r in RoutersHere(c, name) ==> p !in RouterFiles(c.name, r)
  {
    forall r | r in RoutersHere(c, name)
      ensures p !in RouterFiles(c.name, r)
    {
      if p in RouterFiles(c.name, r) {
        RouterFileDir(c, r, p);
        RouterDirIsOwn(c, r);
      }
    }
    hide RoutersOf;
  }

  lemma NodesLog(c: Cluster, name: string, p: Path)
    requires p.State? && p.parts != [] && p.parts[0] == "logs"
    ensures forall m :: m in NodesHere(c, name) ==> p !in UnitFiles(c, m) && p !in NodeLinks(c.name, m)
  {
    forall m | m in NodesHere(c, name)
      ensures p !in UnitFiles(c, m) && p !in NodeLinks(c.name, m)
    {
      NodeLinksMean(c.name, m, p);
      if p in NodeFiles(c.name, m.name) {
        NodeFileShape(c.name, m.name, p);
      }
      hide NodeFiles;
    }
    hide NodesHere;
  }

  lemma MeListed(c: Cluster, name: string)
    ensures Me(c, name).Some? <==> c.MultiHost() && exists h :: h in c.spec.hosts.value && h.name == name
  {
  }

  /** No path outside the cluster's own is ever written: its unit directory gets the network and one
      unit for each of its containers, systemd its target and routes unit, its state directory nothing
      but nodes, logs and the routers' directories. */
  predicate OwnPath(c: Cluster, p: Path) {
    match p
    case UnitDir(cluster, file) => cluster == c.name && (file == c.name + ".network" || exists x :: x in AllNames(c) && file == x + ".container")
    case Systemd(file) => file == c.name + ".target" || file == c.name + "-routes.service"
    case State(cluster, parts) =>
      cluster == c.name && parts != [] && (parts[0] == "nodes" || parts[0] == "logs" || exists r :: r in RoutersOf(c) && parts[0] == r.dir)
  }

  lemma NothingElse(text: Template, c: Cluster, hf: HostFiles, p: Path)
    requires Sound(c) && hf in PerHost(c) && !OwnPath(c, p)
    ensures Unwritten(text, c, hf.machine, p)
  {
    EntryOf(c, hf);
    RenderIn(c, hf.name, p);
    LinksIn(c, hf.name, p);
    hide Sound;
    hide PerHost;
    hide Render;
    hide Links;
    hide Unwritten;
    hide Me;
    forall r | r in RoutersHere(c, hf.name)
      ensures p !in RouterFiles(c.name, r)
    {
      RouterOwnPaths(c, r, p);
    }
    forall m | m in NodesHere(c, hf.name)
      ensures p !in UnitFiles(c, m) && p !in NodeLinks(c.name, m)
    {
      NodeOwnPaths(c, m, p);
    }
    hide OwnPath;
    hide NodesHere;
    hide RoutersHere;
    hide UnitFiles;
    hide RouterFiles;
    hide NodeLinks;
    RenderedIsWritten(text, c, hf, p);
  }

  lemma RouterOwnPaths(c: Cluster, r: Router, p: Path)
    requires r in RoutersOf(c)
    ensures p in RouterFiles(c.name, r) ==> OwnPath(c, p)
  {
    RouterNamed(c, r);
    hide RoutersOf;
    hide AllNames;
  }

  lemma NodeOwnPaths(c: Cluster, m: Node, p: Path)
    requires m in c.spec.nodes
    ensures p in UnitFiles(c, m) || p in NodeLinks(c.name, m) ==> OwnPath(c, p)
  {
    NameListed(c, m);
    NodeLinksMean(c.name, m, p);
    if p in NodeFiles(c.name, m.name) {
      NodeFileShape(c.name, m.name, p);
    }
    hide NodeFiles;
    hide RoutersOf;
    hide AllNames;
  }
}
