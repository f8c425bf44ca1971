/** The rendered state of every host (create/units.py, the links of create/nodefs.py): which host gets
    which file, and what writing them leaves behind. What a template says is a parameter. */
module Units {
  import opened Basics
  import opened Numbers
  import opened Text
  import opened ClusterModel
  import opened Hosts
  import opened Sorting
  import opened Runner

  /** A file of a cluster: below its state directory, in its unit directory, or among systemd's. */
  datatype Path =
    | State(cluster: string, parts: seq<string>)
    | UnitDir(cluster: string, file: string)
    | Systemd(file: string)

  datatype Entry = File(text: string) | Link(target: string)

  type Disk = map<Path, Entry>

  type Disks = map<HostId, Disk>

  /** What render puts into a file of this cluster on the host of this name. */
  type Template = (Cluster, string, Path) -> string

  function DiskAt(d: Disks, h: HostId): Disk { if h in d then d[h] else map[] }

  function Look(d: Disks, h: HostId, p: Path): Option<Entry> {
    if p in DiskAt(d, h) then Some(DiskAt(d, h)[p]) else None
  }

  datatype Write = Put(h: HostId, path: Path, entry: Entry) | Unlink(h: HostId, path: Path)

  function Step(d: Disks, w: Write): Disks {
    match w
    case Put(h, p, e) => d[h := DiskAt(d, h)[p := e]]
    case Unlink(h, p) => d[h := DiskAt(d, h) - {p}]
  }

  function Do(d: Disks, ws: seq<Write>): Disks { Exec(Step, d, ws) }

  // ---- which files a host gets

  const SYSFS_CPU := "/sys/devices/system/cpu/"

  function Node0(cluster: string, node: string, entry: string): Path {
    State(cluster, ["nodes", node, "sys-node", "node0", entry])
  }

  function NodeUnit(cluster: string, container: string): Path { UnitDir(cluster, container + ".container") }

  /** nodefs.files, in write order. */
  function NodeFiles(cluster: string, node: string): seq<Path> {
    [State(cluster, ["nodes", node, "meminfo"]),
     State(cluster, ["nodes", node, "kubelet-reserved.conf"]),
     State(cluster, ["nodes", node, "kubelet-config-dir.conf"]),
     Node0(cluster, node, "cpulist"),
     Node0(cluster, node, "cpumap"),
     Node0(cluster, node, "distance"),
     Node0(cluster, node, "meminfo"),
     State(cluster, ["nodes", node, "sys-node", "node0", "hugepages", "hugepages-2048kB", "nr_hugepages"]),
     State(cluster, ["nodes", node, "sys-node", "node0", "hugepages", "hugepages-1048576kB", "nr_hugepages"])]
  }

  /** nodefs.links: one per cpu of the node. */
  function NodeLinks(cluster: string, n: Node): seq<Path> {
    seq(n.cpu, i requires 0 <= i < n.cpu => Node0(cluster, n.name, "cpu" + Decimal(i)))
  }

  function LinkTarget(p: Path): string {
    if p.State? && p.parts != [] then SYSFS_CPU + p.parts[|p.parts| - 1] else SYSFS_CPU
  }

  function RouterFiles(cluster: string, r: Router): seq<Path> {
    [State(cluster, [r.dir, "tkctl.boot"]),
     State(cluster, [r.dir, "scripts", "vyos-preconfig-bootup.script"]),
     State(cluster, [r.dir, "scripts", "vyos-postconfig-bootup.script"]),
     NodeUnit(cluster, r.name)]
  }

  predicate Sized(c: Cluster) { c.status.Some? && c.status.value.sized }

  predicate Here(c: Cluster, placed: Option<string>, name: string) { !c.MultiHost() || placed == Some(name) }

  function NodesHere(c: Cluster, name: string): seq<Node> { Filter(c.spec.nodes, (n: Node) => Here(c, n.host, name)) }

  function RoutersHere(c: Cluster,
          name: string): seq<Router> { Filter(RoutersOf(c), (r: Router) => Here(c, r.host, name)) }

  function UnitFiles(c: Cluster, n: Node): seq<Path> {
    (if Sized(c) then NodeFiles(c.name, n.name) else []) + [NodeUnit(c.name, n.name)]
  }

  function Me(c: Cluster, name: string): Option<Host> {
    First(if c.MultiHost() then c.spec.hosts.value else [], (h: Host) => h.name == name)
  }

  /** The keys of render, in write order. */
  function Render(c: Cluster, name: string): seq<Path> {
    var me := Me(c, name);
    (if me.Some? || !c.MultiHost() then [UnitDir(c.name, c.name + ".network")] else [])
    + Flat(Map(RoutersHere(c, name), (r: Router) => RouterFiles(c.name, r)))
    + (if me.Some? then [State(c.name, ["logs", "apiserver", "audit-policy.yaml"])] else [])
    + Flat(Map(NodesHere(c, name), (n: Node) => UnitFiles(c, n)))
    + [Systemd(c.name + ".target")]
    + (if me.None? || me.value.ssh.None? then [Systemd(c.name + "-routes.service")] else [])
  }

  function Links(c: Cluster, name: string): seq<Path> {
    if Sized(c) then Flat(Map(NodesHere(c, name), (n: Node) => NodeLinks(c.name, n))) else []
  }

  datatype HostFiles = HostFiles(name: string, machine: HostId, files: seq<Path>, links: seq<Path>)

  /** One entry for each host, and one for an operator that is none of them. */
  function PerHost(c: Cluster): seq<HostFiles> {
    var out := Map(NodeHosts(c), (nh: (string, HostId)) => HostFiles(nh.0, nh.1, Render(c, nh.0), Links(c, nh.0)));
    if forall hf :: hf in out ==> hf.machine != OPERATOR then out + [HostFiles("operator", OPERATOR, Render(c, "operator"), [])]
    else out
  }

  // ---- links that should not be there

  /** cpu[0-9]+ */
  predicate IsCpu(e: string) {
    |e| > 3 && StartsWith(e, "cpu") && forall i :: 3 <= i < |e| ==> '0' <= e[i] <= '9'
  }

  predicate InNode0(p: Path, cluster: string, node: string) {
    p.State? && p.cluster == cluster && |p.parts| == 5 && p.parts[..4] == ["nodes", node, "sys-node", "node0"]
  }

  function Entries(disk: Disk, cluster: string, node: string): set<string> {
    set p | p in disk && InNode0(p, cluster, node) :: p.parts[4]
  }

  function StaleOf(disk: Disk, c: Cluster, wanted: seq<Path>, n: Node): seq<Path> {
    var stale := Filter(Listing(Entries(disk, c.name, n.name)), (e: string) => IsCpu(e) && Node0(c.name, n.name, e) !in wanted);
    Map(stale, (e: string) => Node0(c.name, n.name, e))
  }

  function StaleLinks(disk: Disk, c: Cluster, name: string): seq<Path> {
    Flat(Map(NodesHere(c, name), (n: Node) => StaleOf(disk, c, Links(c, name), n)))
  }

  // ---- done and run

  predicate Holds(text: Template, c: Cluster, d: Disks, hf: HostFiles) {
    && (forall p :: p in hf.files ==> Look(d, hf.machine, p) == Some(File(text(c, hf.name, p))))
    && (forall p :: p in hf.links ==> Look(d, hf.machine, p) == Some(Link(LinkTarget(p))))
  }

  predicate NoStale(c: Cluster, d: Disks) {
    !Sized(c) || forall nh :: nh in NodeHosts(c) ==> StaleLinks(DiskAt(d, nh.1), c, nh.0) == []
  }

  predicate Done(text: Template, c: Cluster, d: Disks) {
    (forall hf :: hf in PerHost(c) ==> Holds(text, c, d, hf)) && NoStale(c, d)
  }

  function Writes(text: Template, c: Cluster, hf: HostFiles): seq<Write> {
    Map(hf.files, (p: Path) => Put(hf.machine, p, File(text(c, hf.name, p))))
    + Map(hf.links, (p: Path) => Put(hf.machine, p, Link(LinkTarget(p))))
  }

  function AllWrites(text: Template, c: Cluster, hfs: seq<HostFiles>): seq<Write> {
    if hfs == [] then [] else AllWrites(text, c, hfs[..|hfs| - 1]) + Writes(text, c, hfs[|hfs| - 1])
  }

  function Sweep(c: Cluster, d: Disks, nhs: seq<(string, HostId)>): seq<Write> {
    if nhs == [] then []
    else
      var k := |nhs| - 1;
      var before := Sweep(c, d, nhs[..k]);
      before + Map(StaleLinks(DiskAt(Do(d, before), nhs[k].1), c, nhs[k].0), (p: Path) => Unlink(nhs[k].1, p))
  }

  function Plan(text: Template, c: Cluster, d: Disks): seq<Write> {
    var writes := AllWrites(text, c, PerHost(c));
    writes + Sweep(c, Do(d, writes), NodeHosts(c))
  }

  function Ran(text: Template, c: Cluster, d: Disks): Disks { Do(d, Plan(text, c, d)) }

  // ---- the loops

  lemma PrefixNext<T>(s: seq<T>, i: nat)
    requires i < |s|
    ensures s[..i + 1] == s[..i] + [s[i]]
  {
  }

  lemma FlatNext<T>(parts: seq<seq<T>>, i: nat, start: seq<T>)
    requires i < |parts|
    ensures start + Flat(parts[..i + 1]) == start + Flat(parts[..i]) + parts[i]
  {
    assert parts[..i + 1][..i] == parts[..i];
    Associative(start, Flat(parts[..i]), parts[i]);
  }

  lemma DoNext(d: Disks, ws: seq<Write>, i: nat)
    requires i < |ws|
    ensures Do(d, ws[..i + 1]) == Step(Do(d, ws[..i]), ws[i])
  {
    PrefixNext(ws, i);
    ExecSnoc(Step, d, ws[..i], ws[i]);
  }

  lemma Whole<T>(s: seq<T>)
    ensures s[..0] == [] && s[..|s|] == s
  {
  }

  method RenderFiles(c: Cluster, name: string) returns (files: seq<Path>)
    ensures files == Render(c, name)
  {
    hide Flat;
    hide NodesHere;
    hide RoutersHere;
    hide Me;
    hide Sized;
    hide NodeFiles;
    hide RouterFiles;
    var me := Me(c, name);
    files := if me.Some? || !c.MultiHost() then [UnitDir(c.name, c.name + ".network")] else [];
    var routers, nodes := RoutersHere(c, name), NodesHere(c, name);
    ghost var routerFiles := Map(routers, (r: Router) => RouterFiles(c.name, r));
    ghost var nodeFiles := Map(nodes, (n: Node) => UnitFiles(c, n));
    ghost var start := files;
    FlatNothing(routerFiles, start);
    for i := 0 to |routers|
      invariant files == start + Flat(routerFiles[..i])
    {
      FlatNext(routerFiles, i, start);
      files := files + RouterFiles(c.name, routers[i]);
    }
    Whole(routerFiles);
    files := files + if me.Some? then [State(c.name, ["logs", "apiserver", "audit-policy.yaml"])] else [];
    start := files;
    FlatNothing(nodeFiles, start);
    for i := 0 to |nodes|
      invariant files == start + Flat(nodeFiles[..i])
    {
      FlatNext(nodeFiles, i, start);
      var more := if Sized(c) then NodeFiles(c.name, nodes[i].name) else [];
      Associative(files, more, [NodeUnit(c.name, nodes[i].name)]);
      files := files + more + [NodeUnit(c.name, nodes[i].name)];
    }
    Whole(nodeFiles);
    files := files + [Systemd(c.name + ".target")];
    files := files + if me.None? || me.value.ssh.None? then [Systemd(c.name + "-routes.service")] else [];
  }

  lemma FlatNothing<T>(parts: seq<seq<T>>, start: seq<T>)
    ensures start + Flat(parts[..0]) == start
  {
  }

  /** The hosts' files. */
  class Store {
    var disks: Disks

    constructor (d: Disks)
      ensures disks == d
    {
      disks := d;
    }

    method WriteHost(text: Template, c: Cluster, hf: HostFiles)
      modifies this
      ensures disks == Do(old(disks), Writes(text, c, hf))
    {
      ghost var ws := Writes(text, c, hf);
      Whole(ws);
      hide Exec;
      hide Step;
      ExecNothing(Step, disks);
      for i := 0 to |hf.files|
        invariant disks == Do(old(disks), ws[..i])
      {
        DoNext(old(disks), ws, i);
        disks := Step(disks, Put(hf.machine, hf.files[i], File(text(c, hf.name, hf.files[i]))));
      }
      ghost var k := |hf.files|;
      for i := 0 to |hf.links|
        invariant disks == Do(old(disks), ws[..k + i])
      {
        DoNext(old(disks), ws, k + i);
        disks := Step(disks, Put(hf.machine, hf.links[i], Link(LinkTarget(hf.links[i]))));
      }
    }

    method RemoveStale(c: Cluster, name: string, machine: HostId)
      modifies this
      ensures disks == Do(old(disks), Map(StaleLinks(DiskAt(old(disks), machine), c, name), (p: Path) => Unlink(machine, p)))
    {
      hide Exec;
      hide Step;
      hide StaleLinks;
      var stale := StaleLinks(DiskAt(disks, machine), c, name);
      ghost var ws := Map(stale, (p: Path) => Unlink(machine, p));
      Whole(ws);
      ExecNothing(Step, disks);
      for i := 0 to |stale|
        invariant disks == Do(old(disks), ws[..i])
      {
        DoNext(old(disks), ws, i);
        disks := Step(disks, Unlink(machine, stale[i]));
      }
    }

    /** units.run */
    method Run(text: Template, c: Cluster)
      modifies this
      ensures disks == Ran(text, c, old(disks))
    {
      hide Exec;
      hide PerHost;
      hide NodeHosts;
      hide Writes;
      hide StaleLinks;
      var hfs, nhs := PerHost(c), NodeHosts(c);
      ExecNothing(Step, disks);
      Whole(hfs);
      Whole(nhs);
      for i := 0 to |hfs|
        invariant disks == Do(old(disks), AllWrites(text, c, hfs[..i]))
      {
        AllWritesNext(text, c, hfs, i);
        ExecAppend(Step, old(disks), AllWrites(text, c, hfs[..i]), Writes(text, c, hfs[i]));
        WriteHost(text, c, hfs[i]);
      }
      ghost var d := disks;
      ExecNothing(Step, d);
      for i := 0 to |nhs|
        invariant disks == Do(d, Sweep(c, d, nhs[..i]))
      {
        ghost var unlinks := Map(StaleLinks(DiskAt(disks, nhs[i].1), c, nhs[i].0), (p: Path) => Unlink(nhs[i].1, p));
        SweepNext(c, d, nhs, i);
        ExecAppend(Step, d, Sweep(c, d, nhs[..i]), unlinks);
        RemoveStale(c, nhs[i].0, nhs[i].1);
      }
      ExecAppend(Step, old(disks), AllWrites(text, c, hfs), Sweep(c, d, nhs));
    }
  }

  lemma AllWritesNext(text: Template, c: Cluster, hfs: seq<HostFiles>, i: nat)
    requires i < |hfs|
    ensures AllWrites(text, c, hfs[..i + 1]) == AllWrites(text, c, hfs[..i]) + Writes(text, c, hfs[i])
  {
    assert hfs[..i + 1][..i] == hfs[..i];
  }

  lemma SweepNext(c: Cluster, d: Disks, nhs: seq<(string, HostId)>, i: nat)
    requires i < |nhs|
    ensures var before := Sweep(c, d, nhs[..i]);
            Sweep(c, d, nhs[..i + 1]) ==
            before + Map(StaleLinks(DiskAt(Do(d, before), nhs[i].1), c, nhs[i].0), (p: Path) => Unlink(nhs[i].1, p))
  {
    hide StaleLinks;
    assert nhs[..i + 1][..i] == nhs[..i];
  }
}
