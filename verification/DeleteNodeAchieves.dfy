/** What each phase of a node deletion leaves behind: its own condition, and nothing of other nodes
    touched. */
module DeleteNodeAchieves {
  import opened Basics
  import opened Addresses
  import opened ClusterModel
  import opened Hosts
  import opened Runner
  import opened DeleteNode
  import Units
  import UnitsHold
  import NodeEdits

  // ---- commands about one node

  function RouteOf(c: Cluster, n: string): Option<(Prefix, Addr)> {
    var node := NodeEdits.Find(c, n);
    if node.Some? && node.value.podCidr.Some? then Some((node.value.podCidr.value, node.value.ip)) else None
  }

  /** The node's unit file or a path below its directory, on the machine it is placed on. */
  predicate ItsFile(c: Cluster, n: string, h: HostId, p: Units.Path) {
    h == MachineOf(c, n) && (p == Units.NodeUnit(c.name, n) || InNodeDir(p, c.name, n))
  }

  /** A cpu link that a rendering of t takes away. */
  ghost predicate Swept(t: Cluster, h: HostId, p: Units.Path) {
    exists nh :: nh in NodeHosts(t) && nh.1 == h && UnitsHold.Stale(t, nh.0, p)
  }

  /** e is what rendering t puts there. */
  ghost predicate Rendered(text: Units.Template, t: Cluster, h: HostId, p: Units.Path, e: Units.Entry) {
    exists hf :: hf in Units.PerHost(t) && hf.machine == h &&
                 ((p in hf.files && e == Units.File(text(t, hf.name, p))) || (p in hf.links && e == Units.Link(Units.LinkTarget(p))))
  }

  ghost predicate OwnWrite(text: Units.Template, c: Cluster, n: string, x: Units.Write) {
    match x
    case Put(h, p, e) => Rendered(text, Trimmed(c, n), h, p, e)
    case Unlink(h, p) => ItsFile(c, n, h, p) || Swept(Trimmed(c, n), h, p)
  }

  /** The command is one of the deletion of c's node n, and none that writes cluster.yaml: it is about
      the node's own unit, container, volumes, directory or route, renders c without the node, or has
      one of c's routers load that. */
  ghost predicate Own(text: Units.Template, c: Cluster, n: string, cmd: Cmd) {
    match cmd
    case Drain => true
    case KubeadmReset => true
    case DeleteObject => true
    case StopUnit(h, u) => h == MachineOf(c, n) && u == n + ".service"
    case RmContainer(h, x) => h == MachineOf(c, n) && x == n
    case RmVolume(h, v) => h == MachineOf(c, n) && v in NodeVolumes(n)
    case DelRoute(r) => RouteOf(c, n) == Some(r)
    case OnDisk(x) => OwnWrite(text, c, n, x)
    case RmNodeDir(h, cluster, x) => h == MachineOf(c, n) && cluster == c.name && x == n
    case Reload(r, names) => (exists x :: x in RoutersOf(c) && x.name == r) && names == CpNames(Trimmed(c, n))
    case SaveOperator(_) => false
    case SaveCopy(_, _) => false
  }

  /** a is what is left of b, and differs only in what belongs to node n. */
  ghost predicate CalmBox(a: Box, b: Box, n: string) {
    && a.active <= b.active && a.containers <= b.containers && a.volumes <= b.volumes
    && b.active - {n + ".service"} <= a.active && b.containers - {n} <= a.containers
    && b.volumes - Set(NodeVolumes(n)) <= a.volumes
  }

  ghost predicate CalmBoxes(c: Cluster, n: string, v: World, w: World) {
    forall h :: if h == MachineOf(c, n) then CalmBox(BoxAt(v, h), BoxAt(w, h), n) else BoxAt(v, h) == BoxAt(w, h)
  }

  /** What a path held before may only have become what rendering without the node puts there, or
      nothing if it was a stale link or the node's own. */
  ghost predicate CalmEntry(text: Units.Template, c: Cluster, n: string, h: HostId, p: Units.Path,
          now: Option<Units.Entry>, was: Option<Units.Entry>) {
    || now == was
    || (now.Some? && Rendered(text, Trimmed(c, n), h, p, now.value))
    || (now.None? && (ItsFile(c, n, h, p) || Swept(Trimmed(c, n), h, p)))
  }

  ghost predicate CalmDisks(text: Units.Template, c: Cluster, n: string, v: Units.Disks, w: Units.Disks) {
    forall h, p :: CalmEntry(text, c, n, h, p, Units.Look(v, h, p), Units.Look(w, h, p))
  }

  ghost predicate CalmRoutes(c: Cluster, n: string, v: set<(Prefix, Addr)>, w: set<(Prefix, Addr)>) {
    v <= w && forall r :: r in w && r !in v ==> RouteOf(c, n) == Some(r)
  }

  ghost predicate CalmRouters(c: Cluster, n: string, v: map<string, set<string>>, w: map<string, set<string>>) {
    && v.Keys == w.Keys
    && forall r :: r in w && v[r] != w[r] ==>
         (exists x :: x in RoutersOf(c) && x.name == r) && v[r] == CpNames(Trimmed(c, n))
  }

  /** v is w after nothing but commands of the deletion of c's node n. */
  ghost predicate Calm(text: Units.Template, c: Cluster, n: string, v: World, w: World) {
    && CalmBoxes(c, n, v, w)
    && CalmDisks(text, c, n, v.disks, w.disks)
    && CalmRoutes(c, n, v.routes, w.routes)
    && CalmRouters(c, n, v.running, w.running)
    && (v.registered ==> w.registered) && (w.reset ==> v.reset)
  }

  predicate SameFiles(v: World, w: World) { v.loaded == w.loaded && v.yaml == w.yaml && v.copies == w.copies }

  lemma StepCalm(text: Units.Template, c: Cluster, n: string, w: World, cmd: Cmd)
    requires Own(text, c, n, cmd)
    ensures Calm(text, c, n, Step(w, cmd), w) && SameFiles(Step(w, cmd), w)
  {
    StepCalmBoxes(text, c, n, w, cmd);
    StepCalmDisks(text, c, n, w, cmd);
    StepCalmRest(text, c, n, w, cmd);
    hide Step;
    hide CalmBoxes;
    hide CalmDisks;
    hide CalmRoutes;
    hide CalmRouters;
  }

  lemma StepCalmBoxes(text: Units.Template, c: Cluster, n: string, w: World, cmd: Cmd)
    requires Own(text, c, n, cmd)
    ensures CalmBoxes(c, n, Step(w, cmd), w)
  {
    hide MachineOf;
    hide OwnWrite;
    hide RoutersOf;
    hide Trimmed;
  }

  lemma StepCalmRest(text: Units.Template, c: Cluster, n: string, w: World, cmd: Cmd)
    requires Own(text, c, n, cmd)
    ensures var v := Step(w, cmd);
            && SameFiles(v, w) && CalmRoutes(c, n, v.routes, w.routes) && CalmRouters(c, n, v.running, w.running)
            && (v.registered ==> w.registered) && (w.reset ==> v.reset)
  {
    hide MachineOf;
    hide OwnWrite;
    hide RoutersOf;
    hide Trimmed;
    StepFlags(w, cmd);
    if !cmd.DelRoute? && !cmd.Reload? {
      hide Step;
    }
  }

  lemma StepFlags(w: World, cmd: Cmd)
    requires !cmd.SaveOperator? && !cmd.SaveCopy?
    ensures var v := Step(w, cmd); SameFiles(v, w) && (v.registered ==> w.registered) && (w.reset ==> v.reset)
    ensures !cmd.DelRoute? ==> Step(w, cmd).routes == w.routes
    ensures !cmd.Reload? ==> Step(w, cmd).running == w.running
  {
  }

  lemma StepCalmDisks(text: Units.Template, c: Cluster, n: string, w: World, cmd: Cmd)
    requires Own(text, c, n, cmd)
    ensures CalmDisks(text, c, n, Step(w, cmd).disks, w.disks)
  {
    hide MachineOf;
    hide RoutersOf;
    hide Trimmed;
    hide Rendered;
    hide Swept;
    hide InNodeDir;
    if cmd.OnDisk? {
      WriteCalm(text, c, n, w.disks, cmd.write);
      hide CalmDisks;
    } else if !cmd.RmNodeDir? {
      DisksStay(w, cmd);
      hide Step;
    }
  }

  lemma DisksStay(w: World, cmd: Cmd)
    requires !cmd.OnDisk? && !cmd.RmNodeDir?
    ensures Step(w, cmd).disks == w.disks
  {
  }

  lemma WriteCalm(text: Units.Template, c: Cluster, n: string, d: Units.Disks, x: Units.Write)
    requires OwnWrite(text, c, n, x)
    ensures CalmDisks(text, c, n, Units.Step(d, x), d)
  {
    hide MachineOf;
    hide Trimmed;
    hide Rendered;
    hide Swept;
    hide InNodeDir;
  }

  lemma CalmTrans(text: Units.Template, c: Cluster, n: string, u: World, v: World, w: World)
    requires Calm(text, c, n, u, v) && Calm(text, c, n, v, w)
    ensures Calm(text, c, n, u, w)
  {
    CalmDisksTrans(text, c, n, u.disks, v.disks, w.disks);
    hide CalmDisks;
    hide MachineOf;
    hide RoutersOf;
    hide Trimmed;
    forall h
      ensures h == MachineOf(c, n) ==> CalmBox(BoxAt(u, h), BoxAt(w, h), n)
      ensures h != MachineOf(c, n) ==> BoxAt(u, h) == BoxAt(w, h)
    {
      assert BoxAt(u, h) == BoxAt(u, h) && BoxAt(v, h) == BoxAt(v, h);
    }
  }

  lemma CalmDisksTrans(text: Units.Template, c: Cluster, n: string, u: Units.Disks, v: Units.Disks, w: Units.Disks)
    requires CalmDisks(text, c, n, u, v) && CalmDisks(text, c, n, v, w)
    ensures CalmDisks(text, c, n, u, w)
  {
    hide MachineOf;
    hide Trimmed;
    hide Rendered;
    hide Swept;
    hide ItsFile;
    hide Units.Look;
    forall h, p
      ensures CalmEntry(text, c, n, h, p, Units.Look(u, h, p), Units.Look(w, h, p))
    {
      assert CalmEntry(text, c, n, h, p, Units.Look(u, h, p), Units.Look(v, h, p));
      assert CalmEntry(text, c, n, h, p, Units.Look(v, h, p), Units.Look(w, h, p));
    }
  }

  lemma CalmSelf(text: Units.Template, c: Cluster, n: string, w: World)
    ensures Calm(text, c, n, w, w)
  {
  }

  lemma {:induction false} DoCalm(text: Units.Template, c: Cluster, n: string, w: World, cmds: seq<Cmd>)
    requires forall x :: x in cmds ==> Own(text, c, n, x)
    ensures Calm(text, c, n, Do(w, cmds), w) && SameFiles(Do(w, cmds), w)
  {
    if cmds == [] {
      CalmSelf(text, c, n, w);
    } else {
      hide Step;
      hide Calm;
      hide Own;
      var k := |cmds| - 1;
      Snoc(cmds);
      DoCalm(text, c, n, w, cmds[..k]);
      StepCalm(text, c, n, Do(w, cmds[..k]), cmds[k]);
      CalmTrans(text, c, n, Do(w, cmds), Do(w, cmds[..k]), w);
    }
  }

  lemma PlanOwn(text: Units.Template, n: string, i: nat, w: World)
    requires i < ENTRY
    ensures forall x :: x in Phases(text, n)[i].plan(w) ==> Own(text, w.loaded, n, x)
  {
    hide MachineOf;
    hide OwnWrite;
    hide RoutersOf;
    hide UnitsPlan;
    if i == UNITS {
      hide Own;
      UnitsPlanOwn(text, w, n);
    }
  }

  lemma UnitsPlanOwn(text: Units.Template, w: World, n: string)
    ensures forall x :: x in UnitsPlan(text, w, n) ==> Own(text, w.loaded, n, x)
  {
    hide Units.Plan;
    hide OwnWrite;
    hide MachineOf;
    hide RoutersOf;
    hide Trimmed;
    hide InNodeDir;
    var c := w.loaded;
    var ws := Units.Plan(text, Trimmed(c, n), w.disks);
    forall x | x in ws
      ensures OwnWrite(text, c, n, x)
    {
      WriteOwn(text, c, n, w.disks, x);
    }
    RmOwn(text, w, n);
    SameRoutersTrimmed(c, n);
  }

  lemma WriteOwn(text: Units.Template, c: Cluster, n: string, d: Units.Disks, x: Units.Write)
    requires x in Units.Plan(text, Trimmed(c, n), d)
    ensures OwnWrite(text, c, n, x)
  {
    hide Units.Plan;
    hide Trimmed;
    hide Rendered;
    hide Swept;
    hide ItsFile;
    PlanWrites(text, Trimmed(c, n), d, x);
  }

  lemma RmOwn(text: Units.Template, w: World, n: string)
    ensures forall x :: x in RmCmds(w, n) ==> Own(text, w.loaded, n, x)
  {
    hide MachineOf;
    hide Trimmed;
    hide Swept;
  }

  /** What units.run writes is what is rendered, and what it removes is stale. */
  lemma PlanWrites(text: Units.Template, t: Cluster, d: Units.Disks, x: Units.Write)
    requires x in Units.Plan(text, t, d)
    ensures match x
            case Put(h, p, e) => Rendered(text, t, h, p, e)
            case Unlink(h, p) => Swept(t, h, p)
  {
    var hfs := Units.PerHost(t);
    hide Units.PerHost;
    hide Rendered;
    hide Swept;
    hide NodeHosts;
    var writes := Units.AllWrites(text, t, hfs);
    if x in writes {
      AllWritesRendered(text, t, hfs, x);
    } else {
      SweepSwept(t, Units.Do(d, writes), NodeHosts(t), x);
    }
  }

  lemma {:induction false} AllWritesRendered(text: Units.Template, t: Cluster, hfs: seq<Units.HostFiles>, x: Units.Write)
    requires x in Units.AllWrites(text, t, hfs) && forall hf :: hf in hfs ==> hf in Units.PerHost(t)
    ensures x.Put? && Rendered(text, t, x.h, x.path, x.entry)
  {
    hide Units.PerHost;
    var k := |hfs| - 1;
    if x in Units.AllWrites(text, t, hfs[..k]) {
      hide Rendered;
      AllWritesRendered(text, t, hfs[..k], x);
    } else {
      assert hfs[k] in hfs;
    }
  }

  lemma {:induction false} SweepSwept(t: Cluster, d: Units.Disks, nhs: seq<(string, HostId)>, x: Units.Write)
    requires x in Units.Sweep(t, d, nhs) && forall nh :: nh in nhs ==> nh in NodeHosts(t)
    ensures x.Unlink? && Swept(t, x.h, x.path)
  {
    hide NodeHosts;
    hide UnitsHold.Stale;
    hide Units.StaleLinks;
    var k := |nhs| - 1;
    var before := Units.Sweep(t, d, nhs[..k]);
    if x in before {
      hide Swept;
      SweepSwept(t, d, nhs[..k], x);
    } else {
      assert nhs[k] in nhs;
      var disk := Units.DiskAt(Units.Do(d, before), nhs[k].1);
      UnitsHold.StaleLinksMeans(disk, t, nhs[k].0, x.path);
    }
  }

  lemma SameRoutersTrimmed(c: Cluster, n: string)
    ensures RoutersOf(Trimmed(c, n)) == RoutersOf(c)
  {
    hide RangeStart;
  }

  lemma PrefixCalm(text: Units.Template, n: string, i: nat, w: World, k: nat)
    requires i < ENTRY && k <= |Phases(text, n)[i].plan(w)|
    ensures var v := Do(w, Phases(text, n)[i].plan(w)[..k]); Calm(text, w.loaded, n, v, w) && SameFiles(v, w)
  {
    hide Phases;
    hide Own;
    hide Calm;
    PlanOwn(text, n, i, w);
    var prefix := Phases(text, n)[i].plan(w)[..k];
    assert forall x :: x in prefix ==> x in Phases(text, n)[i].plan(w);
    DoCalm(text, w.loaded, n, w, prefix);
  }

  /** What drain, stop, container and volumes have done stays done. */
  lemma EarlyStays(text: Units.Template, n: string, i: nat, v: World, w: World)
    requires i <= UNITS && Calm(text, w.loaded, n, v, w) && v.loaded == w.loaded && DoneUpTo(Phases(text, n), i, w)
    ensures DoneUpTo(Phases(text, n), i, v)
  {
    assert CalmBox(BoxAt(v, Home(w, n)), BoxAt(w, Home(w, n)), n);
    forall j: nat | j < i
      ensures IsDone(Phases(text, n)[j], v)
    {
      assert IsDone(Phases(text, n)[j], w);
    }
  }

  // ---- each phase achieves its condition

  lemma EarlyAchieves(text: Units.Template, n: string, i: nat, w: World)
    requires i < UNITS
    ensures IsDone(Phases(text, n)[i], Do(w, Phases(text, n)[i].plan(w)))
  {
    if i == DRAIN {
      DrainAchieves(text, n, w);
    } else if i == STOP {
      StopAchieves(text, n, w);
    } else if i == CONTAINER {
      ContainerAchieves(text, n, w);
    } else {
      hide VolumesDone;
      hide VolumeCmds;
      VolumesGo(w, n);
    }
  }

  lemma DrainAchieves(text: Units.Template, n: string, w: World)
    ensures IsDone(Phases(text, n)[DRAIN], Do(w, Phases(text, n)[DRAIN].plan(w)))
  {
    hide MachineOf;
    hide Exec;
    ExecThree(Step, w, Drain, KubeadmReset, DeleteObject);
  }

  lemma StopAchieves(text: Units.Template, n: string, w: World)
    ensures IsDone(Phases(text, n)[STOP], Do(w, Phases(text, n)[STOP].plan(w)))
  {
    hide MachineOf;
    hide Exec;
    ExecOne(Step, w, StopUnit(Home(w, n), n + ".service"));
  }

  lemma ContainerAchieves(text: Units.Template, n: string, w: World)
    ensures IsDone(Phases(text, n)[CONTAINER], Do(w, Phases(text, n)[CONTAINER].plan(w)))
  {
    hide MachineOf;
    hide Exec;
    ExecOne(Step, w, RmContainer(Home(w, n), n));
    ExecNothing(Step, w);
  }

  lemma {:induction false} RmVolumesMean(w: World, h: HostId, volumes: seq<string>)
    ensures var v := Do(w, Map(volumes, (x: string) => RmVolume(h, x)));
            v.loaded == w.loaded && BoxAt(v, h).volumes == BoxAt(w, h).volumes - Set(volumes)
  {
    var cmds := Map(volumes, (x: string) => RmVolume(h, x));
    if volumes == [] {
      assert cmds == [];
    } else {
      var k := |volumes| - 1;
      Snoc(volumes);
      assert cmds[..k] == Map(volumes[..k], (x: string) => RmVolume(h, x));
      RmVolumesMean(w, h, volumes[..k]);
    }
  }

  lemma VolumesGo(w: World, n: string)
    ensures VolumesDone(Do(w, VolumeCmds(w, Home(w, n), NodeVolumes(n))), n)
  {
    hide MachineOf;
    RmVolumesMean(w, Home(w, n), Filter(NodeVolumes(n), (v: string) => v in BoxAt(w, Home(w, n)).volumes));
    hide Exec;
  }

  // ---- the units phase

  ghost predicate Fit(c: Cluster, n: string) {
    UnitsHold.Sound(c) && Distinct(UnitsHold.AllNames(c)) && Deletable(c, n)
  }

  lemma TrimmedIs(c: Cluster, n: string)
    requires Fit(c, n)
    ensures var t := Trimmed(c, n);
            && t == c.(spec := c.spec.(nodes := Filter(c.spec.nodes, (x: Node) => x.name != n)))
            && RoutersOf(t) == RoutersOf(c) && UnitsHold.Sound(t) && RemotesOf(t) == RemotesOf(c)
            && NodeEdits.Find(t, n).None?
  {
    FewerNodes(c, Filter(c.spec.nodes, (x: Node) => x.name != n));
    hide RoutersOf;
    hide UnitsHold.Sound;
    hide RemotesOf;
    hide UnitsHold.AllNames;
  }

  lemma FewerNodes(c: Cluster, nodes: seq<Node>)
    requires UnitsHold.Sound(c) && forall x :: x in nodes ==> x in c.spec.nodes
    ensures var t := c.(spec := c.spec.(nodes := nodes));
            UnitsHold.Sound(t) && RoutersOf(t) == RoutersOf(c) && RemotesOf(t) == RemotesOf(c)
  {
    var t := c.(spec := c.spec.(nodes := nodes));
    assert t.Routers() == c.Routers() by {
      hide UnitsHold.Sound;
    }
    hide Cluster.Routers;
    hide Distinct;
  }

  /** Nothing that is rendered without the node is the node's unit or below its directory. */
  lemma NotItsFiles(c: Cluster, n: string, name: string, p: Units.Path)
    requires Fit(c, n) && (p == Units.NodeUnit(c.name, n) || InNodeDir(p, c.name, n))
    ensures p !in Units.Render(Trimmed(c, n), name) && p !in Units.Links(Trimmed(c, n), name)
  {
    var t := Trimmed(c, n);
    TrimmedIs(c, n);
    hide Trimmed;
    UnitsHold.LinksIn(t, name, p);
    forall m | m in Units.NodesHere(t, name)
      ensures m.name != n && p !in Units.UnitFiles(t, m) && p !in Units.NodeLinks(t.name, m)
    {
      OtherNode(t, n, m, p);
      hide Units.UnitFiles;
      hide Units.NodeLinks;
    }
    NodeIsNoRouter(c, n);
    forall r | r in Units.RoutersHere(t, name)
      ensures p !in Units.RouterFiles(t.name, r)
    {
      NotRouterFile(t, n, r, p);
      hide Units.RouterFiles;
    }
    hide Units.NodesHere;
    hide Units.RoutersHere;
    hide Units.Links;
    if p in Units.Render(t, name) {
      UnitsHold.RenderIn(t, name, p);
      UnitsHold.NameMatters(t, n, n);
      hide Units.Render;
      hide Units.UnitFiles;
      hide Units.RouterFiles;
      assert false;
    }
  }

  lemma OtherNode(t: Cluster, n: string, m: Node, p: Units.Path)
    requires m.name != n && (p == Units.NodeUnit(t.name, n) || InNodeDir(p, t.name, n))
    ensures p !in Units.UnitFiles(t, m) && p !in Units.NodeLinks(t.name, m)
  {
    UnitsHold.NameMatters(t, n, m.name);
    UnitsHold.NodeLinksMean(t.name, m, p);
    hide Units.NodeLinks;
    NoOtherFiles(t, n, m, p);
    hide Units.NodeFiles;
  }

  lemma NoOtherFiles(t: Cluster, n: string, m: Node, p: Units.Path)
    requires m.name != n && (p.UnitDir? || InNodeDir(p, t.name, n))
    ensures p !in Units.NodeFiles(t.name, m.name)
  {
    if p in Units.NodeFiles(t.name, m.name) {
      UnitsHold.NodeFileShape(t.name, m.name, p);
    }
    hide Units.NodeFiles;
  }

  lemma NotRouterFile(t: Cluster, n: string, r: Router, p: Units.Path)
    requires r in RoutersOf(t) && r.name != n && (p == Units.NodeUnit(t.name, n) || InNodeDir(p, t.name, n))
    ensures p !in Units.RouterFiles(t.name, r)
  {
    UnitsHold.NameMatters(t, n, r.name);
  }

  lemma NodeIsNoRouter(c: Cluster, n: string)
    requires Fit(c, n)
    ensures forall r :: r in RoutersOf(c) ==> r.name != n
  {
    UnitsHold.NamesApart(c);
    hide RoutersOf;
    hide UnitsHold.AllNames;
    var node := NodeEdits.Find(c, n).value;
    assert node in c.spec.nodes && node.name == n;
  }

  lemma {:induction false} DoDisk(w: World, ws: seq<Units.Write>)
    ensures Do(w, DiskCmds(ws)) == w.(disks := Units.Do(w.disks, ws))
  {
    var cmds := DiskCmds(ws);
    if ws == [] {
      assert cmds == [];
    } else {
      hide Units.Step;
      var k := |ws| - 1;
      assert cmds[..k] == DiskCmds(ws[..k]);
      DoDisk(w, ws[..k]);
    }
  }

  lemma DoRoutes(w: World, n: string)
    ensures exists routes :: Do(w, RouteCmds(w, n)) == w.(routes := routes)
  {
    hide Exec;
    ExecNothing(Step, w);
    var node := NodeEdits.Find(w.loaded, n);
    if node.Some? && node.value.podCidr.Some? {
      ExecOne(Step, w, DelRoute((node.value.podCidr.value, node.value.ip)));
      assert Do(w, RouteCmds(w, n)) == w.(routes := w.routes - {(node.value.podCidr.value, node.value.ip)});
    } else {
      assert Do(w, RouteCmds(w, n)) == w.(routes := w.routes);
    }
  }

  function Removed(d: Units.Disks, h: HostId, cluster: string, n: string): Units.Disks {
    var e := Units.Step(d, Units.Unlink(h, Units.NodeUnit(cluster, n)));
    e[h := WithoutDir(Units.DiskAt(e, h), cluster, n)]
  }

  lemma RemovedLook(d: Units.Disks, home: HostId, cluster: string, n: string, h: HostId, p: Units.Path)
    ensures Units.Look(Removed(d, home, cluster, n), h, p) ==
            if h == home && (p == Units.NodeUnit(cluster, n) || InNodeDir(p, cluster, n)) then None else Units.Look(d, h, p)
  {
    hide InNodeDir;
  }

  lemma DoRemove(w: World, v: World, n: string)
    requires v.loaded == w.loaded
    ensures Do(v, RmCmds(w, n)) == v.(disks := Removed(v.disks, Home(w, n), w.loaded.name, n))
  {
    hide MachineOf;
    hide WithoutDir;
    var h := Home(w, n);
    ExecTwo(Step, v, OnDisk(Units.Unlink(h, Units.NodeUnit(w.loaded.name, n))), RmNodeDir(h, w.loaded.name, n));
  }

  lemma {:induction false} DoReload(w: World, rs: seq<Router>, names: set<string>)
    requires forall r :: r in rs ==> r.name in w.running
    ensures var v := Do(w, Map(rs, (r: Router) => Reload(r.name, names)));
            && v == w.(running := v.running) && v.running.Keys == w.running.Keys
            && forall r :: r in rs ==> v.running[r.name] == names
  {
    var cmds := Map(rs, (r: Router) => Reload(r.name, names));
    if rs == [] {
      assert cmds == [];
    } else {
      var k := |rs| - 1;
      Snoc(rs);
      assert cmds[..k] == Map(rs[..k], (r: Router) => Reload(r.name, names));
      DoReload(w, rs[..k], names);
      var v := Do(w, cmds[..k]);
      assert rs[k].name in v.running;
    }
  }

  /** The world after the whole units phase. */
  lemma UnitsPhase(text: Units.Template, w: World, n: string)
    ensures var c := Trimmed(w.loaded, n);
            var v := Do(w, UnitsPlan(text, w, n));
            && v.loaded == w.loaded && v.running.Keys == w.running.Keys
            && v.disks == Removed(Units.Ran(text, c, w.disks), Home(w, n), w.loaded.name, n)
            && forall r :: r in RunningRouters(w, c) ==> v.running[r.name] == CpNames(c)
  {
    hide Trimmed;
    hide MachineOf;
    hide Units.Plan;
    hide Removed;
    hide RunningRouters;
    hide Exec;
    var c := Trimmed(w.loaded, n);
    var a, b, r, s := RouteCmds(w, n), DiskCmds(Units.Plan(text, c, w.disks)), RmCmds(w, n), ReloadCmds(w, c);
    ExecAppend(Step, w, a + b + r, s);
    ExecAppend(Step, w, a + b, r);
    ExecAppend(Step, w, a, b);
    DoRoutes(w, n);
    var w1 := Do(w, a);
    DoDisk(w1, Units.Plan(text, c, w.disks));
    var w2 := Do(w1, b);
    DoRemove(w, w2, n);
    RunningIn(w, c);
    DoReload(Do(w2, r), RunningRouters(w, c), CpNames(c));
  }

  lemma RunningIn(w: World, c: Cluster)
    ensures forall r :: r in RunningRouters(w, c) ==> r.name in w.running
  {
  }

  lemma SyncedAfter(w: World, v: World, t: Cluster)
    requires RunningRouters(w, t) != [] && v.running.Keys == w.running.Keys
    requires forall r :: r in RunningRouters(w, t) ==> v.running[r.name] == CpNames(t)
    ensures Synced(v, t)
  {
    hide RoutersOf;
    hide CpNames;
    var a := RunningRouters(w, t);
    assert a[0] in RoutersOf(t) && a[0].name in v.running;
    assert a[0] in RunningRouters(v, t);
  }

  lemma UnitsAchieved(text: Units.Template, w: World, n: string)
    requires Fit(w.loaded, n) && RunningRouters(w, w.loaded) != []
    ensures UnitsDone(text, Do(w, UnitsPlan(text, w, n)), n)
  {
    var c, t, v := w.loaded, Trimmed(w.loaded, n), Do(w, UnitsPlan(text, w, n));
    UnitsPhase(text, w, n);
    TrimmedIs(c, n);
    DoneWithout(text, c, n, w.disks, Home(w, n));
    hide Exec;
    hide UnitsPlan;
    hide Trimmed;
    hide Fit;
    hide MachineOf;
    hide RoutersOf;
    hide Removed;
    hide Units.Done;
    hide CpNames;
    hide UnitsHold.Sound;
    SyncedAfter(w, v, t);
    hide Synced;
  }

  /** Rendered without the node and rid of its files: units.done holds for the trimmed cluster. */
  lemma DoneWithout(text: Units.Template, c: Cluster, n: string, d: Units.Disks, home: HostId)
    requires Fit(c, n)
    ensures var e := Removed(Units.Ran(text, Trimmed(c, n), d), home, c.name, n);
            && Units.Done(text, Trimmed(c, n), e)
            && Units.NodeUnit(c.name, n) !in Units.DiskAt(e, home)
            && forall p :: p in Units.DiskAt(e, home) ==> !InNodeDir(p, c.name, n)
  {
    hide Units.Ran;
    hide Removed;
    hide Units.PerHost;
    hide NodeHosts;
    hide Units.StaleLinks;
    hide Fit;
    TrimmedIs(c, n);
    var t := Trimmed(c, n);
    hide Trimmed;
    hide UnitsHold.Sound;
    var ran := Units.Ran(text, t, d);
    var e := Removed(ran, home, c.name, n);
    UnitsHold.RunEstablishesDone(text, t, d);
    forall hf | hf in Units.PerHost(t)
      ensures Units.Holds(text, t, e, hf)
    {
      HoldsWithout(text, c, n, ran, home, hf);
      hide Units.Holds;
    }
    if Units.Sized(t) {
      forall nh | nh in NodeHosts(t)
        ensures Units.StaleLinks(Units.DiskAt(e, nh.1), t, nh.0) == []
      {
        NoStaleWithout(t, n, ran, home, nh);
      }
    }
    forall p | p in Units.DiskAt(e, home)
      ensures !InNodeDir(p, c.name, n) && p != Units.NodeUnit(c.name, n)
    {
      RemovedLook(ran, home, c.name, n, home, p);
    }
  }

  lemma HoldsWithout(text: Units.Template, c: Cluster, n: string, d: Units.Disks, home: HostId, hf: Units.HostFiles)
    requires Fit(c, n) && hf in Units.PerHost(Trimmed(c, n)) && Units.Holds(text, Trimmed(c, n), d, hf)
    ensures Units.Holds(text, Trimmed(c, n), Removed(d, home, c.name, n), hf)
  {
    hide Units.PerHost;
    hide Removed;
    hide Units.Look;
    hide Units.Render;
    hide Units.Links;
    hide InNodeDir;
    hide Fit;
    TrimmedIs(c, n);
    hide Trimmed;
    hide UnitsHold.Sound;
    UnitsHold.EntryOf(Trimmed(c, n), hf);
    forall p | p in hf.files || p in hf.links
      ensures Units.Look(Removed(d, home, c.name, n), hf.machine, p) == Units.Look(d, hf.machine, p)
    {
      RemovedLook(d, home, c.name, n, hf.machine, p);
      if p == Units.NodeUnit(c.name, n) || InNodeDir(p, c.name, n) {
        NotItsFiles(c, n, hf.name, p);
        assert false;
      }
    }
  }

  lemma NoStaleWithout(t: Cluster, n: string, d: Units.Disks, home: HostId, nh: (string, HostId))
    requires Units.StaleLinks(Units.DiskAt(d, nh.1), t, nh.0) == []
    ensures Units.StaleLinks(Units.DiskAt(Removed(d, home, t.name, n), nh.1), t, nh.0) == []
  {
    hide Units.StaleLinks;
    hide Removed;
    hide UnitsHold.Stale;
    hide InNodeDir;
    var e := Removed(d, home, t.name, n);
    var left := Units.StaleLinks(Units.DiskAt(e, nh.1), t, nh.0);
    if left != [] {
      UnitsHold.StaleLinksMeans(Units.DiskAt(e, nh.1), t, nh.0, left[0]);
      RemovedLook(d, home, t.name, n, nh.1, left[0]);
      UnitsHold.StaleLinksMeans(Units.DiskAt(d, nh.1), t, nh.0, left[0]);
      assert false;
    }
  }
}
