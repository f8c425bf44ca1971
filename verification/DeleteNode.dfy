/** delete node (node/delete.py): six phases that take one node off the cluster, its cluster.yaml
    entry last. */
module DeleteNode {
  import opened Basics
  import opened Addresses
  import opened ClusterModel
  import opened Hosts
  import opened Runner
  import Units
  import NodeEdits

  /** What podman and systemd hold on one machine. */
  datatype Box = Box(active: set<string>, containers: set<string>, volumes: set<string>)

  const EMPTY := Box({}, {}, {})

  /** running: the control planes each running router forwards to; registered: Kubernetes has the Node
      object; drained: kubectl drain was run, whether it finished or not; reset: kubeadm reset was run
      in the node. */
  datatype World = World(
    loaded: Cluster,
    yaml: Cluster,
    copies: map<HostId, Cluster>,
    boxes: map<HostId, Box>,
    disks: Units.Disks,
    routes: set<(Prefix, Addr)>,
    running: map<string, set<string>>,
    registered: bool,
    drained: bool,
    reset: bool)

  function BoxAt(w: World, h: HostId): Box { if h in w.boxes then w.boxes[h] else EMPTY }

  function PutBox(w: World, h: HostId, b: Box): World { w.(boxes := w.boxes[h := b]) }

  datatype Cmd =
    | Drain
    | KubeadmReset
    | DeleteObject
    | StopUnit(h: HostId, unit: string)
    | RmContainer(h: HostId, container: string)
    | RmVolume(h: HostId, volume: string)
    | DelRoute(route: (Prefix, Addr))
    | OnDisk(write: Units.Write)
    | RmNodeDir(h: HostId, cluster: string, node: string)
    | Reload(router: string, controlPlanes: set<string>)
    | SaveOperator(yaml: Cluster)
    | SaveCopy(h: HostId, yaml: Cluster)

  /** A path below <state>/nodes/<node>. */
  predicate InNodeDir(p: Units.Path, cluster: string, node: string) {
    p.State? && p.cluster == cluster && |p.parts| >= 2 && p.parts[0] == "nodes" && p.parts[1] == node
  }

  function WithoutDir(disk: Units.Disk, cluster: string, node: string): Units.Disk {
    map p | p in disk && !InNodeDir(p, cluster, node) :: disk[p]
  }

  function Step(w: World, c: Cmd): World {
    match c
    case Drain => w.(drained := true)
    case KubeadmReset => w.(reset := true)
    case DeleteObject => w.(registered := false)
    case StopUnit(h, u) => PutBox(w, h, BoxAt(w, h).(active := BoxAt(w, h).active - {u}))
    case RmContainer(h, n) => PutBox(w, h, BoxAt(w, h).(containers := BoxAt(w, h).containers - {n}))
    case RmVolume(h, v) => PutBox(w, h, BoxAt(w, h).(volumes := BoxAt(w, h).volumes - {v}))
    case DelRoute(r) => w.(routes := w.routes - {r})
    case OnDisk(x) => w.(disks := Units.Step(w.disks, x))
    case RmNodeDir(h, c, n) => w.(disks := w.disks[h := WithoutDir(Units.DiskAt(w.disks, h), c, n)])
    case Reload(r, names) => if r in w.running then w.(running := w.running[r := names]) else w
    case SaveOperator(y) => w.(loaded := y, yaml := y)
    case SaveCopy(h, y) => w.(copies := w.copies[h := y])
  }

  function Do(w: World, cmds: seq<Cmd>): World { Exec(Step, w, cmds) }

  // ---- what the phases look at

  function Home(w: World, n: string): HostId { MachineOf(w.loaded, n) }

  /** What the last phase will save: c without its node n, or c itself when it has none or must keep it. */
  function Trimmed(c: Cluster, n: string): Cluster {
    if NodeEdits.Find(c, n).None? || c.spec.nodes == [] then c
    else
      var r := NodeEdits.WithoutNode(c, n);
      if r.Ok? then r.value else c
  }

  function CpNames(c: Cluster): set<string> { set x | x in c.spec.nodes && x.role == ControlPlane :: x.name }

  function RunningRouters(w: World, c: Cluster): seq<Router> {
    Filter(RoutersOf(c), (r: Router) => r.name in w.running)
  }

  /** all_synced: some router runs, and every running one forwards to exactly the control planes. */
  predicate Synced(w: World, c: Cluster) {
    RunningRouters(w, c) != [] && forall r :: r in RoutersOf(c) && r.name in w.running ==> w.running[r.name] == CpNames(c)
  }

  predicate DrainDone(w: World) { !w.registered }

  predicate StopDone(w: World, n: string) { n + ".service" !in BoxAt(w, Home(w, n)).active }

  predicate ContainerDone(w: World, n: string) { n !in BoxAt(w, Home(w, n)).containers }

  predicate VolumesDone(w: World, n: string) { forall v :: v in NodeVolumes(n) ==> v !in BoxAt(w, Home(w, n)).volumes }

  predicate FilesGone(w: World, n: string) {
    && Units.NodeUnit(w.loaded.name, n) !in Units.DiskAt(w.disks, Home(w, n))
    && forall p :: p in Units.DiskAt(w.disks, Home(w, n)) ==> !InNodeDir(p, w.loaded.name, n)
  }

  predicate UnitsDone(text: Units.Template, w: World, n: string) {
    FilesGone(w, n) && Units.Done(text, Trimmed(w.loaded, n), w.disks) && Synced(w, Trimmed(w.loaded, n))
  }

  predicate EntryDone(w: World, n: string) { NodeEdits.Find(w.loaded, n).None? }

  // ---- what they run

  function VolumeCmds(w: World, h: HostId, volumes: seq<string>): seq<Cmd> {
    Map(Filter(volumes, (v: string) => v in BoxAt(w, h).volumes), (v: string) => RmVolume(h, v))
  }

  function RouteCmds(w: World, n: string): seq<Cmd> {
    var node := NodeEdits.Find(w.loaded, n);
    if node.Some? && node.value.podCidr.Some? then [DelRoute((node.value.podCidr.value, node.value.ip))] else []
  }

  function DiskCmds(ws: seq<Units.Write>): seq<Cmd> { Map(ws, (x: Units.Write) => OnDisk(x)) }

  function RmCmds(w: World, n: string): seq<Cmd> {
    [OnDisk(Units.Unlink(Home(w, n), Units.NodeUnit(w.loaded.name, n))), RmNodeDir(Home(w, n), w.loaded.name, n)]
  }

  function ReloadCmds(w: World, c: Cluster): seq<Cmd> {
    Map(RunningRouters(w, c), (r: Router) => Reload(r.name, CpNames(c)))
  }

  /** The node's route goes, everything is rendered without it, then its unit and directory go, then
      the running routers load what was rendered. */
  function UnitsPlan(text: Units.Template, w: World, n: string): seq<Cmd> {
    var c := Trimmed(w.loaded, n);
    RouteCmds(w, n) + DiskCmds(Units.Plan(text, c, w.disks)) + RmCmds(w, n) + ReloadCmds(w, c)
  }

  function EntryPlan(w: World, n: string): seq<Cmd> {
    var c := Trimmed(w.loaded, n);
    [SaveOperator(c)] + Map(RemotesOf(c), (h: HostId) => SaveCopy(h, c))
  }

  const DRAIN := 0
  const STOP := 1
  const CONTAINER := 2
  const VOLUMES := 3
  const UNITS := 4
  const ENTRY := 5

  function Phases(text: Units.Template, n: string): (r: seq<Phase<World, Cmd>>)
    ensures |r| == 6 && forall i :: 0 <= i < 6 ==> r[i].done.Some?
  {
    [Phase("drain", Some((w: World) => DrainDone(w)), (w: World) => [Drain, KubeadmReset, DeleteObject]),
     Phase("stop", Some((w: World) => StopDone(w, n)), (w: World) => [StopUnit(Home(w, n), n + ".service")]),
     Phase("container", Some((w: World) => ContainerDone(w, n)),
           (w: World) => if ContainerDone(w, n) then [] else [RmContainer(Home(w, n), n)]),
     Phase("volumes", Some((w: World) => VolumesDone(w, n)), (w: World) => VolumeCmds(w, Home(w, n), NodeVolumes(n))),
     Phase("units", Some((w: World) => UnitsDone(text, w, n)), (w: World) => UnitsPlan(text, w, n)),
     Phase("entry", Some((w: World) => EntryDone(w, n)), (w: World) => EntryPlan(w, n))]
  }

  /** A full run is the six phases in this order. */
  lemma FullRunOrder(text: Units.Template, n: string)
    ensures Map(Leaves(Group("delete", Map(Phases(text, n), (p: Phase<World, Cmd>) => Leaf(p))), ""),
                (l: (string, Phase<World, Cmd>)) => l.1) == Phases(text, n)
  {
    LeavesOfGroup("delete", Phases(text, n));
  }

  /** deletable: cluster.yaml lists the node, and it is not the first control plane. */
  predicate Deletable(c: Cluster, n: string) {
    c.spec.nodes != [] && n != c.spec.nodes[0].name && NodeEdits.Find(c, n).Some?
  }

  /** One tkctl delete node: it reads cluster.yaml anew and gets `budget` commands before it is cut. */
  function Attempt(text: Units.Template, w: World, n: string, budget: nat): (World, Option<Outcome>) {
    var start := w.(loaded := w.yaml);
    if !Deletable(w.yaml, n) then (start, None)
    else
      var (after, outcome) := Run(Step, Phases(text, n), start, budget);
      (after, Some(outcome))
  }

  function Attempts(text: Units.Template, w: World, n: string, budgets: seq<nat>): World {
    if budgets == [] then w
    else Attempt(text, Attempts(text, w, n, budgets[..|budgets| - 1]), n, budgets[|budgets| - 1]).0
  }
}
