/** delete cluster (delete.py): nine phases over every host of the cluster, the operator last. The
    hosts are modelled by what the phases ask about and take away. */
module DeleteCluster {
  import opened Basics
  import opened Text
  import opened Addresses
  import opened ClusterModel
  import opened Hosts
  import opened Runner

  /** cluster.yaml; the mesh peers of its status are kept apart from the rest. */
  datatype Yaml = Yaml(cluster: Cluster, peers: seq<string>)

  /** A state directory, with or without its cluster.yaml. */
  datatype StateDir = StateDir(yaml: Option<Yaml>)

  datatype HostState = HostState(
    target: bool,
    netService: bool,
    units: Option<seq<string>>,
    targetFile: bool,
    routesFile: bool,
    containers: set<string>,
    volumes: set<string>,
    network: bool,
    routes: set<Prefix>,
    shim: bool,
    state: Option<StateDir>)

  const CLEAN := HostState(false, false, None, false, false, {}, {}, false, {}, false, None)

  /** The machines, whether ~/.kube/config has this cluster's entry, the name on the command line, and
      the cluster.yaml this run has read. */
  datatype World = World(hosts: map<HostId, HostState>, kube: bool, name: string, loaded: Option<Yaml>)

  function At(w: World, h: HostId): HostState { if h in w.hosts then w.hosts[h] else CLEAN }

  function Put(w: World, h: HostId, s: HostState): World { w.(hosts := w.hosts[h := s]) }

  function OperatorYaml(w: World): Option<Yaml> {
    var s := At(w, OPERATOR).state;
    if s.None? then None else s.value.yaml
  }

  // ---- single commands

  datatype Cmd =
    | SaveOperator(yaml: Yaml)
    | SaveCopy(h: HostId, yaml: Yaml)
    | DisableTarget(h: HostId)
    | StopNetwork(h: HostId)
    | RmContainer(h: HostId, container: string)
    | RmVolume(h: HostId, volume: string)
    | RmUnitFile(h: HostId, file: string)
    | RmUnitDir(h: HostId)
    | RmTargetFile(h: HostId)
    | RmRoutesFile(h: HostId)
    | RmNetwork(h: HostId)
    | DelRoute(h: HostId, route: Prefix)
    | DelShim(h: HostId)
    | RmYaml(h: HostId)
    | RmStateDir(h: HostId)
    | DropKubeEntry

  /** The machine a command works on. */
  function Target(c: Cmd): Option<HostId> {
    if c.DropKubeEntry? then None else if c.SaveOperator? then Some(OPERATOR) else Some(c.h)
  }

  /** What it makes of that machine. */
  function Effect(s: HostState, c: Cmd): HostState {
    match c
    case SaveOperator(y) => s.(state := Some(StateDir(Some(y))))
    case SaveCopy(_, y) => s.(state := Some(StateDir(Some(y))))
    case DisableTarget(_) => s.(target := false)
    case StopNetwork(_) => s.(netService := false)
    case RmContainer(_, n) => s.(containers := s.containers - {n})
    case RmVolume(_, v) => s.(volumes := s.volumes - {v})
    case RmUnitFile(_, f) =>
      if s.units.None? then s else s.(units := Some(Filter(s.units.value, (x: string) => x != f)))
    case RmUnitDir(_) => s.(units := None)
    case RmTargetFile(_) => s.(targetFile := false)
    case RmRoutesFile(_) => s.(routesFile := false)
    case RmNetwork(_) => s.(network := false)
    case DelRoute(_, r) => s.(routes := s.routes - {r})
    case DelShim(_) => s.(shim := false)
    case RmYaml(_) => if s.state.None? then s else s.(state := Some(StateDir(None)))
    case RmStateDir(_) => s.(state := None)
    case DropKubeEntry => s
  }

  function Step(w: World, c: Cmd): World {
    match c
    case SaveOperator(y) => Put(w, OPERATOR, Effect(At(w, OPERATOR), c)).(loaded := Some(y))
    case DropKubeEntry => w.(kube := false)
    case _ => Put(w, c.h, Effect(At(w, c.h), c))
  }

  /** A command changes its own machine and no other. */
  lemma StepAt(w: World, c: Cmd, h: HostId)
    ensures At(Step(w, c), h) == if Target(c) == Some(h) then Effect(At(w, h), c) else At(w, h)
  {
    hide Effect;
  }

  function Do(w: World, cmds: seq<Cmd>): World { Exec(Step, w, cmds) }

  // ---- what a run derives from the cluster.yaml it has read

  /** host_for; the operator without a cluster.yaml. */
  function HostFor(y: Option<Yaml>, container: string): HostId {
    if y.None? then OPERATOR else MachineOf(y.value.cluster, container)
  }

  /** The machines a per-host phase walks through: the remote ones, then the operator. */
  function Targets(y: Option<Yaml>): seq<HostId> {
    if y.None? || !y.value.cluster.MultiHost() then [OPERATOR]
    else RemotesOf(y.value.cluster) + [OPERATOR]
  }

  function RouterUnits(name: string): set<string> {
    {name + "-router.container", name + "-router-1.container", name + "-router-2.container"}
  }

  const SUFFIX := ".container"

  /** The container units of the operator's unit directory. */
  function ContainerUnits(w: World): seq<string> {
    var u := At(w, OPERATOR).units;
    Filter(if u.Some? then u.value else [], (f: string) => EndsWith(f, SUFFIX))
  }

  function NodeNamesOf(w: World): seq<string> {
    if w.loaded.Some? then Map(w.loaded.value.cluster.spec.nodes, (n: Node) => n.name)
    else Map(Filter(ContainerUnits(w), (f: string) => f !in RouterUnits(w.name)), (f: string) => RemoveSuffix(f, SUFFIX))
  }

  function RouterNamesOf(w: World): seq<string> {
    if w.loaded.Some? then Map(RoutersOf(w.loaded.value.cluster), (r: Router) => r.name)
    else Map(Filter(ContainerUnits(w), (f: string) => f in RouterUnits(w.name)), (f: string) => RemoveSuffix(f, SUFFIX))
  }

  function Containers(w: World): seq<string> { NodeNamesOf(w) + RouterNamesOf(w) }

  /** The pod and service subnets and every node CIDR with a route of its own. */
  function Subnets(y: Option<Yaml>): seq<Prefix> {
    if y.None? || y.value.cluster.spec.nodes == [] then []
    else
      var s := y.value.cluster.spec;
      var routed := Filter(s.nodes, (n: Node) => n.podCidr.Some? && n.name != s.nodes[0].name);
      [s.network.pods, s.network.services] + CidrsOf(routed)
  }

  function CidrsOf(nodes: seq<Node>): seq<Prefix> {
    if nodes == [] then []
    else CidrsOf(nodes[..|nodes| - 1]) + if nodes[|nodes| - 1].podCidr.Some? then [nodes[|nodes| - 1].podCidr.value] else []
  }

  // ---- the phases: when they are done, what they would run

  function MeshDone(w: World): bool { w.loaded.None? || w.loaded.value.peers == [] }

  function StopDone(w: World, h: HostId): bool { !At(w, h).target && !At(w, h).netService }

  function UnitsDone(w: World, h: HostId): bool { At(w, h).units.None? && !At(w, h).targetFile && !At(w, h).routesFile }

  function NetworkDone(w: World, h: HostId): bool { !At(w, h).network }

  function RoutesDone(w: World, h: HostId): bool { forall s :: s in Subnets(w.loaded) ==> s !in At(w, h).routes }

  function StateDone(w: World, h: HostId): bool { At(w, h).state.None? }

  function ContainersDone(w: World): bool {
    forall n :: n in Containers(w) ==> n !in At(w, HostFor(w.loaded, n)).containers
  }

  function VolumesDone(w: World): bool {
    forall n :: n in NodeNamesOf(w) ==> forall v :: v in NodeVolumes(n) ==> v !in At(w, HostFor(w.loaded, n)).volumes
  }

  function KubeDone(w: World): bool { w.loaded.None? || !w.kube }

  function AllDone(done: (World, HostId) -> bool): World -> bool {
    (w: World) => forall h :: h in Targets(w.loaded) ==> done(w, h)
  }

  /** run_each: every host in turn; with more than one host, only where it is not done yet. */
  function EachHost(w: World, hosts: seq<HostId>, many: bool, done: (World, HostId) -> bool,
          cmds: (World, HostId) -> seq<Cmd>): seq<Cmd>
    decreases |hosts|
  {
    if hosts == [] then []
    else
      var now := if many && done(w, hosts[0]) then [] else cmds(w, hosts[0]);
      now + EachHost(Do(w, now), hosts[1..], many, done, cmds)
  }

  function PerHost(done: (World, HostId) -> bool, cmds: (World, HostId) -> seq<Cmd>): World -> seq<Cmd> {
    (w: World) => EachHost(w, Targets(w.loaded), |Targets(w.loaded)| > 1, done, cmds)
  }

  function StopCmds(w: World, h: HostId): seq<Cmd> { [DisableTarget(h), StopNetwork(h)] }

  /** rm -rf of the unit directory, the target and the routes unit: file by file, then the rest. */
  function UnitsCmds(w: World, h: HostId): seq<Cmd> {
    Map(if At(w, h).units.Some? then At(w, h).units.value else [], (f: string) => RmUnitFile(h, f))
    + [RmUnitDir(h), RmTargetFile(h), RmRoutesFile(h)]
  }

  function NetworkCmds(w: World, h: HostId): seq<Cmd> { [RmNetwork(h)] }

  function RouteCmds(w: World, h: HostId, subnets: seq<Prefix>): seq<Cmd>
    decreases |subnets|
  {
    if subnets == [] then []
    else
      var now := if subnets[0] in At(w, h).routes then [DelRoute(h, subnets[0])] else [];
      now + RouteCmds(Do(w, now), h, subnets[1..])
  }

  function RoutesCmds(w: World, h: HostId): seq<Cmd> {
    RouteCmds(w, h, Subnets(w.loaded)) + if w.loaded.Some? && w.loaded.value.cluster.MultiHost() then [DelShim(h)] else []
  }

  /** rm -rf of the state directory: cluster.yaml may go before the directory does. */
  function StateCmds(w: World, h: HostId): seq<Cmd> { [RmYaml(h), RmStateDir(h)] }

  function ContainerCmds(w: World, names: seq<string>): seq<Cmd>
    decreases |names|
  {
    if names == [] then []
    else
      var h := HostFor(w.loaded, names[0]);
      var now := if names[0] in At(w, h).containers then [RmContainer(h, names[0])] else [];
      now + ContainerCmds(Do(w, now), names[1..])
  }

  function VolumeCmds(w: World, h: HostId, volumes: seq<string>): seq<Cmd>
    decreases |volumes|
  {
    if volumes == [] then []
    else
      var now := if volumes[0] in At(w, h).volumes then [RmVolume(h, volumes[0])] else [];
      now + VolumeCmds(Do(w, now), h, volumes[1..])
  }

  function NodeVolumeCmds(w: World, names: seq<string>): seq<Cmd>
    decreases |names|
  {
    if names == [] then []
    else
      var now := VolumeCmds(w, HostFor(w.loaded, names[0]), NodeVolumes(names[0]));
      now + NodeVolumeCmds(Do(w, now), names[1..])
  }

  function CopyCmds(y: Yaml, hosts: seq<HostId>): seq<Cmd> { Map(hosts, (h: HostId) => SaveCopy(h, y)) }

  /** Every peer in turn leaves the record, which is saved here and copied to every other host. */
  function MeshCmds(y: Yaml, peers: seq<string>): seq<Cmd>
    decreases |peers|
  {
    if peers == [] then []
    else
      var next := y.(peers := Filter(y.peers, (p: string) => p != peers[0]));
      [SaveOperator(next)] + CopyCmds(next, RemotesOf(y.cluster)) + MeshCmds(next, peers[1..])
  }

  function MeshPlan(w: World): seq<Cmd> { if w.loaded.None? then [] else MeshCmds(w.loaded.value, w.loaded.value.peers) }

  function ContainersPlan(w: World): seq<Cmd> { ContainerCmds(w, Containers(w)) }

  function VolumesPlan(w: World): seq<Cmd> { NodeVolumeCmds(w, NodeNamesOf(w)) }

  function KubePlan(w: World): seq<Cmd> { if KubeDone(w) then [] else [DropKubeEntry] }

  const MESH := 0
  const STOP := 1
  const CONTAINERS := 2
  const VOLUMES := 3
  const UNITS := 4
  const NETWORK := 5
  const ROUTES := 6
  const STATE := 7
  const KUBECONFIG := 8

  function Phases(): (r: seq<Phase<World, Cmd>>)
    ensures |r| == 9
  {
    [Phase("mesh", Some(MeshDone), MeshPlan),
     Phase("stop", Some(AllDone(StopDone)), PerHost(StopDone, StopCmds)),
     Phase("containers", Some(ContainersDone), ContainersPlan),
     Phase("volumes", Some(VolumesDone), VolumesPlan),
     Phase("units", Some(AllDone(UnitsDone)), PerHost(UnitsDone, UnitsCmds)),
     Phase("network", Some(AllDone(NetworkDone)), PerHost(NetworkDone, NetworkCmds)),
     Phase("routes", Some(AllDone(RoutesDone)), PerHost(RoutesDone, RoutesCmds)),
     Phase("state", Some(AllDone(StateDone)), PerHost(StateDone, StateCmds)),
     Phase("kubeconfig", Some(KubeDone), KubePlan)]
  }

  /** The phase as the runner is given it: one group of leaves. */
  function PHASE(): Tree<World, Cmd> { Group("delete", Map(Phases(), (p: Phase<World, Cmd>) => Leaf(p))) }

  /** A full run is the nine phases in this order. */
  lemma FullRunOrder()
    ensures Map(Leaves(PHASE(), ""), (l: (string, Phase<World, Cmd>)) => l.1) == Phases()
  {
    LeavesOfGroup("delete", Phases());
  }

  lemma PhaseNames()
    ensures Map(Phases(), (p: Phase<World, Cmd>) => p.name) ==
            ["mesh", "stop", "containers", "volumes", "units", "network", "routes", "state", "kubeconfig"]
  {
    var names := Map(Phases(), (p: Phase<World, Cmd>) => p.name);
    assert names[0] == "mesh" && names[1] == "stop" && names[2] == "containers" && names[3] == "volumes" && names[4] == "units";
    assert names[5] == "network" && names[6] == "routes" && names[7] == "state" && names[8] == "kubeconfig";
  }

  /** delete's own refusal: nothing of the cluster is left anywhere it would look. */
  function Found(w: World): bool {
    exists h :: h in Targets(w.loaded) &&
      (At(w, h).state.Some? || At(w, h).units.Some? || At(w, h).targetFile || At(w, h).network)
  }

  /** One tkctl delete cluster: it reads cluster.yaml anew and gets `budget` commands before it is cut. */
  function Attempt(w: World, budget: nat): (World, Option<Outcome>) {
    var start := w.(loaded := OperatorYaml(w));
    if !Found(start) then (start, None)
    else
      var (after, outcome) := Run(Step, Phases(), start, budget);
      (after, Some(outcome))
  }

  function Attempts(w: World, budgets: seq<nat>): World {
    if budgets == [] then w else Attempt(Attempts(w, budgets[..|budgets| - 1]), budgets[|budgets| - 1]).0
  }
}
