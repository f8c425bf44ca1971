/** What a delete leaves alone, and what it never removes too early when cluster.yaml is lost. */
module DeleteSafety {
  import opened Basics
  import opened Text
  import opened Addresses
  import opened ClusterModel
  import opened Hosts
  import opened Runner
  import opened DeleteCluster
  import opened DeleteShrinks
  import opened DeleteResumes

  // ---- other clusters' things

  function OwnContainers(c: Cluster): set<string> {
    Set(Map(c.spec.nodes, (n: Node) => n.name) + Map(RoutersOf(c), (r: Router) => r.name))
  }

  function OwnVolumes(c: Cluster): set<string> { set n, v | n in c.spec.nodes && v in NodeVolumes(n.name) :: v }

  function OwnRoutes(c: Cluster): set<Prefix> { Set(Subnets(Some(Yaml(c, [])))) }

  /** On every host the containers, volumes and routes that are not the cluster's are the same. */
  ghost predicate SameOthers(w: World, v: World, c: Cluster) {
    forall h ::
      && At(w, h).containers - OwnContainers(c) == At(v, h).containers - OwnContainers(c)
      && At(w, h).volumes - OwnVolumes(c) == At(v, h).volumes - OwnVolumes(c)
      && At(w, h).routes - OwnRoutes(c) == At(v, h).routes - OwnRoutes(c)
  }

  predicate Own(c: Cluster, cmd: Cmd) {
    && (cmd.RmContainer? ==> cmd.container in OwnContainers(c))
    && (cmd.RmVolume? ==> cmd.volume in OwnVolumes(c))
    && (cmd.DelRoute? ==> cmd.route in OwnRoutes(c))
  }

  lemma StepKeepsOthers(w: World, cmd: Cmd, v: World, c: Cluster)
    requires Own(c, cmd) && SameOthers(w, v, c)
    ensures SameOthers(Step(w, cmd), v, c)
  {
    hide OwnContainers;
    hide OwnVolumes;
    hide OwnRoutes;
    var x := Step(w, cmd);
    hide Step;
    forall h
      ensures At(x, h).containers - OwnContainers(c) == At(w, h).containers - OwnContainers(c)
      ensures At(x, h).volumes - OwnVolumes(c) == At(w, h).volumes - OwnVolumes(c)
      ensures At(x, h).routes - OwnRoutes(c) == At(w, h).routes - OwnRoutes(c)
    {
      StepAt(w, cmd, h);
    }
  }

  lemma {:induction false} DoKeepsOthers(w: World, cmds: seq<Cmd>, v: World, c: Cluster)
    requires (forall cmd :: cmd in cmds ==> Own(c, cmd)) && SameOthers(w, v, c)
    ensures SameOthers(Do(w, cmds), v, c)
  {
    if cmds != [] {
      hide Step;
      hide Own;
      hide SameOthers;
      var n := |cmds| - 1;
      Snoc(cmds);
      DoKeepsOthers(w, cmds[..n], v, c);
      StepKeepsOthers(Do(w, cmds[..n]), cmds[n], v, c);
    }
  }

  lemma MeshPlanClass(y: Yaml, peers: seq<string>)
    ensures forall cmd :: cmd in MeshCmds(y, peers) ==> Class(MESH, cmd)
    decreases |peers|
  {
    if peers != [] {
      var next := y.(peers := Filter(y.peers, (p: string) => p != peers[0]));
      MeshPlanClass(next, peers[1..]);
    }
  }

  lemma {:induction false} EachHostOwn(w: World, hosts: seq<HostId>, many: bool, done: (World, HostId) -> bool,
          c: Cluster)
    requires w.loaded.Some? && w.loaded.value.cluster == c
    ensures forall cmd :: cmd in EachHost(w, hosts, many, done, RoutesCmds) ==> Own(c, cmd)
    decreases |hosts|
  {
    if hosts != [] {
      hide Own;
      hide RoutesCmds;
      var now := if many && done(w, hosts[0]) then [] else RoutesCmds(w, hosts[0]);
      HostCommandsTake();
      RoutesOwn(w, hosts[0], c);
      DoShrinks(w, now);
      LoadedSame(Do(w, now), w);
      EachHostOwn(Do(w, now), hosts[1..], many, done, c);
    }
  }

  lemma RoutesOwn(w: World, h: HostId, c: Cluster)
    requires w.loaded.Some? && w.loaded.value.cluster == c
    ensures forall cmd :: cmd in RoutesCmds(w, h) ==> Own(c, cmd) && Takes(cmd)
  {
    RouteCmdsTake(w, h, Subnets(w.loaded));
    hide CidrsOf;
    assert Subnets(w.loaded) == Subnets(Some(Yaml(c, [])));
    hide Subnets;
  }

  /** Every command of a run that holds cluster.yaml is about the cluster's own things. */
  lemma PlanIsOwn(i: nat, w: World, c: Cluster)
    requires i < 9 && w.loaded.Some? && w.loaded.value.cluster == c
    ensures forall cmd :: cmd in Phases()[i].plan(w) ==> Own(c, cmd)
  {
    hide EachHost;
    hide ContainerCmds;
    hide NodeVolumeCmds;
    hide Targets;
    hide Subnets;
    hide MeshCmds;
    if i == MESH {
      MeshPlanClass(w.loaded.value, w.loaded.value.peers);
    } else if i == ROUTES {
      EachHostOwn(w, Targets(w.loaded), |Targets(w.loaded)| > 1, RoutesDone, c);
    } else {
      PlanClass(i, w);
      if i == CONTAINERS {
        ContainerCmdsTake(w, Containers(w));
      } else if i == VOLUMES {
        NodeVolumeCmdsTake(w, NodeNamesOf(w));
        VolumesOwn(c);
      }
    }
  }

  lemma VolumesOwn(c: Cluster)
    ensures forall n, v :: n in Map(c.spec.nodes, (x: Node) => x.name) && v in NodeVolumes(n) ==> v in OwnVolumes(c)
  {
    var names := Map(c.spec.nodes, (x: Node) => x.name);
    forall n, v | n in names && v in NodeVolumes(n)
      ensures v in OwnVolumes(c)
    {
      var i :| 0 <= i < |names| && names[i] == n;
      assert c.spec.nodes[i] in c.spec.nodes;
    }
  }

  lemma PrefixOwn(i: nat, w: World, v: World, k: nat, c: Cluster)
    requires i < 9 && k <= |Phases()[i].plan(w)| && SameOthers(w, v, c)
    requires Going(c, w) || Finishing(c, w.kube, w)
    ensures SameOthers(Do(w, Phases()[i].plan(w)[..k]), v, c)
  {
    var prefix := Phases()[i].plan(w)[..k];
    assert forall x :: x in prefix ==> x in Phases()[i].plan(w);
    if w.loaded.Some? {
      PlanIsOwn(i, w, c);
    } else {
      FinishingTakesNothing(i, w, c);
    }
    hide Phases;
    hide SameOthers;
    hide Own;
    DoKeepsOthers(w, prefix, v, c);
  }

  /** With everything cleaned there is no unit left to take a container or volume name from. */
  lemma FinishingTakesNothing(i: nat, w: World, c: Cluster)
    requires i < 9 && Finishing(c, w.kube, w)
    ensures forall cmd :: cmd in Phases()[i].plan(w) ==> Own(c, cmd)
  {
    var v := w.(loaded := Some(Yaml(c, [])));
    assert IsDone(Phases()[UNITS], v);
    OperatorIsTarget(v.loaded);
    assert At(v, OPERATOR).units.None?;
    hide Cleaned;
    if i == MESH || i == KUBECONFIG {
      assert Phases()[i].plan(w) == [];
    } else {
      PlanClass(i, w);
      if i == CONTAINERS {
        assert Containers(w) == [];
      } else if i == VOLUMES {
        assert NodeNamesOf(w) == [];
      } else if i == ROUTES {
        NoRoutes(w, Targets(w.loaded), |Targets(w.loaded)| > 1);
      }
    }
  }

  lemma {:induction false} NoRoutes(w: World, hosts: seq<HostId>, many: bool)
    requires w.loaded.None?
    ensures EachHost(w, hosts, many, RoutesDone, RoutesCmds) == []
    decreases |hosts|
  {
    if hosts != [] {
      assert Subnets(w.loaded) == [];
      assert RoutesCmds(w, hosts[0]) == [];
      assert Do(w, []) == w;
      NoRoutes(w, hosts[1..], many);
    }
  }

  /** A delete, however cut and rerun, touches no container, volume or route of anything else. */
  lemma {:induction false} DeleteTouchesOnlyItsOwn(w: World, c: Cluster, budgets: seq<nat>)
    requires Manageable(c) && Resumable(w, c)
    ensures SameOthers(Attempts(w, budgets), w, c)
  {
    if budgets != [] {
      hide Attempt;
      hide Resumable;
      hide SameOthers;
      var n := |budgets| - 1;
      DeleteTouchesOnlyItsOwn(w, c, budgets[..n]);
      AttemptsResumable(w, c, budgets[..n]);
      AttemptOwn(Attempts(w, budgets[..n]), w, c, budgets[n]);
    }
  }

  lemma GoingOwn(v: World, c: Cluster)
    requires Manageable(c)
    ensures Disciplined(Step, Phases(), (x: World) => Going(c, x) && SameOthers(x, v, c))
  {
    hide Phases;
    var inv, others := (x: World) => Going(c, x), (x: World) => SameOthers(x, v, c);
    GoingDisciplined(c);
    forall i: nat, x: World, k: nat | i < |Phases()| && inv(x) && others(x) && k <= |Phases()[i].plan(x)|
      ensures others(Exec(Step, x, Phases()[i].plan(x)[..k]))
    {
      PrefixOwn(i, x, v, k, c);
    }
    hide SameOthers;
    hide Going;
    AlsoKeeps(Step, Phases(), inv, others, (x: World) => Going(c, x) && SameOthers(x, v, c));
  }

  lemma FinishingOwn(v: World, c: Cluster, kube: bool)
    ensures Disciplined(Step, Phases(), (x: World) => Finishing(c, kube, x) && SameOthers(x, v, c))
  {
    hide Phases;
    hide Cleaned;
    var inv, others := (x: World) => Finishing(c, kube, x), (x: World) => SameOthers(x, v, c);
    FinishingDisciplined(c, kube);
    forall i: nat, x: World, k: nat | i < |Phases()| && inv(x) && others(x) && k <= |Phases()[i].plan(x)|
      ensures others(Exec(Step, x, Phases()[i].plan(x)[..k]))
    {
      PrefixOwn(i, x, v, k, c);
    }
    hide SameOthers;
    hide Finishing;
    AlsoKeeps(Step, Phases(), inv, others, (x: World) => Finishing(c, kube, x) && SameOthers(x, v, c));
  }

  lemma AttemptOwn(w: World, v: World, c: Cluster, budget: nat)
    requires Manageable(c) && Resumable(w, c) && SameOthers(w, v, c)
    ensures SameOthers(Attempt(w, budget).0, v, c)
  {
    hide Phases;
    hide Found;
    hide Cleaned;
    hide Going;
    hide Finishing;
    var start := w.(loaded := OperatorYaml(w));
    Reload(w, c);
    assert SameOthers(start, v, c) by {
      assert forall h :: At(start, h) == At(w, h);
    }
    hide SameOthers;
    if OperatorYaml(w).Some? {
      var inv := (x: World) => Going(c, x) && SameOthers(x, v, c);
      GoingOwn(v, c);
      assert Ready(Phases(), inv, 0, start);
      RunIsSafe(Step, Phases(), inv, 0, start, budget);
    } else {
      var inv := (x: World) => Finishing(c, w.kube, x) && SameOthers(x, v, c);
      FinishingOwn(v, c, w.kube);
      assert Ready(Phases(), inv, 0, start);
      RunIsSafe(Step, Phases(), inv, 0, start, budget);
    }
  }

  // ---- deleting without cluster.yaml

  /** Container and volumes of every container unit in the list are gone from the operator. */
  ghost predicate Backed(w: World, units: seq<string>) {
    forall f :: f in units && EndsWith(f, SUFFIX) ==>
      && RemoveSuffix(f, SUFFIX) !in At(w, OPERATOR).containers
      && (f !in RouterUnits(w.name) ==> forall v :: v in NodeVolumes(RemoveSuffix(f, SUFFIX)) ==> v !in At(w, OPERATOR).volumes)
  }

  /** No container or volume outlives the unit file that names it. */
  ghost predicate NoOrphan(w: World, units: seq<string>) {
    forall f :: f in units && EndsWith(f, SUFFIX) && (At(w, OPERATOR).units.None? || f !in At(w, OPERATOR).units.value) ==>
      && RemoveSuffix(f, SUFFIX) !in At(w, OPERATOR).containers
      && (f !in RouterUnits(w.name) ==> forall v :: v in NodeVolumes(RemoveSuffix(f, SUFFIX)) ==> v !in At(w, OPERATOR).volumes)
  }

  ghost predicate Blind(units: seq<string>, w: World) {
    && w.loaded.None? && OperatorYaml(w).None?
    && (At(w, OPERATOR).units == Some(units) || Backed(w, units))
  }

  lemma BackedLasts(w: World, v: World, units: seq<string>)
    requires Shrunk(w, v) && Backed(v, units)
    ensures Backed(w, units)
  {
    assert Less(At(w, OPERATOR), At(v, OPERATOR));
  }

  lemma {:induction false} UnitsUntouched(w: World, cmds: seq<Cmd>, i: nat)
    requires 1 <= i < UNITS && forall c :: c in cmds ==> Class(i, c)
    ensures At(Do(w, cmds), OPERATOR).units == At(w, OPERATOR).units
  {
    if cmds != [] {
      hide Step;
      var n := |cmds| - 1;
      UnitsUntouched(w, cmds[..n], i);
      assert cmds[n] in cmds;
      StepKeepsUnits(Do(w, cmds[..n]), cmds[n], i);
    }
  }

  lemma StepKeepsUnits(w: World, c: Cmd, i: nat)
    requires 1 <= i < UNITS && Class(i, c)
    ensures At(Step(w, c), OPERATOR).units == At(w, OPERATOR).units
  {
  }

  /** With containers and volumes done, the whole unit list is backed. */
  lemma DoneIsBacked(w: World, units: seq<string>)
    requires w.loaded.None? && At(w, OPERATOR).units == Some(units)
    requires ContainersDone(w) && VolumesDone(w)
    ensures Backed(w, units)
  {
    var all := ContainerUnits(w);
    var nodes := Filter(all, (f: string) => f !in RouterUnits(w.name));
    var routers := Filter(all, (f: string) => f in RouterUnits(w.name));
    forall f | f in units && EndsWith(f, SUFFIX)
      ensures RemoveSuffix(f, SUFFIX) in Containers(w)
      ensures f !in RouterUnits(w.name) ==> RemoveSuffix(f, SUFFIX) in NodeNamesOf(w)
    {
      assert f in all;
      if f in nodes {
        MapIn(nodes, (x: string) => RemoveSuffix(x, SUFFIX), f);
      }
      if f in routers {
        MapIn(routers, (x: string) => RemoveSuffix(x, SUFFIX), f);
      }
    }
    hide Containers;
    hide NodeNamesOf;
  }

  lemma BlindKeeps(units: seq<string>, i: nat, w: World, k: nat)
    requires i < 9 && k <= |Phases()[i].plan(w)|
    requires Ready(Phases(), (x: World) => Blind(units, x), i, w)
    ensures Ready(Phases(), (x: World) => Blind(units, x), i, Do(w, Phases()[i].plan(w)[..k]))
  {
    hide ContainersDone;
    hide VolumesDone;
    hide Exec;
    var prefix := Phases()[i].plan(w)[..k];
    if i == MESH || i == KUBECONFIG {
      assert prefix == [];
      ExecNothing(Step, w);
    } else {
      if i >= UNITS {
        RemovedBefore(i, w);
      }
      hide Phases;
      hide DoneUpTo;
      hide Blind;
      PrefixShrinks(i, w, k);
      EarlierStayDone(i, Do(w, prefix), w);
      BlindAfter(units, i, w, k);
    }
  }

  lemma RemovedBefore(i: nat, w: World)
    requires UNITS <= i < 9 && DoneUpTo(Phases(), i, w)
    ensures ContainersDone(w) && VolumesDone(w)
  {
    hide ContainersDone;
    hide VolumesDone;
    assert IsDone(Phases()[CONTAINERS], w) && IsDone(Phases()[VOLUMES], w);
  }

  lemma BlindAfter(units: seq<string>, i: nat, w: World, k: nat)
    requires 1 <= i < 8 && k <= |Phases()[i].plan(w)| && Blind(units, w)
    requires i >= UNITS ==> ContainersDone(w) && VolumesDone(w)
    ensures Blind(units, Do(w, Phases()[i].plan(w)[..k]))
  {
    hide Phases;
    hide Backed;
    hide ContainersDone;
    hide VolumesDone;
    var prefix := Phases()[i].plan(w)[..k];
    var v := Do(w, prefix);
    PlanClass(i, w);
    assert forall x :: x in prefix ==> x in Phases()[i].plan(w);
    PrefixShrinks(i, w, k);
    LoadedSame(v, w);
    YamlOnlyGoes(v, w);
    if i < UNITS {
      UnitsUntouched(w, prefix, i);
    } else if At(w, OPERATOR).units == Some(units) {
      DoneIsBacked(w, units);
    }
    if Backed(w, units) {
      BackedLasts(v, w, units);
    }
  }

  lemma BlindDisciplined(units: seq<string>)
    ensures Disciplined(Step, Phases(), (x: World) => Blind(units, x))
  {
    var inv := (x: World) => Blind(units, x);
    forall i: nat | i < |Phases()|
      ensures Keeps(Step, Phases(), inv, i) && Establishes(Step, Phases(), inv, i)
    {
      forall w: World, k: nat | Ready(Phases(), inv, i, w) && k <= |Phases()[i].plan(w)|
        ensures Ready(Phases(), inv, i, Exec(Step, w, Phases()[i].plan(w)[..k]))
      {
        BlindKeeps(units, i, w, k);
      }
      forall w: World | Ready(Phases(), inv, i, w)
        ensures IsDone(Phases()[i], Exec(Step, w, Phases()[i].plan(w)))
      {
        PhaseAchieves(i, w);
      }
    }
  }

  lemma OneBlindAttempt(w: World, units: seq<string>, budget: nat)
    requires Blind(units, w.(loaded := None))
    ensures Blind(units, Attempt(w, budget).0)
  {
    hide Phases;
    hide Found;
    hide Blind;
    var start := w.(loaded := OperatorYaml(w));
    YamlLost(w, units);
    var inv := (x: World) => Blind(units, x);
    BlindDisciplined(units);
    assert Ready(Phases(), inv, 0, start);
    RunIsSafe(Step, Phases(), inv, 0, start, budget);
  }

  lemma YamlLost(w: World, units: seq<string>)
    requires Blind(units, w.(loaded := None))
    ensures OperatorYaml(w).None?
  {
  }

  lemma BlindReload(w: World, units: seq<string>)
    requires Blind(units, w)
    ensures Blind(units, w.(loaded := None)) && NoOrphan(w, units)
  {
  }

  /** Deleting a cluster whose cluster.yaml is lost, cut anywhere and rerun any number of times: at no
      moment does a container, or a node's volume, outlive the unit file it was named by. */
  lemma {:induction false} NothingIsOrphaned(w: World, units: seq<string>, budgets: seq<nat>)
    requires OperatorYaml(w).None? && w.loaded.None? && At(w, OPERATOR).units == Some(units)
    ensures Blind(units, Attempts(w, budgets))
    ensures NoOrphan(Attempts(w, budgets), units)
  {
    var cut := Attempts(w, budgets);
    if budgets != [] {
      hide Attempt;
      hide Blind;
      hide NoOrphan;
      var n := |budgets| - 1;
      NothingIsOrphaned(w, units, budgets[..n]);
      BlindReload(Attempts(w, budgets[..n]), units);
      OneBlindAttempt(Attempts(w, budgets[..n]), units, budgets[n]);
      BlindReload(cut, units);
    }
  }

  /** What that means for one container: the names are taken from the operator's container units, all of
      them but the routers' being nodes with volumes of their own. */
  lemma BlindNames(w: World, name: string)
    requires w.loaded.None?
    ensures var listed := At(w, OPERATOR).units.Some? && name + ".container" in At(w, OPERATOR).units.value;
            var router := name in {w.name + "-router", w.name + "-router-1", w.name + "-router-2"};
            && (name in NodeNamesOf(w) <==> listed && !router)
            && (name in RouterNamesOf(w) <==> listed && router)
  {
    var file := name + ".container";
    assert EndsWith(file, SUFFIX) && RemoveSuffix(file, SUFFIX) == name;
    RouterFiles(w.name, name);
    var strip := (f: string) => RemoveSuffix(f, SUFFIX);
    var nodes := Filter(ContainerUnits(w), (f: string) => f !in RouterUnits(w.name));
    var routers := Filter(ContainerUnits(w), (f: string) => f in RouterUnits(w.name));
    StrippedIn(nodes, name);
    StrippedIn(routers, name);
    hide RouterUnits;
    hide EndsWith;
    hide RemoveSuffix;
  }

  lemma RouterFiles(cluster: string, name: string)
    ensures name + ".container" in RouterUnits(cluster) <==> name in {cluster + "-router", cluster + "-router-1", cluster + "-router-2"}
  {
    forall router: string
      ensures name + ".container" == router + ".container" <==> name == router
    {
      var a, b := name + ".container", router + ".container";
      if a == b {
        assert name == a[..|a| - 10] && router == b[..|b| - 10];
      }
    }
    assert cluster + "-router.container" == cluster + "-router" + ".container";
    assert cluster + "-router-1.container" == cluster + "-router-1" + ".container";
    assert cluster + "-router-2.container" == cluster + "-router-2" + ".container";
  }

  lemma StrippedIn(files: seq<string>, name: string)
    requires forall f :: f in files ==> EndsWith(f, SUFFIX)
    ensures name in Map(files, (f: string) => RemoveSuffix(f, SUFFIX)) <==> name + ".container" in files
  {
    var strip := (f: string) => RemoveSuffix(f, SUFFIX);
    var names := Map(files, strip);
    if name in names {
      var i :| 0 <= i < |names| && names[i] == name;
      assert files[i] in files;
      assert files[i] == name + ".container";
    }
    if name + ".container" in files {
      MapIn(files, strip, name + ".container");
    }
  }

  /** A finished delete without cluster.yaml leaves no container of the unit list it began with, and no
      volume of its nodes. */
  lemma BlindDeleteLeaves(w: World, units: seq<string>, budgets: seq<nat>, last: nat, name: string)
    requires OperatorYaml(w).None? && w.loaded.None? && At(w, OPERATOR).units == Some(units)
    requires Attempt(Attempts(w, budgets), last).1 == Some(Finished) && name + ".container" in units
    ensures var after := Attempt(Attempts(w, budgets), last).0;
            && At(after, OPERATOR).units.None? && name !in At(after, OPERATOR).containers
            && (name !in {after.name + "-router", after.name + "-router-1", after.name + "-router-2"} ==>
                  forall v :: v in {name + "-var", name + "-etc", name + "-usr-local-bin"} ==> v !in At(after, OPERATOR).volumes)
  {
    hide Phases;
    hide Found;
    hide Blind;
    hide NoOrphan;
    var cut := Attempts(w, budgets);
    NothingIsOrphaned(w, units, budgets);
    BlindReload(cut, units);
    YamlLost(cut, units);
    BlindUnitsGone(cut, units, last);
    hide Attempt;
    var all := budgets + [last];
    assert all[..|all| - 1] == budgets;
    NothingIsOrphaned(w, units, all);
    OrphanName(Attempt(cut, last).0, units, name);
  }

  lemma BlindUnitsGone(w: World, units: seq<string>, budget: nat)
    requires Blind(units, w.(loaded := OperatorYaml(w))) && Attempt(w, budget).1 == Some(Finished)
    ensures At(Attempt(w, budget).0, OPERATOR).units.None?
  {
    hide Phases;
    hide Found;
    hide Blind;
    var inv := (x: World) => Blind(units, x);
    var start := w.(loaded := OperatorYaml(w));
    BlindDisciplined(units);
    assert Ready(Phases(), inv, 0, start);
    RunIsSafe(Step, Phases(), inv, 0, start, budget);
    UnitsAreDone(Attempt(w, budget).0);
  }

  lemma UnitsAreDone(w: World)
    requires DoneUpTo(Phases(), 9, w)
    ensures At(w, OPERATOR).units.None?
  {
    assert IsDone(Phases()[UNITS], w);
    OperatorIsTarget(w.loaded);
    assert UnitsDone(w, OPERATOR);
  }

  lemma OrphanName(w: World, units: seq<string>, name: string)
    requires NoOrphan(w, units) && name + ".container" in units && At(w, OPERATOR).units.None?
    ensures name !in At(w, OPERATOR).containers
    ensures name !in {w.name + "-router", w.name + "-router-1", w.name + "-router-2"} ==>
              forall v :: v in {name + "-var", name + "-etc", name + "-usr-local-bin"} ==> v !in At(w, OPERATOR).volumes
  {
    var file := name + ".container";
    assert EndsWith(file, SUFFIX) && RemoveSuffix(file, SUFFIX) == name;
    RouterFiles(w.name, name);
    hide RouterUnits;
  }

  // ---- refusing

  /** A delete is refused exactly when no machine it would look at has a state directory, units, a target
      file or a podman network left; then nothing happens. */
  lemma RefusedIff(w: World, budget: nat)
    ensures Attempt(w, budget).1 == None <==>
            forall h :: h == OPERATOR || (OperatorYaml(w).Some? && h in RemotesOf(OperatorYaml(w).value.cluster)) ==>
              var s := At(w, h);
              s.state.None? && s.units.None? && !s.targetFile && !s.network
    ensures Attempt(w, budget).1 == None ==> Attempt(w, budget).0 == w.(loaded := OperatorYaml(w))
  {
    hide Phases;
    hide RunFrom;
    hide OperatorYaml;
    hide RemotesOf;
    var start := w.(loaded := OperatorYaml(w));
    assert forall h :: At(start, h) == At(w, h);
    SomeTargets(start.loaded);
    hide Targets;
    hide At;
  }

  lemma SomeTargets(y: Option<Yaml>)
    ensures forall h :: h in Targets(y) <==> h == OPERATOR || (y.Some? && h in RemotesOf(y.value.cluster))
  {
  }
}
