/** In which order a delete takes things from a machine: nothing before its units are down, no volume
    before its container, whatever the hosts hold and however often the delete is cut. */
module DeleteOrder {
  import opened Basics
  import opened ClusterModel
  import opened Hosts
  import opened Runner
  import opened DeleteCluster
  import opened DeleteShrinks
  import DeleteSafety

  // ---- where a phase works

  lemma HostIsTarget(y: Option<Yaml>, container: string)
    ensures HostFor(y, container) in Targets(y)
  {
    hide HostOf;
    if y.Some? {
      var c := y.value.cluster;
      if c.MultiHost() {
        RemoteListed(c);
      }
    }
  }

  lemma RemoteListed(c: Cluster)
    requires c.MultiHost()
    ensures forall h :: h in c.spec.hosts.value && h.ssh.Some? ==> MachineOfEntry(h) in RemotesOf(c)
  {
    var remote := Filter(c.spec.hosts.value, (h: Host) => h.ssh.Some?);
    forall h | h in c.spec.hosts.value && h.ssh.Some?
      ensures MachineOfEntry(h) in RemotesOf(c)
    {
      assert h in remote;
      MapIn(remote, (x: Host) => MachineOfEntry(x), h);
    }
  }

  lemma {:induction false} ContainerCmdsAt(w: World, names: seq<string>)
    ensures forall x :: x in ContainerCmds(w, names) ==> x.RmContainer? && x.h == HostFor(w.loaded, x.container)
    decreases |names|
  {
    if names != [] {
      hide HostFor;
      var h := HostFor(w.loaded, names[0]);
      var now := if names[0] in At(w, h).containers then [RmContainer(h, names[0])] else [];
      ExecNothing(Step, w);
      ExecOne(Step, w, RmContainer(h, names[0]));
      assert Do(w, now).loaded == w.loaded;
      hide Exec;
      hide Step;
      ContainerCmdsAt(Do(w, now), names[1..]);
    }
  }

  lemma {:induction false} VolumeCmdsAt(w: World, h: HostId, volumes: seq<string>)
    ensures forall x :: x in VolumeCmds(w, h, volumes) ==> x.RmVolume? && x.h == h && x.volume in volumes
    decreases |volumes|
  {
    if volumes != [] {
      hide Exec;
      hide At;
      var now := if volumes[0] in At(w, h).volumes then [RmVolume(h, volumes[0])] else [];
      VolumeCmdsAt(Do(w, now), h, volumes[1..]);
    }
  }

  lemma {:induction false} NodeVolumeCmdsAt(w: World, names: seq<string>)
    ensures forall x :: x in NodeVolumeCmds(w, names) ==>
              x.RmVolume? && exists n :: n in names && x.volume in NodeVolumes(n) && x.h == HostFor(w.loaded, n)
    decreases |names|
  {
    if names != [] {
      hide HostFor;
      hide VolumeCmds;
      hide NodeVolumes;
      hide Exec;
      var h := HostFor(w.loaded, names[0]);
      var now := VolumeCmds(w, h, NodeVolumes(names[0]));
      VolumeCmdsAt(w, h, NodeVolumes(names[0]));
      DoShrinks(w, now);
      LoadedSame(Do(w, now), w);
      NodeVolumeCmdsAt(Do(w, now), names[1..]);
      assert names[0] in names && forall n :: n in names[1..] ==> n in names;
    }
  }

  /** A host's turn works on that host. */
  ghost predicate OnHost(cmds: (World, HostId) -> seq<Cmd>) {
    forall w, h, x :: x in cmds(w, h) ==> Takes(x) && Target(x) == Some(h)
  }

  lemma {:induction false} EachHostAt(w: World, hosts: seq<HostId>, many: bool, done: (World, HostId) -> bool,
          cmds: (World, HostId) -> seq<Cmd>)
    requires OnHost(cmds)
    ensures forall x :: x in EachHost(w, hosts, many, done, cmds) ==> exists h :: h in hosts && Target(x) == Some(h)
    decreases |hosts|
  {
    if hosts != [] {
      hide Exec;
      hide Target;
      var now := if many && done(w, hosts[0]) then [] else cmds(w, hosts[0]);
      EachHostAt(Do(w, now), hosts[1..], many, done, cmds);
      assert hosts[0] in hosts && forall h :: h in hosts[1..] ==> h in hosts;
    }
  }

  lemma HostCommandsOnHost()
    ensures OnHost(StopCmds) && OnHost(UnitsCmds) && OnHost(NetworkCmds) && OnHost(RoutesCmds) && OnHost(StateCmds)
  {
    hide StopCmds;
    hide UnitsCmds;
    hide NetworkCmds;
    hide RoutesCmds;
    hide StateCmds;
    hide Takes;
    hide Target;
    forall w, h, x
      ensures x in StopCmds(w, h) || x in UnitsCmds(w, h) || x in NetworkCmds(w, h) || x in RoutesCmds(w, h) || x in StateCmds(w, h) ==>
                Takes(x) && Target(x) == Some(h)
    {
      TurnOnHost(w, h, x);
      RoutesOnHost(w, h);
    }
  }

  lemma TurnOnHost(w: World, h: HostId, x: Cmd)
    ensures x in StopCmds(w, h) || x in UnitsCmds(w, h) || x in NetworkCmds(w, h) || x in StateCmds(w, h) ==>
              Takes(x) && Target(x) == Some(h)
  {
    hide At;
  }

  lemma RoutesOnHost(w: World, h: HostId)
    ensures forall x :: x in RoutesCmds(w, h) ==> Takes(x) && Target(x) == Some(h)
  {
    RouteCmdsTake(w, h, Subnets(w.loaded));
    hide RouteCmds;
    hide Subnets;
  }

  /** Every phase but the mesh's works on the cluster's machines only. */
  lemma PlanAt(i: nat, w: World)
    requires 1 <= i < 9
    ensures forall x :: x in Phases()[i].plan(w) && Target(x).Some? ==> Target(x).value in Targets(w.loaded)
  {
    hide EachHost;
    hide ContainerCmds;
    hide NodeVolumeCmds;
    hide Targets;
    hide Containers;
    hide NodeNamesOf;
    hide HostFor;
    hide NodeVolumes;
    hide OnHost;
    HostCommandsOnHost();
    var hosts := Targets(w.loaded);
    forall n
      ensures HostFor(w.loaded, n) in hosts
    {
      HostIsTarget(w.loaded, n);
    }
    EachHostAt(w, hosts, |hosts| > 1, StopDone, StopCmds);
    EachHostAt(w, hosts, |hosts| > 1, UnitsDone, UnitsCmds);
    EachHostAt(w, hosts, |hosts| > 1, NetworkDone, NetworkCmds);
    EachHostAt(w, hosts, |hosts| > 1, RoutesDone, RoutesCmds);
    EachHostAt(w, hosts, |hosts| > 1, StateDone, StateCmds);
    ContainerCmdsAt(w, Containers(w));
    NodeVolumeCmdsAt(w, NodeNamesOf(w));
  }

  // ---- the order on one machine

  /** While the machine's target or network unit is up, it holds what it held, cluster.yaml aside. */
  ghost predicate Untouched(s: HostState, t: HostState) {
    && (s.target || s.netService ==> s == t.(target := s.target, netService := s.netService, state := s.state))
    && (s.target || s.netService ==> t.state.Some? ==> s.state.Some?)
  }

  /** A volume of a node goes after the node's container. */
  ghost predicate VolumesLater(s: HostState, t: HostState) {
    forall n, v :: v in NodeVolumes(n) && v in t.volumes && v !in s.volumes ==> n !in s.containers
  }

  ghost predicate InOrder(base: World, w: World) {
    forall h :: Untouched(At(w, h), At(base, h)) && VolumesLater(At(w, h), At(base, h))
  }

  /** What a phase counts on: the units are down once stop is done, the containers gone once they are. */
  ghost predicate Before(base: World, i: nat, w: World) {
    && InOrder(base, w)
    && (i > STOP ==> AllDone(StopDone)(w))
    && (i > CONTAINERS ==> ContainersDone(w))
  }

  /** A command that may come now. */
  predicate Timely(s: HostState, x: Cmd) {
    match x
    case SaveOperator(_) => true
    case SaveCopy(_, _) => true
    case DisableTarget(_) => true
    case StopNetwork(_) => true
    case _ => !s.target && !s.netService
  }

  lemma NodeOfVolume(m: string, n: string, v: string)
    requires v in NodeVolumes(m) && v in NodeVolumes(n)
    ensures m == n
  {
    assert forall x: string :: (x + "-var")[|x + "-var"| - 1] == 'r' && (x + "-etc")[|x + "-etc"| - 1] == 'c' && (x + "-usr-local-bin")[|x + "-usr-local-bin"| - 1] == 'n';
    assert v == m + "-var" ==> v[..|v| - 4] == m;
    assert v == n + "-var" ==> v[..|v| - 4] == n;
    assert v == m + "-etc" ==> v[..|v| - 4] == m;
    assert v == n + "-etc" ==> v[..|v| - 4] == n;
    assert v == m + "-usr-local-bin" ==> v[..|v| - 14] == m;
    assert v == n + "-usr-local-bin" ==> v[..|v| - 14] == n;
  }

  lemma EffectInOrder(s: HostState, t: HostState, x: Cmd)
    requires Untouched(s, t) && VolumesLater(s, t) && Timely(s, x)
    requires x.RmVolume? ==> exists n :: x.volume in NodeVolumes(n) && n !in s.containers
    ensures Untouched(Effect(s, x), t) && VolumesLater(Effect(s, x), t)
  {
    hide NodeVolumes;
    if x.RmVolume? {
      var n :| x.volume in NodeVolumes(n) && n !in s.containers;
      forall m | x.volume in NodeVolumes(m)
        ensures m == n
      {
        NodeOfVolume(m, n, x.volume);
      }
    }
  }

  lemma StepInOrder(base: World, w: World, x: Cmd)
    requires InOrder(base, w)
    requires Target(x).Some? ==> Timely(At(w, Target(x).value), x)
    requires x.RmVolume? ==> exists n :: x.volume in NodeVolumes(n) && n !in At(w, x.h).containers
    ensures InOrder(base, Step(w, x))
  {
    forall h
      ensures Untouched(At(Step(w, x), h), At(base, h)) && VolumesLater(At(Step(w, x), h), At(base, h))
    {
      StepAt(w, x, h);
      hide Step;
      hide NodeVolumes;
      if Target(x) == Some(h) {
        EffectInOrder(At(w, h), At(base, h), x);
      }
      hide Effect;
      hide Timely;
      hide Untouched;
      hide VolumesLater;
    }
  }

  /** Machines whose units are down, and every volume to be removed belongs to a removed container. */
  ghost predicate Down(w: World, x: Cmd) {
    && (Target(x).Some? ==> StopDone(w, Target(x).value))
    && (x.RmVolume? ==> exists n :: x.volume in NodeVolumes(n) && n !in At(w, x.h).containers)
  }

  lemma DownLasts(w: World, v: World, x: Cmd)
    requires Shrunk(w, v) && Down(v, x)
    ensures Down(w, x)
  {
    hide NodeVolumes;
    if Target(x).Some? {
      assert Less(At(w, Target(x).value), At(v, Target(x).value));
    }
  }

  lemma {:induction false} DoInOrder(base: World, w: World, cmds: seq<Cmd>)
    requires InOrder(base, w)
    requires forall x :: x in cmds ==> Takes(x) && (x.DisableTarget? || x.StopNetwork? || Down(w, x))
    ensures InOrder(base, Do(w, cmds))
  {
    if cmds != [] {
      hide Step;
      hide InOrder;
      hide Down;
      hide Shrunk;
      hide Timely;
      var n := |cmds| - 1;
      var v, x := Do(w, cmds[..n]), cmds[n];
      Snoc(cmds);
      assert forall y :: y in cmds[..n] ==> y in cmds;
      assert x in cmds;
      DoInOrder(base, w, cmds[..n]);
      DoShrinks(w, cmds[..n]);
      LastInOrder(base, w, v, x);
    }
  }

  lemma LastInOrder(base: World, w: World, v: World, x: Cmd)
    requires InOrder(base, v) && Shrunk(v, w) && Takes(x) && (x.DisableTarget? || x.StopNetwork? || Down(w, x))
    ensures InOrder(base, Step(v, x))
  {
    hide Step;
    hide InOrder;
    hide NodeVolumes;
    if !x.DisableTarget? && !x.StopNetwork? {
      DownLasts(v, w, x);
    }
    hide Shrunk;
    StepInOrder(base, v, x);
  }

  lemma {:induction false} SavesInOrder(base: World, w: World, cmds: seq<Cmd>)
    requires InOrder(base, w) && forall x :: x in cmds ==> x.SaveOperator? || x.SaveCopy?
    ensures InOrder(base, Do(w, cmds))
  {
    if cmds != [] {
      hide Step;
      hide InOrder;
      hide NodeVolumes;
      var n := |cmds| - 1;
      assert cmds[n] in cmds;
      SavesInOrder(base, w, cmds[..n]);
      StepInOrder(base, Do(w, cmds[..n]), cmds[n]);
    }
  }

  // ---- the phases

  lemma PlanIsDown(base: World, i: nat, w: World)
    requires 1 <= i < 9 && Before(base, i, w)
    ensures forall x :: x in Phases()[i].plan(w) ==> Takes(x) && (x.DisableTarget? || x.StopNetwork? || Down(w, x))
  {
    PlanClass(i, w);
    PlanAt(i, w);
    VolumesPlanned(w);
    hide Targets;
    hide ContainersDone;
    hide InOrder;
    hide StopDone;
    hide NodeVolumes;
    assert i == VOLUMES ==> Phases()[i].plan(w) == VolumesPlan(w);
    hide Phases;
    hide VolumesPlan;
    forall x | x in Phases()[i].plan(w) && !x.DisableTarget? && !x.StopNetwork?
      ensures Down(w, x)
    {
      assert i != STOP;
      assert x.RmVolume? ==> i == VOLUMES;
    }
  }

  lemma VolumesPlanned(w: World)
    ensures ContainersDone(w) ==> forall x :: x in VolumesPlan(w) ==> x.RmVolume? && exists n :: x.volume in NodeVolumes(n) && n !in At(w, x.h).containers
  {
    hide NodeNamesOf;
    hide RouterNamesOf;
    hide HostFor;
    hide NodeVolumes;
    hide NodeVolumeCmds;
    NodeVolumeCmdsAt(w, NodeNamesOf(w));
    assert forall n :: n in NodeNamesOf(w) ==> n in Containers(w);
  }

  lemma PrefixInOrder(base: World, i: nat, w: World, k: nat)
    requires i < 9 && Before(base, i, w) && k <= |Phases()[i].plan(w)|
    ensures InOrder(base, Do(w, Phases()[i].plan(w)[..k]))
  {
    var cmds := Phases()[i].plan(w);
    if i == MESH {
      MeshSaves(w);
    } else {
      PlanIsDown(base, i, w);
    }
    hide Phases;
    hide InOrder;
    hide Down;
    assert forall x :: x in cmds[..k] ==> x in cmds;
    if i == MESH {
      SavesInOrder(base, w, cmds[..k]);
    } else {
      DoInOrder(base, w, cmds[..k]);
    }
  }

  lemma MeshSaves(w: World)
    ensures forall x :: x in Phases()[MESH].plan(w) ==> x.SaveOperator? || x.SaveCopy?
  {
    hide MeshCmds;
    if w.loaded.Some? {
      DeleteSafety.MeshPlanClass(w.loaded.value, w.loaded.value.peers);
    }
  }

  lemma StaysReady(base: World, i: nat, w: World)
    requires i < 9 && Before(base, i, w)
    requires IsDone(Phases()[i], Do(w, Phases()[i].plan(w)))
    ensures Before(base, i + 1, Do(w, Phases()[i].plan(w)))
  {
    hide InOrder;
    hide ContainersDone;
    hide StopDone;
    hide Targets;
    hide Exec;
    var cmds := Phases()[i].plan(w);
    var v := Do(w, cmds);
    PrefixInOrder(base, i, w, |cmds|);
    assert cmds[..|cmds|] == cmds;
    if i > STOP {
      StillDown(i, w, v);
    }
    NowDone(i, v);
    hide Phases;
    hide AllDone;
  }

  lemma NowDone(i: nat, w: World)
    requires i < 9 && IsDone(Phases()[i], w)
    ensures i == STOP ==> AllDone(StopDone)(w)
    ensures i == CONTAINERS ==> ContainersDone(w)
  {
    hide ContainersDone;
    hide StopDone;
    hide Targets;
  }

  lemma StillDown(i: nat, w: World, v: World)
    requires STOP < i < 9 && v == Do(w, Phases()[i].plan(w)) && AllDone(StopDone)(w)
    ensures AllDone(StopDone)(v) && (ContainersDone(w) ==> ContainersDone(v))
  {
    PlanClass(i, w);
    var cmds := Phases()[i].plan(w);
    DoShrinks(w, cmds);
    assert IsDone(Phases()[STOP], w);
    DoneLasts(STOP, v, w);
    ContainersStayDone(v, w);
    hide ContainersDone;
    hide StopDone;
    hide Targets;
    hide Shrunk;
    hide Exec;
  }

  lemma DoneReady(base: World, i: nat, w: World)
    requires i < 9 && Before(base, i, w) && IsDone(Phases()[i], w)
    ensures Before(base, i + 1, w)
  {
    hide InOrder;
    hide ContainersDone;
    hide StopDone;
    hide Targets;
  }

  lemma OrderGuarded(base: World)
    ensures Guarded(Step, Phases(), (i: nat, w: World) => Before(base, i, w), (w: World) => InOrder(base, w))
  {
    hide Exec;
    var ready, safe := (i: nat, w: World) => Before(base, i, w), (w: World) => InOrder(base, w);
    assert forall i: nat :: i < 9 ==> Phases()[i].done.Some?;
    hide Phases;
    hide InOrder;
    hide AllDone;
    hide ContainersDone;
    forall i: nat, w: World | i < |Phases()| && ready(i, w)
      ensures Guards(Step, Phases(), ready, safe, i, w)
    {
      var cmds := Phases()[i].plan(w);
      if IsDone(Phases()[i], w) {
        DoneReady(base, i, w);
      } else {
        forall k: nat | k <= |cmds|
          ensures safe(Exec(Step, w, cmds[..k]))
        {
          PrefixInOrder(base, i, w, k);
        }
        if IsDone(Phases()[i], Exec(Step, w, cmds)) {
          StaysReady(base, i, w);
        }
      }
    }
  }

  lemma OrderAttempt(base: World, w: World, budget: nat)
    requires InOrder(base, w)
    ensures InOrder(base, Attempt(w, budget).0)
  {
    hide Phases;
    hide Found;
    hide Guarded;
    hide Completing;
    hide RunFrom;
    hide AllDone;
    hide ContainersDone;
    var start := w.(loaded := OperatorYaml(w));
    assert InOrder(base, start) by {
      assert forall h :: At(start, h) == At(w, h);
    }
    hide InOrder;
    var ready, safe := (i: nat, v: World) => Before(base, i, v), (v: World) => InOrder(base, v);
    OrderGuarded(base);
    assert ready(0, start);
    RunStays(Step, Phases(), ready, safe, 0, start, budget);
    assert safe(Run(Step, Phases(), start, budget).0);
  }

  /** At no moment of a delete, cut and rerun any number of times, has a machine lost anything while its
      target or network unit was up, or a node's volume while the node's container was there. */
  lemma {:induction false} DeleteInOrder(w: World, budgets: seq<nat>)
    ensures InOrder(w, Attempts(w, budgets))
  {
    if budgets != [] {
      hide Attempt;
      hide InOrder;
      var n := |budgets| - 1;
      DeleteInOrder(w, budgets[..n]);
      OrderAttempt(w, Attempts(w, budgets[..n]), budgets[n]);
    } else {
      OrderSelf(w);
    }
  }

  lemma OrderSelf(w: World)
    ensures InOrder(w, w)
  {
  }

  // ---- the target before the network unit

  /** Since `base` no machine's network unit was stopped while its target was up. */
  ghost predicate TargetFirst(base: World, w: World) {
    forall h :: At(base, h).netService && !At(w, h).netService ==> !At(w, h).target
  }

  lemma TargetFirstStep(base: World, w: World, x: Cmd)
    requires TargetFirst(base, w) && (x.StopNetwork? ==> !At(w, x.h).target)
    ensures TargetFirst(base, Step(w, x))
  {
    forall h
      ensures At(base, h).netService && !At(Step(w, x), h).netService ==> !At(Step(w, x), h).target
    {
      StepAt(w, x, h);
      hide Step;
      hide At;
    }
  }

  lemma {:induction false} TargetFirstDo(base: World, w: World, cmds: seq<Cmd>)
    requires TargetFirst(base, w) && forall x :: x in cmds ==> !x.StopNetwork?
    ensures TargetFirst(base, Do(w, cmds))
  {
    if cmds != [] {
      hide Step;
      hide TargetFirst;
      var n := |cmds| - 1;
      Snoc(cmds);
      TargetFirstDo(base, w, cmds[..n]);
      assert !cmds[n].StopNetwork?;
      TargetFirstStep(base, Do(w, cmds[..n]), cmds[n]);
    }
  }

  lemma StopTurn(base: World, w: World, h: HostId, k: nat)
    requires TargetFirst(base, w) && k <= |StopCmds(w, h)|
    ensures TargetFirst(base, Do(w, StopCmds(w, h)[..k]))
  {
    hide TargetFirst;
    hide Step;
    hide Exec;
    hide At;
    var cmds := [DisableTarget(h), StopNetwork(h)];
    assert StopCmds(w, h) == cmds;
    TargetFirstStep(base, w, DisableTarget(h));
    StepAt(w, DisableTarget(h), h);
    if k == 0 {
      assert cmds[..k] == [];
      ExecNothing(Step, w);
    } else if k == 1 {
      assert cmds[..k] == [DisableTarget(h)];
      ExecOne(Step, w, DisableTarget(h));
    } else {
      assert cmds[..k] == cmds;
      ExecTwo(Step, w, DisableTarget(h), StopNetwork(h));
      TargetFirstStep(base, Step(w, DisableTarget(h)), StopNetwork(h));
    }
  }

  lemma {:induction false} StopsInOrder(base: World, w: World, hosts: seq<HostId>, many: bool, k: nat)
    requires TargetFirst(base, w) && k <= |EachHost(w, hosts, many, StopDone, StopCmds)|
    ensures TargetFirst(base, Do(w, EachHost(w, hosts, many, StopDone, StopCmds)[..k]))
    decreases |hosts|
  {
    hide TargetFirst;
    hide Step;
    hide StopCmds;
    hide StopDone;
    var cmds := EachHost(w, hosts, many, StopDone, StopCmds);
    if hosts == [] {
      assert cmds[..k] == [];
    } else {
      var now := if many && StopDone(w, hosts[0]) then [] else StopCmds(w, hosts[0]);
      var rest := EachHost(Do(w, now), hosts[1..], many, StopDone, StopCmds);
      assert cmds == now + rest;
      hide EachHost;
      hide Exec;
      ExecNothing(Step, w);
      var here := if k < |now| then k else |now|;
      assert now == [] ==> now[..here] == [];
      if now != [] {
        StopTurn(base, w, hosts[0], here);
      }
      if k < |now| {
        assert cmds[..k] == now[..k];
      } else {
        assert now[..|now|] == now;
        StopsInOrder(base, Do(w, now), hosts[1..], many, k - |now|);
        assert cmds[..k] == now + rest[..k - |now|];
        ExecAppend(Step, w, now, rest[..k - |now|]);
      }
    }
  }

  lemma StopsNothing(i: nat, w: World)
    requires i < 9 && i != STOP
    ensures forall x :: x in Phases()[i].plan(w) ==> !x.StopNetwork?
  {
    if i == MESH {
      if w.loaded.Some? {
        DeleteSafety.MeshPlanClass(w.loaded.value, w.loaded.value.peers);
      }
      hide MeshCmds;
    } else {
      PlanClass(i, w);
      hide Phases;
    }
  }

  lemma StopPlan(w: World)
    ensures Phases()[STOP].plan(w) == EachHost(w, Targets(w.loaded), |Targets(w.loaded)| > 1, StopDone, StopCmds)
  {
    hide EachHost;
    hide Targets;
  }

  lemma TargetFirstPrefix(base: World, i: nat, w: World, k: nat)
    requires i < 9 && TargetFirst(base, w) && k <= |Phases()[i].plan(w)|
    ensures TargetFirst(base, Do(w, Phases()[i].plan(w)[..k]))
  {
    hide TargetFirst;
    hide Exec;
    hide Phases;
    if i == STOP {
      StopPlan(w);
      hide EachHost;
      StopsInOrder(base, w, Targets(w.loaded), |Targets(w.loaded)| > 1, k);
    } else {
      StopsNothing(i, w);
      var cmds := Phases()[i].plan(w);
      assert forall x :: x in cmds[..k] ==> x in cmds;
      TargetFirstDo(base, w, cmds[..k]);
    }
  }

  lemma TargetFirstGuarded(base: World)
    ensures Guarded(Step, Phases(), (i: nat, w: World) => TargetFirst(base, w), (w: World) => TargetFirst(base, w))
  {
    hide Exec;
    hide Phases;
    hide TargetFirst;
    var ready, safe := (i: nat, w: World) => TargetFirst(base, w), (w: World) => TargetFirst(base, w);
    forall i: nat, w: World | i < |Phases()| && ready(i, w)
      ensures Guards(Step, Phases(), ready, safe, i, w)
    {
      var cmds := Phases()[i].plan(w);
      forall k: nat | k <= |cmds|
        ensures safe(Exec(Step, w, cmds[..k]))
      {
        TargetFirstPrefix(base, i, w, k);
      }
      assert cmds[..|cmds|] == cmds;
    }
  }

  lemma TargetFirstAttempt(base: World, w: World, budget: nat)
    requires TargetFirst(base, w)
    ensures TargetFirst(base, Attempt(w, budget).0)
  {
    hide Phases;
    hide Found;
    hide Guarded;
    hide Completing;
    hide RunFrom;
    var start := w.(loaded := OperatorYaml(w));
    assert forall h :: At(start, h) == At(w, h);
    assert TargetFirst(base, start);
    hide TargetFirst;
    var ready, safe := (i: nat, v: World) => TargetFirst(base, v), (v: World) => TargetFirst(base, v);
    TargetFirstGuarded(base);
    assert ready(0, start);
    RunStays(Step, Phases(), ready, safe, 0, start, budget);
    assert safe(Run(Step, Phases(), start, budget).0);
  }

  /** Whatever is on the machines and however often a delete is cut: where the network unit was stopped,
      the target had been stopped before, so no unit starts it again. */
  lemma {:induction false} TargetStopsFirst(w: World, budgets: seq<nat>)
    ensures TargetFirst(w, Attempts(w, budgets))
  {
    if budgets != [] {
      hide Attempt;
      hide TargetFirst;
      var n := |budgets| - 1;
      TargetStopsFirst(w, budgets[..n]);
      TargetFirstAttempt(w, Attempts(w, budgets[..n]), budgets[n]);
    }
  }
}
