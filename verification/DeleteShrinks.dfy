/** Every command of a delete but the mesh's saves only takes things away, what is done stays done
    under that, and every phase's commands establish it. */
module DeleteShrinks {
  import opened Basics
  import opened Text
  import opened Addresses
  import opened Hosts
  import opened Runner
  import opened DeleteCluster

  predicate Takes(c: Cmd) { !c.SaveOperator? && !c.SaveCopy? }

  /** s is what is left of t. */
  ghost predicate Less(s: HostState, t: HostState) {
    && (s.target ==> t.target) && (s.netService ==> t.netService)
    && (s.units.Some? ==> t.units.Some? && forall f :: f in s.units.value ==> f in t.units.value)
    && (s.targetFile ==> t.targetFile) && (s.routesFile ==> t.routesFile)
    && s.containers <= t.containers && s.volumes <= t.volumes
    && (s.network ==> t.network) && s.routes <= t.routes && (s.shim ==> t.shim)
    && (s.state.Some? ==> t.state.Some?)
    && (s.state.Some? && s.state.value.yaml.Some? ==> s.state == t.state)
  }

  ghost predicate Shrunk(w: World, v: World) {
    && w.loaded == v.loaded && w.name == v.name && (w.kube ==> v.kube)
    && forall h :: Less(At(w, h), At(v, h))
  }

  lemma StepShrinks(w: World, c: Cmd)
    requires Takes(c)
    ensures Shrunk(Step(w, c), w)
  {
    forall h
      ensures Less(At(Step(w, c), h), At(w, h))
    {
      StepLess(w, c, h);
      hide Step;
    }
  }

  lemma StepLess(w: World, c: Cmd, h: HostId)
    requires Takes(c)
    ensures Less(At(Step(w, c), h), At(w, h))
  {
    StepAt(w, c, h);
    hide Step;
    hide At;
  }

  lemma ShrunkTrans(u: World, v: World, w: World)
    requires Shrunk(u, v) && Shrunk(v, w)
    ensures Shrunk(u, w)
  {
    forall h ensures Less(At(u, h), At(w, h)) {
      assert Less(At(u, h), At(v, h)) && Less(At(v, h), At(w, h));
    }
  }

  lemma {:induction false} DoShrinks(w: World, cmds: seq<Cmd>)
    requires forall c :: c in cmds ==> Takes(c)
    ensures Shrunk(Do(w, cmds), w)
  {
    if cmds != [] {
      hide Step;
      hide Shrunk;
      hide Takes;
      var n := |cmds| - 1;
      Snoc(cmds);
      DoShrinks(w, cmds[..n]);
      StepShrinks(Do(w, cmds[..n]), cmds[n]);
      ShrunkTrans(Do(w, cmds), Do(w, cmds[..n]), w);
    } else {
      ShrunkSelf(w);
    }
  }

  lemma ShrunkSelf(w: World)
    ensures Shrunk(w, w)
  {
  }

  // ---- what is done stays done

  lemma MapSubset(s: seq<string>, t: seq<string>, f: string -> string)
    requires forall x :: x in s ==> x in t
    ensures forall y :: y in Map(s, f) ==> y in Map(t, f)
  {
    forall y | y in Map(s, f)
      ensures y in Map(t, f)
    {
      var i :| 0 <= i < |s| && Map(s, f)[i] == y;
      assert s[i] in t;
      var j :| 0 <= j < |t| && t[j] == s[i];
      assert Map(t, f)[j] == y;
    }
  }

  lemma NamesShrink(w: World, v: World)
    requires Shrunk(w, v)
    ensures forall n :: n in NodeNamesOf(w) ==> n in NodeNamesOf(v)
    ensures forall n :: n in RouterNamesOf(w) ==> n in RouterNamesOf(v)
  {
    if w.loaded.None? {
      assert Less(At(w, OPERATOR), At(v, OPERATOR));
      var a, b := ContainerUnits(w), ContainerUnits(v);
      var node, router := (f: string) => f !in RouterUnits(w.name), (f: string) => f in RouterUnits(w.name);
      assert forall f :: f in a ==> f in b;
      MapSubset(Filter(a, node), Filter(b, node), (f: string) => RemoveSuffix(f, SUFFIX));
      MapSubset(Filter(a, router), Filter(b, router), (f: string) => RemoveSuffix(f, SUFFIX));
    }
  }

  lemma ContainersStayDone(w: World, v: World)
    requires Shrunk(w, v)
    ensures ContainersDone(v) ==> ContainersDone(w)
    ensures VolumesDone(v) ==> VolumesDone(w)
  {
    hide HostFor;
    hide NodeNamesOf;
    hide RouterNamesOf;
    NamesShrink(w, v);
    forall n
      ensures Less(At(w, HostFor(w.loaded, n)), At(v, HostFor(v.loaded, n)))
    {
    }
  }

  /** A host-side condition that survives taking things away. */
  ghost predicate Lasting(done: (World, HostId) -> bool) {
    forall w, v, h :: Shrunk(w, v) && done(v, h) ==> done(w, h)
  }

  lemma HostConditionsLast()
    ensures Lasting(StopDone) && Lasting(UnitsDone) && Lasting(NetworkDone) && Lasting(RoutesDone) && Lasting(StateDone)
  {
    hide Subnets;
    forall w, v, h | Shrunk(w, v)
      ensures Less(At(w, h), At(v, h))
    {
    }
  }

  /** Once done, always done under later commands, for every phase. */
  lemma DoneLasts(i: nat, w: World, v: World)
    requires i < 9 && Shrunk(w, v) && IsDone(Phases()[i], v)
    ensures IsDone(Phases()[i], w)
  {
    hide Shrunk;
    HostConditionsLast();
    ContainersStayDone(w, v);
    LoadedSame(w, v);
    hide Targets;
    hide ContainersDone;
    hide VolumesDone;
  }

  lemma LoadedSame(w: World, v: World)
    requires Shrunk(w, v)
    ensures w.loaded == v.loaded && (w.kube ==> v.kube)
  {
  }

  // ---- what the commands are

  /** The commands phase i runs. */
  predicate Class(i: nat, c: Cmd) {
    match c
    case SaveOperator(_) => i == MESH
    case SaveCopy(_, _) => i == MESH
    case DisableTarget(_) => i == STOP
    case StopNetwork(_) => i == STOP
    case RmContainer(_, _) => i == CONTAINERS
    case RmVolume(_, _) => i == VOLUMES
    case RmUnitFile(_, _) => i == UNITS
    case RmUnitDir(_) => i == UNITS
    case RmTargetFile(_) => i == UNITS
    case RmRoutesFile(_) => i == UNITS
    case RmNetwork(_) => i == NETWORK
    case DelRoute(_, _) => i == ROUTES
    case DelShim(_) => i == ROUTES
    case RmYaml(_) => i == STATE
    case RmStateDir(_) => i == STATE
    case DropKubeEntry => i == KUBECONFIG
  }

  /** One host's commands are all of a kind. */
  ghost predicate Only(cmds: (World, HostId) -> seq<Cmd>, ok: Cmd -> bool) {
    forall w, h :: forall c :: c in cmds(w, h) ==> ok(c)
  }

  lemma {:induction false} RouteCmdsTake(w: World, h: HostId, subnets: seq<Prefix>)
    ensures forall c :: c in RouteCmds(w, h, subnets) ==> c.DelRoute? && c.h == h && c.route in subnets
    decreases |subnets|
  {
    if subnets != [] {
      hide Exec;
      hide At;
      var now := if subnets[0] in At(w, h).routes then [DelRoute(h, subnets[0])] else [];
      RouteCmdsTake(Do(w, now), h, subnets[1..]);
    }
  }

  lemma HostCommandsClass()
    ensures Only(StopCmds, (c: Cmd) => Class(STOP, c)) && Only(UnitsCmds, (c: Cmd) => Class(UNITS, c))
    ensures Only(NetworkCmds, (c: Cmd) => Class(NETWORK, c)) && Only(RoutesCmds, (c: Cmd) => Class(ROUTES, c))
    ensures Only(StateCmds, (c: Cmd) => Class(STATE, c))
  {
    hide RoutesCmds;
    hide Step;
    hide Exec;
    forall w, h
      ensures forall c :: c in RoutesCmds(w, h) ==> Class(ROUTES, c)
    {
      RoutesCmdsClass(w, h);
    }
  }

  lemma RoutesCmdsClass(w: World, h: HostId)
    ensures forall c :: c in RoutesCmds(w, h) ==> Class(ROUTES, c)
  {
    RouteCmdsTake(w, h, Subnets(w.loaded));
  }

  lemma {:induction false} EachHostOnly(w: World, hosts: seq<HostId>, many: bool, done: (World, HostId) -> bool,
          cmds: (World, HostId) -> seq<Cmd>, ok: Cmd -> bool)
    requires Only(cmds, ok)
    ensures forall c :: c in EachHost(w, hosts, many, done, cmds) ==> ok(c)
    decreases |hosts|
  {
    if hosts != [] {
      hide Exec;
      var now := if many && done(w, hosts[0]) then [] else cmds(w, hosts[0]);
      assert forall c :: c in now ==> ok(c);
      EachHostOnly(Do(w, now), hosts[1..], many, done, cmds, ok);
    }
  }

  lemma {:induction false} ContainerCmdsTake(w: World, names: seq<string>)
    ensures forall c :: c in ContainerCmds(w, names) ==> c.RmContainer? && c.container in names
    decreases |names|
  {
    if names != [] {
      hide Exec;
      hide At;
      hide HostFor;
      var h := HostFor(w.loaded, names[0]);
      var now := if names[0] in At(w, h).containers then [RmContainer(h, names[0])] else [];
      ContainerCmdsTake(Do(w, now), names[1..]);
    }
  }

  lemma {:induction false} VolumeCmdsTake(w: World, h: HostId, volumes: seq<string>)
    ensures forall c :: c in VolumeCmds(w, h, volumes) ==> c.RmVolume? && c.volume in volumes
    decreases |volumes|
  {
    if volumes != [] {
      hide Exec;
      hide At;
      var now := if volumes[0] in At(w, h).volumes then [RmVolume(h, volumes[0])] else [];
      VolumeCmdsTake(Do(w, now), h, volumes[1..]);
    }
  }

  lemma {:induction false} NodeVolumeCmdsTake(w: World, names: seq<string>)
    ensures forall c :: c in NodeVolumeCmds(w, names) ==> c.RmVolume? && exists n :: n in names && c.volume in NodeVolumes(n)
    decreases |names|
  {
    if names != [] {
      hide Exec;
      hide HostFor;
      hide VolumeCmds;
      var now := VolumeCmds(w, HostFor(w.loaded, names[0]), NodeVolumes(names[0]));
      VolumeCmdsTake(w, HostFor(w.loaded, names[0]), NodeVolumes(names[0]));
      NodeVolumeCmdsTake(Do(w, now), names[1..]);
      assert names[0] in names && forall n :: n in names[1..] ==> n in names;
    }
  }

  /** A phase runs commands of its own class only; all but the mesh's take things away. */
  lemma PlanClass(i: nat, w: World)
    requires 1 <= i < 9
    ensures forall c :: c in Phases()[i].plan(w) ==> Class(i, c) && Takes(c)
  {
    hide EachHost;
    hide ContainerCmds;
    hide NodeVolumeCmds;
    hide Targets;
    hide Containers;
    hide NodeNamesOf;
    hide Only;
    HostCommandsClass();
    var hosts := Targets(w.loaded);
    var many := |hosts| > 1;
    EachHostOnly(w, hosts, many, StopDone, StopCmds, (c: Cmd) => Class(STOP, c));
    EachHostOnly(w, hosts, many, UnitsDone, UnitsCmds, (c: Cmd) => Class(UNITS, c));
    EachHostOnly(w, hosts, many, NetworkDone, NetworkCmds, (c: Cmd) => Class(NETWORK, c));
    EachHostOnly(w, hosts, many, RoutesDone, RoutesCmds, (c: Cmd) => Class(ROUTES, c));
    EachHostOnly(w, hosts, many, StateDone, StateCmds, (c: Cmd) => Class(STATE, c));
    ContainerCmdsTake(w, Containers(w));
    NodeVolumeCmdsTake(w, NodeNamesOf(w));
  }

  lemma HostCommandsTake()
    ensures Only(StopCmds, Takes) && Only(UnitsCmds, Takes) && Only(NetworkCmds, Takes) && Only(RoutesCmds, Takes) && Only(StateCmds, Takes)
  {
    HostCommandsClass();
    assert forall i, c :: i >= 1 && Class(i, c) ==> Takes(c);
    hide StopCmds;
    hide UnitsCmds;
    hide NetworkCmds;
    hide RoutesCmds;
    hide StateCmds;
  }

  // ---- every phase, allowed to finish, is done

  /** One host's commands make its condition true. */
  ghost predicate Achieves(done: (World, HostId) -> bool, cmds: (World, HostId) -> seq<Cmd>) {
    forall w, h :: done(Do(w, cmds(w, h)), h)
  }

  lemma {:induction false} EachHostDone(w: World, hosts: seq<HostId>, many: bool, done: (World, HostId) -> bool,
          cmds: (World, HostId) -> seq<Cmd>)
    requires Lasting(done) && Only(cmds, Takes) && Achieves(done, cmds)
    ensures forall h :: h in hosts ==> done(Do(w, EachHost(w, hosts, many, done, cmds)), h)
    decreases |hosts|
  {
    if hosts != [] {
      hide Takes;
      hide Shrunk;
      var now := if many && done(w, hosts[0]) then [] else cmds(w, hosts[0]);
      var next := Do(w, now);
      var rest := EachHost(next, hosts[1..], many, done, cmds);
      assert done(next, hosts[0]);
      EachHostOnly(next, hosts[1..], many, done, cmds, Takes);
      DoShrinks(next, rest);
      EachHostDone(next, hosts[1..], many, done, cmds);
      ExecAppend(Step, w, now, rest);
      assert hosts == [hosts[0]] + hosts[1..];
    }
  }

  lemma StopAchieves()
    ensures Achieves(StopDone, StopCmds) && Achieves(NetworkDone, NetworkCmds) && Achieves(StateDone, StateCmds)
  {
    hide Exec;
    hide StopDone;
    hide NetworkDone;
    hide StateDone;
    hide StopCmds;
    hide NetworkCmds;
    hide StateCmds;
    forall w, h
      ensures StopDone(Do(w, StopCmds(w, h)), h)
      ensures NetworkDone(Do(w, NetworkCmds(w, h)), h)
      ensures StateDone(Do(w, StateCmds(w, h)), h)
    {
      StoppedAfter(w, h);
      NetworkAfter(w, h);
      StateAfter(w, h);
    }
  }

  lemma StoppedAfter(w: World, h: HostId)
    ensures StopDone(Do(w, StopCmds(w, h)), h)
  {
    hide Exec;
    hide Step;
    hide At;
    ExecTwo(Step, w, DisableTarget(h), StopNetwork(h));
    StepAt(w, DisableTarget(h), h);
    StepAt(Step(w, DisableTarget(h)), StopNetwork(h), h);
  }

  lemma NetworkAfter(w: World, h: HostId)
    ensures NetworkDone(Do(w, NetworkCmds(w, h)), h)
  {
    hide Exec;
    hide Step;
    hide At;
    ExecOne(Step, w, RmNetwork(h));
    StepAt(w, RmNetwork(h), h);
  }

  lemma StateAfter(w: World, h: HostId)
    ensures StateDone(Do(w, StateCmds(w, h)), h)
  {
    hide Exec;
    hide Step;
    hide At;
    ExecTwo(Step, w, RmYaml(h), RmStateDir(h));
    StepAt(Step(w, RmYaml(h)), RmStateDir(h), h);
  }

  lemma UnitsAchieve()
    ensures Achieves(UnitsDone, UnitsCmds)
  {
    forall w, h
      ensures UnitsDone(Do(w, UnitsCmds(w, h)), h)
    {
      var files := Map(if At(w, h).units.Some? then At(w, h).units.value else [], (f: string) => RmUnitFile(h, f));
      var v := Do(w, files);
      ExecAppend(Step, w, files, [RmUnitDir(h), RmTargetFile(h), RmRoutesFile(h)]);
      assert [RmUnitDir(h), RmTargetFile(h), RmRoutesFile(h)] == [RmUnitDir(h), RmTargetFile(h)] + [RmRoutesFile(h)];
      ExecAppend(Step, v, [RmUnitDir(h), RmTargetFile(h)], [RmRoutesFile(h)]);
      ExecTwo(Step, v, RmUnitDir(h), RmTargetFile(h));
      ExecOne(Step, Do(v, [RmUnitDir(h), RmTargetFile(h)]), RmRoutesFile(h));
      UnitsGone(v, h);
    }
  }

  lemma UnitsGone(v: World, h: HostId)
    ensures UnitsDone(Step(Step(Step(v, RmUnitDir(h)), RmTargetFile(h)), RmRoutesFile(h)), h)
  {
  }

  lemma {:induction false} RouteCmdsDelete(w: World, h: HostId, subnets: seq<Prefix>)
    ensures forall s :: s in subnets ==> s !in At(Do(w, RouteCmds(w, h, subnets)), h).routes
    decreases |subnets|
  {
    hide Exec;
    hide Step;
    if subnets != [] {
      var now := if subnets[0] in At(w, h).routes then [DelRoute(h, subnets[0])] else [];
      var next := Do(w, now);
      var rest := RouteCmds(next, h, subnets[1..]);
      FirstRouteGoes(w, h, subnets[0]);
      RouteCmdsTake(next, h, subnets[1..]);
      DoShrinks(next, rest);
      RouteCmdsDelete(next, h, subnets[1..]);
      ExecAppend(Step, w, now, rest);
      assert Less(At(Do(next, rest), h), At(next, h));
      assert subnets == [subnets[0]] + subnets[1..];
    }
  }

  lemma FirstRouteGoes(w: World, h: HostId, route: Prefix)
    ensures var now := if route in At(w, h).routes then [DelRoute(h, route)] else []; route !in At(Do(w, now), h).routes
  {
    hide Exec;
    ExecNothing(Step, w);
    ExecOne(Step, w, DelRoute(h, route));
    StepAt(w, DelRoute(h, route), h);
    hide Step;
    hide At;
  }

  lemma RoutesAchieve()
    ensures Achieves(RoutesDone, RoutesCmds)
  {
    forall w, h
      ensures RoutesDone(Do(w, RoutesCmds(w, h)), h)
    {
      hide Subnets;
      hide RouteCmds;
      var subnets := Subnets(w.loaded);
      var routes := RouteCmds(w, h, subnets);
      var rest := if w.loaded.Some? && w.loaded.value.cluster.MultiHost() then [DelShim(h)] else [];
      RouteCmdsTake(w, h, subnets);
      RouteCmdsDelete(w, h, subnets);
      DoShrinks(w, routes);
      DoShrinks(Do(w, routes), rest);
      ExecAppend(Step, w, routes, rest);
      assert Less(At(Do(Do(w, routes), rest), h), At(Do(w, routes), h));
    }
  }

  lemma {:induction false} ContainerCmdsRemove(w: World, names: seq<string>)
    ensures forall n :: n in names ==> n !in At(Do(w, ContainerCmds(w, names)), HostFor(w.loaded, n)).containers
    decreases |names|
  {
    if names != [] {
      hide HostFor;
      var h := HostFor(w.loaded, names[0]);
      var now := if names[0] in At(w, h).containers then [RmContainer(h, names[0])] else [];
      var next := Do(w, now);
      var rest := ContainerCmds(next, names[1..]);
      assert names[0] !in At(next, h).containers && next.loaded == w.loaded by {
        if now != [] {
          ExecOne(Step, w, RmContainer(h, names[0]));
        }
      }
      ContainerCmdsTake(next, names[1..]);
      DoShrinks(next, rest);
      ContainerCmdsRemove(next, names[1..]);
      ExecAppend(Step, w, now, rest);
      assert Less(At(Do(next, rest), h), At(next, h));
      assert names == [names[0]] + names[1..];
    }
  }

  lemma {:induction false} VolumeCmdsRemove(w: World, h: HostId, volumes: seq<string>)
    ensures forall v :: v in volumes ==> v !in At(Do(w, VolumeCmds(w, h, volumes)), h).volumes
    decreases |volumes|
  {
    if volumes != [] {
      var now := if volumes[0] in At(w, h).volumes then [RmVolume(h, volumes[0])] else [];
      var next := Do(w, now);
      var rest := VolumeCmds(next, h, volumes[1..]);
      assert volumes[0] !in At(next, h).volumes by {
        if now != [] {
          ExecOne(Step, w, RmVolume(h, volumes[0]));
        }
      }
      VolumeCmdsTake(next, h, volumes[1..]);
      DoShrinks(next, rest);
      VolumeCmdsRemove(next, h, volumes[1..]);
      ExecAppend(Step, w, now, rest);
      assert Less(At(Do(next, rest), h), At(next, h));
      assert volumes == [volumes[0]] + volumes[1..];
    }
  }

  lemma {:induction false} NodeVolumeCmdsRemove(w: World, names: seq<string>)
    ensures forall n, v :: n in names && v in NodeVolumes(n) ==>
              v !in At(Do(w, NodeVolumeCmds(w, names)), HostFor(w.loaded, n)).volumes
    decreases |names|
  {
    if names != [] {
      hide HostFor;
      hide VolumeCmds;
      hide NodeVolumes;
      var h := HostFor(w.loaded, names[0]);
      var now := VolumeCmds(w, h, NodeVolumes(names[0]));
      var next := Do(w, now);
      var rest := NodeVolumeCmds(next, names[1..]);
      VolumeCmdsTake(w, h, NodeVolumes(names[0]));
      VolumeCmdsRemove(w, h, NodeVolumes(names[0]));
      DoShrinks(w, now);
      NodeVolumeCmdsTake(next, names[1..]);
      DoShrinks(next, rest);
      NodeVolumeCmdsRemove(next, names[1..]);
      ExecAppend(Step, w, now, rest);
      assert Less(At(Do(next, rest), h), At(next, h));
      assert names == [names[0]] + names[1..];
    }
  }

  lemma AfterContainers(w: World)
    ensures ContainersDone(Do(w, ContainersPlan(w)))
    ensures VolumesDone(Do(w, VolumesPlan(w)))
  {
    var names, nodes := Containers(w), NodeNamesOf(w);
    var v, u := Do(w, ContainerCmds(w, names)), Do(w, NodeVolumeCmds(w, nodes));
    ContainerCmdsTake(w, names);
    DoShrinks(w, ContainerCmds(w, names));
    NamesShrink(v, w);
    ContainerCmdsRemove(w, names);
    NodeVolumeCmdsTake(w, nodes);
    DoShrinks(w, NodeVolumeCmds(w, nodes));
    NamesShrink(u, w);
    NodeVolumeCmdsRemove(w, nodes);
    hide NodeNamesOf;
    hide RouterNamesOf;
    hide HostFor;
    hide Exec;
  }

  lemma {:induction false} MeshCmdsEmpty(w: World, y: Yaml, peers: seq<string>)
    requires w.loaded == Some(y) && forall p :: p in y.peers ==> p in peers
    ensures Do(w, MeshCmds(y, peers)).loaded.Some?
    ensures Do(w, MeshCmds(y, peers)).loaded.value == y.(peers := [])
    decreases |peers|
  {
    if peers == [] {
      EmptyOrHead(y.peers);
    } else {
      var next := y.(peers := Filter(y.peers, (p: string) => p != peers[0]));
      var remotes := RemotesOf(y.cluster);
      var v := Do(w, [SaveOperator(next)]);
      ExecOne(Step, w, SaveOperator(next));
      var u := Do(v, CopyCmds(next, remotes));
      CopiesKeepLoaded(v, next, remotes);
      assert peers == [peers[0]] + peers[1..];
      MeshCmdsEmpty(u, next, peers[1..]);
      ExecAppend(Step, w, [SaveOperator(next)] + CopyCmds(next, remotes), MeshCmds(next, peers[1..]));
      ExecAppend(Step, w, [SaveOperator(next)], CopyCmds(next, remotes));
    }
  }

  lemma {:induction false} CopiesKeepLoaded(w: World, y: Yaml, hosts: seq<HostId>)
    ensures Do(w, CopyCmds(y, hosts)).loaded == w.loaded
    ensures OPERATOR !in hosts ==> At(Do(w, CopyCmds(y, hosts)), OPERATOR) == At(w, OPERATOR)
    ensures Do(w, CopyCmds(y, hosts)).kube == w.kube && Do(w, CopyCmds(y, hosts)).name == w.name
  {
    if hosts != [] {
      var n := |hosts| - 1;
      Snoc(hosts);
      CopiesKeepLoaded(w, y, hosts[..n]);
      assert CopyCmds(y, hosts) == CopyCmds(y, hosts[..n]) + [SaveCopy(hosts[n], y)];
      ExecSnoc(Step, w, CopyCmds(y, hosts[..n]), SaveCopy(hosts[n], y));
      assert hosts[n] in hosts;
    }
  }

  /** Every phase's commands, run to the end, make it done. */
  lemma PhaseAchieves(i: nat, w: World)
    requires i < 9
    ensures IsDone(Phases()[i], Do(w, Phases()[i].plan(w)))
  {
    var plan := Phases()[i].plan(w);
    if i == MESH {
      if w.loaded.Some? {
        MeshCmdsEmpty(w, w.loaded.value, w.loaded.value.peers);
      } else {
        assert plan == [];
      }
    } else if i == CONTAINERS || i == VOLUMES {
      AfterContainers(w);
    } else if i == KUBECONFIG {
      if !KubeDone(w) {
        ExecOne(Step, w, DropKubeEntry);
      } else {
        assert plan == [];
      }
    } else {
      PlanClass(i, w);
      DoShrinks(w, plan);
      LoadedSame(Do(w, plan), w);
      HostPhaseAchieves(i, w);
    }
  }

  lemma HostPhaseAchieves(i: nat, w: World)
    requires i == STOP || i == UNITS || i == NETWORK || i == ROUTES || i == STATE
    requires Do(w, Phases()[i].plan(w)).loaded == w.loaded
    ensures IsDone(Phases()[i], Do(w, Phases()[i].plan(w)))
  {
    hide EachHost;
    hide Targets;
    hide Exec;
    hide Only;
    hide Lasting;
    hide Achieves;
    HostConditionsLast();
    HostCommandsTake();
    StopAchieves();
    UnitsAchieve();
    RoutesAchieve();
    var hosts := Targets(w.loaded);
    EachHostDone(w, hosts, |hosts| > 1, StopDone, StopCmds);
    EachHostDone(w, hosts, |hosts| > 1, UnitsDone, UnitsCmds);
    EachHostDone(w, hosts, |hosts| > 1, NetworkDone, NetworkCmds);
    EachHostDone(w, hosts, |hosts| > 1, RoutesDone, RoutesCmds);
    EachHostDone(w, hosts, |hosts| > 1, StateDone, StateCmds);
  }
}
