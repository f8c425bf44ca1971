/** The run functions of delete.py as they work: loops that look at a host and issue commands one by
    one. Each issues exactly its phase's plan, so a crash leaves the world after a prefix of it. */
module DeleteRuns {
  import opened Basics
  import opened Hosts
  import opened Runner
  import opened DeleteCluster

  lemma IssueNothing(w: World, t: seq<Cmd>)
    ensures Do(w, []) == w && t + [] == t
  {
  }

  datatype HostPhase = Stop | Units | Network | Routes | State

  function DoneOn(p: HostPhase): (World, HostId) -> bool {
    match p
    case Stop => StopDone
    case Units => UnitsDone
    case Network => NetworkDone
    case Routes => RoutesDone
    case State => StateDone
  }

  function CmdsOn(p: HostPhase): (World, HostId) -> seq<Cmd> {
    match p
    case Stop => StopCmds
    case Units => UnitsCmds
    case Network => NetworkCmds
    case Routes => RoutesCmds
    case State => StateCmds
  }

  /** The machines as the commands reach them, and the commands so far. */
  class Fleet {
    var world: World
    var trace: seq<Cmd>

    constructor (w: World)
      ensures world == w && trace == []
    {
      world := w;
      trace := [];
    }

    method Issue(c: Cmd)
      modifies this
      ensures world == Step(old(world), c) && world == Do(old(world), [c]) && trace == old(trace) + [c]
    {
      assert [c][..0] == [];
      assert Exec(Step, world, []) == world;
      world := Step(world, c);
      trace := trace + [c];
    }

    method RemoveContainers(names: seq<string>)
      modifies this
      ensures world == Do(old(world), ContainerCmds(old(world), names))
      ensures trace == old(trace) + ContainerCmds(old(world), names)
    {
      hide Exec;
      hide Step;
      ghost var w0, t0, plan0 := world, trace, ContainerCmds(world, names);
      assert names[0..] == names;
      for i := 0 to |names|
        invariant Remains(Step, w0, t0, plan0, world, trace, ContainerCmds(world, names[i..]))
      {
        var h := HostFor(world.loaded, names[i]);
        ghost var w, t := world, trace;
        ghost var now := if names[i] in At(w, h).containers then [RmContainer(h, names[i])] else [];
        assert names[i..][1..] == names[i + 1..];
        IssueNothing(w, t);
        if names[i] in At(world, h).containers {
          Issue(RmContainer(h, names[i]));
        }
        Advance(Step, w0, t0, plan0, w, t, now, ContainerCmds(Do(w, now), names[i + 1..]));
        assert t + [] == t;
      }
      NothingLeft(Step, w0, t0, plan0, world, trace);
    }

    method RemoveVolumes(h: HostId, volumes: seq<string>)
      modifies this
      ensures world == Do(old(world), VolumeCmds(old(world), h, volumes))
      ensures trace == old(trace) + VolumeCmds(old(world), h, volumes)
    {
      hide Exec;
      hide Step;
      ghost var w0, t0, plan0 := world, trace, VolumeCmds(world, h, volumes);
      assert volumes[0..] == volumes;
      for i := 0 to |volumes|
        invariant Remains(Step, w0, t0, plan0, world, trace, VolumeCmds(world, h, volumes[i..]))
      {
        ghost var w, t := world, trace;
        ghost var now := if volumes[i] in At(w, h).volumes then [RmVolume(h, volumes[i])] else [];
        assert volumes[i..][1..] == volumes[i + 1..];
        IssueNothing(w, t);
        if volumes[i] in At(world, h).volumes {
          Issue(RmVolume(h, volumes[i]));
        }
        Advance(Step, w0, t0, plan0, w, t, now, VolumeCmds(Do(w, now), h, volumes[i + 1..]));
        assert t + [] == t;
      }
      NothingLeft(Step, w0, t0, plan0, world, trace);
    }

    /** remove_node_volumes for every node. */
    method RemoveNodeVolumes(names: seq<string>)
      modifies this
      ensures world == Do(old(world), NodeVolumeCmds(old(world), names))
      ensures trace == old(trace) + NodeVolumeCmds(old(world), names)
    {
      ghost var w0, t0, plan0 := world, trace, NodeVolumeCmds(world, names);
      assert names[0..] == names;
      for i := 0 to |names|
        invariant Remains(Step, w0, t0, plan0, world, trace, NodeVolumeCmds(world, names[i..]))
      {
        ghost var w, t := world, trace;
        ghost var now := VolumeCmds(w, HostFor(w.loaded, names[i]), NodeVolumes(names[i]));
        assert names[i..][1..] == names[i + 1..];
        RemoveVolumes(HostFor(world.loaded, names[i]), NodeVolumes(names[i]));
        Advance(Step, w0, t0, plan0, w, t, now, NodeVolumeCmds(Do(w, now), names[i + 1..]));
      }
      NothingLeft(Step, w0, t0, plan0, world, trace);
    }

    method StopRun(h: HostId)
      modifies this
      ensures world == Do(old(world), StopCmds(old(world), h)) && trace == old(trace) + StopCmds(old(world), h)
    {
      ExecAppend(Step, world, [DisableTarget(h)], [StopNetwork(h)]);
      assert [DisableTarget(h)] + [StopNetwork(h)] == [DisableTarget(h), StopNetwork(h)];
      Associative(trace, [DisableTarget(h)], [StopNetwork(h)]);
      Issue(DisableTarget(h));
      Issue(StopNetwork(h));
    }

    method UnitsRun(h: HostId)
      modifies this
      ensures world == Do(old(world), UnitsCmds(old(world), h)) && trace == old(trace) + UnitsCmds(old(world), h)
    {
      hide Exec;
      hide Step;
      ghost var w0, t0, plan0 := world, trace, UnitsCmds(world, h);
      var files := if At(world, h).units.Some? then At(world, h).units.value else [];
      var rm := Map(files, (f: string) => RmUnitFile(h, f));
      ghost var rest := [RmUnitDir(h), RmTargetFile(h), RmRoutesFile(h)];
      assert rm[0..] + rest == plan0;
      for i := 0 to |files|
        invariant Remains(Step, w0, t0, plan0, world, trace, rm[i..] + rest)
      {
        ghost var w, t := world, trace;
        assert rm[i..] + rest == [rm[i]] + (rm[i + 1..] + rest);
        Issue(RmUnitFile(h, files[i]));
        Advance(Step, w0, t0, plan0, w, t, [rm[i]], rm[i + 1..] + rest);
      }
      assert rm[|files|..] + rest == [RmUnitDir(h)] + [RmTargetFile(h), RmRoutesFile(h)];
      Advance(Step, w0, t0, plan0, world, trace, [RmUnitDir(h)], [RmTargetFile(h), RmRoutesFile(h)]);
      Issue(RmUnitDir(h));
      assert [RmTargetFile(h), RmRoutesFile(h)] == [RmTargetFile(h)] + [RmRoutesFile(h)];
      Advance(Step, w0, t0, plan0, world, trace, [RmTargetFile(h)], [RmRoutesFile(h)]);
      Issue(RmTargetFile(h));
      assert [RmRoutesFile(h)] + [] == [RmRoutesFile(h)];
      Advance(Step, w0, t0, plan0, world, trace, [RmRoutesFile(h)], []);
      Issue(RmRoutesFile(h));
      NothingLeft(Step, w0, t0, plan0, world, trace);
    }

    method RoutesRun(h: HostId)
      modifies this
      ensures world == Do(old(world), RoutesCmds(old(world), h)) && trace == old(trace) + RoutesCmds(old(world), h)
    {
      hide Subnets;
      hide Exec;
      ghost var w0, t0, plan0 := world, trace, RoutesCmds(world, h);
      var subnets := Subnets(world.loaded);
      var shim := world.loaded.Some? && world.loaded.value.cluster.MultiHost();
      ghost var rest := if shim then [DelShim(h)] else [];
      assert subnets[0..] == subnets;
      for i := 0 to |subnets|
        invariant Remains(Step, w0, t0, plan0, world, trace, RouteCmds(world, h, subnets[i..]) + rest)
      {
        ghost var w, t := world, trace;
        ghost var now := if subnets[i] in At(w, h).routes then [DelRoute(h, subnets[i])] else [];
        ghost var later := RouteCmds(Do(w, now), h, subnets[i + 1..]);
        assert subnets[i..][1..] == subnets[i + 1..];
        Associative(now, later, rest);
        IssueNothing(w, t);
        if subnets[i] in At(world, h).routes {
          Issue(DelRoute(h, subnets[i]));
        }
        Advance(Step, w0, t0, plan0, w, t, now, later + rest);
      }
      assert [] + rest == rest + [];
      Advance(Step, w0, t0, plan0, world, trace, rest, []);
      IssueNothing(world, trace);
      if shim {
        Issue(DelShim(h));
      }
      NothingLeft(Step, w0, t0, plan0, world, trace);
    }

    method StateRun(h: HostId)
      modifies this
      ensures world == Do(old(world), StateCmds(old(world), h)) && trace == old(trace) + StateCmds(old(world), h)
    {
      ExecAppend(Step, world, [RmYaml(h)], [RmStateDir(h)]);
      assert [RmYaml(h)] + [RmStateDir(h)] == [RmYaml(h), RmStateDir(h)];
      Associative(trace, [RmYaml(h)], [RmStateDir(h)]);
      Issue(RmYaml(h));
      Issue(RmStateDir(h));
    }

    method RunOn(p: HostPhase, h: HostId)
      modifies this
      ensures world == Do(old(world), CmdsOn(p)(old(world), h)) && trace == old(trace) + CmdsOn(p)(old(world), h)
    {
      match p
      case Stop => StopRun(h);
      case Units => UnitsRun(h);
      case Network => Issue(RmNetwork(h));
      case Routes => RoutesRun(h);
      case State => StateRun(h);
    }

    /** run_each of a host-side phase. */
    method RunEach(p: HostPhase)
      modifies this
      ensures world == Do(old(world), PerHost(DoneOn(p), CmdsOn(p))(old(world)))
      ensures trace == old(trace) + PerHost(DoneOn(p), CmdsOn(p))(old(world))
    {
      hide Exec;
      hide Step;
      hide DoneOn;
      hide CmdsOn;
      hide Targets;
      var hosts := Targets(world.loaded);
      var many := |hosts| > 1;
      ghost var w0, t0, plan0 := world, trace, EachHost(world, hosts, many, DoneOn(p), CmdsOn(p));
      assert hosts[0..] == hosts;
      for i := 0 to |hosts|
        invariant Remains(Step, w0, t0, plan0, world, trace, EachHost(world, hosts[i..], many, DoneOn(p), CmdsOn(p)))
      {
        ghost var w, t := world, trace;
        ghost var now := if many && DoneOn(p)(w, hosts[i]) then [] else CmdsOn(p)(w, hosts[i]);
        assert hosts[i..][1..] == hosts[i + 1..];
        Advance(Step, w0, t0, plan0, w, t, now, EachHost(Do(w, now), hosts[i + 1..], many, DoneOn(p), CmdsOn(p)));
        assert t + [] == t;
        IssueNothing(w, t);
        if many && DoneOn(p)(world, hosts[i]) {
          continue;
        }
        RunOn(p, hosts[i]);
      }
      NothingLeft(Step, w0, t0, plan0, world, trace);
    }

    /** save_cluster: the operator's cluster.yaml, then a copy on every other host. */
    method SaveCluster(y: Yaml)
      modifies this
      ensures var remotes := RemotesOf(y.cluster);
              && world == Do(old(world), [SaveOperator(y)] + CopyCmds(y, remotes))
              && trace == old(trace) + ([SaveOperator(y)] + CopyCmds(y, remotes))
    {
      hide Exec;
      hide Step;
      hide RemotesOf;
      var remotes := RemotesOf(y.cluster);
      ghost var copies := CopyCmds(y, remotes);
      ghost var w0, t0, plan0 := world, trace, [SaveOperator(y)] + copies;
      Advance(Step, w0, t0, plan0, world, trace, [SaveOperator(y)], copies);
      Issue(SaveOperator(y));
      assert copies[0..] == copies;
      for i := 0 to |remotes|
        invariant Remains(Step, w0, t0, plan0, world, trace, copies[i..])
      {
        ghost var w, t := world, trace;
        assert copies[i..] == [copies[i]] + copies[i + 1..];
        Issue(SaveCopy(remotes[i], y));
        Advance(Step, w0, t0, plan0, w, t, [copies[i]], copies[i + 1..]);
      }
      assert copies[|remotes|..] == [];
      NothingLeft(Step, w0, t0, plan0, world, trace);
    }

    /** This cluster's side of the mesh phase: each recorded peer in turn leaves the record. */
    method MeshRun()
      requires world.loaded.Some?
      modifies this
      ensures world == Do(old(world), MeshPlan(old(world))) && trace == old(trace) + MeshPlan(old(world))
    {
      var y := world.loaded.value;
      var peers := y.peers;
      ghost var w0, t0, plan0 := world, trace, MeshPlan(world);
      assert peers[0..] == peers;
      for i := 0 to |peers|
        invariant Remains(Step, w0, t0, plan0, world, trace, MeshCmds(y, peers[i..]))
      {
        ghost var w, t := world, trace;
        var next := y.(peers := Filter(y.peers, (p: string) => p != peers[i]));
        ghost var remotes := RemotesOf(y.cluster);
        ghost var now := [SaveOperator(next)] + CopyCmds(next, remotes);
        assert peers[i..][1..] == peers[i + 1..];
        assert MeshCmds(y, peers[i..]) == now + MeshCmds(next, peers[i + 1..]);
        SaveCluster(next);
        Advance(Step, w0, t0, plan0, w, t, now, MeshCmds(next, peers[i + 1..]));
        y := next;
      }
      NothingLeft(Step, w0, t0, plan0, world, trace);
    }

    /** A phase of a full delete: its run function issues exactly its plan. */
    method RunPhase(i: nat)
      requires i < 9 && !Phases()[i].done.value(world)
      modifies this
      ensures world == Do(old(world), Phases()[i].plan(old(world)))
      ensures trace == old(trace) + Phases()[i].plan(old(world))
    {
      hide Exec;
      hide EachHost;
      hide Containers;
      hide ContainerCmds;
      hide NodeNamesOf;
      hide NodeVolumeCmds;
      hide MeshCmds;
      hide Targets;
      hide Step;
      hide Subnets;
      hide At;
      hide PerHost;
      hide StopDone;
      hide UnitsDone;
      hide NetworkDone;
      hide RoutesDone;
      hide StateDone;
      hide UnitsCmds;
      hide ContainersDone;
      hide VolumesDone;
      hide KubeDone;
      match i
      case 0 => MeshRun();
      case 1 => RunEach(Stop);
      case 2 => RemoveContainers(Containers(world));
      case 3 => RemoveNodeVolumes(NodeNamesOf(world));
      case 4 => RunEach(Units);
      case 5 => RunEach(HostPhase.Network);
      case 6 => RunEach(Routes);
      case 7 => RunEach(State);
      case 8 => Issue(DropKubeEntry);
    }
  }
}
