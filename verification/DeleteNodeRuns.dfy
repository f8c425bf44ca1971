/** The run functions of node/delete.py as they work, each issuing exactly its phase's plan. */
module DeleteNodeRuns {
  import opened Basics
  import opened Hosts
  import opened Runner
  import opened DeleteNode
  import opened DeleteNodeAchieves
  import Units

  lemma VolumesDiffer(n: string)
    ensures Distinct(NodeVolumes(n))
  {
    var a, b, c := n + "-var", n + "-etc", n + "-usr-local-bin";
    assert a[|n| + 1] == 'v' && b[|n| + 1] == 'e' && c[|n| + 1] == 'u';
  }

  lemma NoVolumes(w: World, h: HostId, volumes: seq<string>)
    ensures VolumeCmds(w, h, volumes[..0]) == [] && Do(w, []) == w
  {
  }

  /** After the removals before it, a volume is there exactly when it was there at first. */
  lemma NextVolume(w0: World, h: HostId, volumes: seq<string>, i: nat)
    requires Distinct(volumes) && i < |volumes|
    ensures VolumeCmds(w0, h, volumes[..i + 1]) ==
            var done := VolumeCmds(w0, h, volumes[..i]);
            if volumes[i] in BoxAt(Do(w0, done), h).volumes then done + [RmVolume(h, volumes[i])] else done
  {
    hide Exec;
    hide BoxAt;
    var here := (v: string) => v in BoxAt(w0, h).volumes;
    var there := Filter(volumes[..i], here);
    RmVolumesMean(w0, h, there);
    FilterNext(volumes, i, here);
    assert volumes[i] !in volumes[..i];
    assert volumes[i] !in there;
  }

  /** The cluster as the commands reach it, and the commands so far. */
  class Operator {
    var world: World
    var trace: seq<Cmd>

    constructor (w: World)
      ensures world == w && trace == []
    {
      world := w;
      trace := [];
    }

    method Issue(c: Cmd)
      modifies this
      ensures world == Step(old(world), c) && world == Do(old(world), [c]) && trace == old(trace) + [c]
    {
      ExecOne(Step, world, c);
      hide Step;
      world := Step(world, c);
      trace := trace + [c];
    }

    /** A list of commands, one by one. */
    method IssueAll(cmds: seq<Cmd>)
      modifies this
      ensures world == Do(old(world), cmds) && trace == old(trace) + cmds
    {
      ghost var w0, t0 := world, trace;
      assert cmds[0..] == cmds;
      hide Exec;
      for i := 0 to |cmds|
        invariant Remains(Step, w0, t0, cmds, world, trace, cmds[i..])
      {
        ghost var w, t := world, trace;
        assert cmds[i..] == [cmds[i]] + cmds[i + 1..];
        Issue(cmds[i]);
        Advance(Step, w0, t0, cmds, w, t, [cmds[i]], cmds[i + 1..]);
      }
      assert cmds[|cmds|..] == [];
      NothingLeft(Step, w0, t0, cmds, world, trace);
    }

    method DrainRun()
      modifies this
      ensures var plan := [Drain, KubeadmReset, DeleteObject];
              world == Do(old(world), plan) && trace == old(trace) + plan
    {
      hide Step;
      ghost var w := world;
      ExecTwo(Step, w, Drain, KubeadmReset);
      ExecThree(Step, w, Drain, KubeadmReset, DeleteObject);
      Issue(Drain);
      Issue(KubeadmReset);
      Issue(DeleteObject);
    }

    method VolumesRun(n: string)
      modifies this
      ensures var plan := VolumeCmds(old(world), Home(old(world), n), NodeVolumes(n));
              world == Do(old(world), plan) && trace == old(trace) + plan
    {
      hide Exec;
      hide MachineOf;
      hide Step;
      hide VolumeCmds;
      var h := Home(world, n);
      var volumes := NodeVolumes(n);
      ghost var w0 := world;
      VolumesDiffer(n);
      NoVolumes(w0, h, volumes);
      assert trace + [] == trace;
      for i := 0 to |volumes|
        invariant world == Do(w0, VolumeCmds(w0, h, volumes[..i]))
        invariant trace == old(trace) + VolumeCmds(w0, h, volumes[..i])
      {
        NextVolume(w0, h, volumes, i);
        if volumes[i] in BoxAt(world, h).volumes {
          ghost var done := VolumeCmds(w0, h, volumes[..i]);
          ExecAppend(Step, w0, done, [RmVolume(h, volumes[i])]);
          Associative(old(trace), done, [RmVolume(h, volumes[i])]);
          Issue(RmVolume(h, volumes[i]));
        }
      }
      assert volumes[..|volumes|] == volumes;
    }

    /** The route, everything rendered without the node, its unit and directory, the routers. */
    method UnitsRun(text: Units.Template, n: string)
      modifies this
      ensures world == Do(old(world), UnitsPlan(text, old(world), n)) && trace == old(trace) + UnitsPlan(text, old(world), n)
    {
      hide Exec;
      hide Units.Plan;
      hide Trimmed;
      hide MachineOf;
      hide RunningRouters;
      var w := world;
      var c := Trimmed(w.loaded, n);
      var a, b, r, s := RouteCmds(w, n), DiskCmds(Units.Plan(text, c, w.disks)), RmCmds(w, n), ReloadCmds(w, c);
      ExecAppend(Step, w, a, b);
      ExecAppend(Step, w, a + b, r);
      ExecAppend(Step, w, a + b + r, s);
      Associative(trace, a, b);
      Associative(trace, a + b, r);
      Associative(trace, a + b + r, s);
      IssueAll(a);
      IssueAll(b);
      IssueAll(r);
      IssueAll(s);
    }

    /** save_cluster without the node. */
    method EntryRun(n: string)
      modifies this
      ensures world == Do(old(world), EntryPlan(old(world), n)) && trace == old(trace) + EntryPlan(old(world), n)
    {
      hide Exec;
      hide Trimmed;
      hide RemotesOf;
      var c := Trimmed(world.loaded, n);
      var copies := Map(RemotesOf(c), (h: HostId) => SaveCopy(h, c));
      ExecAppend(Step, world, [SaveOperator(c)], copies);
      Associative(trace, [SaveOperator(c)], copies);
      Issue(SaveOperator(c));
      IssueAll(copies);
    }

    /** A phase of a full deletion: its run function issues exactly its plan. */
    method RunPhase(text: Units.Template, n: string, i: nat)
      requires i < 6 && !Phases(text, n)[i].done.value(world)
      modifies this
      ensures world == Do(old(world), Phases(text, n)[i].plan(old(world)))
      ensures trace == old(trace) + Phases(text, n)[i].plan(old(world))
    {
      hide Exec;
      hide UnitsPlan;
      hide EntryPlan;
      hide VolumeCmds;
      hide UnitsDone;
      hide MachineOf;
      match i
      case 0 => DrainRun();
      case 1 => Issue(StopUnit(Home(world, n), n + ".service"));
      case 2 => Issue(RmContainer(Home(world, n), n));
      case 3 => VolumesRun(n);
      case 4 => UnitsRun(text, n);
      case 5 => EntryRun(n);
    }
  }
}
