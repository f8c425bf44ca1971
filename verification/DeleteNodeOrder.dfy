/** In which order a node deletion takes the node apart: its unit stops after its Node object has gone,
    then go the container, the volumes and the unit file, whatever is cut. */
module DeleteNodeOrder {
  import opened Basics
  import opened ClusterModel
  import opened Hosts
  import opened Runner
  import opened DeleteNode
  import opened DeleteNodeAchieves
  import DeleteNodeResumes
  import Units

  /** Since `base` the node's unit was stopped only once its Node object had gone, its container removed
      only once the unit was down, its volumes only once the container had gone, and its unit file only
      once nothing of that was left. */
  ghost predicate Ordered(c: Cluster, n: string, base: World, w: World) {
    var h := MachineOf(c, n);
    var s, t, file := BoxAt(w, h), BoxAt(base, h), Units.NodeUnit(c.name, n);
    && (n + ".service" in t.active && n + ".service" !in s.active ==> !w.registered)
    && (n in t.containers && n !in s.containers ==> n + ".service" !in s.active)
    && (forall v :: v in NodeVolumes(n) && v in t.volumes && v !in s.volumes ==> n !in s.containers)
    && (file in Units.DiskAt(base.disks, h) && file !in Units.DiskAt(w.disks, h) ==>
          n !in s.containers && forall v :: v in NodeVolumes(n) ==> v !in s.volumes)
  }

  // ---- what a phase leaves as it is

  predicate Keeps(x: Cmd, active: bool, containers: bool, volumes: bool) {
    (active ==> !x.StopUnit?) && (containers ==> !x.RmContainer?) && (volumes ==> !x.RmVolume?)
  }

  lemma {:induction false} BoxesKept(w: World, cmds: seq<Cmd>, h: HostId, active: bool, containers: bool, volumes: bool)
    requires forall x :: x in cmds ==> Keeps(x, active, containers, volumes)
    ensures var v := Do(w, cmds);
            && (active ==> BoxAt(v, h).active == BoxAt(w, h).active)
            && (containers ==> BoxAt(v, h).containers == BoxAt(w, h).containers)
            && (volumes ==> BoxAt(v, h).volumes == BoxAt(w, h).volumes)
  {
    if cmds != [] {
      hide Step;
      hide BoxAt;
      var k := |cmds| - 1;
      BoxesKept(w, cmds[..k], h, active, containers, volumes);
      assert cmds[k] in cmds;
      BoxKept(Do(w, cmds[..k]), cmds[k], h, active, containers, volumes);
    }
  }

  lemma BoxKept(w: World, x: Cmd, h: HostId, active: bool, containers: bool, volumes: bool)
    requires Keeps(x, active, containers, volumes)
    ensures var v := Step(w, x);
            && (active ==> BoxAt(v, h).active == BoxAt(w, h).active)
            && (containers ==> BoxAt(v, h).containers == BoxAt(w, h).containers)
            && (volumes ==> BoxAt(v, h).volumes == BoxAt(w, h).volumes)
  {
  }

  lemma PlanKeeps(text: Units.Template, n: string, i: nat, w: World)
    requires i < 6
    ensures forall x :: x in Phases(text, n)[i].plan(w) ==> Keeps(x, i != STOP, i != CONTAINER, i != VOLUMES)
  {
    hide UnitsPlan;
    hide MachineOf;
    hide Trimmed;
    hide Units.Done;
    UnitsPlanKeeps(text, w, n);
  }

  lemma UnitsPlanKeeps(text: Units.Template, w: World, n: string)
    ensures forall x :: x in UnitsPlan(text, w, n) ==> Keeps(x, true, true, true)
  {
    hide Units.Plan;
    hide MachineOf;
    hide Trimmed;
    hide RunningRouters;
  }

  lemma PrefixKeeps(text: Units.Template, n: string, i: nat, w: World, k: nat, h: HostId)
    requires i < 6 && k <= |Phases(text, n)[i].plan(w)|
    ensures var v := Do(w, Phases(text, n)[i].plan(w)[..k]);
            && (i != STOP ==> BoxAt(v, h).active == BoxAt(w, h).active)
            && (i != CONTAINER ==> BoxAt(v, h).containers == BoxAt(w, h).containers)
            && (i != VOLUMES ==> BoxAt(v, h).volumes == BoxAt(w, h).volumes)
  {
    PlanKeeps(text, n, i, w);
    hide Phases;
    hide Keeps;
    hide BoxAt;
    var cmds := Phases(text, n)[i].plan(w);
    assert forall x :: x in cmds[..k] ==> x in cmds;
    BoxesKept(w, cmds[..k], h, i != STOP, i != CONTAINER, i != VOLUMES);
  }

  // ---- the phases before the entry

  /** What the earlier phases have done. */
  ghost predicate EarlierDone(c: Cluster, n: string, i: nat, w: World) {
    var s := BoxAt(w, MachineOf(c, n));
    && (i > DRAIN ==> !w.registered)
    && (i > STOP ==> n + ".service" !in s.active)
    && (i > CONTAINER ==> n !in s.containers)
    && (i > VOLUMES ==> forall v :: v in NodeVolumes(n) ==> v !in s.volumes)
  }

  lemma EarlierIs(text: Units.Template, n: string, i: nat, w: World)
    requires i <= ENTRY && DoneUpTo(Phases(text, n), i, w)
    ensures EarlierDone(w.loaded, n, i, w)
  {
    hide MachineOf;
    hide NodeVolumes;
    assert i > DRAIN ==> IsDone(Phases(text, n)[DRAIN], w);
    assert i > STOP ==> IsDone(Phases(text, n)[STOP], w);
    assert i > CONTAINER ==> IsDone(Phases(text, n)[CONTAINER], w);
    assert i > VOLUMES ==> IsDone(Phases(text, n)[VOLUMES], w);
    hide Phases;
  }

  lemma EarlyOrdered(text: Units.Template, n: string, c: Cluster, base: World, i: nat, w: World, k: nat)
    requires i < ENTRY && Ordered(c, n, base, w) && w.loaded == c && DoneUpTo(Phases(text, n), i, w)
    requires k <= |Phases(text, n)[i].plan(w)|
    ensures Ordered(c, n, base, Do(w, Phases(text, n)[i].plan(w)[..k]))
  {
    hide Phases;
    hide MachineOf;
    hide NodeVolumes;
    hide Exec;
    hide DoneUpTo;
    var v := Do(w, Phases(text, n)[i].plan(w)[..k]);
    PrefixCalm(text, n, i, w, k);
    CalmHome(text, c, n, v, w);
    hide Calm;
    EarlierIs(text, n, i, w);
    PrefixKeeps(text, n, i, w, k, MachineOf(c, n));
    if i < UNITS {
      DeleteNodeResumes.EarlyDisks(text, n, i, w, k);
    }
    StillOrdered(c, n, base, i, w, v);
  }

  lemma CalmHome(text: Units.Template, c: Cluster, n: string, v: World, w: World)
    requires Calm(text, c, n, v, w)
    ensures var s, t := BoxAt(v, MachineOf(c, n)), BoxAt(w, MachineOf(c, n));
            s.active <= t.active && s.containers <= t.containers && s.volumes <= t.volumes && (v.registered ==> w.registered)
  {
    hide MachineOf;
    assert CalmBox(BoxAt(v, MachineOf(c, n)), BoxAt(w, MachineOf(c, n)), n);
  }

  lemma StillOrdered(c: Cluster, n: string, base: World, i: nat, w: World, v: World)
    requires i < ENTRY && Ordered(c, n, base, w) && EarlierDone(c, n, i, w)
    requires var s, t := BoxAt(v, MachineOf(c, n)), BoxAt(w, MachineOf(c, n));
             && s.active <= t.active && s.containers <= t.containers && s.volumes <= t.volumes && (v.registered ==> w.registered)
             && (i != STOP ==> s.active == t.active) && (i != CONTAINER ==> s.containers == t.containers)
             && (i != VOLUMES ==> s.volumes == t.volumes) && (i < UNITS ==> v.disks == w.disks)
    ensures Ordered(c, n, base, v)
  {
    hide MachineOf;
    hide NodeVolumes;
    hide BoxAt;
  }

  // ---- whole attempts

  ghost predicate Safe(c: Cluster, n: string, base: World, w: World) {
    Ordered(c, n, base, w) && (w.yaml == c || w.yaml == Trimmed(c, n))
  }

  ghost predicate Before(text: Units.Template, c: Cluster, n: string, base: World, i: nat, w: World) {
    Safe(c, n, base, w) && (i <= ENTRY ==> w.yaml == c && w.loaded == c && DoneUpTo(Phases(text, n), i, w))
  }

  lemma EarlyBefore(text: Units.Template, c: Cluster, n: string, base: World, i: nat, w: World, k: nat)
    requires i < ENTRY && Before(text, c, n, base, i, w) && k <= |Phases(text, n)[i].plan(w)|
    ensures var v := Do(w, Phases(text, n)[i].plan(w)[..k]);
            Before(text, c, n, base, i, v) && (IsDone(Phases(text, n)[i], v) ==> Before(text, c, n, base, i + 1, v))
  {
    hide Phases;
    hide Exec;
    hide Ordered;
    hide Trimmed;
    var v := Do(w, Phases(text, n)[i].plan(w)[..k]);
    EarlyOrdered(text, n, c, base, i, w, k);
    PrefixCalm(text, n, i, w, k);
    hide Calm;
    EarlyStays(text, n, i, v, w);
  }

  /** Saving cluster.yaml and its copies changes nothing of the node. */
  lemma {:induction false} SavesOrdered(c: Cluster, n: string, base: World, w: World, cmds: seq<Cmd>)
    requires Safe(c, n, base, w)
    requires forall x :: x in cmds ==> x.SaveCopy? || x == SaveOperator(Trimmed(c, n))
    ensures Safe(c, n, base, Do(w, cmds))
  {
    if cmds != [] {
      hide Safe;
      hide Step;
      hide Trimmed;
      var k := |cmds| - 1;
      assert cmds[k] in cmds;
      SavesOrdered(c, n, base, w, cmds[..k]);
      SaveOrdered(c, n, base, Do(w, cmds[..k]), cmds[k]);
    }
  }

  lemma SaveOrdered(c: Cluster, n: string, base: World, w: World, x: Cmd)
    requires Safe(c, n, base, w) && (x.SaveCopy? || x == SaveOperator(Trimmed(c, n)))
    ensures Safe(c, n, base, Step(w, x))
  {
    hide Trimmed;
    hide MachineOf;
    hide NodeVolumes;
    assert forall h :: BoxAt(Step(w, x), h) == BoxAt(w, h);
    assert Step(w, x).disks == w.disks && Step(w, x).registered == w.registered;
    hide Step;
    hide BoxAt;
  }

  lemma EntryIsSaves(text: Units.Template, n: string, w: World)
    ensures forall x :: x in Phases(text, n)[ENTRY].plan(w) ==> x.SaveCopy? || x == SaveOperator(Trimmed(w.loaded, n))
  {
    hide Trimmed;
    hide RemotesOf;
  }

  lemma OrderGuarded(text: Units.Template, c: Cluster, n: string, base: World)
    requires Fit(c, n)
    ensures Guarded(Step, Phases(text, n), (i: nat, w: World) => Before(text, c, n, base, i, w), (w: World) => Safe(c, n, base, w))
  {
    hide Exec;
    hide Phases;
    hide Ordered;
    hide Fit;
    var phases := Phases(text, n);
    var ready, safe := (i: nat, w: World) => Before(text, c, n, base, i, w), (w: World) => Safe(c, n, base, w);
    forall i: nat, w: World | i < |phases| && ready(i, w)
      ensures Guards(Step, phases, ready, safe, i, w)
    {
      var cmds := phases[i].plan(w);
      assert cmds[..|cmds|] == cmds;
      if i < ENTRY {
        forall k: nat | k <= |cmds|
          ensures Before(text, c, n, base, i, Exec(Step, w, cmds[..k]))
        {
          EarlyBefore(text, c, n, base, i, w, k);
        }
        EarlyBefore(text, c, n, base, i, w, |cmds|);
        ReadyNext(text, c, n, base, i, w);
        assert phases[i].done.Some?;
      } else {
        EntryIsSaves(text, n, w);
        forall k: nat | k <= |cmds|
          ensures Safe(c, n, base, Exec(Step, w, cmds[..k]))
        {
          assert forall x :: x in cmds[..k] ==> x in cmds;
          SavesOrdered(c, n, base, w, cmds[..k]);
        }
      }
    }
  }

  lemma ReadyNext(text: Units.Template, c: Cluster, n: string, base: World, i: nat, w: World)
    requires i < ENTRY && Before(text, c, n, base, i, w)
    ensures IsDone(Phases(text, n)[i], w) ==> Before(text, c, n, base, i + 1, w)
  {
    hide Phases;
    hide Safe;
  }

  lemma OrderAttempt(text: Units.Template, c: Cluster, n: string, base: World, w: World, budget: nat)
    requires Fit(c, n) && Safe(c, n, base, w)
    ensures Safe(c, n, base, Attempt(text, w, n, budget).0)
  {
    hide Phases;
    hide Guarded;
    hide Completing;
    hide RunFrom;
    hide Exec;
    TrimmedIs(c, n);
    var start := w.(loaded := w.yaml);
    SafeReload(c, n, base, w, start);
    hide Safe;
    hide Fit;
    hide Trimmed;
    if Deletable(w.yaml, n) {
      assert w.yaml == c by {
        YamlIs(c, n, base, w);
      }
      hide Deletable;
      var ready, safe := (i: nat, v: World) => Before(text, c, n, base, i, v), (v: World) => Safe(c, n, base, v);
      OrderGuarded(text, c, n, base);
      assert ready(0, start);
      RunStays(Step, Phases(text, n), ready, safe, 0, start, budget);
      assert safe(Run(Step, Phases(text, n), start, budget).0);
    }
  }

  lemma YamlIs(c: Cluster, n: string, base: World, w: World)
    requires Safe(c, n, base, w)
    ensures w.yaml == c || w.yaml == Trimmed(c, n)
  {
  }

  lemma SafeReload(c: Cluster, n: string, base: World, w: World, start: World)
    requires Safe(c, n, base, w) && start == w.(loaded := w.yaml)
    ensures Safe(c, n, base, start)
  {
    hide Trimmed;
    hide MachineOf;
    hide NodeVolumes;
    assert forall h :: BoxAt(start, h) == BoxAt(w, h);
    hide BoxAt;
  }

  lemma {:induction false} AttemptsSafe(text: Units.Template, c: Cluster, n: string, w: World, budgets: seq<nat>)
    requires Fit(c, n) && w.yaml == c
    ensures Safe(c, n, w, Attempts(text, w, n, budgets))
  {
    hide Fit;
    hide Ordered;
    if budgets != [] {
      hide Attempt;
      hide Safe;
      var k := |budgets| - 1;
      AttemptsSafe(text, c, n, w, budgets[..k]);
      OrderAttempt(text, c, n, w, Attempts(text, w, n, budgets[..k]), budgets[k]);
    } else {
      OrderedSelf(c, n, w);
    }
  }

  lemma OrderedSelf(c: Cluster, n: string, w: World)
    ensures Ordered(c, n, w, w)
  {
  }

  /** However often a node deletion is cut and wherever, that order is kept at every moment. */
  lemma NodeGoesInOrder(text: Units.Template, c: Cluster, n: string, w: World, budgets: seq<nat>)
    requires Fit(c, n) && w.yaml == c
    ensures Ordered(c, n, w, Attempts(text, w, n, budgets))
  {
    hide Ordered;
    hide Attempts;
    hide Fit;
    AttemptsSafe(text, c, n, w, budgets);
  }
}
