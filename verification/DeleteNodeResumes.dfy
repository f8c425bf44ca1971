/** A node deletion that is cut anywhere, any number of times, and finally finishes. */
module DeleteNodeResumes {
  import opened Basics
  import opened ClusterModel
  import opened Hosts
  import opened Runner
  import opened DeleteNode
  import opened DeleteNodeAchieves
  import Units
  import UnitsHold
  import NodeEdits

  /** Since `base` only the node's own things have gone, and its Node object not before kubeadm reset. */
  ghost predicate Steady(text: Units.Template, n: string, c: Cluster, base: World, w: World) {
    Calm(text, c, n, w, base) && (base.registered && !w.registered ==> w.reset)
  }

  /** The host's route to the node's pods does not outlive the node's unit file. */
  predicate RouteBacked(c: Cluster, n: string, w: World) {
    RouteOf(c, n).Some? && RouteOf(c, n).value in w.routes ==> Units.NodeUnit(c.name, n) in Units.DiskAt(w.disks, MachineOf(c, n))
  }

  /** cluster.yaml still lists the node. */
  ghost predicate Listed(text: Units.Template, n: string, c: Cluster, base: World, w: World) {
    w.yaml == c && w.copies == base.copies && Steady(text, n, c, base, w) && RouteBacked(c, n, w)
  }

  /** No Node object, active unit, container, volume, unit file or node directory is left; every other
      file is as rendered without the node, and the running routers forward without it. */
  ghost predicate Gone(text: Units.Template, n: string, c: Cluster, w: World) {
    DoneUpTo(Phases(text, n), ENTRY, w.(loaded := c))
  }

  /** cluster.yaml no longer lists the node, the first m copies on other hosts do not either. */
  ghost predicate Unlisted(text: Units.Template, n: string, c: Cluster, base: World, m: nat, w: World) {
    && w.yaml == Trimmed(c, n) && Steady(text, n, c, base, w) && RouteBacked(c, n, w) && Gone(text, n, c, w)
    && m <= |RemotesOf(c)| && w.copies == Copied(base.copies, RemotesOf(c)[..m], Trimmed(c, n))
  }

  ghost predicate Safe(text: Units.Template, n: string, c: Cluster, base: World, w: World) {
    Listed(text, n, c, base, w) || exists m :: Unlisted(text, n, c, base, m, w)
  }

  ghost predicate ReadyFor(text: Units.Template, n: string, c: Cluster, base: World, i: nat, w: World) {
    if i <= ENTRY then Listed(text, n, c, base, w) && w.loaded == c && DoneUpTo(Phases(text, n), i, w)
    else Unlisted(text, n, c, base, |RemotesOf(c)|, w)
  }

  // ---- the first five phases

  lemma {:induction false} DisksUntouched(w: World, cmds: seq<Cmd>)
    requires forall c :: c in cmds ==> !c.OnDisk? && !c.RmNodeDir?
    ensures Do(w, cmds).disks == w.disks
  {
    if cmds != [] {
      var k := |cmds| - 1;
      DisksUntouched(w, cmds[..k]);
      assert cmds[k] in cmds;
      StepDisks(Do(w, cmds[..k]), cmds[k]);
      hide Step;
    }
  }

  lemma StepDisks(w: World, c: Cmd)
    requires !c.OnDisk? && !c.RmNodeDir?
    ensures Step(w, c).disks == w.disks
  {
  }

  lemma EarlyDisks(text: Units.Template, n: string, i: nat, w: World, k: nat)
    requires i < UNITS && k <= |Phases(text, n)[i].plan(w)|
    ensures Do(w, Phases(text, n)[i].plan(w)[..k]).disks == w.disks
  {
    hide MachineOf;
    assert forall c :: c in Phases(text, n)[i].plan(w) ==> !c.OnDisk? && !c.RmNodeDir?;
    hide Phases;
    assert forall c :: c in Phases(text, n)[i].plan(w)[..k] ==> c in Phases(text, n)[i].plan(w);
    DisksUntouched(w, Phases(text, n)[i].plan(w)[..k]);
  }

  /** In the units phase the route is the first thing to go. */
  lemma RouteGoesFirst(text: Units.Template, n: string, w: World, k: nat)
    requires 0 < k <= |UnitsPlan(text, w, n)| && RouteOf(w.loaded, n).Some?
    ensures RouteOf(w.loaded, n).value !in Do(w, UnitsPlan(text, w, n)[..k]).routes
  {
    hide Units.Plan;
    hide Trimmed;
    hide RunningRouters;
    hide MachineOf;
    var r := RouteOf(w.loaded, n).value;
    UnitsPlanOwn(text, w, n);
    hide OwnWrite;
    var plan := UnitsPlan(text, w, n);
    assert plan[0] == DelRoute(r);
    hide UnitsPlan;
    hide Own;
    assert plan[..k] == [DelRoute(r)] + plan[1..k];
    ExecAppend(Step, w, [DelRoute(r)], plan[1..k]);
    ExecOne(Step, w, DelRoute(r));
    DoCalm(text, w.loaded, n, Step(w, DelRoute(r)), plan[1..k]);
  }

  /** The drain comes before kubeadm reset, and that before the Node object goes. */
  lemma ResetFirst(w: World, k: nat)
    requires k <= 3
    ensures var v := Do(w, [Drain, KubeadmReset, DeleteObject][..k]);
            && (!v.registered ==> v.reset || !w.registered) && (w.reset ==> v.reset)
            && (w.drained ==> v.drained) && (v.reset ==> v.drained || w.reset)
  {
    hide Exec;
    var cmds := [Drain, KubeadmReset, DeleteObject];
    if k == 0 {
      ExecNothing(Step, w);
      assert cmds[..k] == [];
    } else if k == 1 {
      ExecOne(Step, w, Drain);
      assert cmds[..k] == [Drain];
    } else if k == 2 {
      ExecTwo(Step, w, Drain, KubeadmReset);
      assert cmds[..k] == [Drain, KubeadmReset];
    } else {
      ExecThree(Step, w, Drain, KubeadmReset, DeleteObject);
      assert cmds[..k] == cmds;
    }
  }

  lemma EarlyListed(text: Units.Template, n: string, c: Cluster, base: World, i: nat, w: World, k: nat)
    requires i < ENTRY && ReadyFor(text, n, c, base, i, w) && k <= |Phases(text, n)[i].plan(w)|
    ensures var v := Do(w, Phases(text, n)[i].plan(w)[..k]);
            Listed(text, n, c, base, v) && Calm(text, c, n, v, w) && v.loaded == c
  {
    var v := Do(w, Phases(text, n)[i].plan(w)[..k]);
    PrefixCalm(text, n, i, w, k);
    CalmTrans(text, c, n, v, w, base);
    if i == DRAIN {
      ResetFirst(w, k);
    } else {
      assert IsDone(Phases(text, n)[DRAIN], w);
    }
    assert RouteBacked(c, n, v) by {
      if i == UNITS {
        assert Phases(text, n)[i].plan(w) == UnitsPlan(text, w, n);
        if k == 0 {
          ExecNothing(Step, w);
          assert UnitsPlan(text, w, n)[..k] == [];
        } else if RouteOf(c, n).Some? {
          RouteGoesFirst(text, n, w, k);
        }
      } else {
        EarlyDisks(text, n, i, w, k);
      }
      hide MachineOf;
      hide UnitsPlan;
      hide Exec;
      hide DoneUpTo;
      hide Phases;
      hide Calm;
    }
    hide Calm;
    hide Exec;
    hide Phases;
    hide RouteBacked;
    hide DoneUpTo;
  }

  lemma RoutersStillRun(text: Units.Template, n: string, c: Cluster, base: World, w: World)
    requires Steady(text, n, c, base, w) && RunningRouters(base, c) != []
    ensures RunningRouters(w, c) != []
  {
    hide RoutersOf;
    var r := RunningRouters(base, c)[0];
    assert r in RunningRouters(base, c);
    assert r.name in w.running;
    assert r in RunningRouters(w, c);
  }

  lemma PhaseAchieves(text: Units.Template, n: string, i: nat, w: World)
    requires i < ENTRY && Fit(w.loaded, n) && RunningRouters(w, w.loaded) != []
    ensures IsDone(Phases(text, n)[i], Do(w, Phases(text, n)[i].plan(w)))
  {
    hide UnitsDone;
    hide UnitsPlan;
    hide Exec;
    hide Fit;
    hide RunningRouters;
    hide MachineOf;
    if i < UNITS {
      hide Phases;
      EarlyAchieves(text, n, i, w);
    } else {
      UnitsAchieved(text, w, n);
    }
  }

  lemma EarlyReady(text: Units.Template, n: string, c: Cluster, base: World, i: nat, w: World)
    requires i < ENTRY && ReadyFor(text, n, c, base, i, w)
    requires IsDone(Phases(text, n)[i], Do(w, Phases(text, n)[i].plan(w)))
    ensures ReadyFor(text, n, c, base, i + 1, Do(w, Phases(text, n)[i].plan(w)))
  {
    hide Phases;
    hide Exec;
    hide Steady;
    var plan := Phases(text, n)[i].plan(w);
    var v := Do(w, plan);
    assert plan[..|plan|] == plan;
    EarlyListed(text, n, c, base, i, w, |plan|);
    hide Listed;
    hide Calm;
    EarlyStays(text, n, i, v, w);
  }

  // ---- the entry goes

  lemma {:induction false} CopiesDo(w: World, hosts: seq<HostId>, y: Cluster)
    ensures Do(w, Map(hosts, (h: HostId) => SaveCopy(h, y))) == w.(copies := Copied(w.copies, hosts, y))
  {
    var cmds := Map(hosts, (h: HostId) => SaveCopy(h, y));
    if hosts == [] {
      assert cmds == [];
    } else {
      var k := |hosts| - 1;
      assert cmds[..k] == Map(hosts[..k], (h: HostId) => SaveCopy(h, y));
      CopiesDo(w, hosts[..k], y);
    }
  }

  lemma EntryPrefix(w: World, n: string, k: nat)
    requires 0 < k <= |EntryPlan(w, n)|
    ensures var c := Trimmed(w.loaded, n);
            && k - 1 <= |RemotesOf(c)|
            && Do(w, EntryPlan(w, n)[..k]) == w.(loaded := c, yaml := c, copies := Copied(w.copies, RemotesOf(c)[..k - 1], c))
  {
    hide Trimmed;
    hide RemotesOf;
    var c := Trimmed(w.loaded, n);
    var hosts := RemotesOf(c)[..k - 1];
    var copies := Map(hosts, (h: HostId) => SaveCopy(h, c));
    assert EntryPlan(w, n)[..k] == [SaveOperator(c)] + copies;
    ExecAppend(Step, w, [SaveOperator(c)], copies);
    ExecOne(Step, w, SaveOperator(c));
    CopiesDo(Step(w, SaveOperator(c)), hosts, c);
  }

  lemma EntryUnlisted(text: Units.Template, n: string, c: Cluster, base: World, w: World, k: nat)
    requires Fit(c, n) && ReadyFor(text, n, c, base, ENTRY, w) && 0 < k <= |EntryPlan(w, n)|
    ensures var v := Do(w, EntryPlan(w, n)[..k]);
            k - 1 <= |RemotesOf(c)| && Unlisted(text, n, c, base, k - 1, v) && v.loaded == Trimmed(c, n)
  {
    EntryPrefix(w, n, k);
    TrimmedIs(c, n);
    hide Phases;
    hide DoneUpTo;
    hide Exec;
    hide EntryPlan;
    hide Trimmed;
    hide Fit;
    hide RemotesOf;
    hide MachineOf;
    hide Steady;
    hide RouteBacked;
    UnlistedAfter(text, n, c, base, w, Do(w, EntryPlan(w, n)[..k]), k - 1);
  }

  lemma UnlistedAfter(text: Units.Template, n: string, c: Cluster, base: World, w: World, v: World, m: nat)
    requires Listed(text, n, c, base, w) && w.loaded == c && DoneUpTo(Phases(text, n), ENTRY, w)
    requires m <= |RemotesOf(c)|
    requires v == w.(loaded := Trimmed(c, n), yaml := Trimmed(c, n), copies := Copied(w.copies, RemotesOf(c)[..m], Trimmed(c, n)))
    ensures Unlisted(text, n, c, base, m, v)
  {
    hide Phases;
    hide DoneUpTo;
    hide Trimmed;
    hide RemotesOf;
    hide MachineOf;
    hide Steady;
    SteadySame(text, n, c, base, w, v);
    assert v.(loaded := c) == w.(yaml := v.yaml, copies := v.copies);
    YamlIsNotAsked(text, n, w, v.yaml, v.copies);
  }

  lemma YamlIsNotAsked(text: Units.Template, n: string, w: World, yaml: Cluster, copies: map<HostId, Cluster>)
    requires DoneUpTo(Phases(text, n), ENTRY, w)
    ensures DoneUpTo(Phases(text, n), ENTRY, w.(yaml := yaml, copies := copies))
  {
    var v := w.(yaml := yaml, copies := copies);
    hide Units.Done;
    hide Trimmed;
    hide MachineOf;
    hide Synced;
    assert forall c :: Synced(v, c) == Synced(w, c) by {
      SyncedSame(v, w);
    }
    forall j: nat | j < ENTRY
      ensures IsDone(Phases(text, n)[j], v)
    {
      assert IsDone(Phases(text, n)[j], w);
    }
  }

  lemma SyncedSame(v: World, w: World)
    requires v.running == w.running
    ensures forall c :: Synced(v, c) == Synced(w, c)
  {
    forall c
      ensures RunningRouters(v, c) == RunningRouters(w, c)
    {
      hide RoutersOf;
      FilterSame(RoutersOf(c), (r: Router) => r.name in v.running, (r: Router) => r.name in w.running);
    }
  }

  // ---- whole runs

  lemma NodeGuarded(text: Units.Template, n: string, c: Cluster, base: World)
    requires Fit(c, n)
    ensures Guarded(Step, Phases(text, n), (i: nat, w: World) => ReadyFor(text, n, c, base, i, w),
                    (w: World) => Safe(text, n, c, base, w))
  {
    hide Exec;
    hide Phases;
    hide ReadyFor;
    hide Safe;
    hide Fit;
    hide RunningRouters;
    var phases := Phases(text, n);
    var ready := (i: nat, w: World) => ReadyFor(text, n, c, base, i, w);
    var safe := (w: World) => Safe(text, n, c, base, w);
    forall i: nat, w: World | i < |phases| && ready(i, w)
      ensures Guards(Step, phases, ready, safe, i, w)
    {
      if i == ENTRY {
        EntryGuards(text, n, c, base, w);
      } else {
        EarlyGuards(text, n, c, base, i, w);
      }
    }
    forall w: World | ready(|phases|, w)
      ensures safe(w)
    {
      FinishedIsSafe(text, n, c, base, w);
    }
  }

  /** While some router of the cluster runs, every phase that runs to its end is done. */
  lemma NodeCompletes(text: Units.Template, n: string, c: Cluster, base: World)
    requires Fit(c, n) && RunningRouters(base, c) != []
    ensures Completing(Step, Phases(text, n), (i: nat, w: World) => ReadyFor(text, n, c, base, i, w))
  {
    hide Exec;
    hide Phases;
    hide ReadyFor;
    hide Fit;
    hide RunningRouters;
    var ready := (i: nat, w: World) => ReadyFor(text, n, c, base, i, w);
    forall i: nat, w: World | i < |Phases(text, n)| && ready(i, w)
      ensures Completes(Step, Phases(text, n), i, w)
    {
      NodePhaseCompletes(text, n, c, base, i, w);
    }
  }

  lemma NodePhaseCompletes(text: Units.Template, n: string, c: Cluster, base: World, i: nat, w: World)
    requires Fit(c, n) && RunningRouters(base, c) != [] && i <= ENTRY && ReadyFor(text, n, c, base, i, w)
    ensures IsDone(Phases(text, n)[i], Exec(Step, w, Phases(text, n)[i].plan(w)))
  {
    hide Exec;
    hide Phases;
    hide Fit;
    hide RunningRouters;
    hide DoneUpTo;
    if i < ENTRY {
      RoutersStillRun(text, n, c, base, w);
      hide Steady;
      PhaseAchieves(text, n, i, w);
    } else {
      var plan := EntryPlan(w, n);
      EntryPhase(text, n, c, w);
      assert plan[..|plan|] == plan;
      hide EntryPlan;
      EntryUnlisted(text, n, c, base, w, |plan|);
    }
  }

  lemma FinishedIsSafe(text: Units.Template, n: string, c: Cluster, base: World, w: World)
    requires ReadyFor(text, n, c, base, 6, w)
    ensures Safe(text, n, c, base, w)
  {
    hide Unlisted;
    hide RemotesOf;
  }

  lemma EarlyGuards(text: Units.Template, n: string, c: Cluster, base: World, i: nat, w: World)
    requires i < ENTRY && ReadyFor(text, n, c, base, i, w)
    ensures Guards(Step, Phases(text, n), (j: nat, v: World) => ReadyFor(text, n, c, base, j, v), (v: World) => Safe(text, n, c, base, v), i, w)
  {
    hide Exec;
    hide Phases;
    hide Listed;
    hide Unlisted;
    var p := Phases(text, n)[i];
    if IsDone(p, w) {
      assert DoneUpTo(Phases(text, n), i + 1, w);
    } else {
      forall k: nat | k <= |p.plan(w)|
        ensures Safe(text, n, c, base, Exec(Step, w, p.plan(w)[..k]))
      {
        EarlyListed(text, n, c, base, i, w, k);
      }
      if IsDone(p, Exec(Step, w, p.plan(w))) {
        EarlyReady(text, n, c, base, i, w);
      }
    }
  }

  lemma EntryPhase(text: Units.Template, n: string, c: Cluster, w: World)
    requires Fit(c, n) && w.loaded == c
    ensures Phases(text, n)[ENTRY].plan(w) == EntryPlan(w, n) && |EntryPlan(w, n)| == 1 + |RemotesOf(c)|
    ensures !IsDone(Phases(text, n)[ENTRY], w)
    ensures forall v: World :: v.loaded == Trimmed(c, n) ==> IsDone(Phases(text, n)[ENTRY], v)
  {
    TrimmedIs(c, n);
    hide Trimmed;
    hide RemotesOf;
    hide UnitsHold.Sound;
    hide UnitsHold.AllNames;
  }

  lemma EntryGuards(text: Units.Template, n: string, c: Cluster, base: World, w: World)
    requires Fit(c, n) && ReadyFor(text, n, c, base, ENTRY, w)
    ensures Guards(Step, Phases(text, n), (j: nat, v: World) => ReadyFor(text, n, c, base, j, v), (v: World) => Safe(text, n, c, base, v), ENTRY, w)
  {
    hide Exec;
    hide Phases;
    hide Fit;
    hide Trimmed;
    hide RemotesOf;
    hide EntryPlan;
    hide Unlisted;
    EntryPhase(text, n, c, w);
    var plan := EntryPlan(w, n);
    assert plan[..|plan|] == plan;
    EntryUnlisted(text, n, c, base, w, |plan|);
    forall k: nat | k <= |plan|
      ensures Safe(text, n, c, base, Exec(Step, w, plan[..k]))
    {
      if k == 0 {
        ExecNothing(Step, w);
        assert plan[..k] == [];
      } else {
        EntryUnlisted(text, n, c, base, w, k);
      }
    }
    hide Listed;
  }

  // ---- any number of cut runs

  lemma OneAttempt(text: Units.Template, n: string, c: Cluster, base: World, w: World, budget: nat)
    requires Fit(c, n) && Safe(text, n, c, base, w)
    ensures var (after, outcome) := Attempt(text, w, n, budget);
            && Safe(text, n, c, base, after)
            && (outcome.Some? && RunningRouters(base, c) != [] ==> !outcome.value.NotDone?)
            && (outcome == Some(Finished) ==> Unlisted(text, n, c, base, |RemotesOf(c)|, after))
            && (outcome == None ==> after.copies == w.copies && exists m :: Unlisted(text, n, c, base, m, after))
  {
    hide Phases;
    hide RemotesOf;
    hide Steady;
    hide RouteBacked;
    hide Gone;
    hide Guarded;
    hide Completing;
    var start := w.(loaded := w.yaml);
    LoadedIsNotAsked(text, n, c, base, w);
    if Listed(text, n, c, base, w) {
      assert Deletable(w.yaml, n);
      var ready := (i: nat, v: World) => ReadyFor(text, n, c, base, i, v);
      var safe := (v: World) => Safe(text, n, c, base, v);
      NodeGuarded(text, n, c, base);
      if RunningRouters(base, c) != [] {
        NodeCompletes(text, n, c, base);
      }
      assert ready(0, start);
      hide Listed;
      hide Unlisted;
      hide Fit;
      hide RunningRouters;
      RunStays(Step, Phases(text, n), ready, safe, 0, start, budget);
      var after := Run(Step, Phases(text, n), start, budget).0;
      assert ready(6, after) ==> Unlisted(text, n, c, base, |RemotesOf(c)|, after);
    } else {
      TrimmedIs(c, n);
      assert !Deletable(w.yaml, n);
    }
  }

  /** Reading cluster.yaml again changes nothing that matters between runs. */
  lemma LoadedIsNotAsked(text: Units.Template, n: string, c: Cluster, base: World, w: World)
    requires Safe(text, n, c, base, w)
    ensures var start := w.(loaded := w.yaml);
            && (Listed(text, n, c, base, w) ==> Listed(text, n, c, base, start))
            && (forall m :: Unlisted(text, n, c, base, m, w) ==> Unlisted(text, n, c, base, m, start))
  {
    hide Phases;
    hide Trimmed;
    hide RemotesOf;
    hide DoneUpTo;
    var start := w.(loaded := w.yaml);
    assert start.(loaded := c) == w.(loaded := c);
    SteadySame(text, n, c, base, w, start);
    hide Steady;
    hide MachineOf;
  }

  /** Only what the hosts hold matters. */
  lemma SteadySame(text: Units.Template, n: string, c: Cluster, base: World, w: World, v: World)
    requires Steady(text, n, c, base, w)
    requires v.boxes == w.boxes && v.disks == w.disks && v.routes == w.routes && v.running == w.running
    requires v.registered == w.registered && v.reset == w.reset
    ensures Steady(text, n, c, base, v)
  {
    hide CalmDisks;
    hide CalmRoutes;
    hide CalmRouters;
    hide MachineOf;
    hide CalmBox;
    assert forall h :: BoxAt(v, h) == BoxAt(w, h);
  }

  lemma {:induction false} AttemptsSafe(text: Units.Template, n: string, c: Cluster, base: World, budgets: seq<nat>)
    requires Fit(c, n) && Safe(text, n, c, base, base)
    ensures Safe(text, n, c, base, Attempts(text, base, n, budgets))
  {
    if budgets != [] {
      hide Attempt;
      hide Safe;
      hide Fit;
      var k := |budgets| - 1;
      AttemptsSafe(text, n, c, base, budgets[..k]);
      OneAttempt(text, n, c, base, Attempts(text, base, n, budgets[..k]), budgets[k]);
    }
  }

  /** However often a node deletion is cut and wherever, routers running or not: while cluster.yaml
      lists the node, nothing but the node's own things has gone; once it does not, nothing of the node
      is left. The attempt that is not cut ends there too, with every copy of cluster.yaml saying so; a
      rerun that is refused because the entry has gone leaves the copies the cut did not reach as they
      were. While a router runs no attempt ends in a phase that ran and is not done. (What holds after
      the cuts is what was required before them, so routers may start and stop between attempts.) */
  lemma NodeDeleteResumes(text: Units.Template, n: string, c: Cluster, w: World, budgets: seq<nat>, last: nat)
    requires Fit(c, n) && w.yaml == c && RouteBacked(c, n, w)
    ensures var cut := Attempts(text, w, n, budgets);
            && Steady(text, n, c, w, cut) && RouteBacked(c, n, cut)
            && (cut.yaml == c || (cut.yaml == Trimmed(c, n) && Gone(text, n, c, cut)))
            && var (after, outcome) := Attempt(text, cut, n, last);
               && (outcome.Some? && RunningRouters(w, c) != [] ==> !outcome.value.NotDone?)
               && (outcome == Some(Finished) || outcome == None ==>
                     after.yaml == Trimmed(c, n) && Gone(text, n, c, after) && Steady(text, n, c, w, after))
               && (outcome == Some(Finished) ==> after.copies == Copied(w.copies, RemotesOf(c), Trimmed(c, n)))
               && (outcome == None ==> after.copies == cut.copies)
  {
    hide Attempt;
    hide Fit;
    hide Gone;
    hide Trimmed;
    hide RunningRouters;
    hide RouteBacked;
    assert Listed(text, n, c, w, w);
    AttemptsSafe(text, n, c, w, budgets);
    var cut := Attempts(text, w, n, budgets);
    OneAttempt(text, n, c, w, cut, last);
    assert RemotesOf(c)[..|RemotesOf(c)|] == RemotesOf(c);
  }

  /** What a cut deletion leaves alone, whatever the cuts: every path that is not rendered without the
      node, no stale cpu link and not the node's own, every other unit file, every route but the node's,
      everything on other machines but their files. */
  lemma OthersKept(text: Units.Template, n: string, c: Cluster, w: World, budgets: seq<nat>)
    requires Fit(c, n) && w.yaml == c && RouteBacked(c, n, w)
    ensures var v := Attempts(text, w, n, budgets);
            && (forall h, p :: !ItsFile(c, n, h, p) && !Swept(Trimmed(c, n), h, p)
                               && (forall hf :: hf in Units.PerHost(Trimmed(c, n)) && hf.machine == h ==> p !in hf.files && p !in hf.links)
                               ==> Units.Look(v.disks, h, p) == Units.Look(w.disks, h, p))
            && (forall h, x :: x != n && Units.Look(w.disks, h, Units.NodeUnit(c.name, x)).Some? ==>
                  Units.Look(v.disks, h, Units.NodeUnit(c.name, x)).Some?)
            && (forall r :: r in w.routes && RouteOf(c, n) != Some(r) ==> r in v.routes)
            && (forall h :: h != MachineOf(c, n) ==> BoxAt(v, h) == BoxAt(w, h))
  {
    hide Attempts;
    hide Attempt;
    hide Fit;
    hide Gone;
    hide Steady;
    hide RouteBacked;
    NodeDeleteResumes(text, n, c, w, budgets, 0);
    SteadyKeeps(text, n, c, w, Attempts(text, w, n, budgets));
  }

  lemma SteadyKeeps(text: Units.Template, n: string, c: Cluster, w: World, v: World)
    requires Steady(text, n, c, w, v)
    ensures forall h, p :: !ItsFile(c, n, h, p) && !Swept(Trimmed(c, n), h, p)
                           && (forall hf :: hf in Units.PerHost(Trimmed(c, n)) && hf.machine == h ==> p !in hf.files && p !in hf.links)
                           ==> Units.Look(v.disks, h, p) == Units.Look(w.disks, h, p)
    ensures forall h, x :: x != n && Units.Look(w.disks, h, Units.NodeUnit(c.name, x)).Some? ==>
              Units.Look(v.disks, h, Units.NodeUnit(c.name, x)).Some?
    ensures forall r :: r in w.routes && RouteOf(c, n) != Some(r) ==> r in v.routes
    ensures forall h :: h != MachineOf(c, n) ==> BoxAt(v, h) == BoxAt(w, h)
  {
    hide Units.PerHost;
    hide Units.Look;
    hide Trimmed;
    hide MachineOf;
    hide NodeHosts;
    hide Units.Links;
    hide RouteOf;
    forall h, p
      ensures CalmEntry(text, c, n, h, p, Units.Look(v.disks, h, p), Units.Look(w.disks, h, p))
    {
    }
    forall h, x | x != n
      ensures !ItsFile(c, n, h, Units.NodeUnit(c.name, x)) && !Swept(Trimmed(c, n), h, Units.NodeUnit(c.name, x))
    {
      UnitsHold.NameMatters(c, n, x);
    }
    hide ItsFile;
    hide Swept;
  }

  // ---- the reset

  /** Since `base` the Node object has gone only after kubeadm reset was run, and that only after the
      drain. */
  predicate ResetKept(base: World, w: World) {
    && (base.registered && !w.registered ==> w.reset) && (base.reset ==> w.reset)
    && (!base.reset && w.reset ==> w.drained) && (base.drained ==> w.drained)
  }

  lemma {:induction false} ResetKeptBy(base: World, w: World, cmds: seq<Cmd>)
    requires ResetKept(base, w) && forall x :: x in cmds ==> !x.DeleteObject? && !x.KubeadmReset?
    ensures ResetKept(base, Do(w, cmds))
  {
    if cmds != [] {
      var k := |cmds| - 1;
      ResetKeptBy(base, w, cmds[..k]);
      assert cmds[k] in cmds;
      ResetStep(base, Do(w, cmds[..k]), cmds[k]);
      hide Step;
      hide ResetKept;
    }
  }

  lemma ResetStep(base: World, w: World, x: Cmd)
    requires ResetKept(base, w) && !x.DeleteObject? && !x.KubeadmReset?
    ensures ResetKept(base, Step(w, x))
  {
  }

  lemma ResetPrefix(text: Units.Template, n: string, i: nat, base: World, w: World, k: nat)
    requires i < 6 && ResetKept(base, w) && k <= |Phases(text, n)[i].plan(w)|
    ensures ResetKept(base, Do(w, Phases(text, n)[i].plan(w)[..k]))
  {
    if i == DRAIN {
      ResetFirst(w, k);
      hide Exec;
    } else {
      NoDeleteObject(text, n, i, w);
      hide Phases;
      var prefix := Phases(text, n)[i].plan(w)[..k];
      assert forall x :: x in prefix ==> x in Phases(text, n)[i].plan(w);
      ResetKeptBy(base, w, prefix);
    }
  }

  lemma NoDeleteObject(text: Units.Template, n: string, i: nat, w: World)
    requires 0 < i < 6
    ensures forall x :: x in Phases(text, n)[i].plan(w) ==> !x.DeleteObject? && !x.KubeadmReset?
  {
    hide UnitsPlan;
    hide Units.Done;
    hide MachineOf;
    hide Trimmed;
    UnitsPlanResets(text, w, n);
  }

  lemma UnitsPlanResets(text: Units.Template, w: World, n: string)
    ensures forall x :: x in UnitsPlan(text, w, n) ==> !x.DeleteObject? && !x.KubeadmReset?
  {
    hide Units.Plan;
    hide MachineOf;
    hide Trimmed;
    hide RunningRouters;
  }

  lemma ResetGuarded(text: Units.Template, n: string, base: World)
    ensures Guarded(Step, Phases(text, n), (i: nat, w: World) => ResetKept(base, w), (w: World) => ResetKept(base, w))
  {
    hide Exec;
    hide Phases;
    hide ResetKept;
    var phases := Phases(text, n);
    var ready, safe := (i: nat, w: World) => ResetKept(base, w), (w: World) => ResetKept(base, w);
    forall i: nat, w: World | i < |phases| && ready(i, w)
      ensures Guards(Step, phases, ready, safe, i, w)
    {
      var cmds := phases[i].plan(w);
      forall k: nat | k <= |cmds|
        ensures safe(Exec(Step, w, cmds[..k]))
      {
        ResetPrefix(text, n, i, base, w, k);
      }
      assert cmds[..|cmds|] == cmds;
    }
  }

  lemma ResetAttempt(text: Units.Template, n: string, base: World, w: World, budget: nat)
    requires ResetKept(base, w)
    ensures ResetKept(base, Attempt(text, w, n, budget).0)
  {
    hide Phases;
    hide ResetKept;
    hide Guarded;
    hide Completing;
    hide Deletable;
    hide RunFrom;
    var ready, safe := (i: nat, v: World) => ResetKept(base, v), (v: World) => ResetKept(base, v);
    var start := w.(loaded := w.yaml);
    SameReset(base, w, start);
    ResetGuarded(text, n, base);
    assert ready(0, start);
    RunStays(Step, Phases(text, n), ready, safe, 0, start, budget);
    assert safe(Run(Step, Phases(text, n), start, budget).0);
  }

  /** However often a deletion is cut and wherever, on any cluster: when the Node object has gone,
      kubeadm reset was run, and when that was run, the drain was. */
  lemma {:induction false} ResetBeforeObject(text: Units.Template, n: string, w: World, budgets: seq<nat>)
    ensures ResetKept(w, Attempts(text, w, n, budgets))
  {
    if budgets != [] {
      hide Attempt;
      hide ResetKept;
      var k := |budgets| - 1;
      ResetBeforeObject(text, n, w, budgets[..k]);
      ResetAttempt(text, n, w, Attempts(text, w, n, budgets[..k]), budgets[k]);
    }
  }

  lemma SameReset(base: World, w: World, v: World)
    requires ResetKept(base, w) && v == w.(loaded := v.loaded)
    ensures ResetKept(base, v)
  {
  }

  /** What Gone means, item by item. */
  lemma GoneMeans(text: Units.Template, n: string, c: Cluster, w: World)
    requires Fit(c, n) && Gone(text, n, c, w) && RouteBacked(c, n, w)
    ensures var h := MachineOf(c, n);
            && !w.registered
            && n + ".service" !in BoxAt(w, h).active && n !in BoxAt(w, h).containers
            && (forall v :: v in NodeVolumes(n) ==> v !in BoxAt(w, h).volumes)
            && Units.NodeUnit(c.name, n) !in Units.DiskAt(w.disks, h)
            && (forall p :: p in Units.DiskAt(w.disks, h) ==> !InNodeDir(p, c.name, n))
            && (RouteOf(c, n).Some? ==> RouteOf(c, n).value !in w.routes)
            && Units.Done(text, Trimmed(c, n), w.disks)
            && (forall r, x :: r in RoutersOf(c) && r.name in w.running ==>
                  (x in w.running[r.name] <==> x != n && exists m :: m in c.spec.nodes && m.role == ControlPlane && m.name == x))
            && exists r :: r in RoutersOf(c) && r.name in w.running
  {
    hide Units.Done;
    hide MachineOf;
    hide Trimmed;
    hide Synced;
    hide InNodeDir;
    hide Fit;
    var v := w.(loaded := c);
    assert IsDone(Phases(text, n)[DRAIN], v) && IsDone(Phases(text, n)[STOP], v) && IsDone(Phases(text, n)[CONTAINER], v);
    assert IsDone(Phases(text, n)[VOLUMES], v) && IsDone(Phases(text, n)[UNITS], v);
    assert forall h :: BoxAt(v, h) == BoxAt(w, h);
    SyncedSame(v, w);
    SyncedMeans(c, n, w);
    hide DoneUpTo;
    hide Phases;
    hide RoutersOf;
  }

  /** The running routers forward to exactly the other control planes. */
  lemma SyncedMeans(c: Cluster, n: string, w: World)
    requires Fit(c, n) && Synced(w, Trimmed(c, n))
    ensures forall r, x :: r in RoutersOf(c) && r.name in w.running ==>
              (x in w.running[r.name] <==> x != n && exists m :: m in c.spec.nodes && m.role == ControlPlane && m.name == x)
    ensures exists r :: r in RoutersOf(c) && r.name in w.running
  {
    hide UnitsHold.Sound;
    TrimmedIs(c, n);
    var t := Trimmed(c, n);
    hide Trimmed;
    hide RoutersOf;
    var r := RunningRouters(w, t)[0];
    assert r in RunningRouters(w, t);
    assert forall x :: x in CpNames(t) <==> exists m :: m in t.spec.nodes && m.role == ControlPlane && m.name == x;
  }

  /** An attempt with enough commands finishes, or is refused because the entry is gone, if and only if
      the entry is gone or some router of the cluster runs: without one the units phase cannot be done. */
  lemma NodeDeleteFinishesIff(text: Units.Template, n: string, c: Cluster, base: World, w: World)
    requires Fit(c, n) && Safe(text, n, c, base, w)
    ensures (exists budget :: Attempt(text, w, n, budget).1 in {Some(Finished), None}) <==>
            w.yaml != c || RunningRouters(base, c) != []
  {
    hide Attempt;
    hide Fit;
    if w.yaml != c || RunningRouters(base, c) != [] {
      NodeDeleteFinishes(text, n, c, base, w);
    } else {
      forall budget
        ensures Attempt(text, w, n, budget).1 !in {Some(Finished), None}
      {
        hide RunningRouters;
        NeverWithoutRouter(text, n, c, base, w, budget);
      }
    }
  }

  lemma NodeDeleteFinishes(text: Units.Template, n: string, c: Cluster, base: World, w: World)
    requires Fit(c, n) && Safe(text, n, c, base, w) && (w.yaml != c || RunningRouters(base, c) != [])
    ensures exists budget :: Attempt(text, w, n, budget).1 in {Some(Finished), None}
  {
    hide Phases;
    hide RemotesOf;
    hide RunningRouters;
    var start := w.(loaded := w.yaml);
    LoadedIsNotAsked(text, n, c, base, w);
    var budget: nat := 0;
    if Listed(text, n, c, base, w) {
      var ready := (i: nat, v: World) => ReadyFor(text, n, c, base, i, v);
      var safe := (v: World) => Safe(text, n, c, base, v);
      NodeGuarded(text, n, c, base);
      NodeCompletes(text, n, c, base);
      assert ready(0, start);
      hide Listed;
      hide Unlisted;
      hide Fit;
      budget := EnoughGuarded(Step, Phases(text, n), ready, safe, 0, start);
    } else {
      TrimmedIs(c, n);
      assert !Deletable(w.yaml, n);
    }
    assert Attempt(text, w, n, budget).1 in {Some(Finished), None};
  }

  lemma NeverWithoutRouter(text: Units.Template, n: string, c: Cluster, base: World, w: World, budget: nat)
    requires Fit(c, n) && Safe(text, n, c, base, w) && w.yaml == c && RunningRouters(base, c) == []
    ensures Attempt(text, w, n, budget).1 !in {Some(Finished), None}
  {
    hide Phases;
    hide Unlisted;
    hide RunningRouters;
    OneAttempt(text, n, c, base, w, budget);
    var (after, outcome) := Attempt(text, w, n, budget);
    assert Deletable(w.yaml, n);
    hide Attempt;
    if outcome == Some(Finished) {
      GoneNeedsRouter(text, n, c, base, |RemotesOf(c)|, after);
      assert false;
    }
  }

  lemma GoneNeedsRouter(text: Units.Template, n: string, c: Cluster, base: World, m: nat, w: World)
    requires Fit(c, n) && Unlisted(text, n, c, base, m, w)
    ensures RunningRouters(base, c) != []
  {
    GoneMeans(text, n, c, w);
    TrimmedIs(c, n);
    hide Phases;
    hide Trimmed;
    hide Units.Done;
    hide RoutersOf;
    var t := Trimmed(c, n);
    assert w.running.Keys == base.running.Keys;
    FilterSame(RoutersOf(c), (r: Router) => r.name in w.running, (r: Router) => r.name in base.running);
  }

  // ---- the copies a cut leaves behind

  lemma {:induction false} RefusedAttempts(text: Units.Template, n: string, w: World, budgets: seq<nat>)
    requires !Deletable(w.yaml, n)
    ensures Attempts(text, w, n, budgets).copies == w.copies && Attempts(text, w, n, budgets).yaml == w.yaml
  {
    if budgets != [] {
      hide Phases;
      hide Run;
      RefusedAttempts(text, n, w, budgets[..|budgets| - 1]);
    }
  }

  /** A run cut after m copies of the new cluster.yaml leaves the remaining hosts' copies listing the
      node, and no rerun mends them: the operator's file does not list it any more. */
  lemma CopiesLeftBehind(text: Units.Template, n: string, c: Cluster, w: World, m: nat, budgets: seq<nat>)
    requires Fit(c, n) && w.yaml == c && w.loaded == c && DoneUpTo(Phases(text, n), ENTRY, w) && m < |RemotesOf(c)|
    ensures var cut := Attempt(text, w, n, 1 + m).0;
            Attempts(text, cut, n, budgets).copies == Copied(w.copies, RemotesOf(c)[..m], Trimmed(c, n))
  {
    CutInEntry(text, n, c, w, m);
    EntryPrefix(w, n, 1 + m);
    TrimmedIs(c, n);
    hide Attempt;
    hide EntryPlan;
    hide Trimmed;
    hide RemotesOf;
    hide Exec;
    hide Phases;
    RefusedAttempts(text, n, Attempt(text, w, n, 1 + m).0, budgets);
  }

  lemma CutInEntry(text: Units.Template, n: string, c: Cluster, w: World, m: nat)
    requires Fit(c, n) && w.yaml == c && w.loaded == c && DoneUpTo(Phases(text, n), ENTRY, w) && m < |RemotesOf(c)|
    ensures |EntryPlan(w, n)| == 1 + |RemotesOf(c)|
    ensures Attempt(text, w, n, 1 + m).0 == Do(w, EntryPlan(w, n)[..1 + m])
  {
    hide Fit;
    hide Units.Plan;
    hide MachineOf;
    hide RunningRouters;
    EntryPhase(text, n, c, w);
    SkipDone(Step, Phases(text, n), 0, ENTRY, w, 1 + m);
    assert w.(loaded := w.yaml) == w;
    hide Phases;
    hide Exec;
    hide Trimmed;
    hide RemotesOf;
    hide EntryPlan;
  }
}
