/** What becomes of the shim, the macvlan device through which a host of a cluster on several machines
    reaches the floating addresses (delete.py, routes_run): it goes after the host's last route, and
    nothing but the routes says whether that is still to be done. */
module DeleteShims {
  import opened Basics
  import opened Addresses
  import opened ClusterModel
  import opened Hosts
  import opened Runner
  import opened DeleteCluster
  import opened DeleteShrinks
  import opened DeleteResumes
  import DeleteSafety

  /** No route of the cluster is left on the machine. */
  predicate RoutesOff(c: Cluster, w: World, h: HostId) {
    forall s :: s in Subnets(Some(Yaml(c, []))) ==> s !in At(w, h).routes
  }

  lemma OffIsDone(c: Cluster, w: World, h: HostId)
    requires w.loaded.Some? && w.loaded.value.cluster == c
    ensures RoutesDone(w, h) <==> RoutesOff(c, w, h)
  {
    hide CidrsOf;
    assert Subnets(w.loaded) == Subnets(Some(Yaml(c, [])));
    hide Subnets;
  }

  /** From w to v, with `next` the command that would have come after v: once the routes are off the
      shim stays as it is; until then it stays, too; and what takes off the last route deletes the shim
      next. */
  predicate Story(c: Cluster, h: HostId, w: World, v: World, next: Option<Cmd>) {
    if RoutesOff(c, w, h) then RoutesOff(c, v, h) && At(v, h).shim == At(w, h).shim && next != Some(DelShim(h))
    else if !RoutesOff(c, v, h) then At(v, h).shim == At(w, h).shim && next != Some(DelShim(h))
    else if next == Some(DelShim(h)) then At(v, h).shim == At(w, h).shim
    else !At(v, h).shim
  }

  lemma StoryContinues(c: Cluster, h: HostId, w: World, v: World, u: World, next: Option<Cmd>)
    requires Story(c, h, w, v, None) && Story(c, h, v, u, next)
    ensures Story(c, h, w, u, next)
  {
    hide RoutesOff;
  }

  /** Neither the machine's routes nor its shim are touched. */
  predicate Aside(h: HostId, c: Cmd) { !(c.DelRoute? && c.h == h) && !(c.DelShim? && c.h == h) }

  lemma {:induction false} AsideKeeps(w: World, cmds: seq<Cmd>, h: HostId)
    requires forall x :: x in cmds ==> Aside(h, x)
    ensures At(Do(w, cmds), h).routes == At(w, h).routes && At(Do(w, cmds), h).shim == At(w, h).shim
  {
    if cmds != [] {
      hide Step;
      hide At;
      var n := |cmds| - 1;
      Snoc(cmds);
      AsideKeeps(w, cmds[..n], h);
      StepAt(Do(w, cmds[..n]), cmds[n], h);
      assert Aside(h, cmds[n]);
      AsideEffect(At(Do(w, cmds[..n]), h), cmds[n], h);
    }
  }

  lemma AsideEffect(s: HostState, c: Cmd, h: HostId)
    requires Aside(h, c)
    ensures Target(c) == Some(h) ==> Effect(s, c).routes == s.routes && Effect(s, c).shim == s.shim
  {
  }

  /** Commands that are aside tell no story. */
  lemma AsideStory(c: Cluster, h: HostId, w: World, cmds: seq<Cmd>, k: nat)
    requires k <= |cmds| && forall x :: x in cmds ==> Aside(h, x)
    ensures Story(c, h, w, Do(w, cmds[..k]), if k < |cmds| then Some(cmds[k]) else None)
  {
    assert forall x :: x in cmds[..k] ==> x in cmds;
    AsideKeeps(w, cmds[..k], h);
    assert k < |cmds| ==> Aside(h, cmds[k]);
    hide Exec;
    hide At;
    hide Subnets;
    assert RoutesOff(c, Do(w, cmds[..k]), h) <==> RoutesOff(c, w, h);
  }

  // ---- one host

  /** Every route command is about a route that is there when it is its turn. */
  lemma {:induction false} RouteThere(w: World, h: HostId, subnets: seq<Prefix>, k: nat)
    requires k < |RouteCmds(w, h, subnets)|
    ensures var cmds := RouteCmds(w, h, subnets);
            && cmds[k].DelRoute? && cmds[k].h == h && cmds[k].route in subnets
            && cmds[k].route in At(Do(w, cmds[..k]), h).routes
    decreases |subnets|
  {
    hide Exec;
    hide Step;
    hide At;
    var now := if subnets[0] in At(w, h).routes then [DelRoute(h, subnets[0])] else [];
    var rest := RouteCmds(Do(w, now), h, subnets[1..]);
    var cmds := RouteCmds(w, h, subnets);
    assert cmds == now + rest;
    ExecNothing(Step, w);
    if k < |now| {
      assert k == 0 && cmds[..0] == [];
    } else {
      RouteThere(Do(w, now), h, subnets[1..], k - |now|);
      assert cmds[..k] == now + rest[..k - |now|];
      ExecAppend(Step, w, now, rest[..k - |now|]);
    }
  }

  lemma RouteThereStill(c: Cluster, w: World, h: HostId, k: nat)
    requires w.loaded.Some? && w.loaded.value.cluster == c
    requires k < |RouteCmds(w, h, Subnets(w.loaded))|
    ensures !RoutesOff(c, Do(w, RouteCmds(w, h, Subnets(w.loaded))[..k]), h)
  {
    hide RouteCmds;
    hide CidrsOf;
    hide At;
    hide Exec;
    assert Subnets(w.loaded) == Subnets(Some(Yaml(c, [])));
    hide Subnets;
    RouteThere(w, h, Subnets(w.loaded), k);
  }

  lemma RoutesGone(c: Cluster, w: World, h: HostId)
    requires w.loaded.Some? && w.loaded.value.cluster == c
    ensures RoutesOff(c, Do(w, RouteCmds(w, h, Subnets(w.loaded))), h)
  {
    hide RouteCmds;
    hide CidrsOf;
    hide At;
    hide Exec;
    assert Subnets(w.loaded) == Subnets(Some(Yaml(c, [])));
    hide Subnets;
    RouteCmdsDelete(w, h, Subnets(w.loaded));
  }

  lemma {:induction false} RoutesOnlyKeepShim(w: World, cmds: seq<Cmd>, h: HostId)
    requires forall x :: x in cmds ==> x.DelRoute?
    ensures At(Do(w, cmds), h).shim == At(w, h).shim
  {
    if cmds != [] {
      hide Step;
      hide At;
      var n := |cmds| - 1;
      Snoc(cmds);
      RoutesOnlyKeepShim(w, cmds[..n], h);
      StepAt(Do(w, cmds[..n]), cmds[n], h);
    }
  }

  lemma RoutesCmdsOf(w: World, g: HostId)
    requires w.loaded.Some? && w.loaded.value.cluster.MultiHost()
    ensures RoutesCmds(w, g) == RouteCmds(w, g, Subnets(w.loaded)) + [DelShim(g)]
  {
  }

  /** The host's own commands: its routes one by one, then the shim. */
  lemma HostStory(c: Cluster, w: World, h: HostId, k: nat)
    requires w.loaded.Some? && w.loaded.value.cluster == c && c.MultiHost() && !RoutesOff(c, w, h)
    requires k <= |RoutesCmds(w, h)|
    ensures Story(c, h, w, Do(w, RoutesCmds(w, h)[..k]), if k < |RoutesCmds(w, h)| then Some(RoutesCmds(w, h)[k]) else None)
  {
    RoutesCmdsOf(w, h);
    hide RoutesCmds;
    hide RoutesOff;
    hide RouteCmds;
    hide Subnets;
    hide Exec;
    hide At;
    var routes := RouteCmds(w, h, Subnets(w.loaded));
    var cmds := routes + [DelShim(h)];
    RouteCmdsTake(w, h, Subnets(w.loaded));
    if k <= |routes| {
      assert cmds[..k] == routes[..k];
      assert forall x :: x in routes[..k] ==> x in routes;
      RoutesOnlyKeepShim(w, routes[..k], h);
      if k < |routes| {
        RouteThereStill(c, w, h, k);
        assert routes[k] in routes;
      } else {
        assert routes[..k] == routes;
        RoutesGone(c, w, h);
      }
    } else {
      assert cmds[..k] == cmds;
      ShimGoes(c, w, h);
    }
  }

  lemma ShimGoes(c: Cluster, w: World, h: HostId)
    requires w.loaded.Some? && w.loaded.value.cluster == c
    ensures var v := Do(w, RouteCmds(w, h, Subnets(w.loaded)) + [DelShim(h)]);
            RoutesOff(c, v, h) && !At(v, h).shim
  {
    hide RouteCmds;
    hide At;
    var routes := RouteCmds(w, h, Subnets(w.loaded));
    RoutesGone(c, w, h);
    ExecSnoc(Step, w, routes, DelShim(h));
    StepAt(Do(w, routes), DelShim(h), h);
    hide Subnets;
    hide Exec;
    hide Step;
  }

  lemma OtherHostAside(w: World, g: HostId, h: HostId)
    requires g != h
    ensures forall x :: x in RoutesCmds(w, g) ==> Aside(h, x)
  {
    RouteCmdsTake(w, g, Subnets(w.loaded));
    hide RouteCmds;
    hide Subnets;
  }

  // ---- the routes phase

  lemma RoutesKeepLoaded(w: World, g: HostId)
    ensures Do(w, RoutesCmds(w, g)).loaded == w.loaded
  {
    RoutesCmdsClass(w, g);
    hide RoutesCmds;
    assert forall x :: Class(ROUTES, x) ==> Takes(x);
    DoShrinks(w, RoutesCmds(w, g));
    LoadedSame(Do(w, RoutesCmds(w, g)), w);
  }

  lemma EachHostNext(w: World, hosts: seq<HostId>, many: bool)
    requires hosts != []
    ensures var now := if many && RoutesDone(w, hosts[0]) then [] else RoutesCmds(w, hosts[0]);
            EachHost(w, hosts, many, RoutesDone, RoutesCmds) == now + EachHost(Do(w, now), hosts[1..], many, RoutesDone, RoutesCmds)
  {
    hide RoutesCmds;
    hide RoutesDone;
  }

  /** One host's turn, cut after k commands or not, as seen by machine h. */
  lemma TurnStory(c: Cluster, w: World, g: HostId, many: bool, h: HostId, k: nat)
    requires w.loaded.Some? && w.loaded.value.cluster == c && c.MultiHost()
    requires many || !RoutesOff(c, w, g)
    requires var now := if many && RoutesDone(w, g) then [] else RoutesCmds(w, g); k <= |now|
    ensures var now := if many && RoutesDone(w, g) then [] else RoutesCmds(w, g);
            Story(c, h, w, Do(w, now[..k]), if k < |now| then Some(now[k]) else None)
  {
    OffIsDone(c, w, g);
    hide RoutesDone;
    hide RoutesOff;
    hide Story;
    hide RoutesCmds;
    var now := if many && RoutesDone(w, g) then [] else RoutesCmds(w, g);
    if now == [] {
      AsideStory(c, h, w, now, k);
    } else if g == h {
      HostStory(c, w, h, k);
    } else {
      OtherHostAside(w, g, h);
      AsideStory(c, h, w, now, k);
    }
  }

  lemma {:induction false} EachHostStory(c: Cluster, w: World, hosts: seq<HostId>, many: bool, h: HostId, k: nat)
    requires w.loaded.Some? && w.loaded.value.cluster == c && c.MultiHost()
    requires !many ==> |hosts| <= 1 && forall g :: g in hosts ==> !RoutesOff(c, w, g)
    requires k <= |EachHost(w, hosts, many, RoutesDone, RoutesCmds)|
    ensures var cmds := EachHost(w, hosts, many, RoutesDone, RoutesCmds);
            Story(c, h, w, Do(w, cmds[..k]), if k < |cmds| then Some(cmds[k]) else None)
    decreases |hosts|
  {
    hide RoutesOff;
    hide RoutesDone;
    hide RoutesCmds;
    hide Story;
    var cmds := EachHost(w, hosts, many, RoutesDone, RoutesCmds);
    if hosts == [] {
      AsideStory(c, h, w, cmds, k);
    } else {
      EachHostNext(w, hosts, many);
      hide EachHost;
      hide Exec;
      var g := hosts[0];
      var now := if many && RoutesDone(w, g) then [] else RoutesCmds(w, g);
      var next := Do(w, now);
      var rest := EachHost(next, hosts[1..], many, RoutesDone, RoutesCmds);
      if k < |now| {
        TurnStory(c, w, g, many, h, k);
        assert cmds[..k] == now[..k];
      } else {
        TurnStory(c, w, g, many, h, |now|);
        assert now[..|now|] == now;
        RoutesKeepLoaded(w, g);
        ExecNothing(Step, w);
        EachHostStory(c, next, hosts[1..], many, h, k - |now|);
        assert cmds[..k] == now + rest[..k - |now|];
        ExecAppend(Step, w, now, rest[..k - |now|]);
        StoryContinues(c, h, w, next, Do(w, cmds[..k]), if k < |cmds| then Some(cmds[k]) else None);
      }
    }
  }

  /** The routes phase, cut after any number of its commands. */
  lemma RoutesPhaseStory(c: Cluster, w: World, h: HostId, k: nat)
    requires w.loaded.Some? && w.loaded.value.cluster == c && c.MultiHost()
    requires !IsDone(Phases()[ROUTES], w) && k <= |Phases()[ROUTES].plan(w)|
    ensures var cmds := Phases()[ROUTES].plan(w);
            Story(c, h, w, Do(w, cmds[..k]), if k < |cmds| then Some(cmds[k]) else None)
  {
    hide EachHost;
    hide Story;
    hide RoutesCmds;
    hide Targets;
    var hosts := Targets(w.loaded);
    if |hosts| <= 1 {
      forall g | g in hosts
        ensures !RoutesOff(c, w, g)
      {
        OffIsDone(c, w, g);
        assert forall x :: x in hosts ==> x == g;
      }
    }
    hide RoutesDone;
    hide RoutesOff;
    EachHostStory(c, w, hosts, |hosts| > 1, h, k);
  }

  // ---- one attempt

  lemma OtherPhaseAside(i: nat, w: World, h: HostId)
    requires i < 9 && (i == ROUTES ==> w.loaded.None?)
    ensures forall x :: x in Phases()[i].plan(w) ==> Aside(h, x)
  {
    hide MeshCmds;
    hide EachHost;
    hide ContainerCmds;
    hide NodeVolumeCmds;
    hide Targets;
    if i == MESH {
      if w.loaded.Some? {
        DeleteSafety.MeshPlanClass(w.loaded.value, w.loaded.value.peers);
      }
    } else if i == ROUTES {
      DeleteSafety.NoRoutes(w, Targets(w.loaded), |Targets(w.loaded)| > 1);
    } else {
      PlanClass(i, w);
    }
  }

  /** A phase, cut after any number of its commands, as seen by machine h. */
  ghost predicate PhaseTells(c: Cluster, h: HostId, i: nat, w: World)
    requires i < |Phases()|
  {
    !IsDone(Phases()[i], w) ==>
      var cmds := Phases()[i].plan(w);
      forall k: nat :: k <= |cmds| ==> Story(c, h, w, Do(w, cmds[..k]), if k < |cmds| then Some(cmds[k]) else None)
  }

  lemma AnyPhaseTells(c: Cluster, h: HostId, i: nat, w: World)
    requires i < |Phases()| && c.MultiHost() && (w.loaded.Some? ==> w.loaded.value.cluster == c)
    ensures PhaseTells(c, h, i, w)
  {
    if i != ROUTES || w.loaded.None? {
      OtherPhaseAside(i, w, h);
    }
    hide Phases;
    hide Story;
    hide Exec;
    hide Aside;
    if !IsDone(Phases()[i], w) {
      var cmds := Phases()[i].plan(w);
      forall k: nat | k <= |cmds|
        ensures Story(c, h, w, Do(w, cmds[..k]), if k < |cmds| then Some(cmds[k]) else None)
      {
        if i == ROUTES && w.loaded.Some? {
          RoutesPhaseStory(c, w, h, k);
        } else {
          AsideStory(c, h, w, cmds, k);
        }
      }
    }
  }

  lemma {:induction false} RunStory(c: Cluster, h: HostId, inv: World -> bool, i: nat, w: World, budget: nat)
    requires i <= |Phases()| && Disciplined(Step, Phases(), inv) && Ready(Phases(), inv, i, w)
    requires forall j: nat, x: World :: j < |Phases()| && inv(x) ==> PhaseTells(c, h, j, x)
    ensures Story(c, h, w, RunFrom(Step, Phases(), i, w, budget).0, CutBefore(Step, Phases(), i, w, budget))
    decreases |Phases()| - i
  {
    hide Phases;
    hide Story;
    hide Exec;
    if i == |Phases()| {
      NothingTold(c, h, w);
    } else {
      var p := Phases()[i];
      assert PhaseTells(c, h, i, w);
      assert Keeps(Step, Phases(), inv, i) && Establishes(Step, Phases(), inv, i);
      hide Disciplined;
      hide PhaseTells;
      if IsDone(p, w) {
        RunStory(c, h, inv, i + 1, w, budget);
      } else {
        var cmds := p.plan(w);
        TellsAt(c, h, i, w, if budget < |cmds| then budget else |cmds|);
        if budget >= |cmds| {
          var after := Do(w, cmds);
          assert cmds[..|cmds|] == cmds;
          assert Ready(Phases(), inv, i, after) && IsDone(p, after);
          hide Keeps;
          hide Establishes;
          RunStory(c, h, inv, i + 1, after, budget - |cmds|);
          StoryContinues(c, h, w, after, RunFrom(Step, Phases(), i, w, budget).0, CutBefore(Step, Phases(), i, w, budget));
        }
      }
    }
  }

  lemma NothingTold(c: Cluster, h: HostId, w: World)
    ensures Story(c, h, w, w, None)
  {
  }

  lemma TellsAt(c: Cluster, h: HostId, i: nat, w: World, k: nat)
    requires i < |Phases()| && PhaseTells(c, h, i, w) && !IsDone(Phases()[i], w) && k <= |Phases()[i].plan(w)|
    ensures var cmds := Phases()[i].plan(w);
            Story(c, h, w, Do(w, cmds[..k]), if k < |cmds| then Some(cmds[k]) else None)
  {
    hide Phases;
    hide Story;
    hide Exec;
  }

  /** The command a delete that is cut would have run next; None when it is not cut. */
  function NextCommand(w: World, budget: nat): Option<Cmd> {
    var start := w.(loaded := OperatorYaml(w));
    if !Found(start) then None else CutBefore(Step, Phases(), 0, start, budget)
  }

  /** With one command more it would have run exactly that one. */
  lemma NextCommandIs(w: World, budget: nat)
    ensures NextCommand(w, budget).Some? <==> Attempt(w, budget).1 == Some(Cut)
    ensures NextCommand(w, budget).Some? ==> Attempt(w, budget + 1).0 == Step(Attempt(w, budget).0, NextCommand(w, budget).value)
  {
    hide Found;
    hide Phases;
    hide RunFrom;
    hide CutBefore;
    hide Step;
    CutBeforeIsNext(Step, Phases(), 0, w.(loaded := OperatorYaml(w)), budget);
  }

  lemma AttemptStory(c: Cluster, h: HostId, w: World, budget: nat)
    requires Manageable(c) && c.MultiHost() && Resumable(w, c)
    ensures Story(c, h, w, Attempt(w, budget).0, NextCommand(w, budget))
  {
    hide Phases;
    hide Found;
    hide Cleaned;
    hide PhaseTells;
    hide Story;
    hide CutBefore;
    hide RunFrom;
    var start := w.(loaded := OperatorYaml(w));
    Reload(w, c);
    StartTells(c, h, w, start);
    if Found(start) {
      forall j: nat, x: World | j < |Phases()| && (x.loaded.Some? ==> x.loaded.value.cluster == c)
        ensures PhaseTells(c, h, j, x)
      {
        AnyPhaseTells(c, h, j, x);
      }
      if OperatorYaml(w).Some? {
        GoingDisciplined(c);
        RunStory(c, h, (x: World) => Going(c, x), 0, start, budget);
      } else {
        FinishingDisciplined(c, w.kube);
        RunStory(c, h, (x: World) => Finishing(c, w.kube, x), 0, start, budget);
      }
      StoryFrom(c, h, w, start, Attempt(w, budget).0, NextCommand(w, budget));
    }
  }

  lemma StartTells(c: Cluster, h: HostId, w: World, start: World)
    requires start == w.(loaded := OperatorYaml(w))
    ensures Story(c, h, w, start, None)
  {
    assert At(start, h) == At(w, h);
  }

  lemma StoryFrom(c: Cluster, h: HostId, w: World, start: World, v: World, next: Option<Cmd>)
    requires Story(c, h, w, start, None) && Story(c, h, start, v, next)
    ensures Story(c, h, w, v, next)
  {
    StoryContinues(c, h, w, start, v, next);
  }

  // ---- any number of attempts

  /** Attempt i was cut between the host's last route and its shim. */
  predicate CutAtShim(w: World, budgets: seq<nat>, h: HostId, i: nat)
    requires i < |budgets|
  {
    NextCommand(Attempts(w, budgets[..i]), budgets[i]) == Some(DelShim(h))
  }

  /** A host of a cluster on several machines that had the shim still has it exactly when its routes
      were off before the first attempt, or are not off yet, or an attempt was cut right before the
      shim's turn. */
  lemma {:induction false} ShimStays(c: Cluster, h: HostId, w: World, budgets: seq<nat>)
    requires Manageable(c) && c.MultiHost() && Resumable(w, c)
    ensures var v := Attempts(w, budgets);
            && (At(v, h).shim <==>
                At(w, h).shim
                && (RoutesOff(c, w, h) || !RoutesOff(c, v, h) || exists i :: 0 <= i < |budgets| && CutAtShim(w, budgets, h, i)))
            && ((RoutesOff(c, w, h) || exists i :: 0 <= i < |budgets| && CutAtShim(w, budgets, h, i)) ==> RoutesOff(c, v, h))
  {
    hide RoutesOff;
    hide Attempt;
    hide NextCommand;
    hide Resumable;
    if budgets != [] {
      var n := |budgets| - 1;
      var u := Attempts(w, budgets[..n]);
      ShimStays(c, h, w, budgets[..n]);
      AttemptsResumable(w, c, budgets[..n]);
      AttemptStory(c, h, u, budgets[n]);
      assert forall i :: 0 <= i < n ==> budgets[..n][..i] == budgets[..i];
      assert forall i :: 0 <= i < n ==> (CutAtShim(w, budgets, h, i) <==> CutAtShim(w, budgets[..n], h, i));
      assert CutAtShim(w, budgets, h, n) <==> NextCommand(u, budgets[n]) == Some(DelShim(h));
    }
  }

  /** When a delete, however often it was cut, has finished, a host that had the shim and routes still
      has the shim exactly when one of the attempts was cut between the two. */
  lemma FinishedShim(c: Cluster, h: HostId, w: World, budgets: seq<nat>, last: nat)
    requires Manageable(c) && c.MultiHost() && Resumable(w, c) && h in Targets(Some(Yaml(c, [])))
    requires Attempt(Attempts(w, budgets), last).1 in {Some(Finished), None}
    ensures var all := budgets + [last];
            && Attempts(w, all) == Attempt(Attempts(w, budgets), last).0
            && (At(Attempts(w, all), h).shim <==>
                At(w, h).shim && (RoutesOff(c, w, h) || exists i :: 0 <= i < |all| && CutAtShim(w, all, h, i)))
  {
    hide Attempt;
    hide Resumable;
    hide Gone;
    hide RoutesOff;
    hide CutAtShim;
    var all := budgets + [last];
    assert all[..|all| - 1] == budgets;
    AttemptsResumable(w, c, budgets);
    OneAttempt(Attempts(w, budgets), c, last);
    ShimStays(c, h, w, all);
    GoneRoutesOff(c, h, Attempts(w, all));
  }

  lemma GoneRoutesOff(c: Cluster, h: HostId, w: World)
    requires Gone(w, c) && h in Targets(Some(Yaml(c, [])))
    ensures RoutesOff(c, w, h)
  {
    var v := w.(loaded := Some(Yaml(c, [])));
    assert IsDone(Phases()[ROUTES], v);
    assert RoutesDone(v, h);
    OffIsDone(c, v, h);
    assert At(v, h) == At(w, h);
  }

  /** And from every world with cluster.yaml, the shim and a route there is such a cut, after which the
      next attempt finishes and the shim stays. */
  lemma ShimCanStay(c: Cluster, h: HostId, w: World, peers: seq<string>) returns (budget: nat, last: nat)
    requires Manageable(c) && c.MultiHost() && OperatorYaml(w) == Some(Yaml(c, peers)) && h in Targets(Some(Yaml(c, [])))
    requires At(w, h).shim && !RoutesOff(c, w, h)
    ensures NextCommand(w, budget) == Some(DelShim(h))
    ensures var (after, outcome) := Attempt(Attempt(w, budget).0, last);
            outcome in {Some(Finished), None} && Gone(after, c) && At(after, h).shim
  {
    hide Attempt;
    hide Gone;
    hide RoutesOff;
    hide Cleaned;
    hide NextCommand;
    DeleteFinishes(w, c);
    var enough: nat :| Attempt(w, enough).1 in {Some(Finished), None};
    OneAttempt(w, c, enough);
    GoneRoutesOff(c, h, Attempt(w, enough).0);
    budget := RoutesOffFirst(c, h, w, peers, enough);
    var cut := Attempt(w, budget).0;
    OneAttempt(w, c, budget);
    AttemptStory(c, h, w, budget);
    DeleteFinishes(cut, c);
    last :| Attempt(cut, last).1 in {Some(Finished), None};
    OneAttempt(cut, c, last);
    AttemptStory(c, h, cut, last);
  }

  /** The smallest budget with which the routes go off stops right before the shim. */
  lemma {:induction false} RoutesOffFirst(c: Cluster, h: HostId, w: World, peers: seq<string>, enough: nat) returns (budget: nat)
    requires Manageable(c) && c.MultiHost() && OperatorYaml(w) == Some(Yaml(c, peers)) && h in Targets(Some(Yaml(c, [])))
    requires At(w, h).shim && !RoutesOff(c, w, h) && RoutesOff(c, Attempt(w, enough).0, h)
    ensures NextCommand(w, budget) == Some(DelShim(h))
  {
    hide Attempt;
    hide NextCommand;
    hide RoutesOff;
    hide Story;
    hide Step;
    hide At;
    hide Manageable;
    hide Targets;
    if enough == 0 {
      NoCommandNoChange(c, w, h);
    } else if RoutesOff(c, Attempt(w, enough - 1).0, h) {
      budget := RoutesOffFirst(c, h, w, peers, enough - 1);
    } else {
      budget := enough;
      var before, after := Attempt(w, enough - 1).0, Attempt(w, enough).0;
      AttemptStory(c, h, w, enough - 1);
      AttemptStory(c, h, w, enough);
      RoutesOnIsCut(c, h, w, enough - 1);
      NextCommandIs(w, enough - 1);
      LastRoute(c, h, w, before, after, NextCommand(w, enough - 1).value, NextCommand(w, enough));
    }
  }

  /** An attempt that leaves a route was cut. */
  lemma RoutesOnIsCut(c: Cluster, h: HostId, w: World, budget: nat)
    requires Manageable(c) && Resumable(w, c) && h in Targets(Some(Yaml(c, [])))
    requires !RoutesOff(c, Attempt(w, budget).0, h)
    ensures Attempt(w, budget).1 == Some(Cut)
  {
    hide Attempt;
    hide Manageable;
    hide Resumable;
    hide RoutesOff;
    hide Gone;
    OneAttempt(w, c, budget);
    if Attempt(w, budget).1 in {Some(Finished), None} {
      GoneRoutesOff(c, h, Attempt(w, budget).0);
    }
  }

  /** Between two cuts one command apart the routes went off: it was not the shim's turn yet, so it is
      now. */
  lemma LastRoute(c: Cluster, h: HostId, w: World, before: World, after: World, cmd: Cmd, next: Option<Cmd>)
    requires At(w, h).shim && !RoutesOff(c, w, h) && !RoutesOff(c, before, h) && RoutesOff(c, after, h)
    requires Story(c, h, w, before, Some(cmd)) && Story(c, h, w, after, next) && after == Step(before, cmd)
    ensures next == Some(DelShim(h))
  {
    StepAt(before, cmd, h);
    OwnShim(At(before, h), cmd, h);
    hide RoutesOff;
    hide Step;
    hide At;
    hide Effect;
  }

  lemma OwnShim(s: HostState, c: Cmd, h: HostId)
    requires c != DelShim(h)
    ensures Target(c) == Some(h) ==> Effect(s, c).shim == s.shim
  {
  }

  lemma NoCommandNoChange(c: Cluster, w: World, h: HostId)
    ensures RoutesOff(c, Attempt(w, 0).0, h) <==> RoutesOff(c, w, h)
  {
    hide Phases;
    hide Found;
    hide RunFrom;
    NoBudget(Step, Phases(), 0, w.(loaded := OperatorYaml(w)));
    assert At(Attempt(w, 0).0, h) == At(w, h);
    hide Subnets;
  }

  // ---- the routes phase, run to its end

  /** Run to its end, the phase takes the shim from exactly the targets that still had a route. */
  lemma RoutesPhaseShim(c: Cluster, w: World, h: HostId)
    requires w.loaded.Some? && w.loaded.value.cluster == c && c.MultiHost() && h in Targets(w.loaded)
    requires !IsDone(Phases()[ROUTES], w)
    ensures var v := Do(w, Phases()[ROUTES].plan(w));
            RoutesOff(c, v, h) && (At(v, h).shim <==> At(w, h).shim && RoutesOff(c, w, h))
  {
    hide EachHost;
    hide Targets;
    hide Exec;
    hide RoutesOff;
    var cmds := Phases()[ROUTES].plan(w);
    RoutesPhaseStory(c, w, h, |cmds|);
    assert cmds[..|cmds|] == cmds;
    PhaseAchieves(ROUTES, w);
    PlanClass(ROUTES, w);
    DoShrinks(w, cmds);
    LoadedSame(Do(w, cmds), w);
    assert RoutesDone(Do(w, cmds), h);
    OffIsDone(c, Do(w, cmds), h);
  }

  /** On one host no delete, however cut and rerun, touches a shim. */
  lemma {:induction false} SingleHostShim(c: Cluster, h: HostId, w: World, budgets: seq<nat>)
    requires Manageable(c) && !c.MultiHost() && Resumable(w, c)
    ensures At(Attempts(w, budgets), h).shim == At(w, h).shim
  {
    hide Attempt;
    hide Resumable;
    if budgets != [] {
      var n := |budgets| - 1;
      SingleHostShim(c, h, w, budgets[..n]);
      AttemptsResumable(w, c, budgets[..n]);
      SingleAttempt(c, h, Attempts(w, budgets[..n]), budgets[n]);
    }
  }

  lemma {:induction false} NoShimCommands(w: World, hosts: seq<HostId>, many: bool)
    requires w.loaded.Some? ==> !w.loaded.value.cluster.MultiHost()
    ensures forall x :: x in EachHost(w, hosts, many, RoutesDone, RoutesCmds) ==> x.DelRoute?
    decreases |hosts|
  {
    if hosts != [] {
      hide RoutesDone;
      EachHostNext(w, hosts, many);
      hide EachHost;
      hide Exec;
      RouteCmdsTake(w, hosts[0], Subnets(w.loaded));
      RoutesKeepLoaded(w, hosts[0]);
      ExecNothing(Step, w);
      var now := if many && RoutesDone(w, hosts[0]) then [] else RoutesCmds(w, hosts[0]);
      NoShimCommands(Do(w, now), hosts[1..], many);
    }
  }

  lemma {:induction false} NotDelShim(w: World, cmds: seq<Cmd>, h: HostId)
    requires forall x :: x in cmds ==> !x.DelShim?
    ensures At(Do(w, cmds), h).shim == At(w, h).shim
  {
    if cmds != [] {
      hide Step;
      hide At;
      var n := |cmds| - 1;
      Snoc(cmds);
      NotDelShim(w, cmds[..n], h);
      StepAt(Do(w, cmds[..n]), cmds[n], h);
      assert !cmds[n].DelShim?;
      OtherEffect(At(Do(w, cmds[..n]), h), cmds[n]);
      hide Effect;
    }
  }

  lemma OtherEffect(s: HostState, c: Cmd)
    requires !c.DelShim?
    ensures Effect(s, c).shim == s.shim
  {
    hide Filter;
    match c
    case SaveOperator(_) =>
    case SaveCopy(_, _) =>
    case DisableTarget(_) =>
    case StopNetwork(_) =>
    case RmContainer(_, _) =>
    case RmVolume(_, _) =>
    case RmUnitFile(_, _) =>
    case RmUnitDir(_) =>
    case RmTargetFile(_) =>
    case RmRoutesFile(_) =>
    case RmNetwork(_) =>
    case DelRoute(_, _) =>
    case RmYaml(_) =>
    case RmStateDir(_) =>
    case DropKubeEntry =>
  }

  lemma SinglePrefix(c: Cluster, h: HostId, i: nat, w: World, k: nat)
    requires i < 9 && !c.MultiHost() && (w.loaded.Some? ==> w.loaded.value.cluster == c) && k <= |Phases()[i].plan(w)|
    ensures At(Do(w, Phases()[i].plan(w)[..k]), h).shim == At(w, h).shim
  {
    var cmds := Phases()[i].plan(w);
    forall x | x in cmds
      ensures !x.DelShim?
    {
      if i == ROUTES {
        NoShimCommands(w, Targets(w.loaded), |Targets(w.loaded)| > 1);
      } else {
        NoDelShim(i, w);
      }
    }
    hide Phases;
    hide Exec;
    assert forall x :: x in cmds[..k] ==> x in cmds;
    NotDelShim(w, cmds[..k], h);
  }

  lemma NoDelShim(i: nat, w: World)
    requires i < 9 && i != ROUTES
    ensures forall x :: x in Phases()[i].plan(w) ==> !x.DelShim?
  {
    hide Phases;
    forall x | x in Phases()[i].plan(w)
      ensures !x.DelShim?
    {
      if x.DelShim? {
        OtherPhaseAside(i, w, x.h);
      }
    }
  }

  lemma SingleAttempt(c: Cluster, h: HostId, w: World, budget: nat)
    requires Manageable(c) && !c.MultiHost() && Resumable(w, c)
    ensures At(Attempt(w, budget).0, h).shim == At(w, h).shim
  {
    hide Phases;
    hide Found;
    hide Cleaned;
    hide Exec;
    var start := w.(loaded := OperatorYaml(w));
    Reload(w, c);
    assert At(start, h) == At(w, h);
    hide At;
    var up := At(w, h).shim;
    var same := (x: World) => At(x, h).shim == up;
    forall i: nat, x: World, k: nat | i < |Phases()| && (x.loaded.Some? ==> x.loaded.value.cluster == c) && same(x) && k <= |Phases()[i].plan(x)|
      ensures same(Exec(Step, x, Phases()[i].plan(x)[..k]))
    {
      SinglePrefix(c, h, i, x, k);
    }
    if OperatorYaml(w).Some? {
      var inv, both := (x: World) => Going(c, x), (x: World) => Going(c, x) && At(x, h).shim == up;
      GoingDisciplined(c);
      AlsoKeeps(Step, Phases(), inv, same, both);
      assert Ready(Phases(), both, 0, start);
      RunIsSafe(Step, Phases(), both, 0, start, budget);
    } else {
      var inv, both := (x: World) => Finishing(c, w.kube, x), (x: World) => Finishing(c, w.kube, x) && At(x, h).shim == up;
      FinishingDisciplined(c, w.kube);
      AlsoKeeps(Step, Phases(), inv, same, both);
      assert Ready(Phases(), both, 0, start);
      RunIsSafe(Step, Phases(), both, 0, start, budget);
    }
  }
}
