/** delete cluster with --phase: which single phases can be run between full deletes without harm, and
    exactly when the one that takes the record away can. */
module DeletePhases {
  import opened Basics
  import opened Text
  import opened ClusterModel
  import opened Hosts
  import opened Runner
  import opened DeleteCluster
  import opened DeleteShrinks
  import opened DeleteResumes

  /** One delete, with or without --phase; None when there is nothing to delete or no such phase. */
  function Delete(w: World, only: Option<string>, budget: nat): (World, Option<Outcome>) {
    var start := w.(loaded := OperatorYaml(w));
    if !Found(start) then (start, None)
    else
      match Selected(AllLeaves([PHASE()]), only)
      case None => (start, None)
      case Some(picked) =>
        var (after, outcome) := Run(Step, ToRun(picked, {}), start, budget);
        (after, Some(outcome))
  }

  function Full(n: string): string { "delete/" + n }

  lemma Named(i: nat)
    requires i < 9
    ensures '/' !in Phases()[i].name && Phases()[i].name != "delete"
    ensures forall j :: 0 <= j < i ==> Phases()[j].name != Phases()[i].name
  {
  }

  lemma NoneSkipped(leaves: seq<(string, Phase<World, Cmd>)>)
    ensures ToRun(leaves, {}) == Map(leaves, (l: (string, Phase<World, Cmd>)) => l.1)
  {
    hide Split;
    FilterAll(leaves, (l: (string, Phase<World, Cmd>)) => !Skips({}, l.0));
  }

  lemma WithoutPhase(w: World, budget: nat)
    ensures Delete(w, None, budget) == Attempt(w, budget)
  {
    hide Found;
    hide Phases;
    OneTree(PHASE());
    hide AllLeaves;
    FullRunOrder();
    NoneSkipped(Leaves(PHASE(), ""));
  }

  /** --phase picks a phase of the delete by its name or path; "delete" picks them all. */
  lemma PicksMeans(only: string, n: string)
    requires '/' !in n && n != "delete"
    ensures Picks(only, Full(n)) <==> only == "delete" || only == Full(n) || only == n
  {
    LastPartOf(n);
    hide LastPart;
    OneSlash(n);
    assert Full(n)[..6] == "delete" && Full(n)[..7] == "delete/";
    if StartsWith(Full(n), only + "/") {
      assert Full(n)[|only|] == (only + "/")[|only|];
      assert |only| == 6;
      assert only == (only + "/")[..6] == Full(n)[..6];
    }
    if only == "delete" {
      assert StartsWith(Full(n), only + "/");
    }
  }

  lemma LastPartOf(n: string)
    requires '/' !in n
    ensures LastPart(Full(n)) == n
  {
    assert "delete" + ['/'] + n == Full(n);
    SplitTail("delete", n, '/');
  }

  lemma OneSlash(n: string)
    requires '/' !in n
    ensures forall k :: 0 <= k < |Full(n)| && Full(n)[k] == '/' ==> k == 6
  {
    forall k | 7 <= k < |Full(n)|
      ensures Full(n)[k] in n
    {
      assert Full(n)[k] == n[k - 7];
    }
  }

  lemma PhasePicked(only: string)
    ensures var leaves := Leaves(PHASE(), "");
            && |leaves| == 9
            && (only == "delete" ==> Selected(leaves, Some(only)) == Some(leaves))
            && (only != "delete" ==>
                  match Selected(leaves, Some(only))
                  case None => forall j :: 0 <= j < 9 ==> only != Phases()[j].name && only != Full(Phases()[j].name)
                  case Some(picked) =>
                    exists i :: 0 <= i < 9 && (only == Phases()[i].name || only == Full(Phases()[i].name)) && picked == [leaves[i]])
  {
    var leaves := Leaves(PHASE(), "");
    LeavesOfGroup("delete", Phases());
    hide Phases;
    hide Leaves;
    hide Picks;
    var p := (l: (string, Phase<World, Cmd>)) => Picks(only, l.0);
    forall j | 0 <= j < 9
      ensures leaves[j].0 == Full(Phases()[j].name)
      ensures p(leaves[j]) <==> only == "delete" || only == Full(Phases()[j].name) || only == Phases()[j].name
    {
      Named(j);
      PicksMeans(only, Phases()[j].name);
    }
    if only == "delete" {
      FilterAll(leaves, p);
    } else if i :| 0 <= i < 9 && (only == Phases()[i].name || only == Full(Phases()[i].name)) {
      forall j | 0 <= j < 9
        ensures p(leaves[j]) <==> j == i
      {
        Named(i);
        Named(j);
        if p(leaves[j]) {
          SameName(only, Phases()[i].name, Phases()[j].name);
        }
      }
      FilterOnly(leaves, p, i);
    } else {
      FilterNone(leaves, p);
    }
  }

  lemma SameName(only: string, m: string, n: string)
    requires '/' !in m && '/' !in n
    requires (only == m || only == Full(m)) && (only == n || only == Full(n))
    ensures m == n
  {
    assert Full(m)[6] == '/' && Full(n)[6] == '/';
    assert Full(m)[7..] == m && Full(n)[7..] == n;
  }

  // ---- one phase on its own

  lemma Alone(i: nat, w: World, budget: nat)
    requires i < 9
    ensures exists k: nat :: k <= |Phases()[i].plan(w)| && Run(Step, [Phases()[i]], w, budget).0 == Do(w, Phases()[i].plan(w)[..k])
    ensures Run(Step, [Phases()[i]], w, budget).1.Finished? ==> IsDone(Phases()[i], Run(Step, [Phases()[i]], w, budget).0)
  {
    hide Exec;
    PhaseAchieves(i, w);
    hide Phases;
    var p := Phases()[i];
    var cmds := p.plan(w);
    var (after, left, outcome) := RunPhase(Step, p, w, budget);
    assert RunFrom(Step, [p], 1, after, left) == (after, Finished);
    assert Run(Step, [p], w, budget).0 == after;
    ExecNothing(Step, w);
    assert cmds[..0] == [] && cmds[..|cmds|] == cmds;
  }

  /** Any phase but the state one, run alone and cut anywhere, leaves the cluster resumable. */
  lemma AloneKeeps(c: Cluster, i: nat, w: World, k: nat)
    requires Manageable(c) && Resumable(w, c) && i < 9 && i != STATE && w.loaded == OperatorYaml(w)
    requires k <= |Phases()[i].plan(w)|
    ensures Resumable(Do(w, Phases()[i].plan(w)[..k]), c)
  {
    if i == MESH {
      if OperatorYaml(w).Some? {
        MeshKeeps(c, w, k);
      } else {
        assert MeshPlan(w)[..k] == [];
      }
    } else {
      hide Phases;
      var prefix := Phases()[i].plan(w)[..k];
      PlanClass(i, w);
      assert forall x :: x in prefix ==> x in Phases()[i].plan(w);
      StateUntouched(w, prefix, i);
      PrefixShrinks(i, w, k);
      if OperatorYaml(w).None? {
        CleanedLasts(Do(w, prefix), w, c);
      }
    }
  }

  // ---- the state phase on its own

  /** The phases before it are done, as a delete that reads c would ask. */
  ghost predicate EarlierDone(w: World, c: Cluster) { DoneUpTo(Phases(), STATE, w.(loaded := Some(Yaml(c, [])))) }

  /** The same machines, state directories aside. */
  ghost predicate SameButState(u: World, v: World) {
    forall h :: At(u, h).(state := None) == At(v, h).(state := None)
  }

  lemma StateStep(w: World, c: Cmd)
    requires Class(STATE, c)
    ensures SameButState(Step(w, c), w)
  {
    forall h
      ensures At(Step(w, c), h).(state := None) == At(w, h).(state := None)
    {
      StepAt(w, c, h);
      hide Step;
      hide At;
    }
  }

  lemma {:induction false} StateOnly(w: World, cmds: seq<Cmd>)
    requires forall c :: c in cmds ==> Class(STATE, c)
    ensures SameButState(Do(w, cmds), w)
  {
    if cmds != [] {
      hide Step;
      var n := |cmds| - 1;
      Snoc(cmds);
      StateOnly(w, cmds[..n]);
      StateStep(Do(w, cmds[..n]), cmds[n]);
    }
  }

  lemma DoneIgnoresState(i: nat, u: World, v: World)
    requires i < STATE && SameButState(u, v) && u.loaded == v.loaded && u.loaded.Some?
    ensures IsDone(Phases()[i], u) ==> IsDone(Phases()[i], v)
  {
    hide Targets;
    hide Subnets;
    hide HostFor;
    hide NodeVolumes;
    hide RoutersOf;
    assert forall h ::
      && At(u, h).target == At(v, h).target && At(u, h).netService == At(v, h).netService
      && At(u, h).units == At(v, h).units && At(u, h).targetFile == At(v, h).targetFile
      && At(u, h).routesFile == At(v, h).routesFile && At(u, h).containers == At(v, h).containers
      && At(u, h).volumes == At(v, h).volumes && At(u, h).network == At(v, h).network && At(u, h).routes == At(v, h).routes by {
      forall h
        ensures At(u, h).(state := None) == At(v, h).(state := None)
      {
      }
    }
    hide At;
  }

  lemma EarlierIgnoresState(c: Cluster, u: World, v: World)
    requires SameButState(u, v)
    ensures EarlierDone(u, c) <==> EarlierDone(v, c)
  {
    hide Phases;
    var y := Some(Yaml(c, []));
    var u', v' := u.(loaded := y), v.(loaded := y);
    forall h
      ensures At(u', h) == At(u, h) && At(v', h) == At(v, h)
    {
    }
    forall i: nat | i < STATE
      ensures IsDone(Phases()[i], u') <==> IsDone(Phases()[i], v')
    {
      DoneIgnoresState(i, u', v');
      DoneIgnoresState(i, v', u');
    }
  }

  /** delete --phase state: wherever it is cut the cluster stays resumable exactly when the record is
      still there or everything before it was done. Uncut, the record is gone. */
  lemma StateAlone(w: World, c: Cluster, peers: seq<string>, only: string, budget: nat)
    requires Manageable(c) && OperatorYaml(w) == Some(Yaml(c, peers)) && only in {"state", "delete/state"}
    ensures var (after, outcome) := Delete(w, Some(only), budget);
            && outcome.Some?
            && (outcome.value.Finished? ==> OperatorYaml(after).None?)
            && (Resumable(after, c) <==> OperatorYaml(after).Some? || EarlierDone(w, c))
  {
    StatePicked(only);
    hide Phases;
    hide Found;
    hide EarlierDone;
    hide Resumable;
    Started(w, c);
    DeleteOne(w, only, STATE, budget);
    var start := w.(loaded := OperatorYaml(w));
    var (after, outcome) := Run(Step, [Phases()[STATE]], start, budget);
    Alone(STATE, start, budget);
    hide Run;
    hide Delete;
    var k: nat :| k <= |Phases()[STATE].plan(start)| && after == Do(start, Phases()[STATE].plan(start)[..k]);
    StateCut(c, start, k);
    SameEarlier(w, start, c);
    if outcome.Finished? {
      StateGone(after);
    }
  }

  lemma Started(w: World, c: Cluster)
    requires OperatorYaml(w).Some? && OperatorYaml(w).value.cluster == c
    ensures var start := w.(loaded := OperatorYaml(w)); Found(start) && OperatorYaml(start) == start.loaded
  {
    hide Phases;
    Reload(w, c);
  }

  lemma SameEarlier(w: World, start: World, c: Cluster)
    requires start == w.(loaded := start.loaded)
    ensures EarlierDone(w, c) <==> EarlierDone(start, c)
  {
    hide Phases;
    assert start.(loaded := Some(Yaml(c, []))) == w.(loaded := Some(Yaml(c, [])));
  }

  lemma DeleteOne(w: World, only: string, i: nat, budget: nat)
    requires i < 9 && |Leaves(PHASE(), "")| == 9 && Found(w.(loaded := OperatorYaml(w)))
    requires Selected(Leaves(PHASE(), ""), Some(only)) == Some([Leaves(PHASE(), "")[i]])
    ensures var (after, outcome) := Run(Step, [Phases()[i]], w.(loaded := OperatorYaml(w)), budget);
            Delete(w, Some(only), budget) == (after, Some(outcome))
  {
    LeavesOfGroup("delete", Phases());
    OneTree(PHASE());
    hide AllLeaves;
    hide Phases;
    hide Found;
    hide Run;
    hide Leaves;
    hide Selected;
    NoneSkipped([Leaves(PHASE(), "")[i]]);
    assert ToRun([Leaves(PHASE(), "")[i]], {}) == [Phases()[i]];
  }

  lemma StateGone(w: World)
    requires IsDone(Phases()[STATE], w)
    ensures OperatorYaml(w).None?
  {
    OperatorIsTarget(w.loaded);
  }

  lemma StatePicked(only: string)
    requires only in {"state", "delete/state"}
    ensures |Leaves(PHASE(), "")| == 9 && Selected(Leaves(PHASE(), ""), Some(only)) == Some([Leaves(PHASE(), "")[STATE]])
  {
    PhasePicked(only);
    hide Leaves;
    hide Selected;
    assert Phases()[STATE].name == "state";
    forall i | 0 <= i < 9 && (only == Phases()[i].name || only == Full(Phases()[i].name))
      ensures i == STATE
    {
      Named(i);
      Named(STATE);
      SameName(only, "state", Phases()[i].name);
    }
    assert exists j :: 0 <= j < 9 && (only == Phases()[j].name || only == Full(Phases()[j].name)) by {
      assert only == Phases()[STATE].name || only == Full(Phases()[STATE].name);
    }
  }

  lemma StateCut(c: Cluster, w: World, k: nat)
    requires Manageable(c) && w.loaded.Some? && w.loaded.value.cluster == c && OperatorYaml(w) == w.loaded
    requires k <= |Phases()[STATE].plan(w)|
    ensures var v := Do(w, Phases()[STATE].plan(w)[..k]);
            Resumable(v, c) <==> OperatorYaml(v).Some? || EarlierDone(w, c)
  {
    hide Phases;
    var prefix := Phases()[STATE].plan(w)[..k];
    var v := Do(w, prefix);
    PlanClass(STATE, w);
    assert forall x :: x in prefix ==> x in Phases()[STATE].plan(w);
    StateOnly(w, prefix);
    EarlierIgnoresState(c, v, w);
    PrefixShrinks(STATE, w, k);
    YamlOnlyGoes(v, w);
    StatePrefix(c, w, k);
  }

  // ---- any mix of calls

  datatype Call = Call(only: Option<string>, budget: nat)

  function Calls(w: World, calls: seq<Call>): World {
    if calls == [] then w
    else
      var n := |calls| - 1;
      Delete(Calls(w, calls[..n]), calls[n].only, calls[n].budget).0
  }

  ghost predicate SparesState(calls: seq<Call>) {
    forall k :: k in calls ==> k.only != Some("state") && k.only != Some("delete/state")
  }

  lemma OneCall(w: World, c: Cluster, only: Option<string>, budget: nat)
    requires Manageable(c) && Resumable(w, c) && only != Some("state") && only != Some("delete/state")
    ensures Resumable(Delete(w, only, budget).0, c)
  {
    var start := w.(loaded := OperatorYaml(w));
    hide Found;
    hide Run;
    hide Resumable;
    hide Selected;
    hide Leaves;
    hide Phases;
    StartResumable(w, c);
    OneTree(PHASE());
    hide AllLeaves;
    if only.None? {
      WithoutPhase(w, budget);
      hide Delete;
      hide Attempt;
      OneAttempt(w, c, budget);
    } else if !Found(start) {
    } else if only.value == "delete" {
      PhasePicked(only.value);
      AllPicked(w, budget);
      hide Delete;
      hide Attempt;
      OneAttempt(w, c, budget);
    } else {
      PhasePicked(only.value);
      if Selected(Leaves(PHASE(), ""), only).Some? {
        var i :| 0 <= i < 9 && (only.value == Phases()[i].name || only.value == Full(Phases()[i].name)) &&
                 Selected(Leaves(PHASE(), ""), only).value == [Leaves(PHASE(), "")[i]];
        NotState(only.value, i);
        DeleteOne(w, only.value, i, budget);
        hide Delete;
        Alone(i, start, budget);
        var k: nat :| k <= |Phases()[i].plan(start)| &&
                      Run(Step, [Phases()[i]], start, budget).0 == Do(start, Phases()[i].plan(start)[..k]);
        AloneKeeps(c, i, start, k);
      }
    }
  }

  lemma NotState(only: string, i: nat)
    requires i < 9 && only != "state" && only != "delete/state"
    requires only == Phases()[i].name || only == Full(Phases()[i].name)
    ensures i != STATE
  {
  }

  lemma AllPicked(w: World, budget: nat)
    requires Selected(Leaves(PHASE(), ""), Some("delete")) == Some(Leaves(PHASE(), ""))
    ensures Delete(w, Some("delete"), budget).0 == Attempt(w, budget).0
  {
    hide Found;
    hide Phases;
    hide Selected;
    OneTree(PHASE());
    hide AllLeaves;
    FullRunOrder();
    NoneSkipped(Leaves(PHASE(), ""));
  }

  lemma StartResumable(w: World, c: Cluster)
    requires Resumable(w, c)
    ensures var start := w.(loaded := OperatorYaml(w)); Resumable(start, c) && start.loaded == OperatorYaml(start)
  {
    hide Phases;
    var start := w.(loaded := OperatorYaml(w));
    assert start.(loaded := Some(Yaml(c, []))) == w.(loaded := Some(Yaml(c, [])));
  }

  lemma {:induction false} CallsResumable(w: World, c: Cluster, calls: seq<Call>)
    requires Manageable(c) && Resumable(w, c) && SparesState(calls)
    ensures Resumable(Calls(w, calls), c)
  {
    if calls != [] {
      hide Delete;
      hide Resumable;
      var n := |calls| - 1;
      Snoc(calls);
      CallsResumable(w, c, calls[..n]);
      assert calls[n] in calls;
      OneCall(Calls(w, calls[..n]), c, calls[n].only, calls[n].budget);
    }
  }

  /** Full deletes and single phases in any order, each cut anywhere: as long as none of them is the
      state phase alone, the record outlives everything else, and a full delete still finishes the job. */
  lemma MixedDeletesResume(w: World, c: Cluster, peers: seq<string>, calls: seq<Call>, last: nat)
    requires Manageable(c) && OperatorYaml(w) == Some(Yaml(c, peers)) && SparesState(calls)
    ensures var cut := Calls(w, calls);
            && (OperatorYaml(cut).Some? ==> OperatorYaml(cut).value.cluster == c)
            && (OperatorYaml(cut).None? ==> Cleaned(cut, c))
            && var (after, outcome) := Delete(cut, None, last);
               && (outcome.Some? ==> !outcome.value.NotDone?)
               && (outcome == Some(Finished) || outcome == None ==> Gone(after, c))
  {
    hide Delete;
    hide Attempt;
    hide Cleaned;
    CallsResumable(w, c, calls);
    WithoutPhase(Calls(w, calls), last);
    OneAttempt(Calls(w, calls), c, last);
  }
}
