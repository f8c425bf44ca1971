/** A delete that is cut anywhere, any number of times, and finally finishes. */
module DeleteResumes {
  import opened Basics
  import opened ClusterModel
  import opened Hosts
  import opened Runner
  import opened DeleteCluster
  import opened DeleteShrinks

  /** ssh targets are never empty, and the routers of the cluster can be derived at all. */
  ghost predicate Manageable(c: Cluster) {
    && c.Routers().Some?
    && (c.MultiHost() ==> forall h :: h in c.spec.hosts.value ==> h.ssh != Some(""))
  }

  lemma TargetsAre(c: Cluster, peers: seq<string>)
    requires Manageable(c)
    ensures Targets(Some(Yaml(c, peers))) == RemotesOf(c) + [OPERATOR]
    ensures OPERATOR !in RemotesOf(c)
  {
    if c.MultiHost() {
      var hosts := Filter(c.spec.hosts.value, (h: Host) => h.ssh.Some?);
      forall n | n in Remotes(c.spec.hosts.value)
        ensures n != OPERATOR
      {
        var i :| 0 <= i < |hosts| && Remotes(c.spec.hosts.value)[i] == n;
        assert hosts[i] in hosts;
      }
    } else {
      assert [] + [OPERATOR] == [OPERATOR];
    }
  }

  /** Everything but the operator's state directory and the kubeconfig entry is gone: no active target
      or network service, container, volume, unit, network or route of the cluster anywhere, and no
      state directory on another host. */
  ghost predicate Cleaned(w: World, c: Cluster) {
    && DoneUpTo(Phases(), STATE, w.(loaded := Some(Yaml(c, []))))
    && forall h :: h in RemotesOf(c) ==> StateDone(w, h)
  }

  ghost predicate Gone(w: World, c: Cluster) { Cleaned(w, c) && At(w, OPERATOR).state.None? }

  lemma CleanedLasts(w: World, v: World, c: Cluster)
    requires Shrunk(w, v) && Cleaned(v, c)
    ensures Cleaned(w, c)
  {
    hide Phases;
    var y := Some(Yaml(c, []));
    ShrunkSetLoaded(w, v, y);
    forall i: nat | i < STATE && i < |Phases()|
      ensures IsDone(Phases()[i], w.(loaded := y))
    {
      assert IsDone(Phases()[i], v.(loaded := y));
      DoneLasts(i, w.(loaded := y), v.(loaded := y));
    }
    forall h | h in RemotesOf(c)
      ensures StateDone(w, h)
    {
      assert StateDone(v, h);
      assert Less(At(w, h), At(v, h));
    }
  }

  lemma ShrunkSetLoaded(w: World, v: World, y: Option<Yaml>)
    requires Shrunk(w, v)
    ensures Shrunk(w.(loaded := y), v.(loaded := y))
  {
    forall h
      ensures Less(At(w.(loaded := y), h), At(v.(loaded := y), h))
    {
      assert Less(At(w, h), At(v, h));
    }
  }

  // ---- the run that has read cluster.yaml

  /** The operator's cluster.yaml is what the run holds, or it is gone and so is everything else. */
  ghost predicate Going(c: Cluster, w: World) {
    && w.loaded.Some? && w.loaded.value.cluster == c
    && match OperatorYaml(w)
       case Some(y) => y == w.loaded.value
       case None => w.loaded.value.peers == [] && Cleaned(w, c)
  }

  lemma PrefixShrinks(i: nat, w: World, k: nat)
    requires 1 <= i < 9 && k <= |Phases()[i].plan(w)|
    ensures Shrunk(Do(w, Phases()[i].plan(w)[..k]), w)
  {
    hide Phases;
    PlanClass(i, w);
    var prefix := Phases()[i].plan(w)[..k];
    assert forall c :: c in prefix ==> c in Phases()[i].plan(w);
    DoShrinks(w, prefix);
  }

  lemma EarlierStayDone(i: nat, w: World, v: World)
    requires i <= 9 && Shrunk(w, v) && DoneUpTo(Phases(), i, v)
    ensures DoneUpTo(Phases(), i, w)
  {
    hide Phases;
    hide Shrunk;
    forall j: nat | j < i && j < |Phases()|
      ensures IsDone(Phases()[j], w)
    {
      DoneLasts(j, w, v);
    }
  }

  lemma {:induction false} StateUntouched(w: World, cmds: seq<Cmd>, i: nat)
    requires 1 <= i < 9 && i != STATE && forall c :: c in cmds ==> Class(i, c)
    ensures forall h :: At(Do(w, cmds), h).state == At(w, h).state
  {
    if cmds != [] {
      var n := |cmds| - 1;
      Snoc(cmds);
      StateUntouched(w, cmds[..n], i);
      StepKeepsState(Do(w, cmds[..n]), cmds[n], i);
      hide Step;
    }
  }

  lemma StepKeepsState(w: World, c: Cmd, i: nat)
    requires 1 <= i < 9 && i != STATE && Class(i, c)
    ensures forall h :: At(Step(w, c), h).state == At(w, h).state
  {
  }

  lemma OrdinaryKeeps(c: Cluster, i: nat, w: World, k: nat)
    requires 1 <= i < 9 && i != STATE && k <= |Phases()[i].plan(w)|
    requires Ready(Phases(), (x: World) => Going(c, x), i, w)
    ensures Ready(Phases(), (x: World) => Going(c, x), i, Do(w, Phases()[i].plan(w)[..k]))
  {
    hide Phases;
    hide DoneUpTo;
    var prefix := Phases()[i].plan(w)[..k];
    var v := Do(w, prefix);
    PlanClass(i, w);
    assert forall x :: x in prefix ==> x in Phases()[i].plan(w);
    StateUntouched(w, prefix, i);
    PrefixShrinks(i, w, k);
    LoadedSame(v, w);
    EarlierStayDone(i, v, w);
    if OperatorYaml(w).None? {
      CleanedLasts(v, w, c);
    }
  }

  // ---- the mesh phase

  lemma CopiesPrefix(y: Yaml, hosts: seq<HostId>, k: nat)
    requires k <= |hosts|
    ensures CopyCmds(y, hosts)[..k] == CopyCmds(y, hosts[..k])
  {
  }

  ghost predicate Synced(w: World, c: Cluster) {
    w.loaded.Some? && w.loaded == OperatorYaml(w) && w.loaded.value.cluster == c
  }

  lemma SaveSyncs(w: World, y: Yaml)
    ensures Synced(Do(w, [SaveOperator(y)]), y.cluster) && Do(w, [SaveOperator(y)]).loaded == Some(y)
  {
    ExecOne(Step, w, SaveOperator(y));
  }

  lemma CopiesKeepSynced(w: World, y: Yaml, c: Cluster, hosts: seq<HostId>)
    requires Synced(w, c) && OPERATOR !in hosts
    ensures Synced(Do(w, CopyCmds(y, hosts)), c) && Do(w, CopyCmds(y, hosts)).loaded == w.loaded
  {
    CopiesKeepLoaded(w, y, hosts);
  }

  lemma {:induction false} MeshPrefix(w: World, y: Yaml, peers: seq<string>, k: nat)
    requires Manageable(y.cluster) && Synced(w, y.cluster) && w.loaded == Some(y)
    requires k <= |MeshCmds(y, peers)|
    ensures Synced(Do(w, MeshCmds(y, peers)[..k]), y.cluster)
    decreases |peers|
  {
    hide Synced;
    hide Exec;
    hide RemotesOf;
    hide MeshCmds;
    hide CopyCmds;
    MeshCmdsNone(y);
    ExecNothing(Step, w);
    if peers == [] || k == 0 {
      assert MeshCmds(y, peers)[..k] == [];
    } else {
      var next := y.(peers := Filter(y.peers, (p: string) => p != peers[0]));
      var remotes := RemotesOf(y.cluster);
      var v := Do(w, [SaveOperator(next)]);
      MeshCmdsCons(y, peers);
      TargetsAre(y.cluster, []);
      SaveSyncs(w, next);
      MeshRound(w, next, remotes, MeshCmds(next, peers[1..]), k - 1);
      if k > 1 + |remotes| {
        CopiesKeepSynced(v, next, y.cluster, remotes);
        MeshPrefix(Do(v, CopyCmds(next, remotes)), next, peers[1..], k - 1 - |remotes|);
      } else {
        CopiesKeepSynced(v, next, y.cluster, remotes[..k - 1]);
      }
    }
  }

  lemma MeshCmdsNone(y: Yaml)
    ensures MeshCmds(y, []) == []
  {
  }

  lemma MeshCmdsCons(y: Yaml, peers: seq<string>)
    requires peers != []
    ensures var next := y.(peers := Filter(y.peers, (p: string) => p != peers[0]));
            && MeshCmds(y, peers) == [SaveOperator(next)] + CopyCmds(next, RemotesOf(y.cluster)) + MeshCmds(next, peers[1..])
            && |CopyCmds(next, RemotesOf(y.cluster))| == |RemotesOf(y.cluster)|
  {
  }

  /** Where a cut after the save and m further commands falls: among the copies, or after them. */
  lemma MeshRound(w: World, next: Yaml, remotes: seq<HostId>, rest: seq<Cmd>, m: nat)
    requires m <= |remotes| + |rest|
    ensures var save, copies := [SaveOperator(next)], CopyCmds(next, remotes);
            Do(w, (save + copies + rest)[..m + 1]) ==
            if m <= |remotes| then Do(Do(w, save), CopyCmds(next, remotes[..m]))
            else Do(Do(Do(w, save), copies), rest[..m - |remotes|])
  {
    hide Step;
    var save, copies := [SaveOperator(next)], CopyCmds(next, remotes);
    if m <= |remotes| {
      CopiesPrefix(next, remotes, m);
      assert (save + copies + rest)[..m + 1] == save + copies[..m];
      ExecAppend(Step, w, save, copies[..m]);
    } else {
      var r := rest[..m - |remotes|];
      assert (save + copies + rest)[..m + 1] == save + copies + r;
      ExecAppend(Step, w, save + copies, r);
      ExecAppend(Step, w, save, copies);
    }
  }

  lemma {:induction false} CopiesWritten(w: World, y: Yaml, hosts: seq<HostId>)
    ensures forall h :: At(Do(w, CopyCmds(y, hosts)), h).state ==
                        if h in hosts then Some(StateDir(Some(y))) else At(w, h).state
  {
    if hosts != [] {
      var n := |hosts| - 1;
      CopiesWritten(w, y, hosts[..n]);
      assert CopyCmds(y, hosts) == CopyCmds(y, hosts[..n]) + [SaveCopy(hosts[n], y)];
      ExecSnoc(Step, w, CopyCmds(y, hosts[..n]), SaveCopy(hosts[n], y));
      assert hosts == hosts[..n] + [hosts[n]];
      hide Exec;
      var v := Do(w, CopyCmds(y, hosts[..n]));
      forall h
        ensures At(Step(v, SaveCopy(hosts[n], y)), h).state == if h == hosts[n] then Some(StateDir(Some(y))) else At(v, h).state
      {
        StepAt(v, SaveCopy(hosts[n], y), h);
      }
      hide Step;
      hide At;
    }
  }

  /** Once the mesh phase has run, every host's copy of cluster.yaml says what the operator's says: no
      peer is left. */
  lemma {:induction false} MeshCopied(w: World, y: Yaml, peers: seq<string>)
    requires Manageable(y.cluster) && w.loaded == Some(y) && peers != [] && forall p :: p in y.peers ==> p in peers
    ensures forall h :: h == OPERATOR || h in RemotesOf(y.cluster) ==>
              At(Do(w, MeshCmds(y, peers)), h).state == Some(StateDir(Some(y.(peers := []))))
    decreases |peers|
  {
    hide RemotesOf;
    hide MeshCmds;
    hide CopyCmds;
    hide Manageable;
    hide Exec;
    hide Step;
    hide At;
    var next := y.(peers := Filter(y.peers, (p: string) => p != peers[0]));
    var remotes := RemotesOf(y.cluster);
    var saved := [SaveOperator(next)] + CopyCmds(next, remotes);
    var u := Do(w, saved);
    MeshCmdsCons(y, peers);
    RoundCopied(w, next);
    ExecAppend(Step, w, saved, MeshCmds(next, peers[1..]));
    assert peers == [peers[0]] + peers[1..];
    MeshCmdsNone(next);
    if peers[1..] == [] {
      ExecNothing(Step, u);
      EmptyOrHead(next.peers);
    } else {
      MeshCopied(u, next, peers[1..]);
      assert next.(peers := []) == y.(peers := []);
      assert Do(w, MeshCmds(y, peers)) == Do(u, MeshCmds(next, peers[1..]));
    }
  }

  lemma RoundCopied(w: World, y: Yaml)
    requires Manageable(y.cluster)
    ensures var v := Do(w, [SaveOperator(y)] + CopyCmds(y, RemotesOf(y.cluster)));
            && v.loaded == Some(y)
            && forall h :: h == OPERATOR || h in RemotesOf(y.cluster) ==> At(v, h).state == Some(StateDir(Some(y)))
  {
    hide RemotesOf;
    hide CopyCmds;
    hide Exec;
    hide Step;
    var remotes := RemotesOf(y.cluster);
    var v := Do(w, [SaveOperator(y)]);
    TargetsAre(y.cluster, []);
    SaveSyncs(w, y);
    CopiesKeepSynced(v, y, y.cluster, remotes);
    CopiesWritten(v, y, remotes);
    ExecAppend(Step, w, [SaveOperator(y)], CopyCmds(y, remotes));
    SyncedState(v, y);
  }

  lemma SyncedState(w: World, y: Yaml)
    requires Synced(w, y.cluster) && w.loaded == Some(y)
    ensures At(w, OPERATOR).state == Some(StateDir(Some(y)))
  {
  }

  lemma MeshKeeps(c: Cluster, w: World, k: nat)
    requires Manageable(c) && Going(c, w) && k <= |MeshPlan(w)|
    ensures Going(c, Do(w, MeshPlan(w)[..k]))
  {
    if OperatorYaml(w).Some? {
      MeshPrefix(w, w.loaded.value, w.loaded.value.peers, k);
    } else {
      assert MeshPlan(w)[..k] == [];
    }
  }

  // ---- the state phase

  lemma {:induction false} EachHostAppend(w: World, a: seq<HostId>, b: seq<HostId>, many: bool,
          done: (World, HostId) -> bool, cmds: (World, HostId) -> seq<Cmd>)
    ensures EachHost(w, a + b, many, done, cmds) ==
            EachHost(w, a, many, done, cmds) + EachHost(Do(w, EachHost(w, a, many, done, cmds)), b, many, done, cmds)
    decreases |a|
  {
    hide Exec;
    if a == [] {
      assert a + b == b;
      ExecNothing(Step, w);
    } else {
      var now := if many && done(w, a[0]) then [] else cmds(w, a[0]);
      var next := Do(w, now);
      assert (a + b)[1..] == a[1..] + b;
      EachHostAppend(next, a[1..], b, many, done, cmds);
      var first := EachHost(next, a[1..], many, done, cmds);
      var rest := EachHost(Do(next, first), b, many, done, cmds);
      ExecAppend(Step, w, now, first);
      Associative(now, first, rest);
      assert EachHost(w, a, many, done, cmds) == now + first;
      assert EachHost(w, a + b, many, done, cmds) == now + EachHost(next, a[1..] + b, many, done, cmds);
    }
  }

  lemma {:induction false} StateCmdsElsewhere(w: World, hosts: seq<HostId>, many: bool)
    requires OPERATOR !in hosts
    ensures forall c :: c in EachHost(w, hosts, many, StateDone, StateCmds) ==> (c.RmYaml? || c.RmStateDir?) && c.h != OPERATOR
    decreases |hosts|
  {
    if hosts != [] {
      hide Exec;
      var now := if many && StateDone(w, hosts[0]) then [] else StateCmds(w, hosts[0]);
      assert hosts[0] in hosts;
      StateCmdsElsewhere(Do(w, now), hosts[1..], many);
    }
  }

  lemma StepElsewhere(w: World, c: Cmd)
    requires (c.RmYaml? || c.RmStateDir?) && c.h != OPERATOR
    ensures At(Step(w, c), OPERATOR) == At(w, OPERATOR)
  {
  }

  lemma {:induction false} ElsewhereKeepsOperator(w: World, cmds: seq<Cmd>)
    requires forall c :: c in cmds ==> (c.RmYaml? || c.RmStateDir?) && c.h != OPERATOR
    ensures At(Do(w, cmds), OPERATOR) == At(w, OPERATOR)
  {
    if cmds != [] {
      hide Step;
      var n := |cmds| - 1;
      ElsewhereKeepsOperator(w, cmds[..n]);
      assert cmds[n] in cmds;
      StepElsewhere(Do(w, cmds[..n]), cmds[n]);
    }
  }

  /** Until every other host's state directory is gone, the operator's is not touched. */
  lemma StatePrefix(c: Cluster, w: World, k: nat)
    requires Manageable(c) && w.loaded.Some? && w.loaded.value.cluster == c
    requires k <= |Phases()[STATE].plan(w)|
    ensures var v := Do(w, Phases()[STATE].plan(w)[..k]);
            At(v, OPERATOR) == At(w, OPERATOR) || forall h :: h in RemotesOf(c) ==> StateDone(v, h)
  {
    StatePlanIs(c, w);
    hide Phases;
    hide Exec;
    hide StateDone;
    hide EachHost;
    var remotes := RemotesOf(c);
    assert OPERATOR !in remotes by {
      TargetsAre(c, []);
    }
    OthersFirst(w, remotes, |remotes + [OPERATOR]| > 1, k);
  }

  lemma OthersFirst(w: World, remotes: seq<HostId>, many: bool, k: nat)
    requires OPERATOR !in remotes
    requires var a := EachHost(w, remotes, many, StateDone, StateCmds);
             k <= |a + EachHost(Do(w, a), [OPERATOR], many, StateDone, StateCmds)|
    ensures var a := EachHost(w, remotes, many, StateDone, StateCmds);
            var b := EachHost(Do(w, a), [OPERATOR], many, StateDone, StateCmds);
            var v := Do(w, (a + b)[..k]);
            At(v, OPERATOR) == At(w, OPERATOR) || forall h :: h in remotes ==> StateDone(v, h)
  {
    hide Exec;
    hide StateDone;
    var a := EachHost(w, remotes, many, StateDone, StateCmds);
    var b := EachHost(Do(w, a), [OPERATOR], many, StateDone, StateCmds);
    StateCmdsElsewhere(w, remotes, many);
    hide EachHost;
    if k <= |a| {
      assert (a + b)[..k] == a[..k];
      ElsewhereKeepsOperator(w, a[..k]);
    } else {
      assert (a + b)[..k] == a + b[..k - |a|];
      ExecAppend(Step, w, a, b[..k - |a|]);
      OthersAreDone(w, remotes, many, k - |a|);
    }
  }

  /** The other hosts first, the operator last. */
  lemma StatePlanIs(c: Cluster, w: World)
    requires Manageable(c) && w.loaded.Some? && w.loaded.value.cluster == c
    ensures var remotes := RemotesOf(c);
            var many := |remotes + [OPERATOR]| > 1;
            var a := EachHost(w, remotes, many, StateDone, StateCmds);
            Phases()[STATE].plan(w) == a + EachHost(Do(w, a), [OPERATOR], many, StateDone, StateCmds)
  {
    hide EachHost;
    hide StateCmds;
    var remotes := RemotesOf(c);
    TargetsAre(c, w.loaded.value.peers);
    EachHostAppend(w, remotes, [OPERATOR], |remotes + [OPERATOR]| > 1, StateDone, StateCmds);
  }

  lemma OthersAreDone(w: World, remotes: seq<HostId>, many: bool, k: nat)
    requires var u := Do(w, EachHost(w, remotes, many, StateDone, StateCmds));
             k <= |EachHost(u, [OPERATOR], many, StateDone, StateCmds)|
    ensures var u := Do(w, EachHost(w, remotes, many, StateDone, StateCmds));
            var v := Do(u, EachHost(u, [OPERATOR], many, StateDone, StateCmds)[..k]);
            forall h :: h in remotes ==> StateDone(v, h)
  {
    var u := Do(w, EachHost(w, remotes, many, StateDone, StateCmds));
    var b := EachHost(u, [OPERATOR], many, StateDone, StateCmds);
    HostConditionsLast();
    HostCommandsTake();
    StopAchieves();
    EachHostDone(w, remotes, many, StateDone, StateCmds);
    EachHostOnly(u, [OPERATOR], many, StateDone, StateCmds, Takes);
    hide EachHost;
    hide StateCmds;
    DoShrinks(u, b[..k]);
    StaysDoneEverywhere(Do(u, b[..k]), u, remotes);
  }

  lemma StaysDoneEverywhere(w: World, v: World, hosts: seq<HostId>)
    requires Shrunk(w, v) && forall h :: h in hosts ==> StateDone(v, h)
    ensures forall h :: h in hosts ==> StateDone(w, h)
  {
    forall h | h in hosts
      ensures StateDone(w, h)
    {
      assert Less(At(w, h), At(v, h));
    }
  }

  lemma StateKeeps(c: Cluster, w: World, k: nat)
    requires Manageable(c) && k <= |Phases()[STATE].plan(w)|
    requires Ready(Phases(), (x: World) => Going(c, x), STATE, w)
    ensures Ready(Phases(), (x: World) => Going(c, x), STATE, Do(w, Phases()[STATE].plan(w)[..k]))
  {
    var v := Do(w, Phases()[STATE].plan(w)[..k]);
    assert IsDone(Phases()[MESH], w);
    assert w.loaded.value.peers == [];
    hide Phases;
    hide DoneUpTo;
    hide Targets;
    PrefixShrinks(STATE, w, k);
    LoadedSame(v, w);
    EarlierStayDone(STATE, v, w);
    StatePrefix(c, w, k);
    YamlOnlyGoes(v, w);
    if OperatorYaml(w).None? {
      CleanedLasts(v, w, c);
    } else if OperatorYaml(v).None? {
      assert v.(loaded := Some(Yaml(c, []))) == v;
    }
  }

  lemma YamlOnlyGoes(w: World, v: World)
    requires Shrunk(w, v)
    ensures OperatorYaml(w).Some? ==> OperatorYaml(w) == OperatorYaml(v)
  {
    assert Less(At(w, OPERATOR), At(v, OPERATOR));
  }

  /** Started with cluster.yaml read, the nine phases can be cut anywhere. */
  lemma GoingDisciplined(c: Cluster)
    requires Manageable(c)
    ensures Disciplined(Step, Phases(), (x: World) => Going(c, x))
  {
    var inv := (x: World) => Going(c, x);
    forall i: nat | i < |Phases()|
      ensures Keeps(Step, Phases(), inv, i) && Establishes(Step, Phases(), inv, i)
    {
      forall w: World, k: nat | Ready(Phases(), inv, i, w) && k <= |Phases()[i].plan(w)|
        ensures Ready(Phases(), inv, i, Exec(Step, w, Phases()[i].plan(w)[..k]))
      {
        if i == MESH {
          MeshKeeps(c, w, k);
        } else if i == STATE {
          StateKeeps(c, w, k);
        } else {
          OrdinaryKeeps(c, i, w, k);
        }
      }
      forall w: World | Ready(Phases(), inv, i, w)
        ensures IsDone(Phases()[i], Exec(Step, w, Phases()[i].plan(w)))
      {
        PhaseAchieves(i, w);
      }
    }
  }

  // ---- the run that finds no cluster.yaml any more

  ghost predicate Finishing(c: Cluster, kube: bool, w: World) {
    w.loaded.None? && OperatorYaml(w).None? && Cleaned(w, c) && w.kube == kube
  }

  lemma {:induction false} KubeUntouched(w: World, cmds: seq<Cmd>, i: nat)
    requires 1 <= i < KUBECONFIG && forall c :: c in cmds ==> Class(i, c)
    ensures Do(w, cmds).kube == w.kube
  {
    if cmds != [] {
      Snoc(cmds);
      KubeUntouched(w, cmds[..|cmds| - 1], i);
      assert cmds[|cmds| - 1] in cmds;
    }
  }

  lemma FinishingKeeps(c: Cluster, kube: bool, i: nat, w: World, k: nat)
    requires i < 9 && k <= |Phases()[i].plan(w)|
    requires Ready(Phases(), (x: World) => Finishing(c, kube, x), i, w)
    ensures Ready(Phases(), (x: World) => Finishing(c, kube, x), i, Do(w, Phases()[i].plan(w)[..k]))
  {
    var prefix := Phases()[i].plan(w)[..k];
    if i == MESH || i == KUBECONFIG {
      assert prefix == [];
    } else {
      hide Phases;
      hide DoneUpTo;
      var v := Do(w, prefix);
      PlanClass(i, w);
      assert forall x :: x in prefix ==> x in Phases()[i].plan(w);
      KubeUntouched(w, prefix, i);
      PrefixShrinks(i, w, k);
      LoadedSame(v, w);
      EarlierStayDone(i, v, w);
      YamlOnlyGoes(v, w);
      CleanedLasts(v, w, c);
    }
  }

  lemma FinishingDisciplined(c: Cluster, kube: bool)
    ensures Disciplined(Step, Phases(), (x: World) => Finishing(c, kube, x))
  {
    var inv := (x: World) => Finishing(c, kube, x);
    forall i: nat | i < |Phases()|
      ensures Keeps(Step, Phases(), inv, i) && Establishes(Step, Phases(), inv, i)
    {
      forall w: World, k: nat | Ready(Phases(), inv, i, w) && k <= |Phases()[i].plan(w)|
        ensures Ready(Phases(), inv, i, Exec(Step, w, Phases()[i].plan(w)[..k]))
      {
        FinishingKeeps(c, kube, i, w, k);
      }
      forall w: World | Ready(Phases(), inv, i, w)
        ensures IsDone(Phases()[i], Exec(Step, w, Phases()[i].plan(w)))
      {
        PhaseAchieves(i, w);
      }
    }
  }

  // ---- any number of cut runs

  /** Between runs: cluster.yaml still lists every host, or everything but the operator's state
      directory and the kubeconfig entry is gone. */
  ghost predicate Resumable(w: World, c: Cluster) {
    match OperatorYaml(w)
    case Some(y) => y.cluster == c
    case None => Cleaned(w, c)
  }

  lemma Reload(w: World, c: Cluster)
    requires Resumable(w, c)
    ensures var start := w.(loaded := OperatorYaml(w));
            if OperatorYaml(w).Some? then Going(c, start) && Found(start) else Finishing(c, w.kube, start)
  {
    hide Phases;
    var start := w.(loaded := OperatorYaml(w));
    assert OperatorYaml(start) == OperatorYaml(w);
    assert start.(loaded := Some(Yaml(c, []))) == w.(loaded := Some(Yaml(c, [])));
    if OperatorYaml(w).Some? {
      assert At(start, OPERATOR).state.Some?;
      OperatorIsTarget(start.loaded);
    }
  }

  lemma OperatorIsTarget(y: Option<Yaml>)
    ensures OPERATOR in Targets(y)
  {
  }

  lemma OneAttempt(w: World, c: Cluster, budget: nat)
    requires Manageable(c) && Resumable(w, c)
    ensures var (after, outcome) := Attempt(w, budget);
            && Resumable(after, c)
            && (outcome.Some? ==> !outcome.value.NotDone?)
            && (outcome == Some(Finished) || outcome == None ==> Gone(after, c))
            && (outcome == Some(Finished) || outcome == None ==> after.kube == (w.kube && OperatorYaml(w).None?))
  {
    hide Phases;
    hide Found;
    hide Cleaned;
    var start := w.(loaded := OperatorYaml(w));
    Reload(w, c);
    if OperatorYaml(w).Some? {
      var inv := (x: World) => Going(c, x);
      GoingDisciplined(c);
      assert Ready(Phases(), inv, 0, start);
      RunIsSafe(Step, Phases(), inv, 0, start, budget);
      var after := Run(Step, Phases(), start, budget).0;
      if Run(Step, Phases(), start, budget).1.Finished? {
        GoingFinished(c, after);
      }
    } else {
      var inv := (x: World) => Finishing(c, w.kube, x);
      FinishingDisciplined(c, w.kube);
      assert Ready(Phases(), inv, 0, start);
      RunIsSafe(Step, Phases(), inv, 0, start, budget);
      var after := Run(Step, Phases(), start, budget).0;
      if Found(start) && Run(Step, Phases(), start, budget).1.Finished? {
        FinishingFinished(c, w.kube, after);
      }
      if !Found(start) {
        NotFoundIsGone(start);
      }
    }
  }

  lemma GoingFinished(c: Cluster, w: World)
    requires Going(c, w) && DoneUpTo(Phases(), 9, w)
    ensures Gone(w, c) && !w.kube
  {
    assert IsDone(Phases()[STATE], w) && IsDone(Phases()[KUBECONFIG], w);
    OperatorIsTarget(w.loaded);
    hide Cleaned;
    hide Targets;
  }

  lemma FinishingFinished(c: Cluster, kube: bool, w: World)
    requires Finishing(c, kube, w) && DoneUpTo(Phases(), 9, w)
    ensures Gone(w, c)
  {
    assert IsDone(Phases()[STATE], w);
    OperatorIsTarget(w.loaded);
    hide Cleaned;
    hide Targets;
  }

  lemma NotFoundIsGone(w: World)
    requires !Found(w)
    ensures At(w, OPERATOR).state.None?
  {
    OperatorIsTarget(w.loaded);
  }

  /** However often a delete is cut and wherever: until the operator's cluster.yaml goes it still lists
      every host, and when it has gone nothing else of the cluster is left on any other host. The
      attempt that is not cut leaves no active target, container, volume, unit, network, route or
      state directory on any target host. It leaves the kubeconfig entry exactly when an earlier
      attempt was cut after cluster.yaml had gone and before the entry was dropped. */
  lemma {:induction false} DeleteResumes(w: World, c: Cluster, peers: seq<string>, budgets: seq<nat>, last: nat)
    requires Manageable(c) && OperatorYaml(w) == Some(Yaml(c, peers))
    ensures var cut := Attempts(w, budgets);
            && (OperatorYaml(cut).Some? ==> OperatorYaml(cut).value.cluster == c)
            && (OperatorYaml(cut).None? ==> Cleaned(cut, c))
            && var (after, outcome) := Attempt(cut, last);
               && (outcome.Some? ==> !outcome.value.NotDone?)
               && (outcome == Some(Finished) || outcome == None ==>
                     Gone(after, c) && after.kube == (cut.kube && OperatorYaml(cut).None?))
  {
    hide Attempt;
    hide Cleaned;
    AttemptsResumable(w, c, budgets);
    OneAttempt(Attempts(w, budgets), c, last);
  }

  lemma {:induction false} AttemptsResumable(w: World, c: Cluster, budgets: seq<nat>)
    requires Manageable(c) && Resumable(w, c)
    ensures Resumable(Attempts(w, budgets), c)
  {
    if budgets != [] {
      hide Attempt;
      hide Resumable;
      AttemptsResumable(w, c, budgets[..|budgets| - 1]);
      OneAttempt(Attempts(w, budgets[..|budgets| - 1]), c, budgets[|budgets| - 1]);
    }
  }

  /** And an attempt with enough commands does finish (or finds nothing to delete). */
  lemma DeleteFinishes(w: World, c: Cluster)
    requires Manageable(c) && Resumable(w, c)
    ensures exists budget :: Attempt(w, budget).1 in {Some(Finished), None}
  {
    hide Phases;
    hide Found;
    hide Cleaned;
    var start := w.(loaded := OperatorYaml(w));
    Reload(w, c);
    var inv := if OperatorYaml(w).Some? then (x: World) => Going(c, x) else (x: World) => Finishing(c, w.kube, x);
    if OperatorYaml(w).Some? {
      GoingDisciplined(c);
    } else {
      FinishingDisciplined(c, w.kube);
    }
    assert Ready(Phases(), inv, 0, start);
    var budget := EnoughCommands(Step, Phases(), inv, 0, start);
    assert Attempt(w, budget).1 in {Some(Finished), None};
  }

  // ---- what is gone, item by item

  /** The machine is the operator or one of the hosts cluster.yaml lists. */
  predicate OfCluster(c: Cluster, m: HostId) {
    m == OPERATOR || (c.MultiHost() && exists h :: h in c.spec.hosts.value && MachineOfEntry(h) == m)
  }

  lemma MachineIsTarget(c: Cluster, m: HostId)
    requires Manageable(c) && OfCluster(c, m)
    ensures m in Targets(Some(Yaml(c, [])))
  {
    TargetsAre(c, []);
    if m != OPERATOR {
      var h :| h in c.spec.hosts.value && MachineOfEntry(h) == m;
      var remote := Filter(c.spec.hosts.value, (x: Host) => x.ssh.Some?);
      assert h in remote;
      var i :| 0 <= i < |remote| && remote[i] == h;
      assert RemotesOf(c)[i] == m;
    }
  }

  /** After a delete no machine of the cluster has an active target or network service, a unit
      directory, target or routes unit, a network, a route to the cluster's subnets or a state
      directory of it. */
  lemma GoneFromEveryHost(w: World, c: Cluster, m: HostId)
    requires Manageable(c) && Gone(w, c) && OfCluster(c, m)
    ensures var s := At(w, m);
            && !s.target && !s.netService && s.units.None? && !s.targetFile && !s.routesFile && !s.network && s.state.None?
            && forall p :: p in Subnets(Some(Yaml(c, []))) ==> p !in s.routes
  {
    MachineIsTarget(c, m);
    TargetsAre(c, []);
    var v := w.(loaded := Some(Yaml(c, [])));
    assert At(v, m) == At(w, m);
    assert IsDone(Phases()[STOP], v) && IsDone(Phases()[UNITS], v) && IsDone(Phases()[NETWORK], v) && IsDone(Phases()[ROUTES], v);
    hide Targets;
    hide RemotesOf;
    assert StopDone(v, m) && UnitsDone(v, m) && NetworkDone(v, m) && RoutesDone(v, m);
    hide Phases;
    if m != OPERATOR {
      assert StateDone(w, m);
    }
  }

  /** No node or router container, and no volume of a node, is left on the machine that ran it. */
  lemma GoneContainers(w: World, c: Cluster)
    requires Manageable(c) && Gone(w, c)
    ensures forall n :: n in c.spec.nodes ==> n.name !in At(w, MachineOf(c, n.name)).containers
    ensures forall n, v :: n in c.spec.nodes && v in NodeVolumes(n.name) ==> v !in At(w, MachineOf(c, n.name)).volumes
    ensures forall r :: r in RoutersOf(c) ==> r.name !in At(w, MachineOf(c, r.name)).containers
  {
    var v := w.(loaded := Some(Yaml(c, [])));
    assert forall h :: At(v, h) == At(w, h);
    assert IsDone(Phases()[CONTAINERS], v) && IsDone(Phases()[VOLUMES], v);
    hide MachineOf;
    hide RoutersOf;
    hide NodeVolumes;
    var nodes, routers := NodeNamesOf(v), RouterNamesOf(v);
    forall n | n in c.spec.nodes
      ensures n.name in nodes && n.name in Containers(v)
    {
      var i :| 0 <= i < |c.spec.nodes| && c.spec.nodes[i] == n;
      assert nodes[i] == n.name;
    }
    forall r | r in RoutersOf(c)
      ensures r.name in Containers(v)
    {
      var i :| 0 <= i < |RoutersOf(c)| && RoutersOf(c)[i] == r;
      assert routers[i] == r.name;
    }
    hide Phases;
  }
}
