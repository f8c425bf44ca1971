/** Runs of several commands that end badly, from inputs anyone can have. */
module WitnessRuns {
  import opened Basics
  import opened Sorting
  import opened Runner
  import ClusterModel
  import DeleteCluster
  import DeleteResumes
  import Hosts
  import opened Mesh
  import opened MeshGraph
  import opened MeshLeaving

  // ---- connect a b c, disconnect a b, connect d a

  const Alone: Graph := map["a" := [], "b" := [], "c" := [], "d" := []]

  /** What connect makes of a record for these names. */
  function Connect(g: Graph, names: seq<Name>): Graph {
    var ms := MembersOf(g, names);
    if ms.Ok? then RecordAll(g, ms.value) else g
  }

  lemma AloneIsCliques()
    ensures Cliques(Alone)
  {
  }

  /** Connecting unconnected clusters makes exactly them a full mesh. */
  lemma FirstConnect(names: seq<Name>)
    requires forall r :: r in names ==> r in Alone
    ensures var g := Connect(Alone, names);
            && g.Keys == Alone.Keys && Tidy(g) && Cliques(g)
            && forall x, y :: x in g ==> (y in g[x] <==> x in names && y in names && x != y)
  {
    hide RecordUpTo;
    hide Closed;
    hide Symmetric;
    hide Transitive;
    AloneIsCliques();
    CliqueDiscovers(Alone, names);
    var ms := MembersOf(Alone, names).value;
    hide MembersOf;
    MembersShape(Alone, names, ms);
    ConnectKeepsCliques(Alone, ms);
    RecordedAt(Alone, ms, |ms|, "a");
    forall x | x in Alone
      ensures Ascending(RecordAll(Alone, ms)[x])
      ensures forall y :: y in RecordAll(Alone, ms)[x] <==> x in names && y in names && x != y
    {
      OneRecord(names, ms, x);
    }
  }

  lemma OneRecord(names: seq<Name>, ms: seq<Name>, x: Name)
    requires Ascending(ms) && x in Alone && (forall m :: m in ms ==> m in Alone) && forall m :: m in ms <==> m in names
    ensures RecordAll(Alone, ms).Keys == Alone.Keys
    ensures Ascending(RecordAll(Alone, ms)[x])
    ensures forall y :: y in RecordAll(Alone, ms)[x] <==> x in names && y in names && x != y
  {
    hide RecordUpTo;
    hide Others;
    ConnectRecords(Alone, ms, x);
    RecordedAt(Alone, ms, |ms|, x);
    assert ms[..|ms|] == ms;
    OthersAre(ms, x);
  }

  /** From unconnected clusters: after connect a b c, disconnect a b and connect d a, cluster b lists c
      and c does not list b. */
  lemma MeshBroken()
    ensures var g := Connect(Parted(Connect(Alone, ["a", "b", "c"]), "a", "b"), ["d", "a"]);
            "b" in g && "c" in g && "c" in g["b"] && "b" !in g["c"]
  {
    hide Connect;
    hide Parted;
    hide Cliques;
    hide Tidy;
    hide Closed;
    hide Symmetric;
    var three := ["a", "b", "c"];
    assert Alone.Keys == {"a", "b", "c", "d"};
    FirstConnect(three);
    var g := Connect(Alone, three);
    forall x, y | x in g
      ensures y in g[x] <==> x in {"a", "b", "c"} && y in {"a", "b", "c"} && x != y
    {
      assert y in g[x] <==> x in three && y in three && x != y;
    }
    AfterParting(g);
    SecondConnect(Parted(g, "a", "b"));
  }

  lemma AfterParting(g: Graph)
    requires g.Keys == Alone.Keys && Tidy(g) && Cliques(g)
    requires forall x, y :: x in g ==> (y in g[x] <==> x in {"a", "b", "c"} && y in {"a", "b", "c"} && x != y)
    ensures var h := Parted(g, "a", "b");
            && Closed(h) && Symmetric(h) && Tidy(h) && h.Keys == Alone.Keys
            && (forall x :: x !in h["d"]) && (forall y :: y in h["a"] <==> y == "c") && "c" in h["b"]
  {
    hide Parted;
    hide Closed;
    hide Symmetric;
    hide Transitive;
    hide Tidy;
    PartedMeans(g, "a", "b");
    DisconnectKeeps(g, "a", "b");
  }

  lemma SecondConnect(h: Graph)
    requires Closed(h) && Symmetric(h) && Tidy(h) && h.Keys == Alone.Keys
    requires forall x :: x !in h["d"]
    requires forall y :: y in h["a"] <==> y == "c"
    requires "c" in h["b"]
    ensures var g := Connect(h, ["d", "a"]); "b" in g && "c" in g && "c" in g["b"] && "b" !in g["c"]
  {
    hide RecordUpTo;
    hide Others;
    hide Closed;
    hide Symmetric;
    hide Tidy;
    hide Discovered;
    hide Sorted;
    var names := ["d", "a"];
    assert names[0] in names && names[1] in names;
    DiscoveredOk(h, names);
    DiscoveredMeans(h, names);
    var found := Discovered(h, names).value;
    var ms := Sorted(found);
    SortedDistinct(found);
    assert "a" in found;
    assert forall r :: r in names ==> r == "d" || r == "a";
    assert "b" !in found by {
      assert forall r :: r in names ==> r != "b" && "b" !in h[r];
      assert "b" in found ==> FromNamed(h, names, found, "b");
    }
    assert "c" in found by {
      var r :| r in names && LookedAt(h, found, r) && ("a" == r || "a" in h[r]);
      assert r == "a";
    }
    ConnectRecords(h, ms, "b");
    ConnectRecords(h, ms, "c");
  }

  // ---- a kubeconfig entry left behind

  /** Everything of the cluster is gone but its state directory and kubeconfig entry. */
  function Late(c: ClusterModel.Cluster): DeleteCluster.World {
    DeleteCluster.World(
      map[Hosts.OPERATOR := DeleteCluster.CLEAN.(state := Some(DeleteCluster.StateDir(Some(DeleteCluster.Yaml(c, [])))))],
      true,
      c.name,
      None)
  }

  /** A delete cut after the state directory and before the kubeconfig entry; no rerun finds anything to
      delete, and the entry stays. */
  lemma KubeEntryLeft(c: ClusterModel.Cluster, last: nat)
    requires !c.MultiHost()
    ensures DeleteCluster.OperatorYaml(Late(c)) == Some(DeleteCluster.Yaml(c, []))
    ensures var (cut, outcome) := DeleteCluster.Attempt(Late(c), 2);
            && outcome == Some(Cut) && DeleteCluster.OperatorYaml(cut).None?
            && DeleteCluster.Attempt(cut, last).1 == None && DeleteCluster.Attempt(cut, last).0.kube
  {
    var w := Late(c);
    var start := w.(loaded := Some(DeleteCluster.Yaml(c, [])));
    var phases := DeleteCluster.Phases();
    LateDone(c);
    hide DeleteCluster.Phases;
    SkipDone(DeleteCluster.Step, phases, 0, DeleteCluster.STATE, start, 2);
    LateState(c);
    LateGone(c);
  }

  lemma LateDone(c: ClusterModel.Cluster)
    requires !c.MultiHost()
    ensures var start := Late(c).(loaded := Some(DeleteCluster.Yaml(c, [])));
            DoneUpTo(DeleteCluster.Phases(), DeleteCluster.STATE, start) && DeleteCluster.Found(start)
  {
    var start := Late(c).(loaded := Some(DeleteCluster.Yaml(c, [])));
    hide Hosts.MachineOf;
    hide Hosts.RoutersOf;
    hide DeleteCluster.Subnets;
    assert forall h :: h != Hosts.OPERATOR ==> DeleteCluster.At(start, h) == DeleteCluster.CLEAN;
    DeleteResumes.OperatorIsTarget(start.loaded);
    assert DeleteCluster.At(start, Hosts.OPERATOR).state.Some?;
  }

  /** The state phase and what follows, with two commands left. */
  lemma LateState(c: ClusterModel.Cluster)
    requires !c.MultiHost()
    ensures var start := Late(c).(loaded := Some(DeleteCluster.Yaml(c, [])));
            RunFrom(DeleteCluster.Step, DeleteCluster.Phases(), DeleteCluster.STATE, start, 2) == (LateCut(c), Cut)
  {
    hide DeleteCluster.MeshCmds;
    hide DeleteCluster.Containers;
    hide Exec;
    var start := Late(c).(loaded := Some(DeleteCluster.Yaml(c, [])));
    var p := DeleteCluster.Phases()[DeleteCluster.STATE];
    var cmds := [DeleteCluster.RmYaml(Hosts.OPERATOR), DeleteCluster.RmStateDir(Hosts.OPERATOR)];
    OnlyOperator(start, c);
    ExecTwo(DeleteCluster.Step, start, cmds[0], cmds[1]);
    assert p.plan(start) == cmds;
    assert !IsDone(p, start) by {
      DeleteResumes.OperatorIsTarget(start.loaded);
      assert DeleteCluster.At(start, Hosts.OPERATOR).state.Some?;
    }
    assert DeleteCluster.Do(start, cmds) == LateCut(c);
    assert RunPhase(DeleteCluster.Step, p, start, 2) == (LateCut(c), 0, Finished);
    LateKube(c);
  }

  lemma OnlyOperator(w: DeleteCluster.World, c: ClusterModel.Cluster)
    requires !c.MultiHost() && w.loaded == Some(DeleteCluster.Yaml(c, []))
    ensures DeleteCluster.PerHost(DeleteCluster.StateDone, DeleteCluster.StateCmds)(w) == DeleteCluster.StateCmds(w, Hosts.OPERATOR)
  {
    var s := [Hosts.OPERATOR];
    var now := DeleteCluster.StateCmds(w, Hosts.OPERATOR);
    assert DeleteCluster.Targets(w.loaded) == s && s[1..] == [] && |s| == 1;
    assert DeleteCluster.EachHost(w, s, false, DeleteCluster.StateDone, DeleteCluster.StateCmds) == now + [];
  }

  function LateCut(c: ClusterModel.Cluster): DeleteCluster.World {
    DeleteCluster.World(map[Hosts.OPERATOR := DeleteCluster.CLEAN], true, c.name, Some(DeleteCluster.Yaml(c, [])))
  }

  lemma LateKube(c: ClusterModel.Cluster)
    ensures RunFrom(DeleteCluster.Step, DeleteCluster.Phases(), DeleteCluster.KUBECONFIG, LateCut(c), 0) == (LateCut(c), Cut)
  {
    var p := DeleteCluster.Phases()[DeleteCluster.KUBECONFIG];
    assert p.plan(LateCut(c)) == [DeleteCluster.DropKubeEntry];
    assert [DeleteCluster.DropKubeEntry][..0] == [];
  }

  lemma LateGone(c: ClusterModel.Cluster)
    ensures !DeleteCluster.Found(LateCut(c).(loaded := DeleteCluster.OperatorYaml(LateCut(c)))) && DeleteCluster.OperatorYaml(LateCut(c)).None?
  {
  }
}
