/** Resumable phases (phases.py): a phase says whether it is done and which commands it would run;
    the runner skips what is done, runs the rest and asks again. A run can be cut before any command
    (a crash, a failed command, a host that is away): `budget` is how many commands it gets. */
module Runner {
  import opened Basics
  import opened Text

  /** A leaf phase over worlds W and commands C. done is None for a phase without a completion state. */
  datatype Phase<!W, !C> = Phase(name: string, done: Option<W -> bool>, plan: W -> seq<C>)

  datatype Tree<!W, !C> = Leaf(phase: Phase<W, C>) | Group(name: string, children: seq<Tree<W, C>>)

  datatype Outcome = Finished | Cut | NotDone(phase: string)

  /** The leaves in order, each with its path. */
  function Leaves<W, C>(t: Tree<W, C>, prefix: string): seq<(string, Phase<W, C>)>
    decreases t, 1
  {
    match t
    case Leaf(p) => [(prefix + p.name, p)]
    case Group(name, children) => LeavesOf(t, children, prefix + name + "/")
  }

  function LeavesOf<W, C>(parent: Tree<W, C>, children: seq<Tree<W, C>>, prefix: string): seq<(string, Phase<W, C>)>
    requires forall i :: 0 <= i < |children| ==> children[i] < parent
    decreases parent, 0, |children|
  {
    if |children| == 0 then [] else Leaves(children[0], prefix) + LeavesOf(parent, children[1..], prefix)
  }

  lemma {:induction false} LeavesOfLeaves<W, C>(parent: Tree<W, C>, phases: seq<Phase<W, C>>,
          children: seq<Tree<W, C>>, prefix: string)
    requires |children| == |phases|
    requires forall i :: 0 <= i < |phases| ==> children[i] == Leaf(phases[i]) && children[i] < parent
    ensures var leaves := LeavesOf(parent, children, prefix);
            |leaves| == |phases| && forall i :: 0 <= i < |phases| ==> leaves[i] == (prefix + phases[i].name, phases[i])
    decreases |phases|
  {
    if |phases| > 0 {
      LeavesOfLeaves(parent, phases[1..], children[1..], prefix);
    }
  }

  /** A group of leaves runs them in order, each named after the group and itself. */
  lemma LeavesOfGroup<W, C>(name: string, phases: seq<Phase<W, C>>)
    ensures var leaves := Leaves(Group(name, Map(phases, (p: Phase<W, C>) => Leaf(p))), "");
            && |leaves| == |phases|
            && forall i :: 0 <= i < |phases| ==> leaves[i] == (name + "/" + phases[i].name, phases[i])
  {
    var children := Map(phases, (p: Phase<W, C>) => Leaf(p));
    LeavesOfLeaves(Group(name, children), phases, children, "" + name + "/");
    assert "" + name + "/" == name + "/";
  }

  // ---- --phase and --skip-phases

  function LastPart(full: string): string { var parts := Split(full, '/'); parts[|parts| - 1] }

  /** --phase names a leaf by its path or its last part, or a subtree by its path. */
  predicate Picks(only: string, full: string) {
    full == only || StartsWith(full, only + "/") || LastPart(full) == only
  }

  /** None when --phase names nothing. */
  function Selected<W, C>(leaves: seq<(string, Phase<W, C>)>,
          only: Option<string>): Option<seq<(string, Phase<W, C>)>> {
    if only.None? then Some(leaves)
    else
      var picked := Filter(leaves, (l: (string, Phase<W, C>)) => Picks(only.value, l.0));
      if picked == [] then None else Some(picked)
  }

  predicate Skips(skip: set<string>, full: string) { full in skip || Split(full, '/')[0] in skip }

  /** What is left to run of the selected leaves. */
  function ToRun<W, C>(leaves: seq<(string, Phase<W, C>)>, skip: set<string>): seq<Phase<W, C>> {
    Map(Filter(leaves, (l: (string, Phase<W, C>)) => !Skips(skip, l.0)), (l: (string, Phase<W, C>)) => l.1)
  }

  lemma ToRunNext<W, C>(leaves: seq<(string, Phase<W, C>)>, skip: set<string>, i: nat)
    requires i < |leaves|
    ensures ToRun(leaves[..i + 1], skip) == ToRun(leaves[..i], skip) + if Skips(skip, leaves[i].0) then [] else [leaves[i].1]
  {
    hide Skips;
    FilterNext(leaves, i, (l: (string, Phase<W, C>)) => !Skips(skip, l.0));
  }

  lemma {:induction false} ToRunPrefix<W, C>(leaves: seq<(string, Phase<W, C>)>, skip: set<string>, i: nat)
    requires i <= |leaves|
    ensures ToRun(leaves[..i], skip) <= ToRun(leaves, skip)
    decreases |leaves| - i
  {
    hide Skips;
    hide ToRun;
    if i < |leaves| {
      ToRunNext(leaves, skip, i);
      ToRunPrefix(leaves, skip, i + 1);
    } else {
      assert leaves[..i] == leaves;
    }
  }

  // ---- paths

  function Label<W, C>(t: Tree<W, C>): string { if t.Leaf? then t.phase.name else t.name }

  /** No name has a slash, and siblings have names of their own. */
  ghost predicate Plain<W, C>(t: Tree<W, C>) {
    && '/' !in Label(t)
    && (t.Group? ==>
          && (forall i :: 0 <= i < |t.children| ==> Plain(t.children[i]))
          && forall i, j :: 0 <= i < j < |t.children| ==> Label(t.children[i]) != Label(t.children[j]))
  }

  /** a is the path b, or lies below it. */
  predicate Under(a: string, b: string) { a == b || StartsWith(a, b + "/") }

  lemma UnderBoth(a: string, prefix: string, m: string, n: string)
    requires '/' !in m && '/' !in n && Under(a, prefix + m) && Under(a, prefix + n)
    ensures m == n
  {
    UnderAt(a, prefix, m);
    UnderAt(a, prefix, n);
  }

  lemma UnderAt(a: string, prefix: string, n: string)
    requires '/' !in n && Under(a, prefix + n)
    ensures |a| >= |prefix| && Partition(a[|prefix|..], '/').0 == n
  {
    if a == prefix + n {
      assert a[|prefix|..] == n;
    } else {
      var more := a[|prefix + n + "/"|..];
      assert a == prefix + n + "/" + more;
      assert a[|prefix|..] == n + ['/'] + more;
      PartitionAt(n, more, '/');
    }
  }

  lemma UnderTrans(a: string, b: string, c: string)
    requires Under(a, b) && Under(b, c)
    ensures Under(a, c)
  {
  }

  lemma {:induction false} LeavesUnder<W, C>(t: Tree<W, C>, prefix: string, l: (string, Phase<W, C>))
    requires l in Leaves(t, prefix)
    ensures Under(l.0, prefix + Label(t))
    ensures t.Group? ==> StartsWith(l.0, prefix + Label(t) + "/")
    decreases t, 1
  {
    if t.Group? {
      var i := LeavesOfUnder(t, t.children, prefix + t.name + "/", l);
    }
  }

  lemma {:induction false} LeavesOfUnder<W, C>(parent: Tree<W, C>, children: seq<Tree<W, C>>, prefix: string,
          l: (string, Phase<W, C>)) returns (i: nat)
    requires forall i :: 0 <= i < |children| ==> children[i] < parent
    requires l in LeavesOf(parent, children, prefix)
    ensures i < |children| && Under(l.0, prefix + Label(children[i]))
    decreases parent, 0, |children|
  {
    if l in Leaves(children[0], prefix) {
      LeavesUnder(children[0], prefix, l);
      i := 0;
    } else {
      var k := LeavesOfUnder(parent, children[1..], prefix, l);
      i := k + 1;
    }
  }

  /** In a tree of any depth no leaf's path lies at or below another's. */
  lemma {:induction false} PathsApart<W, C>(t: Tree<W, C>, prefix: string, i: nat, j: nat)
    requires Plain(t) && i < |Leaves(t, prefix)| && j < |Leaves(t, prefix)| && i != j
    ensures !Under(Leaves(t, prefix)[i].0, Leaves(t, prefix)[j].0)
    decreases t, 1
  {
    if t.Group? {
      PathsApartOf(t, t.children, prefix + t.name + "/", i, j);
    }
  }

  lemma {:induction false} PathsApartOf<W, C>(parent: Tree<W, C>, children: seq<Tree<W, C>>, prefix: string, i: nat, j: nat)
    requires forall k :: 0 <= k < |children| ==> children[k] < parent && Plain(children[k])
    requires forall k, m :: 0 <= k < m < |children| ==> Label(children[k]) != Label(children[m])
    requires var leaves := LeavesOf(parent, children, prefix); i < |leaves| && j < |leaves| && i != j
    ensures var leaves := LeavesOf(parent, children, prefix); !Under(leaves[i].0, leaves[j].0)
    decreases parent, 0, |children|
  {
    hide Under;
    hide Plain;
    var here, later := Leaves(children[0], prefix), LeavesOf(parent, children[1..], prefix);
    var n := |here|;
    if i < n && j < n {
      PathsApart(children[0], prefix, i, j);
    } else if i >= n && j >= n {
      PathsApartOf(parent, children[1..], prefix, i - n, j - n);
    } else {
      var own, other := if i < n then here[i] else here[j], if i < n then later[j - n] else later[i - n];
      assert own in here && other in later;
      LeavesUnder(children[0], prefix, own);
      var k := LeavesOfUnder(parent, children[1..], prefix, other);
      assert children[1..][k] == children[k + 1];
      CousinsApart(own.0, other.0, prefix, children[0], children[k + 1]);
    }
  }

  lemma CousinsApart<W, C>(a: string, b: string, prefix: string, s: Tree<W, C>, t: Tree<W, C>)
    requires Plain(s) && Plain(t) && Label(s) != Label(t)
    requires Under(a, prefix + Label(s)) && Under(b, prefix + Label(t))
    ensures !Under(a, b) && !Under(b, a)
  {
    if Under(a, b) {
      UnderTrans(a, b, prefix + Label(t));
      UnderBoth(a, prefix, Label(s), Label(t));
    }
    if Under(b, a) {
      UnderTrans(b, a, prefix + Label(s));
      UnderBoth(b, prefix, Label(s), Label(t));
    }
  }

  /** The leaves of all the runner's trees. */
  function AllLeaves<W, C>(trees: seq<Tree<W, C>>): seq<(string, Phase<W, C>)> {
    LeavesOf(Group("", trees), trees, "")
  }

  lemma OneTree<W, C>(t: Tree<W, C>)
    ensures AllLeaves([t]) == Leaves(t, "")
  {
    assert LeavesOf(Group("", [t]), [t][1..], "") == [];
  }

  ghost predicate PlainTrees<W, C>(trees: seq<Tree<W, C>>) {
    && (forall i :: 0 <= i < |trees| ==> Plain(trees[i]))
    && forall i, j :: 0 <= i < j < |trees| ==> Label(trees[i]) != Label(trees[j])
  }

  /** A full path given as --phase picks its leaf and, if it is a root's name, the leaves elsewhere that
      end in that name. */
  lemma PathPicks<W, C>(trees: seq<Tree<W, C>>, i: nat, j: nat)
    requires PlainTrees(trees) && i < |AllLeaves(trees)| && j < |AllLeaves(trees)|
    ensures var a, b := AllLeaves(trees)[i].0, AllLeaves(trees)[j].0;
            && (Picks(a, b) <==> j == i || LastPart(b) == a)
            && (LastPart(b) == a ==> '/' !in a)
  {
    var a, b := AllLeaves(trees)[i].0, AllLeaves(trees)[j].0;
    JoinSplit(b, '/');
    assert LastPart(b) in Split(b, '/');
    if j != i {
      PathsApartOf(Group("", trees), trees, "", j, i);
    }
  }

  /** So it runs that leaf and no other, however many trees and however deep, exactly when no other
      leaf ends in it: always, when it is a path and not a root's name. */
  lemma PathPicksOne<W, C>(trees: seq<Tree<W, C>>, i: nat)
    requires PlainTrees(trees) && i < |AllLeaves(trees)|
    ensures var leaves := AllLeaves(trees);
            && (Selected(leaves, Some(leaves[i].0)) == Some([leaves[i]]) <==>
                forall j :: 0 <= j < |leaves| && j != i ==> LastPart(leaves[j].0) != leaves[i].0)
            && ('/' in leaves[i].0 ==> Selected(leaves, Some(leaves[i].0)) == Some([leaves[i]]))
  {
    var leaves := AllLeaves(trees);
    var only := leaves[i].0;
    var p := (l: (string, Phase<W, C>)) => Picks(only, l.0);
    forall j | 0 <= j < |leaves|
      ensures Picks(only, leaves[j].0) <==> j == i || LastPart(leaves[j].0) == only
      ensures LastPart(leaves[j].0) == only ==> '/' !in only
    {
      PathPicks(trees, i, j);
    }
    hide AllLeaves;
    hide Picks;
    hide LastPart;
    hide PlainTrees;
    if forall j :: 0 <= j < |leaves| && j != i ==> LastPart(leaves[j].0) != only {
      FilterOnly(leaves, p, i);
    } else {
      var j :| 0 <= j < |leaves| && j != i && LastPart(leaves[j].0) == only;
      FilterTwo(leaves, p, i, j);
    }
  }

  lemma {:induction false} FilterTwo<T>(s: seq<T>, p: T -> bool, i: nat, j: nat)
    requires i < |s| && j < |s| && i != j && p(s[i]) && p(s[j])
    ensures |Filter(s, p)| >= 2
  {
    var n := |s| - 1;
    if i < n && j < n {
      FilterTwo(s[..n], p, i, j);
    } else {
      var first := if i < j then i else j;
      assert s[..n][first] == s[first];
      assert s[first] in Filter(s[..n], p);
    }
  }

  // ---- what is skipped

  lemma {:induction false} SplitHead(a: string, b: string, sep: char)
    requires sep !in a
    ensures |Split(a + [sep] + b, sep)| >= 2 && Split(a + [sep] + b, sep)[0] == a
  {
    var s := a + [sep] + b;
    var n := |s| - 1;
    if b == [] {
      SplitTail(a, b, sep);
      SplitFree(a, sep);
    } else {
      assert s[..n] == a + [sep] + b[..|b| - 1];
      SplitHead(a, b[..|b| - 1], sep);
    }
  }

  /** --skip-phases leaves out a leaf named by its path, and every leaf of a tree named by its root. */
  lemma SkipsMeans<W, C>(t: Tree<W, C>, l: (string, Phase<W, C>), skip: set<string>)
    requires Plain(t) && l in Leaves(t, "")
    ensures Skips(skip, l.0) <==> l.0 in skip || Label(t) in skip
  {
    LeavesUnder(t, "", l);
    var root := Label(t);
    assert "" + root == root;
    if l.0 == root {
      SplitFree(root, '/');
    } else {
      var more := l.0[|root| + 1..];
      assert l.0 == root + "/" + more;
      assert root + "/" + more == root + ['/'] + more;
      SplitHead(root, more, '/');
    }
  }

  /** With one leaf skipped all the others run, in order. */
  lemma {:induction false} ToRunMeans<W, C>(leaves: seq<(string, Phase<W, C>)>, skip: set<string>, i: nat)
    requires i < |leaves| && forall j :: 0 <= j < |leaves| ==> (Skips(skip, leaves[j].0) <==> j == i)
    ensures ToRun(leaves, skip) == Map(leaves[..i] + leaves[i + 1..], (l: (string, Phase<W, C>)) => l.1)
  {
    hide Skips;
    var kept := (l: (string, Phase<W, C>)) => !Skips(skip, l.0);
    var before, after := leaves[..i], leaves[i + 1..];
    assert leaves == before + [leaves[i]] + after;
    FilterAppend(before + [leaves[i]], after, kept);
    FilterAppend(before, [leaves[i]], kept);
    FilterSingle(leaves[i], kept);
    FilterAll(before, kept);
    FilterAll(after, kept);
  }

  function Exec<W, C>(step: (W, C) -> W, w: W, cmds: seq<C>): W {
    if cmds == [] then w else step(Exec(step, w, cmds[..|cmds| - 1]), cmds[|cmds| - 1])
  }

  predicate IsDone<W, C>(p: Phase<W, C>, w: W) { p.done.Some? && p.done.value(w) }

  /** One phase: its world, the commands left, the outcome. */
  function RunPhase<W, C>(step: (W, C) -> W, p: Phase<W, C>, w: W, budget: nat): (r: (W, nat, Outcome))
    ensures r.1 <= budget
  {
    if IsDone(p, w) then (w, budget, Finished)
    else
      var cmds := p.plan(w);
      if budget < |cmds| then (Exec(step, w, cmds[..budget]), 0, Cut)
      else
        var after := Exec(step, w, cmds);
        (after, budget - |cmds|, if p.done.Some? && !p.done.value(after) then NotDone(p.name) else Finished)
  }

  function RunFrom<W, C>(step: (W, C) -> W, phases: seq<Phase<W, C>>, i: nat, w: W, budget: nat): (W, Outcome)
    requires i <= |phases|
    decreases |phases| - i
  {
    if i == |phases| then (w, Finished)
    else
      var (after, left, outcome) := RunPhase(step, phases[i], w, budget);
      if outcome.Finished? then RunFrom(step, phases, i + 1, after, left) else (after, outcome)
  }

  function Run<W, C>(step: (W, C) -> W, phases: seq<Phase<W, C>>, w: W, budget: nat): (W, Outcome) {
    RunFrom(step, phases, 0, w, budget)
  }

  /** The command at which a run that is cut stops. */
  function CutBefore<W, C>(step: (W, C) -> W, phases: seq<Phase<W, C>>, i: nat, w: W, budget: nat): Option<C>
    requires i <= |phases|
    decreases |phases| - i
  {
    if i == |phases| then None
    else
      var (after, left, outcome) := RunPhase(step, phases[i], w, budget);
      if outcome.Finished? then CutBefore(step, phases, i + 1, after, left)
      else if outcome.Cut? then Some(phases[i].plan(w)[budget])
      else None
  }

  /** The runner's loop over the selected leaves. */
  class Process<!W, !C> {
    var world: W

    constructor (w: W)
      ensures world == w
    {
      world := w;
    }

    /** None: --phase names no phase, and nothing is run. */
    method RunAll(step: (W, C) -> W, trees: seq<Tree<W, C>>, only: Option<string>, skip: set<string>,
                  budget: nat) returns (outcome: Option<Outcome>)
      modifies this
      ensures match Selected(AllLeaves(trees), only)
              case None => outcome.None? && world == old(world)
              case Some(picked) => outcome.Some? && (world, outcome.value) == Run(step, ToRun(picked, skip), old(world), budget)
    {
      var picked := Selected(AllLeaves(trees), only);
      if picked.None? {
        return None;
      }
      hide Selected;
      var ended := RunPicked(step, picked.value, skip, budget);
      return Some(ended);
    }

    method RunPicked(step: (W, C) -> W, picked: seq<(string, Phase<W, C>)>, skip: set<string>,
                     budget: nat) returns (outcome: Outcome)
      modifies this
      ensures (world, outcome) == Run(step, ToRun(picked, skip), old(world), budget)
    {
      hide Skips;
      hide ToRun;
      hide Exec;
      ghost var phases := ToRun(picked, skip);
      var left: nat := budget;
      ghost var done: nat := 0;
      NothingToRun(picked, skip);
      for i := 0 to |picked|
        invariant done == |ToRun(picked[..i], skip)| <= |phases|
        invariant RunFrom(step, phases, done, world, left) == Run(step, phases, old(world), budget)
      {
        var (full, p) := picked[i];
        ToRunNext(picked, skip, i);
        ToRunPrefix(picked, skip, i + 1);
        if Skips(skip, full) {
          continue;
        }
        assert phases[done] == p;
        done := done + 1;
        if IsDone(p, world) {
          continue;
        }
        var cmds := p.plan(world);
        if left < |cmds| {
          world := Exec(step, world, cmds[..left]);
          return Cut;
        }
        world := Exec(step, world, cmds);
        left := left - |cmds|;
        if p.done.Some? && !p.done.value(world) {
          return NotDone(p.name);
        }
      }
      assert picked[..|picked|] == picked;
      return Finished;
    }
  }

  lemma NothingToRun<W, C>(leaves: seq<(string, Phase<W, C>)>, skip: set<string>)
    ensures ToRun(leaves[..0], skip) == []
  {
  }

  lemma ExecSnoc<W, C>(step: (W, C) -> W, w: W, cmds: seq<C>, c: C)
    ensures Exec(step, w, cmds + [c]) == step(Exec(step, w, cmds), c)
  {
    assert (cmds + [c])[..|cmds|] == cmds;
  }

  lemma ExecNothing<W, C>(step: (W, C) -> W, w: W)
    ensures Exec(step, w, []) == w
  {
  }

  lemma ExecOne<W, C>(step: (W, C) -> W, w: W, a: C)
    ensures Exec(step, w, [a]) == step(w, a)
  {
    assert [a][..0] == [];
    assert Exec(step, w, []) == w;
  }

  lemma ExecTwo<W, C>(step: (W, C) -> W, w: W, a: C, b: C)
    ensures Exec(step, w, [a, b]) == step(step(w, a), b)
  {
    ExecOne(step, w, a);
    ExecSnoc(step, w, [a], b);
    assert [a] + [b] == [a, b];
  }

  lemma ExecThree<W, C>(step: (W, C) -> W, w: W, a: C, b: C, c: C)
    ensures Exec(step, w, [a, b, c]) == step(step(step(w, a), b), c)
  {
    ExecTwo(step, w, a, b);
    ExecSnoc(step, w, [a, b], c);
    assert [a, b] + [c] == [a, b, c];
  }

  lemma {:induction false} ExecAppend<W, C>(step: (W, C) -> W, w: W, a: seq<C>, b: seq<C>)
    ensures Exec(step, w, a + b) == Exec(step, Exec(step, w, a), b)
  {
    if b == [] {
      assert a + b == a;
    } else {
      var n := |b| - 1;
      assert (a + b)[..|a + b| - 1] == a + b[..n];
      ExecAppend(step, w, a, b[..n]);
    }
  }

  /** A loop that issues commands one by one: in every world it passes, with the commands t issued so
      far, what is left adds up to the plan it started with. */
  ghost predicate Remains<W, C>(step: (W, C) -> W, w0: W, t0: seq<C>, plan0: seq<C>, w: W, t: seq<C>, plan: seq<C>) {
    Exec(step, w, plan) == Exec(step, w0, plan0) && t + plan == t0 + plan0
  }

  lemma Advance<W, C>(step: (W, C) -> W, w0: W, t0: seq<C>, plan0: seq<C>, w: W, t: seq<C>, now: seq<C>, rest: seq<C>)
    requires Remains(step, w0, t0, plan0, w, t, now + rest)
    ensures Remains(step, w0, t0, plan0, Exec(step, w, now), t + now, rest)
  {
    ExecAppend(step, w, now, rest);
    Associative(t, now, rest);
  }

  lemma NothingLeft<W, C>(step: (W, C) -> W, w0: W, t0: seq<C>, plan0: seq<C>, w: W, t: seq<C>)
    requires Remains(step, w0, t0, plan0, w, t, [])
    ensures w == Exec(step, w0, plan0) && t == t0 + plan0
  {
    assert t + [] == t;
  }

  /** Without a command left nothing changes. */
  lemma {:induction false} NoBudget<W, C>(step: (W, C) -> W, phases: seq<Phase<W, C>>, i: nat, w: W)
    requires i <= |phases|
    ensures RunFrom(step, phases, i, w, 0).0 == w
    decreases |phases| - i
  {
    if i < |phases| {
      var cmds := phases[i].plan(w);
      ExecNothing(step, w);
      assert |cmds| == 0 ==> cmds == [];
      NoBudget(step, phases, i + 1, w);
      assert 0 < |cmds| ==> cmds[..0] == [];
    }
  }

  /** A run is cut before a command exactly when one command more would have run that one. */
  lemma {:induction false} CutBeforeIsNext<W, C>(step: (W, C) -> W, phases: seq<Phase<W, C>>, i: nat, w: W, budget: nat)
    requires i <= |phases|
    ensures var (cut, outcome) := RunFrom(step, phases, i, w, budget);
            var next := CutBefore(step, phases, i, w, budget);
            && (outcome.Cut? <==> next.Some?)
            && (next.Some? ==> RunFrom(step, phases, i, w, budget + 1).0 == step(cut, next.value))
    decreases |phases| - i
  {
    if i < |phases| {
      hide Exec;
      var p := phases[i];
      if IsDone(p, w) {
        CutBeforeIsNext(step, phases, i + 1, w, budget);
      } else {
        var cmds := p.plan(w);
        if budget >= |cmds| {
          CutBeforeIsNext(step, phases, i + 1, Exec(step, w, cmds), budget - |cmds|);
        } else {
          assert cmds[..budget + 1] == cmds[..budget] + [cmds[budget]];
          ExecSnoc(step, w, cmds[..budget], cmds[budget]);
          if budget + 1 == |cmds| {
            assert cmds[..budget + 1] == cmds;
            NoBudget(step, phases, i + 1, Exec(step, w, cmds));
          }
        }
      }
    }
  }

  // ---- the discipline under which a run can be cut anywhere

  ghost predicate DoneUpTo<W, C>(phases: seq<Phase<W, C>>, i: nat, w: W) {
    forall j :: 0 <= j < i && j < |phases| ==> IsDone(phases[j], w)
  }

  /** What a phase may count on when it starts: the invariant, and every earlier phase done. */
  ghost predicate Ready<W, C>(phases: seq<Phase<W, C>>, inv: W -> bool, i: nat, w: W) {
    inv(w) && DoneUpTo(phases, i, w)
  }

  /** Phase i, started when ready, stays so after every prefix of its commands. */
  ghost predicate Keeps<W(!new), C>(step: (W, C) -> W, phases: seq<Phase<W, C>>, inv: W -> bool, i: nat)
    requires i < |phases|
  {
    forall w: W, k: nat :: Ready(phases, inv, i, w) && k <= |phases[i].plan(w)|
                           ==> Ready(phases, inv, i, Exec(step, w, phases[i].plan(w)[..k]))
  }

  /** Phase i, started when ready and allowed to finish, is done. */
  ghost predicate Establishes<W(!new), C>(step: (W, C) -> W, phases: seq<Phase<W, C>>, inv: W -> bool, i: nat)
    requires i < |phases|
  {
    forall w: W :: Ready(phases, inv, i, w) ==> IsDone(phases[i], Exec(step, w, phases[i].plan(w)))
  }

  ghost predicate Disciplined<W(!new), C>(step: (W, C) -> W, phases: seq<Phase<W, C>>, inv: W -> bool) {
    forall i :: 0 <= i < |phases| ==> Keeps(step, phases, inv, i) && Establishes(step, phases, inv, i)
  }

  /** The general form: ready(i) is what phase i counts on, safe is what holds wherever a run is cut.
      Skipping phase i, or running it until it is done, leads to what phase i + 1 counts on. */
  ghost predicate Guarded<W(!new), C>(step: (W, C) -> W, phases: seq<Phase<W, C>>, ready: (nat, W) -> bool,
          safe: W -> bool) {
    && (forall i: nat, w: W :: i < |phases| && ready(i, w) ==> Guards(step, phases, ready, safe, i, w))
    && (forall w: W :: ready(|phases|, w) ==> safe(w))
  }

  ghost predicate Guards<W(!new), C>(step: (W, C) -> W, phases: seq<Phase<W, C>>, ready: (nat, W) -> bool,
          safe: W -> bool, i: nat, w: W)
    requires i < |phases|
  {
    if IsDone(phases[i], w) then ready(i + 1, w)
    else
      var cmds := phases[i].plan(w);
      && (forall k: nat :: k <= |cmds| ==> safe(Exec(step, w, cmds[..k])))
      && (phases[i].done.None? || IsDone(phases[i], Exec(step, w, cmds)) ==> ready(i + 1, Exec(step, w, cmds)))
  }

  /** No phase that was ready and ran to its end is found not done. */
  ghost predicate Completing<W(!new), C>(step: (W, C) -> W, phases: seq<Phase<W, C>>, ready: (nat, W) -> bool) {
    forall i: nat, w: W :: i < |phases| && ready(i, w) ==> Completes(step, phases, i, w)
  }

  predicate Completes<W, C>(step: (W, C) -> W, phases: seq<Phase<W, C>>, i: nat, w: W)
    requires i < |phases|
  {
    phases[i].done.None? || IsDone(phases[i], w) || IsDone(phases[i], Exec(step, w, phases[i].plan(w)))
  }

  /** A guarded run is safe wherever it ends, and when it finishes it is past the last phase. If its
      phases complete, too, it never ends in one that ran and is not done. */
  lemma {:induction false} RunStays<W(!new), C>(step: (W, C) -> W, phases: seq<Phase<W, C>>,
          ready: (nat, W) -> bool, safe: W -> bool, i: nat, w: W, budget: nat)
    requires i <= |phases| && Guarded(step, phases, ready, safe) && ready(i, w)
    ensures var (after, outcome) := RunFrom(step, phases, i, w, budget);
            && safe(after) && (outcome.Finished? ==> ready(|phases|, after))
            && (Completing(step, phases, ready) ==> !outcome.NotDone?)
    decreases |phases| - i
  {
    hide Exec;
    if i < |phases| {
      var p := phases[i];
      assert Guards(step, phases, ready, safe, i, w);
      if IsDone(p, w) {
        RunStays(step, phases, ready, safe, i + 1, w, budget);
      } else {
        var cmds := p.plan(w);
        if budget < |cmds| {
          assert safe(Exec(step, w, cmds[..budget]));
        } else {
          assert cmds[..|cmds|] == cmds;
          assert Completing(step, phases, ready) ==> Completes(step, phases, i, w);
          if p.done.None? || IsDone(p, Exec(step, w, cmds)) {
            RunStays(step, phases, ready, safe, i + 1, Exec(step, w, cmds), budget - |cmds|);
          }
        }
      }
    }
  }

  lemma DisciplineGuards<W(!new), C>(step: (W, C) -> W, phases: seq<Phase<W, C>>, inv: W -> bool)
    requires Disciplined(step, phases, inv)
    ensures Guarded(step, phases, (i: nat, w: W) => Ready(phases, inv, i, w), inv)
    ensures Completing(step, phases, (i: nat, w: W) => Ready(phases, inv, i, w))
  {
    hide Exec;
    var ready := (i: nat, w: W) => Ready(phases, inv, i, w);
    forall i: nat, w: W | i < |phases| && ready(i, w)
      ensures Guards(step, phases, ready, inv, i, w) && Completes(step, phases, i, w)
    {
      var cmds := phases[i].plan(w);
      assert Keeps(step, phases, inv, i) && Establishes(step, phases, inv, i);
      assert forall k: nat :: k <= |cmds| ==> Ready(phases, inv, i, Exec(step, w, cmds[..k]));
      assert cmds[..|cmds|] == cmds;
    }
  }

  /** A run of disciplined phases keeps the invariant wherever it is cut, never ends in a phase that
      ran and is not done, and when it finishes every phase is done. */
  lemma RunIsSafe<W(!new), C>(step: (W, C) -> W, phases: seq<Phase<W, C>>, inv: W -> bool, i: nat, w: W, budget: nat)
    requires i <= |phases| && Disciplined(step, phases, inv) && Ready(phases, inv, i, w)
    ensures var (after, outcome) := RunFrom(step, phases, i, w, budget);
            inv(after) && !outcome.NotDone? && (outcome.Finished? ==> DoneUpTo(phases, |phases|, after))
  {
    hide Guarded;
    hide Completing;
    hide Disciplined;
    hide RunFrom;
    hide DoneUpTo;
    DisciplineGuards(step, phases, inv);
    var ready := (j: nat, v: W) => Ready(phases, inv, j, v);
    RunStays(step, phases, ready, inv, i, w, budget);
    var after := RunFrom(step, phases, i, w, budget).0;
    assert ready(|phases|, after) ==> Ready(phases, inv, |phases|, after);
  }

  /** Phases that are done cost nothing. */
  lemma {:induction false} SkipDone<W, C>(step: (W, C) -> W, phases: seq<Phase<W, C>>, i: nat, j: nat, w: W, budget: nat)
    requires i <= j <= |phases| && DoneUpTo(phases, j, w)
    ensures RunFrom(step, phases, i, w, budget) == RunFrom(step, phases, j, w, budget)
    decreases j - i
  {
    hide Exec;
    if i < j {
      assert IsDone(phases[i], w);
      SkipDone(step, phases, i + 1, j, w, budget);
    }
  }

  lemma PhaseWithin<W, C>(step: (W, C) -> W, p: Phase<W, C>, w: W, rest: nat)
    requires !IsDone(p, w) && (p.done.Some? ==> p.done.value(Exec(step, w, p.plan(w))))
    ensures RunPhase(step, p, w, |p.plan(w)| + rest) == (Exec(step, w, p.plan(w)), rest, Finished)
  {
    hide Exec;
  }

  lemma PhaseSkipped<W, C>(step: (W, C) -> W, p: Phase<W, C>, w: W)
    requires IsDone(p, w)
    ensures forall budget: nat :: RunPhase(step, p, w, budget) == (w, budget, Finished)
  {
  }

  /** Some budget lets a guarded run whose phases complete finish. */
  lemma {:induction false} EnoughGuarded<W(!new), C>(step: (W, C) -> W, phases: seq<Phase<W, C>>,
          ready: (nat, W) -> bool, safe: W -> bool, i: nat, w: W) returns (budget: nat)
    requires i <= |phases| && Guarded(step, phases, ready, safe) && Completing(step, phases, ready) && ready(i, w)
    ensures RunFrom(step, phases, i, w, budget).1.Finished?
    decreases |phases| - i
  {
    hide Exec;
    hide RunPhase;
    if i == |phases| {
      return 0;
    }
    var p := phases[i];
    assert Guards(step, phases, ready, safe, i, w) && Completes(step, phases, i, w);
    if IsDone(p, w) {
      PhaseSkipped(step, p, w);
      budget := EnoughGuarded(step, phases, ready, safe, i + 1, w);
    } else {
      var rest := EnoughGuarded(step, phases, ready, safe, i + 1, Exec(step, w, p.plan(w)));
      PhaseWithin(step, p, w, rest);
      budget := |p.plan(w)| + rest;
    }
  }

  /** Some budget lets a disciplined run finish. */
  lemma EnoughCommands<W(!new), C>(step: (W, C) -> W, phases: seq<Phase<W, C>>, inv: W -> bool, i: nat,
          w: W) returns (budget: nat)
    requires i <= |phases| && Disciplined(step, phases, inv) && Ready(phases, inv, i, w)
    ensures RunFrom(step, phases, i, w, budget).1.Finished?
  {
    DisciplineGuards(step, phases, inv);
    budget := EnoughGuarded(step, phases, (j: nat, v: W) => Ready(phases, inv, j, v), inv, i, w);
  }

  /** A second invariant that every prefix of every phase keeps can be added to a disciplined one. */
  lemma AlsoKeeps<W(!new), C>(step: (W, C) -> W, phases: seq<Phase<W, C>>, inv: W -> bool, more: W -> bool,
          both: W -> bool)
    requires Disciplined(step, phases, inv) && forall w :: both(w) <==> inv(w) && more(w)
    requires forall i: nat, w: W, k: nat :: i < |phases| && inv(w) && more(w) && k <= |phases[i].plan(w)|
                                            ==> more(Exec(step, w, phases[i].plan(w)[..k]))
    ensures Disciplined(step, phases, both)
  {
    hide Exec;
    forall i: nat | i < |phases|
      ensures Keeps(step, phases, both, i) && Establishes(step, phases, both, i)
    {
      assert Keeps(step, phases, inv, i) && Establishes(step, phases, inv, i);
      forall w: W, k: nat | Ready(phases, both, i, w) && k <= |phases[i].plan(w)|
        ensures Ready(phases, both, i, Exec(step, w, phases[i].plan(w)[..k]))
      {
        assert Ready(phases, inv, i, w);
        assert Ready(phases, inv, i, Exec(step, w, phases[i].plan(w)[..k]));
      }
      forall w: W | Ready(phases, both, i, w)
        ensures IsDone(phases[i], Exec(step, w, phases[i].plan(w)))
      {
        assert Ready(phases, inv, i, w);
      }
    }
  }
}
