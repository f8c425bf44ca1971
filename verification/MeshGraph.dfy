/** Properties of the recorded peer graph: what members finds, what connect, disconnect and the
    mesh phase of a delete make of it, and which crashes a rerun repairs. */
module MeshGraph {
  import opened Basics
  import opened Sorting
  import opened Mesh

  // ---- shapes of the graph

  ghost predicate Closed(g: Graph) {
    forall a, p :: a in g && p in g[a] ==> p in g && p != a
  }

  ghost predicate Symmetric(g: Graph) {
    forall a, p :: a in g && p in g && p in g[a] ==> a in g[p]
  }

  /** Two peers of one cluster are peers of each other. */
  ghost predicate Transitive(g: Graph) {
    forall a, p, q :: a in g && p in g && p in g[a] && q in g[p] && q != a ==> q in g[a]
  }

  /** Every connected component is a full mesh. */
  ghost predicate Cliques(g: Graph) { Closed(g) && Symmetric(g) && Transitive(g) }

  ghost predicate Path(g: Graph, p: seq<Name>) {
    && p != []
    && (forall i :: 0 <= i < |p| ==> p[i] in g)
    && (forall i :: 0 < i < |p| ==> p[i] in g[p[i - 1]])
  }

  /** b is in a's connected component. */
  ghost predicate Connected(g: Graph, a: Name, b: Name) {
    exists p :: Path(g, p) && p[0] == a && p[|p| - 1] == b
  }

  lemma {:induction false} PathInClique(g: Graph, p: seq<Name>)
    requires Cliques(g) && Path(g, p)
    ensures p[|p| - 1] == p[0] || p[|p| - 1] in g[p[0]]
  {
    var n := |p| - 1;
    if n > 0 {
      assert Path(g, p[..n]);
      PathInClique(g, p[..n]);
      assert p[n] in g[p[n - 1]];
    }
  }

  lemma ComponentOfClique(g: Graph, a: Name, b: Name)
    requires Cliques(g) && a in g
    ensures Connected(g, a, b) <==> b == a || b in g[a]
  {
    if b == a {
      assert Path(g, [a]) && [a][0] == a && [a][|[a]| - 1] == b;
    } else if b in g[a] {
      var p := [a, b];
      assert Path(g, p) && p[0] == a && p[|p| - 1] == b;
    }
    if Connected(g, a, b) {
      var p :| Path(g, p) && p[0] == a && p[|p| - 1] == b;
      PathInClique(g, p);
    }
  }

  // ---- what members finds

  /** A named cluster whose own peers were looked at. */
  ghost predicate LookedAt(g: Graph, found: seq<Name>, r: Name) {
    r in g && r in found && forall y :: y in g[r] ==> y in found
  }

  /** Every cluster found is a named one that was looked at, or a peer of such a one. */
  ghost predicate FromNamed(g: Graph, names: seq<Name>, found: seq<Name>, x: Name) {
    exists r :: r in names && LookedAt(g, found, r) && (x == r || x in g[r])
  }

  lemma {:induction false} DiscoveredMeans(g: Graph, names: seq<Name>)
    requires Discovered(g, names).Ok?
    ensures var found := Discovered(g, names).value;
            && WellFound(g, found)
            && (forall r :: r in names ==> r in found)
            && (forall x :: x in found ==> FromNamed(g, names, found, x))
  {
    if names != [] {
      var n := |names| - 1;
      var before, name := names[..n], names[n];
      DiscoveredMeans(g, before);
      Snoc(names);
      var found := Discovered(g, before).value;
      NamedMeans(g, found, name);
      var after := Discovered(g, names).value;
      forall x | x in after
        ensures FromNamed(g, names, after, x)
      {
        if x in found {
          var r :| r in before && LookedAt(g, found, r) && (x == r || x in g[r]);
          assert r in names && LookedAt(g, after, r);
        } else {
          assert name in names && LookedAt(g, after, name);
        }
      }
    }
  }

  lemma NamedMeans(g: Graph, found: seq<Name>, name: Name)
    requires WellFound(g, found) && AddNamed(g, found, name).Ok?
    ensures var r := AddNamed(g, found, name).value;
            && WellFound(g, r) && name in g && name in r
            && (forall x :: x in r <==> x in found || (name !in found && (x == name || x in g[name])))
  {
    if name !in found {
      NamedNew(g, found, name);
      AddPeersFinds(g, found + [name], g[name], name);
    }
  }

  lemma {:induction false} DiscoveredOk(g: Graph, names: seq<Name>)
    requires Closed(g) && forall r :: r in names ==> r in g
    ensures Discovered(g, names).Ok?
  {
    if names != [] {
      var n := |names| - 1;
      Snoc(names);
      DiscoveredOk(g, names[..n]);
      var found := Discovered(g, names[..n]).value;
      if names[n] !in found {
        PeersOk(g, found + [names[n]], g[names[n]], names[n]);
      }
    }
  }

  lemma {:induction false} PeersOk(g: Graph, found: seq<Name>, peers: seq<Name>, name: Name)
    requires forall p :: p in peers ==> p in g
    ensures AddPeers(g, found, peers, name).Ok?
  {
    if peers != [] {
      Snoc(peers);
      PeersOk(g, found, peers[..|peers| - 1], name);
    }
  }

  /** In a union of full meshes every peer of a named cluster is found, whichever was named first. */
  lemma {:induction false} CliqueDiscovers(g: Graph, names: seq<Name>)
    requires Cliques(g) && forall r :: r in names ==> r in g
    ensures Discovered(g, names).Ok?
    ensures forall r, x :: r in names && x in g[r] ==> x in Discovered(g, names).value
  {
    DiscoveredOk(g, names);
    if names != [] {
      var n := |names| - 1;
      var before, name := names[..n], names[n];
      Snoc(names);
      CliqueDiscovers(g, before);
      DiscoveredMeans(g, before);
      var found := Discovered(g, before).value;
      NamedMeans(g, found, name);
      if name in found {
        var r :| r in before && LookedAt(g, found, r) && (name == r || name in g[r]);
        forall x | x in g[name]
          ensures x in found
        {
          if name != r && x != r {
            assert x in g[r];
          }
        }
      }
    }
  }

  /** members on a union of full meshes: exactly the union of the named clusters' components, in
      order. */
  lemma MembersAreComponents(g: Graph, names: seq<Name>)
    requires Cliques(g) && forall r :: r in names ==> r in g
    ensures MembersOf(g, names).Ok?
    ensures Ascending(MembersOf(g, names).value)
    ensures forall x :: x in MembersOf(g, names).value <==> exists r :: r in names && Connected(g, r, x)
  {
    CliqueDiscovers(g, names);
    DiscoveredMeans(g, names);
    var found := Discovered(g, names).value;
    SortedDistinct(found);
    forall x
      ensures x in found <==> exists r :: r in names && Connected(g, r, x)
    {
      if x in found {
        var r :| r in names && LookedAt(g, found, r) && (x == r || x in g[r]);
        ComponentOfClique(g, r, x);
      }
      if r :| r in names && Connected(g, r, x) {
        ComponentOfClique(g, r, x);
      }
    }
  }

  /** The set a connect works on has no recorded peer outside. */
  ghost predicate PeerClosed(g: Graph, ms: seq<Name>) {
    forall x, p :: x in ms && x in g && p in g[x] ==> p in ms
  }

  /** members always finds every recorded peer of what it finds if and only if every component is a
      full mesh: a peer found through another cluster is never asked for its own peers. */
  lemma ClosedForAllNamesIffCliques(g: Graph)
    requires Closed(g) && Symmetric(g)
    ensures (forall names :: |names| >= 2 && Distinct(names) && (forall r :: r in names ==> r in g)
                             ==> Discovered(g, names).Ok? && PeerClosed(g, Discovered(g, names).value))
       <==> Cliques(g)
  {
    forall names | forall r :: r in names ==> r in g
      ensures Discovered(g, names).Ok?
    {
      DiscoveredOk(g, names);
    }
    if Cliques(g) {
      forall names | forall r :: r in names ==> r in g
        ensures PeerClosed(g, Discovered(g, names).value)
      {
        CliqueDiscovers(g, names);
        DiscoveredMeans(g, names);
      }
    } else {
      var a, p, q :| a in g && p in g && p in g[a] && q in g[p] && q != a && q !in g[a];
      MissedPeer(g, a, p, q);
    }
  }

  lemma MissedPeer(g: Graph, a: Name, p: Name, q: Name)
    requires Closed(g) && a in g && p in g && p in g[a] && q in g[p] && q != a && q !in g[a]
    ensures Discovered(g, [a, p]).Ok? && !PeerClosed(g, Discovered(g, [a, p]).value)
    ensures |[a, p]| >= 2 && Distinct([a, p]) && forall r :: r in [a, p] ==> r in g
  {
    DiscoveredOk(g, [a, p]);
    assert [a, p][..1] == [a] && [a][..0] == [];
    assert Discovered(g, []) == Ok([]);
    DiscoveredOk(g, [a]);
    NamedMeans(g, [], a);
    var found := Discovered(g, [a]).value;
    assert found == AddNamed(g, [], a).value;
    NamedAgain(g, found, p);
    assert Discovered(g, [a, p]) == Ok(found);
  }

  // ---- connect

  lemma {:induction false} RecordedAt(g: Graph, ms: seq<Name>, k: nat, x: Name)
    requires Ascending(ms) && k <= |ms| && forall m :: m in ms ==> m in g
    ensures RecordUpTo(g, ms, k).Keys == g.Keys
    ensures x in g ==> RecordUpTo(g, ms, k)[x] == if x in ms[..k] then Others(ms, x) else g[x]
  {
    if k > 0 {
      hide Others;
      hide Ascending;
      RecordedAt(g, ms, k - 1, x);
      Snoc(ms[..k]);
      assert ms[..k][..k - 1] == ms[..k - 1];
      assert ms[k - 1] in ms;
    }
  }

  lemma OthersAre(ms: seq<Name>, self: Name)
    requires Ascending(ms)
    ensures Ascending(Others(ms, self))
    ensures forall x :: x in Others(ms, self) <==> x in ms && x != self
  {
    AscendingDistinct(ms);
    FilterDistinct(ms, (n: Name) => n != self);
    SortedDistinct(Filter(ms, (n: Name) => n != self));
  }

  /** After a connect every member lists exactly the other members, and no other record changed. */
  lemma ConnectRecords(g: Graph, ms: seq<Name>, x: Name)
    requires Ascending(ms) && (forall m :: m in ms ==> m in g) && x in g
    ensures RecordAll(g, ms).Keys == g.Keys
    ensures x in ms ==> forall y :: y in RecordAll(g, ms)[x] <==> y in ms && y != x
    ensures x !in ms ==> RecordAll(g, ms)[x] == g[x]
  {
    RecordedAt(g, ms, |ms|, x);
    assert ms[..|ms|] == ms;
    OthersAre(ms, x);
  }

  /** A connect of whole components leaves a union of full meshes again. */
  lemma ConnectKeepsCliques(g: Graph, ms: seq<Name>)
    requires Cliques(g) && Ascending(ms) && (forall m :: m in ms ==> m in g) && PeerClosed(g, ms)
    ensures Cliques(RecordAll(g, ms))
  {
    hide RecordUpTo;
    hide Others;
    var h := RecordAll(g, ms);
    forall x | x in g
      ensures h.Keys == g.Keys
      ensures x in ms ==> forall y :: y in h[x] <==> y in ms && y != x
      ensures x !in ms ==> h[x] == g[x]
    {
      ConnectRecords(g, ms, x);
    }
    assert h.Keys == g.Keys by {
      RecordedAt(g, ms, |ms|, "");
    }
    forall x, y | x in g && x !in ms && y in g[x]
      ensures y !in ms
    {
      assert x in g[y];
    }
  }

  /** On any symmetric record, connect keeps symmetry exactly when its members have no recorded peer
      outside: a member that loses such a peer is still listed by it. */
  lemma ConnectSymmetricIffClosed(g: Graph, ms: seq<Name>)
    requires Closed(g) && Symmetric(g) && Ascending(ms) && forall m :: m in ms ==> m in g
    ensures Symmetric(RecordAll(g, ms)) <==> PeerClosed(g, ms)
  {
    hide RecordUpTo;
    hide Others;
    var h := RecordAll(g, ms);
    forall x | x in g
      ensures h.Keys == g.Keys
      ensures x in ms ==> forall y :: y in h[x] <==> y in ms && y != x
      ensures x !in ms ==> h[x] == g[x]
    {
      ConnectRecords(g, ms, x);
    }
    assert h.Keys == g.Keys by {
      RecordedAt(g, ms, |ms|, "");
    }
    if !PeerClosed(g, ms) {
      var x, p :| x in ms && x in g && p in g[x] && p !in ms;
      assert x in g[p];
      assert x in h[p] && p !in h[x];
    }
    if PeerClosed(g, ms) {
      assert forall a, p :: a in g && p in g && p in g[a] && p in ms ==> a in g[p] && a in ms;
    }
  }

  // ---- a connect that stops halfway

  /** Some members' records are already the complete ones, the others are as before. */
  ghost predicate Between(g: Graph, ms: seq<Name>, cur: Graph) {
    && cur.Keys == g.Keys
    && forall x :: x in g ==> cur[x] == g[x] || (x in ms && cur[x] == Others(ms, x))
  }

  lemma BetweenPrefix(g: Graph, ms: seq<Name>, cur: Graph, k: nat)
    requires Ascending(ms) && k <= |ms| && (forall m :: m in ms ==> m in g)
    requires Between(g, ms, cur)
    ensures Between(g, ms, RecordUpTo(cur, ms, k))
    ensures RecordAll(cur, ms) == RecordAll(g, ms)
  {
    RecordedAt(cur, ms, k, "");
    RecordedAt(cur, ms, |ms|, "");
    RecordedAt(g, ms, |ms|, "");
    forall x | x in g
      ensures RecordUpTo(cur, ms, k)[x] == g[x] || (x in ms && RecordUpTo(cur, ms, k)[x] == Others(ms, x))
      ensures RecordAll(cur, ms)[x] == RecordAll(g, ms)[x]
    {
      BetweenAt(g, ms, cur, k, x);
    }
    hide RecordUpTo;
    hide Others;
  }

  lemma BetweenAt(g: Graph, ms: seq<Name>, cur: Graph, k: nat, x: Name)
    requires Ascending(ms) && k <= |ms| && (forall m :: m in ms ==> m in g)
    requires Between(g, ms, cur) && x in g
    ensures RecordUpTo(cur, ms, k).Keys == RecordAll(cur, ms).Keys == RecordAll(g, ms).Keys == g.Keys
    ensures RecordUpTo(cur, ms, k)[x] == g[x] || (x in ms && RecordUpTo(cur, ms, k)[x] == Others(ms, x))
    ensures RecordAll(cur, ms)[x] == RecordAll(g, ms)[x]
  {
    hide Others;
    hide Ascending;
    hide RecordUpTo;
    RecordedAt(cur, ms, k, x);
    RecordedAt(cur, ms, |ms|, x);
    RecordedAt(g, ms, |ms|, x);
    assert ms[..|ms|] == ms;
    assert x in ms[..k] ==> x in ms;
  }

  lemma MembersShape(g: Graph, names: seq<Name>, ms: seq<Name>)
    requires Cliques(g) && (forall r :: r in names ==> r in g) && MembersOf(g, names) == Ok(ms)
    ensures Ascending(ms) && (forall m :: m in ms ==> m in g) && (forall r :: r in names ==> r in ms)
    ensures PeerClosed(g, ms)
    ensures forall x :: x in ms ==> exists r :: r in names && (x == r || x in g[r])
  {
    CliqueDiscovers(g, names);
    DiscoveredMeans(g, names);
    var found := Discovered(g, names).value;
    SortedDistinct(found);
    forall x | x in ms
      ensures exists r :: r in names && (x == r || x in g[r])
    {
      var r :| r in names && LookedAt(g, found, r) && (x == r || x in g[r]);
    }
  }

  lemma BetweenShape(g: Graph, ms: seq<Name>, cur: Graph)
    requires Cliques(g) && Ascending(ms) && (forall m :: m in ms ==> m in g) && PeerClosed(g, ms)
    requires Between(g, ms, cur)
    ensures Closed(cur)
    ensures forall x, p :: x in ms && p in cur[x] ==> p in ms
    ensures forall x, p :: x in g && p in g[x] ==> p in cur[x]
  {
    hide Others;
    forall x | x in g
      ensures forall y :: y in Others(ms, x) <==> y in ms && y != x
    {
      OthersAre(ms, x);
    }
  }

  /** Whatever was looked at in the half-written state, everything in a found member's old component
      has been found: a complete record brings all members in at once, an old one its component. */
  lemma FoundComponent(g: Graph, names: seq<Name>, ms: seq<Name>, cur: Graph, found: seq<Name>, name: Name)
    requires Cliques(g) && Ascending(ms) && (forall m :: m in ms ==> m in g) && PeerClosed(g, ms)
    requires Between(g, ms, cur) && name in ms
    requires FromNamed(cur, names, found, name)
    ensures forall x :: x in g[name] ==> x in found
  {
    hide Others;
    var r :| r in names && LookedAt(cur, found, r) && (name == r || name in cur[r]);
    OthersAre(ms, r);
    forall x | x in g[name]
      ensures x in found
    {
      if cur[r] == g[r] {
        if name != r && x != r {
          assert x in g[r];
        }
      } else {
        assert x in ms;
      }
    }
  }

  lemma BetweenDiscovers(g: Graph, names: seq<Name>, ms: seq<Name>, cur: Graph)
    requires Cliques(g) && (forall r :: r in names ==> r in g) && MembersOf(g, names) == Ok(ms)
    requires Between(g, ms, cur)
    ensures Discovered(cur, names).Ok? && Distinct(Discovered(cur, names).value)
    ensures forall x :: x in Discovered(cur, names).value <==> x in ms
  {
    MembersShape(g, names, ms);
    BetweenShape(g, ms, cur);
    DiscoveredOk(cur, names);
    DiscoveredMeans(cur, names);
    var found := Discovered(cur, names).value;
    forall x | x in found
      ensures x in ms
    {
      var r :| r in names && LookedAt(cur, found, r) && (x == r || x in cur[r]);
    }
    forall x | x in ms
      ensures x in found
    {
      var r :| r in names && (x == r || x in g[r]);
      FoundComponent(g, names, ms, cur, found, r);
    }
  }

  /** Rerunning from a half-written state works on the same members and ends in the same records. */
  lemma RerunConnect(g: Graph, names: seq<Name>, ms: seq<Name>, cur: Graph)
    requires Cliques(g) && (forall r :: r in names ==> r in g) && MembersOf(g, names) == Ok(ms)
    requires Between(g, ms, cur)
    ensures MembersOf(cur, names) == Ok(ms)
    ensures RecordAll(cur, ms) == RecordAll(g, ms)
  {
    BetweenDiscovers(g, names, ms, cur);
    MembersShape(g, names, ms);
    SortedDistinct(Discovered(cur, names).value);
    AscendingUnique(Sorted(Discovered(cur, names).value), ms);
    BetweenPrefix(g, ms, cur, 0);
  }

  /** One connect of the same names that stops after `stop` records; refused ones change nothing. */
  function Attempt(g: Graph, names: seq<Name>, stop: nat): Graph {
    var ms := MembersOf(g, names);
    if ms.Err? then g else RecordUpTo(g, ms.value, if stop < |ms.value| then stop else |ms.value|)
  }

  function Attempts(g: Graph, names: seq<Name>, stops: seq<nat>): Graph {
    if stops == [] then g else Attempt(Attempts(g, names, stops[..|stops| - 1]), names, stops[|stops| - 1])
  }

  lemma {:induction false} AttemptsStayBetween(g: Graph, names: seq<Name>, ms: seq<Name>, stops: seq<nat>)
    requires Cliques(g) && (forall r :: r in names ==> r in g) && MembersOf(g, names) == Ok(ms)
    ensures Between(g, ms, Attempts(g, names, stops))
  {
    if stops != [] {
      hide Between;
      var before := Attempts(g, names, stops[..|stops| - 1]);
      var stop := stops[|stops| - 1];
      AttemptsStayBetween(g, names, ms, stops[..|stops| - 1]);
      RerunConnect(g, names, ms, before);
      MembersShape(g, names, ms);
      BetweenPrefix(g, ms, before, if stop < |ms| then stop else |ms|);
    } else {
      assert Between(g, ms, g);
    }
  }

  /** However often a connect of the same names is cut short and wherever, the run that completes
      finds the members the first one found and leaves the records it would have left. */
  lemma ConnectResumes(g: Graph, names: seq<Name>, stops: seq<nat>)
    requires Cliques(g) && forall r :: r in names ==> r in g
    ensures var cur := Attempts(g, names, stops);
            && MembersOf(g, names).Ok?
            && MembersOf(cur, names) == MembersOf(g, names)
            && RecordAll(cur, MembersOf(g, names).value) == RecordAll(g, MembersOf(g, names).value)
            && Cliques(RecordAll(cur, MembersOf(g, names).value))
  {
    hide RecordUpTo;
    DiscoveredOk(g, names);
    var ms := MembersOf(g, names).value;
    AttemptsStayBetween(g, names, ms, stops);
    RerunConnect(g, names, ms, Attempts(g, names, stops));
    MembersShape(g, names, ms);
    ConnectKeepsCliques(g, ms);
  }
}
