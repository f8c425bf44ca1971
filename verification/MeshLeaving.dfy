/** Parting clusters: disconnect, and the mesh phase of a delete, with their crashes. */
module MeshLeaving {
  import opened Basics
  import opened Sorting
  import opened Mesh
  import opened MeshGraph

  /** Every record is a sorted list, as record_peers leaves it. */
  ghost predicate Tidy(g: Graph) { forall x :: x in g ==> Ascending(g[x]) }

  /** What these writes take out of x's record. */
  function Dropped(ws: seq<Write>, x: Name): set<Name> { set w | w in ws && w.at == x :: w.drop }

  lemma DroppedAppend(a: seq<Write>, b: seq<Write>, x: Name)
    ensures Dropped(a + b, x) == Dropped(a, x) + Dropped(b, x)
  {
  }

  /** Writes only take peers out, and all that matters is which: a record afterwards is the old one
      without the peers dropped from it. */
  lemma {:induction false} WrittenMeans(g: Graph, ws: seq<Write>)
    requires Tidy(g)
    ensures Written(g, ws).Keys == g.Keys && Tidy(Written(g, ws))
    ensures forall x, p :: x in g ==> (p in Written(g, ws)[x] <==> p in g[x] && p !in Dropped(ws, x))
  {
    if ws != [] {
      var n := |ws| - 1;
      WrittenMeans(g, ws[..n]);
      Snoc(ws);
      var before, w := Written(g, ws[..n]), ws[n];
      forall x | x in g
        ensures Dropped(ws, x) == Dropped(ws[..n], x) + if w.at == x then {w.drop} else {}
      {
      }
      WriteOneMeans(before, w);
    }
  }

  lemma WriteOneMeans(g: Graph, w: Write)
    requires Tidy(g)
    ensures WriteOne(g, w).Keys == g.Keys && Tidy(WriteOne(g, w))
    ensures forall x, p :: x in g ==> (p in WriteOne(g, w)[x] <==> p in g[x] && !(x == w.at && p == w.drop))
  {
    if w.at in g {
      var keep := (p: Name) => p != w.drop;
      FilterAscending(g[w.at], keep);
      SortedAgain(Filter(g[w.at], keep));
    }
  }

  lemma SameRecords(g: Graph, h: Graph)
    requires Tidy(g) && Tidy(h) && g.Keys == h.Keys
    requires forall x, p :: x in g ==> (p in g[x] <==> p in h[x])
    ensures g == h
  {
    forall x | x in g
      ensures g[x] == h[x]
    {
      AscendingUnique(g[x], h[x]);
    }
  }

  // ---- disconnect

  function Parted(g: Graph, a: Name, b: Name): Graph { Written(g, DisconnectWrites(g, a, b)) }

  lemma PartedMeans(g: Graph, a: Name, b: Name)
    requires Tidy(g) && a in g && b in g && a != b
    ensures Parted(g, a, b).Keys == g.Keys && Tidy(Parted(g, a, b))
    ensures forall x, p :: x in g ==>
              (p in Parted(g, a, b)[x] <==> p in g[x] && !(x == a && p == b) && !(x == b && p == a))
  {
    var ws := DisconnectWrites(g, a, b);
    WrittenMeans(g, ws);
    forall x | x in g
      ensures Dropped(ws, x) == if x == a then {b} else if x == b then {a} else {}
    {
      assert ws[0] in ws && ws[1] in ws;
    }
  }

  /** A completed disconnect keeps the record symmetric; it keeps it a union of full meshes exactly
      when the two were a mesh of their own. */
  lemma DisconnectKeeps(g: Graph, a: Name, b: Name)
    requires Tidy(g) && a in g && b in g && a != b
    ensures Closed(g) && Symmetric(g) ==> Closed(Parted(g, a, b)) && Symmetric(Parted(g, a, b))
    ensures Cliques(g) && b in g[a] ==> (Cliques(Parted(g, a, b)) <==> g[a] == [b])
  {
    PartedMeans(g, a, b);
    if Cliques(g) && b in g[a] {
      var h := Parted(g, a, b);
      if c :| c in g[a] && c != b {
        assert a in g[c] && b in g[c];
        assert c in h[a] && b in h[c] && b !in h[a];
        assert !Transitive(h);
        assert g[a] != [b] by {
          assert c !in [b];
        }
      } else {
        AscendingDistinct(g[a]);
        OneOrTwo(g[a]);
      }
    }
  }

  lemma OneOrTwo(s: seq<Name>)
    requires Distinct(s)
    ensures |s| <= 1 || (s[0] in s && s[1] in s && s[0] != s[1])
  {
  }

  /** A crash between the two writes: the pair is recorded on one side only, naming the clusters in
      the same order is refused, and naming them the other way round completes the disconnect. */
  lemma HalfDisconnect(g: Graph, a: Name, b: Name)
    requires Tidy(g) && a in g && b in g && a != b && b in g[a] && a in g[b]
    ensures var cur := Written(g, FirstOf(DisconnectWrites(g, a, b), 1));
            && cur.Keys == g.Keys
            && b !in cur[a] && a in cur[b]
            && Parted(cur, b, a) == Parted(g, a, b)
  {
    var ws := DisconnectWrites(g, a, b);
    var half := FirstOf(ws, 1);
    assert half == [Write(a, b)];
    WrittenMeans(g, half);
    var cur := Written(g, half);
    forall x
      ensures Dropped(half, x) == if x == a then {b} else {}
    {
      assert half[0] in half;
    }
    PartedMeans(g, a, b);
    PartedMeans(cur, b, a);
    SameRecords(Parted(cur, b, a), Parted(g, a, b));
  }

  // ---- leaving every peer before a delete

  function Left(g: Graph, c: Name, running: bool, reachable: set<Name>): Graph
    requires c in g
  {
    Written(g, LeaveWrites(c, g[c], running, reachable))
  }

  lemma {:induction false} LeaveDrops(c: Name, peers: seq<Name>, running: bool, reachable: set<Name>, x: Name)
    requires c !in peers
    ensures Dropped(LeaveWrites(c, peers, running, reachable), x) ==
            if x == c then Set(peers) else if x in reachable && x in peers then {c} else {}
  {
    if peers != [] {
      var n := |peers| - 1;
      Snoc(peers);
      LeaveDrops(c, peers[..n], running, reachable, x);
      var ws := PartWrites(c, peers[n], running, reachable);
      DroppedAppend(LeaveWrites(c, peers[..n], running, reachable), ws, x);
      PartDrops(c, peers[n], running, reachable, x);
      assert Set(peers) == Set(peers[..n]) + {peers[n]};
    }
  }

  lemma PartDrops(c: Name, peer: Name, running: bool, reachable: set<Name>, x: Name)
    requires c != peer
    ensures Dropped(PartWrites(c, peer, running, reachable), x) ==
            if x == c then {peer} else if x == peer && peer in reachable then {c} else {}
  {
    var ws := PartWrites(c, peer, running, reachable);
    assert Write(c, peer) in ws;
    assert peer in reachable ==> Write(peer, c) in ws;
  }

  /** Afterwards the deleted cluster lists nobody, every peer that could be reached has forgotten it
      and nothing else, and all other records are untouched. */
  lemma LeaveMeans(g: Graph, c: Name, running: bool, reachable: set<Name>)
    requires Tidy(g) && c in g && c !in g[c]
    ensures var h := Left(g, c, running, reachable);
            && h.Keys == g.Keys && Tidy(h)
            && h[c] == []
            && forall x, p :: x in g && x != c ==>
                 (p in h[x] <==> p in g[x] && !(p == c && x in reachable && x in g[c]))
  {
    var ws := LeaveWrites(c, g[c], running, reachable);
    WrittenMeans(g, ws);
    forall x
      ensures Dropped(ws, x) == if x == c then Set(g[c]) else if x in reachable && x in g[c] then {c} else {}
    {
      LeaveDrops(c, g[c], running, reachable, x);
    }
    var h := Written(g, ws);
    EmptyOrHead(h[c]);
  }

  /** At every cut a reachable peer dropped from the leaver's record has forgotten it too, unless the
      leaver runs and the peer's own write was the next one. */
  lemma {:induction false} OnlyTheNext(c: Name, peers: seq<Name>, running: bool, reachable: set<Name>, k: nat, p: Name)
    requires c !in peers && p in reachable
    requires k <= |LeaveWrites(c, peers, running, reachable)|
    requires var done := LeaveWrites(c, peers, running, reachable)[..k]; Write(c, p) in done && Write(p, c) !in done
    ensures running && LeaveWrites(c, peers, running, reachable)[k - 1] == Write(c, p)
  {
    var n := |peers| - 1;
    var before := LeaveWrites(c, peers[..n], running, reachable);
    var part := PartWrites(c, peers[n], running, reachable);
    var all := before + part;
    if k <= |before| {
      assert all[..k] == before[..k];
      OnlyTheNext(c, peers[..n], running, reachable, k, p);
    } else {
      assert all[..k] == before + part[..k - |before|];
      assert all[k - 1] == part[k - |before| - 1];
      if Write(c, p) in before {
        WholeParts(c, peers[..n], running, reachable, p);
      } else {
        assert Write(c, p) in part[..k - |before|];
        assert part[0] in part[..k - |before|];
      }
    }
  }

  /** Uncut, a reachable peer dropped from the leaver's record is told as well. */
  lemma {:induction false} WholeParts(c: Name, peers: seq<Name>, running: bool, reachable: set<Name>, p: Name)
    requires c !in peers && p in reachable && Write(c, p) in LeaveWrites(c, peers, running, reachable)
    ensures Write(p, c) in LeaveWrites(c, peers, running, reachable)
  {
    var n := |peers| - 1;
    var part := PartWrites(c, peers[n], running, reachable);
    if Write(c, p) in part {
      assert peers[n] == p;
      assert part[0] in part && part[1] in part;
    } else {
      WholeParts(c, peers[..n], running, reachable, p);
    }
  }

  /** A reachable peer whose own write was the next one when the phase was cut. */
  ghost predicate Stale(g: Graph, c: Name, reachable: set<Name>, done: seq<Write>, x: Name)
    requires c in g && x in g
  {
    x in g[c] && x in reachable && c in g[x] && Write(c, x) in done && Write(x, c) !in done
  }

  lemma CutMeans(g: Graph, c: Name, running: bool, reachable: set<Name>, k: nat)
    requires Tidy(g) && c in g && c !in g[c]
    requires k <= |LeaveWrites(c, g[c], running, reachable)|
    ensures var done := LeaveWrites(c, g[c], running, reachable)[..k];
            var cur := Written(g, done);
            && cur.Keys == g.Keys && Tidy(cur) && c !in cur[c]
            && (forall p :: p in cur[c] <==> p in g[c] && Write(c, p) !in done)
            && (forall x, p :: x in g && x != c ==> (p in cur[x] <==> p in g[x] && !(p == c && Write(x, c) in done)))
            && (forall x :: Write(x, c) in done ==> x in reachable && x in g[c])
  {
    var ws := LeaveWrites(c, g[c], running, reachable);
    var done := ws[..k];
    WrittenMeans(g, done);
    forall x, p
      ensures p in Dropped(done, x) <==> Write(x, p) in done
      ensures Write(x, p) in done ==> if x == c then p in g[c] else x in reachable && x in g[c] && p == c
    {
      LeaveDrops(c, g[c], running, reachable, x);
      if Write(x, p) in done {
        assert Write(x, p) in ws;
        assert p in Dropped(ws, x);
      }
    }
  }

  /** A mesh phase cut after k writes and run again: it ends as an uncut one, except that a peer whose
      own write was the next one keeps listing the deleted cluster. That can only happen when the
      deleted cluster was running; a stopped one's phase always resumes. */
  lemma LeaveResumes(g: Graph, c: Name, running: bool, reachable: set<Name>, k: nat)
    requires Tidy(g) && c in g && c !in g[c]
    requires k <= |LeaveWrites(c, g[c], running, reachable)|
    ensures var done := LeaveWrites(c, g[c], running, reachable)[..k];
            c in Written(g, done) && Left(Written(g, done), c, running, reachable).Keys == g.Keys == Left(g, c, running, reachable).Keys
    ensures var done := LeaveWrites(c, g[c], running, reachable)[..k];
            var full, resumed := Left(g, c, running, reachable), Left(Written(g, done), c, running, reachable);
            && (forall x, p :: x in g && p != c ==> (p in resumed[x] <==> p in full[x]))
            && (forall x :: x in g ==> (c in resumed[x] <==> c in full[x] || Stale(g, c, reachable, done, x)))
            && (!running ==> resumed == full)
  {
    var done := LeaveWrites(c, g[c], running, reachable)[..k];
    var cur := Written(g, done);
    CutMeans(g, c, running, reachable, k);
    LeaveMeans(g, c, running, reachable);
    LeaveMeans(cur, c, running, reachable);
    var full, resumed := Left(g, c, running, reachable), Left(cur, c, running, reachable);
    hide Left;
    hide LeaveWrites;
    hide Written;
    if !running {
      NeverStale(g, c, reachable, k);
      SameRecords(resumed, full);
    }
  }

  lemma NeverStale(g: Graph, c: Name, reachable: set<Name>, k: nat)
    requires Tidy(g) && c in g && c !in g[c]
    requires k <= |LeaveWrites(c, g[c], false, reachable)|
    ensures forall x :: x in g ==> !Stale(g, c, reachable, LeaveWrites(c, g[c], false, reachable)[..k], x)
  {
    var done := LeaveWrites(c, g[c], false, reachable)[..k];
    forall x | x in reachable && Write(c, x) in done
      ensures Write(x, c) in done
    {
      if Write(x, c) !in done {
        OnlyTheNext(c, g[c], false, reachable, k, x);
        assert false;
      }
    }
  }

  // ---- any number of attempts, whose answers may change

  /** One attempt at the mesh phase: whether the leaver runs, who can be reached, and its cut. */
  datatype Attempt = Attempt(running: bool, reachable: set<Name>, stop: nat)

  function AttemptWrites(g: Graph, c: Name, a: Attempt): seq<Write> {
    FirstOf(LeaveWrites(c, if c in g then g[c] else [], a.running, a.reachable), a.stop)
  }

  /** All writes of the attempts: each one reads the record the earlier ones left. */
  function AllWrites(g: Graph, c: Name, attempts: seq<Attempt>): seq<Write> {
    if attempts == [] then []
    else
      var before := AllWrites(g, c, attempts[..|attempts| - 1]);
      before + AttemptWrites(Written(g, before), c, attempts[|attempts| - 1])
  }

  lemma DroppedIsWritten(ws: seq<Write>, x: Name, p: Name)
    ensures p in Dropped(ws, x) <==> Write(x, p) in ws
  {
  }

  /** No attempt writes anything but the leaver's own entries and those of its peers about it. */
  lemma {:induction false} AllOwn(g: Graph, c: Name, attempts: seq<Attempt>)
    requires Tidy(g) && c in g && c !in g[c]
    ensures var ws := AllWrites(g, c, attempts); var cur := Written(g, ws);
            && cur.Keys == g.Keys && Tidy(cur) && c !in cur[c]
            && (forall p :: p in cur[c] <==> p in g[c] && Write(c, p) !in ws)
            && (forall x, p :: Write(x, p) in ws ==> if x == c then p in g[c] else p == c && x in g[c])
  {
    var ws := AllWrites(g, c, attempts);
    if attempts == [] {
    } else {
      var n := |attempts| - 1;
      var before := AllWrites(g, c, attempts[..n]);
      AllOwn(g, c, attempts[..n]);
      OneOwn(Written(g, before), c, attempts[n]);
    }
    WrittenMeans(g, ws);
    forall p
      ensures p in Dropped(ws, c) <==> Write(c, p) in ws
    {
      DroppedIsWritten(ws, c, p);
    }
  }

  lemma OneOwn(g: Graph, c: Name, a: Attempt)
    requires c in g && c !in g[c]
    ensures forall x, p :: Write(x, p) in AttemptWrites(g, c, a) ==> if x == c then p in g[c] else p == c && x in g[c]
  {
    var ws := LeaveWrites(c, g[c], a.running, a.reachable);
    forall x, p | Write(x, p) in AttemptWrites(g, c, a)
      ensures if x == c then p in g[c] else p == c && x in g[c]
    {
      assert Write(x, p) in ws;
      assert p in Dropped(ws, x);
      LeaveDrops(c, g[c], a.running, a.reachable, x);
    }
  }

  /** The attempt dropped x while x could not be reached, or was cut right before x's own write. */
  predicate Misses(c: Name, a: Attempt, done: seq<Write>, x: Name) {
    && Write(c, x) in done
    && (x !in a.reachable || (a.running && done[|done| - 1] == Write(c, x)))
  }

  function DoneAt(g: Graph, c: Name, attempts: seq<Attempt>, i: nat): seq<Write>
    requires i < |attempts|
  {
    AttemptWrites(Written(g, AllWrites(g, c, attempts[..i])), c, attempts[i])
  }

  ghost predicate MissedBy(g: Graph, c: Name, attempts: seq<Attempt>, i: nat, x: Name) {
    i < |attempts| && Misses(c, attempts[i], DoneAt(g, c, attempts, i), x)
  }

  lemma OneMisses(g: Graph, c: Name, a: Attempt, x: Name)
    requires c in g && c !in g[c]
    requires Write(c, x) in AttemptWrites(g, c, a) && Write(x, c) !in AttemptWrites(g, c, a)
    ensures Misses(c, a, AttemptWrites(g, c, a), x)
  {
    var ws := LeaveWrites(c, g[c], a.running, a.reachable);
    var k := if a.stop < |ws| then a.stop else |ws|;
    assert AttemptWrites(g, c, a) == ws[..k];
    if x in a.reachable {
      OnlyTheNext(c, g[c], a.running, a.reachable, k, x);
    }
  }

  /** A peer dropped but never told was missed by one of the attempts. */
  lemma {:induction false} DroppedUntold(g: Graph, c: Name, attempts: seq<Attempt>, x: Name) returns (i: nat)
    requires Tidy(g) && c in g && c !in g[c]
    requires Write(c, x) in AllWrites(g, c, attempts) && Write(x, c) !in AllWrites(g, c, attempts)
    ensures MissedBy(g, c, attempts, i, x)
  {
    var n := |attempts| - 1;
    var before := AllWrites(g, c, attempts[..n]);
    if Write(c, x) in before {
      i := DroppedUntold(g, c, attempts[..n], x);
      assert attempts[..n][..i] == attempts[..i];
    } else {
      AllOwn(g, c, attempts[..n]);
      OneMisses(Written(g, before), c, attempts[n], x);
      i := n;
    }
  }

  /** Any number of cut mesh phases, with answers that change from one to the next, and then a whole
      one: the leaver lists nobody, nothing but entries about it has changed, and a listed peer still
      lists it only if it was dropped while unreachable or right before a cut of a running leaver. In
      particular no cut ever hurts a stopped leaver whose peers can be reached. */
  lemma LeavesResume(g: Graph, c: Name, attempts: seq<Attempt>, running: bool, reachable: set<Name>)
    requires Tidy(g) && c in g && c !in g[c]
    ensures c in Written(g, AllWrites(g, c, attempts))
    ensures var ws := AllWrites(g, c, attempts);
            var end := Left(Written(g, ws), c, running, reachable);
            && end.Keys == g.Keys && Tidy(end) && end[c] == []
            && (forall x, p :: x in g && x != c && p != c ==> (p in end[x] <==> p in g[x]))
            && (forall x :: x in g && x != c ==>
                  (c in end[x] <==>
                   c in g[x] && Write(x, c) !in ws && (x in g[c] && x in reachable ==> Write(c, x) in ws)))
            && (forall x :: x in g && x in g[c] && c in end[x] ==>
                  x !in reachable || exists i :: MissedBy(g, c, attempts, i, x))
  {
    var ws := AllWrites(g, c, attempts);
    var cur := Written(g, ws);
    AllOwn(g, c, attempts);
    WrittenMeans(g, ws);
    LeaveMeans(cur, c, running, reachable);
    var end := Left(cur, c, running, reachable);
    forall x | x in g && x != c
      ensures c in end[x] <==>
              c in g[x] && Write(x, c) !in ws && (x in g[c] && x in reachable ==> Write(c, x) in ws)
      ensures forall p :: p != c ==> (p in end[x] <==> p in g[x])
    {
      forall p
        ensures p in Dropped(ws, x) <==> Write(x, p) in ws
      {
        DroppedIsWritten(ws, x, p);
      }
    }
    forall x | x in g && x in g[c] && c in end[x] && x in reachable
      ensures exists i :: MissedBy(g, c, attempts, i, x)
    {
      var i := DroppedUntold(g, c, attempts, x);
    }
  }
}
