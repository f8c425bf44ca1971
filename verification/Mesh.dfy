/** The Cluster Mesh peer graph (mesh/ops.py, and the mesh phase of delete.py): which clusters a
    connect works on, the records it writes one at a time, and how clusters leave. */
module Mesh {
  import opened Basics
  import opened Sorting

  type Name = string

  /** status.mesh of every cluster that has a cluster.yaml on this operator. */
  type Graph = map<Name, seq<Name>>

  datatype MeshError = ClusterNotFound(name: Name) | PeerNotFound(peer: Name, of: Name) | NotReady | NotConnected

  // ---- members: the named clusters and the peers they already have

  /** The peers of `name` that are new, appended in order; a peer without a file is refused. */
  function AddPeers(g: Graph, found: seq<Name>, peers: seq<Name>, name: Name): (r: Result<seq<Name>, MeshError>)
    ensures r.Ok? ==> found <= r.value
  {
    if peers == [] then Ok(found)
    else
      var before :- AddPeers(g, found, peers[..|peers| - 1], name);
      var peer := peers[|peers| - 1];
      if peer in before then Ok(before)
      else if peer !in g then Err(PeerNotFound(peer, name))
      else Ok(before + [peer])
  }

  /** One named cluster: nothing if it has been found, else itself and its peers. */
  function AddNamed(g: Graph, found: seq<Name>, name: Name): (r: Result<seq<Name>, MeshError>)
    ensures r.Ok? ==> found <= r.value
  {
    if name in found then Ok(found)
    else if name !in g then Err(ClusterNotFound(name))
    else AddPeers(g, found + [name], g[name], name)
  }

  /** The discovered clusters in the order they were found: a peer is found before its own peers are
      looked at, so those are looked at only if it is named before anyone lists it. */
  function Discovered(g: Graph, names: seq<Name>): Result<seq<Name>, MeshError> {
    if names == [] then Ok([])
    else
      var found :- Discovered(g, names[..|names| - 1]);
      AddNamed(g, found, names[|names| - 1])
  }

  function MembersOf(g: Graph, names: seq<Name>): Result<seq<Name>, MeshError> {
    var found :- Discovered(g, names);
    Ok(Sorted(found))
  }

  lemma {:induction false} DiscoveredStops(g: Graph, names: seq<Name>, k: nat)
    requires k <= |names| && Discovered(g, names[..k]).Err?
    ensures Discovered(g, names) == Discovered(g, names[..k])
  {
    if k < |names| {
      assert names[..|names| - 1][..k] == names[..k];
      DiscoveredStops(g, names[..|names| - 1], k);
    } else {
      assert names[..k] == names;
    }
  }

  lemma {:induction false} AddPeersStops(g: Graph, found: seq<Name>, peers: seq<Name>, name: Name, k: nat)
    requires k <= |peers| && AddPeers(g, found, peers[..k], name).Err?
    ensures AddPeers(g, found, peers, name) == AddPeers(g, found, peers[..k], name)
  {
    if k < |peers| {
      assert peers[..|peers| - 1][..k] == peers[..k];
      AddPeersStops(g, found, peers[..|peers| - 1], name, k);
    } else {
      assert peers[..k] == peers;
    }
  }

  lemma {:induction false} AddPeersFinds(g: Graph, found: seq<Name>, peers: seq<Name>, name: Name)
    requires Distinct(found) && AddPeers(g, found, peers, name).Ok?
    requires forall x :: x in found ==> x in g
    ensures var r := AddPeers(g, found, peers, name).value;
            && Distinct(r)
            && (forall x :: x in r <==> x in found || x in peers)
            && (forall x :: x in r ==> x in g)
  {
    if peers != [] {
      var n := |peers| - 1;
      AddPeersFinds(g, found, peers[..n], name);
      Snoc(peers);
      var before := AddPeers(g, found, peers[..n], name).value;
      if peers[n] !in before {
        DistinctAppend(before, [peers[n]]);
      }
    }
  }

  lemma {:induction false} AddPeersFails(g: Graph, found: seq<Name>, peers: seq<Name>, name: Name)
    requires AddPeers(g, found, peers, name).Err?
    ensures exists peer :: AddPeers(g, found, peers, name) == Err(PeerNotFound(peer, name)) && peer in peers && peer !in g
  {
    var n := |peers| - 1;
    if AddPeers(g, found, peers[..n], name).Err? {
      AddPeersFails(g, found, peers[..n], name);
    }
  }

  /** members fails on a cluster that was named and does not exist, or on a recorded peer of a named one
      that does not, and says which. */
  lemma {:induction false} MembersFails(g: Graph, names: seq<Name>)
    requires MembersOf(g, names).Err?
    ensures var e := MembersOf(g, names).error;
            || (e.ClusterNotFound? && e.name in names && e.name !in g)
            || (e.PeerNotFound? && e.of in names && e.of in g && e.peer in g[e.of] && e.peer !in g)
  {
    var n := |names| - 1;
    Snoc(names);
    if Discovered(g, names[..n]).Err? {
      MembersFails(g, names[..n]);
    } else if names[n] in g {
      AddPeersFails(g, Discovered(g, names[..n]).value + [names[n]], g[names[n]], names[n]);
    }
  }

  ghost predicate WellFound(g: Graph, found: seq<Name>) {
    Distinct(found) && forall x :: x in found ==> x in g
  }

  lemma DiscoveredNone(g: Graph, names: seq<Name>)
    ensures names[..0] == [] && Discovered(g, names[..0]) == Ok([])
  {
  }

  lemma DiscoveredNext(g: Graph, names: seq<Name>, k: nat)
    requires k < |names| && Discovered(g, names[..k]).Ok?
    ensures Discovered(g, names[..k + 1]) == AddNamed(g, Discovered(g, names[..k]).value, names[k])
  {
    assert names[..k + 1][..k] == names[..k];
  }

  lemma NamedAgain(g: Graph, found: seq<Name>, name: Name)
    ensures name in found ==> AddNamed(g, found, name) == Ok(found)
  {
  }

  lemma NamedUnknown(g: Graph, found: seq<Name>, name: Name)
    requires name !in found && name !in g
    ensures AddNamed(g, found, name) == Err(ClusterNotFound(name))
  {
  }

  lemma NamedNew(g: Graph, found: seq<Name>, name: Name)
    requires name !in found && name in g && WellFound(g, found)
    ensures AddNamed(g, found, name) == AddPeers(g, found + [name], g[name], name)
    ensures WellFound(g, found + [name])
  {
    DistinctAppend(found, [name]);
  }

  /** More clusters found, and never more than there are. */
  lemma StillWellFound(g: Graph, before: seq<Name>, after: seq<Name>)
    requires WellFound(g, before) && WellFound(g, after)
    ensures |before| <= |g| && |after| <= |g|
  {
    DistinctCount(before);
    DistinctCount(after);
    Subset(Set(before), g.Keys);
    Subset(Set(after), g.Keys);
  }

  lemma Subset<T>(a: set<T>, b: set<T>)
    requires a <= b
    ensures |a| <= |b|
  {
    assert b == a + (b - a);
  }

  /** The state of one operator's cluster.yaml files, as far as the mesh goes. */
  class Operator {
    var mesh: Graph

    constructor (g: Graph)
      ensures mesh == g
    {
      mesh := g;
    }

    /** members: a worklist of names; every peer discovered is put on it too. Ends because each
        round either finds a cluster that had not been found or shortens the list. */
    method Members(names: seq<Name>) returns (r: Result<seq<Name>, MeshError>)
      ensures r == MembersOf(mesh, names)
    {
      hide AddNamed;
      hide Discovered;
      var found: seq<Name> := [];
      var todo := names;
      ghost var k, tail := 0, [];
      DiscoveredNone(mesh, names);
      while todo != []
        invariant 0 <= k <= |names| && todo == names[k..] + tail
        invariant forall x :: x in tail ==> x in found
        invariant Discovered(mesh, names[..k]) == Ok(found)
        invariant WellFound(mesh, found)
        decreases |mesh| - |found|, |todo|
      {
        var name := todo[0];
        if k < |names| {
          DiscoveredNext(mesh, names, k);
          k := k + 1;
        } else {
          NamedAgain(mesh, found, name);
          tail := tail[1..];
        }
        todo := todo[1..];
        if name in found {
          NamedAgain(mesh, found, name);
          continue;
        }
        if name !in mesh {
          NamedUnknown(mesh, found, name);
          DiscoveredStops(mesh, names, k);
          return Err(ClusterNotFound(name));
        }
        NamedNew(mesh, found, name);
        ghost var before := found;
        found := found + [name];
        var grown, appended := FindPeers(found, mesh[name], name);
        if grown.Err? {
          DiscoveredStops(mesh, names, k);
          return Err(grown.error);
        }
        StillWellFound(mesh, before, grown.value);
        found := grown.value;
        todo := todo + appended;
        tail := tail + appended;
      }
      assert names[..k] == names;
      return Ok(Sorted(found));
    }

    /** The peers of one cluster: those not yet found are found and appended to the worklist. */
    method FindPeers(found0: seq<Name>, peers: seq<Name>, name: Name) returns (r: Result<seq<Name>, MeshError>,
            appended: seq<Name>)
      requires WellFound(mesh, found0)
      ensures r == AddPeers(mesh, found0, peers, name)
      ensures r.Ok? ==> WellFound(mesh, r.value) && forall x :: x in appended ==> x in r.value
    {
      var found := found0;
      appended := [];
      for i := 0 to |peers|
        invariant AddPeers(mesh, found0, peers[..i], name) == Ok(found)
        invariant forall x :: x in appended ==> x in found
      {
        assert peers[..i + 1][..i] == peers[..i];
        var peer := peers[i];
        if peer in found {
          continue;
        }
        if peer !in mesh {
          AddPeersStops(mesh, found0, peers, name, i + 1);
          return Err(PeerNotFound(peer, name)), appended;
        }
        found := found + [peer];
        appended := appended + [peer];
      }
      assert peers[..|peers|] == peers;
      AddPeersFinds(mesh, found0, peers, name);
      return Ok(found), appended;
    }

    method RecordPeers(name: Name, peers: seq<Name>)
      modifies this
      ensures mesh == old(mesh)[name := Sorted(peers)]
    {
      mesh := mesh[name := Sorted(peers)];
    }

    /** The recording part of connect, interrupted after `stop` records. Nothing is recorded when a
        cluster is not ready or cilium refuses. */
    method Connect(names: seq<Name>, ready: bool, stop: nat) returns (r: Result<seq<Name>, MeshError>)
      modifies this
      ensures r.Ok? <==> MembersOf(old(mesh), names).Ok? && ready
      ensures r.Ok? ==> r == MembersOf(old(mesh), names) && mesh == RecordUpTo(old(mesh), r.value, if stop < |r.value| then stop else |r.value|)
      ensures r.Err? ==> mesh == old(mesh)
    {
      hide MembersOf;
      hide Sorted;
      r := Members(names);
      if r.Err? {
        return;
      }
      if !ready {
        return Err(NotReady);
      }
      var ms := r.value;
      var i := 0;
      while i < |ms| && i < stop
        invariant 0 <= i <= |ms| && i <= stop
        invariant mesh == RecordUpTo(old(mesh), ms, i)
      {
        var self := ms[i];
        RecordPeers(self, Filter(ms, (n: Name) => n != self));
        i := i + 1;
      }
    }

    /** disconnect A B: A's record first, then B's; B's side is skipped when B has no file. A crash
        leaves the first `stop` of these writes. */
    method Disconnect(a: Name, b: Name, stop: nat) returns (r: Result<(), MeshError>)
      requires a != b
      modifies this
      ensures r.Ok? <==> a in old(mesh) && b in old(mesh)[a]
      ensures r.Err? ==> mesh == old(mesh)
      ensures r.Ok? ==> mesh == Written(old(mesh), FirstOf(DisconnectWrites(old(mesh), a, b), stop))
    {
      if a !in mesh {
        return Err(ClusterNotFound(a));
      }
      if b !in mesh[a] {
        return Err(NotConnected);
      }
      ghost var g, ws := mesh, DisconnectWrites(mesh, a, b);
      WrittenOne(g, Write(a, b));
      r := Ok(());
      if stop == 0 {
        return;
      }
      RecordPeers(a, Filter(mesh[a], (p: Name) => p != b));
      assert FirstOf(ws, 1) == [Write(a, b)];
      if b in mesh {
        assert ws == [Write(a, b), Write(b, a)];
        WrittenSnoc(g, [Write(a, b)], Write(b, a));
        if stop > 1 {
          RecordPeers(b, Filter(mesh[b], (p: Name) => p != a));
          assert FirstOf(ws, stop) == [Write(a, b)] + [Write(b, a)];
        }
      }
    }

    /** One record written without one of its peers. */
    method Drop(ghost g: Graph, ghost done: seq<Write>, w: Write)
      requires mesh == Written(g, done) && w.at in mesh
      modifies this
      ensures mesh == Written(g, done + [w]) && mesh.Keys == old(mesh).Keys
    {
      WrittenSnoc(g, done, w);
      RecordPeers(w.at, Filter(mesh[w.at], (p: Name) => p != w.drop));
    }

    /** The mesh phase of deleting c: for every peer in its list, the writes that part them.
        `running` and `reachable` are what the hosts answer. */
    method Leave(c: Name, running: bool, reachable: set<Name>)
      requires c in mesh && reachable <= mesh.Keys
      modifies this
      ensures mesh == Written(old(mesh), LeaveWrites(c, old(mesh)[c], running, reachable))
    {
      hide Written;
      hide LeaveWrites;
      var peers := mesh[c];
      LeaveNone(old(mesh), c, peers, running, reachable);
      for i := 0 to |peers|
        invariant mesh == Written(old(mesh), LeaveWrites(c, peers[..i], running, reachable))
        invariant mesh.Keys == old(mesh).Keys
      {
        var peer := peers[i];
        ghost var done := LeaveWrites(c, peers[..i], running, reachable);
        LeaveNext(c, peers, i, running, reachable);
        if peer !in reachable {
          Drop(old(mesh), done, Write(c, peer));
        } else if running {
          Drop(old(mesh), done, Write(c, peer));
          Drop(old(mesh), done + [Write(c, peer)], Write(peer, c));
          Associative(done, [Write(c, peer)], [Write(peer, c)]);
          assert [Write(c, peer)] + [Write(peer, c)] == PartWrites(c, peer, running, reachable);
        } else {
          Drop(old(mesh), done, Write(peer, c));
          Drop(old(mesh), done + [Write(peer, c)], Write(c, peer));
          Associative(done, [Write(peer, c)], [Write(c, peer)]);
          assert [Write(peer, c)] + [Write(c, peer)] == PartWrites(c, peer, running, reachable);
        }
      }
      assert peers[..|peers|] == peers;
    }
  }

  // ---- the records a connect writes

  function Others(ms: seq<Name>, self: Name): seq<Name> { Sorted(Filter(ms, (n: Name) => n != self)) }

  function RecordUpTo(g: Graph, ms: seq<Name>, k: nat): Graph
    requires k <= |ms|
  {
    if k == 0 then g else RecordUpTo(g, ms, k - 1)[ms[k - 1] := Others(ms, ms[k - 1])]
  }

  function RecordAll(g: Graph, ms: seq<Name>): Graph { RecordUpTo(g, ms, |ms|) }

  // ---- single writes

  /** The record of `at` loses `drop`. */
  datatype Write = Write(at: Name, drop: Name)

  function WriteOne(g: Graph, w: Write): Graph {
    if w.at in g then g[w.at := Sorted(Filter(g[w.at], (p: Name) => p != w.drop))] else g
  }

  function Written(g: Graph, ws: seq<Write>): Graph {
    if ws == [] then g else WriteOne(Written(g, ws[..|ws| - 1]), ws[|ws| - 1])
  }

  function FirstOf<T>(s: seq<T>, n: nat): seq<T> { if n < |s| then s[..n] else s }

  lemma WrittenSnoc(g: Graph, ws: seq<Write>, w: Write)
    ensures Written(g, ws + [w]) == WriteOne(Written(g, ws), w)
  {
    assert (ws + [w])[..|ws|] == ws;
  }

  /** A dropped entry goes from its record, which comes out sorted, and from no other. */
  lemma WriteOneMeans(g: Graph, w: Write)
    requires w.at in g && Distinct(g[w.at])
    ensures WriteOne(g, w).Keys == g.Keys && Ascending(WriteOne(g, w)[w.at])
    ensures forall p :: p in WriteOne(g, w)[w.at] <==> p in g[w.at] && p != w.drop
    ensures forall x :: x in g && x != w.at ==> WriteOne(g, w)[x] == g[x]
  {
    var kept := Filter(g[w.at], (p: Name) => p != w.drop);
    FilterDistinct(g[w.at], (p: Name) => p != w.drop);
    SortedDistinct(kept);
    hide Sorted;
  }

  lemma WrittenOne(g: Graph, w: Write)
    ensures Written(g, [w]) == WriteOne(g, w)
    ensures Written(g, []) == g
  {
    assert [] + [w] == [w];
    WrittenSnoc(g, [], w);
  }

  function DisconnectWrites(g: Graph, a: Name, b: Name): seq<Write> {
    if b in g then [Write(a, b), Write(b, a)] else [Write(a, b)]
  }

  /** Leaving one peer: a peer that cannot be reached keeps its record; both running, the leaver's
      record goes first; the leaver down, the peer's does. */
  function PartWrites(c: Name, peer: Name, running: bool, reachable: set<Name>): seq<Write> {
    if peer !in reachable then [Write(c, peer)]
    else if running then [Write(c, peer), Write(peer, c)]
    else [Write(peer, c), Write(c, peer)]
  }

  function LeaveWrites(c: Name, peers: seq<Name>, running: bool, reachable: set<Name>): seq<Write> {
    if peers == [] then []
    else LeaveWrites(c, peers[..|peers| - 1], running, reachable) + PartWrites(c, peers[|peers| - 1], running, reachable)
  }

  lemma LeaveNone(g: Graph, c: Name, peers: seq<Name>, running: bool, reachable: set<Name>)
    ensures peers[..0] == [] && LeaveWrites(c, peers[..0], running, reachable) == []
    ensures Written(g, []) == g
  {
  }

  lemma LeaveNext(c: Name, peers: seq<Name>, i: nat, running: bool, reachable: set<Name>)
    requires i < |peers|
    ensures LeaveWrites(c, peers[..i + 1], running, reachable) ==
            LeaveWrites(c, peers[..i], running, reachable) + PartWrites(c, peers[i], running, reachable)
  {
    assert peers[..i + 1][..i] == peers[..i];
  }
}
