/** sorted(names): names in code point order. */
module Sorting {
  import opened Basics
  import opened Text

  ghost predicate Ascending(s: seq<string>) {
    forall i, j :: 0 <= i < j < |s| ==> Before(s[i], s[j])
  }

  function Insert(x: string, s: seq<string>): seq<string> {
    if s == [] then [x]
    else if Before(x, s[0]) then [x] + s
    else [s[0]] + Insert(x, s[1..])
  }

  function Sorted(s: seq<string>): seq<string> {
    if s == [] then [] else Insert(s[0], Sorted(s[1..]))
  }

  lemma {:induction false} InsertKeeps(x: string, s: seq<string>)
    requires Ascending(s) && x !in s
    ensures Ascending(Insert(x, s))
    ensures forall y :: y in Insert(x, s) <==> y == x || y in s
  {
    if s != [] {
      var tail := s[1..];
      assert s == [s[0]] + tail;
      BeforeTotal(x, s[0]);
      if Before(x, s[0]) {
        forall j | 0 <= j < |s|
          ensures Before(x, s[j])
        {
          if j > 0 {
            BeforeTransitive(x, s[0], s[j]);
          }
        }
      } else {
        InsertKeeps(x, tail);
        var r := Insert(x, tail);
        forall j | 0 <= j < |r|
          ensures Before(s[0], r[j])
        {
          assert r[j] in r;
        }
      }
    }
  }

  lemma {:induction false} SortedDistinct(s: seq<string>)
    requires Distinct(s)
    ensures Ascending(Sorted(s))
    ensures forall y :: y in Sorted(s) <==> y in s
  {
    if s != [] {
      var tail := s[1..];
      assert s == [s[0]] + tail;
      SortedDistinct(tail);
      assert s[0] !in tail;
      InsertKeeps(s[0], Sorted(tail));
    }
  }

  lemma AscendingDistinct(s: seq<string>)
    requires Ascending(s)
    ensures Distinct(s)
  {
    forall i, j | 0 <= i < j < |s|
      ensures s[i] != s[j]
    {
      BeforeIrreflexive(s[i]);
    }
  }

  /** A sorted list without duplicates is determined by its elements. */
  lemma {:induction false} AscendingUnique(s: seq<string>, t: seq<string>)
    requires Ascending(s) && Ascending(t)
    requires forall x :: x in s <==> x in t
    ensures s == t
  {
    assert s != [] ==> s[0] in s;
    assert t != [] ==> t[0] in t;
    if s != [] && t != [] {
      SameHead(s, t);
      TailElements(s);
      TailElements(t);
      AscendingUnique(s[1..], t[1..]);
      assert s == [s[0]] + s[1..] && t == [t[0]] + t[1..];
    }
  }

  lemma SameHead(s: seq<string>, t: seq<string>)
    requires Ascending(s) && Ascending(t) && s != [] && t != []
    requires s[0] in t && t[0] in s
    ensures s[0] == t[0]
  {
    var i :| 0 <= i < |t| && t[i] == s[0];
    var j :| 0 <= j < |s| && s[j] == t[0];
    if i > 0 && j > 0 {
      BeforeTransitive(t[0], s[0], t[0]);
      BeforeIrreflexive(t[0]);
    }
  }

  lemma TailElements(s: seq<string>)
    requires Ascending(s) && s != []
    ensures Ascending(s[1..])
    ensures forall x :: x in s[1..] <==> x in s && x != s[0]
  {
    AscendingDistinct(s);
    assert s == [s[0]] + s[1..];
    forall x | x in s[1..]
      ensures x != s[0]
    {
      var i :| 0 <= i < |s[1..]| && s[1..][i] == x;
      assert s[i + 1] == x;
    }
  }

  /** Sorting what is already sorted changes nothing. */
  lemma SortedAgain(s: seq<string>)
    requires Ascending(s)
    ensures Sorted(s) == s
  {
    AscendingDistinct(s);
    SortedDistinct(s);
    AscendingUnique(Sorted(s), s);
  }

  lemma {:induction false} FilterAscending(s: seq<string>, p: string -> bool)
    requires Ascending(s)
    ensures Ascending(Filter(s, p))
  {
    if s != [] {
      var n := |s| - 1;
      FilterAscending(s[..n], p);
      var r := Filter(s[..n], p);
      forall i | 0 <= i < |r|
        ensures Before(r[i], s[n])
      {
        assert r[i] in s[..n];
      }
    }
  }

  predicate IsLeast(x: string, s: set<string>) { x in s && forall y :: y in s ==> x == y || Before(x, y) }

  lemma {:induction false} LeastExists(s: set<string>)
    requires s != {}
    ensures exists x :: IsLeast(x, s)
    decreases |s|
  {
    var x :| x in s;
    var rest := s - {x};
    assert forall y :: y in s ==> y == x || y in rest;
    if rest == {} {
      assert IsLeast(x, s);
    } else {
      LeastExists(rest);
      var least :| IsLeast(least, rest);
      BeforeTotal(x, least);
      if Before(least, x) {
        assert IsLeast(least, s);
      } else {
        forall y | y in rest
          ensures Before(x, y)
        {
          if y != least {
            BeforeTransitive(x, least, y);
          }
        }
        assert IsLeast(x, s);
      }
    }
  }

  lemma LeastUnique(s: set<string>)
    ensures forall x, y :: IsLeast(x, s) && IsLeast(y, s) ==> x == y
  {
    forall x, y | IsLeast(x, s) && IsLeast(y, s)
      ensures x == y
    {
      if x != y {
        BeforeTransitive(x, y, x);
        BeforeIrreflexive(x);
      }
    }
  }

  /** listdir: a set of names in order. */
  function Listing(s: set<string>): (r: seq<string>)
    ensures forall x :: x in r <==> x in s
    ensures Distinct(r)
  {
    if s == {} then []
    else
      LeastExists(s);
      LeastUnique(s);
      var x :| IsLeast(x, s);
      [x] + Listing(s - {x})
  }
}
