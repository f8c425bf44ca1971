/** The shim's routes to a cluster's own range (create/units.py: range_prefixes): each printed segment as
    the networks that make it up. */
module RangeRoutes {
  import opened Basics
  import opened Text
  import opened Addresses
  import opened Ranges

  // ---- an interval as networks

  /** A network of this prefix length may start here, and n addresses fill it. */
  predicate Fills(first: Addr, n: nat, len: PrefixLength) { n >= Size(len) && first % Size(len) == 0 }

  /** The largest network that starts at `first` and has at most n addresses: the shortest prefix from
      len on downwards. */
  function Widest(first: Addr, n: nat, len: PrefixLength): (r: PrefixLength)
    requires Fills(first, n, len)
    ensures Fills(first, n, r) && (r > 0 ==> !Fills(first, n, r - 1))
    decreases len
  {
    if len > 0 && Fills(first, n, len - 1) then Widest(first, n, len - 1) else len
  }

  /** summarize_address_range: the n addresses from `first` on, network by network. */
  function Summarized(first: Addr, n: nat): seq<Prefix>
    requires first + n <= 0x1_0000_0000
    decreases n
  {
    if n == 0 then []
    else
      Single(first, n);
      var len := Widest(first, n, 32);
      var size := Size(len);
      [Prefix(first, len)] + if n == size then [] else Summarized(first + size, n - size)
  }

  /** A network: its base is a multiple of its size. */
  predicate Aligned(p: Prefix) { p.base % Size(p.len) == 0 }

  ghost predicate InSome(ps: seq<Prefix>, a: int) { exists p :: p in ps && InPrefix(a, p) }

  lemma Single(first: Addr, n: nat)
    requires n > 0
    ensures Fills(first, n, 32)
  {
  }

  lemma SummarizedNext(first: Addr, n: nat) returns (p: Prefix, rest: seq<Prefix>)
    requires 0 < n && first + n <= 0x1_0000_0000
    ensures Summarized(first, n) == [p] + rest && p.base == first && 1 <= Size(p.len) <= n && Aligned(p)
    ensures rest == if n == Size(p.len) then [] else Summarized(first + Size(p.len), n - Size(p.len))
  {
    Single(first, n);
    hide Widest;
    hide Size;
    p := Prefix(first, Widest(first, n, 32));
    rest := if n == Size(p.len) then [] else Summarized(first + Size(p.len), n - Size(p.len));
  }

  lemma {:induction false} SummarizedAligned(first: Addr, n: nat)
    requires first + n <= 0x1_0000_0000
    ensures forall p :: p in Summarized(first, n) ==> Aligned(p)
    decreases n
  {
    hide Widest;
    hide Aligned;
    hide Size;
    if n > 0 {
      var p, rest := SummarizedNext(first, n);
      hide Summarized;
      if n > Size(p.len) {
        SummarizedAligned(first + Size(p.len), n - Size(p.len));
      }
    }
  }

  lemma {:induction false} SummarizedCovers(first: Addr, n: nat, a: int)
    requires first + n <= 0x1_0000_0000
    ensures InSome(Summarized(first, n), a) <==> first <= a < first + n
    decreases n
  {
    hide Widest;
    hide Aligned;
    hide Size;
    if n > 0 {
      var p, rest := SummarizedNext(first, n);
      hide Summarized;
      if n > Size(p.len) {
        SummarizedCovers(first + Size(p.len), n - Size(p.len), a);
      }
      hide InSome;
      OneMore(p, rest, n, a);
    }
  }

  lemma OneMore(p: Prefix, rest: seq<Prefix>, n: nat, a: int)
    requires n >= Size(p.len) && (n == Size(p.len) ==> rest == [])
    requires n > Size(p.len) ==> (InSome(rest, a) <==> p.base + Size(p.len) <= a < p.base + n)
    ensures InSome([p] + rest, a) <==> p.base <= a < p.base + n
  {
    hide Size;
    InEither([p], rest, a);
    OnlyOne(p, a);
    if n == Size(p.len) {
      assert !InSome(rest, a);
    }
    hide InSome;
  }

  lemma OnlyOne(p: Prefix, a: int)
    ensures InSome([p], a) <==> InPrefix(a, p)
  {
    assert p in [p];
  }

  lemma InEither(ps: seq<Prefix>, qs: seq<Prefix>, a: int)
    ensures InSome(ps + qs, a) <==> InSome(ps, a) || InSome(qs, a)
  {
    if p :| p in ps && InPrefix(a, p) {
      assert p in ps + qs;
    }
    if p :| p in qs && InPrefix(a, p) {
      assert p in ps + qs;
    }
  }

  // ---- a whole range

  /** One segment, A-B or A alone; None where IPv4Address refuses. */
  function SegmentPrefixes(seg: string): Option<seq<Prefix>> {
    var (aText, bText) := Partition(seg, '-');
    var a, b := ParseAddr(aText), ParseAddr(if bText != [] then bText else aText);
    if a.None? || b.None? || b.value < a.value then None
    else Some(Summarized(a.value, b.value - a.value + 1))
  }

  function AllPrefixes(segs: seq<string>): Option<seq<Prefix>> {
    if segs == [] then Some([])
    else
      var k := |segs| - 1;
      var before, last := AllPrefixes(segs[..k]), SegmentPrefixes(segs[k]);
      if before.None? || last.None? then None else Some(before.value + last.value)
  }

  function RangePrefixes(rng: string): Option<seq<Prefix>> { AllPrefixes(Split(rng, ',')) }

  lemma {:induction false} AllPrefixesStops(segs: seq<string>, k: nat)
    requires k <= |segs| && AllPrefixes(segs[..k]).None?
    ensures AllPrefixes(segs).None?
  {
    if k < |segs| {
      assert segs[..|segs| - 1][..k] == segs[..k];
      AllPrefixesStops(segs[..|segs| - 1], k);
    } else {
      assert segs[..k] == segs;
    }
  }

  /** range_prefixes: segment by segment. */
  method CollectPrefixes(rng: string) returns (out: Option<seq<Prefix>>)
    ensures out == RangePrefixes(rng)
  {
    hide SegmentPrefixes;
    hide Split;
    var segs := Split(rng, ',');
    var found: seq<Prefix> := [];
    for k := 0 to |segs|
      invariant AllPrefixes(segs[..k]) == Some(found)
    {
      assert segs[..k + 1][..k] == segs[..k];
      var more := SegmentPrefixes(segs[k]);
      if more.None? {
        AllPrefixesStops(segs, k + 1);
        return None;
      }
      found := found + more.value;
    }
    assert segs[..|segs|] == segs;
    return Some(found);
  }

  lemma RunPrefixes(run: Run)
    ensures SegmentPrefixes(SegmentText(run)) == Some(Summarized(run.first, run.count))
  {
    hide ParseAddr;
    hide AddrText;
    hide Summarized;
    hide Interval;
    hide Octet;
    hide Partition;
    AddrTextChars(run.first);
    AddrTextChars(Last(run));
    AddrTextParses(run.first);
    AddrTextParses(Last(run));
    if run.count > 1 {
      PartitionAt(AddrText(run.first), AddrText(Last(run)), '-');
    }
  }

  lemma {:induction false} RunsPrefixes(runs: seq<Run>, a: int)
    ensures var ps := AllPrefixes(Map(runs, SegmentText));
            && ps.Some? && (InSome(ps.value, a) <==> a in Covered(runs))
            && forall p :: p in ps.value ==> Aligned(p)
  {
    hide SegmentText;
    hide SegmentPrefixes;
    hide Aligned;
    hide InPrefix;
    if runs != [] {
      var k := |runs| - 1;
      var texts := Map(runs, SegmentText);
      assert texts[..k] == Map(runs[..k], SegmentText);
      RunsPrefixes(runs[..k], a);
      RunPrefixes(runs[k]);
      SummarizedCovers(runs[k].first, runs[k].count, a);
      SummarizedAligned(runs[k].first, runs[k].count);
      hide Summarized;
      RunMembers(runs[k], a);
      hide Members;
      var before, last := AllPrefixes(texts[..k]).value, Summarized(runs[k].first, runs[k].count);
      assert AllPrefixes(texts) == Some(before + last);
      InEither(before, last, a);
    }
  }

  lemma RunMembers(run: Run, a: int)
    ensures a in Members(run) <==> run.first <= a < run.first + run.count
  {
    if run.first <= a < run.first + run.count {
      assert Members(run)[a - run.first] as int == a;
    }
  }

  /** The networks of a printed range hold exactly its addresses, and are networks. */
  lemma PrefixesCover(pool: seq<Addr>, a: int)
    requires pool != []
    ensures var ps := RangePrefixes(RangesText(pool));
            && ps.Some? && (InSome(ps.value, a) <==> a in pool)
            && forall p :: p in ps.value ==> Aligned(p)
  {
    hide SegmentText;
    RunsAreMaximal(pool);
    var texts := Map(Runs(pool), SegmentText);
    SegmentsRoundTrip(Runs(pool));
    SplitJoin(texts, ',');
    RunsPrefixes(Runs(pool), a);
    hide AllPrefixes;
    hide Runs;
    hide Covered;
  }
}
