/** The reserved address pool as text: spec.network.range is parsed into an ordered list of
    addresses and printed back as maximal segments (create/plan.py). */
module Ranges {
  import opened Basics
  import opened Text
  import opened Addresses

  datatype RangeError =
    | BadSegment(seg: string)
    | EndBeforeStart(seg: string)
    | ListedTwice(ip: Addr)

  // ---- parsing

  /** The two ends of one comma-separated segment. */
  function ParseSegment(raw: string): (r: Result<(Addr, Addr), RangeError>)
    ensures r.Ok? ==> r.value.0 <= r.value.1
  {
    var seg := Strip(raw);
    var (aText, bText) := Partition(seg, '-');
    var a := ParseAddr(aText);
    if a.None? then Err(BadSegment(seg))
    else
      var full := if bText != [] && '.' !in bText then Join(Split(aText, '.')[..3] + [bText], '.') else bText;
      var b := ParseAddr(if full != [] then full else aText);
      if b.None? then Err(BadSegment(seg))
      else if b.value < a.value then Err(EndBeforeStart(seg))
      else Ok((a.value, b.value))
  }

  lemma SegmentEnds(raw: string)
    requires ParseSegment(raw).Ok?
    ensures ParseSegment(raw).value.0 <= ParseSegment(raw).value.1
  {
  }

  /** How many addresses lie between a and b, both included. */
  function Span(a: Addr, b: Addr): (n: nat)
    requires a <= b
    ensures a + n == b + 1
  {
    (b as int) - (a as int) + 1
  }

  /** The addresses a, a+1, ..., a+n-1. */
  function Interval(a: Addr, n: nat): (r: seq<Addr>)
    requires a + n <= 0x1_0000_0000
    ensures |r| == n
    ensures forall i :: 0 <= i < n ==> r[i] == a + i
  {
    if n == 0 then [] else Interval(a, n - 1) + [a + n - 1]
  }

  function AddInterval(pool: seq<Addr>, a: Addr, n: nat): Result<seq<Addr>, RangeError>
    requires a + n <= 0x1_0000_0000
  {
    if n == 0 then Ok(pool)
    else
      var before :- AddInterval(pool, a, n - 1);
      var ip := a + n - 1;
      if ip in before then Err(ListedTwice(ip)) else Ok(before + [ip])
  }

  function AddSegments(segs: seq<string>): Result<seq<Addr>, RangeError> {
    if segs == [] then Ok([])
    else
      var n := |segs| - 1;
      var pool :- AddSegments(segs[..n]);
      var ends :- ParseSegment(segs[n]);
      AddInterval(pool, ends.0, Span(ends.0, ends.1))
  }

  /** parse_range: the pool a range text stands for, or the first thing wrong with it. */
  function Pool(text: string): Result<seq<Addr>, RangeError> {
    AddSegments(Split(text, ','))
  }

  /** What the text means, without any order of checking: every segment is well formed, the pool is
      their addresses in order, none of them twice. */
  function SegmentPool(seg: string): seq<Addr> {
    match ParseSegment(seg)
    case Ok(ends) => Interval(ends.0, Span(ends.0, ends.1))
    case Err(_) => []
  }

  ghost predicate Denotes(text: string, pool: seq<Addr>) {
    var segs := Split(text, ',');
    && (forall seg :: seg in segs ==> ParseSegment(seg).Ok?)
    && pool == Flat(Map(segs, SegmentPool))
    && Distinct(pool)
  }

  lemma {:induction false} AddIntervalMeans(pool: seq<Addr>, a: Addr, n: nat)
    requires a + n <= 0x1_0000_0000
    requires Distinct(pool)
    ensures AddInterval(pool, a, n).Ok? <==> Distinct(pool + Interval(a, n))
    ensures AddInterval(pool, a, n).Ok? ==> AddInterval(pool, a, n).value == pool + Interval(a, n)
  {
    if n == 0 {
      assert pool + Interval(a, 0) == pool;
    } else {
      AddIntervalMeans(pool, a, n - 1);
      var before, ip := pool + Interval(a, n - 1), a + n - 1;
      assert before + [ip] == pool + Interval(a, n);
      if AddInterval(pool, a, n - 1).Ok? && ip !in before {
        DistinctAppend(before, [ip]);
      }
      if Distinct(before + [ip]) {
        DistinctParts(before, [ip]);
        assert ip in [ip];
      }
    }
  }

  lemma {:induction false} AddSegmentsMeans(segs: seq<string>)
    ensures AddSegments(segs).Ok? <==>
            (forall seg :: seg in segs ==> ParseSegment(seg).Ok?) && Distinct(Flat(Map(segs, SegmentPool)))
    ensures AddSegments(segs).Ok? ==> AddSegments(segs).value == Flat(Map(segs, SegmentPool))
  {
    hide ParseSegment;
    hide AddInterval;
    if segs != [] {
      var n := |segs| - 1;
      AddSegmentsMeans(segs[..n]);
      assert segs == segs[..n] + [segs[n]];
      var parts := Map(segs, SegmentPool);
      assert parts[..n] == Map(segs[..n], SegmentPool);
      var before := Flat(parts[..n]);
      assert Flat(parts) == before + SegmentPool(segs[n]);
      if Distinct(Flat(parts)) {
        DistinctParts(before, SegmentPool(segs[n]));
      }
      if AddSegments(segs[..n]).Ok? && ParseSegment(segs[n]).Ok? {
        var ends := ParseSegment(segs[n]).value;
        SegmentEnds(segs[n]);
        AddIntervalMeans(before, ends.0, Span(ends.0, ends.1));
      }
    }
  }

  /** parse_range accepts exactly the texts that denote a pool, and returns that pool. */
  lemma PoolDenotes(text: string, pool: seq<Addr>)
    ensures Pool(text) == Ok(pool) <==> Denotes(text, pool)
  {
    AddSegmentsMeans(Split(text, ','));
  }

  lemma {:induction false} ErrorStays(segs: seq<string>, k: nat)
    requires k <= |segs|
    requires AddSegments(segs[..k]).Err?
    ensures AddSegments(segs) == AddSegments(segs[..k])
  {
    if k < |segs| {
      assert segs[..|segs| - 1][..k] == segs[..k];
      ErrorStays(segs[..|segs| - 1], k);
    } else {
      assert segs[..k] == segs;
    }
  }

  lemma {:induction false} IntervalErrorStays(pool: seq<Addr>, a: Addr, k: nat, n: nat)
    requires k <= n && a + n <= 0x1_0000_0000
    requires AddInterval(pool, a, k).Err?
    ensures AddInterval(pool, a, n) == AddInterval(pool, a, k)
  {
    if k < n {
      IntervalErrorStays(pool, a, k, n - 1);
    }
  }

  method ParseRange(text: string) returns (r: Result<seq<Addr>, RangeError>)
    ensures r == Pool(text)
    ensures r.Ok? ==> Denotes(text, r.value)
    ensures r.Err? ==> forall p :: !Denotes(text, p)
  {
    hide ParseSegment;
    hide Denotes;
    hide Split;
    var segs := Split(text, ',');
    forall p ensures Pool(text) == Ok(p) <==> Denotes(text, p) { PoolDenotes(text, p); }
    var pool: seq<Addr> := [];
    for k := 0 to |segs|
      invariant AddSegments(segs[..k]) == Ok(pool)
    {
      assert segs[..k + 1][..k] == segs[..k];
      var ends := ParseSegment(segs[k]);
      if ends.Err? {
        ErrorStays(segs, k + 1);
        return Err(ends.error);
      }
      var (a, b) := ends.value;
      SegmentEnds(segs[k]);
      ghost var start := pool;
      for n := 0 to Span(a, b)
        invariant AddInterval(start, a, n) == Ok(pool)
      {
        var ip: Addr := a + n;
        if ip in pool {
          IntervalErrorStays(start, a, n + 1, Span(a, b));
          ErrorStays(segs, k + 1);
          return Err(ListedTwice(ip));
        }
        pool := pool + [ip];
      }
    }
    assert segs[..|segs|] == segs;
    return Ok(pool);
  }

  // ---- printing

  /** A stretch of consecutive addresses: first, first + 1, ..., count of them. */
  datatype Stretch = Stretch(first: Addr, count: nat)

  type Run = r: Stretch | r.count >= 1 && r.first + r.count <= 0x1_0000_0000 witness Stretch(0, 1)

  function Last(run: Run): Addr { run.first + run.count - 1 }

  function Members(run: Run): seq<Addr> { Interval(run.first, run.count) }

  function Covered(runs: seq<Run>): seq<Addr> {
    if runs == [] then [] else Covered(runs[..|runs| - 1]) + Members(runs[|runs| - 1])
  }

  /** The runs with one more address: it prolongs the last run or opens a new one. */
  function Extend(runs: seq<Run>, ip: Addr): (r: seq<Run>)
    ensures r != []
  {
    var m := |runs| - 1;
    if m >= 0 && ip == Last(runs[m]) as int + 1 then runs[..m] + [Stretch(runs[m].first, runs[m].count + 1)]
    else runs + [Stretch(ip, 1)]
  }

  function Runs(addrs: seq<Addr>): seq<Run> {
    if addrs == [] then [] else Extend(Runs(addrs[..|addrs| - 1]), addrs[|addrs| - 1])
  }

  /** No run could be joined to the one before it. */
  ghost predicate Maximal(runs: seq<Run>) {
    forall k :: 0 < k < |runs| ==> runs[k].first != Last(runs[k - 1]) as int + 1
  }

  lemma ExtendKeeps(runs: seq<Run>, ip: Addr)
    requires Maximal(runs)
    ensures Maximal(Extend(runs, ip))
    ensures Covered(Extend(runs, ip)) == Covered(runs) + [ip]
  {
    var m, r := |runs| - 1, Extend(runs, ip);
    if m >= 0 && ip == Last(runs[m]) as int + 1 {
      assert r[..m] == runs[..m];
      assert Members(r[m]) == Members(runs[m]) + [ip];
    } else {
      assert r[..|runs|] == runs;
      assert Members(r[m + 1]) == [ip];
    }
  }

  /** The printed segments cover the addresses in order, and are as long as they can be. */
  lemma {:induction false} RunsAreMaximal(addrs: seq<Addr>)
    ensures Covered(Runs(addrs)) == addrs
    ensures Maximal(Runs(addrs))
  {
    if addrs != [] {
      hide Maximal;
      hide Extend;
      hide Covered;
      var n := |addrs| - 1;
      var before := Runs(addrs[..n]);
      RunsAreMaximal(addrs[..n]);
      ExtendKeeps(before, addrs[n]);
      assert Runs(addrs) == Extend(before, addrs[n]);
      Snoc(addrs);
    }
  }

  /** Undoing Extend: the runs without their last address. */
  function Shrink(runs: seq<Run>): seq<Run>
    requires runs != []
  {
    var m := |runs| - 1;
    if runs[m].count == 1 then runs[..m] else runs[..m] + [Stretch(runs[m].first, runs[m].count - 1)]
  }

  lemma ShrinkExtend(runs: seq<Run>)
    requires runs != [] && Maximal(runs)
    ensures Maximal(Shrink(runs))
    ensures Extend(Shrink(runs), Last(runs[|runs| - 1])) == runs
  {
    var m, r := |runs| - 1, Shrink(runs);
    assert runs == runs[..m] + [runs[m]];
    if runs[m].count == 1 {
      assert runs[m] == Stretch(Last(runs[m]), 1);
    } else {
      assert r[..m] == runs[..m];
    }
  }

  lemma CoveredSnoc(runs: seq<Run>, run: Run)
    ensures Covered(runs + [run]) == Covered(runs) + Members(run)
  {
    assert (runs + [run])[..|runs|] == runs;
  }

  lemma IntervalOne(a: Addr)
    ensures Interval(a, 1) == [a]
  {
    assert Interval(a, 0) + [a] == [a];
  }

  lemma ShrinkCovers(runs: seq<Run>)
    requires runs != []
    ensures Covered(runs) == Covered(Shrink(runs)) + [Last(runs[|runs| - 1])]
  {
    hide Covered;
    var m := |runs| - 1;
    var rest, run := runs[..m], runs[m];
    Snoc(runs);
    CoveredSnoc(rest, run);
    if run.count > 1 {
      var short: Run := Stretch(run.first, run.count - 1);
      CoveredSnoc(rest, short);
      hide Members;
      ShrunkRun(run);
      Associative(Covered(rest), Members(short), [Last(run)]);
    } else {
      IntervalOne(Last(run));
    }
  }

  lemma ShrunkRun(run: Run)
    requires run.count > 1
    ensures Members(run) == Members(Stretch(run.first, run.count - 1)) + [Last(run)]
  {
  }

  /** There is only one such cut, so the segments are determined by the addresses. */
  lemma {:induction false} MaximalRunsUnique(runs: seq<Run>)
    requires Maximal(runs)
    ensures Runs(Covered(runs)) == runs
    decreases |Covered(runs)|
  {
    if runs != [] {
      ShrinkExtend(runs);
      ShrinkCovers(runs);
      hide Maximal;
      hide Extend;
      hide Shrink;
      MaximalRunsUnique(Shrink(runs));
      var addrs := Covered(runs);
      assert addrs[..|addrs| - 1] == Covered(Shrink(runs));
    }
  }

  function SegmentText(run: Run): string {
    if run.count == 1 then AddrText(run.first) else AddrText(run.first) + ['-'] + AddrText(Last(run))
  }

  /** ranges_text: the text a list of addresses is printed as. */
  function RangesText(addrs: seq<Addr>): string {
    Join(Map(Runs(addrs), SegmentText), ',')
  }

  /** What the printing loop holds after some addresses: the texts of the closed runs and, as a
      list, the run still open. */
  ghost predicate Printing(runs: seq<Run>, out: seq<string>, run: seq<Addr>) {
    if runs == [] then out == [] && run == []
    else
      var m := |runs| - 1;
      run == Members(runs[m]) && out == Map(runs[..m], SegmentText)
  }

  lemma CloseRun(runs: seq<Run>, out: seq<string>, run: seq<Addr>)
    requires Printing(runs, out, run) && run != []
    ensures out + [ListText(run)] == Map(runs, SegmentText)
  {
    hide AddrText;
    var m := |runs| - 1;
    assert runs == runs[..m] + [runs[m]];
    assert Map(runs, SegmentText)[..m] == Map(runs[..m], SegmentText);
  }

  lemma NothingOpen(runs: seq<Run>, out: seq<string>)
    requires Printing(runs, out, [])
    ensures runs == [] && out == []
  {
  }

  function ListText(run: seq<Addr>): string
    requires run != []
  {
    if |run| == 1 then AddrText(run[0]) else AddrText(run[0]) + ['-'] + AddrText(run[|run| - 1])
  }

  lemma GrowRun(runs: seq<Run>, out: seq<string>, run: seq<Addr>, ip: Addr)
    requires Printing(runs, out, run)
    ensures run != [] && ip == run[|run| - 1] as int + 1 ==> Printing(Extend(runs, ip), out, run + [ip])
    ensures run == [] ==> Printing(Extend(runs, ip), out, [ip])
    ensures run != [] && ip != run[|run| - 1] as int + 1 ==> Printing(Extend(runs, ip), out + [ListText(run)], [ip])
  {
    hide AddrText;
    var m, r := |runs| - 1, Extend(runs, ip);
    if m >= 0 && ip == Last(runs[m]) as int + 1 {
      assert r[..m] == runs[..m];
    } else {
      assert r[..m + 1] == runs;
      if m >= 0 {
        CloseRun(runs, out, run);
      }
    }
  }

  /** One pass over the addresses and a final sentinel, closing the open run when it breaks. */
  method PrintRanges(addrs: seq<Addr>) returns (text: string)
    ensures text == RangesText(addrs)
  {
    hide AddrText;
    hide SegmentText;
    hide Members;
    hide Extend;
    var out: seq<string> := [];
    var run: seq<Addr> := [];
    for k := 0 to |addrs| + 1
      invariant k <= |addrs| ==> Printing(Runs(addrs[..k]), out, run)
      invariant k == |addrs| + 1 ==> out == Map(Runs(addrs), SegmentText)
    {
      if k < |addrs| {
        assert addrs[..k + 1][..k] == addrs[..k];
        GrowRun(Runs(addrs[..k]), out, run, addrs[k]);
      } else {
        assert addrs[..k] == addrs;
        if run != [] {
          CloseRun(Runs(addrs), out, run);
        } else {
          NothingOpen(Runs(addrs), out);
        }
      }
      var ip := if k < |addrs| then Some(addrs[k]) else None;
      if run != [] && (ip.None? || ip.value != run[|run| - 1] as int + 1) {
        out := out + [ListText(run)];
        run := [];
      }
      if ip.Some? {
        run := run + [ip.value];
      }
    }
    text := Join(out, ',');
  }

  // ---- the two together

  lemma SegmentRoundTrip(run: Run)
    ensures ParseSegment(SegmentText(run)) == Ok((run.first, Last(run)))
    ensures ',' !in SegmentText(run)
  {
    hide ParseAddr;
    hide AddrText;
    hide Strip;
    hide Partition;
    hide Interval;
    var a, b, text := AddrText(run.first), AddrText(Last(run)), SegmentText(run);
    AddrTextChars(run.first);
    AddrTextChars(Last(run));
    AddrTextParses(run.first);
    AddrTextParses(Last(run));
    StripNothing(text);
    if run.count > 1 {
      PartitionAt(a, b, '-');
    }
  }

  lemma {:induction false} SegmentsRoundTrip(runs: seq<Run>)
    ensures Flat(Map(Map(runs, SegmentText), SegmentPool)) == Covered(runs)
    ensures forall seg :: seg in Map(runs, SegmentText) ==> ParseSegment(seg).Ok? && ',' !in seg
  {
    hide ParseSegment;
    hide SegmentText;
    if runs != [] {
      var m := |runs| - 1;
      SegmentsRoundTrip(runs[..m]);
      SegmentRoundTrip(runs[m]);
      assert Map(runs, SegmentText) == Map(runs[..m], SegmentText) + [SegmentText(runs[m])];
      assert Map(Map(runs, SegmentText), SegmentPool)[..m] == Map(Map(runs[..m], SegmentText), SegmentPool);
    }
  }

  /** Printing then parsing gives the same list back, for every list that can be a pool at all:
      not empty and without duplicates. */
  lemma RoundTrip(addrs: seq<Addr>)
    ensures Pool(RangesText(addrs)) == Ok(addrs) <==> addrs != [] && Distinct(addrs)
  {
    hide ParseSegment;
    hide SegmentText;
    RunsAreMaximal(addrs);
    PoolDenotes(RangesText(addrs), addrs);
    if addrs == [] {
      EmptyTextIsNoRange();
    } else {
      var texts := Map(Runs(addrs), SegmentText);
      SegmentsRoundTrip(Runs(addrs));
      SplitJoin(texts, ',');
    }
  }

  lemma EmptyTextIsNoRange()
    ensures Pool([]).Err?
  {
    assert Split([], ',') == [[]];
    assert Strip([]) == [];
    assert Split([], '.') == [[]];
    assert AddSegments([[]][..0]) == Ok([]);
  }

  /** Two accepted definitions are printed alike exactly when they denote the same pool. */
  lemma SameTextSamePool(t1: string, t2: string)
    requires Pool(t1).Ok? && Pool(t2).Ok?
    ensures RangesText(Pool(t1).value) == RangesText(Pool(t2).value) <==> Pool(t1).value == Pool(t2).value
  {
    PoolIsProper(t1);
    PoolIsProper(t2);
    RoundTrip(Pool(t1).value);
    RoundTrip(Pool(t2).value);
  }

  lemma PoolIsProper(text: string)
    requires Pool(text).Ok?
    ensures Pool(text).value != [] && Distinct(Pool(text).value)
  {
    PoolDenotes(text, Pool(text).value);
    var segs := Split(text, ',');
    var n := |segs| - 1;
    assert segs[n] in segs;
    var parts := Map(segs, SegmentPool);
    assert Flat(parts) == Flat(parts[..n]) + SegmentPool(segs[n]);
  }

  /** Two addresses in one segment, whatever text stands for the end. */
  lemma SegmentOf(a: Addr, b: Addr, end: string)
    requires end != [] && '-' !in end && (forall c :: c in end ==> !IsSpace(c))
    requires if '.' in end then end == AddrText(b) else Join(OctetTexts(a)[..3] + [end], '.') == AddrText(b)
    ensures var r := ParseSegment(AddrText(a) + ['-'] + end);
            if a <= b then r == Ok((a, b)) else r.Err? && r.error.EndBeforeStart?
  {
    hide ParseAddr;
    hide AddrText;
    hide Join;
    hide Split;
    AddrTextChars(a);
    AddrTextChars(b);
    AddrTextParses(a);
    AddrTextParses(b);
    hide OctetTexts;
    var raw := AddrText(a) + ['-'] + end;
    StripNothing(raw);
    hide Strip;
    PartitionAt(AddrText(a), end, '-');
    hide Partition;
    assert Partition(Strip(raw), '-') == (AddrText(a), end);
  }

  /** A-d with a bare last octet d stands for the same segment as A-B with B's other three octets
      copied from A. */
  lemma LastOctetMeansFullEnd(a: Addr, b: Addr)
    requires Octet(a, 0) == Octet(b, 0) && Octet(a, 1) == Octet(b, 1) && Octet(a, 2) == Octet(b, 2)
    ensures var short, full := ParseSegment(AddrText(a) + ['-'] + OctetTexts(b)[3]), ParseSegment(AddrText(a) + ['-'] + AddrText(b));
            if a <= b then short == full == Ok((a, b))
            else short.Err? && full.Err? && short.error.EndBeforeStart? && full.error.EndBeforeStart?
  {
    hide ParseSegment;
    hide ParseAddr;
    hide Numbers.Decimal;
    hide Octet;
    AddrTextChars(b);
    AddrTextParses(a);
    AddrTextParses(b);
    OctetText(Octet(b, 3));
    Numbers.DecimalDigits(Octet(b, 3));
    assert OctetTexts(a)[..3] + [OctetTexts(b)[3]] == OctetTexts(b);
    hide Join;
    hide Split;
    SegmentOf(a, b, OctetTexts(b)[3]);
    SegmentOf(a, b, AddrText(b));
  }
}
