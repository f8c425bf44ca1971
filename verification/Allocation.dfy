/** Cutting the reserved pool of a multi-host cluster (create/plan.py: allocate, node_region). */
module Allocation {
  import opened Basics
  import opened Text
  import opened Addresses
  import opened Ranges
  import opened ClusterModel

  const LB_POOL := 5
  const MESH_POOL := 1

  datatype Allocation = Allocation(router: Addr, shim: Option<Addr>, nodes: seq<Addr>, mesh: Addr, lbRange: string)

  datatype AllocationError = PoolTooSmall(size: nat, need: nat)

  /** Addresses before the first node: the floating one, the two routers' own, the shim. */
  function Head(shim: bool, routers: RouterCount): (h: nat)
    ensures 1 <= h <= 4
  {
    1 + (if routers == Two then 2 else 0) + (if shim then 1 else 0)
  }

  function Allocate(pool: seq<Addr>, shim: bool, routers: RouterCount,
          nodes: nat): Result<Allocation, AllocationError> {
    var physical := if routers == Two then 2 else 0;
    var shims := if shim then 1 else 0;
    var tail := MESH_POOL + LB_POOL;
    var need := 1 + physical + shims + nodes + tail;
    if |pool| < need then Err(PoolTooSmall(|pool|, need))
    else
      var cursor := 1 + physical;
      var shimIp := if shim then Some(pool[cursor]) else None;
      var cursor' := cursor + shims;
      Ok(Allocation(
           pool[0],
           shimIp,
           pool[cursor'..cursor' + nodes],
           pool[|pool| - tail],
           RangesText(pool[|pool| - LB_POOL..])))
  }

  /** s[from:to] with Python's reading of a negative end. */
  function Slice<T>(s: seq<T>, from: nat, to: int): seq<T> {
    var end := if to >= |s| then |s| else if to >= 0 then to else if |s| + to >= 0 then |s| + to else 0;
    if from <= end then s[from..end] else []
  }

  /** The pool addresses nodes may take. */
  function NodeRegion(net: Network): Result<seq<Addr>, RangeError> {
    var pool :- Pool(if net.range.Some? then net.range.value else []);
    Ok(Slice(pool, Head(net.shim.Some?, net.routers), |pool| - MESH_POOL - LB_POOL))
  }

  /** The network's range is this pool, with or without a shim as the allocation had it. */
  ghost predicate AllocatedFrom(net: Network, pool: seq<Addr>, a: Allocation) {
    && net.range == Some(RangesText(pool))
    && net.router == a.router
    && net.shim == a.shim
    && net.mesh == Some(a.mesh)
    && net.lbRange == a.lbRange
  }

  lemma Reassembled<T>(s: seq<T>, i: nat, j: nat, k: nat, first: T, mid: seq<T>, region: seq<T>, at: T, tail: seq<T>)
    requires 1 <= i <= j <= k < |s|
    requires first == s[0] && mid == s[i..j] && region == s[j..k] && at == s[k] && tail == s[k + 1..]
    ensures s == [first] + s[1..i] + mid + region + [at] + tail
  {
    assert s[..i] == [s[0]] + s[1..i];
    assert s[..j] == s[..i] + s[i..j];
    assert s[..k] == s[..j] + s[j..k];
    assert s[..k + 1] == s[..k] + [s[k]];
    assert s == s[..k + 1] + s[k + 1..];
  }

  lemma TailReadsBack(pool: seq<Addr>, n: nat)
    requires Distinct(pool) && 0 < n <= |pool|
    ensures Pool(RangesText(pool[|pool| - n..])) == Ok(pool[|pool| - n..])
  {
    hide Pool;
    hide RangesText;
    var k := |pool| - n;
    assert pool == pool[..k] + pool[k..];
    DistinctParts(pool[..k], pool[k..]);
    RoundTrip(pool[k..]);
  }

  /** The pool is exactly, and in this order: the router's address, the router containers' (two
      routers), the shim's, the nodes', the free ones, the mesh address, the LoadBalancer pool. The
      node region is the nodes followed by the free ones, and lbRange reads back as the tail. */
  lemma AllocationPartitionsPool(pool: seq<Addr>, shim: bool, routers: RouterCount, nodes: nat, a: Allocation,
          net: Network)
    requires Distinct(pool)
    requires Allocate(pool, shim, routers, nodes) == Ok(a)
    requires net.routers == routers && AllocatedFrom(net, pool, a)
    ensures NodeRegion(net).Ok? && |a.nodes| == nodes && a.nodes <= NodeRegion(net).value
    ensures Pool(a.lbRange).Ok? && |Pool(a.lbRange).value| == LB_POOL
    ensures a.shim.Some? == shim
    ensures pool == [a.router] + pool[1..if routers == Two then 3 else 1] + Optional(a.shim)
                    + NodeRegion(net).value + [a.mesh] + Pool(a.lbRange).value
  {
    hide Pool;
    hide RangesText;
    hide NodeRegion;
    hide Allocate;
    hide Optional;
    var start, head, end := if routers == Two then 3 else 1, Head(shim, routers), |pool| - 6;
    AllocationSlices(pool, shim, routers, nodes, a);
    TailReadsBack(pool, LB_POOL);
    RegionOfAllocation(pool, net, shim);
    SlicePrefix(pool, head, nodes, end);
    Reassembled(pool, start, head, end, a.router, Optional(a.shim), NodeRegion(net).value, a.mesh, Pool(a.lbRange).value);
  }

  function Optional(ip: Option<Addr>): seq<Addr> { if ip.Some? then [ip.value] else [] }

  lemma AllocationSlices(pool: seq<Addr>, shim: bool, routers: RouterCount, nodes: nat, a: Allocation)
    requires Allocate(pool, shim, routers, nodes) == Ok(a)
    ensures |pool| >= Head(shim, routers) + nodes + 6
    ensures a.shim.Some? == shim
    ensures var start, head, end := if routers == Two then 3 else 1, Head(shim, routers), |pool| - 6;
            && a.router == pool[0]
            && Optional(a.shim) == pool[start..head]
            && a.nodes == pool[head..head + nodes]
            && a.mesh == pool[end]
            && a.lbRange == RangesText(pool[end + 1..])
  {
    hide RangesText;
    hide Runs;
    if shim {
      OneSlice(pool, if routers == Two then 3 else 1);
    }
  }

  lemma OneSlice<T>(s: seq<T>, i: nat)
    requires i < |s|
    ensures s[i..i + 1] == [s[i]]
  {
  }

  lemma SlicePrefix<T>(s: seq<T>, i: nat, n: nat, j: nat)
    requires i + n <= j <= |s|
    ensures s[i..i + n] <= s[i..j]
  {
  }

  lemma RegionOfAllocation(pool: seq<Addr>, net: Network, shim: bool)
    requires Distinct(pool) && |pool| >= Head(shim, net.routers) + MESH_POOL + LB_POOL
    requires net.range == Some(RangesText(pool)) && net.shim.Some? == shim
    ensures NodeRegion(net) == Ok(pool[Head(shim, net.routers)..|pool| - 6])
  {
    RoundTrip(pool);
    hide Pool;
    hide RangesText;
  }

  /** Nothing reserved is a node address: the region avoids every address before and after it. */
  lemma RegionAvoidsReserved(pool: seq<Addr>, head: nat, end: nat)
    requires Distinct(pool) && head <= end <= |pool|
    ensures Distinct(pool[head..end])
    ensures forall ip :: ip in pool[head..end] ==> ip !in pool[..head] && ip !in pool[end..]
  {
    assert pool == pool[..head] + pool[head..];
    DistinctParts(pool[..head], pool[head..]);
    assert pool[head..] == pool[head..end] + pool[end..];
    DistinctParts(pool[head..end], pool[end..]);
  }

  // ---- the two routers' derived addresses

  lemma {:induction false} JoinHead(parts: seq<string>, sep: char)
    requires |parts| >= 2
    ensures Join(parts, sep) == parts[0] + [sep] + Join(parts[1..], sep)
  {
    var n := |parts| - 1;
    if n > 1 {
      JoinHead(parts[..n], sep);
      assert parts[..n][1..] == parts[1..][..n - 1];
      assert Join(parts[1..], sep) == Join(parts[1..][..n - 1], sep) + [sep] + parts[n];
    } else {
      assert parts[..1] == [parts[0]];
      assert parts[1..] == [parts[1]];
    }
  }

  lemma CoveredNothing(a: seq<Run>, b: seq<Run>, s: seq<Addr>)
    requires a == [] && b == []
    ensures Covered(a) + s == s + Covered(b)
  {
  }

  lemma {:induction false} CoveredHead(runs: seq<Run>)
    requires runs != []
    ensures Covered(runs) == Members(runs[0]) + Covered(runs[1..])
  {
    hide Covered;
    hide Members;
    var m := |runs| - 1;
    Snoc(runs);
    CoveredSnoc(runs[..m], runs[m]);
    if m > 0 {
      var tail := runs[1..][..m - 1];
      CoveredHead(runs[..m]);
      assert runs[..m][1..] == tail;
      Snoc(runs[1..]);
      CoveredSnoc(tail, runs[m]);
      Associative(Members(runs[0]), Covered(tail), Members(runs[m]));
    } else {
      CoveredNothing(runs[..0], runs[1..], Members(runs[0]));
    }
  }

  /** The first printed segment is a lone address exactly when the second address does not follow
      the first. */
  lemma FirstRun(pool: seq<Addr>)
    requires pool != []
    ensures Runs(pool) != []
    ensures Runs(pool)[0].first == pool[0]
    ensures Runs(pool)[0].count >= 2 <==> |pool| >= 2 && pool[1] == pool[0] as int + 1
    ensures |Runs(pool)| == 1 && Runs(pool)[0].count == 1 <==> |pool| == 1
  {
    hide Runs;
    hide Extend;
    var runs := Runs(pool);
    RunsAreMaximal(pool);
    CoveredHead(runs);
    assert |Members(runs[0])| == runs[0].count;
    assert pool[0] == Members(runs[0])[0];
    if runs[0].count >= 2 {
      assert pool[1] == Members(runs[0])[1];
    } else if |runs| > 1 {
      CoveredHead(runs[1..]);
      assert pool[1] == Covered(runs[1..])[0] == runs[1].first;
    }
  }

  /** range_start of a printed range: the pool's first address, unless the first segment is a lone
      address followed by others, which it fails to read. */
  lemma RangeStartOfPrinted(pool: seq<Addr>)
    requires pool != []
    ensures RangeStart(RangesText(pool)) ==
            if |pool| == 1 || pool[1] == pool[0] as int + 1 then Some(pool[0]) else None
  {
    FirstRun(pool);
    var first, run := AddrText(pool[0]), Runs(pool)[0];
    var rest := PrintedHead(Runs(pool));
    AddrTextParses(pool[0]);
    AddrTextChars(pool[0]);
    hide AddrText;
    hide ParseAddr;
    hide Runs;
    if run.count >= 2 {
      LongFirstSegment(first, AddrText(Last(run)), rest);
    } else {
      LoneFirstSegment(first, rest);
    }
  }

  lemma LongFirstSegment(first: string, last: string, rest: string)
    requires '-' !in first
    ensures RangeStart(first + ['-'] + last + rest) == ParseAddr(first)
  {
    hide ParseAddr;
    Associative(first + ['-'], last, rest);
    PartitionAt(first, last + rest, '-');
  }

  lemma PrintedHead(runs: seq<Run>) returns (rest: string)
    requires runs != []
    ensures Join(Map(runs, SegmentText), ',') == SegmentText(runs[0]) + rest
    ensures if |runs| == 1 then rest == [] else rest != [] && rest[0] == ','
  {
    hide SegmentText;
    var texts := Map(runs, SegmentText);
    if |runs| == 1 {
      rest := [];
    } else {
      JoinHead(texts, ',');
      rest := [','] + Join(texts[1..], ',');
      Associative(texts[0], [','], Join(texts[1..], ','));
    }
  }

  lemma LoneFirstSegment(first: string, rest: string)
    requires '-' !in first && ',' !in first
    requires rest == [] || rest[0] == ','
    ensures Partition(first + rest, '-').0 == first || ',' in Partition(first + rest, '-').0
    ensures rest != [] ==> RangeStart(first + rest).None?
    ensures rest == [] ==> RangeStart(first + rest) == ParseAddr(first)
  {
    hide ParseAddr;
    var text := first + rest;
    var p := Partition(text, '-').0;
    if rest == [] {
      assert text == first;
    } else {
      assert ',' in p by {
        if '-' in text {
          assert text == p + ['-'] + Partition(text, '-').1;
          assert text[|p|] == '-';
          assert text[|first|] == ',';
          assert forall i :: 0 <= i < |first| ==> text[i] == first[i] != '-';
          assert |first| < |p|;
          assert p[|first|] == ',';
        } else {
          assert p == text;
          assert text[|first|] == ',';
        }
      }
      assert !AddrChar(',');
      if ParseAddr(p).Some? {
        var a := ParseAddr(p).value;
        ParseAddrExactly(p, a);
        AddrTextChars(a);
      }
    }
  }

  /** With two routers on several hosts, the addresses the cluster derives for the router containers
      are the two the allocation reserved for them exactly when the first three pool addresses are
      consecutive. */
  lemma RoutersAgree(c: Cluster, pool: seq<Addr>)
    requires c.spec.network.routers == Two
    requires |pool| >= 3 && c.spec.network.range == Some(RangesText(pool))
    ensures c.Routers().Some? && Map(c.Routers().value, (r: Router) => r.ip) == [pool[1], pool[2]]
       <==> pool[1] == pool[0] as int + 1 && pool[2] == pool[0] as int + 2
  {
    hide RangeStart;
    hide RangesText;
    RangeStartOfPrinted(pool);
    if c.Routers().Some? {
      var ips := Map(c.Routers().value, (r: Router) => r.ip);
      assert ips == [ips[0], ips[1]];
    }
  }
}
