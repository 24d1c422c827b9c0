/** The cached segment list of a Range store and its meaning as a map from source
    offset to byte (helpers of pdf-rs/bytes/src/store.rs, lines 1143-1309). */
module Segments {
  import opened Basics
  import opened Ranges

  /** A cached segment. `capacity` is the allocator-reported capacity of its backing
      vector, which is what the resident tracker is charged for. */
  datatype CachedSegment = Segment(start: nat, end: nat, backing: seq<Byte>, capacity: nat) {
    predicate Contains(k: nat) { start <= k < end }
  }

  type Segment = s: CachedSegment |
    s.start < s.end && |s.backing| == s.end - s.start && |s.backing| <= s.capacity
    witness CachedSegment.Segment(0, 1, [0], 1)

  /** The canonical form: sorted, disjoint and non-adjacent. */
  ghost predicate Sorted(segs: seq<Segment>) { SortedTo(segs, |segs|) }

  ghost predicate SortedTo(segs: seq<Segment>, n: nat)
    requires n <= |segs|
  {
    n >= 2 ==> SortedTo(segs, n - 1) && segs[n - 2].end < segs[n - 1].start
  }

  ghost predicate Pairwise(segs: seq<Segment>) {
    forall i, j :: 0 <= i < j < |segs| ==> segs[i].end < segs[j].start
  }

  lemma {:induction false} SortedToPair(segs: seq<Segment>, n: nat, i: nat, j: nat)
    requires n <= |segs| && SortedTo(segs, n) && i < j < n
    ensures segs[i].end < segs[j].start
  {
    if j < n - 1 {
      SortedToPair(segs, n - 1, i, j);
    } else if i < j - 1 {
      SortedToPair(segs, n - 1, i, j - 1);
    }
  }

  lemma SortedPair(segs: seq<Segment>, i: nat, j: nat)
    requires Sorted(segs) && i < j < |segs|
    ensures segs[i].end < segs[j].start
  {
    SortedToPair(segs, |segs|, i, j);
  }

  lemma SortedPairwise(segs: seq<Segment>)
    requires Sorted(segs)
    ensures Pairwise(segs)
  {
    forall i, j | 0 <= i < j < |segs| ensures segs[i].end < segs[j].start {
      SortedPair(segs, i, j);
    }
  }

  ghost predicate Has(segs: seq<Segment>, k: nat) {
    exists i :: 0 <= i < |segs| && segs[i].Contains(k)
  }

  /** The meaning of a segment list: the cached byte at each source offset, if any. */
  ghost function At(segs: seq<Segment>, k: nat): Option<Byte> { AtTo(segs, |segs|, k) }

  ghost function AtTo(segs: seq<Segment>, n: nat, k: nat): Option<Byte>
    requires n <= |segs|
  {
    if n == 0 then None
    else if segs[n - 1].Contains(k) then Some(segs[n - 1].backing[k - segs[n - 1].start])
    else AtTo(segs, n - 1, k)
  }

  /** Sum of segment lengths: what `cached_bytes` counts. */
  ghost function Total(segs: seq<Segment>): nat { TotalTo(segs, |segs|) }

  ghost function TotalTo(segs: seq<Segment>, n: nat): nat
    requires n <= |segs|
  {
    if n == 0 then 0 else TotalTo(segs, n - 1) + |segs[n - 1].backing|
  }

  /** Sum of backing capacities: what the segments are charged in the resident tracker. */
  ghost function TotalCapacity(segs: seq<Segment>): nat { CapacityTo(segs, |segs|) }

  ghost function CapacityTo(segs: seq<Segment>, n: nat): nat
    requires n <= |segs|
  {
    if n == 0 then 0 else CapacityTo(segs, n - 1) + segs[n - 1].capacity
  }

  lemma {:induction false} AtToHas(segs: seq<Segment>, n: nat, k: nat)
    requires n <= |segs|
    ensures AtTo(segs, n, k).Some? <==> exists i :: 0 <= i < n && segs[i].Contains(k)
  {
    if n > 0 { AtToHas(segs, n - 1, k); }
  }

  lemma AtHas(segs: seq<Segment>, k: nat)
    ensures At(segs, k).Some? <==> Has(segs, k)
  {
    AtToHas(segs, |segs|, k);
  }

  lemma {:induction false} AtToValue(segs: seq<Segment>, n: nat, i: nat, k: nat)
    requires n <= |segs| && Sorted(segs) && i < n && segs[i].Contains(k)
    ensures AtTo(segs, n, k) == Some(segs[i].backing[k - segs[i].start])
  {
    if i < n - 1 {
      SortedPair(segs, i, n - 1);
      AtToValue(segs, n - 1, i, k);
    }
  }

  lemma AtValue(segs: seq<Segment>, i: nat, k: nat)
    requires Sorted(segs) && i < |segs| && segs[i].Contains(k)
    ensures At(segs, k) == Some(segs[i].backing[k - segs[i].start])
  {
    AtToValue(segs, |segs|, i, k);
  }

  /** The set of cached offsets. */
  ghost function Offsets(segs: seq<Segment>): set<nat> { OffsetsTo(segs, |segs|) }

  ghost function OffsetsTo(segs: seq<Segment>, n: nat): set<nat>
    requires n <= |segs|
  {
    if n == 0 then {} else OffsetsTo(segs, n - 1) + Interval(segs[n - 1].start, segs[n - 1].end)
  }

  ghost function Interval(lo: nat, hi: nat): set<nat>
    decreases hi
  {
    if lo >= hi then {} else Interval(lo, hi - 1) + {hi - 1}
  }

  lemma {:induction false} IntervalHas(lo: nat, hi: nat, k: nat)
    ensures k in Interval(lo, hi) <==> lo <= k < hi
    decreases hi
  {
    if lo < hi { IntervalHas(lo, hi - 1, k); }
  }

  lemma {:induction false} IntervalSize(lo: nat, hi: nat)
    requires lo <= hi
    ensures |Interval(lo, hi)| == hi - lo
    decreases hi
  {
    if lo < hi {
      IntervalSize(lo, hi - 1);
      IntervalHas(lo, hi - 1, hi - 1);
    }
  }

  lemma {:induction false} OffsetsToHas(segs: seq<Segment>, n: nat, k: nat)
    requires n <= |segs|
    ensures k in OffsetsTo(segs, n) <==> AtTo(segs, n, k).Some?
  {
    if n > 0 {
      OffsetsToHas(segs, n - 1, k);
      IntervalHas(segs[n - 1].start, segs[n - 1].end, k);
    }
  }

  /** `cached_bytes` counts the distinct cached offsets. */
  lemma TotalIsCachedCount(segs: seq<Segment>)
    requires Sorted(segs)
    ensures |Offsets(segs)| == Total(segs) <= TotalCapacity(segs)
    ensures forall k: nat :: k in Offsets(segs) <==> At(segs, k).Some?
  {
    TotalToIsCachedCount(segs, |segs|);
    forall k: nat ensures k in Offsets(segs) <==> At(segs, k).Some? {
      OffsetsToHas(segs, |segs|, k);
    }
  }

  lemma {:induction false} TotalToIsCachedCount(segs: seq<Segment>, n: nat)
    requires Sorted(segs) && n <= |segs|
    ensures |OffsetsTo(segs, n)| == TotalTo(segs, n) <= CapacityTo(segs, n)
  {
    if n > 0 {
      TotalToIsCachedCount(segs, n - 1);
      IntervalSize(segs[n - 1].start, segs[n - 1].end);
      NextIsNew(segs, n);
      UnionSize(OffsetsTo(segs, n - 1), Interval(segs[n - 1].start, segs[n - 1].end));
    }
  }

  lemma UnionSize(a: set<nat>, b: set<nat>)
    requires a !! b
    ensures |a + b| == |a| + |b|
  {
  }

  lemma NextIsNew(segs: seq<Segment>, n: nat)
    requires Sorted(segs) && 0 < n <= |segs|
    ensures OffsetsTo(segs, n - 1) !! Interval(segs[n - 1].start, segs[n - 1].end)
  {
    var before, now := OffsetsTo(segs, n - 1), Interval(segs[n - 1].start, segs[n - 1].end);
    forall k | k in before ensures k !in now {
      OffsetsToHas(segs, n - 1, k);
      AtToHas(segs, n - 1, k);
      IntervalHas(segs[n - 1].start, segs[n - 1].end, k);
      var i :| 0 <= i < n - 1 && segs[i].Contains(k);
      SortedPair(segs, i, n - 1);
    }
  }

  lemma {:induction false} SamePrefix(a: seq<Segment>, b: seq<Segment>, n: nat)
    requires n <= |a| && n <= |b| && forall i :: 0 <= i < n ==> a[i] == b[i]
    ensures TotalTo(a, n) == TotalTo(b, n)
    ensures SortedTo(a, n) <==> SortedTo(b, n)
    ensures forall k: nat :: AtTo(a, n, k) == AtTo(b, n, k)
  {
    if n > 0 { SamePrefix(a, b, n - 1); }
  }

  /** a ends before b starts, with a gap. */
  ghost predicate Before(a: seq<Segment>, b: seq<Segment>) {
    a != [] && b != [] ==> a[|a| - 1].end < b[0].start
  }

  lemma Append(a: seq<Segment>, b: seq<Segment>)
    ensures Total(a + b) == Total(a) + Total(b)
    ensures Sorted(a + b) <==> Sorted(a) && Sorted(b) && Before(a, b)
  {
    SamePrefix(a + b, a, |a|);
    AppendTotal(a, b, a + b, |b|);
    AppendSorted(a, b, a + b, |b|);
  }

  lemma AppendAt(a: seq<Segment>, b: seq<Segment>, k: nat)
    ensures At(a + b, k) == if At(b, k).Some? then At(b, k) else At(a, k)
  {
    SamePrefix(a + b, a, |a|);
    AppendAtTo(a, b, a + b, |b|, k);
  }

  /** `all` is a followed by b. */
  ghost predicate Joined(a: seq<Segment>, b: seq<Segment>, all: seq<Segment>) {
    |all| == |a| + |b| && (forall i :: 0 <= i < |b| ==> all[|a| + i] == b[i])
  }

  lemma {:induction false} AppendAtTo(a: seq<Segment>, b: seq<Segment>, all: seq<Segment>, m: nat, k: nat)
    requires m <= |b| && Joined(a, b, all) && AtTo(all, |a|, k) == At(a, k)
    ensures AtTo(all, |a| + m, k) == if AtTo(b, m, k).Some? then AtTo(b, m, k) else At(a, k)
  {
    if m > 0 {
      AppendAtTo(a, b, all, m - 1, k);
      assert all[|a| + (m - 1)] == b[m - 1];
    }
  }

  lemma {:induction false} AppendTotal(a: seq<Segment>, b: seq<Segment>, all: seq<Segment>, m: nat)
    requires m <= |b| && Joined(a, b, all) && TotalTo(all, |a|) == Total(a)
    ensures TotalTo(all, |a| + m) == Total(a) + TotalTo(b, m)
  {
    if m > 0 {
      AppendTotal(a, b, all, m - 1);
      assert all[|a| + (m - 1)] == b[m - 1];
    }
  }

  lemma {:induction false} AppendSorted(a: seq<Segment>, b: seq<Segment>, all: seq<Segment>, m: nat)
    requires m <= |b| && Joined(a, b, all) && (SortedTo(all, |a|) <==> Sorted(a))
    requires forall i :: 0 <= i < |a| ==> all[i] == a[i]
    ensures SortedTo(all, |a| + m) <==> Sorted(a) && SortedTo(b, m) && (m > 0 ==> Before(a, b))
  {
    if m > 0 {
      AppendSorted(a, b, all, m - 1);
      assert all[|a| + (m - 1)] == b[m - 1];
      if m > 1 { assert all[|a| + (m - 2)] == b[m - 2]; }
    }
  }

  // ------------------------------------------------------------------ coverage

  ghost predicate Covered(segs: seq<Segment>, range: Range) {
    forall k: nat :: range.Contains(k) ==> Has(segs, k)
  }

  /** range_is_covered. */
  method RangeIsCovered(segs: seq<Segment>, range: Range) returns (covered: bool)
    requires Sorted(segs)
    ensures covered <==> Covered(segs, range)
  {
    SortedPairwise(segs);
    var cursor := range.start;
    for i := 0 to |segs|
      invariant range.start <= cursor < range.End()
      invariant forall k: nat :: range.start <= k < cursor ==> Has(segs, k)
      invariant forall j :: 0 <= j < i ==> segs[j].end <= cursor
    {
      var segment := segs[i];
      if segment.end <= cursor {
        continue;
      }
      if segment.start > cursor {
        assert !Has(segs, cursor);
        assert range.Contains(cursor);
        return false;
      }
      forall k: nat | range.start <= k < segment.end ensures Has(segs, k) {
        if cursor <= k { assert segs[i].Contains(k); }
      }
      cursor := Max(cursor, segment.end);
      if cursor >= range.End() {
        return true;
      }
    }
    assert !Has(segs, cursor);
    assert range.Contains(cursor);
    return false;
  }

  /** A covered range of a canonical list lies inside a single segment. */
  lemma CoveredInOne(segs: seq<Segment>, range: Range) returns (i: nat)
    requires Sorted(segs) && Covered(segs, range)
    ensures i < |segs| && segs[i].start <= range.start && range.End() <= segs[i].end
  {
    SortedPairwise(segs);
    assert range.Contains(range.start);
    i :| 0 <= i < |segs| && segs[i].Contains(range.start);
    if segs[i].end < range.End() {
      assert range.Contains(segs[i].end);
    }
  }

  /** borrow_range: it finds a segment exactly when the range is covered, and the slice
      it returns is the content of the range. */
  method BorrowRange(segs: seq<Segment>, range: Range) returns (r: Option<seq<Byte>>)
    requires Sorted(segs)
    ensures r.Some? <==> Covered(segs, range)
    ensures r.Some? ==> |r.value| == range.len
    ensures r.Some? ==> forall k: nat :: range.Contains(k) ==> At(segs, k) == Some(r.value[k - range.start])
  {
    for i := 0 to |segs|
      invariant forall j :: 0 <= j < i ==> !(segs[j].start <= range.start && segs[j].end >= range.End())
    {
      var segment := segs[i];
      if segment.start <= range.start && segment.end >= range.End() {
        var offset := range.start - segment.start;
        forall k: nat | range.Contains(k)
          ensures At(segs, k) == Some(segment.backing[k - segment.start]) && Has(segs, k)
        {
          AtValue(segs, i, k);
          AtHas(segs, k);
        }
        return Some(segment.backing[offset..offset + range.len]);
      }
    }
    if Covered(segs, range) {
      var i := CoveredInOne(segs, range);
    }
    return None;
  }

  // ------------------------------------------------------------------ complement

  /** The uncovered part of [cursor, end) as append_uncovered_ranges lists it, reading
      segments from index i on. */
  ghost function GapsFrom(segs: seq<Segment>, i: nat, cursor: nat, end: nat): seq<Range>
    requires end <= U64_MAX && i <= |segs|
    decreases |segs| - i
  {
    if cursor >= end then []
    else if i == |segs| then [ByteRange(cursor, end - cursor)]
    else if segs[i].end <= cursor then GapsFrom(segs, i + 1, cursor, end)
    else if segs[i].start >= end then [ByteRange(cursor, end - cursor)]
    else if segs[i].start > cursor then
      [ByteRange(cursor, segs[i].start - cursor)] + GapsFrom(segs, i + 1, segs[i].end, end)
    else GapsFrom(segs, i + 1, segs[i].end, end)
  }

  ghost function Gaps(segs: seq<Segment>, range: Range): seq<Range> {
    GapsFrom(segs, 0, range.start, range.End())
  }

  lemma {:induction false} GapsFromExact(segs: seq<Segment>, i: nat, cursor: nat, end: nat)
    requires Sorted(segs) && end <= U64_MAX && i <= |segs|
    requires forall j :: 0 <= j < i ==> segs[j].end <= cursor
    ensures var g := GapsFrom(segs, i, cursor, end);
            && Canonical(g)
            && (forall n :: 0 <= n < |g| ==> cursor <= g[n].start && g[n].End() <= end)
            && (forall k: nat :: Hit(g, k) <==> cursor <= k < end && !Has(segs, k))
    decreases |segs| - i
  {
    var g := GapsFrom(segs, i, cursor, end);
    SortedPairwise(segs);
    if cursor >= end {
    } else if i == |segs| || (segs[i].end > cursor && segs[i].start >= end) {
      forall k: nat ensures Hit(g, k) <==> cursor <= k < end && !Has(segs, k) {
        if cursor <= k < end { assert g[0].Contains(k); }
      }
    } else if segs[i].end <= cursor {
      GapsFromExact(segs, i + 1, cursor, end);
    } else {
      GapsFromExact(segs, i + 1, segs[i].end, end);
      forall k: nat ensures Hit(g, k) <==> cursor <= k < end && !Has(segs, k) {
        GapsFromHit(segs, i, cursor, end, k);
      }
    }
  }

  lemma GapsFromHit(segs: seq<Segment>, i: nat, cursor: nat, end: nat, k: nat)
    requires Sorted(segs) && end <= U64_MAX && i < |segs|
    requires forall j :: 0 <= j < i ==> segs[j].end <= cursor
    requires cursor < segs[i].end && segs[i].start < end && cursor < end
    requires Hit(GapsFrom(segs, i + 1, segs[i].end, end), k) <==> segs[i].end <= k < end && !Has(segs, k)
    ensures Hit(GapsFrom(segs, i, cursor, end), k) <==> cursor <= k < end && !Has(segs, k)
  {
    var rest := GapsFrom(segs, i + 1, segs[i].end, end);
    var g := GapsFrom(segs, i, cursor, end);
    assert g == if segs[i].start > cursor then [ByteRange(cursor, segs[i].start - cursor)] + rest else rest;
    SortedPairwise(segs);
    hide GapsFrom, Sorted, Hit;
    if segs[i].start > cursor {
      ConsHit(ByteRange(cursor, segs[i].start - cursor), rest, k);
    }
    if segs[i].Contains(k) { assert Has(segs, k); }
  }

  lemma ConsHit(head: Range, tail: seq<Range>, k: nat)
    ensures Hit([head] + tail, k) <==> head.Contains(k) || Hit(tail, k)
  {
    var all := [head] + tail;
    if head.Contains(k) { assert all[0].Contains(k); }
    if Hit(tail, k) {
      var n :| 0 <= n < |tail| && tail[n].Contains(k);
      assert all[n + 1].Contains(k);
    }
    if Hit(all, k) {
      var n :| 0 <= n < |all| && all[n].Contains(k);
      if n > 0 { assert tail[n - 1].Contains(k); }
    }
  }

  /** The missing ranges of a request are, in canonical form, exactly its uncached offsets. */
  lemma GapsExact(segs: seq<Segment>, range: Range)
    requires Sorted(segs)
    ensures Canonical(Gaps(segs, range))
    ensures forall k: nat :: Hit(Gaps(segs, range), k) <==> range.Contains(k) && !Has(segs, k)
    ensures Gaps(segs, range) == [] <==> Covered(segs, range)
    ensures forall n :: 0 <= n < |Gaps(segs, range)| ==>
              range.start <= Gaps(segs, range)[n].start && Gaps(segs, range)[n].End() <= range.End()
  {
    GapsFromExact(segs, 0, range.start, range.End());
    var g := Gaps(segs, range);
    if g != [] {
      assert g[0].Contains(g[0].start);
      assert Hit(g, g[0].start);
    }
    if !Covered(segs, range) {
      var k: nat :| range.Contains(k) && !Has(segs, k);
      assert Hit(g, k);
    }
  }

  /** append_uncovered_ranges: appends exactly the gaps of `requested`, or reports the
      range count that broke the limit. */
  method AppendUncoveredRanges(segs: seq<Segment>, requested: Range, ranges: seq<Range>, maxRanges: nat)
    returns (r: Result<seq<Range>>)
    requires Sorted(segs) && |ranges| <= maxRanges
    ensures |ranges| + |Gaps(segs, requested)| <= maxRanges ==> r == Ok(ranges + Gaps(segs, requested))
    ensures |ranges| + |Gaps(segs, requested)| > maxRanges ==>
              r == Err(ResourceLimit(LimitKind.MissingRanges, maxRanges, maxRanges + 1))
  {
    var cursor, end := requested.start, requested.End();
    var out := ranges;
    var i := 0;
    while i < |segs|
      invariant 0 <= i <= |segs| && requested.start <= cursor && cursor < end
      invariant ranges + Gaps(segs, requested) == out + GapsFrom(segs, i, cursor, end)
      invariant |out| <= maxRanges
    {
      var segment := segs[i];
      if segment.end <= cursor {
        i := i + 1;
        continue;
      }
      if segment.start >= end {
        break;
      }
      if segment.start > cursor {
        if |out| >= maxRanges {
          assert |ranges + Gaps(segs, requested)| > maxRanges;
          return Err(ResourceLimit(LimitKind.MissingRanges, maxRanges, |out| + 1));
        }
        var gap: Range := ByteRange(cursor, segment.start - cursor);
        assert out + GapsFrom(segs, i, cursor, end)
            == (out + [gap]) + GapsFrom(segs, i + 1, segment.end, end);
        out := out + [gap];
      }
      cursor := Max(cursor, segment.end);
      i := i + 1;
      if cursor >= end {
        assert out + [] == out;
        return Ok(out);
      }
    }
    assert GapsFrom(segs, i, cursor, end) == [ByteRange(cursor, end - cursor)];
    if |out| >= maxRanges {
      assert |ranges + Gaps(segs, requested)| > maxRanges;
      return Err(ResourceLimit(LimitKind.MissingRanges, maxRanges, |out| + 1));
    }
    return Ok(out + [ByteRange(cursor, end - cursor)]);
  }

  /** missing_ranges; `granted` is whether the bounded scratch vector was obtained. */
  method MissingRanges(segs: seq<Segment>, requested: Range, maxRanges: nat, granted: bool)
    returns (r: Result<seq<Range>>)
    requires Sorted(segs) && !Covered(segs, requested)
    ensures r == MissingOutcome(Gaps(segs, requested), maxRanges, granted)
  {
    GapsExact(segs, requested);
    if !granted {
      return Err(ResourceLimit(Allocation, maxRanges, maxRanges));
    }
    var appended := AppendUncoveredRanges(segs, requested, [], maxRanges);
    if appended.Err? {
      return appended;
    }
    assert [] + Gaps(segs, requested) == Gaps(segs, requested);
    if |appended.value| == 0 {
      assert false;
      return Err(InternalState);
    }
    r := TryFromCanonical(appended.value, maxRanges);
  }

  ghost function MissingOutcome(gaps: seq<Range>, maxRanges: nat, granted: bool): Result<seq<Range>> {
    if !granted then Err(ResourceLimit(Allocation, maxRanges, maxRanges))
    else if |gaps| <= maxRanges then Ok(gaps)
    else Err(ResourceLimit(LimitKind.MissingRanges, maxRanges, maxRanges + 1))
  }

  /** What is left of a list of missing ranges once `segs` is cached. */
  ghost function GapsOf(segs: seq<Segment>, requested: seq<Range>): seq<Range> {
    if requested == [] then []
    else GapsOf(segs, requested[..|requested| - 1]) + Gaps(segs, requested[|requested| - 1])
  }

  lemma GapsOfExact(segs: seq<Segment>, requested: seq<Range>)
    requires Sorted(segs) && Canonical(requested)
    ensures Canonical(GapsOf(segs, requested))
    ensures forall k: nat :: Hit(GapsOf(segs, requested), k) <==> Hit(requested, k) && !Has(segs, k)
  {
    forall k: nat ensures Hit(GapsOf(segs, requested), k) <==> Hit(requested, k) && !Has(segs, k) {
      GapsOfHits(segs, requested, k);
    }
    GapsOfCanonical(segs, requested);
  }

  lemma {:induction false} GapsOfHits(segs: seq<Segment>, requested: seq<Range>, k: nat)
    requires Sorted(segs)
    ensures Hit(GapsOf(segs, requested), k) <==> Hit(requested, k) && !Has(segs, k)
  {
    if requested != [] {
      var front, last := requested[..|requested| - 1], requested[|requested| - 1];
      assert front + [last] == requested;
      GapsOfHits(segs, front, k);
      GapsExact(segs, last);
      AppendHit(GapsOf(segs, front), Gaps(segs, last), k);
      AppendHit(front, [last], k);
      OneHit(last, k);
    }
  }

  lemma {:induction false} GapsOfWithin(segs: seq<Segment>, requested: seq<Range>, end: nat)
    requires Sorted(segs)
    requires forall n :: 0 <= n < |requested| ==> requested[n].End() <= end
    ensures forall n :: 0 <= n < |GapsOf(segs, requested)| ==> GapsOf(segs, requested)[n].End() <= end
  {
    if requested != [] {
      GapsExact(segs, requested[|requested| - 1]);
      GapsOfWithin(segs, requested[..|requested| - 1], end);
    }
  }

  lemma {:induction false} GapsOfCanonical(segs: seq<Segment>, requested: seq<Range>)
    requires Sorted(segs) && Canonical(requested)
    ensures Canonical(GapsOf(segs, requested))
  {
    if requested != [] {
      var front, last := requested[..|requested| - 1], requested[|requested| - 1];
      GapsExact(segs, last);
      GapsOfCanonical(segs, front);
      if front == [] {
        assert GapsOf(segs, requested) == Gaps(segs, last);
      } else {
        assert forall n :: 0 <= n < |front| ==> requested[n] == front[n] && requested[n].End() < last.start;
        GapsOfWithin(segs, front, last.start - 1);
        CanonicalAppend(GapsOf(segs, front), Gaps(segs, last), last.start);
      }
    }
  }

  lemma OneHit(range: Range, k: nat)
    ensures Hit([range], k) <==> range.Contains(k)
  {
    if range.Contains(k) { assert [range][0].Contains(k); }
  }

  lemma CanonicalAppend(a: seq<Range>, b: seq<Range>, bound: nat)
    requires Canonical(a) && Canonical(b)
    requires forall m :: 0 <= m < |a| ==> a[m].End() < bound
    requires forall m :: 0 <= m < |b| ==> bound <= b[m].start
    ensures Canonical(a + b)
  {
  }

  lemma AppendHit(a: seq<Range>, b: seq<Range>, k: nat)
    ensures Hit(a + b, k) <==> Hit(a, k) || Hit(b, k)
  {
    if Hit(a, k) {
      var n :| 0 <= n < |a| && a[n].Contains(k);
      assert (a + b)[n].Contains(k);
    }
    if Hit(b, k) {
      var n :| 0 <= n < |b| && b[n].Contains(k);
      assert (a + b)[|a| + n].Contains(k);
    }
    if Hit(a + b, k) {
      var n :| 0 <= n < |a + b| && (a + b)[n].Contains(k);
      if n < |a| { assert a[n].Contains(k); } else { assert b[n - |a|].Contains(k); }
    }
  }

  /** Removing newly cached offsets from an old missing list gives the same canonical
      list as recomputing the missing ranges of the original request. */
  lemma GapsCompose(older: seq<Segment>, newer: seq<Segment>, range: Range)
    requires Sorted(older) && Sorted(newer)
    requires forall k: nat :: Has(older, k) ==> Has(newer, k)
    ensures GapsOf(newer, Gaps(older, range)) == Gaps(newer, range)
  {
    GapsExact(older, range);
    GapsExact(newer, range);
    GapsOfExact(newer, Gaps(older, range));
    CanonicalUnique(GapsOf(newer, Gaps(older, range)), Gaps(newer, range));
  }

  /** remaining_missing_ranges: None means that nothing is missing any more. */
  method RemainingMissingRanges(segs: seq<Segment>, requested: seq<Range>, maxRanges: nat, granted: bool)
    returns (r: Result<Option<seq<Range>>>)
    requires Sorted(segs) && Canonical(requested)
    ensures r == RemainingOutcome(GapsOf(segs, requested), maxRanges, granted)
  {
    if !granted {
      return Err(ResourceLimit(Allocation, maxRanges, maxRanges));
    }
    var ranges: seq<Range> := [];
    GapsOfPrefix(segs, requested, 0);
    for i := 0 to |requested|
      invariant ranges == GapsOf(segs, requested[..i])
      invariant |ranges| <= maxRanges
      invariant exists tail :: GapsOf(segs, requested) == ranges + tail
    {
      assert requested[..i + 1][..i] == requested[..i];
      GapsOfPrefix(segs, requested, i + 1);
      var appended := AppendUncoveredRanges(segs, requested[i], ranges, maxRanges);
      if appended.Err? {
        return Err(appended.error);
      }
      ranges := appended.value;
    }
    assert requested[..|requested|] == requested;
    GapsOfExact(segs, requested);
    if |ranges| == 0 {
      return Ok(None);
    }
    var canonical := TryFromCanonical(ranges, maxRanges);
    return Ok(Some(canonical.value));
  }

  ghost function RemainingOutcome(gaps: seq<Range>, maxRanges: nat, granted: bool): Result<Option<seq<Range>>> {
    if !granted then Err(ResourceLimit(Allocation, maxRanges, maxRanges))
    else if |gaps| > maxRanges then Err(ResourceLimit(LimitKind.MissingRanges, maxRanges, maxRanges + 1))
    else if gaps == [] then Ok(None)
    else Ok(Some(gaps))
  }

  lemma {:induction false} GapsOfPrefix(segs: seq<Segment>, requested: seq<Range>, i: nat)
    requires i <= |requested|
    ensures exists tail :: GapsOf(segs, requested) == GapsOf(segs, requested[..i]) + tail
    decreases |requested|
  {
    if i == |requested| {
      assert requested[..i] == requested;
      assert GapsOf(segs, requested) == GapsOf(segs, requested[..i]) + [];
    } else {
      var front := requested[..|requested| - 1];
      GapsOfPrefix(segs, front, i);
      assert front[..i] == requested[..i];
      var tail :| GapsOf(segs, front) == GapsOf(segs, front[..i]) + tail;
      var last := Gaps(segs, requested[|requested| - 1]);
      assert GapsOf(segs, requested) == GapsOf(segs, requested[..i]) + (tail + last);
    }
  }
}
