/** How `RangeStore::supply` folds one response into the segment list: conflict
    detection, the affected run, the coalesced backing and the rebuilt list
    (pdf-rs/bytes/src/store.rs, lines 519-703 and 1143-1189). */
module Coalesce {
  import opened Basics
  import opened Ranges
  import opened Segments

  ghost predicate Conflicts(segs: seq<Segment>, range: Range, bytes: seq<Byte>)
    requires |bytes| == range.len
  {
    exists k: nat :: range.Contains(k) && At(segs, k).Some? && At(segs, k).value != bytes[k - range.start]
  }

  /** The segment overlaps or is adjacent to the response. */
  predicate Touches(segment: Segment, range: Range) {
    segment.start <= range.End() && range.start <= segment.end
  }

  // ------------------------------------------------------------------ conflicts

  /** overlap_conflicts. */
  method OverlapConflicts(segment: Segment, range: Range, bytes: seq<Byte>) returns (conflict: bool)
    requires |bytes| == range.len
    ensures conflict <==> exists k: nat :: segment.Contains(k) && range.Contains(k)
                            && segment.backing[k - segment.start] != bytes[k - range.start]
  {
    var overlapStart := Max(segment.start, range.start);
    var overlapEnd := Min(segment.end, range.End());
    if overlapStart >= overlapEnd {
      return false;
    }
    var segmentStart := overlapStart - segment.start;
    var responseStart := overlapStart - range.start;
    var overlapLen := overlapEnd - overlapStart;
    var mine := segment.backing[segmentStart..segmentStart + overlapLen];
    var theirs := bytes[responseStart..responseStart + overlapLen];
    conflict := mine != theirs;
    if conflict {
      var n :| 0 <= n < overlapLen && mine[n] != theirs[n];
      var k := overlapStart + n;
      assert segment.Contains(k) && range.Contains(k);
    } else {
      forall k: nat | segment.Contains(k) && range.Contains(k)
        ensures segment.backing[k - segment.start] == bytes[k - range.start]
      {
        assert mine[k - overlapStart] == theirs[k - overlapStart];
      }
    }
  }

  /** The overlap loop of supply: any disagreement on a cached offset is found. */
  method FindConflict(segs: seq<Segment>, range: Range, bytes: seq<Byte>) returns (conflict: bool)
    requires Sorted(segs) && |bytes| == range.len
    ensures conflict <==> Conflicts(segs, range, bytes)
  {
    for i := 0 to |segs|
      invariant forall j: nat, k: nat :: j < i && segs[j].Contains(k) && range.Contains(k) ==>
                  segs[j].backing[k - segs[j].start] == bytes[k - range.start]
    {
      var segment := segs[i];
      if segment.start < range.End() && range.start < segment.end {
        var differs := OverlapConflicts(segment, range, bytes);
        if differs {
          var k: nat :| segment.Contains(k) && range.Contains(k)
                        && segment.backing[k - segment.start] != bytes[k - range.start];
          AtValue(segs, i, k);
          return true;
        }
      }
    }
    forall k: nat | range.Contains(k) && At(segs, k).Some?
      ensures At(segs, k).value == bytes[k - range.start]
    {
      AtHas(segs, k);
      var j :| 0 <= j < |segs| && segs[j].Contains(k);
      AtValue(segs, j, k);
    }
    return false;
  }

  // ------------------------------------------------------------------ affected run

  /** A canonical list around a response: the touched segments are segs[lo..hi]. */
  ghost predicate Split(segs: seq<Segment>, range: Range, lo: nat, hi: nat) {
    && lo <= hi <= |segs|
    && (forall j :: 0 <= j < lo ==> segs[j].end < range.start)
    && (forall j :: lo <= j < hi ==> Touches(segs[j], range))
    && (forall j :: hi <= j < |segs| ==> range.End() < segs[j].start)
  }

  lemma SplitExists(segs: seq<Segment>, range: Range) returns (lo: nat, hi: nat)
    requires Sorted(segs)
    ensures Split(segs, range, lo, hi)
  {
    SortedPairwise(segs);
    lo := 0;
    while lo < |segs| && segs[lo].end < range.start
      invariant lo <= |segs|
      invariant forall j :: 0 <= j < lo ==> segs[j].end < range.start
    {
      lo := lo + 1;
    }
    hi := lo;
    while hi < |segs| && segs[hi].start <= range.End()
      invariant lo <= hi <= |segs|
      invariant forall j :: lo <= j < hi ==> Touches(segs[j], range)
    {
      hi := hi + 1;
    }
  }

  /** First offset of the union of the response with the run it touches. */
  ghost function UnionStart(run: seq<Segment>, range: Range): nat {
    if run == [] then range.start else Min(range.start, run[0].start)
  }

  ghost function UnionEnd(run: seq<Segment>, range: Range): nat {
    if run == [] then range.End() else Max(range.End(), run[|run| - 1].end)
  }

  /** The loop that collects affected indices, the union extent and the bytes replaced. */
  method FindAffected(segs: seq<Segment>, range: Range)
    returns (affected: seq<nat>, unionStart: nat, unionEnd: nat, removed: nat, ghost lo: nat, ghost hi: nat)
    requires Sorted(segs)
    ensures Split(segs, range, lo, hi)
    ensures |affected| == hi - lo && forall n :: 0 <= n < |affected| ==> affected[n] == lo + n
    ensures unionStart == UnionStart(segs[lo..hi], range)
    ensures unionEnd == UnionEnd(segs[lo..hi], range)
    ensures removed == Total(segs[lo..hi])
  {
    lo, hi := SplitExists(segs, range);
    affected, unionStart, unionEnd, removed := [], range.start, range.End(), 0;
    ghost var run: seq<Segment> := [];
    for i := 0 to |segs|
      invariant run == segs[lo..Clamp(i, lo, hi)]
      invariant |affected| == |run| && forall n :: 0 <= n < |affected| ==> affected[n] == lo + n
      invariant unionStart == UnionStart(run, range) && unionEnd == UnionEnd(run, range)
      invariant removed == Total(run)
    {
      var segment := segs[i];
      if Touches(segment, range) {
        RunInOrder(segs, lo, i);
        RunGrows(run, segment, range);
        run := run + [segment];
        affected := affected + [i];
        unionStart := Min(unionStart, segment.start);
        unionEnd := Max(unionEnd, segment.end);
        removed := removed + (segment.end - segment.start);
      }
    }
  }

  ghost function Clamp(i: nat, lo: nat, hi: nat): nat
    requires lo <= hi
  {
    if i <= lo then lo else if i <= hi then i else hi
  }

  lemma RunInOrder(segs: seq<Segment>, lo: nat, i: nat)
    requires Sorted(segs) && lo <= i < |segs|
    ensures lo < i ==> segs[lo].end < segs[i].start && segs[i - 1].end < segs[i].start
    ensures segs[lo..i] + [segs[i]] == segs[lo..i + 1]
  {
    if lo < i {
      SortedPair(segs, lo, i);
      SortedPair(segs, i - 1, i);
    }
  }

  lemma RunGrows(run: seq<Segment>, s: Segment, range: Range)
    requires run != [] ==> run[0].end < s.start && run[|run| - 1].end < s.start
    ensures UnionStart(run + [s], range) == Min(UnionStart(run, range), s.start)
    ensures UnionEnd(run + [s], range) == Max(UnionEnd(run, range), s.end)
    ensures Total(run + [s]) == Total(run) + (s.end - s.start)
  {
    SamePrefix(run + [s], run, |run|);
  }

  // ------------------------------------------------------------------ coalesced backing

  /** copy_into_union: the whole source lands at its offset and nothing else moves. */
  method CopyIntoUnion(unionStart: nat, union: array<Byte>, sourceStart: nat, source: seq<Byte>)
    returns (ok: bool)
    requires unionStart <= sourceStart
    modifies union
    ensures ok <==> sourceStart - unionStart + |source| <= union.Length
    ensures ok ==> union[..] == Splice(old(union[..]), sourceStart - unionStart, source)
    ensures !ok ==> union[..] == old(union[..])
  {
    var offset := sourceStart - unionStart;
    if offset + |source| > union.Length {
      return false;
    }
    for n := 0 to |source|
      invariant forall m :: 0 <= m < union.Length ==>
                  union[m] == if 0 <= m - offset < n then source[m - offset] else old(union[m])
    {
      union[offset + n] := source[n];
    }
    assert union[..] == Splice(old(union[..]), offset, source);
    return true;
  }

  /** The buffer with `source` written over it at `offset`. */
  ghost function Splice(buffer: seq<Byte>, offset: nat, source: seq<Byte>): (r: seq<Byte>)
    requires offset + |source| <= |buffer|
    ensures |r| == |buffer| && r[offset..offset + |source|] == source
  {
    buffer[..offset] + source + buffer[offset + |source|..]
  }

  /** The buffer, whose first byte is offset `base`, holds the bytes of the segment. */
  ghost predicate Holds(buffer: seq<Byte>, base: nat, segment: Segment) {
    && base <= segment.start && segment.end - base <= |buffer|
    && buffer[segment.start - base..segment.end - base] == segment.backing
  }

  lemma RunFits(run: seq<Segment>, range: Range)
    requires Sorted(run)
    ensures forall j :: 0 <= j < |run| ==> UnionStart(run, range) <= run[j].start && run[j].end <= UnionEnd(run, range)
  {
    forall j | 0 <= j < |run| ensures UnionStart(run, range) <= run[j].start && run[j].end <= UnionEnd(run, range) {
      if 0 < j { SortedPair(run, 0, j); }
      if j < |run| - 1 { SortedPair(run, j, |run| - 1); }
    }
  }

  /** The loop that copies every affected segment into the buffer. */
  method CopyRun(union: array<Byte>, segs: seq<Segment>, affected: seq<nat>, unionStart: nat,
                 ghost run: seq<Segment>)
    returns (ok: bool)
    requires Sorted(run) && |affected| == |run|
    requires forall n :: 0 <= n < |affected| ==> affected[n] < |segs| && segs[affected[n]] == run[n]
    requires forall j :: 0 <= j < |run| ==> unionStart <= run[j].start && run[j].end - unionStart <= union.Length
    modifies union
    ensures ok && forall j :: 0 <= j < |run| ==> Holds(union[..], unionStart, run[j])
  {
    for a := 0 to |affected|
      invariant forall j :: 0 <= j < a ==> Holds(union[..], unionStart, run[j])
    {
      var segment := segs[affected[a]];
      ghost var before := union[..];
      ok := CopyIntoUnion(unionStart, union, segment.start, segment.backing);
      if !ok {
        return;
      }
      CopyKeeps(before, unionStart, run, a);
    }
    return true;
  }

  lemma CopyKeeps(before: seq<Byte>, base: nat, run: seq<Segment>, a: nat)
    requires Sorted(run) && a < |run|
    requires base <= run[a].start && run[a].end - base <= |before|
    requires forall j :: 0 <= j < a ==> Holds(before, base, run[j])
    ensures forall j :: 0 <= j < a + 1 ==> Holds(Splice(before, run[a].start - base, run[a].backing), base, run[j])
  {
    forall j | 0 <= j < a ensures Holds(Splice(before, run[a].start - base, run[a].backing), base, run[j]) {
      SortedPair(run, j, a);
      SpliceKeeps(before, base, run[a], run[j]);
    }
  }

  lemma SpliceKeeps(before: seq<Byte>, base: nat, next: Segment, s: Segment)
    requires Holds(before, base, s) && s.end < next.start && next.end - base <= |before|
    ensures Holds(Splice(before, next.start - base, next.backing), base, s)
  {
    var from, to := s.start - base, s.end - base;
    assert Splice(before, next.start - base, next.backing)[from..to] == before[from..to];
  }

  /** The coalescing buffer: zeroed, filled with every affected segment and finally with
      the response. */
  method BuildUnion(segs: seq<Segment>, affected: seq<nat>, unionStart: nat, unionEnd: nat,
                    range: Range, bytes: seq<Byte>, ghost run: seq<Segment>)
    returns (merged: Option<seq<Byte>>)
    requires Sorted(run) && |bytes| == range.len
    requires |affected| == |run|
    requires forall n :: 0 <= n < |affected| ==> affected[n] < |segs| && segs[affected[n]] == run[n]
    requires unionStart == UnionStart(run, range) && unionEnd == UnionEnd(run, range)
    ensures merged.Some? && IsUnion(run, range, bytes, merged.value)
  {
    hide IsUnion, Holds, Sorted, Splice;
    RunFits(run, range);
    var union := new Byte[unionEnd - unionStart](_ => 0);
    var ok := CopyRun(union, segs, affected, unionStart, run);
    if ok {
      UnionSpliced(run, range, bytes, unionStart, union[..]);
      ok := CopyIntoUnion(unionStart, union, range.start, bytes);
    }
    merged := if ok then Some(union[..]) else None;
  }

  /** `merged` carries the response where it answers and the old bytes elsewhere. */
  ghost predicate IsUnion(run: seq<Segment>, range: Range, bytes: seq<Byte>, merged: seq<Byte>)
    requires |bytes| == range.len
  {
    var base := UnionStart(run, range);
    && |merged| == UnionEnd(run, range) - base
    && merged[range.start - base..range.End() - base] == bytes
    && (forall k: nat :: At(run, k).Some? && !range.Contains(k) ==>
          base <= k < base + |merged| && merged[k - base] == At(run, k).value)
  }

  lemma UnionDone(run: seq<Segment>, range: Range, bytes: seq<Byte>, base: nat, before: seq<Byte>, buffer: seq<Byte>)
    requires Sorted(run) && |bytes| == range.len && base == UnionStart(run, range)
    requires |before| == |buffer| == UnionEnd(run, range) - base
    requires forall j :: 0 <= j < |run| ==> Holds(before, base, run[j])
    requires buffer[range.start - base..range.start - base + |bytes|] == bytes
    requires forall n :: 0 <= n < |buffer| ==> 0 <= n - (range.start - base) < |bytes| || buffer[n] == before[n]
    ensures IsUnion(run, range, bytes, buffer)
  {
    hide At, Sorted, Holds;
    forall k: nat | At(run, k).Some? && !range.Contains(k)
      ensures base <= k < base + |buffer| && buffer[k - base] == At(run, k).value
    {
      HeldContent(before, base, run, k);
    }
  }

  lemma UnionSpliced(run: seq<Segment>, range: Range, bytes: seq<Byte>, base: nat, before: seq<Byte>)
    requires Sorted(run) && |bytes| == range.len && base == UnionStart(run, range)
    requires |before| == UnionEnd(run, range) - base
    requires forall j :: 0 <= j < |run| ==> Holds(before, base, run[j])
    ensures IsUnion(run, range, bytes, Splice(before, range.start - base, bytes))
  {
    SpliceFacts(before, range.start - base, bytes);
    UnionDone(run, range, bytes, base, before, Splice(before, range.start - base, bytes));
  }

  lemma SpliceFacts(buffer: seq<Byte>, offset: nat, source: seq<Byte>)
    requires offset + |source| <= |buffer|
    ensures var r := Splice(buffer, offset, source);
            && r[offset..offset + |source|] == source
            && forall n :: 0 <= n < |r| ==> 0 <= n - offset < |source| || r[n] == buffer[n]
  {
  }

  lemma HeldContent(buffer: seq<Byte>, base: nat, run: seq<Segment>, k: nat)
    requires Sorted(run) && forall j :: 0 <= j < |run| ==> Holds(buffer, base, run[j])
    requires At(run, k).Some?
    ensures base <= k < base + |buffer| && buffer[k - base] == At(run, k).value
  {
    AtHas(run, k);
    var j :| 0 <= j < |run| && run[j].Contains(k);
    AtValue(run, j, k);
    HeldByte(buffer, base, run[j], k);
  }

  lemma HeldByte(buffer: seq<Byte>, base: nat, segment: Segment, k: nat)
    requires Holds(buffer, base, segment) && segment.Contains(k)
    ensures base <= k < base + |buffer| && buffer[k - base] == segment.backing[k - segment.start]
  {
    assert buffer[segment.start - base..segment.end - base][k - segment.start] == buffer[k - base];
  }

  // ------------------------------------------------------------------ rebuilt list

  /** The loop that keeps the unaffected segments. */
  method KeepUnaffected(segs: seq<Segment>, affected: seq<nat>, ghost lo: nat, ghost hi: nat)
    returns (kept: seq<Segment>)
    requires lo <= hi <= |segs|
    requires |affected| == hi - lo && forall n :: 0 <= n < |affected| ==> affected[n] == lo + n
    ensures kept == segs[..lo] + segs[hi..]
  {
    kept := [];
    for i := 0 to |segs|
      invariant kept == segs[..Min(i, lo)] + segs[hi..Max(i, hi)]
    {
      assert i in affected <==> lo <= i < hi by {
        if lo <= i < hi { assert affected[i - lo] == i; }
      }
      if i !in affected {
        kept := kept + [segs[i]];
      }
    }
  }

  /** binary_search_by_key on the segment start: a matching index or the insertion point. */
  method SearchStart(segs: seq<Segment>, start: nat) returns (index: nat)
    requires Sorted(segs)
    ensures index <= |segs|
    ensures forall i :: 0 <= i < index ==> segs[i].start < start
    ensures forall i :: index <= i < |segs| ==> segs[i].start >= start
  {
    SortedPairwise(segs);
    var lo, hi := 0, |segs|;
    while lo < hi
      invariant 0 <= lo <= hi <= |segs|
      invariant forall i :: 0 <= i < lo ==> segs[i].start < start
      invariant forall i :: hi <= i < |segs| ==> segs[i].start >= start
    {
      var mid := (lo + hi) / 2;
      if segs[mid].start < start {
        lo := mid + 1;
      } else {
        hi := mid;
      }
    }
    index := lo;
  }

  /** The segment that replaces the run. */
  ghost predicate UnionSegment(run: seq<Segment>, range: Range, bytes: seq<Byte>, u: Segment)
    requires |bytes| == range.len
  {
    && u.start == UnionStart(run, range) && u.end == UnionEnd(run, range)
    && IsUnion(run, range, bytes, u.backing)
  }

  /** The union keeps clear of its neighbours, so the rebuilt list is canonical. */
  lemma RebuiltSorted(before: seq<Segment>, run: seq<Segment>, after: seq<Segment>, range: Range, u: Segment)
    requires Sorted(before + run + after)
    requires u.start == UnionStart(run, range) && u.end == UnionEnd(run, range)
    requires before != [] ==> before[|before| - 1].end < range.start
    requires after != [] ==> range.End() < after[0].start
    ensures Sorted(before + [u] + after) && Sorted(before + after) && Sorted(run)
    ensures Before(before, [u]) && Before([u], after)
  {
    Append(before + run, after);
    Append(before, run);
    Append(before, [u]);
    Append(before + [u], after);
    Append(before, after);
  }

  /** The byte a response of `bytes` at `range` leaves at offset k. */
  ghost function Updated(segs: seq<Segment>, range: Range, bytes: seq<Byte>, k: nat): Option<Byte>
    requires |bytes| == range.len
  {
    if range.Contains(k) then Some(bytes[k - range.start]) else At(segs, k)
  }

  /** The union segment alone stands for the run updated by the response. */
  lemma UnionAt(run: seq<Segment>, range: Range, bytes: seq<Byte>, u: Segment, k: nat)
    requires Sorted(run) && |bytes| == range.len && UnionSegment(run, range, bytes, u)
    requires forall i :: 0 <= i < |run| ==> Touches(run[i], range)
    ensures At([u], k) == Updated(run, range, bytes, k)
  {
    assert AtTo([u], 0, k) == None;
    if range.Contains(k) {
      ResponseByte(run, range, bytes, u, k);
    } else if u.Contains(k) {
      UnionIsFull(run, range, k);
    }
  }

  lemma ResponseByte(run: seq<Segment>, range: Range, bytes: seq<Byte>, u: Segment, k: nat)
    requires |bytes| == range.len && UnionSegment(run, range, bytes, u) && range.Contains(k)
    ensures u.Contains(k) && u.backing[k - u.start] == bytes[k - range.start]
  {
    assert u.backing[range.start - u.start..range.End() - u.start][k - range.start] == u.backing[k - u.start];
  }

  /** Every offset of the union that the response leaves out is already cached. */
  lemma UnionIsFull(run: seq<Segment>, range: Range, k: nat)
    requires Sorted(run) && forall i :: 0 <= i < |run| ==> Touches(run[i], range)
    requires UnionStart(run, range) <= k < UnionEnd(run, range) && !range.Contains(k)
    ensures At(run, k).Some?
  {
    var j := if k < range.start then 0 else |run| - 1;
    assert Touches(run[j], range);
    AtValue(run, j, k);
  }

  /** The rebuilt list stands for the old content updated by the response. */
  lemma RebuiltAt(before: seq<Segment>, run: seq<Segment>, after: seq<Segment>, range: Range,
                  bytes: seq<Byte>, u: Segment, k: nat)
    requires Sorted(run) && |bytes| == range.len && UnionSegment(run, range, bytes, u)
    requires forall i :: 0 <= i < |run| ==> Touches(run[i], range)
    requires forall i :: 0 <= i < |after| ==> range.End() < after[i].start
    ensures At(before + [u] + after, k) == Updated(before + run + after, range, bytes, k)
  {
    AppendAt(before + [u], after, k);
    AppendAt(before, [u], k);
    AppendAt(before + run, after, k);
    AppendAt(before, run, k);
    UnionAt(run, range, bytes, u, k);
    if range.Contains(k) { AtHas(after, k); }
  }

  /** The cached-byte arithmetic of supply: subtract the replaced run, add the union. */
  lemma RebuiltTotal(before: seq<Segment>, run: seq<Segment>, after: seq<Segment>, u: Segment)
    ensures Total(before + [u] + after) == Total(before + run + after) - Total(run) + (u.end - u.start)
  {
    Append(before, run);
    Append(before + run, after);
    Append(before, [u]);
    Append(before + [u], after);
    assert TotalTo([u], 0) == 0;
  }
}
