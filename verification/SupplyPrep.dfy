/** The part of `supply` between the conflict check and the commit: it prepares the new
    segment list and the ticket updates without touching the store
    (pdf-rs/bytes/src/store.rs, lines 547-729). */
module SupplyPrep {
  import opened Basics
  import opened Ranges
  import opened Segments
  import opened Coalesce
  import opened StoreSpec
  import opened StoreInv

  // ------------------------------------------------------------------ rebuilt segments

  /** The list with the run [lo, hi) replaced by u. */
  ghost function Rebuilt(segs: seq<Segment>, lo: nat, hi: nat, u: Segment): seq<Segment>
    requires lo <= hi <= |segs|
  {
    segs[..lo] + [u] + segs[hi..]
  }

  lemma Pieces(segs: seq<Segment>, range: Range, lo: nat, hi: nat)
    requires Split(segs, range, lo, hi)
    ensures segs == segs[..lo] + segs[lo..hi] + segs[hi..]
    ensures forall i :: 0 <= i < |segs[lo..hi]| ==> Touches(segs[lo..hi][i], range)
    ensures forall i :: 0 <= i < |segs[hi..]| ==> range.End() < segs[hi..][i].start
    ensures segs[..lo] != [] ==> segs[..lo][|segs[..lo]| - 1].end < range.start
  {
  }

  lemma RunSorted(segs: seq<Segment>, lo: nat, hi: nat)
    requires Sorted(segs) && lo <= hi <= |segs|
    ensures Sorted(segs[lo..hi]) && Sorted(segs[..lo] + segs[hi..])
  {
    assert segs == segs[..lo] + segs[lo..hi] + segs[hi..];
    if 0 < lo && hi < |segs| { SortedPair(segs, lo - 1, hi); }
    PartsSorted(segs[..lo], segs[lo..hi], segs[hi..]);
  }

  lemma PartsSorted(before: seq<Segment>, run: seq<Segment>, after: seq<Segment>)
    requires Sorted(before + run + after) && Before(before, after)
    ensures Sorted(run) && Sorted(before + after)
  {
    Append(before + run, after);
    Append(before, run);
    Append(before, after);
  }

  /** Replacing the run by a union segment rebuilds the store for this response. */
  lemma RebuiltFacts(segs: seq<Segment>, response: Response, lo: nat, hi: nat, u: Segment)
    requires Sorted(segs) && response.Valid() && Split(segs, response.range, lo, hi)
    requires UnionSegment(segs[lo..hi], response.range, response.bytes, u)
    ensures Rebuilds(segs, response, Rebuilt(segs, lo, hi, u))
    ensures Total(Rebuilt(segs, lo, hi, u)) == Total(segs) - Total(segs[lo..hi]) + (u.end - u.start)
    ensures |Rebuilt(segs, lo, hi, u)| == |segs| - (hi - lo) + 1
  {
    Pieces(segs, response.range, lo, hi);
    var before, run, after := segs[..lo], segs[lo..hi], segs[hi..];
    RebuiltSorted(before, run, after, response.range, u);
    RebuiltTotal(before, run, after, u);
    forall k: nat ensures At(Rebuilt(segs, lo, hi, u), k) == Updated(segs, response.range, response.bytes, k) {
      RebuiltAt(before, run, after, response.range, response.bytes, u, k);
    }
  }

  ghost function ByteOrZero(b: Option<Byte>): Byte { if b.Some? then b.value else 0 }

  /** `backing` holds the updated content from offset `base` on. */
  ghost predicate Backs(run: seq<Segment>, range: Range, bytes: seq<Byte>, base: nat, backing: seq<Byte>)
    requires |bytes| == range.len
  {
    forall i :: 0 <= i < |backing| ==> backing[i] == ByteOrZero(Updated(run, range, bytes, base + i))
  }

  ghost function UnionBacking(run: seq<Segment>, range: Range, bytes: seq<Byte>, base: nat, n: nat): (r: seq<Byte>)
    requires |bytes| == range.len
    ensures |r| == n && Backs(run, range, bytes, base, r)
  {
    if n == 0 then [] else UnionBacking(run, range, bytes, base, n - 1) + [ByteOrZero(Updated(run, range, bytes, base + n - 1))]
  }

  /** A union segment always exists, whether or not the limits let it be built. */
  lemma UnionExists(run: seq<Segment>, range: Range, bytes: seq<Byte>) returns (u: Segment)
    requires Sorted(run) && |bytes| == range.len
    ensures UnionSegment(run, range, bytes, u)
  {
    hide IsUnion, UnionBacking, Backs;
    var base, end := UnionStart(run, range), UnionEnd(run, range);
    var backing := UnionBacking(run, range, bytes, base, end - base);
    BackedIsUnion(run, range, bytes, backing);
    u := CachedSegment.Segment(base, end, backing, end - base);
  }

  lemma BackedIsUnion(run: seq<Segment>, range: Range, bytes: seq<Byte>, backing: seq<Byte>)
    requires Sorted(run) && |bytes| == range.len && |backing| == UnionEnd(run, range) - UnionStart(run, range)
    requires Backs(run, range, bytes, UnionStart(run, range), backing)
    ensures IsUnion(run, range, bytes, backing)
  {
    hide At, Sorted, Backs;
    var base := UnionStart(run, range);
    BackedSlice(run, range, bytes, base, backing);
    forall k: nat | At(run, k).Some? && !range.Contains(k)
      ensures base <= k < base + |backing| && backing[k - base] == At(run, k).value
    {
      BackedOutside(run, range, bytes, backing, k);
    }
  }

  lemma BackedSlice(run: seq<Segment>, range: Range, bytes: seq<Byte>, base: nat, backing: seq<Byte>)
    requires |bytes| == range.len && base <= range.start && range.End() <= base + |backing|
    requires Backs(run, range, bytes, base, backing)
    ensures backing[range.start - base..range.End() - base] == bytes
  {
    hide At;
    var slice := backing[range.start - base..range.End() - base];
    forall i | 0 <= i < range.len ensures slice[i] == bytes[i] {
      assert range.Contains(range.start + i) && base + (range.start - base + i) == range.start + i;
    }
  }

  lemma BackedOutside(run: seq<Segment>, range: Range, bytes: seq<Byte>, backing: seq<Byte>, k: nat)
    requires Sorted(run) && |bytes| == range.len && |backing| == UnionEnd(run, range) - UnionStart(run, range)
    requires Backs(run, range, bytes, UnionStart(run, range), backing)
    requires At(run, k).Some? && !range.Contains(k)
    ensures 0 <= k - UnionStart(run, range) < |backing| && backing[k - UnionStart(run, range)] == At(run, k).value
  {
    var base := UnionStart(run, range);
    RunFits(run, range);
    AtHas(run, k);
    hide At, Sorted, UnionStart, UnionEnd;
    assert base + (k - base) == k;
  }

  lemma RebuildExists(segs: seq<Segment>, response: Response, lo: nat, hi: nat) returns (segs': seq<Segment>)
    requires Sorted(segs) && response.Valid() && Split(segs, response.range, lo, hi)
    ensures Rebuilds(segs, response, segs')
    ensures var run := segs[lo..hi];
            var len := UnionEnd(run, response.range) - UnionStart(run, response.range);
            && Total(segs') == Total(segs) - Total(run) + len
            && |segs'| == |segs| - (hi - lo) + 1 && MergedLen(segs', |segs'|, response.range.start) == len
  {
    RunSorted(segs, lo, hi);
    var u := UnionExists(segs[lo..hi], response.range, response.bytes);
    RebuiltSizes(segs, response, lo, hi, u);
    segs' := Rebuilt(segs, lo, hi, u);
  }

  /** Count, bytes and coalesced length of a rebuilt list do not depend on its backing. */
  lemma RebuiltSizes(segs: seq<Segment>, response: Response, lo: nat, hi: nat, u: Segment)
    requires Sorted(segs) && response.Valid() && Split(segs, response.range, lo, hi)
    requires UnionSegment(segs[lo..hi], response.range, response.bytes, u)
    ensures var run, segs' := segs[lo..hi], Rebuilt(segs, lo, hi, u);
            var len := UnionEnd(run, response.range) - UnionStart(run, response.range);
            && Rebuilds(segs, response, segs')
            && Total(segs') == Total(segs) - Total(run) + len
            && |segs'| == |segs| - (hi - lo) + 1 && MergedLen(segs', |segs'|, response.range.start) == len
  {
    hide Sorted, IsUnion, Rebuilds, At, Total;
    RebuiltFacts(segs, response, lo, hi, u);
    RebuildsSorted(segs, response, Rebuilt(segs, lo, hi, u));
    MergedLenAt(Rebuilt(segs, lo, hi, u), |segs| - (hi - lo) + 1, lo, response.range.start);
  }

  lemma RebuildsSorted(segs: seq<Segment>, r: Response, segs': seq<Segment>)
    requires r.Valid() && Rebuilds(segs, r, segs')
    ensures Sorted(segs')
  {
  }

  lemma {:induction false} MergedLenAt(segs: seq<Segment>, n: nat, i: nat, k: nat)
    requires Sorted(segs) && i < n <= |segs| && segs[i].Contains(k)
    ensures MergedLen(segs, n, k) == |segs[i].backing|
  {
    if i < n - 1 {
      SortedPair(segs, i, n - 1);
      MergedLenAt(segs, n - 1, i, k);
    }
  }

  lemma SplitTouches(segs: seq<Segment>, range: Range, lo: nat, hi: nat)
    requires Split(segs, range, lo, hi)
    ensures TouchesAny(segs, range) <==> lo < hi
  {
    if lo < hi { assert Touches(segs[lo], range); }
  }

  lemma RunTotal(segs: seq<Segment>, lo: nat, hi: nat)
    requires lo <= hi <= |segs|
    ensures Total(segs[lo..hi]) <= Total(segs)
  {
    Append(segs[..lo], segs[lo..]);
    Append(segs[lo..hi], segs[hi..]);
    assert segs[..lo] + segs[lo..] == segs && segs[lo..hi] + segs[hi..] == segs[lo..];
  }

  /** The union goes where its start sorts among the kept segments: at the run. */
  lemma InsertionPoint(segs: seq<Segment>, range: Range, lo: nat, hi: nat, u: Segment, kept: seq<Segment>, p: nat)
    requires Sorted(segs) && Split(segs, range, lo, hi)
    requires u.start == UnionStart(segs[lo..hi], range) && u.end == UnionEnd(segs[lo..hi], range)
    requires kept == segs[..lo] + segs[hi..] && p <= |kept|
    requires p > lo ==> kept[lo].start < u.start
    requires p < lo ==> u.start <= kept[lo - 1].start
    ensures p == lo && kept[..p] + [u] + kept[p..] == Rebuilt(segs, lo, hi, u)
  {
    Pieces(segs, range, lo, hi);
    RebuiltSorted(segs[..lo], segs[lo..hi], segs[hi..], range, u);
  }

  /** The coalesced backing, or the response itself when nothing is touched. */
  method UnionFor(segs: seq<Segment>, response: Response, alloc: Alloc, affected: seq<nat>, unionStart: nat,
                  unionEnd: nat, limits: Limits, ghost lo: nat, ghost hi: nat)
    returns (r: Result<Segment>)
    requires Sorted(segs) && response.Valid() && Split(segs, response.range, lo, hi)
    requires |affected| == hi - lo && forall n :: 0 <= n < |affected| ==> affected[n] == lo + n
    requires unionStart == UnionStart(segs[lo..hi], response.range)
    requires unionEnd == UnionEnd(segs[lo..hi], response.range)
    ensures r.Ok? ==> UnionSegment(segs[lo..hi], response.range, response.bytes, r.value)
    ensures var limit := if affected == [] then None else UnionLimit(limits, unionEnd - unionStart, alloc);
            if limit.Some? then r == Err(limit.value) else r.Ok?
  {
    if |affected| == 0 {
      AloneIsUnion(segs[lo..hi], response);
      return Ok(CachedSegment.Segment(unionStart, unionEnd, response.bytes, response.capacity));
    }
    var mergedLen := unionEnd - unionStart;
    if alloc.remainderSeen + mergedLen > limits.maxResident {
      return Err(ResourceLimit(ResidentBytes, limits.maxResident, Min(U64_MAX, alloc.remainderSeen + mergedLen)));
    }
    if !alloc.merged {
      return Err(ResourceLimit(Allocation, limits.maxResident, mergedLen));
    }
    var capacity := mergedLen + alloc.slack;
    if alloc.remainderSeen + capacity > limits.maxResident {
      return Err(ResourceLimit(ResidentBytes, limits.maxResident, Min(U64_MAX, alloc.remainderSeen + capacity)));
    }
    RunSorted(segs, lo, hi);
    var merged := BuildUnion(segs, affected, unionStart, unionEnd, response.range, response.bytes, segs[lo..hi]);
    return Ok(CachedSegment.Segment(unionStart, unionEnd, merged.value, capacity));
  }

  lemma AloneIsUnion(run: seq<Segment>, response: Response)
    requires run == [] && response.Valid()
    ensures UnionSegment(run, response.range, response.bytes,
                         CachedSegment.Segment(response.range.start, response.range.End(), response.bytes, response.capacity))
  {
    assert response.bytes[0..response.range.len] == response.bytes;
    assert forall k: nat :: At(run, k) == None;
  }

  /** Lines 547-703. */
  method PrepareSegments(segs: seq<Segment>, cachedBytes: nat, response: Response, alloc: Alloc, limits: Limits)
    returns (r: Result<seq<Segment>>, newCachedBytes: nat, ghost prospect: seq<Segment>)
    requires Sorted(segs) && cachedBytes == Total(segs) && response.Valid()
    ensures Rebuilds(segs, response, prospect)
    ensures var limit := SegmentLimit(limits, segs, response.range, prospect, alloc);
            if limit.Some? then r == Err(limit.value) else r == Ok(prospect)
    ensures r.Ok? ==> newCachedBytes == Total(r.value)
  {
    hide Rebuilds, TouchesAny, UnionSegment, Split, Sorted, Total, Rebuilt, MergedLen, UnionLimit;
    newCachedBytes := 0;
    if !alloc.affected {
      ghost var anyLo, anyHi := SplitExists(segs, response.range);
      prospect := RebuildExists(segs, response, anyLo, anyHi);
      r := Err(ResourceLimit(Allocation, limits.maxSegments, |segs|));
      return;
    }
    var affected, unionStart, unionEnd, removed, lo, hi := FindAffected(segs, response.range);
    RunTotal(segs, lo, hi);
    SplitTouches(segs, response.range, lo, hi);
    prospect := RebuildExists(segs, response, lo, hi);
    newCachedBytes := cachedBytes - removed + (unionEnd - unionStart);
    var newCount := |segs| - |affected| + 1;
    if newCachedBytes > limits.maxCached {
      r := Err(ResourceLimit(LimitKind.CachedBytes, limits.maxCached, newCachedBytes));
    } else if newCount > limits.maxSegments {
      r := Err(ResourceLimit(LimitKind.Segments, limits.maxSegments, newCount));
    } else {
      var union := UnionFor(segs, response, alloc, affected, unionStart, unionEnd, limits, lo, hi);
      if union.Err? {
        r := Err(union.error);
      } else if !alloc.prospective {
        r := Err(ResourceLimit(Allocation, limits.maxSegments, newCount));
      } else {
        var rebuilt := InsertUnion(segs, response.range, affected, union.value, lo, hi);
        RebuiltSizes(segs, response, lo, hi, union.value);
        prospect := rebuilt;
        r := Ok(rebuilt);
      }
    }
  }

  method InsertUnion(segs: seq<Segment>, range: Range, affected: seq<nat>, u: Segment, ghost lo: nat, ghost hi: nat)
    returns (rebuilt: seq<Segment>)
    requires Sorted(segs) && Split(segs, range, lo, hi)
    requires |affected| == hi - lo && forall n :: 0 <= n < |affected| ==> affected[n] == lo + n
    requires u.start == UnionStart(segs[lo..hi], range) && u.end == UnionEnd(segs[lo..hi], range)
    ensures rebuilt == Rebuilt(segs, lo, hi, u)
  {
    var kept := KeepUnaffected(segs, affected, lo, hi);
    RunSorted(segs, lo, hi);
    var insertion := SearchStart(kept, u.start);
    InsertionPoint(segs, range, lo, hi, u, kept, insertion);
    rebuilt := kept[..insertion] + [u] + kept[insertion..];
  }

  // ------------------------------------------------------------------ ticket updates

  /** One prepared update: the remaining ranges of a pending record, or None to wake it. */
  datatype Update = Update(index: nat, remaining: Option<seq<Range>>)

  ghost function RemainingFor(r: Record, segs: seq<Segment>, bound: Option<nat>): Option<seq<Range>> {
    var rest := GapsOf(segs, r.missing);
    if rest == [] || (bound.Some? && LastMissing(rest) > bound.value) then None else Some(rest)
  }

  /** The updates prepared for the first n records. */
  ghost function Updates(tickets: seq<Record>, segs: seq<Segment>, bound: Option<nat>, n: nat): (u: seq<Update>)
    requires n <= |tickets|
    ensures forall m :: 0 <= m < |u| ==> u[m].index < n
  {
    if n == 0 then []
    else if tickets[n - 1].phase.Pending?
    then Updates(tickets, segs, bound, n - 1) + [Update(n - 1, RemainingFor(tickets[n - 1], segs, bound))]
    else Updates(tickets, segs, bound, n - 1)
  }

  /** Lines 705-729. */
  method PrepareUpdates(tickets: seq<Record>, segs: seq<Segment>, bound: Option<nat>, alloc: Alloc, limits: Limits)
    returns (r: Result<seq<Update>>)
    requires Sorted(segs)
    requires forall i :: 0 <= i < |tickets| && tickets[i].phase.Pending? ==> Canonical(tickets[i].missing)
    ensures r.Ok? ==> forall i :: 0 <= i < |tickets| && tickets[i].phase.Pending? ==>
                        |GapsOf(segs, tickets[i].missing)| <= limits.maxMissing
    ensures var limit := UpdateLimit(limits, tickets, segs, alloc);
            if limit.Some? then r == Err(limit.value) else r == Ok(Updates(tickets, segs, bound, |tickets|))
  {
    hide GapsOf;
    if !alloc.updates {
      return Err(ResourceLimit(Allocation, limits.maxTickets, |tickets|));
    }
    var updates: seq<Update> := [];
    for i := 0 to |tickets|
      invariant updates == Updates(tickets, segs, bound, i)
      invariant MissingLimit(limits, tickets, segs, alloc, 0) == MissingLimit(limits, tickets, segs, alloc, i)
      invariant forall j :: 0 <= j < i && tickets[j].phase.Pending? ==>
                  |GapsOf(segs, tickets[j].missing)| <= limits.maxMissing
    {
      var record := tickets[i];
      if record.phase == Pending {
        var remaining := RemainingMissingRanges(segs, record.missing, limits.maxMissing, alloc.missing);
        if remaining.Err? {
          return Err(remaining.error);
        }
        var resolvesAtEof := bound.Some? && remaining.value.Some? && LastMissing(remaining.value.value) > bound.value;
        updates := updates + [Update(i, if resolvesAtEof then None else remaining.value)];
      }
    }
    return Ok(updates);
  }

  ghost function Applied(r: Record, remaining: Option<seq<Range>>): Record {
    if remaining.Some? then r.(missing := remaining.value) else r.(phase := Ready)
  }

  ghost function ApplyOne(tickets: seq<Record>, u: Update): (after: seq<Record>)
    ensures |after| == |tickets|
  {
    if u.index < |tickets| then tickets[u.index := Applied(tickets[u.index], u.remaining)] else tickets
  }

  /** The records after applying the first m updates. */
  ghost function Apply(tickets: seq<Record>, updates: seq<Update>, m: nat): (after: seq<Record>)
    requires m <= |updates|
    ensures |after| == |tickets|
  {
    if m == 0 then tickets else ApplyOne(Apply(tickets, updates, m - 1), updates[m - 1])
  }

  /** The ticket an update reports ready, if any. */
  ghost function ReadyOf(tickets: seq<Record>, u: Update): seq<Ticket> {
    if u.remaining.None? && u.index < |tickets| then [tickets[u.index].ticket] else []
  }

  /** The tickets reported ready by the first m updates. */
  ghost function ApplyReady(tickets: seq<Record>, updates: seq<Update>, m: nat): seq<Ticket>
    requires m <= |updates|
  {
    if m == 0 then [] else ApplyReady(tickets, updates, m - 1) + ReadyOf(tickets, updates[m - 1])
  }

  /** Applying one more update. */
  lemma ApplyOn(tickets: seq<Record>, updates: seq<Update>, m: nat)
    requires m < |updates| && updates[m].index < |tickets|
    ensures var t, i := Apply(tickets, updates, m), updates[m].index;
            && Apply(tickets, updates, m + 1) == t[i := Applied(t[i], updates[m].remaining)]
            && ApplyReady(tickets, updates, m + 1)
               == if updates[m].remaining.None? then ApplyReady(tickets, updates, m) + [tickets[i].ticket]
                  else ApplyReady(tickets, updates, m)
  {
  }

  lemma {:induction false} ApplyPrefix(tickets: seq<Record>, a: seq<Update>, b: seq<Update>, m: nat)
    requires m <= |a| && m <= |b| && forall i :: 0 <= i < m ==> a[i] == b[i]
    ensures Apply(tickets, a, m) == Apply(tickets, b, m)
    ensures ApplyReady(tickets, a, m) == ApplyReady(tickets, b, m)
  {
    if m > 0 { ApplyPrefix(tickets, a, b, m - 1); }
  }

  lemma ApplyLast(tickets: seq<Record>, a: seq<Update>, b: seq<Update>)
    requires |b| == |a| + 1 && (forall i :: 0 <= i < |a| ==> b[i] == a[i])
    ensures Apply(tickets, b, |b|) == ApplyOne(Apply(tickets, a, |a|), b[|a|])
  {
    ApplyPrefix(tickets, b, a, |a|);
  }

  lemma ReadyLast(tickets: seq<Record>, a: seq<Update>, b: seq<Update>, m: nat)
    requires m == |a| && |b| == m + 1 && (forall i :: 0 <= i < m ==> b[i] == a[i])
    ensures ApplyReady(tickets, b, m + 1) == ApplyReady(tickets, a, m) +
              ReadyOf(tickets, b[m])
  {
    hide Apply;
    ApplyPrefix(tickets, b, a, m);
  }

  /** Applying the prepared updates of the first n records wakes exactly those records. */
  lemma {:induction false} UpdatesWake(tickets: seq<Record>, segs: seq<Segment>, bound: Option<nat>, n: nat, j: nat)
    requires n <= |tickets| && j < |tickets|
    ensures Apply(tickets, Updates(tickets, segs, bound, n), |Updates(tickets, segs, bound, n)|)[j]
            == if j < n then WokenRecord(tickets[j], segs, bound) else tickets[j]
  {
    hide GapsOf, LastMissing, ApplyReady;
    if n > 0 {
      UpdatesWake(tickets, segs, bound, n - 1, j);
      if tickets[n - 1].phase.Pending? {
        UpdatesLast(tickets, segs, bound, n - 1);
        hide Updates;
        ApplyLast(tickets, Updates(tickets, segs, bound, n - 1), Updates(tickets, segs, bound, n));
      }
    }
  }

  /** Preparing one more pending record adds its update. */
  lemma UpdatesLast(tickets: seq<Record>, segs: seq<Segment>, bound: Option<nat>, n: nat)
    requires n < |tickets| && tickets[n].phase.Pending?
    ensures Updates(tickets, segs, bound, n + 1)
            == Updates(tickets, segs, bound, n) + [Update(n, RemainingFor(tickets[n], segs, bound))]
  {
  }

  /** A pending record becomes ready exactly when its update reports it. */
  lemma UpdateWakes(tickets: seq<Record>, segs: seq<Segment>, bound: Option<nat>, n: nat)
    requires n < |tickets| && tickets[n].phase.Pending?
    ensures NewlyReady(tickets, Woken(tickets, segs, bound), n + 1)
            == NewlyReady(tickets, Woken(tickets, segs, bound), n)
               + ReadyOf(tickets, Update(n, RemainingFor(tickets[n], segs, bound)))
  {
    hide GapsOf, LastMissing;
    assert Woken(tickets, segs, bound)[n] == WokenRecord(tickets[n], segs, bound);
  }

  /** The updates of the first n records report exactly the records among them that the new
      content makes ready, in order. */
  lemma {:induction false} UpdatesReady(tickets: seq<Record>, segs: seq<Segment>, bound: Option<nat>, n: nat)
    requires n <= |tickets|
    ensures var u := Updates(tickets, segs, bound, n);
            ApplyReady(tickets, u, |u|) == NewlyReady(tickets, Woken(tickets, segs, bound), n)
  {
    hide GapsOf, LastMissing, Apply, WokenRecord, RemainingFor, ReadyOf;
    if n > 0 {
      UpdatesReady(tickets, segs, bound, n - 1);
      if tickets[n - 1].phase.Pending? {
        var u := Updates(tickets, segs, bound, n - 1);
        UpdatesLast(tickets, segs, bound, n - 1);
        UpdateWakes(tickets, segs, bound, n - 1);
        ReadyLast(tickets, u, Updates(tickets, segs, bound, n), |u|);
      } else {
        StaysAsleep(tickets, segs, bound, n - 1);
      }
    }
  }

  lemma StaysAsleep(tickets: seq<Record>, segs: seq<Segment>, bound: Option<nat>, n: nat)
    requires n < |tickets| && !tickets[n].phase.Pending?
    ensures Updates(tickets, segs, bound, n + 1) == Updates(tickets, segs, bound, n)
    ensures NewlyReady(tickets, Woken(tickets, segs, bound), n + 1) == NewlyReady(tickets, Woken(tickets, segs, bound), n)
  {
  }
}
