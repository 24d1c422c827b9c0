/** Every effect of the Range store, seen as a finite map of bytes and a finite map of
    tickets, is one of ByteCache's (pdf-rs/bytes/src/store.rs, lines 341-1088). */
module CacheRefinement {
  import opened Basics
  import opened Ranges
  import opened Segments
  import opened Coalesce
  import opened StoreSpec
  import opened StoreInv
  import opened StoreRuns
  import opened ByteCache

  // ------------------------------------------------------------------ the view

  /** The offsets of the first n ranges. */
  ghost function Wanted(missing: seq<Range>, n: nat): set<nat>
    requires n <= |missing|
  {
    if n == 0 then {} else Wanted(missing, n - 1) + Interval(missing[n - 1].start, missing[n - 1].End())
  }

  ghost function Seen(r: Record): Waiting { Waiting(Wanted(r.missing, |r.missing|), r.subscribers, r.phase) }

  ghost function Tickets(records: seq<Record>): set<Ticket> {
    set i | 0 <= i < |records| :: records[i].ticket
  }

  ghost function RecordOf(records: seq<Record>, t: Ticket): Record
    requires t in Tickets(records)
  {
    var i :| 0 <= i < |records| && records[i].ticket == t;
    records[i]
  }

  ghost function WaitingOf(records: seq<Record>): map<Ticket, Waiting> {
    map t | t in Tickets(records) :: Seen(RecordOf(records, t))
  }

  ghost function ByteAt(segs: seq<Segment>, k: nat): Byte { if At(segs, k).Some? then At(segs, k).value else 0 }

  ghost function BytesOf(segs: seq<Segment>): map<nat, Byte> { map k | k in Offsets(segs) :: ByteAt(segs, k) }

  ghost function View(s: Store): Cache {
    Cache(BytesOf(s.segments), s.observedLen, WaitingOf(s.tickets), s.nextTicket, s.subscriptionCount)
  }

  // ------------------------------------------------------------------ bytes

  lemma BytesAre(segs: seq<Segment>)
    requires Sorted(segs)
    ensures forall k: nat :: k in BytesOf(segs) <==> At(segs, k).Some?
    ensures forall k: nat :: k in BytesOf(segs) ==> Some(BytesOf(segs)[k]) == At(segs, k)
    ensures |BytesOf(segs)| == Total(segs) && BytesOf(segs).Keys == Offsets(segs)
  {
    TotalIsCachedCount(segs);
    var m := BytesOf(segs);
    assert m.Keys == Offsets(segs);
    SizeOf(m);
  }

  lemma SizeOf(m: map<nat, Byte>)
    ensures |m| == |m.Keys|
  {
  }

  lemma PayloadIs(response: Response)
    requires response.Valid()
    ensures forall k: nat :: k in Payload(response) <==> response.range.Contains(k)
    ensures forall k: nat :: response.range.Contains(k) ==> Payload(response)[k] == response.bytes[k - response.range.start]
  {
    forall k: nat ensures k in Interval(response.range.start, response.range.End()) <==> response.range.Contains(k) {
      IntervalHas(response.range.start, response.range.End(), k);
    }
  }

  /** A rebuilt list is the union of the two maps. */
  lemma UnionOf(segs: seq<Segment>, response: Response, segs': seq<Segment>)
    requires response.Valid() && Sorted(segs) && Rebuilds(segs, response, segs')
    ensures BytesOf(segs') == BytesOf(segs) + Payload(response)
  {
    hide Sorted, Offsets, At, BytesOf, Payload;
    BytesAre(segs);
    BytesAre(segs');
    PayloadIs(response);
    var a, b, c := BytesOf(segs'), BytesOf(segs), Payload(response);
    forall k: nat
      ensures (k in a <==> k in b || k in c) && (k in c ==> k in a && a[k] == c[k]) && (k in a && k !in c ==> a[k] == b[k])
    {
      assert At(segs', k) == Updated(segs, response.range, response.bytes, k);
    }
    MapUnion(a, b, c);
  }

  lemma MapUnion(a: map<nat, Byte>, b: map<nat, Byte>, c: map<nat, Byte>)
    requires forall k: nat :: k in a <==> k in b || k in c
    requires forall k: nat :: k in c ==> a[k] == c[k]
    requires forall k: nat :: k in a && k !in c ==> a[k] == b[k]
    ensures a == b + c
  {
  }

  lemma DisagreeIs(segs: seq<Segment>, c: Cache, response: Response)
    requires response.Valid() && Sorted(segs) && c.bytes == BytesOf(segs)
    ensures Conflicts(segs, response.range, response.bytes) <==> Disagrees(c, response)
  {
    hide Sorted, Offsets, At;
    BytesAre(segs);
    PayloadIs(response);
    hide BytesOf, Payload;
    if Conflicts(segs, response.range, response.bytes) {
      var k: nat :| response.range.Contains(k) && At(segs, k).Some? && At(segs, k).value != response.bytes[k - response.range.start];
      assert k in c.bytes && k in Payload(response) && c.bytes[k] != Payload(response)[k];
    }
  }

  lemma ContradictIs(cfg: Config, s: Store, len: Option<nat>)
    requires CacheInv(cfg, s)
    ensures MetadataConflict(s, len) <==> Contradicts(View(s), len)
  {
    BytesAre(s.segments);
    if s.observedLen.None? && len.Some? {
      if LastEnd(s.segments) > len.value {
        LastEndCached(s.segments);
        var k: nat := LastEnd(s.segments) - 1;
        assert k in View(s).bytes && k >= len.value;
      }
      forall k: nat | k in View(s).bytes && k >= len.value ensures LastEnd(s.segments) > len.value {
        AtHas(s.segments, k);
        CachedBelowEnd(s.segments, k);
      }
    }
  }

  // ------------------------------------------------------------------ offsets of range lists

  lemma {:induction false} WantedHas(missing: seq<Range>, n: nat, k: nat)
    requires n <= |missing|
    ensures k in Wanted(missing, n) <==> exists i :: 0 <= i < n && missing[i].Contains(k)
  {
    if n > 0 {
      WantedHas(missing, n - 1, k);
      IntervalHas(missing[n - 1].start, missing[n - 1].End(), k);
    }
  }

  lemma WantedIsHit(missing: seq<Range>)
    ensures forall k: nat :: k in Wanted(missing, |missing|) <==> Hit(missing, k)
  {
    forall k: nat ensures k in Wanted(missing, |missing|) <==> Hit(missing, k) { WantedHas(missing, |missing|, k); }
  }

  /** A gap lies between these offsets and lo. */
  ghost predicate Apart(before: set<nat>, lo: nat) { forall k :: k in before ==> k < lo - 1 }

  /** A run of neighbouring offsets behind a gap has one more start. */
  lemma RunStarts(before: set<nat>, lo: nat, hi: nat)
    requires lo < hi && Apart(before, lo)
    ensures |Starts(before + Interval(lo, hi))| == |Starts(before)| + 1
  {
    var all := before + Interval(lo, hi);
    forall k: nat ensures k in Interval(lo, hi) <==> lo <= k < hi { IntervalHas(lo, hi, k); }
    forall k: nat ensures k in Starts(all) <==> k in Starts(before) || k == lo {
      if k in before && k > 0 && k - 1 in all { assert k - 1 in before; }
    }
    assert Starts(all) == Starts(before) + {lo} && lo !in Starts(before);
  }

  lemma {:induction false} RangesAreRuns(missing: seq<Range>, n: nat)
    requires Canonical(missing) && n <= |missing|
    ensures |Starts(Wanted(missing, n))| == n
  {
    hide Starts;
    if n > 0 {
      RangesAreRuns(missing, n - 1);
      WantedApart(missing, n);
      RunStarts(Wanted(missing, n - 1), missing[n - 1].start, missing[n - 1].End());
    } else {
      NoStarts();
    }
  }

  lemma NoStarts()
    ensures Starts({}) == {}
  {
  }

  lemma WantedApart(missing: seq<Range>, n: nat)
    requires Canonical(missing) && 0 < n <= |missing|
    ensures Apart(Wanted(missing, n - 1), missing[n - 1].start)
  {
    var before := Wanted(missing, n - 1);
    forall k | k in before ensures k < missing[n - 1].start - 1 {
      WantedHas(missing, n - 1, k);
      var i :| 0 <= i < n - 1 && missing[i].Contains(k);
      assert missing[i].End() < missing[n - 1].start;
    }
  }

  /** A canonical list has as many ranges as its offsets have runs. */
  lemma PiecesAreRuns(missing: seq<Range>, offsets: set<nat>)
    requires Canonical(missing) && forall k: nat :: Hit(missing, k) <==> k in offsets
    ensures Wanted(missing, |missing|) == offsets && |Starts(offsets)| == |missing|
  {
    WantedIsHit(missing);
    assert Wanted(missing, |missing|) == offsets;
    RangesAreRuns(missing, |missing|);
  }

  lemma {:induction false} SegmentsAreRuns(segs: seq<Segment>, n: nat)
    requires Sorted(segs) && n <= |segs|
    ensures |Starts(OffsetsTo(segs, n))| == n
  {
    hide Starts, Sorted;
    if n > 0 {
      SegmentsAreRuns(segs, n - 1);
      OffsetsApart(segs, n);
      RunStarts(OffsetsTo(segs, n - 1), segs[n - 1].start, segs[n - 1].end);
    } else {
      NoStarts();
    }
  }

  lemma OffsetsApart(segs: seq<Segment>, n: nat)
    requires Sorted(segs) && 0 < n <= |segs|
    ensures Apart(OffsetsTo(segs, n - 1), segs[n - 1].start)
  {
    var before := OffsetsTo(segs, n - 1);
    forall k | k in before ensures k < segs[n - 1].start - 1 {
      OffsetsToHas(segs, n - 1, k);
      AtToHas(segs, n - 1, k);
      var i :| 0 <= i < n - 1 && segs[i].Contains(k);
      SortedPair(segs, i, n - 1);
    }
  }

  lemma LackingAre(s: Store, range: Range)
    requires Sorted(s.segments)
    ensures Lists(Gaps(s.segments, range), Lacking(View(s), range))
    ensures |Starts(Lacking(View(s), range))| == |Gaps(s.segments, range)|
    ensures Wanted(Gaps(s.segments, range), |Gaps(s.segments, range)|) == Lacking(View(s), range)
  {
    var gaps, offsets := Gaps(s.segments, range), Lacking(View(s), range);
    GapsExact(s.segments, range);
    BytesAre(s.segments);
    hide Gaps, BytesOf, Sorted;
    forall k: nat ensures Hit(gaps, k) <==> k in offsets {
      IntervalHas(range.start, range.End(), k);
      AtHas(s.segments, k);
    }
    PiecesAreRuns(gaps, offsets);
  }

  lemma LeftAre(segs: seq<Segment>, r: Record)
    requires Sorted(segs) && Canonical(r.missing)
    ensures Lists(GapsOf(segs, r.missing), Left(Seen(r), BytesOf(segs)))
    ensures |Starts(Left(Seen(r), BytesOf(segs)))| == |GapsOf(segs, r.missing)|
    ensures Wanted(GapsOf(segs, r.missing), |GapsOf(segs, r.missing)|) == Left(Seen(r), BytesOf(segs))
  {
    var rest, offsets := GapsOf(segs, r.missing), Left(Seen(r), BytesOf(segs));
    GapsOfExact(segs, r.missing);
    BytesAre(segs);
    WantedIsHit(r.missing);
    hide GapsOf, BytesOf, Sorted;
    forall k: nat ensures Hit(rest, k) <==> k in offsets { AtHas(segs, k); }
    PiecesAreRuns(rest, offsets);
  }

  // ------------------------------------------------------------------ the map of tickets

  ghost predicate Distinct(records: seq<Record>) {
    forall i, j :: 0 <= i < j < |records| ==> records[i].ticket.value < records[j].ticket.value
  }

  lemma Lookup(records: seq<Record>, i: nat)
    requires Distinct(records) && i < |records|
    ensures records[i].ticket in WaitingOf(records) && WaitingOf(records)[records[i].ticket] == Seen(records[i])
  {
    var t := records[i].ticket;
    var j :| 0 <= j < |records| && records[j].ticket == t && RecordOf(records, t) == records[j];
  }

  /** Two maps of tickets are the same when each record is found where it should be. */
  lemma IsWaitingOf(records: seq<Record>, m: map<Ticket, Waiting>)
    requires Distinct(records) && m.Keys == Tickets(records)
    requires forall i :: 0 <= i < |records| ==> records[i].ticket in m && m[records[i].ticket] == Seen(records[i])
    ensures WaitingOf(records) == m
  {
    var w := WaitingOf(records);
    hide Seen;
    forall t | t in m ensures w[t] == m[t] {
      var i :| 0 <= i < |records| && records[i].ticket == t;
      Lookup(records, i);
    }
    assert w.Keys == m.Keys;
  }

  lemma Found(records: seq<Record>, t: Ticket)
    requires Distinct(records)
    ensures var n := FindTicket(records, t, 0);
            if n < |records| then t in WaitingOf(records) && WaitingOf(records)[t] == Seen(records[n]) else t !in WaitingOf(records)
  {
    var n := FindTicket(records, t, 0);
    if n < |records| { Lookup(records, n); }
  }

  lemma UpdatedMap(records: seq<Record>, n: nat, r: Record)
    requires Distinct(records) && n < |records| && r.ticket == records[n].ticket
    ensures WaitingOf(records[n := r]) == WaitingOf(records)[r.ticket := Seen(r)]
  {
    hide Seen, WaitingOf;
    var after, m := records[n := r], WaitingOf(records)[r.ticket := Seen(r)];
    assert Distinct(after);
    Keys(records);
    SameTickets(records, after);
    Lookup(records, n);
    forall i | 0 <= i < |after| ensures after[i].ticket in m && m[after[i].ticket] == Seen(after[i]) {
      Lookup(records, i);
      if i != n { Different(records, i, n); }
    }
    IsWaitingOf(after, m);
  }

  lemma Keys(records: seq<Record>)
    ensures WaitingOf(records).Keys == Tickets(records)
  {
  }

  lemma Different(records: seq<Record>, i: nat, j: nat)
    requires Distinct(records) && i < |records| && j < |records| && i != j
    ensures records[i].ticket != records[j].ticket
  {
    if i < j { assert records[i].ticket.value < records[j].ticket.value; } else { assert records[j].ticket.value < records[i].ticket.value; }
  }

  lemma SameTickets(a: seq<Record>, b: seq<Record>)
    requires |a| == |b| && forall i :: 0 <= i < |a| ==> a[i].ticket == b[i].ticket
    ensures Tickets(a) == Tickets(b)
  {
    forall t ensures t in Tickets(a) <==> t in Tickets(b) {
      if t in Tickets(a) {
        var i :| 0 <= i < |a| && a[i].ticket == t;
        assert b[i].ticket == t;
      }
      if t in Tickets(b) {
        var i :| 0 <= i < |b| && b[i].ticket == t;
        assert a[i].ticket == t;
      }
    }
  }

  lemma Front(a: seq<Record>, b: seq<Record>)
    requires Distinct(b) && |a| <= |b| && forall i :: 0 <= i < |a| ==> b[i] == a[i]
    ensures Distinct(a)
  {
    forall i, j | 0 <= i < j < |a| ensures a[i].ticket.value < a[j].ticket.value { assert b[i].ticket.value < b[j].ticket.value; }
  }

  lemma AppendedMap(records: seq<Record>, r: Record)
    requires Distinct(records + [r])
    ensures WaitingOf(records + [r]) == WaitingOf(records)[r.ticket := Seen(r)] && r.ticket !in WaitingOf(records)
  {
    hide Seen, WaitingOf;
    var after, m := records + [r], WaitingOf(records)[r.ticket := Seen(r)];
    assert forall i :: 0 <= i < |records| ==> after[i] == records[i];
    assert after[|records|] == r;
    Front(records, after);
    Keys(records);
    forall i | 0 <= i < |records| ensures records[i].ticket != r.ticket { Different(after, i, |records|); }
    assert Tickets(after) == Tickets(records) + {r.ticket};
    forall i | 0 <= i < |after| ensures after[i].ticket in m && m[after[i].ticket] == Seen(after[i]) {
      if i < |records| { Lookup(records, i); }
    }
    IsWaitingOf(after, m);
  }

  /** `after` is `records` without the one at n. */
  ghost predicate Without(records: seq<Record>, n: nat, after: seq<Record>)
    requires n < |records|
  {
    |after| == |records| - 1 && forall i :: 0 <= i < |after| ==> after[i] == records[Source(n, i)]
  }

  function Source(n: nat, i: nat): nat { if i < n then i else i + 1 }

  lemma WithoutDistinct(records: seq<Record>, n: nat, after: seq<Record>)
    requires Distinct(records) && n < |records| && Without(records, n, after)
    ensures Distinct(after)
  {
    forall i, j | 0 <= i < j < |after| ensures after[i].ticket.value < after[j].ticket.value {
      assert records[Source(n, i)].ticket.value < records[Source(n, j)].ticket.value;
    }
  }

  lemma WithoutTickets(records: seq<Record>, n: nat, after: seq<Record>)
    requires Distinct(records) && n < |records| && Without(records, n, after)
    ensures Tickets(after) == Tickets(records) - {records[n].ticket}
  {
    var t := records[n].ticket;
    forall u | u in Tickets(after) ensures u in Tickets(records) && u != t {
      var i :| 0 <= i < |after| && after[i].ticket == u;
      assert records[Source(n, i)].ticket == u;
      Different(records, Source(n, i), n);
    }
    forall u | u in Tickets(records) && u != t ensures u in Tickets(after) {
      var j :| 0 <= j < |records| && records[j].ticket == u;
      assert after[if j < n then j else j - 1].ticket == u;
    }
  }

  lemma RemovedMap(records: seq<Record>, n: nat, after: seq<Record>)
    requires Distinct(records) && n < |records| && Without(records, n, after)
    ensures WaitingOf(after) == WaitingOf(records) - {records[n].ticket}
  {
    hide Seen, WaitingOf, Tickets;
    var m := WaitingOf(records) - {records[n].ticket};
    WithoutDistinct(records, n, after);
    WithoutTickets(records, n, after);
    Keys(records);
    forall i | 0 <= i < |after| ensures after[i].ticket in m && m[after[i].ticket] == Seen(after[i]) {
      Lookup(records, Source(n, i));
      Different(records, Source(n, i), n);
    }
    IsWaitingOf(after, m);
  }

  /** As many tickets as records. */
  lemma {:induction false} TicketCount(records: seq<Record>)
    requires Distinct(records)
    ensures |WaitingOf(records)| == |records|
    decreases |records|
  {
    if records == [] {
      assert WaitingOf(records) == map[];
    } else {
      var less, r := records[..|records| - 1], records[|records| - 1];
      assert records == less + [r];
      TicketCount(less);
      AppendedMap(less, r);
    }
  }

  // ------------------------------------------------------------------ changes and commits

  /** Records that correspond one by one give maps that do. */
  lemma MappedMap(before: seq<Record>, after: seq<Record>, m: map<Ticket, Waiting>)
    requires Distinct(before) && |before| == |after|
    requires forall i :: 0 <= i < |before| ==> after[i].ticket == before[i].ticket
    requires m.Keys == WaitingOf(before).Keys
    requires forall i :: 0 <= i < |before| && before[i].ticket in m ==> m[before[i].ticket] == Seen(after[i])
    ensures WaitingOf(after) == m
  {
    hide Seen, WaitingOf;
    assert Distinct(after);
    SameTickets(before, after);
    Keys(before);
    forall i | 0 <= i < |after| ensures after[i].ticket in m && m[after[i].ticket] == Seen(after[i]) { Lookup(before, i); }
    IsWaitingOf(after, m);
  }

  lemma ChangedView(cfg: Config, s: Store)
    requires TicketInv(cfg, s)
    ensures View(ChangedAll(s)) == Changes(View(s))
  {
    var m := map t | t in WaitingOf(s.tickets) :: Change(WaitingOf(s.tickets)[t]);
    forall i | 0 <= i < |s.tickets| && s.tickets[i].ticket in m
      ensures m[s.tickets[i].ticket] == Seen(ChangedRecord(s.tickets[i]))
    {
      Lookup(s.tickets, i);
    }
    hide Seen, WaitingOf, Change;
    MappedMap(s.tickets, ChangedAll(s).tickets, m);
  }

  /** Wanting something at or past the length, said of the list or of the offsets. */
  lemma PastIs(missing: seq<Range>, offsets: set<nat>, len: nat)
    requires Lists(missing, offsets)
    ensures missing == [] <==> offsets == {}
    ensures LastMissing(missing) > len <==> missing != [] && ReachesPast(offsets, Some(len))
  {
    if missing != [] {
      var last := missing[|missing| - 1];
      var k := last.End() - 1;
      assert last.Contains(k) && Hit(missing, k);
      MissingWithinLast(missing);
      forall j | j in offsets ensures j < LastMissing(missing) {
        assert Hit(missing, j);
        var n :| 0 <= n < |missing| && missing[n].Contains(j);
      }
    }
  }

  /** A commit wakes a record as it wakes what is seen of it. */
  lemma WokenSeen(cfg: Config, s: Store, segs': seq<Segment>, bound: Option<nat>, r: Record)
    requires RecordInv(cfg, s, r) && Sorted(segs') && (s.observedLen.Some? ==> bound.None?)
    ensures Seen(WokenRecord(r, segs', bound))
            == Wake(Seen(r), BytesOf(segs'), if bound.Some? then bound else s.observedLen)
  {
    if r.phase.Pending? {
      var rest, left := GapsOf(segs', r.missing), Left(Seen(r), BytesOf(segs'));
      LeftAre(segs', r);
      PastIs(rest, left, if bound.Some? then bound.value else 0);
      if s.observedLen.Some? {
        WantedIsHit(r.missing);
        PastIs(r.missing, Seen(r).wants, s.observedLen.value);
        assert !ReachesPast(left, s.observedLen);
      }
      hide GapsOf, BytesOf, Sorted, Lists, Left, Wanted;
    }
  }

  lemma {:induction false} ReadyHas(before: seq<Record>, after: seq<Record>, n: nat, t: Ticket)
    requires n <= |before| == |after|
    ensures t in NewlyReady(before, after, n)
            <==> exists i :: 0 <= i < n && before[i].phase.Pending? && after[i].phase.Ready? && after[i].ticket == t
  {
    if n > 0 { ReadyHas(before, after, n - 1, t); }
  }

  lemma {:induction false} ReadyInOrder(before: seq<Record>, after: seq<Record>, n: nat)
    requires n <= |before| == |after| && Distinct(after)
    ensures Ascends(NewlyReady(before, after, n))
  {
    if n > 0 {
      ReadyInOrder(before, after, n - 1);
      var ready := NewlyReady(before, after, n - 1);
      forall i | 0 <= i < |ready| ensures ready[i].value < after[n - 1].ticket.value {
        assert ready[i] in ready;
        ReadyHas(before, after, n - 1, ready[i]);
        var j :| 0 <= j < n - 1 && after[j].ticket == ready[i];
        assert after[j].ticket.value < after[n - 1].ticket.value;
      }
      Ascending(ready, after[n - 1].ticket);
    }
  }

  lemma Ascending(ready: seq<Ticket>, t: Ticket)
    requires Ascends(ready) && forall i :: 0 <= i < |ready| ==> ready[i].value < t.value
    ensures Ascends(ready + [t])
  {
  }

  lemma {:induction false} ReportsAre(s: Store, s': Store)
    requires Distinct(s.tickets) && |s.tickets| == |s'.tickets|
    requires forall i :: 0 <= i < |s.tickets| ==> s'.tickets[i].ticket == s.tickets[i].ticket
    ensures Reports(View(s), View(s'), NewlyReady(s.tickets, s'.tickets, |s.tickets|))
  {
    hide WaitingOf, NewlyReady, View;
    StillDistinct(s.tickets, s'.tickets);
    ReadyInOrder(s.tickets, s'.tickets, |s.tickets|);
    forall t
      ensures t in NewlyReady(s.tickets, s'.tickets, |s.tickets|)
              <==> t in View(s).waiting && t in View(s').waiting && View(s).waiting[t].phase.Pending? && View(s').waiting[t].phase.Ready?
    {
      ReportedIs(s, s', t);
    }
  }

  lemma StillDistinct(a: seq<Record>, b: seq<Record>)
    requires Distinct(a) && |a| == |b| && forall i :: 0 <= i < |a| ==> b[i].ticket == a[i].ticket
    ensures Distinct(b)
  {
  }

  lemma {:induction false} ReportedIs(s: Store, s': Store, t: Ticket)
    requires Distinct(s.tickets) && Distinct(s'.tickets) && |s.tickets| == |s'.tickets|
    requires forall i :: 0 <= i < |s.tickets| ==> s'.tickets[i].ticket == s.tickets[i].ticket
    ensures t in NewlyReady(s.tickets, s'.tickets, |s.tickets|)
            <==> t in View(s).waiting && t in View(s').waiting && View(s).waiting[t].phase.Pending? && View(s').waiting[t].phase.Ready?
  {
    hide WaitingOf, Distinct;
    Keys(s.tickets);
    ReadyHas(s.tickets, s'.tickets, |s.tickets|, t);
    if t in Tickets(s.tickets) {
      var i :| 0 <= i < |s.tickets| && s.tickets[i].ticket == t;
      Lookup(s.tickets, i);
      Lookup(s'.tickets, i);
      forall j: nat | j < |s.tickets| && j != i ensures s.tickets[j].ticket != t { Different(s.tickets, j, i); }
    }
  }

  lemma {:induction false} WokenMap(cfg: Config, s: Store, segs': seq<Segment>, bound: Option<nat>, length: Option<nat>, m: map<Ticket, Waiting>)
    requires TicketInv(cfg, s) && Sorted(segs') && (s.observedLen.Some? ==> bound.None?)
    requires length == if bound.Some? then bound else s.observedLen
    requires m.Keys == WaitingOf(s.tickets).Keys
    requires forall t :: t in m ==> m[t] == Wake(WaitingOf(s.tickets)[t], BytesOf(segs'), length)
    ensures WaitingOf(Woken(s.tickets, segs', bound)) == m
  {
    hide Seen, WaitingOf, Wake, WokenRecord, BytesOf, Sorted;
    var after := Woken(s.tickets, segs', bound);
    forall i | 0 <= i < |s.tickets| ensures s.tickets[i].ticket in m { Lookup(s.tickets, i); }
    forall i | 0 <= i < |s.tickets| ensures m[s.tickets[i].ticket] == Seen(after[i]) && after[i].ticket == s.tickets[i].ticket {
      Lookup(s.tickets, i);
      assert RecordInv(cfg, s, s.tickets[i]);
      WokenSeen(cfg, s, segs', bound, s.tickets[i]);
      SameTicketWoken(s.tickets[i], segs', bound);
    }
    MappedMap(s.tickets, after, m);
  }

  lemma SameTicketWoken(r: Record, segs': seq<Segment>, bound: Option<nat>)
    ensures WokenRecord(r, segs', bound).ticket == r.ticket
  {
  }

  lemma {:induction false} CommitView(cfg: Config, s: Store, bound: Option<nat>, s': Store, reply: Reply)
    requires Inv(cfg, s) && Commits(s, s'.segments, bound, s', reply) && Sorted(s'.segments)
    requires s.observedLen.Some? ==> bound.None?
    ensures Wakes(View(s), View(s'), reply.ready)
  {
    hide Seen, WaitingOf, Wake, WokenRecord, BytesOf, Sorted, RecordInv, CacheInv, NewlyReady;
    var m := map t | t in WaitingOf(s.tickets) :: Wake(WaitingOf(s.tickets)[t], BytesOf(s'.segments), s'.observedLen);
    WokenMap(cfg, s, s'.segments, bound, s'.observedLen, m);
    forall i | 0 <= i < |s.tickets| ensures s'.tickets[i].ticket == s.tickets[i].ticket {
      SameTicketWoken(s.tickets[i], s'.segments, bound);
    }
    ReportsAre(s, s');
  }

  // ------------------------------------------------------------------ ticket operations

  /** What the view shows of a ticket. */
  lemma {:induction false} FoundView(cfg: Config, s: Store, t: Ticket)
    requires TicketInv(cfg, s)
    ensures var n, c := FindTicket(s.tickets, t, 0), View(s);
            if n < |s.tickets| then t in c.waiting && c.waiting[t] == Seen(s.tickets[n]) else t !in c.waiting
    ensures View(s).held == s.subscriptionCount && View(s).next == s.nextTicket
  {
    InOrder(cfg, s);
    Found(s.tickets, t);
  }

  lemma {:induction false} UpdatedView(cfg: Config, s: Store, n: nat, r: Record, count: nat)
    requires TicketInv(cfg, s) && n < |s.tickets| && r.ticket == s.tickets[n].ticket
    ensures View(s.(tickets := s.tickets[n := r], subscriptionCount := count))
            == View(s).(waiting := View(s).waiting[r.ticket := Seen(r)], held := count)
  {
    InOrder(cfg, s);
    UpdatedMap(s.tickets, n, r);
  }

  lemma {:induction false} FailView(cfg: Config, s: Store, t: Ticket, error: SourceError, s': Store, poison: bool, reply: Reply)
    requires TicketInv(cfg, s) && FailStep(s, t, error, s', poison, reply)
    ensures Fails(View(s), t, error, View(s'), poison, reply)
  {
    hide View, ChangedAll, Changes, Wanted, TicketInv;
    var n := FindTicket(s.tickets, t, 0);
    FoundView(cfg, s, t);
    ChangedView(cfg, s);
    if n < |s.tickets| { UpdatedView(cfg, s, n, s.tickets[n].(phase := Failed(error)), s.subscriptionCount); }
  }

  lemma {:induction false} TakeView(cfg: Config, s: Store, t: Ticket, s': Store, reply: Reply)
    requires TicketInv(cfg, s) && TakeStep(s, t, s', reply)
    ensures TakesAll(View(s), t, View(s'), reply)
  {
    hide View, Wanted, TicketInv;
    var n := FindTicket(s.tickets, t, 0);
    FoundView(cfg, s, t);
    if n < |s.tickets| { UpdatedView(cfg, s, n, s.tickets[n].(subscribers := []), s'.subscriptionCount); }
  }

  lemma {:induction false} StatusView(cfg: Config, s: Store, t: Ticket, s': Store, reply: Reply)
    requires TicketInv(cfg, s) && StatusStep(s, t, s', reply)
    ensures Tells(View(s), t, View(s'), reply)
  {
    hide View, Wanted, TicketInv;
    FoundView(cfg, s, t);
  }

  lemma {:induction false} ReleaseView(cfg: Config, s: Store, t: Ticket, s': Store, reply: Reply)
    requires TicketInv(cfg, s) && ReleaseStep(s, t, s', reply)
    ensures Releases(View(s), t, View(s'), reply)
  {
    hide View, Wanted, TicketInv;
    var n := FindTicket(s.tickets, t, 0);
    FoundView(cfg, s, t);
    if n < |s.tickets| { RemovedView(cfg, s, n); }
  }

  lemma {:induction false} RemovedView(cfg: Config, s: Store, n: nat)
    requires TicketInv(cfg, s) && n < |s.tickets|
    ensures View(s.(tickets := s.tickets[..n] + s.tickets[n + 1..]))
            == View(s).(waiting := View(s).waiting - {s.tickets[n].ticket})
  {
    var after := s.tickets[..n] + s.tickets[n + 1..];
    InOrder(cfg, s);
    RemovedAt(s.tickets, n, after);
    RemovedMap(s.tickets, n, after);
  }

  /** Retaining everything but the job's subscriptions removes the one there is. */
  lemma {:induction false} RetainedIs(subs: seq<Subscription>, job: nat, n: nat)
    requires n <= |subs| && OncePerJob(subs)
    ensures IsWithout(subs[..n], job, WithoutJob(subs, job, n))
  {
    hide IsWithout;
    if n > 0 {
      RetainedIs(subs, job, n - 1);
      var before, last := subs[..n - 1], subs[n - 1];
      assert subs[..n] == before + [last];
      LeavesOn(before, job, WithoutJob(subs, job, n - 1), last);
    } else {
      NoneLeaves(job);
      assert subs[..0] == [];
    }
  }

  lemma NoneLeaves(job: nat)
    ensures IsWithout([], job, [])
  {
  }

  lemma LeavesOn(before: seq<Subscription>, job: nat, kept: seq<Subscription>, last: Subscription)
    requires IsWithout(before, job, kept) && forall i :: 0 <= i < |before| ==> before[i].job != last.job
    ensures IsWithout(before + [last], job, if last.job == job then kept else kept + [last])
  {
    var all := before + [last];
    if last.job == job {
      assert all[|before|].job == job && all[..|before|] + all[|before| + 1..] == before;
    } else if HasJob(before, job) {
      var i :| 0 <= i < |before| && before[i].job == job && kept == before[..i] + before[i + 1..];
      assert all[i].job == job && kept + [last] == all[..i] + all[i + 1..];
    }
  }

  lemma {:induction false} UnsubscribeView(cfg: Config, s: Store, t: Ticket, job: nat, s': Store, reply: Reply)
    requires TicketInv(cfg, s) && UnsubscribeStep(s, t, job, s', reply)
    ensures Unsubscribes(View(s), t, job, View(s'), reply)
  {
    hide View, Wanted, IsWithout, WithoutJob, TicketInv;
    var n := FindTicket(s.tickets, t, 0);
    FoundView(cfg, s, t);
    if n < |s.tickets| && s.tickets[n].phase.Pending? {
      var r := s.tickets[n];
      SubscribedOnce(cfg, s, n);
      var kept := WithoutJob(r.subscribers, job, |r.subscribers|);
      RetainedIs(r.subscribers, job, |r.subscribers|);
      assert r.subscribers[..|r.subscribers|] == r.subscribers;
      UpdatedView(cfg, s, n, r.(subscribers := kept, phase := if kept == [] then Abandoned else Pending), s'.subscriptionCount);
    }
  }

  lemma SubscribedOnce(cfg: Config, s: Store, n: nat)
    requires TicketInv(cfg, s) && n < |s.tickets|
    ensures OncePerJob(s.tickets[n].subscribers) && Canonical(s.tickets[n].missing)
  {
    assert RecordInv(cfg, s, s.tickets[n]);
  }

  // ------------------------------------------------------------------ poll

  lemma JobFound(subs: seq<Subscription>, job: nat, checkpoint: nat)
    requires OncePerJob(subs)
    ensures var at := FindJob(subs, job, 0);
            && (HasJob(subs, job) <==> at < |subs|)
            && (at < |subs| ==> (subs[at].checkpoint == checkpoint <==> Subscription(job, checkpoint) in subs))
  {
    var at := FindJob(subs, job, 0);
    if at < |subs| {
      assert subs[at] == Subscription(job, subs[at].checkpoint);
      if i :| 0 <= i < |subs| && subs[i] == Subscription(job, checkpoint) {
        if i < at { assert subs[i].job != job; }
      }
    }
  }

  lemma {:induction false} JoinView(cfg: Config, s: Store, n: nat, job: nat, checkpoint: nat, alloc: Alloc, s': Store, reply: Reply)
    requires TicketInv(cfg, s) && n < |s.tickets| && JoinStep(cfg, s, n, job, checkpoint, alloc, s', reply)
    ensures s.tickets[n].ticket in View(s).waiting
    ensures Joins(cfg, View(s), s.tickets[n].ticket, job, checkpoint, alloc, View(s'), reply)
  {
    hide View, Wanted, FindJob, HasJob, TicketInv, Lists, OncePerJob;
    var r := s.tickets[n];
    ViewHas(cfg, s, n);
    SubscribedOnce(cfg, s, n);
    SeenLists(r);
    JobFound(r.subscribers, job, checkpoint);
    UpdatedView(cfg, s, n, r.(subscribers := r.subscribers + [Subscription(job, checkpoint)]), s'.subscriptionCount);
  }

  lemma SeenLists(r: Record)
    requires Canonical(r.missing)
    ensures Lists(r.missing, Seen(r).wants)
  {
    WantedIsHit(r.missing);
  }

  lemma {:induction false} ViewHas(cfg: Config, s: Store, n: nat)
    requires TicketInv(cfg, s) && n < |s.tickets|
    ensures s.tickets[n].ticket in View(s).waiting && View(s).waiting[s.tickets[n].ticket] == Seen(s.tickets[n])
    ensures View(s).held == s.subscriptionCount && View(s).next == s.nextTicket && |View(s).waiting| == |s.tickets|
  {
    InOrder(cfg, s);
    Lookup(s.tickets, n);
    TicketCount(s.tickets);
  }

  lemma NewestLast(cfg: Config, s: Store, r: Record)
    requires TicketInv(cfg, s) && r.ticket.value == s.nextTicket
    ensures Distinct(s.tickets + [r])
  {
    forall i | 0 <= i < |s.tickets| ensures s.tickets[i].ticket.value < s.nextTicket { assert RecordInv(cfg, s, s.tickets[i]); }
  }

  lemma {:induction false} OpenView(cfg: Config, s: Store, missing: seq<Range>, job: nat, checkpoint: nat, alloc: Alloc, s': Store, reply: Reply)
    requires TicketInv(cfg, s) && Canonical(missing) && OpenStep(cfg, s, missing, job, checkpoint, alloc, s', reply)
    ensures Opens(cfg, View(s), Wanted(missing, |missing|), job, checkpoint, alloc, View(s'), reply)
  {
    hide View, Wanted, TicketInv;
    OpenedView(cfg, s, missing, job, checkpoint);
    WantedIsHit(missing);
  }

  lemma {:induction false} OpenedView(cfg: Config, s: Store, missing: seq<Range>, job: nat, checkpoint: nat)
    requires TicketInv(cfg, s)
    ensures View(s).held == s.subscriptionCount && View(s).next == s.nextTicket && |View(s).waiting| == |s.tickets|
    ensures View(s.(nextTicket := s.nextTicket + 1)) == View(s).(next := s.nextTicket + 1)
    ensures var t := Ticket(cfg.namespace, s.nextTicket);
            var r := Record(t, missing, [Subscription(job, checkpoint)], Pending);
            && t !in View(s).waiting
            && View(s.(tickets := s.tickets + [r], nextTicket := s.nextTicket + 1, subscriptionCount := s.subscriptionCount + 1))
               == View(s).(waiting := View(s).waiting[t := Seen(r)], next := s.nextTicket + 1, held := s.subscriptionCount + 1)
  {
    var r := Record(Ticket(cfg.namespace, s.nextTicket), missing, [Subscription(job, checkpoint)], Pending);
    InOrder(cfg, s);
    TicketCount(s.tickets);
    NewestLast(cfg, s, r);
    AppendedMap(s.tickets, r);
  }

  /** Comparing missing lists is comparing wanted offsets, and the first match is the oldest. */
  lemma {:induction false} WaitingFound(cfg: Config, s: Store, missing: seq<Range>)
    requires TicketInv(cfg, s) && Canonical(missing)
    ensures var n := FindWaiting(s.tickets, missing, 0);
            if n < |s.tickets| then
              && WaitsFor(View(s), s.tickets[n].ticket, Wanted(missing, |missing|))
              && Oldest(View(s), s.tickets[n].ticket, Wanted(missing, |missing|))
            else forall t :: !WaitsFor(View(s), t, Wanted(missing, |missing|))
  {
    hide WaitingOf, BytesOf, Wanted, TicketInv;
    var n, offsets := FindWaiting(s.tickets, missing, 0), Wanted(missing, |missing|);
    InOrder(cfg, s);
    if n < |s.tickets| { Lookup(s.tickets, n); }
    forall t | WaitsFor(View(s), t, offsets) ensures n < |s.tickets| && s.tickets[n].ticket.value <= t.value {
      WaitsNoEarlier(cfg, s, missing, t);
    }
  }

  lemma InOrder(cfg: Config, s: Store)
    requires TicketInv(cfg, s)
    ensures Distinct(s.tickets)
  {
  }

  lemma {:induction false} WaitsNoEarlier(cfg: Config, s: Store, missing: seq<Range>, t: Ticket)
    requires TicketInv(cfg, s) && Canonical(missing) && WaitsFor(View(s), t, Wanted(missing, |missing|))
    ensures var n := FindWaiting(s.tickets, missing, 0);
            n < |s.tickets| && s.tickets[n].ticket.value <= t.value
  {
    Keys(s.tickets);
    InOrder(cfg, s);
    hide WaitingOf, BytesOf, Wanted;
    var i :| 0 <= i < |s.tickets| && s.tickets[i].ticket == t;
    Lookup(s.tickets, i);
    assert RecordInv(cfg, s, s.tickets[i]);
    hide TicketInv;
    SameWants(s.tickets[i].missing, missing);
  }

  lemma SameWants(a: seq<Range>, b: seq<Range>)
    requires Canonical(a) && Canonical(b) && Wanted(a, |a|) == Wanted(b, |b|)
    ensures a == b
  {
    WantedIsHit(a);
    WantedIsHit(b);
    hide Wanted;
    CanonicalUnique(a, b);
  }

  lemma {:induction false} PollView(cfg: Config, s: Store, range: Range, job: nat, checkpoint: nat, alloc: Alloc, s': Store, reply: Reply)
    requires Inv(cfg, s) && PollStep(cfg, s, range, job, checkpoint, alloc, s', reply)
    ensures Polls(cfg, View(s), range, job, checkpoint, alloc, View(s'), reply)
  {
    hide Inv, View, Wanted, Gaps, FindWaiting, JoinStep, OpenStep, Joins, Opens, Lacking, Lists, Oldest, WaitsFor, Starts;
    InvParts(cfg, s);
    var missing := Gaps(s.segments, range);
    LackingAre(s, range);
    NoneLacking(s, range);
    MissingListed(missing, Lacking(View(s), range));
    WaitingFound(cfg, s, missing);
    var n := FindWaiting(s.tickets, missing, 0);
    if n < |s.tickets| {
      if JoinStep(cfg, s, n, job, checkpoint, alloc, s', reply) { JoinView(cfg, s, n, job, checkpoint, alloc, s', reply); }
    } else if OpenStep(cfg, s, missing, job, checkpoint, alloc, s', reply) {
      OpenView(cfg, s, missing, job, checkpoint, alloc, s', reply);
    }
  }

  lemma MissingListed(missing: seq<Range>, offsets: set<nat>)
    requires Lists(missing, offsets)
    ensures Canonical(missing)
  {
  }

  lemma NoneLacking(s: Store, range: Range)
    requires Sorted(s.segments)
    ensures Lacking(View(s), range) == {} <==> forall k: nat :: range.Contains(k) ==> At(s.segments, k).Some?
    ensures forall k: nat :: k in View(s).bytes <==> At(s.segments, k).Some?
    ensures forall k: nat :: k in View(s).bytes ==> Some(View(s).bytes[k]) == At(s.segments, k)
  {
    BytesAre(s.segments);
    forall k: nat ensures k in Interval(range.start, range.End()) <==> range.Contains(k) { IntervalHas(range.start, range.End(), k); }
    var lacking := Lacking(View(s), range);
    assert forall k: nat :: k in lacking <==> range.Contains(k) && At(s.segments, k).None?;
  }

  // ------------------------------------------------------------------ supply and observe

  lemma {:induction false} FitsIs(cfg: Config, s: Store, segs': seq<Segment>)
    requires TicketInv(cfg, s) && Sorted(segs')
    ensures OverLimit(cfg, s, segs') <==> !Fits(cfg, View(s), BytesOf(segs'))
    ensures Unfit(cfg, s, segs') <==> TooManyPieces(cfg, View(s), BytesOf(segs'))
  {
    InOrder(cfg, s);
    Keys(s.tickets);
    BytesAre(segs');
    SegmentsAreRuns(segs', |segs'|);
    forall i | 0 <= i < |s.tickets|
      ensures Canonical(s.tickets[i].missing) && s.tickets[i].ticket in View(s).waiting
              && View(s).waiting[s.tickets[i].ticket] == Seen(s.tickets[i])
              && |Starts(Left(Seen(s.tickets[i]), BytesOf(segs')))| == |GapsOf(segs', s.tickets[i].missing)|
    {
      assert RecordInv(cfg, s, s.tickets[i]);
      Lookup(s.tickets, i);
      LeftAre(segs', s.tickets[i]);
    }
    hide WaitingOf, BytesOf, Seen, Left, Starts, GapsOf, Sorted, TicketInv;
    forall t | t in View(s).waiting ensures exists i :: 0 <= i < |s.tickets| && s.tickets[i].ticket == t { }
  }

  /** Every limit met on the way is one of the cache's, or a refused reservation. */
  lemma {:induction false} LimitIs(cfg: Config, s: Store, response: Response, segs': seq<Segment>, alloc: Alloc, error: SourceError)
    requires Inv(cfg, s) && response.Valid() && LimitedBy(cfg, s, response, segs', alloc, error)
    ensures error.ResourceLimit? && Hinders(cfg, View(s), response, alloc, error.kind)
  {
    hide Inv, View, Rebuilds, MissingLimit, MergedLen, Payload, Starts, Total, TooManyPieces, TouchesAny, GapsOf;
    var bytes := View(s).bytes + Payload(response);
    RebuiltSizes(cfg, s, response, segs');
    MergedWithin(segs', |segs'|, response.range.start);
    assert MergedLen(segs', |segs'|, response.range.start) <= Total(segs');
    MissingCause(cfg.limits, s.tickets, segs', alloc, 0);
  }

  /** The sizes of a rebuilt list are those of the union. */
  lemma {:induction false} RebuiltSizes(cfg: Config, s: Store, response: Response, segs': seq<Segment>)
    requires Inv(cfg, s) && response.Valid() && Rebuilds(s.segments, response, segs')
    ensures var bytes := View(s).bytes + Payload(response);
            && |bytes| == Total(segs') && |Starts(bytes.Keys)| == |segs'|
            && (Unfit(cfg, s, segs') <==> TooManyPieces(cfg, View(s), bytes))
    ensures View(s).length == s.observedLen
    ensures TotalTo(segs', |segs'|) == Total(segs')
  {
    UnionOf(s.segments, response, segs');
    BytesAre(segs');
    SegmentsAreRuns(segs', |segs'|);
    FitsIs(cfg, s, segs');
  }

  /** A pending ticket would be left with too many ranges. */
  ghost predicate Unfit(cfg: Config, s: Store, segs': seq<Segment>) {
    exists i :: 0 <= i < |s.tickets| && s.tickets[i].phase.Pending? && |GapsOf(segs', s.tickets[i].missing)| > cfg.limits.maxMissing
  }

  /** A segment is no longer than all of them together. */
  lemma {:induction false} MergedWithin(segs: seq<Segment>, n: nat, k: nat)
    requires n <= |segs|
    ensures MergedLen(segs, n, k) <= TotalTo(segs, n)
  {
    if n > 0 { MergedWithin(segs, n - 1, k); }
  }

  lemma {:induction false} MissingCause(limits: Limits, tickets: seq<Record>, segs': seq<Segment>, alloc: Alloc, i: nat)
    requires i <= |tickets|
    ensures var e := MissingLimit(limits, tickets, segs', alloc, i);
            e.Some? ==>
              if e.value.kind.Allocation? then !alloc.missing
              else
                && e.value.kind.MissingRanges?
                && exists j :: 0 <= j < |tickets| && tickets[j].phase.Pending? && |GapsOf(segs', tickets[j].missing)| > limits.maxMissing
    decreases |tickets| - i
  {
    if i < |tickets| { MissingCause(limits, tickets, segs', alloc, i + 1); }
  }

  /** The causes of a failure, in terms of the view. */
  lemma {:induction false} CausesAre(cfg: Config, s: Store, response: Response)
    requires Inv(cfg, s) && response.Valid()
    ensures Conflicts(s.segments, response.range, response.bytes) <==> Disagrees(View(s), response)
    ensures MetadataConflict(s, response.snapshot.len) <==> Contradicts(View(s), response.snapshot.len)
    ensures View(ChangedAll(s)) == Changes(View(s)) && View(s).length == s.observedLen
  {
    DisagreeIs(s.segments, View(s), response);
    ContradictIs(cfg, s, response.snapshot.len);
    ChangedView(cfg, s);
  }

  lemma {:induction false} SupplyView(cfg: Config, s: Store, response: Response, alloc: Alloc, s': Store, poison: bool, reply: Reply)
    requires Inv(cfg, s) && response.Valid() && SupplyStep(cfg, s, response, alloc, s', poison, reply)
    ensures Supplies(cfg, View(s), response, alloc, View(s'), poison, reply)
  {
    hide View, Inv, ChangedAll, Changes, Conflicts, Disagrees, MetadataConflict, Contradicts, Suppliable, LimitedBy, Payload, Starts,
         TooManyPieces, Wakes, Fits, Covered, Woken, NewlyReady, Total;
    CausesAre(cfg, s, response);
    if reply.Supplied? {
      SuppliedView(cfg, s, response, alloc, s', poison, reply);
    } else if reply.Failure? && Unsuppliable(cfg, s, response, alloc, reply.error) {
      var segs' :| LimitedBy(cfg, s, response, segs', alloc, reply.error);
      LimitIs(cfg, s, response, segs', alloc, reply.error);
    }
  }

  lemma {:induction false} SuppliedView(cfg: Config, s: Store, response: Response, alloc: Alloc, s': Store, poison: bool, reply: Reply)
    requires Inv(cfg, s) && response.Valid() && SupplyStep(cfg, s, response, alloc, s', poison, reply) && reply.Supplied?
    ensures Supplies(cfg, View(s), response, alloc, View(s'), poison, reply)
  {
    hide View, Inv, Conflicts, Disagrees, MetadataConflict, Contradicts, SupplyLimit, Unsuppliable, Oversize, GapsOf, Payload, Starts,
         Fits, OverLimit, Wakes, Rebuilds, Covered, Woken, NewlyReady, Total;
    CausesAre(cfg, s, response);
    Consistent(s, response.snapshot.len);
    InstalledView(cfg, s, response, s');
    RebuiltIsSorted(s.segments, response, s'.segments);
    CommitView(cfg, s, Binds(s.observedLen, response.snapshot.len), s', reply);
  }

  lemma Consistent(s: Store, len: Option<nat>)
    ensures !MetadataConflict(s, len) && s.observedLen.Some? ==> len == s.observedLen
  {
  }

  lemma RebuiltIsSorted(segs: seq<Segment>, response: Response, segs': seq<Segment>)
    requires response.Valid() && Rebuilds(segs, response, segs')
    ensures Sorted(segs')
  {
  }

  lemma {:induction false} InstalledView(cfg: Config, s: Store, response: Response, s': Store)
    requires Inv(cfg, s) && response.Valid() && Rebuilds(s.segments, response, s'.segments) && !OverLimit(cfg, s, s'.segments)
    ensures View(s').bytes == View(s).bytes + Payload(response) && |View(s').bytes| == Total(s'.segments)
    ensures Fits(cfg, View(s), View(s').bytes) && View(s').length == s'.observedLen
  {
    UnionOf(s.segments, response, s'.segments);
    BytesAre(s'.segments);
    FitsIs(cfg, s, s'.segments);
  }

  lemma {:induction false} ObserveView(cfg: Config, s: Store, snapshot: Snapshot, alloc: Alloc, s': Store, poison: bool, reply: Reply)
    requires Inv(cfg, s) && ObserveStep(cfg, s, snapshot, alloc, s', poison, reply)
    ensures Observes(cfg, View(s), snapshot, alloc, View(s'), poison, reply)
  {
    hide View, Inv, MetadataConflict, Contradicts, ChangedAll, Changes, Wakes, Woken, NewlyReady, Total;
    InvParts(cfg, s);
    Consistent(s, snapshot.len);
    ContradictIs(cfg, s, snapshot.len);
    ChangedView(cfg, s);
    if reply.Supplied? {
      CommitView(cfg, s, Binds(s.observedLen, snapshot.len), s', reply);
      SameBytes(s, s');
    }
  }

  lemma SameBytes(s: Store, s': Store)
    requires s'.segments == s.segments
    ensures View(s').bytes == View(s).bytes && View(s').length == s'.observedLen
  {
  }

  // ------------------------------------------------------------------ every effect

  /** Refinement: seen as two finite maps, every effect of every operation, with the source
      flag clear or set, is what ByteCache says it is. */
  lemma {:induction false} EffectIsAnswer(cfg: Config, flag: bool, s: Store, op: Op, alloc: Alloc, flag': bool, s': Store, reply: Reply)
    requires Inv(cfg, s) && Effect(cfg, flag, s, op, alloc, flag', s', reply)
    ensures Answers(cfg, flag, View(s), op, alloc, flag', View(s'), reply)
  {
    hide SupplyStep, ObserveStep, PollStep, FailStep, UnsubscribeStep, TakeStep, StatusStep, ReleaseStep, Supplies, Observes, Polls,
         Fails, Unsubscribes, TakesAll, Tells, Releases, View, Changes, ChangedAll, Inv;
    InvParts(cfg, s);
    ChangedView(cfg, s);
    ChangedKeepsInv(cfg, s);
    InvParts(cfg, ChangedAll(s));
    var seen := if flag then ChangedAll(s) else s;
    match op
    case Supply(response) => if !flag { SupplyView(cfg, s, response, alloc, s', flag', reply); }
    case Observe(snapshot) => if !flag { ObserveView(cfg, s, snapshot, alloc, s', flag', reply); }
    case Poll(range, job, checkpoint) => if !flag { PollView(cfg, s, range, job, checkpoint, alloc, s', reply); }
    case Fail(t, error) => var poison := FailAnswer(cfg, flag, s, op, alloc, flag', s', reply);
    case Signal =>
    case Unsubscribe(t, job) => UnsubscribeView(cfg, seen, t, job, s', reply);
    case Take(t) => TakeView(cfg, seen, t, s', reply);
    case QueryStatus(t) => StatusView(cfg, seen, t, s', reply);
    case Release(t) => ReleaseView(cfg, seen, t, s', reply);
  }

  lemma {:induction false} FailAnswer(cfg: Config, flag: bool, s: Store, op: Op, alloc: Alloc, flag': bool, s': Store, reply: Reply)
    returns (poison: bool)
    requires op.Fail? && Inv(cfg, s) && Effect(cfg, flag, s, op, alloc, flag', s', reply)
    ensures var seen := if flag then ChangedAll(s) else s;
            && Fails(View(seen), op.ticket, op.error, View(s'), poison, reply)
            && poison == (op.ticket in View(seen).waiting && Integral(op.error))
    ensures flag' <==> flag || poison
  {
    hide FailStep, View, ChangedAll, Inv, Changes;
    ChangedKeepsInv(cfg, s);
    InvParts(cfg, s);
    InvParts(cfg, ChangedAll(s));
    if flag {
      poison :| FailStep(ChangedAll(s), op.ticket, op.error, s', poison, reply);
      FailView(cfg, ChangedAll(s), op.ticket, op.error, s', poison, reply);
    } else {
      poison := flag';
      FailView(cfg, s, op.ticket, op.error, s', poison, reply);
    }
  }

  lemma InvParts(cfg: Config, s: Store)
    requires Inv(cfg, s)
    ensures TicketInv(cfg, s) && CacheInv(cfg, s) && Sorted(s.segments)
    ensures View(s).length == s.observedLen && |View(s).bytes| == s.cachedBytes == Total(s.segments)
  {
    BytesAre(s.segments);
  }
}
