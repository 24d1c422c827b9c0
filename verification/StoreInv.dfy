/** Every operation keeps the store invariant: canonical segments within the bound length,
    a byte count that equals the number of cached offsets, pending records that wait for
    exactly what is uncached, and subscription counters that equal the records' sums. */
module StoreInv {
  import opened Basics
  import opened Ranges
  import opened Segments
  import opened Coalesce
  import opened StoreSpec

  // ------------------------------------------------------------------ cached extent

  lemma LastEndCached(segs: seq<Segment>)
    requires segs != []
    ensures LastEnd(segs) > 0 && Has(segs, LastEnd(segs) - 1)
  {
    assert segs[|segs| - 1].Contains(LastEnd(segs) - 1);
  }

  lemma CachedBelowEnd(segs: seq<Segment>, k: nat)
    requires Sorted(segs) && Has(segs, k)
    ensures k < LastEnd(segs)
  {
    var i :| 0 <= i < |segs| && segs[i].Contains(k);
    if i < |segs| - 1 { SortedPair(segs, i, |segs| - 1); }
  }

  /** What a response adds to the extent of the cache. */
  lemma RebuiltEnd(segs: seq<Segment>, response: Response, segs': seq<Segment>)
    requires Sorted(segs) && response.Valid() && Rebuilds(segs, response, segs')
    ensures LastEnd(segs') <= Max(LastEnd(segs), response.range.End())
    ensures forall k: nat :: Has(segs, k) ==> Has(segs', k)
  {
    if segs' != [] {
      var k := LastEnd(segs') - 1;
      LastEndCached(segs');
      AtHas(segs', k);
      AtHas(segs, k);
      if !response.range.Contains(k) { CachedBelowEnd(segs, k); }
    }
    forall k: nat | Has(segs, k) ensures Has(segs', k) {
      AtHas(segs, k);
      AtHas(segs', k);
    }
  }

  // ------------------------------------------------------------------ counters

  lemma {:induction false} SumSame(a: seq<Record>, b: seq<Record>, n: nat)
    requires n <= |a| && n <= |b|
    requires forall i :: 0 <= i < n ==> |a[i].subscribers| == |b[i].subscribers|
    ensures SubscriberSum(a, n) == SubscriberSum(b, n)
  {
    if n > 0 { SumSame(a, b, n - 1); }
  }

  /** Replacing one record moves the sum by the change of its subscriber count. */
  lemma {:induction false} SumUpdate(a: seq<Record>, i: nat, r: Record, n: nat)
    requires i < |a| && n <= |a|
    ensures SubscriberSum(a[i := r], n)
            == SubscriberSum(a, n) + (if i < n then |r.subscribers| - |a[i].subscribers| else 0)
  {
    if n > 0 { SumUpdate(a, i, r, n - 1); }
  }

  lemma {:induction false} SumMember(a: seq<Record>, i: nat, n: nat)
    requires i < n <= |a|
    ensures |a[i].subscribers| <= SubscriberSum(a, n)
  {
    if i < n - 1 { SumMember(a, i, n - 1); }
  }

  lemma {:induction false} SumRemove(a: seq<Record>, i: nat, n: nat)
    requires i < n <= |a| && a[i].subscribers == []
    ensures SubscriberSum(a[..i] + a[i + 1..], n - 1) == SubscriberSum(a, n)
  {
    var b := a[..i] + a[i + 1..];
    if n - 1 == i {
      SumSame(b, a, i);
    } else {
      SumRemove(a, i, n - 1);
      assert b[n - 2] == a[n - 1];
    }
  }

  // ------------------------------------------------------------------ commits

  lemma LastMissingBound(missing: seq<Range>, end: nat)
    requires forall n :: 0 <= n < |missing| ==> missing[n].End() <= end
    ensures LastMissing(missing) <= end
  {
  }

  lemma MissingWithinLast(missing: seq<Range>)
    requires Canonical(missing)
    ensures forall n :: 0 <= n < |missing| ==> missing[n].End() <= LastMissing(missing)
  {
    forall n | 0 <= n < |missing| ensures missing[n].End() <= LastMissing(missing) {
      if n < |missing| - 1 { assert missing[n].End() < missing[|missing| - 1].start; }
    }
  }

  lemma RestWithinLast(segs: seq<Segment>, missing: seq<Range>)
    requires Sorted(segs) && Canonical(missing)
    ensures LastMissing(GapsOf(segs, missing)) <= LastMissing(missing)
  {
    MissingWithinLast(missing);
    GapsOfWithin(segs, missing, LastMissing(missing));
    LastMissingBound(GapsOf(segs, missing), LastMissing(missing));
  }

  lemma WokenRecordInv(cfg: Config, s: Store, s': Store, r: Record, bound: Option<nat>)
    requires RecordInv(cfg, s, r) && Sorted(s'.segments) && s'.nextTicket == s.nextTicket
    requires s'.observedLen == if bound.Some? then bound else s.observedLen
    requires r.phase.Pending? ==> |GapsOf(s'.segments, r.missing)| <= cfg.limits.maxMissing
    ensures RecordInv(cfg, s', WokenRecord(r, s'.segments, bound))
  {
    if r.phase.Pending? {
      GapsOfExact(s'.segments, r.missing);
      RestWithinLast(s'.segments, r.missing);
    }
  }

  lemma CommitKeepsInv(cfg: Config, s: Store, segs: seq<Segment>, bound: Option<nat>, s': Store, reply: Reply)
    requires Inv(cfg, s) && Commits(s, segs, bound, s', reply)
    requires CacheInv(cfg, s')
    requires !OverLimit(cfg, s, segs)
    ensures Inv(cfg, s')
  {
    forall i | 0 <= i < |s'.tickets| ensures RecordInv(cfg, s', s'.tickets[i]) {
      WokenRecordInv(cfg, s, s', s.tickets[i], bound);
    }
    SumSame(s.tickets, s'.tickets, |s.tickets|);
  }

  /** Pending records already wait for uncached offsets only, so a commit that adds no
      segment leaves their missing lists alone. */
  lemma MissingIsRest(segs: seq<Segment>, missing: seq<Range>)
    requires Sorted(segs) && Canonical(missing) && Uncached(segs, missing)
    ensures GapsOf(segs, missing) == missing
  {
    GapsOfExact(segs, missing);
    CanonicalUnique(GapsOf(segs, missing), missing);
  }

  lemma SameSegmentsFit(cfg: Config, s: Store)
    requires Inv(cfg, s)
    ensures !OverLimit(cfg, s, s.segments)
  {
    forall i | 0 <= i < |s.tickets| && s.tickets[i].phase.Pending?
      ensures |GapsOf(s.segments, s.tickets[i].missing)| <= cfg.limits.maxMissing
    {
      assert RecordInv(cfg, s, s.tickets[i]);
      MissingIsRest(s.segments, s.tickets[i].missing);
    }
  }

  lemma SupplyKeepsInv(cfg: Config, s: Store, response: Response, alloc: Alloc, s': Store, poison: bool, reply: Reply)
    requires Inv(cfg, s) && response.Valid() && SupplyStep(cfg, s, response, alloc, s', poison, reply)
    ensures Inv(cfg, s')
  {
    if poison {
      ChangedKeepsInv(cfg, s);
    } else if reply.Supplied? {
      RebuiltEnd(s.segments, response, s'.segments);
      CommitKeepsInv(cfg, s, s'.segments, Binds(s.observedLen, response.snapshot.len), s', reply);
    }
  }

  lemma ObserveKeepsInv(cfg: Config, s: Store, snapshot: Snapshot, alloc: Alloc, s': Store, poison: bool, reply: Reply)
    requires Inv(cfg, s) && ObserveStep(cfg, s, snapshot, alloc, s', poison, reply)
    ensures Inv(cfg, s')
  {
    if poison {
      ChangedKeepsInv(cfg, s);
    } else if reply.Supplied? {
      SameSegmentsFit(cfg, s);
      CommitKeepsInv(cfg, s, s.segments, Binds(s.observedLen, snapshot.len), s', reply);
    }
  }

  lemma ChangedKeepsInv(cfg: Config, s: Store)
    requires Inv(cfg, s)
    ensures Inv(cfg, ChangedAll(s)) && NoPending(ChangedAll(s))
  {
    var c := ChangedAll(s);
    forall i | 0 <= i < |c.tickets| ensures RecordInv(cfg, c, c.tickets[i]) {
      assert RecordInv(cfg, s, s.tickets[i]);
    }
    SumSame(s.tickets, c.tickets, |s.tickets|);
  }

  // ------------------------------------------------------------------ polls

  lemma UncoveredGaps(segs: seq<Segment>, range: Range)
    requires Sorted(segs)
    ensures (forall k: nat :: range.Contains(k) ==> At(segs, k).Some?) <==> Covered(segs, range)
  {
    forall k: nat ensures At(segs, k).Some? <==> Has(segs, k) { AtHas(segs, k); }
  }

  lemma FreshRecordInv(cfg: Config, s: Store, range: Range, job: nat, checkpoint: nat, s': Store)
    requires Inv(cfg, s) && !Covered(s.segments, range) && |Gaps(s.segments, range)| <= cfg.limits.maxMissing
    requires Below(s.observedLen, range.End())
    requires s'.segments == s.segments && s'.observedLen == s.observedLen && s'.nextTicket == s.nextTicket + 1
    ensures RecordInv(cfg, s', Record(Ticket(cfg.namespace, s.nextTicket), Gaps(s.segments, range),
                                      [Subscription(job, checkpoint)], Pending))
  {
    GapsExact(s.segments, range);
    LastMissingBound(Gaps(s.segments, range), range.End());
  }

  lemma OpenKeepsInv(cfg: Config, s: Store, range: Range, job: nat, checkpoint: nat, alloc: Alloc, s': Store, reply: Reply)
    requires Inv(cfg, s) && !Covered(s.segments, range) && |Gaps(s.segments, range)| <= cfg.limits.maxMissing
    requires Below(s.observedLen, range.End())
    requires OpenStep(cfg, s, Gaps(s.segments, range), job, checkpoint, alloc, s', reply)
    ensures Inv(cfg, s')
  {
    if s'.nextTicket == s.nextTicket + 1 {
      forall i | 0 <= i < |s.tickets| ensures RecordInv(cfg, s', s.tickets[i]) {
        assert RecordInv(cfg, s, s.tickets[i]);
      }
      if |s'.tickets| > |s.tickets| {
        FreshRecordInv(cfg, s, range, job, checkpoint, s');
        SumSame(s'.tickets, s.tickets, |s.tickets|);
      }
    }
  }

  lemma JoinKeepsInv(cfg: Config, s: Store, n: nat, job: nat, checkpoint: nat, alloc: Alloc, s': Store, reply: Reply)
    requires Inv(cfg, s) && n < |s.tickets|
    requires JoinStep(cfg, s, n, job, checkpoint, alloc, s', reply)
    ensures Inv(cfg, s')
  {
    if s' != s { RecordUpdateInv(cfg, s, n, s'.tickets[n], s'); }
  }

  /** Replacing one record by one that satisfies its invariant. */
  lemma RecordUpdateInv(cfg: Config, s: Store, n: nat, r: Record, s': Store)
    requires Inv(cfg, s) && n < |s.tickets|
    requires s' == s.(tickets := s.tickets[n := r], subscriptionCount := s'.subscriptionCount)
    requires r.ticket == s.tickets[n].ticket && RecordInv(cfg, s, r)
    requires s'.subscriptionCount == s.subscriptionCount + |r.subscribers| - |s.tickets[n].subscribers|
    requires s'.subscriptionCount <= cfg.limits.maxSubscriptions
    ensures Inv(cfg, s')
  {
    forall i | 0 <= i < |s'.tickets| ensures RecordInv(cfg, s', s'.tickets[i]) {
      assert RecordInv(cfg, s, s.tickets[i]);
    }
    SumUpdate(s.tickets, n, r, |s.tickets|);
  }

  lemma PollKeepsInv(cfg: Config, s: Store, range: Range, job: nat, checkpoint: nat, alloc: Alloc, s': Store, reply: Reply)
    requires Inv(cfg, s) && PollStep(cfg, s, range, job, checkpoint, alloc, s', reply)
    ensures Inv(cfg, s')
  {
    if s' != s {
      UncoveredGaps(s.segments, range);
      var missing := Gaps(s.segments, range);
      var n := FindWaiting(s.tickets, missing, 0);
      if n < |s.tickets| {
        JoinKeepsInv(cfg, s, n, job, checkpoint, alloc, s', reply);
      } else {
        OpenKeepsInv(cfg, s, range, job, checkpoint, alloc, s', reply);
      }
    }
  }

  // ------------------------------------------------------------------ ticket operations

  lemma {:induction false} WithoutJobShrinks(subs: seq<Subscription>, job: nat, n: nat)
    requires n <= |subs|
    ensures |WithoutJob(subs, job, n)| <= n
  {
    if n > 0 { WithoutJobShrinks(subs, job, n - 1); }
  }

  lemma {:induction false} WithoutJobFacts(subs: seq<Subscription>, job: nat, n: nat)
    requires n <= |subs| && OncePerJob(subs)
    ensures var k := WithoutJob(subs, job, n); |k| <= n && OncePerJob(k)
    ensures forall x :: x in WithoutJob(subs, job, n) <==> x in subs[..n] && x.job != job
  {
    if n > 0 {
      WithoutJobFacts(subs, job, n - 1);
      assert subs[..n] == subs[..n - 1] + [subs[n - 1]];
      var k := WithoutJob(subs, job, n - 1);
      forall i | 0 <= i < |k| ensures k[i].job != subs[n - 1].job {
        assert k[i] in subs[..n - 1];
      }
    }
  }

  lemma UnsubscribeKeepsInv(cfg: Config, s: Store, ticket: Ticket, job: nat, s': Store, reply: Reply)
    requires Inv(cfg, s) && UnsubscribeStep(s, ticket, job, s', reply)
    ensures Inv(cfg, s')
  {
    if s' != s {
      var n := FindTicket(s.tickets, ticket, 0);
      WithoutJobFacts(s.tickets[n].subscribers, job, |s.tickets[n].subscribers|);
      RecordUpdateInv(cfg, s, n, s'.tickets[n], s');
    }
  }

  lemma TakeKeepsInv(cfg: Config, s: Store, ticket: Ticket, s': Store, reply: Reply)
    requires Inv(cfg, s) && TakeStep(s, ticket, s', reply)
    ensures Inv(cfg, s')
  {
    if s' != s {
      var n := FindTicket(s.tickets, ticket, 0);
      RecordUpdateInv(cfg, s, n, s'.tickets[n], s');
    }
  }

  lemma FailKeepsInv(cfg: Config, s: Store, ticket: Ticket, error: SourceError, s': Store, poison: bool, reply: Reply)
    requires Inv(cfg, s) && FailStep(s, ticket, error, s', poison, reply)
    ensures Inv(cfg, s')
  {
    if poison {
      ChangedKeepsInv(cfg, s);
    } else if s' != s {
      var n := FindTicket(s.tickets, ticket, 0);
      RecordUpdateInv(cfg, s, n, s'.tickets[n], s');
    }
  }

  lemma ReleaseKeepsInv(cfg: Config, s: Store, ticket: Ticket, s': Store, reply: Reply)
    requires Inv(cfg, s) && ReleaseStep(s, ticket, s', reply)
    ensures Inv(cfg, s')
  {
    if s' != s {
      var n := FindTicket(s.tickets, ticket, 0);
      RemovedAt(s.tickets, n, s'.tickets);
      RemovedRecords(cfg, s, n, s'.tickets);
      SumRemove(s.tickets, n, |s.tickets|);
      assert s' == s.(tickets := s'.tickets);
      hide FindTicket, SubscriberSum, RecordInv;
      forall i | 0 <= i < |s'.tickets| ensures RecordInv(cfg, s', s'.tickets[i]) {
        SameRecordInv(cfg, s, s', s'.tickets[i]);
      }
    }
  }

  lemma SameRecordInv(cfg: Config, s: Store, s': Store, r: Record)
    requires RecordInv(cfg, s, r)
    requires s'.segments == s.segments && s'.nextTicket == s.nextTicket && s'.observedLen == s.observedLen
    ensures RecordInv(cfg, s', r)
  {
  }

  lemma RemovedAt(a: seq<Record>, n: nat, b: seq<Record>)
    requires n < |a| && b == a[..n] + a[n + 1..]
    ensures forall i :: 0 <= i < |b| ==> b[i] == a[if i < n then i else i + 1]
  {
  }

  lemma RemovedRecords(cfg: Config, s: Store, n: nat, after: seq<Record>)
    requires TicketInv(cfg, s) && n < |s.tickets| && |after| == |s.tickets| - 1
    requires forall i :: 0 <= i < |after| ==> after[i] == s.tickets[if i < n then i else i + 1]
    ensures forall i :: 0 <= i < |after| ==> RecordInv(cfg, s, after[i])
    ensures forall i, j :: 0 <= i < j < |after| ==> after[i].ticket.value < after[j].ticket.value
  {
    var tickets := s.tickets;
    forall i | 0 <= i < |after| ensures RecordInv(cfg, s, after[i]) {
      assert RecordInv(cfg, s, tickets[if i < n then i else i + 1]);
    }
    forall i, j | 0 <= i < j < |after| ensures after[i].ticket.value < after[j].ticket.value {
      var a, b := if i < n then i else i + 1, if j < n then j else j + 1;
      assert tickets[a].ticket.value < tickets[b].ticket.value;
    }
  }

  /** Every operation keeps the invariant while the flag is clear. */
  lemma StepKeepsInv(cfg: Config, op: Op, alloc: Alloc, s: Store, s': Store, poison: bool, reply: Reply)
    requires op.Valid() && Inv(cfg, s) && Step(cfg, op, alloc, s, s', poison, reply)
    ensures Inv(cfg, s')
    ensures poison ==> NoPending(s')
  {
    match op
    case Supply(response) =>
      SupplyKeepsInv(cfg, s, response, alloc, s', poison, reply);
      ChangedKeepsInv(cfg, s);
    case Observe(snapshot) =>
      ObserveKeepsInv(cfg, s, snapshot, alloc, s', poison, reply);
      ChangedKeepsInv(cfg, s);
    case Poll(range, job, checkpoint) => PollKeepsInv(cfg, s, range, job, checkpoint, alloc, s', reply);
    case Fail(ticket, error) =>
      FailKeepsInv(cfg, s, ticket, error, s', poison, reply);
      ChangedKeepsInv(cfg, s);
    case Signal => ChangedKeepsInv(cfg, s);
    case Unsubscribe(ticket, job) => UnsubscribeKeepsInv(cfg, s, ticket, job, s', reply);
    case Take(ticket) => TakeKeepsInv(cfg, s, ticket, s', reply);
    case QueryStatus(ticket) =>
    case Release(ticket) => ReleaseKeepsInv(cfg, s, ticket, s', reply);
  }

  /** Every operation keeps the invariant once the flag is set, and no ticket is left
      or made pending. */
  lemma WhenChangedKeepsInv(cfg: Config, op: Op, s: Store, s': Store, reply: Reply)
    requires Inv(cfg, s) && WhenChanged(op, s, s', reply)
    ensures Inv(cfg, s') && NoPending(s')
  {
    var c := ChangedAll(s);
    ChangedKeepsInv(cfg, s);
    match op
    case Supply(_) =>
    case Observe(_) =>
    case Poll(_, _, _) =>
    case Fail(ticket, error) =>
      var poison :| FailStep(c, ticket, error, s', poison, reply);
      FailKeepsInv(cfg, c, ticket, error, s', poison, reply);
    case Signal =>
    case Unsubscribe(ticket, job) => UnsubscribeKeepsInv(cfg, c, ticket, job, s', reply);
    case Take(ticket) => TakeKeepsInv(cfg, c, ticket, s', reply);
    case QueryStatus(ticket) =>
    case Release(ticket) => ReleaseKeepsInv(cfg, c, ticket, s', reply);
  }
}
