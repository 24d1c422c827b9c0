/** Two things a Range store does not keep, and exactly when it does: pending tickets with
    distinct missing lists, and ticket numbers without gaps (pdf-rs/bytes/src/store.rs,
    lines 705-748 and 994-1087). */
module TicketIdentity {
  import opened Basics
  import opened Ranges
  import opened Segments
  import opened Coalesce
  import opened StoreSpec
  import opened StoreInv
  import opened StoreRuns
  import opened WakeUps

  // ------------------------------------------------------------------ converging tickets

  /** Every offset that only one of the two lists waits for comes with the response. */
  ghost predicate SettlesDifference(a: seq<Range>, b: seq<Range>, range: Range) {
    forall k: nat :: (Hit(a, k) <==> Hit(b, k)) || range.Contains(k)
  }

  /** Something the list waits for does not come with the response, and nothing of that
      lies past a newly bound length. */
  ghost predicate StillWaits(missing: seq<Range>, range: Range, bound: Option<nat>) {
    && (exists k: nat :: Hit(missing, k) && !range.Contains(k))
    && (bound.Some? ==> forall k: nat :: Hit(missing, k) && !range.Contains(k) ==> k < bound.value)
  }

  /** Both records are pending for the same ranges. */
  ghost predicate Twins(a: Record, b: Record) { a.phase.Pending? && b.phase.Pending? && a.missing == b.missing }

  /** What a supply of `range` must find in two records to leave them as twins. */
  ghost predicate Converge(a: Record, b: Record, range: Range, bound: Option<nat>) {
    && a.phase.Pending? && b.phase.Pending?
    && SettlesDifference(a.missing, b.missing, range) && StillWaits(a.missing, range, bound)
  }

  /** A commit leaves a pending record pending exactly when it still waits. */
  lemma PendingStays(cfg: Config, s: Store, response: Response, segs': seq<Segment>, bound: Option<nat>, r: Record)
    requires Inv(cfg, s) && response.Valid() && Rebuilds(s.segments, response, segs')
    requires RecordInv(cfg, s, r) && r.phase.Pending?
    ensures WokenRecord(r, segs', bound).phase.Pending? <==> StillWaits(r.missing, response.range, bound)
  {
    RestOfMissing(s.segments, response, segs', r.missing);
    var rest := GapsOf(segs', r.missing);
    hide GapsOf;
    if rest != [] {
      var last := rest[|rest| - 1];
      assert last.Contains(LastMissing(rest) - 1) && Hit(rest, LastMissing(rest) - 1);
      forall k: nat | Hit(rest, k) ensures k < LastMissing(rest) {
        MissingWithinLast(rest);
      }
    }
  }

  /** A commit leaves two pending records pending for the same ranges exactly when the
      response covers every offset in which they differ and the first still waits. */
  lemma MissingConverges(cfg: Config, s: Store, response: Response, segs': seq<Segment>, bound: Option<nat>, i: nat, j: nat)
    requires Inv(cfg, s) && response.Valid() && Rebuilds(s.segments, response, segs')
    requires i < |s.tickets| && j < |s.tickets|
    ensures Twins(WokenRecord(s.tickets[i], segs', bound), WokenRecord(s.tickets[j], segs', bound))
            <==> Converge(s.tickets[i], s.tickets[j], response.range, bound)
  {
    var a, b := s.tickets[i], s.tickets[j];
    if a.phase.Pending? && b.phase.Pending? {
      RecordHolds(cfg, s, i);
      RecordHolds(cfg, s, j);
      RestsAgree(cfg, s, response, segs', i, j);
      PendingStays(cfg, s, response, segs', bound, a);
      PendingStays(cfg, s, response, segs', bound, b);
      hide GapsOf, SettlesDifference, StillWaits, RecordInv, Inv, Rebuilds;
    }
  }

  lemma RecordHolds(cfg: Config, s: Store, i: nat)
    requires Inv(cfg, s) && i < |s.tickets|
    ensures RecordInv(cfg, s, s.tickets[i])
  {
  }

  /** The remainders of two pending lists agree exactly when the response settles their
      difference. */
  lemma RestsAgree(cfg: Config, s: Store, response: Response, segs': seq<Segment>, i: nat, j: nat)
    requires Inv(cfg, s) && response.Valid() && Rebuilds(s.segments, response, segs')
    requires i < |s.tickets| && j < |s.tickets| && s.tickets[i].phase.Pending? && s.tickets[j].phase.Pending?
    ensures GapsOf(segs', s.tickets[i].missing) == GapsOf(segs', s.tickets[j].missing)
            <==> SettlesDifference(s.tickets[i].missing, s.tickets[j].missing, response.range)
  {
    var a, b := s.tickets[i].missing, s.tickets[j].missing;
    RecordHolds(cfg, s, i);
    RecordHolds(cfg, s, j);
    RestOfMissing(s.segments, response, segs', a);
    RestOfMissing(s.segments, response, segs', b);
    var restA, restB := GapsOf(segs', a), GapsOf(segs', b);
    hide GapsOf, Hit, Canonical;
    if SettlesDifference(a, b, response.range) {
      CanonicalUnique(restA, restB);
    }
    if restA == restB {
      forall k: nat ensures (Hit(a, k) <==> Hit(b, k)) || response.range.Contains(k) {
        assert Hit(restA, k) <==> Hit(restB, k);
      }
    }
  }

  /** What a response leaves of a missing list. */
  lemma RestOfMissing(segs: seq<Segment>, response: Response, segs': seq<Segment>, missing: seq<Range>)
    requires response.Valid() && Rebuilds(segs, response, segs') && Canonical(missing) && Uncached(segs, missing)
    ensures Canonical(GapsOf(segs', missing))
    ensures forall k: nat :: Hit(GapsOf(segs', missing), k) <==> Hit(missing, k) && !response.range.Contains(k)
  {
    GapsOfExact(segs', missing);
    hide GapsOf, Canonical;
    forall k: nat ensures Hit(GapsOf(segs', missing), k) <==> Hit(missing, k) && !response.range.Contains(k) {
      hide Hit;
      AtHas(segs, k);
      AtHas(segs', k);
      assert At(segs', k) == Updated(segs, response.range, response.bytes, k);
    }
  }

  /** The store of the counterexample: empty, after a poll of 0..10, after one of 0..20, and
      after a supply of 10..20. */
  ghost function Polled(cfg: Config, n: nat): Store
    requires n <= 2
  {
    var first := Record(Ticket(cfg.namespace, 1), [ByteRange(0, 10)], [Subscription(1, 1)], Pending);
    var second := Record(Ticket(cfg.namespace, 2), [ByteRange(0, 20)], [Subscription(2, 2)], Pending);
    Initial(cfg).store.(tickets := [first, second][..n], nextTicket := n + 1, subscriptionCount := n)
  }

  ghost function Tail(cfg: Config, bytes: seq<Byte>): Response { Response(cfg.snapshot, ByteRange(10, 10), bytes, 10) }

  ghost function Settled(cfg: Config, bytes: seq<Byte>): Store
    requires |bytes| == 10
  {
    var segs := [CachedSegment.Segment(10, 20, bytes, 10)];
    Polled(cfg, 2).(segments := segs, cachedBytes := 10, tickets := Woken(Polled(cfg, 2).tickets, segs, None))
  }

  predicate Granted(cfg: Config, alloc: Alloc) {
    && alloc.ready && alloc.affected && alloc.prospective && alloc.updates && alloc.missing && alloc.subscribers
    && alloc.responseSeen + 10 <= cfg.limits.maxResident
  }

  /** Two polls and one supply after which two pending tickets wait for the same ranges. */
  lemma TicketsConverge(cfg: Config, alloc: Alloc, bytes: seq<Byte>)
    requires cfg.limits.Valid() && Granted(cfg, alloc) && cfg.snapshot.len.None? && |bytes| == 10
    requires cfg.limits.maxRead >= 20 && cfg.limits.maxTickets >= 2 && cfg.limits.maxSubscriptions >= 2
    ensures Polled(cfg, 0) == Initial(cfg).store
    ensures PollStep(cfg, Polled(cfg, 0), ByteRange(0, 10), 1, 1, alloc, Polled(cfg, 1),
                     PendingOn(Ticket(cfg.namespace, 1), [ByteRange(0, 10)]))
    ensures PollStep(cfg, Polled(cfg, 1), ByteRange(0, 20), 2, 2, alloc, Polled(cfg, 2),
                     PendingOn(Ticket(cfg.namespace, 2), [ByteRange(0, 20)]))
    ensures Tail(cfg, bytes).Valid()
    ensures SupplyStep(cfg, Polled(cfg, 2), Tail(cfg, bytes), alloc, Settled(cfg, bytes), false, Supplied(10, []))
    ensures var w := Settled(cfg, bytes).tickets;
            && |w| == 2 && w[0].phase.Pending? && w[1].phase.Pending? && w[0].ticket != w[1].ticket
            && w[0].missing == w[1].missing == [ByteRange(0, 10)]
  {
    FirstPoll(cfg, alloc);
    SecondPoll(cfg, alloc);
    ConvergingRest(bytes);
    ConvergingSupply(cfg, alloc, bytes);
    hide GapsOf, SupplyStep, PollStep;
  }

  lemma FirstPoll(cfg: Config, alloc: Alloc)
    requires cfg.limits.Valid() && Granted(cfg, alloc) && cfg.snapshot.len.None? && cfg.limits.maxRead >= 20
    ensures PollStep(cfg, Polled(cfg, 0), ByteRange(0, 10), 1, 1, alloc, Polled(cfg, 1),
                     PendingOn(Ticket(cfg.namespace, 1), [ByteRange(0, 10)]))
  {
    NothingCached(ByteRange(0, 10));
  }

  lemma SecondPoll(cfg: Config, alloc: Alloc)
    requires cfg.limits.Valid() && Granted(cfg, alloc) && cfg.snapshot.len.None? && cfg.limits.maxRead >= 20
    requires cfg.limits.maxTickets >= 2 && cfg.limits.maxSubscriptions >= 2
    ensures PollStep(cfg, Polled(cfg, 1), ByteRange(0, 20), 2, 2, alloc, Polled(cfg, 2),
                     PendingOn(Ticket(cfg.namespace, 2), [ByteRange(0, 20)]))
  {
    NothingCached(ByteRange(0, 20));
    assert FindWaiting(Polled(cfg, 1).tickets, [ByteRange(0, 20)], 0) == 1;
  }

  lemma ConvergingRest(bytes: seq<Byte>)
    requires |bytes| == 10
    ensures var segs := [CachedSegment.Segment(10, 20, bytes, 10)];
            GapsOf(segs, [ByteRange(0, 10)]) == GapsOf(segs, [ByteRange(0, 20)]) == [ByteRange(0, 10)]
  {
    var segs := [CachedSegment.Segment(10, 20, bytes, 10)];
    var r0, r1: Range := ByteRange(0, 10), ByteRange(0, 20);
    assert GapsOf(segs, []) == [] && GapsOf(segs, [r0]) == Gaps(segs, r0) && GapsOf(segs, [r1]) == Gaps(segs, r1) by {
      assert [r0][..0] == [] && [r1][..0] == [];
    }
    assert Gaps(segs, r0) == [r0] && Gaps(segs, r1) == [r0] by {
      assert GapsFrom(segs, 1, 20, 20) == [];
    }
  }

  lemma ConvergingSupply(cfg: Config, alloc: Alloc, bytes: seq<Byte>)
    requires cfg.limits.Valid() && Granted(cfg, alloc) && cfg.snapshot.len.None? && |bytes| == 10
    requires cfg.limits.maxRead >= 20
    ensures SupplyStep(cfg, Polled(cfg, 2), Tail(cfg, bytes), alloc, Settled(cfg, bytes), false, Supplied(10, []))
  {
    var segs := [CachedSegment.Segment(10, 20, bytes, 10)];
    var s, response := Polled(cfg, 2), Tail(cfg, bytes);
    ConvergingRest(bytes);
    hide GapsOf;
    assert Rebuilds([], response, segs) by {
      forall k: nat ensures At(segs, k) == Updated([], response.range, bytes, k) {
        assert AtTo(segs, 0, k) == None && At([], k) == None;
      }
    }
    assert Total(segs) == 10 by { assert TotalTo(segs, 0) == 0; }
    assert !Covered([], response.range) by { assert response.range.Contains(10) && !Has([], 10); }
    assert MissingLimit(cfg.limits, s.tickets, segs, alloc, 2) == None;
    assert MissingLimit(cfg.limits, s.tickets, segs, alloc, 1) == None;
    assert NewlyReady(s.tickets, Woken(s.tickets, segs, None), 2) == [] by {
      assert NewlyReady(s.tickets, Woken(s.tickets, segs, None), 1) == [];
    }
  }

  lemma NothingCached(range: Range)
    ensures Gaps([], range) == [range] && range.Contains(range.start) && At([], range.start).None?
  {
  }

  // ------------------------------------------------------------------ twins over a run

  /** No two tickets are pending for the same ranges. */
  ghost predicate Distinct(s: Store) {
    forall i, j :: 0 <= i < j < |s.tickets| ==> !Twins(s.tickets[i], s.tickets[j])
  }

  /** A supply that finds two records to converge. */
  ghost predicate MakesTwins(s: Store, op: Op) {
    && op.Supply?
    && exists i, j :: 0 <= i < j < |s.tickets| && Converge(s.tickets[i], s.tickets[j], op.response.range,
                                                           Binds(s.observedLen, op.response.snapshot.len))
  }

  /** Records that stay as they are, or end, keep distinct lists distinct. */
  lemma KeptDistinct(cfg: Config, s: Store, s': Store)
    requires TicketInv(cfg, s') && Distinct(s) && AllKept(s.tickets, s'.tickets)
    ensures Distinct(s')
  {
    forall i, j | 0 <= i < j < |s'.tickets| ensures !Twins(s'.tickets[i], s'.tickets[j]) {
      assert KeptFrom(s.tickets, s'.tickets[i]) && KeptFrom(s.tickets, s'.tickets[j]);
      var a :| 0 <= a < |s.tickets| && Kept(s.tickets[a], s'.tickets[i]);
      var b :| 0 <= b < |s.tickets| && Kept(s.tickets[b], s'.tickets[j]);
      assert a != b;
      assert !Twins(s.tickets[a], s.tickets[b]);
    }
  }

  /** A poll joins the pending ticket of its list if there is one. */
  lemma PollDistinct(cfg: Config, s: Store, range: Range, job: nat, checkpoint: nat, alloc: Alloc, s': Store, reply: Reply)
    requires Distinct(s) && PollStep(cfg, s, range, job, checkpoint, alloc, s', reply)
    ensures Distinct(s')
  {
    hide Gaps, At;
  }

  /** A commit leaves twins exactly when two records converge. */
  lemma CommitTwins(cfg: Config, s: Store, response: Response, bound: Option<nat>, s': Store, reply: Reply)
    requires Inv(cfg, s) && response.Valid() && Rebuilds(s.segments, response, s'.segments)
    requires Commits(s, s'.segments, bound, s', reply)
    ensures !Distinct(s')
            <==> exists i, j :: 0 <= i < j < |s.tickets| && Converge(s.tickets[i], s.tickets[j], response.range, bound)
  {
    hide Inv, Rebuilds, Converge, Twins, NewlyReady, WokenRecord;
    forall i, j | 0 <= i < j < |s.tickets|
      ensures Twins(s'.tickets[i], s'.tickets[j]) <==> Converge(s.tickets[i], s.tickets[j], response.range, bound)
    {
      MissingConverges(cfg, s, response, s'.segments, bound, i, j);
    }
  }

  /** Observing a length leaves every list that is still waited for as it was. */
  lemma ObserveDistinct(cfg: Config, s: Store, bound: Option<nat>, s': Store, reply: Reply)
    requires Inv(cfg, s) && Distinct(s) && Commits(s, s.segments, bound, s', reply)
    ensures Distinct(s')
  {
    hide NewlyReady, GapsOf;
    forall i | 0 <= i < |s.tickets| && s'.tickets[i].phase.Pending?
      ensures s.tickets[i].phase.Pending? && s'.tickets[i].missing == s.tickets[i].missing
    {
      RecordHolds(cfg, s, i);
      MissingIsRest(s.segments, s.tickets[i].missing);
    }
    forall i, j | 0 <= i < j < |s'.tickets| ensures !Twins(s'.tickets[i], s'.tickets[j]) {
      assert !Twins(s.tickets[i], s.tickets[j]);
    }
  }

  /** An operation makes twins exactly when it is a successful supply that finds two records
      to converge. */
  lemma EffectTwins(cfg: Config, w: World, op: Op, alloc: Alloc, reply: Reply, w': World)
    requires WorldInv(cfg, w) && Next(cfg, w, op, alloc, reply, w') && Distinct(w.store)
    ensures !Distinct(w'.store) <==> reply.Supplied? && MakesTwins(w.store, op)
  {
    NextKeepsInv(cfg, w, op, alloc, reply, w');
    hide SupplyStep, ObserveStep, PollStep, FailStep, UnsubscribeStep, TakeStep, StatusStep, ReleaseStep;
    hide Distinct, MakesTwins, Inv, WhenChanged;
    var s, s' := w.store, w'.store;
    OnlyCommitsSupply(cfg, w.flag, s, op, alloc, w'.flag, s', reply);
    if w.flag {
      WhenChangedKept(op, s, s', reply);
      KeptIsDistinct(cfg, s, s');
    } else if IsTicketOp(op) {
      TicketOpKept(cfg, op, alloc, s, s', w'.flag, reply);
      KeptIsDistinct(cfg, s, s');
    } else if op.Poll? {
      PollDistinct(cfg, s, op.range, op.job, op.checkpoint, alloc, s', reply);
    } else if op.Supply? {
      SupplyTwins(cfg, s, op.response, alloc, s', w'.flag, reply);
    } else if op.Observe? {
      ObservedDistinct(cfg, s, op.snapshot, alloc, s', w'.flag, reply);
    } else {
      ChangedKept(s);
      KeptIsDistinct(cfg, s, s');
    }
  }

  lemma KeptIsDistinct(cfg: Config, s: Store, s': Store)
    requires Inv(cfg, s') && Distinct(s) && AllKept(s.tickets, s'.tickets)
    ensures Distinct(s')
  {
    hide Distinct;
    KeptDistinct(cfg, s, s');
  }

  /** Only a supply or an observation answers with a commit. */
  lemma OnlyCommitsSupply(cfg: Config, flag: bool, s: Store, op: Op, alloc: Alloc, flag': bool, s': Store, reply: Reply)
    requires Effect(cfg, flag, s, op, alloc, flag', s', reply)
    ensures reply.Supplied? ==> !flag && (op.Supply? || op.Observe?)
    ensures !op.Supply? ==> !MakesTwins(s, op)
  {
    hide Covered, Conflicts, OverLimit, Rebuilds, MetadataConflict, Gaps, GapsOf, At;
  }

  lemma SupplyTwins(cfg: Config, s: Store, response: Response, alloc: Alloc, s': Store, poison: bool, reply: Reply)
    requires Inv(cfg, s) && Inv(cfg, s') && Distinct(s) && response.Valid()
    requires SupplyStep(cfg, s, response, alloc, s', poison, reply)
    ensures !Distinct(s') <==> reply.Supplied? && MakesTwins(s, Supply(response))
  {
    hide Inv, Distinct, Converge, Rebuilds, Covered, Conflicts, OverLimit, MetadataConflict, SupplyLimit, Oversize, TooLong;
    if reply.Supplied? {
      CommitTwins(cfg, s, response, Binds(s.observedLen, response.snapshot.len), s', reply);
    } else if poison {
      ChangedKept(s);
      KeptIsDistinct(cfg, s, s');
    }
  }

  lemma ObservedDistinct(cfg: Config, s: Store, snapshot: Snapshot, alloc: Alloc, s': Store, poison: bool, reply: Reply)
    requires Inv(cfg, s) && Inv(cfg, s') && Distinct(s) && ObserveStep(cfg, s, snapshot, alloc, s', poison, reply)
    ensures Distinct(s')
  {
    hide Inv, Distinct, MetadataConflict, TooLong;
    if poison {
      ChangedKept(s);
      KeptIsDistinct(cfg, s, s');
    } else if reply.Supplied? {
      ObserveDistinct(cfg, s, Binds(s.observedLen, snapshot.len), s', reply);
    }
  }

  /** Some operation with this effect makes twins. */
  ghost predicate TwinStep(cfg: Config, w: World, w': World) {
    exists op, alloc, reply :: MakesTwinsBy(cfg, w, op, alloc, reply, w')
  }

  ghost predicate MakesTwinsBy(cfg: Config, w: World, op: Op, alloc: Alloc, reply: Reply, w': World) {
    Next(cfg, w, op, alloc, reply, w') && reply.Supplied? && MakesTwins(w.store, op)
  }

  lemma TwinStepIs(cfg: Config, w: World, w': World)
    requires WorldInv(cfg, w) && Steps(cfg, w, w') && Distinct(w.store)
    ensures !Distinct(w'.store) <==> TwinStep(cfg, w, w')
  {
    hide WorldInv, Next, Distinct, MakesTwins;
    var op, alloc, reply :| Next(cfg, w, op, alloc, reply, w');
    EffectTwins(cfg, w, op, alloc, reply, w');
    if !Distinct(w'.store) { assert MakesTwinsBy(cfg, w, op, alloc, reply, w'); }
    if TwinStep(cfg, w, w') {
      var op2, alloc2, reply2 :| MakesTwinsBy(cfg, w, op2, alloc2, reply2, w');
      EffectTwins(cfg, w, op2, alloc2, reply2, w');
    }
  }

  ghost predicate DistinctAt(run: seq<World>, m: nat)
    requires m < |run|
  {
    Distinct(run[m].store)
  }

  ghost predicate TwinsAt(cfg: Config, run: seq<World>, m: nat)
    requires m + 1 < |run|
  {
    TwinStep(cfg, run[m], run[m + 1])
  }

  /** Up to any point of any run, no two tickets were ever pending for the same ranges
      exactly when no supply found two records to converge. */
  lemma {:induction false} DistinctThroughout(cfg: Config, run: seq<World>, n: nat)
    requires Run(cfg, run) && n < |run|
    ensures (forall m :: 0 <= m <= n ==> DistinctAt(run, m)) <==> (forall m :: 0 <= m < n ==> !TwinsAt(cfg, run, m))
  {
    hide Run, WorldInv, Steps, TwinStep;
    if n == 0 {
      RunStarts(cfg, run);
      assert DistinctAt(run, 0);
    } else {
      hide Distinct;
      DistinctThroughout(cfg, run, n - 1);
      RunInv(cfg, run, n - 1);
      StepsAt(cfg, run, n - 1);
      assert DistinctAt(run, n - 1) ==> (DistinctAt(run, n) <==> !TwinsAt(cfg, run, n - 1)) by {
        if DistinctAt(run, n - 1) { TwinStepIs(cfg, run[n - 1], run[n]); }
      }
    }
  }

  // ------------------------------------------------------------------ ticket numbers

  /** A poll of this range has nothing to answer, no ticket to join and room for a new one. */
  ghost predicate OpensTicket(cfg: Config, s: Store, range: Range, alloc: Alloc) {
    && range.len <= cfg.limits.maxRead && range.End() <= cfg.limits.maxInput
    && (s.observedLen.Some? ==> range.End() <= s.observedLen.value)
    && !(forall k: nat :: range.Contains(k) ==> At(s.segments, k).Some?)
    && MissingOutcome(Gaps(s.segments, range), cfg.limits.maxMissing, alloc.missing).Ok?
    && FindWaiting(s.tickets, Gaps(s.segments, range), 0) == |s.tickets|
    && |s.tickets| < cfg.limits.maxTickets && s.subscriptionCount < cfg.limits.maxSubscriptions
    && s.nextTicket < U64_MAX
  }

  /** A first poll whose subscriber list cannot be allocated: ticket 1 is never opened. */
  lemma FirstNumberLost(cfg: Config, alloc: Alloc)
    requires cfg.limits.Valid() && cfg.limits.maxRead >= 10 && cfg.snapshot.len.None?
    requires alloc.missing && !alloc.subscribers
    ensures PollStep(cfg, Polled(cfg, 0), ByteRange(0, 10), 1, 1, alloc, Polled(cfg, 0).(nextTicket := 2),
                     Failure(ResourceLimit(Allocation, 1, 1)))
  {
    NothingCached(ByteRange(0, 10));
  }

  /** A poll uses up a number without opening a ticket exactly when it would open one and
      the allocation of its subscriber list fails. */
  lemma NumberLost(cfg: Config, s: Store, range: Range, job: nat, checkpoint: nat, alloc: Alloc, s': Store, reply: Reply)
    requires PollStep(cfg, s, range, job, checkpoint, alloc, s', reply)
    ensures s'.nextTicket != s.nextTicket + |s'.tickets| - |s.tickets|
            <==> OpensTicket(cfg, s, range, alloc) && !alloc.subscribers
    ensures s'.nextTicket - s.nextTicket == if OpensTicket(cfg, s, range, alloc) then 1 else 0
  {
    hide Gaps, At;
  }

  /** Tickets opened, and numbers lost, by the first n steps of a run. */
  ghost function OpenedBy(run: seq<World>, n: nat): nat
    requires n < |run|
  {
    if n == 0 then 0
    else OpenedBy(run, n - 1) + (if |run[n].store.tickets| > |run[n - 1].store.tickets| then 1 else 0)
  }

  ghost function LostBy(run: seq<World>, n: nat): nat
    requires n < |run|
  {
    if n == 0 then 0 else LostBy(run, n - 1) + (if Loses(run[n - 1].store, run[n].store) then 1 else 0)
  }

  ghost predicate Loses(s: Store, s': Store) { s'.nextTicket != s.nextTicket && |s'.tickets| == |s.tickets| }

  /** The next ticket number counts the tickets ever opened and the numbers lost, so there is
      no gap exactly as long as none was lost. */
  lemma {:induction false} NumbersCount(cfg: Config, run: seq<World>, n: nat)
    requires Run(cfg, run) && n < |run|
    ensures run[n].store.nextTicket == 1 + OpenedBy(run, n) + LostBy(run, n)
  {
    hide Run;
    if n == 0 {
      RunStarts(cfg, run);
    } else {
      NumbersCount(cfg, run, n - 1);
      StepsAt(cfg, run, n - 1);
      StepNumbers(cfg, run[n - 1], run[n]);
    }
  }

  lemma RunStarts(cfg: Config, run: seq<World>)
    requires Run(cfg, run)
    ensures run[0] == Initial(cfg)
  {
  }

  /** One step takes at most one number: for a ticket it opens, or in vain. */
  lemma StepNumbers(cfg: Config, w: World, w': World)
    requires Steps(cfg, w, w')
    ensures w'.store.nextTicket == w.store.nextTicket + (if |w'.store.tickets| > |w.store.tickets| then 1 else 0)
                                   + (if Loses(w.store, w'.store) then 1 else 0)
  {
    hide Step, WhenChanged, PollStep;
    var op, alloc, reply :| Next(cfg, w, op, alloc, reply, w');
    if !w.flag && op.Poll? {
      PolledStep(cfg, op, alloc, w.store, w'.store, w'.flag, reply);
      PollNumbers(cfg, w.store, op.range, op.job, op.checkpoint, alloc, w'.store, reply);
    } else {
      OthersTakeNoNumber(cfg, w.flag, w.store, op, alloc, w'.flag, w'.store, reply);
    }
  }

  lemma PolledStep(cfg: Config, op: Op, alloc: Alloc, s: Store, s': Store, poison: bool, reply: Reply)
    requires op.Poll? && Step(cfg, op, alloc, s, s', poison, reply)
    ensures PollStep(cfg, s, op.range, op.job, op.checkpoint, alloc, s', reply)
  {
  }

  lemma PollNumbers(cfg: Config, s: Store, range: Range, job: nat, checkpoint: nat, alloc: Alloc, s': Store, reply: Reply)
    requires PollStep(cfg, s, range, job, checkpoint, alloc, s', reply)
    ensures s'.nextTicket == s.nextTicket + (if |s'.tickets| > |s.tickets| then 1 else 0) + (if Loses(s, s') then 1 else 0)
  {
    hide Gaps, At;
  }

  lemma OthersTakeNoNumber(cfg: Config, flag: bool, s: Store, op: Op, alloc: Alloc, flag': bool, s': Store, reply: Reply)
    requires Effect(cfg, flag, s, op, alloc, flag', s', reply) && (flag || !op.Poll?)
    ensures s'.nextTicket == s.nextTicket && |s'.tickets| <= |s.tickets|
  {
    hide Covered, Conflicts, OverLimit, Rebuilds, MetadataConflict, GapsOf, PollStep, FailStep, WhenChanged;
    if flag {
      ChangedTakesNoNumber(op, s, s', reply);
    } else if op.Fail? {
      FailTakesNoNumber(s, op.ticket, op.error, s', flag', reply);
    }
  }

  lemma FailTakesNoNumber(s: Store, ticket: Ticket, error: SourceError, s': Store, poison: bool, reply: Reply)
    requires FailStep(s, ticket, error, s', poison, reply)
    ensures s'.nextTicket == s.nextTicket && |s'.tickets| <= |s.tickets|
  {
  }

  lemma ChangedTakesNoNumber(op: Op, s: Store, s': Store, reply: Reply)
    requires WhenChanged(op, s, s', reply)
    ensures s'.nextTicket == s.nextTicket && |s'.tickets| <= |s.tickets|
  {
    hide FailStep;
    if op.Fail? {
      var poison :| FailStep(ChangedAll(s), op.ticket, op.error, s', poison, reply);
      FailTakesNoNumber(ChangedAll(s), op.ticket, op.error, s', poison, reply);
    }
  }
}
