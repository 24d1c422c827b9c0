/** No lost and no false wake-ups, and final phases, over whole runs of the Range store
    (pdf-rs/bytes/src/store.rs, lines 705-891 and 951-1141). */
module WakeUps {
  import opened Basics
  import opened Ranges
  import opened Segments
  import opened Coalesce
  import opened StoreSpec
  import opened StoreInv
  import opened StoreRuns

  // ------------------------------------------------------------------ where records come from

  /** Record r became record r2 without being woken: it stays pending for the same ranges
      or ends in a phase other than Ready; a terminal phase stays. */
  ghost predicate Kept(r: Record, r2: Record) {
    && r2.ticket == r.ticket
    && (if r.phase.Pending? then (r2.phase.Pending? ==> r2.missing == r.missing) && !r2.phase.Ready?
        else r2.phase == r.phase)
  }

  /** Every record after the operation is a record from before it. */
  ghost predicate AllKept(before: seq<Record>, after: seq<Record>) {
    forall i :: 0 <= i < |after| ==> KeptFrom(before, after[i])
  }

  ghost predicate KeptFrom(before: seq<Record>, r: Record) {
    exists j :: 0 <= j < |before| && Kept(before[j], r)
  }

  lemma SameLengthKept(before: seq<Record>, after: seq<Record>)
    requires |after| == |before| && forall i :: 0 <= i < |after| ==> Kept(before[i], after[i])
    ensures AllKept(before, after)
  {
    forall i | 0 <= i < |after| ensures KeptFrom(before, after[i]) { assert Kept(before[i], after[i]); }
  }

  lemma ChangedKept(s: Store)
    ensures AllKept(s.tickets, ChangedAll(s).tickets)
  {
    SameLengthKept(s.tickets, ChangedAll(s).tickets);
  }

  lemma KeptOn(a: seq<Record>, b: seq<Record>, c: seq<Record>)
    requires AllKept(a, b) && AllKept(b, c)
    ensures AllKept(a, c)
  {
    forall i | 0 <= i < |c| ensures KeptFrom(a, c[i]) {
      assert KeptFrom(b, c[i]);
      var m :| 0 <= m < |b| && Kept(b[m], c[i]);
      assert KeptFrom(a, b[m]);
      var j :| 0 <= j < |a| && Kept(a[j], b[m]);
      assert Kept(a[j], c[i]);
    }
  }

  lemma FailKept(s: Store, ticket: Ticket, error: SourceError, s': Store, poison: bool, reply: Reply)
    requires FailStep(s, ticket, error, s', poison, reply)
    ensures AllKept(s.tickets, s'.tickets)
  {
    SameLengthKept(s.tickets, s'.tickets);
  }

  lemma UnsubscribeKept(s: Store, ticket: Ticket, job: nat, s': Store, reply: Reply)
    requires UnsubscribeStep(s, ticket, job, s', reply)
    ensures AllKept(s.tickets, s'.tickets)
  {
    SameLengthKept(s.tickets, s'.tickets);
  }

  lemma TakeKept(s: Store, ticket: Ticket, s': Store, reply: Reply)
    requires TakeStep(s, ticket, s', reply)
    ensures AllKept(s.tickets, s'.tickets)
  {
    SameLengthKept(s.tickets, s'.tickets);
  }

  lemma ReleaseKept(s: Store, ticket: Ticket, s': Store, reply: Reply)
    requires ReleaseStep(s, ticket, s', reply)
    ensures AllKept(s.tickets, s'.tickets)
  {
    if reply.Done? {
      var n := FindTicket(s.tickets, ticket, 0);
      RemovedAt(s.tickets, n, s'.tickets);
      forall i | 0 <= i < |s'.tickets| ensures KeptFrom(s.tickets, s'.tickets[i]) {
        assert Kept(s.tickets[if i < n then i else i + 1], s'.tickets[i]);
      }
    } else {
      SameLengthKept(s.tickets, s'.tickets);
    }
  }

  predicate IsTicketOp(op: Op) {
    op.Fail? || op.Unsubscribe? || op.Take? || op.QueryStatus? || op.Release?
  }

  lemma TicketOpKept(cfg: Config, op: Op, alloc: Alloc, s: Store, s': Store, poison: bool, reply: Reply)
    requires op.Valid() && IsTicketOp(op) && Step(cfg, op, alloc, s, s', poison, reply)
    ensures AllKept(s.tickets, s'.tickets)
    ensures s'.segments == s.segments && s'.observedLen == s.observedLen && s'.nextTicket == s.nextTicket
  {
    match op
    case Fail(ticket, error) => FailKept(s, ticket, error, s', poison, reply);
    case Unsubscribe(ticket, job) => UnsubscribeKept(s, ticket, job, s', reply);
    case Take(ticket) => TakeKept(s, ticket, s', reply);
    case QueryStatus(ticket) => SameLengthKept(s.tickets, s'.tickets);
    case Release(ticket) => ReleaseKept(s, ticket, s', reply);
    case _ =>
  }

  lemma WhenChangedKept(op: Op, s: Store, s': Store, reply: Reply)
    requires WhenChanged(op, s, s', reply)
    ensures AllKept(s.tickets, s'.tickets)
  {
    var c := ChangedAll(s);
    ChangedKept(s);
    if IsTicketOp(op) {
      match op {
        case Fail(ticket, error) =>
          var poison :| FailStep(c, ticket, error, s', poison, reply);
          FailKept(c, ticket, error, s', poison, reply);
        case Unsubscribe(ticket, job) => UnsubscribeKept(c, ticket, job, s', reply);
        case Take(ticket) => TakeKept(c, ticket, s', reply);
        case QueryStatus(ticket) => SameLengthKept(c.tickets, s'.tickets);
        case Release(ticket) => ReleaseKept(c, ticket, s', reply);
        case _ =>
      }
      KeptOn(s.tickets, c.tickets, s'.tickets);
    }
  }

  // ------------------------------------------------------------------ wake-ups

  /** What record r owes a range that was ever subscribed to its ticket: while pending it
      waits for exactly the uncached part of the range, none of which lies past the bound
      length; once ready, the range is cached or is past the end of the source. */
  ghost predicate Serves(cfg: Config, segs: seq<Segment>, observed: Option<nat>, r: Record, range: Range) {
    && range.len <= cfg.limits.maxRead && range.End() <= cfg.limits.maxInput
    && (r.phase.Pending? ==> r.missing == Gaps(segs, range) && Below(observed, range.End()))
    && (r.phase.Ready? ==> Covered(segs, range) || !Below(observed, range.End()))
  }

  ghost predicate Serving(cfg: Config, segs: seq<Segment>, observed: Option<nat>, requested: set<Request>, r: Record) {
    forall q :: q in requested && q.ticket == r.ticket.value ==> Serves(cfg, segs, observed, r, q.range)
  }

  ghost predicate AllServing(cfg: Config, s: Store, requested: set<Request>) {
    forall i :: 0 <= i < |s.tickets| ==> Serving(cfg, s.segments, s.observedLen, requested, s.tickets[i])
  }

  ghost predicate WakeInv(cfg: Config, w: World) {
    && (forall q :: q in w.requested ==> q.ticket < w.store.nextTicket)
    && (!w.flag ==> AllServing(cfg, w.store, w.requested))
  }

  /** Waking: a commit turns a serving record into a serving record. */
  lemma WokenServes(cfg: Config, segs: seq<Segment>, observed: Option<nat>, r: Record, range: Range,
                    segs': seq<Segment>, bound: Option<nat>)
    requires Sorted(segs) && Sorted(segs') && Serves(cfg, segs, observed, r, range)
    requires forall k: nat :: Has(segs, k) ==> Has(segs', k)
    requires bound.Some? ==> observed.None? && LastEnd(segs') <= bound.value
    ensures Serves(cfg, segs', if bound.Some? then bound else observed, WokenRecord(r, segs', bound), range)
  {
    if r.phase.Pending? {
      GapsCompose(segs, segs', range);
      var rest := GapsOf(segs', r.missing);
      GapsExact(segs', range);
      if rest != [] && bound.Some? {
        RestReachesEnd(segs', range, bound.value);
      }
    }
  }

  /** With nothing cached past the bound length, a request that crosses it is missing its
      own last offset. */
  lemma RestReachesEnd(segs: seq<Segment>, range: Range, bound: nat)
    requires Sorted(segs) && LastEnd(segs) <= bound && Gaps(segs, range) != []
    ensures LastMissing(Gaps(segs, range)) > bound <==> range.End() > bound
  {
    var g := Gaps(segs, range);
    GapsExact(segs, range);
    if range.End() > bound {
      var k := range.End() - 1;
      if Has(segs, k) { CachedBelowEnd(segs, k); }
      assert range.Contains(k) && Hit(g, k);
      var n :| 0 <= n < |g| && g[n].Contains(k);
      MissingWithinLast(g);
    }
  }

  lemma CommitServes(cfg: Config, s: Store, s': Store, bound: Option<nat>, reply: Reply, requested: set<Request>)
    requires Inv(cfg, s) && Inv(cfg, s') && AllServing(cfg, s, requested)
    requires Commits(s, s'.segments, bound, s', reply)
    requires forall k: nat :: Has(s.segments, k) ==> Has(s'.segments, k)
    requires bound.Some? ==> s.observedLen.None?
    ensures AllServing(cfg, s', requested)
  {
    forall i, q | 0 <= i < |s'.tickets| && q in requested && q.ticket == s'.tickets[i].ticket.value
      ensures Serves(cfg, s'.segments, s'.observedLen, s'.tickets[i], q.range)
    {
      assert Serving(cfg, s.segments, s.observedLen, requested, s.tickets[i]);
      WokenServes(cfg, s.segments, s.observedLen, s.tickets[i], q.range, s'.segments, bound);
    }
  }

  lemma KeptServes(cfg: Config, s: Store, s': Store, requested: set<Request>)
    requires AllServing(cfg, s, requested) && AllKept(s.tickets, s'.tickets)
    requires s'.segments == s.segments && s'.observedLen == s.observedLen
    ensures AllServing(cfg, s', requested)
  {
    forall i | 0 <= i < |s'.tickets| ensures Serving(cfg, s'.segments, s'.observedLen, requested, s'.tickets[i]) {
      assert KeptFrom(s.tickets, s'.tickets[i]);
      var j :| 0 <= j < |s.tickets| && Kept(s.tickets[j], s'.tickets[i]);
      assert Serving(cfg, s.segments, s.observedLen, requested, s.tickets[j]);
    }
  }

  /** The record named by a poll that must wait serves the polled range. */
  lemma PolledServes(cfg: Config, s: Store, range: Range, job: nat, checkpoint: nat, alloc: Alloc, s': Store, reply: Reply)
    returns (n: nat)
    requires Inv(cfg, s) && PollStep(cfg, s, range, job, checkpoint, alloc, s', reply) && reply.PendingOn?
    ensures n < |s'.tickets| && s'.tickets[n].ticket == reply.ticket && s'.tickets[n].phase.Pending?
    ensures Serves(cfg, s.segments, s.observedLen, s'.tickets[n], range)
    ensures |s.tickets| <= |s'.tickets| <= |s.tickets| + 1
    ensures forall i :: 0 <= i < |s.tickets| ==> Kept(s.tickets[i], s'.tickets[i])
    ensures |s'.tickets| > |s.tickets| ==> n == |s.tickets| && reply.ticket.value == s.nextTicket
    ensures s'.segments == s.segments && s'.observedLen == s.observedLen
  {
    n := FindWaiting(s.tickets, Gaps(s.segments, range), 0);
  }

  lemma PollServes(cfg: Config, s: Store, op: Op, alloc: Alloc, s': Store, reply: Reply, requested: set<Request>)
    requires Inv(cfg, s) && Inv(cfg, s') && AllServing(cfg, s, requested)
    requires op.Poll? && PollStep(cfg, s, op.range, op.job, op.checkpoint, alloc, s', reply)
    requires forall q :: q in requested ==> q.ticket < s.nextTicket
    ensures AllServing(cfg, s', requested + Requests(op, reply))
  {
    if reply.PendingOn? {
      var n := PolledServes(cfg, s, op.range, op.job, op.checkpoint, alloc, s', reply);
      forall i, q | 0 <= i < |s'.tickets| && q in requested + Requests(op, reply)
                    && q.ticket == s'.tickets[i].ticket.value
        ensures Serves(cfg, s'.segments, s'.observedLen, s'.tickets[i], q.range)
      {
        if q in requested {
          assert i < |s.tickets|;
          assert Serving(cfg, s.segments, s.observedLen, requested, s.tickets[i]);
        } else {
          SameTicket(cfg, s', i, n);
        }
      }
    } else {
      PollFailureKeeps(cfg, s, op, alloc, s', reply);
    }
  }

  lemma PollFailureKeeps(cfg: Config, s: Store, op: Op, alloc: Alloc, s': Store, reply: Reply)
    requires op.Poll? && PollStep(cfg, s, op.range, op.job, op.checkpoint, alloc, s', reply) && !reply.PendingOn?
    ensures s'.tickets == s.tickets && s'.segments == s.segments && s'.observedLen == s.observedLen
  {
  }

  /** Ticket numbers identify records. */
  lemma SameTicket(cfg: Config, s: Store, i: nat, n: nat)
    requires TicketInv(cfg, s) && i < |s.tickets| && n < |s.tickets|
    ensures s.tickets[i].ticket.value == s.tickets[n].ticket.value ==> i == n
  {
  }

  lemma SupplyServes(cfg: Config, s: Store, response: Response, alloc: Alloc, s': Store, reply: Reply, requested: set<Request>)
    requires Inv(cfg, s) && Inv(cfg, s') && AllServing(cfg, s, requested)
    requires response.Valid() && SupplyStep(cfg, s, response, alloc, s', false, reply)
    ensures AllServing(cfg, s', requested)
  {
    if reply.Supplied? {
      RebuiltEnd(s.segments, response, s'.segments);
      CommitServes(cfg, s, s', Binds(s.observedLen, response.snapshot.len), reply, requested);
    }
  }

  lemma ObserveServes(cfg: Config, s: Store, snapshot: Snapshot, alloc: Alloc, s': Store, reply: Reply, requested: set<Request>)
    requires Inv(cfg, s) && Inv(cfg, s') && AllServing(cfg, s, requested)
    requires ObserveStep(cfg, s, snapshot, alloc, s', false, reply)
    ensures AllServing(cfg, s', requested)
  {
    if reply.Supplied? {
      CommitServes(cfg, s, s', Binds(s.observedLen, snapshot.len), reply, requested);
    }
  }

  lemma NextKeepsWakeInv(cfg: Config, w: World, op: Op, alloc: Alloc, reply: Reply, w': World)
    requires WorldInv(cfg, w) && WorldInv(cfg, w') && Next(cfg, w, op, alloc, reply, w') && WakeInv(cfg, w)
    ensures WakeInv(cfg, w')
  {
    var s, s' := w.store, w'.store;
    EffectGrows(cfg, w.flag, s, op, alloc, w'.flag, s', reply);
    RequestBelow(cfg, w, op, alloc, reply, w');
    if !w'.flag {
      StepServes(cfg, s, op, alloc, s', reply, w.requested);
    }
  }

  lemma RequestBelow(cfg: Config, w: World, op: Op, alloc: Alloc, reply: Reply, w': World)
    requires WorldInv(cfg, w) && WorldInv(cfg, w') && Next(cfg, w, op, alloc, reply, w')
    ensures forall q :: q in Requests(op, reply) ==> q.ticket < w'.store.nextTicket
  {
    if op.Poll? && reply.PendingOn? {
      var n := PolledServes(cfg, w.store, op.range, op.job, op.checkpoint, alloc, w'.store, reply);
      assert RecordInv(cfg, w'.store, w'.store.tickets[n]);
    }
  }

  lemma StepServes(cfg: Config, s: Store, op: Op, alloc: Alloc, s': Store, reply: Reply, requested: set<Request>)
    requires Inv(cfg, s) && Inv(cfg, s') && AllServing(cfg, s, requested)
    requires op.Valid() && Step(cfg, op, alloc, s, s', false, reply)
    requires forall q :: q in requested ==> q.ticket < s.nextTicket
    ensures AllServing(cfg, s', requested + Requests(op, reply))
  {
    hide Inv, AllServing, SupplyStep, ObserveStep, PollStep, FailStep, UnsubscribeStep, TakeStep, StatusStep, ReleaseStep;
    if op.Poll? {
      PollServes(cfg, s, op, alloc, s', reply, requested);
    } else {
      assert requested + Requests(op, reply) == requested;
      if op.Supply? {
        SupplyServes(cfg, s, op.response, alloc, s', reply, requested);
      } else if op.Observe? {
        ObserveServes(cfg, s, op.snapshot, alloc, s', reply, requested);
      } else {
        TicketOpKept(cfg, op, alloc, s, s', false, reply);
        KeptServes(cfg, s, s', requested);
      }
    }
  }

  lemma {:induction false} RunWakeInv(cfg: Config, run: seq<World>, i: nat)
    requires Run(cfg, run) && i < |run|
    ensures WakeInv(cfg, run[i])
  {
    if i > 0 {
      RunWakeInv(cfg, run, i - 1);
      RunInv(cfg, run, i - 1);
      StepsAt(cfg, run, i - 1);
      StepsKeepWakeInv(cfg, run[i - 1], run[i]);
    }
  }

  lemma StepsKeepWakeInv(cfg: Config, w: World, w': World)
    requires WorldInv(cfg, w) && WakeInv(cfg, w) && Steps(cfg, w, w')
    ensures WakeInv(cfg, w')
  {
    var op, alloc, reply :| Next(cfg, w, op, alloc, reply, w');
    NextKeepsInv(cfg, w, op, alloc, reply, w');
    NextKeepsWakeInv(cfg, w, op, alloc, reply, w');
  }

  /** No lost and no false wake-up. At any point of any run with the source flag clear, take
      a range that was ever subscribed to the ticket of record n, and poll that range again
      for any job: a pending record waits for exactly the uncached part of the range, and
      the poll neither returns bytes nor reports the end; after a ready record the poll
      returns the bytes or reports the end. */
  lemma NoLostOrFalseWakeUps(cfg: Config, run: seq<World>, i: nat, q: Request, n: nat,
                             job: nat, checkpoint: nat, alloc: Alloc, after: Store, reply: Reply)
    requires Run(cfg, run) && i < |run| && !run[i].flag && q in run[i].requested
    requires n < |run[i].store.tickets| && run[i].store.tickets[n].ticket.value == q.ticket
    requires PollStep(cfg, run[i].store, q.range, job, checkpoint, alloc, after, reply)
    ensures run[i].store.tickets[n].phase.Pending? ==>
              && run[i].store.tickets[n].missing == Gaps(run[i].store.segments, q.range)
              && (forall k: nat :: Hit(run[i].store.tickets[n].missing, k)
                    <==> q.range.Contains(k) && At(run[i].store.segments, k).None?)
              && !reply.ReadyBytes? && !reply.EndOfFile?
    ensures run[i].store.tickets[n].phase.Ready? ==> reply.ReadyBytes? || reply.EndOfFile?
  {
    RunInv(cfg, run, i);
    RunWakeInv(cfg, run, i);
    var s := run[i].store;
    assert Serving(cfg, s.segments, s.observedLen, run[i].requested, s.tickets[n]);
    ServedPoll(cfg, s, s.tickets[n], q.range, job, checkpoint, alloc, after, reply);
  }

  lemma ServedPoll(cfg: Config, s: Store, r: Record, range: Range, job: nat, checkpoint: nat, alloc: Alloc,
                   after: Store, reply: Reply)
    requires Inv(cfg, s) && RecordInv(cfg, s, r) && Serves(cfg, s.segments, s.observedLen, r, range)
    requires PollStep(cfg, s, range, job, checkpoint, alloc, after, reply)
    ensures r.phase.Pending? ==>
              && (forall k: nat :: Hit(r.missing, k) <==> range.Contains(k) && At(s.segments, k).None?)
              && !reply.ReadyBytes? && !reply.EndOfFile?
    ensures r.phase.Ready? ==> reply.ReadyBytes? || reply.EndOfFile?
  {
    hide At, Has, GapsFrom, Sorted;
    GapsExact(s.segments, range);
    UncoveredGaps(s.segments, range);
    forall k: nat ensures At(s.segments, k).None? <==> !Has(s.segments, k) { AtHas(s.segments, k); }
  }

  // ------------------------------------------------------------------ final phases

  /** Record i after any operation is a record from before it whose terminal phase, if any,
      is unchanged, or a fresh pending record. */
  ghost predicate Descends(s: Store, s': Store, i: nat)
    requires i < |s'.tickets|
  {
    || (s'.tickets[i].ticket.value >= s.nextTicket)
    || exists j :: 0 <= j < |s.tickets| && Continues(s.tickets[j], s'.tickets[i])
  }

  ghost predicate Continues(r: Record, r2: Record) {
    r.ticket == r2.ticket && (r.phase.Pending? || r2.phase == r.phase)
  }

  lemma StepsDescend(cfg: Config, w: World, w': World, i: nat)
    requires WorldInv(cfg, w) && Steps(cfg, w, w') && i < |w'.store.tickets|
    ensures Descends(w.store, w'.store, i)
  {
    var op, alloc, reply :| Next(cfg, w, op, alloc, reply, w');
    EffectDescends(cfg, w.flag, w.store, op, alloc, w'.flag, w'.store, reply, i);
  }

  lemma EffectDescends(cfg: Config, flag: bool, s: Store, op: Op, alloc: Alloc, flag': bool, s': Store, reply: Reply, i: nat)
    requires Inv(cfg, s) && Effect(cfg, flag, s, op, alloc, flag', s', reply) && i < |s'.tickets|
    ensures Descends(s, s', i)
  {
    hide SupplyStep, ObserveStep, PollStep, FailStep, UnsubscribeStep, TakeStep, StatusStep, ReleaseStep, Descends;
    hide WhenChanged, Inv;
    if flag {
      WhenChangedKept(op, s, s', reply);
      FromKept(s, s', i);
    } else if IsTicketOp(op) {
      TicketOpKept(cfg, op, alloc, s, s', flag', reply);
      FromKept(s, s', i);
    } else if op.Poll? {
      PollDescends(cfg, s, op, alloc, s', reply, i);
    } else if flag' {
      PoisonDescends(cfg, s, op, alloc, s', reply, i);
    } else {
      CommitDescends(cfg, s, op, alloc, s', reply, i);
    }
  }

  lemma PoisonDescends(cfg: Config, s: Store, op: Op, alloc: Alloc, s': Store, reply: Reply, i: nat)
    requires op.Valid() && (op.Supply? || op.Observe? || op.Signal?) && Step(cfg, op, alloc, s, s', true, reply)
    requires i < |s'.tickets|
    ensures Descends(s, s', i)
  {
    hide Covered, Conflicts, OverLimit, Rebuilds, MetadataConflict;
    ChangedKept(s);
    FromKept(s, s', i);
  }

  lemma CommitDescends(cfg: Config, s: Store, op: Op, alloc: Alloc, s': Store, reply: Reply, i: nat)
    requires op.Valid() && (op.Supply? || op.Observe?) && Step(cfg, op, alloc, s, s', false, reply)
    requires i < |s'.tickets|
    ensures Descends(s, s', i)
  {
    hide Covered, Conflicts, OverLimit, Rebuilds, MetadataConflict, GapsOf;
    assert Continues(s.tickets[i], s'.tickets[i]);
  }

  lemma PollDescends(cfg: Config, s: Store, op: Op, alloc: Alloc, s': Store, reply: Reply, i: nat)
    requires Inv(cfg, s) && i < |s'.tickets|
    requires op.Poll? && PollStep(cfg, s, op.range, op.job, op.checkpoint, alloc, s', reply)
    ensures Descends(s, s', i)
  {
    if reply.PendingOn? {
      var n := PolledServes(cfg, s, op.range, op.job, op.checkpoint, alloc, s', reply);
      if i < |s.tickets| { assert Continues(s.tickets[i], s'.tickets[i]); }
    } else {
      PollFailureKeeps(cfg, s, op, alloc, s', reply);
      assert Continues(s.tickets[i], s'.tickets[i]);
    }
  }

  lemma FromKept(s: Store, s': Store, i: nat)
    requires AllKept(s.tickets, s'.tickets) && i < |s'.tickets|
    ensures Descends(s, s', i)
  {
    assert KeptFrom(s.tickets, s'.tickets[i]);
    var j :| 0 <= j < |s.tickets| && Kept(s.tickets[j], s'.tickets[i]);
    assert Continues(s.tickets[j], s'.tickets[i]);
  }

  /** Over any run, a terminal phase never changes: record a at one point and record b at a
      later one with the same ticket have the same phase once the first is terminal. */
  lemma {:induction false} TerminalPhasesAreFinal(cfg: Config, run: seq<World>, i: nat, a: nat, j: nat, b: nat)
    requires Run(cfg, run) && i <= j < |run|
    requires a < |run[i].store.tickets| && b < |run[j].store.tickets|
    requires run[i].store.tickets[a].ticket == run[j].store.tickets[b].ticket
    requires !run[i].store.tickets[a].phase.Pending?
    ensures run[j].store.tickets[b].phase == run[i].store.tickets[a].phase
    decreases j
  {
    hide Run, Descends;
    if i == j {
      RunSameTicket(cfg, run, i, a, b);
    } else {
      RunDescends(cfg, run, j, b);
      RunTicketBelow(cfg, run, i, a);
      NumbersGrow(cfg, run, i, j - 1);
      var c := Ancestor(run[j - 1].store, run[j].store, b);
      TerminalPhasesAreFinal(cfg, run, i, a, j - 1, c);
    }
  }

  lemma RunSameTicket(cfg: Config, run: seq<World>, i: nat, a: nat, b: nat)
    requires Run(cfg, run) && i < |run| && a < |run[i].store.tickets| && b < |run[i].store.tickets|
    ensures run[i].store.tickets[a].ticket.value == run[i].store.tickets[b].ticket.value ==> a == b
  {
    hide Run;
    RunInv(cfg, run, i);
    SameTicket(cfg, run[i].store, a, b);
  }

  lemma RunTicketBelow(cfg: Config, run: seq<World>, i: nat, a: nat)
    requires Run(cfg, run) && i < |run| && a < |run[i].store.tickets|
    ensures run[i].store.tickets[a].ticket.value < run[i].store.nextTicket
  {
    hide Run;
    RunInv(cfg, run, i);
    TicketBelow(cfg, run[i].store, a);
  }

  lemma RunDescends(cfg: Config, run: seq<World>, j: nat, b: nat)
    requires Run(cfg, run) && 0 < j < |run| && b < |run[j].store.tickets|
    ensures Descends(run[j - 1].store, run[j].store, b)
  {
    hide Run, Descends, Steps;
    RunInv(cfg, run, j - 1);
    StepsAt(cfg, run, j - 1);
    StepsDescend(cfg, run[j - 1], run[j], b);
  }

  lemma NumbersGrow(cfg: Config, run: seq<World>, i: nat, j: nat)
    requires Run(cfg, run) && i <= j < |run|
    ensures run[i].store.nextTicket <= run[j].store.nextTicket
  {
    RunOnlyGrows(cfg, run, i, j);
  }

  lemma Ancestor(s: Store, s': Store, b: nat) returns (c: nat)
    requires b < |s'.tickets| && Descends(s, s', b) && s'.tickets[b].ticket.value < s.nextTicket
    ensures c < |s.tickets| && Continues(s.tickets[c], s'.tickets[b])
  {
    c :| 0 <= c < |s.tickets| && Continues(s.tickets[c], s'.tickets[b]);
  }

  lemma TicketBelow(cfg: Config, s: Store, a: nat)
    requires Inv(cfg, s) && a < |s.tickets|
    ensures s.tickets[a].ticket.value < s.nextTicket
  {
    assert RecordInv(cfg, s, s.tickets[a]);
  }
}
