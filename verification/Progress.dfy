/** No call of a Range store gets stuck (pdf-rs/bytes/src/store.rs, lines 338-954): whatever
    the state, each operation has an outcome; a thread waits for nothing but the lock, and
    who holds the lock does not wait; and a call ends after a few steps of its own. */
module Progress {
  import opened Basics
  import opened Ranges
  import opened Segments
  import opened Coalesce
  import opened StoreSpec
  import opened StoreInv
  import opened StoreRuns
  import opened Interleaving
  import opened Linearization

  /** An allocator that refuses everything. */
  const REFUSING := Alloc(false, false, false, false, false, false, false, 0, 0, 0)

  // ------------------------------------------------------------------ every operation has an outcome

  ghost predicate HasOutcome(cfg: Config, op: Op, s: Store)
    requires op.Valid()
  {
    exists alloc, s', poison, reply :: Step(cfg, op, alloc, s, s', poison, reply)
  }

  lemma SupplyEnds(cfg: Config, s: Store, response: Response)
    requires response.Valid()
    ensures exists s', poison, reply :: SupplyStep(cfg, s, response, REFUSING, s', poison, reply)
  {
    hide Covered, Conflicts, MetadataConflict, Suppliable, Unsuppliable;
    var len := response.snapshot.len;
    var over := Oversize(cfg, response, REFUSING);
    var poisons := !response.snapshot.SameSource(cfg.snapshot)
                   || (!over.None? && MetadataConflict(s, len))
                   || (over.None? && !TooLong(cfg, s, len) && MetadataConflict(s, len));
    if poisons {
      assert SupplyStep(cfg, s, response, REFUSING, ChangedAll(s), true, Failure(SourceChanged));
    } else {
      var error := if over.Some? then over.value
                   else if TooLong(cfg, s, len) then ResourceLimit(InputBytes, cfg.limits.maxInput, len.value)
                   else ResourceLimit(Allocation, cfg.limits.maxTickets, |s.tickets|);
      assert SupplyStep(cfg, s, response, REFUSING, s, false, Failure(error));
    }
  }

  lemma ObserveEnds(cfg: Config, s: Store, snapshot: Snapshot)
    ensures exists s', poison, reply :: ObserveStep(cfg, s, snapshot, REFUSING, s', poison, reply)
  {
    hide MetadataConflict;
    if !snapshot.SameSource(cfg.snapshot) || (!TooLong(cfg, s, snapshot.len) && MetadataConflict(s, snapshot.len)) {
      assert ObserveStep(cfg, s, snapshot, REFUSING, ChangedAll(s), true, Failure(SourceChanged));
    } else {
      var error := if TooLong(cfg, s, snapshot.len) then ResourceLimit(InputBytes, cfg.limits.maxInput, snapshot.len.value)
                   else ResourceLimit(Allocation, cfg.limits.maxTickets, |s.tickets|);
      assert ObserveStep(cfg, s, snapshot, REFUSING, s, false, Failure(error));
    }
  }

  /** The n bytes cached from `start` on. */
  ghost function Cached(segs: seq<Segment>, start: nat, n: nat): (b: seq<Byte>)
    ensures |b| == n && forall i :: 0 <= i < n ==> b[i] == ByteOf(At(segs, start + i))
  {
    if n == 0 then [] else Cached(segs, start, n - 1) + [ByteOf(At(segs, start + n - 1))]
  }

  function ByteOf(b: Option<Byte>): Byte { if b.Some? then b.value else 0 }

  lemma PollEnds(cfg: Config, s: Store, range: Range, job: nat, checkpoint: nat)
    ensures exists s', reply :: PollStep(cfg, s, range, job, checkpoint, REFUSING, s', reply)
  {
    hide Gaps, At;
    var reply :=
      if range.len > cfg.limits.maxRead then Failure(ResourceLimit(ReadBytes, cfg.limits.maxRead, range.len))
      else if s.observedLen.Some? && range.End() > s.observedLen.value then EndOfFile
      else if range.End() > cfg.limits.maxInput then Failure(ResourceLimit(InputBytes, cfg.limits.maxInput, range.End()))
      else if forall k: nat :: range.Contains(k) ==> At(s.segments, k).Some? then ReadyBytes(Cached(s.segments, range.start, range.len))
      else Failure(ResourceLimit(Allocation, cfg.limits.maxMissing, cfg.limits.maxMissing));
    CachedIsRead(s.segments, range);
    assert PollStep(cfg, s, range, job, checkpoint, REFUSING, s, reply);
  }

  lemma CachedIsRead(segs: seq<Segment>, range: Range)
    ensures (forall k: nat :: range.Contains(k) ==> At(segs, k).Some?) ==>
              IsRead(segs, range, Cached(segs, range.start, range.len))
  {
    hide At;
    var b := Cached(segs, range.start, range.len);
    forall k: nat | range.Contains(k) && At(segs, k).Some? ensures At(segs, k) == Some(b[k - range.start]) {
      assert b[k - range.start] == ByteOf(At(segs, range.start + (k - range.start)));
    }
  }

  lemma FailEnds(s: Store, ticket: Ticket, error: SourceError)
    ensures exists s', poison, reply :: FailStep(s, ticket, error, s', poison, reply)
  {
    var n := FindTicket(s.tickets, ticket, 0);
    if n == |s.tickets| {
      assert FailStep(s, ticket, error, s, false, Failure(UnknownTicket));
    } else if error.Integrity() {
      assert FailStep(s, ticket, error, ChangedAll(s), true, Done);
    } else if !s.tickets[n].phase.Pending? {
      assert FailStep(s, ticket, error, s, false, Failure(TicketAlreadyTerminal));
    } else {
      assert FailStep(s, ticket, error, s.(tickets := s.tickets[n := s.tickets[n].(phase := Failed(error))]), false, Done);
    }
  }

  /** A record holds no more subscriptions than all of them together. */
  lemma UnsubscribeEnds(cfg: Config, s: Store, ticket: Ticket, job: nat)
    requires TicketInv(cfg, s)
    ensures exists s', reply :: UnsubscribeStep(s, ticket, job, s', reply)
  {
    var n := FindTicket(s.tickets, ticket, 0);
    if n == |s.tickets| {
      assert UnsubscribeStep(s, ticket, job, s, Failure(UnknownTicket));
    } else if !s.tickets[n].phase.Pending? {
      assert UnsubscribeStep(s, ticket, job, s, Failure(TicketAlreadyTerminal));
    } else {
      var r := s.tickets[n];
      var kept := WithoutJob(r.subscribers, job, |r.subscribers|);
      SumMember(s.tickets, n, |s.tickets|);
      WithoutJobShrinks(r.subscribers, job, |r.subscribers|);
      var s' := s.(tickets := s.tickets[n := r.(subscribers := kept, phase := if kept == [] then Abandoned else Phase.Pending)],
                   subscriptionCount := s.subscriptionCount - (|r.subscribers| - |kept|));
      assert UnsubscribeStep(s, ticket, job, s', Done);
    }
  }

  lemma TakeEnds(cfg: Config, s: Store, ticket: Ticket)
    requires TicketInv(cfg, s)
    ensures exists s', reply :: TakeStep(s, ticket, s', reply)
  {
    var n := FindTicket(s.tickets, ticket, 0);
    if n == |s.tickets| {
      assert TakeStep(s, ticket, s, Failure(UnknownTicket));
    } else if s.tickets[n].phase.Pending? {
      assert TakeStep(s, ticket, s, Failure(TicketNotTerminal));
    } else {
      var r := s.tickets[n];
      SumMember(s.tickets, n, |s.tickets|);
      var s' := s.(tickets := s.tickets[n := r.(subscribers := [])], subscriptionCount := s.subscriptionCount - |r.subscribers|);
      assert TakeStep(s, ticket, s', Taken(r.subscribers));
    }
  }

  lemma StatusEnds(s: Store, ticket: Ticket)
    ensures exists s', reply :: StatusStep(s, ticket, s', reply)
  {
    var n := FindTicket(s.tickets, ticket, 0);
    assert StatusStep(s, ticket, s, if n == |s.tickets| then Failure(UnknownTicket) else StatusIs(StatusOf(s.tickets[n])));
  }

  lemma ReleaseEnds(s: Store, ticket: Ticket)
    ensures exists s', reply :: ReleaseStep(s, ticket, s', reply)
  {
    var n := FindTicket(s.tickets, ticket, 0);
    if n == |s.tickets| {
      assert ReleaseStep(s, ticket, s, Failure(UnknownTicket));
    } else if s.tickets[n].phase.Pending? {
      assert ReleaseStep(s, ticket, s, Failure(TicketNotTerminal));
    } else if s.tickets[n].subscribers != [] {
      assert ReleaseStep(s, ticket, s, Failure(SubscriptionsNotTaken));
    } else {
      assert ReleaseStep(s, ticket, s.(tickets := s.tickets[..n] + s.tickets[n + 1..]), Done);
    }
  }

  /** With the flag clear, every operation has an outcome in every sound store. */
  lemma {:induction false} StepEnds(cfg: Config, op: Op, s: Store)
    requires op.Valid() && Inv(cfg, s)
    ensures HasOutcome(cfg, op, s)
  {
    hide SupplyStep, ObserveStep, PollStep, FailStep, UnsubscribeStep, TakeStep, StatusStep, ReleaseStep, CacheInv, TicketInv;
    match op
    case Supply(response) =>
      SupplyEnds(cfg, s, response);
      var s', poison, reply :| SupplyStep(cfg, s, response, REFUSING, s', poison, reply);
      assert Step(cfg, op, REFUSING, s, s', poison, reply);
    case Observe(snapshot) =>
      ObserveEnds(cfg, s, snapshot);
      var s', poison, reply :| ObserveStep(cfg, s, snapshot, REFUSING, s', poison, reply);
      assert Step(cfg, op, REFUSING, s, s', poison, reply);
    case Poll(range, job, checkpoint) =>
      PollEnds(cfg, s, range, job, checkpoint);
      var s', reply :| PollStep(cfg, s, range, job, checkpoint, REFUSING, s', reply);
      assert Step(cfg, op, REFUSING, s, s', false, reply);
    case Fail(ticket, error) =>
      FailEnds(s, ticket, error);
      var s', poison, reply :| FailStep(s, ticket, error, s', poison, reply);
      assert Step(cfg, op, REFUSING, s, s', poison, reply);
    case Signal => assert Step(cfg, op, REFUSING, s, ChangedAll(s), true, Done);
    case Unsubscribe(ticket, job) =>
      UnsubscribeEnds(cfg, s, ticket, job);
      var s', reply :| UnsubscribeStep(s, ticket, job, s', reply);
      assert Step(cfg, op, REFUSING, s, s', false, reply);
    case Take(ticket) =>
      TakeEnds(cfg, s, ticket);
      var s', reply :| TakeStep(s, ticket, s', reply);
      assert Step(cfg, op, REFUSING, s, s', false, reply);
    case QueryStatus(ticket) =>
      StatusEnds(s, ticket);
      var s', reply :| StatusStep(s, ticket, s', reply);
      assert Step(cfg, op, REFUSING, s, s', false, reply);
    case Release(ticket) =>
      ReleaseEnds(s, ticket);
      var s', reply :| ReleaseStep(s, ticket, s', reply);
      assert Step(cfg, op, REFUSING, s, s', false, reply);
  }

  /** With the flag set too. */
  lemma {:induction false} WhenChangedEnds(cfg: Config, op: Op, s: Store)
    requires Inv(cfg, s)
    ensures exists s', reply :: WhenChanged(op, s, s', reply)
  {
    hide FailStep, UnsubscribeStep, TakeStep, StatusStep, ReleaseStep, CacheInv, TicketInv, ChangedAll;
    var c := ChangedAll(s);
    ChangedKeepsInv(cfg, s);
    match op
    case Supply(_) => assert WhenChanged(op, s, c, Failure(SourceChanged));
    case Observe(_) => assert WhenChanged(op, s, c, Failure(SourceChanged));
    case Poll(_, _, _) => assert WhenChanged(op, s, c, Failure(SourceChanged));
    case Fail(ticket, error) =>
      FailEnds(c, ticket, error);
      var s', poison, reply :| FailStep(c, ticket, error, s', poison, reply);
      assert WhenChanged(op, s, s', reply);
    case Signal => assert WhenChanged(op, s, c, Done);
    case Unsubscribe(ticket, job) =>
      UnsubscribeEnds(cfg, c, ticket, job);
      var s', reply :| UnsubscribeStep(c, ticket, job, s', reply);
      assert WhenChanged(op, s, s', reply);
    case Take(ticket) =>
      TakeEnds(cfg, c, ticket);
      var s', reply :| TakeStep(c, ticket, s', reply);
      assert WhenChanged(op, s, s', reply);
    case QueryStatus(ticket) =>
      StatusEnds(c, ticket);
      var s', reply :| StatusStep(c, ticket, s', reply);
      assert WhenChanged(op, s, s', reply);
    case Release(ticket) =>
      ReleaseEnds(c, ticket);
      var s', reply :| ReleaseStep(c, ticket, s', reply);
      assert WhenChanged(op, s, s', reply);
  }

  // ------------------------------------------------------------------ no thread is stuck

  ghost predicate CanMove(cfg: Config, sys: Sys, i: nat)
    requires i < |sys.threads|
  {
    OpsValid(sys.threads[i]) && exists event, sys' :: ThreadStep(cfg, sys, i, event, sys')
  }

  /** Waiting for a lock that another thread holds is the only way to wait. */
  ghost predicate Waits(sys: Sys, i: nat)
    requires i < |sys.threads|
  {
    sys.threads[i].WantLock? && sys.holder.Some? && sys.holder != Some(i)
  }

  lemma {:induction false} CheckMoves(cfg: Config, sys: Sys, i: nat, op: Op)
    requires Inv(cfg, sys.store) && op.Valid() && i < |sys.threads|
    ensures exists event, sys' :: CheckStep(cfg, sys, i, op, event, sys')
  {
    hide Inv, Step, WhenChanged;
    if sys.flag {
      WhenChangedEnds(cfg, op, sys.store);
      var write, reply :| WhenChanged(op, sys.store, write, reply);
      var event, sys' := Linearizes(i, op, REFUSING, reply), sys.(threads := sys.threads[i := Writing(op, write, reply)]);
      assert CheckOutcome(cfg, sys, i, op, REFUSING, write, false, reply, event, sys');
      assert CheckStep(cfg, sys, i, op, event, sys');
    } else {
      StepEnds(cfg, op, sys.store);
      var alloc, write, poison, reply :| Step(cfg, op, alloc, sys.store, write, poison, reply);
      var to := if poison then MustPoison(op, write, reply) else if reply.Supplied? then Prepared(op, alloc, write, reply)
                else Writing(op, write, reply);
      var event := if !poison && reply.Supplied? then Internal else Linearizes(i, op, alloc, reply);
      var sys' := sys.(threads := sys.threads[i := to]);
      assert CheckOutcome(cfg, sys, i, op, alloc, write, poison, reply, event, sys');
      assert CheckStep(cfg, sys, i, op, event, sys');
    }
  }

  lemma {:induction false} EntryMoves(cfg: Config, sys: Sys, i: nat, op: Op)
    requires i < |sys.threads|
    ensures exists event, sys' :: EntryStep(cfg, sys, i, op, event, sys')
  {
    var refused := Failure(SourceChanged);
    var entering := op.Supply? || op.Observe?;
    var foreign := (op.Supply? && !op.response.snapshot.SameSource(cfg.snapshot)) || (op.Observe? && !op.snapshot.SameSource(cfg.snapshot));
    if entering && sys.flag {
      assert EntryStep(cfg, sys, i, op, Linearizes(i, op, REFUSING, refused), sys.(threads := sys.threads[i := WantLock(op, Some(refused))]));
    } else if op.Signal? || (entering && foreign) {
      assert EntryStep(cfg, sys, i, op, Internal, sys.(threads := sys.threads[i := MustSwap(op)]));
    } else {
      assert EntryStep(cfg, sys, i, op, Internal, sys.(threads := sys.threads[i := WantLock(op, None)]));
    }
  }

  /** No deadlock: in a sound state every thread can move, or waits for the lock while the
      thread that holds it can move. */
  lemma {:induction false} NoDeadlock(cfg: Config, sys: Sys, i: nat)
    requires SysInv(cfg, sys) && i < |sys.threads|
    ensures CanMove(cfg, sys, i)
            || (Waits(sys, i) && sys.holder.value < |sys.threads| && CanMove(cfg, sys, sys.holder.value))
  {
    if !Waits(sys, i) {
      ThreadMoves(cfg, sys, i);
    } else {
      var h := sys.holder.value;
      ThreadInvAt(cfg, sys, h);
      assert sys.threads[h].HoldsLock();
      ThreadMoves(cfg, sys, h);
    }
  }

  lemma {:induction false} ThreadMoves(cfg: Config, sys: Sys, i: nat)
    requires SysInv(cfg, sys) && i < |sys.threads| && !Waits(sys, i)
    ensures CanMove(cfg, sys, i)
  {
    hide EntryStep, CheckStep, Inv, SysInv, Step;
    Sound(cfg, sys, i);
    var t := sys.threads[i];
    match t
    case Idle =>
      assert Signal.Valid();
      assert ThreadStep(cfg, sys, i, Internal, sys.(threads := sys.threads[i := Invoked(Signal)]));
    case Invoked(op) =>
      EntryMoves(cfg, sys, i, op);
      var event, sys' :| EntryStep(cfg, sys, i, op, event, sys');
      assert ThreadStep(cfg, sys, i, event, sys');
    case MustSwap(op) =>
      var reply := if op.Signal? then Done else Failure(SourceChanged);
      assert ThreadStep(cfg, sys, i, Linearizes(i, op, REFUSING, reply),
                        sys.(flag := true, threads := sys.threads[i := WantLock(op, Some(reply))]));
    case WantLock(op, decided) =>
      assert ThreadStep(cfg, sys, i, Internal, sys.(holder := Some(i), threads := sys.threads[i := Holding(op, decided)]));
    case Holding(op, decided) =>
      if decided.Some? {
        assert ThreadStep(cfg, sys, i, Internal, Released(sys, i, ChangedAll(sys.store), Returning(op, decided.value)));
      } else {
        CheckMoves(cfg, sys, i, op);
        var event, sys' :| CheckStep(cfg, sys, i, op, event, sys');
        assert ThreadStep(cfg, sys, i, event, sys');
      }
    case Prepared(op, alloc, write, reply) =>
      if sys.flag {
        assert ThreadStep(cfg, sys, i, Linearizes(i, op, alloc, Failure(SourceChanged)),
                          sys.(threads := sys.threads[i := Writing(op, ChangedAll(sys.store), Failure(SourceChanged))]));
      } else {
        assert ThreadStep(cfg, sys, i, Linearizes(i, op, alloc, reply), sys.(threads := sys.threads[i := Writing(op, write, reply)]));
      }
    case MustPoison(op, write, reply) =>
      assert ThreadStep(cfg, sys, i, Internal, sys.(flag := true, threads := sys.threads[i := Writing(op, write, reply)]));
    case Writing(op, write, reply) =>
      assert ThreadStep(cfg, sys, i, Internal, Released(sys, i, write, Returning(op, reply)));
    case Returning(_, _) => assert ThreadStep(cfg, sys, i, Internal, sys.(threads := sys.threads[i := Thread.Idle]));
  }

  ghost function Released(sys: Sys, i: nat, write: Store, to: Thread): Sys
    requires i < |sys.threads|
  {
    sys.(store := write, holder := None, threads := sys.threads[i := to])
  }

  lemma {:induction false} Sound(cfg: Config, sys: Sys, i: nat)
    requires SysInv(cfg, sys) && i < |sys.threads|
    ensures Inv(cfg, sys.store) && OpsValid(sys.threads[i])
    ensures sys.threads[i].WantLock? ==> sys.holder != Some(i)
  {
    ThreadInvAt(cfg, sys, i);
  }

  /** At every point of every execution. */
  lemma {:induction false} ExecutionsGoOn(cfg: Config, states: seq<Sys>, turns: seq<Turn>, k: nat, i: nat)
    requires Execution(cfg, states, turns) && k < |states| && i < |states[k].threads|
    ensures CanMove(cfg, states[k], i)
            || (Waits(states[k], i) && states[k].holder.value < |states[k].threads|
                && CanMove(cfg, states[k], states[k].holder.value))
  {
    hide Execution, SysInv, CanMove;
    ExecutionInv(cfg, states, turns, k);
    NoDeadlock(cfg, states[k], i);
  }

  // ------------------------------------------------------------------ calls end

  /** How far a call has come. */
  function Stage(t: Thread): nat {
    match t
    case Idle => 0
    case Invoked(_) => 1
    case MustSwap(_) => 2
    case WantLock(_, _) => 3
    case Holding(_, _) => 4
    case Prepared(_, _, _, _) => 5
    case MustPoison(_, _, _) => 5
    case Writing(_, _, _) => 6
    case Returning(_, _) => 7
  }

  /** Every step of its own takes a call further, so a call takes at most seven of them. */
  lemma {:induction false} StepsAdvance(cfg: Config, sys: Sys, i: nat, event: Event, sys': Sys)
    requires i < |sys.threads| && OpsValid(sys.threads[i]) && ThreadStep(cfg, sys, i, event, sys')
    ensures |sys'.threads| == |sys.threads|
    ensures Stage(sys'.threads[i]) > Stage(sys.threads[i]) || (sys.threads[i].Returning? && sys'.threads[i].Idle?)
  {
    hide Step, WhenChanged;
  }
}
