/** Safety over whole runs of a Range store: operations take effect one after the other
    (Linearization shows that concurrent executions do). A world carries the history the
    properties talk about: which ranges were ever subscribed to which ticket, and what
    became of every accepted subscription. */
module StoreRuns {
  import opened Basics
  import opened Ranges
  import opened Segments
  import opened Coalesce
  import opened StoreSpec
  import opened StoreInv

  /** A subscription together with the number of the ticket it was accepted on. */
  datatype Tagged = Tagged(ticket: nat, subscription: Subscription)

  /** A range together with the number of a ticket a poll of it was told to wait for. */
  datatype Request = Request(ticket: nat, range: Range)

  datatype World = World(
    flag: bool, store: Store, requested: set<Request>,
    accepted: multiset<Tagged>, left: multiset<Tagged>, taken: multiset<Tagged>)

  ghost function Initial(cfg: Config): World {
    World(false, Store([], 0, [], 1, cfg.snapshot.len, 0), {}, multiset{}, multiset{}, multiset{})
  }

  // ------------------------------------------------------------------ steps with history

  /** How often tag t occurs among the first n subscriptions of a ticket. */
  ghost function Count(ticket: nat, subs: seq<Subscription>, n: nat, t: Tagged): nat
    requires n <= |subs|
  {
    if n == 0 then 0 else Count(ticket, subs, n - 1, t) + (if Tagged(ticket, subs[n - 1]) == t then 1 else 0)
  }

  /** How often tag t is still held by the first n records. */
  ghost function Retained(tickets: seq<Record>, n: nat, t: Tagged): nat
    requires n <= |tickets|
  {
    if n == 0 then 0 else Retained(tickets, n - 1, t) + Held(tickets[n - 1], t)
  }

  ghost function Held(r: Record, t: Tagged): nat { Count(r.ticket.value, r.subscribers, |r.subscribers|, t) }

  ghost function Requests(op: Op, reply: Reply): set<Request> {
    if op.Poll? && reply.PendingOn? then {Request(reply.ticket.value, op.range)} else {}
  }

  /** The subscription a poll added, if it added one. */
  ghost function Accepts(op: Op, s: Store, s': Store, reply: Reply, t: Tagged): nat {
    if op.Poll? && reply.PendingOn? && s'.subscriptionCount == s.subscriptionCount + 1
       && t == Tagged(reply.ticket.value, Subscription(op.job, op.checkpoint))
    then 1 else 0
  }

  /** The subscriptions of the job that a successful unsubscribe removed. */
  ghost function Leaves(op: Op, s: Store, reply: Reply, t: Tagged): nat {
    if op.Unsubscribe? && reply.Done? && t.subscription.job == op.job then
      var n := FindTicket(s.tickets, op.ticket, 0);
      if n < |s.tickets| then Held(s.tickets[n], t) else 0
    else 0
  }

  ghost function Takes(op: Op, reply: Reply, t: Tagged): nat {
    if op.Take? && reply.Taken? then Count(op.ticket.value, reply.subscriptions, |reply.subscriptions|, t)
    else 0
  }

  /** One operation taking effect atomically. */
  ghost predicate Effect(cfg: Config, flag: bool, s: Store, op: Op, alloc: Alloc, flag': bool, s': Store, reply: Reply) {
    && op.Valid()
    && if flag then flag' && WhenChanged(op, s, s', reply) else Step(cfg, op, alloc, s, s', flag', reply)
  }

  ghost predicate Next(cfg: Config, w: World, op: Op, alloc: Alloc, reply: Reply, w': World) {
    && Effect(cfg, w.flag, w.store, op, alloc, w'.flag, w'.store, reply)
    && w'.requested == w.requested + Requests(op, reply)
    && (forall t :: w'.accepted[t] == w.accepted[t] + Accepts(op, w.store, w'.store, reply, t))
    && (forall t :: w'.left[t] == w.left[t] + Leaves(op, w.store, reply, t))
    && (forall t :: w'.taken[t] == w.taken[t] + Takes(op, reply, t))
  }

  ghost predicate Steps(cfg: Config, w: World, w': World) {
    exists op, alloc, reply :: Next(cfg, w, op, alloc, reply, w')
  }

  ghost predicate StepAt(cfg: Config, run: seq<World>, i: nat)
    requires i + 1 < |run|
  {
    Steps(cfg, run[i], run[i + 1])
  }

  /** A finite run from the empty store. */
  ghost predicate Run(cfg: Config, run: seq<World>) {
    && cfg.limits.Valid()
    && (cfg.snapshot.len.Some? ==> cfg.snapshot.len.value <= cfg.limits.maxInput)
    && |run| > 0 && run[0] == Initial(cfg)
    && forall i :: 0 <= i < |run| - 1 ==> StepAt(cfg, run, i)
  }

  lemma StepsAt(cfg: Config, run: seq<World>, i: nat)
    requires Run(cfg, run) && i + 1 < |run|
    ensures Steps(cfg, run[i], run[i + 1])
  {
    assert StepAt(cfg, run, i);
  }

  // ------------------------------------------------------------------ what every run keeps

  /** The invariant of a world, whatever the flag; with the flag set nothing is pending. */
  ghost predicate WorldInv(cfg: Config, w: World) {
    && Inv(cfg, w.store)
    && (w.flag ==> NoPending(w.store))
  }

  lemma NextKeepsInv(cfg: Config, w: World, op: Op, alloc: Alloc, reply: Reply, w': World)
    requires WorldInv(cfg, w) && Next(cfg, w, op, alloc, reply, w')
    ensures WorldInv(cfg, w')
  {
    if w.flag {
      WhenChangedKeepsInv(cfg, op, w.store, w'.store, reply);
    } else {
      StepKeepsInv(cfg, op, alloc, w.store, w'.store, w'.flag, reply);
    }
  }

  lemma InitialInv(cfg: Config)
    requires cfg.limits.Valid() && (cfg.snapshot.len.Some? ==> cfg.snapshot.len.value <= cfg.limits.maxInput)
    ensures WorldInv(cfg, Initial(cfg))
  {
  }

  lemma {:induction false} RunInv(cfg: Config, run: seq<World>, i: nat)
    requires Run(cfg, run) && i < |run|
    ensures WorldInv(cfg, run[i])
  {
    if i == 0 {
      InitialInv(cfg);
    } else {
      RunInv(cfg, run, i - 1);
      StepsAt(cfg, run, i - 1);
      StepsKeepInv(cfg, run[i - 1], run[i]);
    }
  }

  lemma StepsKeepInv(cfg: Config, w: World, w': World)
    requires WorldInv(cfg, w) && Steps(cfg, w, w')
    ensures WorldInv(cfg, w')
  {
    var op, alloc, reply :| Next(cfg, w, op, alloc, reply, w');
    NextKeepsInv(cfg, w, op, alloc, reply, w');
  }

  // ------------------------------------------------------------------ supply as map union

  /** A supply refines map union. On success the cached content is the old content updated
      by the response, with which it agreed on every offset they share; the list stays
      canonical and within the bound length, and the byte count is the number of cached
      offsets. A resource failure changes nothing. */
  lemma SupplyIsMapUnion(cfg: Config, s: Store, response: Response, alloc: Alloc, s': Store, poison: bool, reply: Reply)
    requires Inv(cfg, s) && response.Valid() && SupplyStep(cfg, s, response, alloc, s', poison, reply)
    ensures reply.Supplied? ==>
              && Sorted(s'.segments) && Below(s'.observedLen, LastEnd(s'.segments))
              && reply.cachedBytes == s'.cachedBytes == |Offsets(s'.segments)|
    ensures reply.Supplied? ==>
              forall k: nat :: At(s'.segments, k)
                == if response.range.Contains(k) then Some(response.bytes[k - response.range.start]) else At(s.segments, k)
    ensures reply.Supplied? ==>
              forall k: nat :: response.range.Contains(k) && At(s.segments, k).Some? ==>
                At(s.segments, k) == Some(response.bytes[k - response.range.start])
    ensures reply.Failure? && reply.error.ResourceLimit? ==> s' == s && !poison
    ensures reply.Failure? && !reply.error.ResourceLimit? ==> s' == ChangedAll(s) && poison
  {
    hide Oversize, SupplyLimit, TooLong, MetadataConflict, OverLimit, Covered, Woken, NewlyReady, TicketInv;
    SupplyKeepsInv(cfg, s, response, alloc, s', poison, reply);
    TotalIsCachedCount(s'.segments);
    if reply.Supplied? {
      forall k: nat
        ensures At(s'.segments, k)
          == if response.range.Contains(k) then Some(response.bytes[k - response.range.start]) else At(s.segments, k)
      {
        assert At(s'.segments, k) == Updated(s.segments, response.range, response.bytes, k);
      }
    }
  }

  // ------------------------------------------------------------------ what never changes again

  /** Cached bytes, the bound length and the source change are final, and ticket numbers
      only grow. */
  ghost predicate Grows(s: Store, s': Store) {
    && (forall k: nat :: At(s.segments, k).Some? ==> At(s'.segments, k) == At(s.segments, k))
    && (s.observedLen.Some? ==> s'.observedLen == s.observedLen)
    && s.nextTicket <= s'.nextTicket
  }

  lemma SupplyGrows(s: Store, response: Response, s': Store)
    requires response.Valid() && !Conflicts(s.segments, response.range, response.bytes)
    requires Rebuilds(s.segments, response, s'.segments)
    ensures forall k: nat :: At(s.segments, k).Some? ==> At(s'.segments, k) == At(s.segments, k)
  {
    forall k: nat | At(s.segments, k).Some? ensures At(s'.segments, k) == At(s.segments, k) {
      assert At(s'.segments, k) == Updated(s.segments, response.range, response.bytes, k);
    }
  }

  lemma SameSegmentsGrow(s: Store, s': Store)
    requires s'.segments == s.segments && s'.observedLen == s.observedLen && s.nextTicket <= s'.nextTicket
    ensures Grows(s, s')
  {
  }

  lemma EffectGrows(cfg: Config, flag: bool, s: Store, op: Op, alloc: Alloc, flag': bool, s': Store, reply: Reply)
    requires Effect(cfg, flag, s, op, alloc, flag', s', reply)
    ensures Grows(s, s') && (flag ==> flag')
  {
    if !flag && op.Supply? && reply.Supplied? {
      SupplyGrows(s, op.response, s');
    } else if !flag && op.Observe? && reply.Supplied? {
      assert s'.segments == s.segments;
    } else {
      TicketEffectKeepsContent(cfg, flag, s, op, alloc, flag', s', reply);
      SameSegmentsGrow(s, s');
    }
  }

  lemma TicketEffectKeepsContent(cfg: Config, flag: bool, s: Store, op: Op, alloc: Alloc, flag': bool, s': Store, reply: Reply)
    requires Effect(cfg, flag, s, op, alloc, flag', s', reply) && !reply.Supplied?
    ensures SameContent(s, s')
  {
    hide SupplyStep, ObserveStep, PollStep, FailStep, UnsubscribeStep, TakeStep, StatusStep, ReleaseStep, WhenChanged;
    if flag {
      ChangedEffectKeepsContent(op, s, s', reply);
    } else {
      match op
      case Supply(response) => SupplyFailureKeepsContent(cfg, s, response, alloc, s', flag', reply);
      case Observe(snapshot) => ObserveFailureKeepsContent(cfg, s, snapshot, alloc, s', flag', reply);
      case Poll(range, job, checkpoint) => PollKeepsContent(cfg, s, range, job, checkpoint, alloc, s', reply);
      case Fail(ticket, error) => FailKeepsContent(s, ticket, error, s', flag', reply);
      case Signal =>
      case Unsubscribe(ticket, job) => QueueOpKeepsContent(op, s, s', reply);
      case Take(ticket) => QueueOpKeepsContent(op, s, s', reply);
      case QueryStatus(ticket) => QueueOpKeepsContent(op, s, s', reply);
      case Release(ticket) => QueueOpKeepsContent(op, s, s', reply);
    }
  }

  ghost predicate SameContent(s: Store, s': Store) {
    s'.segments == s.segments && s'.observedLen == s.observedLen && s.nextTicket <= s'.nextTicket
  }

  lemma SupplyFailureKeepsContent(cfg: Config, s: Store, response: Response, alloc: Alloc, s': Store, poison: bool, reply: Reply)
    requires response.Valid() && SupplyStep(cfg, s, response, alloc, s', poison, reply) && !reply.Supplied?
    ensures SameContent(s, s')
  {
    hide Covered, Conflicts, OverLimit, Rebuilds, MetadataConflict;
  }

  lemma ObserveFailureKeepsContent(cfg: Config, s: Store, snapshot: Snapshot, alloc: Alloc, s': Store, poison: bool, reply: Reply)
    requires ObserveStep(cfg, s, snapshot, alloc, s', poison, reply) && !reply.Supplied?
    ensures SameContent(s, s')
  {
  }

  lemma PollKeepsContent(cfg: Config, s: Store, range: Range, job: nat, checkpoint: nat, alloc: Alloc, s': Store, reply: Reply)
    requires PollStep(cfg, s, range, job, checkpoint, alloc, s', reply)
    ensures SameContent(s, s')
  {
    hide Gaps, At, IsRead;
  }

  lemma FailKeepsContent(s: Store, ticket: Ticket, error: SourceError, s': Store, poison: bool, reply: Reply)
    requires FailStep(s, ticket, error, s', poison, reply)
    ensures SameContent(s, s')
  {
  }

  lemma QueueOpKeepsContent(op: Op, s: Store, s': Store, reply: Reply)
    requires match op
             case Unsubscribe(ticket, job) => UnsubscribeStep(s, ticket, job, s', reply)
             case Take(ticket) => TakeStep(s, ticket, s', reply)
             case QueryStatus(ticket) => StatusStep(s, ticket, s', reply)
             case Release(ticket) => ReleaseStep(s, ticket, s', reply)
             case _ => false
    ensures SameContent(s, s')
  {
  }

  lemma ChangedEffectKeepsContent(op: Op, s: Store, s': Store, reply: Reply)
    requires WhenChanged(op, s, s', reply)
    ensures SameContent(s, s')
  {
    hide FailStep, UnsubscribeStep, TakeStep, StatusStep, ReleaseStep;
    match op
    case Fail(ticket, error) =>
      var poison :| FailStep(ChangedAll(s), ticket, error, s', poison, reply);
      FailKeepsContent(ChangedAll(s), ticket, error, s', poison, reply);
    case Supply(_) =>
    case Observe(_) =>
    case Poll(_, _, _) =>
    case Signal =>
    case Unsubscribe(_, _) => QueueOpKeepsContent(op, ChangedAll(s), s', reply);
    case Take(_) => QueueOpKeepsContent(op, ChangedAll(s), s', reply);
    case QueryStatus(_) => QueueOpKeepsContent(op, ChangedAll(s), s', reply);
    case Release(_) => QueueOpKeepsContent(op, ChangedAll(s), s', reply);
  }

  ghost predicate Later(w: World, w': World) {
    Grows(w.store, w'.store) && (w.flag ==> w'.flag)
  }

  lemma LaterOn(a: World, b: World, c: World)
    requires Later(a, b) && Later(b, c)
    ensures Later(a, c)
  {
  }

  lemma StepsGrow(cfg: Config, w: World, w': World)
    requires Steps(cfg, w, w')
    ensures Later(w, w')
  {
    var op, alloc, reply :| Next(cfg, w, op, alloc, reply, w');
    EffectGrows(cfg, w.flag, w.store, op, alloc, w'.flag, w'.store, reply);
  }

  /** Over any run, from any point to any later one: a cached byte never changes or
      disappears, a bound length never changes, a source change is never undone. */
  lemma {:induction false} RunOnlyGrows(cfg: Config, run: seq<World>, i: nat, j: nat)
    requires Run(cfg, run) && i <= j < |run|
    ensures Later(run[i], run[j])
    decreases j
  {
    if i < j {
      RunOnlyGrows(cfg, run, i, j - 1);
      StepsAt(cfg, run, j - 1);
      StepsGrow(cfg, run[j - 1], run[j]);
      LaterOn(run[i], run[j - 1], run[j]);
    }
  }

  /** Two polls of one run, whatever happens in between, never return different bytes for
      the same offset. */
  lemma ReturnedBytesAgree(cfg: Config, run: seq<World>, i: nat, r1: Range, b1: seq<Byte>, j: nat, r2: Range, b2: seq<Byte>, k: nat)
    requires Run(cfg, run) && i <= j < |run|
    requires IsRead(run[i].store.segments, r1, b1) && IsRead(run[j].store.segments, r2, b2)
    requires r1.Contains(k) && r2.Contains(k)
    ensures b1[k - r1.start] == b2[k - r2.start]
  {
    RunOnlyGrows(cfg, run, i, j);
    assert At(run[i].store.segments, k) == Some(b1[k - r1.start]);
    assert At(run[j].store.segments, k) == Some(b2[k - r2.start]);
  }
}
