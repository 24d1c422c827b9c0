/** Exactly-once subscriptions over whole runs of the Range store
    (pdf-rs/bytes/src/store.rs, lines 796-891 and 994-1087). */
module Subscriptions {
  import opened Basics
  import opened Segments
  import opened StoreSpec
  import opened StoreInv
  import opened StoreRuns

  /** Every accepted subscription is still held by its record, was removed by an
      unsubscribe, or was handed out by a take: never two of these, never none. */
  ghost predicate Balanced(w: World) {
    forall t :: w.accepted[t] == AllRetained(w.store, t) + w.left[t] + w.taken[t]
  }

  ghost function AllRetained(s: Store, t: Tagged): nat { Retained(s.tickets, |s.tickets|, t) }

  // ------------------------------------------------------------------ retained subscriptions

  /** The records hold the same subscriptions for the same tickets. */
  ghost predicate SameHeld(a: Record, b: Record) {
    a.ticket.value == b.ticket.value && a.subscribers == b.subscribers
  }

  lemma {:induction false} RetainedSame(a: seq<Record>, b: seq<Record>, n: nat, t: Tagged)
    requires n <= |a| && n <= |b|
    requires forall i :: 0 <= i < n ==> SameHeld(a[i], b[i])
    ensures Retained(a, n, t) == Retained(b, n, t)
  {
    if n > 0 {
      RetainedSame(a, b, n - 1, t);
      assert SameHeld(a[n - 1], b[n - 1]);
    }
  }

  lemma {:induction false} RetainedUpdate(a: seq<Record>, i: nat, r: Record, n: nat, t: Tagged)
    requires i < n <= |a|
    ensures Retained(a[i := r], n, t) + Held(a[i], t) == Retained(a, n, t) + Held(r, t)
  {
    if i < n - 1 {
      RetainedUpdate(a, i, r, n - 1, t);
    } else {
      forall j | 0 <= j < i ensures SameHeld(a[i := r][j], a[j]) { }
      RetainedSame(a[i := r], a, i, t);
    }
  }

  lemma {:induction false} RetainedRemove(a: seq<Record>, i: nat, n: nat, b: seq<Record>, t: Tagged)
    requires i < n <= |a| && a[i].subscribers == [] && |b| == |a| - 1
    requires forall j :: 0 <= j < |b| ==> b[j] == a[if j < i then j else j + 1]
    ensures Retained(b, n - 1, t) == Retained(a, n, t)
  {
    if n - 1 == i {
      forall j | 0 <= j < i ensures SameHeld(b[j], a[j]) { }
      RetainedSame(b, a, i, t);
    } else {
      RetainedRemove(a, i, n - 1, b, t);
      assert b[n - 2] == a[n - 1];
    }
  }

  lemma {:induction false} CountSame(ticket: nat, a: seq<Subscription>, b: seq<Subscription>, n: nat, t: Tagged)
    requires n <= |a| && n <= |b| && forall i :: 0 <= i < n ==> a[i] == b[i]
    ensures Count(ticket, a, n, t) == Count(ticket, b, n, t)
  {
    if n > 0 { CountSame(ticket, a, b, n - 1, t); }
  }

  lemma CountAppend(ticket: nat, subs: seq<Subscription>, x: Subscription, t: Tagged)
    ensures Count(ticket, subs + [x], |subs| + 1, t)
            == Count(ticket, subs, |subs|, t) + (if Tagged(ticket, x) == t then 1 else 0)
  {
    CountSame(ticket, subs + [x], subs, |subs|, t);
  }

  /** Removing a job keeps every other job's subscriptions and none of its own. */
  lemma {:induction false} WithoutJobCount(ticket: nat, subs: seq<Subscription>, job: nat, n: nat, t: Tagged)
    requires n <= |subs|
    ensures Count(ticket, WithoutJob(subs, job, n), |WithoutJob(subs, job, n)|, t)
            == if t.subscription.job == job then 0 else Count(ticket, subs, n, t)
  {
    if n > 0 {
      WithoutJobCount(ticket, subs, job, n - 1, t);
      CountAppend(ticket, WithoutJob(subs, job, n - 1), subs[n - 1], t);
    }
  }

  // ------------------------------------------------------------------ each operation

  lemma ChangedRetains(s: Store, t: Tagged)
    ensures AllRetained(ChangedAll(s), t) == AllRetained(s, t)
  {
    var c := ChangedAll(s);
    forall i | 0 <= i < |s.tickets| ensures SameHeld(c.tickets[i], s.tickets[i]) { }
    RetainedSame(c.tickets, s.tickets, |s.tickets|, t);
  }

  lemma CommitRetains(s: Store, segs: seq<Segment>, bound: Option<nat>, s': Store, reply: Reply, t: Tagged)
    requires Commits(s, segs, bound, s', reply)
    ensures AllRetained(s', t) == AllRetained(s, t)
  {
    forall i | 0 <= i < |s.tickets| ensures SameHeld(s'.tickets[i], s.tickets[i]) { }
    RetainedSame(s'.tickets, s.tickets, |s.tickets|, t);
  }

  lemma PollBalances(cfg: Config, s: Store, op: Op, alloc: Alloc, s': Store, reply: Reply, t: Tagged)
    requires op.Poll? && PollStep(cfg, s, op.range, op.job, op.checkpoint, alloc, s', reply)
    ensures AllRetained(s', t) == AllRetained(s, t) + Accepts(op, s, s', reply, t)
  {
    if s'.subscriptionCount == s.subscriptionCount + 1 {
      var x := Subscription(op.job, op.checkpoint);
      var n := FindWaiting(s.tickets, Gaps(s.segments, op.range), 0);
      if n < |s.tickets| {
        CountAppend(s.tickets[n].ticket.value, s.tickets[n].subscribers, x, t);
        RetainedUpdate(s.tickets, n, s'.tickets[n], |s.tickets|, t);
      } else {
        forall i | 0 <= i < |s.tickets| ensures SameHeld(s'.tickets[i], s.tickets[i]) { }
        RetainedSame(s'.tickets, s.tickets, |s.tickets|, t);
        CountAppend(s.nextTicket, [], x, t);
        assert [] + [x] == [x];
      }
    } else {
      PollWithoutSubscription(cfg, s, op, alloc, s', reply);
    }
  }

  lemma PollWithoutSubscription(cfg: Config, s: Store, op: Op, alloc: Alloc, s': Store, reply: Reply)
    requires op.Poll? && PollStep(cfg, s, op.range, op.job, op.checkpoint, alloc, s', reply)
    requires s'.subscriptionCount != s.subscriptionCount + 1
    ensures s'.tickets == s.tickets
  {
  }

  lemma FailRetains(s: Store, ticket: Ticket, error: SourceError, s': Store, poison: bool, reply: Reply, t: Tagged)
    requires FailStep(s, ticket, error, s', poison, reply)
    ensures AllRetained(s', t) == AllRetained(s, t)
  {
    ChangedRetains(s, t);
    if |s'.tickets| == |s.tickets| && !poison {
      forall i | 0 <= i < |s.tickets| ensures SameHeld(s'.tickets[i], s.tickets[i]) { }
      RetainedSame(s'.tickets, s.tickets, |s.tickets|, t);
    }
  }

  lemma UnsubscribeBalances(s: Store, op: Op, s': Store, reply: Reply, t: Tagged)
    requires op.Unsubscribe? && UnsubscribeStep(s, op.ticket, op.job, s', reply)
    ensures AllRetained(s', t) + Leaves(op, s, reply, t) == AllRetained(s, t)
  {
    if reply.Done? {
      var n := FindTicket(s.tickets, op.ticket, 0);
      WithoutJobCount(op.ticket.value, s.tickets[n].subscribers, op.job, |s.tickets[n].subscribers|, t);
      RetainedUpdate(s.tickets, n, s'.tickets[n], |s.tickets|, t);
    }
  }

  lemma TakeBalances(s: Store, op: Op, s': Store, reply: Reply, t: Tagged)
    requires op.Take? && TakeStep(s, op.ticket, s', reply)
    ensures AllRetained(s', t) + Takes(op, reply, t) == AllRetained(s, t)
  {
    if reply.Taken? {
      var n := FindTicket(s.tickets, op.ticket, 0);
      RetainedUpdate(s.tickets, n, s'.tickets[n], |s.tickets|, t);
    }
  }

  lemma ReleaseRetains(s: Store, ticket: Ticket, s': Store, reply: Reply, t: Tagged)
    requires ReleaseStep(s, ticket, s', reply)
    ensures AllRetained(s', t) == AllRetained(s, t)
  {
    if reply.Done? {
      var n := FindTicket(s.tickets, ticket, 0);
      RemovedAt(s.tickets, n, s'.tickets);
      RetainedRemove(s.tickets, n, |s.tickets|, s'.tickets, t);
    }
  }

  /** The ledger entry of one operation. */
  ghost predicate Ledger(op: Op, s: Store, s': Store, reply: Reply, t: Tagged) {
    AllRetained(s', t) + Leaves(op, s, reply, t) + Takes(op, reply, t) == AllRetained(s, t) + Accepts(op, s, s', reply, t)
  }

  lemma StepBalances(cfg: Config, op: Op, alloc: Alloc, s: Store, s': Store, poison: bool, reply: Reply, t: Tagged)
    requires op.Valid() && Step(cfg, op, alloc, s, s', poison, reply)
    ensures Ledger(op, s, s', reply, t)
  {
    if poison {
      ChangedRetains(s, t);
      PoisonChanges(cfg, op, alloc, s, s', reply);
    } else {
      match op
      case Supply(response) =>
        if reply.Supplied? {
          CommitRetains(s, s'.segments, Binds(s.observedLen, response.snapshot.len), s', reply, t);
        }
      case Observe(snapshot) =>
        if reply.Supplied? { CommitRetains(s, s.segments, Binds(s.observedLen, snapshot.len), s', reply, t); }
      case Poll(_, _, _) => PollBalances(cfg, s, op, alloc, s', reply, t);
      case Fail(ticket, error) => FailRetains(s, ticket, error, s', poison, reply, t);
      case Unsubscribe(_, _) => UnsubscribeBalances(s, op, s', reply, t);
      case Take(_) => TakeBalances(s, op, s', reply, t);
      case Release(ticket) => ReleaseRetains(s, ticket, s', reply, t);
      case _ =>
    }
  }

  lemma PoisonChanges(cfg: Config, op: Op, alloc: Alloc, s: Store, s': Store, reply: Reply)
    requires op.Valid() && Step(cfg, op, alloc, s, s', true, reply)
    ensures s' == ChangedAll(s) && (op.Supply? || op.Observe? || op.Fail? || op.Signal?)
  {
  }

  lemma {:induction false} FindTicketSame(a: seq<Record>, b: seq<Record>, ticket: Ticket, i: nat)
    requires i <= |a| == |b| && forall j :: 0 <= j < |a| ==> a[j].ticket == b[j].ticket
    ensures FindTicket(a, ticket, i) == FindTicket(b, ticket, i)
    decreases |a| - i
  {
    if i < |a| && a[i].ticket != ticket { FindTicketSame(a, b, ticket, i + 1); }
  }

  lemma ChangedLeaves(op: Op, s: Store, reply: Reply, t: Tagged)
    ensures Leaves(op, ChangedAll(s), reply, t) == Leaves(op, s, reply, t)
  {
    if op.Unsubscribe? { FindTicketSame(ChangedAll(s).tickets, s.tickets, op.ticket, 0); }
  }

  lemma WhenChangedBalances(op: Op, s: Store, s': Store, reply: Reply, t: Tagged)
    requires WhenChanged(op, s, s', reply)
    ensures Ledger(op, s, s', reply, t)
  {
    var c := ChangedAll(s);
    ChangedRetains(s, t);
    ChangedLeaves(op, s, reply, t);
    match op
    case Fail(ticket, error) =>
      var poison :| FailStep(c, ticket, error, s', poison, reply);
      FailRetains(c, ticket, error, s', poison, reply, t);
    case Unsubscribe(_, _) => UnsubscribeBalances(c, op, s', reply, t);
    case Take(_) => TakeBalances(c, op, s', reply, t);
    case Release(ticket) => ReleaseRetains(c, ticket, s', reply, t);
    case _ =>
  }

  lemma EffectBalances(cfg: Config, flag: bool, s: Store, op: Op, alloc: Alloc, flag': bool, s': Store, reply: Reply, t: Tagged)
    requires Effect(cfg, flag, s, op, alloc, flag', s', reply)
    ensures Ledger(op, s, s', reply, t)
  {
    if flag {
      WhenChangedBalances(op, s, s', reply, t);
    } else {
      StepBalances(cfg, op, alloc, s, s', flag', reply, t);
    }
  }

  // ------------------------------------------------------------------ whole runs

  lemma StepsBalance(cfg: Config, w: World, w': World)
    requires Steps(cfg, w, w') && Balanced(w)
    ensures Balanced(w')
  {
    var op, alloc, reply :| Next(cfg, w, op, alloc, reply, w');
    forall t ensures w'.accepted[t] == AllRetained(w'.store, t) + w'.left[t] + w'.taken[t] {
      EffectBalances(cfg, w.flag, w.store, op, alloc, w'.flag, w'.store, reply, t);
    }
  }

  /** At every point of every run each accepted subscription is retained, left or taken
      exactly once; the counter is the sum over the records and within its bound; a pending
      ticket has a subscriber, and at most one per job. */
  lemma {:induction false} SubscriptionsExactlyOnce(cfg: Config, run: seq<World>, i: nat)
    requires Run(cfg, run) && i < |run|
    ensures Balanced(run[i])
    ensures run[i].store.subscriptionCount
            == SubscriberSum(run[i].store.tickets, |run[i].store.tickets|) <= cfg.limits.maxSubscriptions
    ensures forall n :: 0 <= n < |run[i].store.tickets| && run[i].store.tickets[n].phase.Pending? ==>
              run[i].store.tickets[n].subscribers != [] && OncePerJob(run[i].store.tickets[n].subscribers)
  {
    RunBalanced(cfg, run, i);
    RunInv(cfg, run, i);
    var s := run[i].store;
    forall n | 0 <= n < |s.tickets| && s.tickets[n].phase.Pending?
      ensures s.tickets[n].subscribers != [] && OncePerJob(s.tickets[n].subscribers)
    {
      assert RecordInv(cfg, s, s.tickets[n]);
    }
  }

  lemma {:induction false} RunBalanced(cfg: Config, run: seq<World>, i: nat)
    requires Run(cfg, run) && i < |run|
    ensures Balanced(run[i])
  {
    if i > 0 {
      RunBalanced(cfg, run, i - 1);
      StepsAt(cfg, run, i - 1);
      StepsBalance(cfg, run[i - 1], run[i]);
    }
  }
}
