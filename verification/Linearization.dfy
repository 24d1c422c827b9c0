/** What the simulation of Interleaving gives for whole concurrent executions of the Range
    store: a sequential run that explains them, and what is final once a source-change
    signal has returned (pdf-rs/bytes/src/store.rs, lines 781-790 and 923-954). */
module Linearization {
  import opened Basics
  import opened Ranges
  import opened Segments
  import opened StoreSpec
  import opened StoreInv
  import opened StoreRuns
  import opened WakeUps
  import opened Interleaving

  datatype Turn = Turn(thread: nat, event: Event)

  ghost predicate TurnAt(cfg: Config, states: seq<Sys>, turns: seq<Turn>, k: nat)
    requires |states| == |turns| + 1 && k < |turns|
  {
    && turns[k].thread < |states[k].threads| && OpsValid(states[k].threads[turns[k].thread])
    && ThreadStep(cfg, states[k], turns[k].thread, turns[k].event, states[k + 1])
  }

  ghost predicate Quiet(sys: Sys) {
    !sys.flag && sys.holder.None? && forall i :: 0 <= i < |sys.threads| ==> sys.threads[i].Idle?
  }

  /** A concurrent execution of any number of threads over a new store. */
  ghost predicate Execution(cfg: Config, states: seq<Sys>, turns: seq<Turn>) {
    && cfg.limits.Valid()
    && (cfg.snapshot.len.Some? ==> cfg.snapshot.len.value <= cfg.limits.maxInput)
    && |states| == |turns| + 1
    && Quiet(states[0]) && states[0].store == Initial(cfg).store
    && forall k :: 0 <= k < |turns| ==> TurnAt(cfg, states, turns, k)
  }

  lemma {:induction false} ExecutionInv(cfg: Config, states: seq<Sys>, turns: seq<Turn>, k: nat)
    requires Execution(cfg, states, turns) && k < |states|
    ensures SysInv(cfg, states[k])
  {
    if k == 0 {
      InitialInv(cfg);
    } else {
      ExecutionInv(cfg, states, turns, k - 1);
      assert TurnAt(cfg, states, turns, k - 1);
      StepSimulates(cfg, states[k - 1], turns[k - 1].thread, turns[k - 1].event, states[k]);
    }
  }

  // ------------------------------------------------------------------ one linearization point per call

  /** A thread passes its linearization point at most once per call and exactly once before
      it returns, for its own operation and with the reply it returns; nobody else moves. */
  lemma LinearizesOnce(cfg: Config, sys: Sys, i: nat, event: Event, sys': Sys)
    requires i < |sys.threads| && OpsValid(sys.threads[i]) && ThreadStep(cfg, sys, i, event, sys')
    ensures |sys'.threads| == |sys.threads|
    ensures forall j :: 0 <= j < |sys.threads| && j != i ==> sys'.threads[j] == sys.threads[j]
    ensures event.Linearizes? ==>
              && event.thread == i && !sys.threads[i].Idle? && event.op == sys.threads[i].op
              && !sys'.threads[i].Idle? && sys'.threads[i].op == event.op
              && sys.threads[i].Linearized() == None && sys'.threads[i].Linearized() == Some(event.reply)
    ensures event.Internal? && !sys.threads[i].Returning? ==>
              sys'.threads[i].Linearized() == sys.threads[i].Linearized()
    ensures event.Internal? && !sys.threads[i].Idle? && !sys.threads[i].Returning? ==>
              !sys'.threads[i].Idle? && sys'.threads[i].op == sys.threads[i].op
    ensures sys.threads[i].Idle? ==> event.Internal? && sys'.threads[i].Linearized() == None
  {
  }

  /** Thread i is busy with one call from the turn behind its invocation, a, up to state b. */
  ghost predicate OneCall(states: seq<Sys>, turns: seq<Turn>, i: nat, a: nat, b: nat) {
    && |states| == |turns| + 1 && a < b < |states| && (forall k :: a <= k <= b ==> i < |states[k].threads|)
    && states[a].threads[i].Idle? && turns[a].thread == i
    && (forall k :: a < k <= b ==> !states[k].threads[i].Idle?)
    && forall k :: a < k < b ==> !states[k].threads[i].Returning?
  }

  /** Turn n is thread i taking effect with this operation and reply. */
  ghost predicate TakesEffect(turns: seq<Turn>, i: nat, n: nat, op: Op, reply: Reply)
    requires n < |turns|
  {
    && turns[n].thread == i && turns[n].event.Linearizes? && turns[n].event.thread == i
    && turns[n].event.op == op && turns[n].event.reply == reply
  }

  ghost predicate NoEffect(turns: seq<Turn>, i: nat, n: nat)
    requires n < |turns|
  {
    turns[n].thread == i ==> turns[n].event.Internal?
  }

  /** Up to state k of a call: no effect while its reply is open, afterwards exactly one,
      with its operation and its reply. */
  lemma {:induction false} EffectSoFar(cfg: Config, states: seq<Sys>, turns: seq<Turn>, i: nat, a: nat, b: nat, k: nat)
    returns (m: nat)
    requires Execution(cfg, states, turns) && OneCall(states, turns, i, a, b) && a < k <= b
    ensures states[k].threads[i].op == states[a + 1].threads[i].op
    ensures states[k].threads[i].Linearized().None? ==> forall n :: a <= n < k ==> NoEffect(turns, i, n)
    ensures states[k].threads[i].Linearized().Some? ==>
              && a < m < k && TakesEffect(turns, i, m, states[k].threads[i].op, states[k].threads[i].Linearized().value)
              && forall n :: a <= n < k && n != m ==> NoEffect(turns, i, n)
  {
    hide Execution, ThreadStep;
    TurnIs(cfg, states, turns, k - 1);
    LinearizesOnce(cfg, states[k - 1], turns[k - 1].thread, turns[k - 1].event, states[k]);
    m := k - 1;
    if a + 1 < k {
      var before := EffectSoFar(cfg, states, turns, i, a, b, k - 1);
      if states[k - 1].threads[i].Linearized().Some? { m := before; }
    }
  }

  lemma TurnIs(cfg: Config, states: seq<Sys>, turns: seq<Turn>, k: nat)
    requires Execution(cfg, states, turns) && k < |turns|
    ensures TurnAt(cfg, states, turns, k)
  {
  }

  /** Every call that returns has taken effect exactly once, between its invocation and its
      return, with its own operation and the reply it returns. */
  lemma OneEffectPerCall(cfg: Config, states: seq<Sys>, turns: seq<Turn>, i: nat, a: nat, b: nat) returns (m: nat)
    requires Execution(cfg, states, turns) && OneCall(states, turns, i, a, b) && states[b].threads[i].Returning?
    ensures a < m < b && TakesEffect(turns, i, m, states[b].threads[i].op, states[b].threads[i].reply)
    ensures forall n :: a <= n < b && n != m ==> NoEffect(turns, i, n)
    ensures states[b].threads[i].op == states[a + 1].threads[i].op
  {
    m := EffectSoFar(cfg, states, turns, i, a, b, b);
  }

  // ------------------------------------------------------------------ the explaining run

  /** The effects of the first n turns, in order. */
  ghost function Effects(turns: seq<Turn>, n: nat): seq<Event>
    requires n <= |turns|
  {
    if n == 0 then []
    else if turns[n - 1].event.Linearizes? then Effects(turns, n - 1) + [turns[n - 1].event]
    else Effects(turns, n - 1)
  }

  /** The multiset of tagged subscriptions with the counts of the first n. */
  ghost function Tags(ticket: nat, subs: seq<Subscription>, job: Option<nat>, n: nat): multiset<Tagged>
    requires n <= |subs|
  {
    if n == 0 then multiset{}
    else if job.None? || job.value == subs[n - 1].job
    then Tags(ticket, subs, job, n - 1) + multiset{Tagged(ticket, subs[n - 1])}
    else Tags(ticket, subs, job, n - 1)
  }

  lemma {:induction false} TagsCount(ticket: nat, subs: seq<Subscription>, job: Option<nat>, n: nat, t: Tagged)
    requires n <= |subs|
    ensures Tags(ticket, subs, job, n)[t]
            == if job.None? || job.value == t.subscription.job then Count(ticket, subs, n, t) else 0
  {
    if n > 0 { TagsCount(ticket, subs, job, n - 1, t); }
  }

  lemma LeftTags(op: Op, s: Store, reply: Reply) returns (m: multiset<Tagged>)
    ensures forall t :: m[t] == Leaves(op, s, reply, t)
  {
    m := multiset{};
    if op.Unsubscribe? && reply.Done? {
      var n := FindTicket(s.tickets, op.ticket, 0);
      if n < |s.tickets| {
        var r := s.tickets[n];
        m := Tags(r.ticket.value, r.subscribers, Some(op.job), |r.subscribers|);
        forall t ensures m[t] == Leaves(op, s, reply, t) {
          TagsCount(r.ticket.value, r.subscribers, Some(op.job), |r.subscribers|, t);
        }
      }
    }
  }

  lemma TakenTags(op: Op, reply: Reply) returns (m: multiset<Tagged>)
    ensures forall t :: m[t] == Takes(op, reply, t)
  {
    m := multiset{};
    if op.Take? && reply.Taken? {
      m := Tags(op.ticket.value, reply.subscriptions, None, |reply.subscriptions|);
      forall t ensures m[t] == Takes(op, reply, t) {
        TagsCount(op.ticket.value, reply.subscriptions, None, |reply.subscriptions|, t);
      }
    }
  }

  lemma AcceptedTags(op: Op, s: Store, s': Store, reply: Reply) returns (m: multiset<Tagged>)
    ensures forall t :: m[t] == Accepts(op, s, s', reply, t)
  {
    m := if op.Poll? && reply.PendingOn? && s'.subscriptionCount == s.subscriptionCount + 1
         then multiset{Tagged(reply.ticket.value, Subscription(op.job, op.checkpoint))} else multiset{};
  }

  /** An effect on the store extends any history. */
  lemma NextWorld(cfg: Config, w: World, op: Op, alloc: Alloc, reply: Reply, flag': bool, s': Store) returns (w': World)
    requires Effect(cfg, w.flag, w.store, op, alloc, flag', s', reply)
    ensures Next(cfg, w, op, alloc, reply, w') && w'.flag == flag' && w'.store == s'
  {
    var accepted := AcceptedTags(op, w.store, s', reply);
    var left := LeftTags(op, w.store, reply);
    var taken := TakenTags(op, reply);
    w' := World(flag', s', w.requested + Requests(op, reply),
                w.accepted + accepted, w.left + left, w.taken + taken);
  }

  ghost predicate Explains(cfg: Config, run: seq<World>, effects: seq<Event>) {
    && |run| == |effects| + 1 && run[0] == Initial(cfg)
    && forall m :: 0 <= m < |effects| ==> EffectAt(cfg, run, effects, m)
  }

  ghost predicate EffectAt(cfg: Config, run: seq<World>, effects: seq<Event>, m: nat)
    requires |run| == |effects| + 1 && m < |effects|
  {
    effects[m].Linearizes? && Next(cfg, run[m], effects[m].op, effects[m].alloc, effects[m].reply, run[m + 1])
  }

  /** Linearizability. Every execution has a sequential run of its operations, in the order
      of their linearization points and with the replies they return, that ends in the
      state the execution has reached. */
  lemma {:induction false} Linearizable(cfg: Config, states: seq<Sys>, turns: seq<Turn>, k: nat) returns (run: seq<World>)
    requires Execution(cfg, states, turns) && k < |states|
    ensures Explains(cfg, run, Effects(turns, k)) && Run(cfg, run)
    ensures run[|run| - 1].flag == AbsFlag(states[k]) && run[|run| - 1].store == AbsStore(states[k])
  {
    if k == 0 {
      run := [Initial(cfg)];
    } else {
      var before := Linearizable(cfg, states, turns, k - 1);
      var turn := turns[k - 1];
      ExecutionInv(cfg, states, turns, k - 1);
      assert TurnAt(cfg, states, turns, k - 1);
      StepSimulates(cfg, states[k - 1], turn.thread, turn.event, states[k]);
      if turn.event.Internal? {
        run := before;
      } else {
        var last := before[|before| - 1];
        var w := NextWorld(cfg, last, turn.event.op, turn.event.alloc, turn.event.reply,
                           AbsFlag(states[k]), AbsStore(states[k]));
        run := ExtendRun(cfg, before, Effects(turns, k - 1), turn.event, w);
      }
    }
  }

  lemma ExtendRun(cfg: Config, before: seq<World>, effects: seq<Event>, event: Event, w: World) returns (run: seq<World>)
    requires Explains(cfg, before, effects) && Run(cfg, before) && event.Linearizes?
    requires Next(cfg, before[|before| - 1], event.op, event.alloc, event.reply, w)
    ensures Explains(cfg, run, effects + [event]) && Run(cfg, run) && run[|run| - 1] == w
  {
    run := before + [w];
    var all := effects + [event];
    forall m | 0 <= m < |all| ensures EffectAt(cfg, run, all, m) && StepAt(cfg, run, m) {
      if m < |effects| {
        assert EffectAt(cfg, before, effects, m);
        assert StepAt(cfg, before, m);
      }
    }
  }

  // ------------------------------------------------------------------ after a signal

  /** No ticket is pending and none can become so. */
  ghost predicate Settled(sys: Sys) {
    && sys.flag && NoPending(sys.store)
    && forall i :: 0 <= i < |sys.threads| ==> SettledThread(sys.threads[i])
  }

  ghost predicate SettledThread(t: Thread) {
    !t.Prepared? && !t.MustPoison? && (t.Writing? ==> NoPending(t.write))
  }

  /** Releasing the lock after a decided source change settles the store. */
  lemma ReleaseSettles(cfg: Config, sys: Sys, i: nat, event: Event, sys': Sys)
    requires SysInv(cfg, sys) && i < |sys.threads| && OpsValid(sys.threads[i])
    requires sys.threads[i].Holding? && sys.threads[i].decided.Some?
    requires ThreadStep(cfg, sys, i, event, sys')
    ensures Settled(sys')
  {
    ThreadInvAt(cfg, sys, i);
    ChangedKeepsInv(cfg, sys.store);
    forall j | 0 <= j < |sys.threads| ensures SettledThread(sys'.threads[j]) { ThreadInvAt(cfg, sys, j); }
  }

  lemma SettledStays(cfg: Config, sys: Sys, i: nat, event: Event, sys': Sys)
    requires SysInv(cfg, sys) && i < |sys.threads| && OpsValid(sys.threads[i])
    requires Settled(sys) && ThreadStep(cfg, sys, i, event, sys')
    ensures Settled(sys')
  {
    var t := sys.threads[i];
    assert SettledThread(t);
    ThreadInvAt(cfg, sys, i);
    if t.Holding? && t.decided.Some? {
      ReleaseSettles(cfg, sys, i, event, sys');
    } else {
      if t.Holding? { SettledCheck(cfg, sys, i, t.op, event, sys'); }
      SettledMove(cfg, sys, i, event, sys');
    }
  }

  lemma SettledMove(cfg: Config, sys: Sys, i: nat, event: Event, sys': Sys)
    requires i < |sys.threads| && OpsValid(sys.threads[i]) && Settled(sys) && ThreadStep(cfg, sys, i, event, sys')
    requires !(sys.threads[i].Holding? && sys.threads[i].decided.Some?)
    requires sys.threads[i].Holding? ==> SettledThread(sys'.threads[i])
    ensures Settled(sys')
  {
    assert SettledThread(sys.threads[i]);
    assert SettledThread(sys'.threads[i]);
    forall j | 0 <= j < |sys'.threads| ensures SettledThread(sys'.threads[j]) {
      if j != i { assert SettledThread(sys.threads[j]); }
    }
  }

  lemma SettledCheck(cfg: Config, sys: Sys, i: nat, op: Op, event: Event, sys': Sys)
    requires SysInv(cfg, sys) && i < |sys.threads| && sys.threads[i] == Holding(op, None) && op.Valid()
    requires Settled(sys) && CheckStep(cfg, sys, i, op, event, sys')
    ensures SettledThread(sys'.threads[i])
    ensures op.Poll? || op.Supply? || op.Observe? ==> event.Linearizes? && event.reply == Failure(SourceChanged)
  {
    var alloc, write, poison, reply :| CheckOutcome(cfg, sys, i, op, alloc, write, poison, reply, event, sys');
    WhenChangedKeepsInv(cfg, op, sys.store, write, reply);
  }

  /** The store is settled whenever some signal_source_changed has returned. */
  ghost predicate SignalsSettled(sys: Sys) {
    forall i :: 0 <= i < |sys.threads| && sys.threads[i].Returning? && sys.threads[i].op.Signal? ==> Settled(sys)
  }

  lemma StepSettles(cfg: Config, sys: Sys, i: nat, event: Event, sys': Sys)
    requires SysInv(cfg, sys) && i < |sys.threads| && OpsValid(sys.threads[i])
    requires SignalsSettled(sys) && ThreadStep(cfg, sys, i, event, sys')
    ensures SignalsSettled(sys')
  {
    LinearizesOnce(cfg, sys, i, event, sys');
    ThreadInvAt(cfg, sys, i);
    if Settled(sys) {
      SettledStays(cfg, sys, i, event, sys');
    } else if sys.threads[i].Holding? && sys.threads[i].decided.Some? {
      ReleaseSettles(cfg, sys, i, event, sys');
    }
  }

  lemma {:induction false} ExecutionSettles(cfg: Config, states: seq<Sys>, turns: seq<Turn>, k: nat)
    requires Execution(cfg, states, turns) && k < |states|
    ensures SignalsSettled(states[k])
  {
    if k > 0 {
      ExecutionSettles(cfg, states, turns, k - 1);
      ExecutionInv(cfg, states, turns, k - 1);
      TurnIs(cfg, states, turns, k - 1);
      StepSettles(cfg, states[k - 1], turns[k - 1].thread, turns[k - 1].event, states[k]);
    }
  }

  lemma {:induction false} SettledForever(cfg: Config, states: seq<Sys>, turns: seq<Turn>, k: nat, m: nat)
    requires Execution(cfg, states, turns) && k <= m < |states| && Settled(states[k])
    ensures Settled(states[m])
    decreases m
  {
    hide Settled, SysInv, ThreadStep;
    if k < m {
      SettledForever(cfg, states, turns, k, m - 1);
      ExecutionInv(cfg, states, turns, m - 1);
      TurnIs(cfg, states, turns, m - 1);
      SettledStays(cfg, states[m - 1], turns[m - 1].thread, turns[m - 1].event, states[m]);
    }
  }

  /** Once any signal_source_changed has returned, no ticket is ever pending again, and
      every poll, supply and observation that takes effect later fails with SourceChanged. */
  lemma AfterSignal(cfg: Config, states: seq<Sys>, turns: seq<Turn>, k: nat, i: nat, m: nat)
    requires Execution(cfg, states, turns) && k <= m < |states|
    requires i < |states[k].threads| && states[k].threads[i].Returning? && states[k].threads[i].op.Signal?
    ensures states[m].flag && NoPending(states[m].store)
    ensures m < |turns| && turns[m].event.Linearizes?
            && (turns[m].event.op.Poll? || turns[m].event.op.Supply? || turns[m].event.op.Observe?) ==>
              turns[m].event.reply == Failure(SourceChanged)
  {
    ExecutionSettles(cfg, states, turns, k);
    SettledForever(cfg, states, turns, k, m);
    if m < |turns| {
      ExecutionInv(cfg, states, turns, m);
      assert TurnAt(cfg, states, turns, m);
      var event := turns[m].event;
      if event.Linearizes? && (event.op.Poll? || event.op.Supply? || event.op.Observe?) {
        SettledReplies(cfg, states[m], turns[m].thread, event, states[m + 1]);
      }
    }
  }

  lemma SettledReplies(cfg: Config, sys: Sys, i: nat, event: Event, sys': Sys)
    requires SysInv(cfg, sys) && i < |sys.threads| && OpsValid(sys.threads[i])
    requires Settled(sys) && ThreadStep(cfg, sys, i, event, sys')
    requires event.Linearizes? && (event.op.Poll? || event.op.Supply? || event.op.Observe?)
    ensures event.reply == Failure(SourceChanged)
  {
    var t := sys.threads[i];
    assert SettledThread(t);
    if t.Holding? && t.decided.None? { SettledCheck(cfg, sys, i, t.op, event, sys'); }
  }

  /** An operation whose flag check comes after the swap commits no segment, no length and
      wakes no ticket, in the store it writes back. */
  lemma LateCheckCommitsNothing(cfg: Config, sys: Sys, i: nat, event: Event, sys': Sys)
    requires SysInv(cfg, sys) && i < |sys.threads| && OpsValid(sys.threads[i]) && sys.flag
    requires ThreadStep(cfg, sys, i, event, sys') && sys'.threads[i].Writing?
    requires sys.threads[i].Holding? || sys.threads[i].Prepared?
    ensures sys'.threads[i].write.segments == sys.store.segments
    ensures sys'.threads[i].write.observedLen == sys.store.observedLen
    ensures AllKept(sys.store.tickets, sys'.threads[i].write.tickets)
  {
    var t := sys.threads[i];
    ChangedKept(sys.store);
    if t.Holding? && t.decided.None? {
      var alloc, write, poison, reply :| CheckOutcome(cfg, sys, i, t.op, alloc, write, poison, reply, event, sys');
      WhenChangedKept(t.op, sys.store, write, reply);
    }
  }
}
