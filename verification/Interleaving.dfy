/** Linearizability of the Range store (pdf-rs/bytes/src/store.rs, lines 338-954): any
    number of threads run operations whose atomic steps (flag compare-exchanges, flag
    swaps, lock acquisitions, locked updates) interleave freely. Every interleaving is
    explained by its operations taking effect one at a time, in the order of one step of
    each, so everything StoreRuns, WakeUps and Subscriptions prove of runs holds of it.

    Updates made with the lock held are invisible until it is released, so the locked part
    of an operation is one write at the release; what it will write is chosen when the flag
    is checked, from the store the lock protects. */
module Interleaving {
  import opened Basics
  import opened Ranges
  import opened Segments
  import opened StoreSpec
  import opened StoreInv
  import opened StoreRuns
  import opened WakeUps

  /** Where a thread is inside one call. */
  datatype Thread =
    | Idle
    | Invoked(op: Op)
    | MustSwap(op: Op)
    | WantLock(op: Op, decided: Option<Reply>)
    | Holding(op: Op, decided: Option<Reply>)
    | Prepared(op: Op, alloc: Alloc, write: Store, reply: Reply)
    | MustPoison(op: Op, write: Store, reply: Reply)
    | Writing(op: Op, write: Store, reply: Reply)
    | Returning(op: Op, reply: Reply)
  {
    predicate HoldsLock() { Holding? || Prepared? || MustPoison? || Writing? }

    /** The reply fixed by the thread's linearization point, once it has passed it. */
    ghost function Linearized(): Option<Reply> {
      match this
      case WantLock(_, decided) => decided
      case Holding(_, decided) => decided
      case MustPoison(_, _, reply) => Some(reply)
      case Writing(_, _, reply) => Some(reply)
      case Returning(_, reply) => Some(reply)
      case _ => None
    }
  }

  datatype Sys = Sys(flag: bool, store: Store, holder: Option<nat>, threads: seq<Thread>)

  /** A step either is internal or is the linearization point of an operation. */
  datatype Event = Internal | Linearizes(thread: nat, op: Op, alloc: Alloc, reply: Reply)

  ghost predicate Moves(sys: Sys, i: nat, to: Thread, sys': Sys)
    requires i < |sys.threads|
  {
    sys' == sys.(threads := sys.threads[i := to])
  }

  // ------------------------------------------------------------------ atomic steps

  /** supply and observe_snapshot check the flag on entry; signal and metadata mismatches
      go on to swap it. */
  ghost predicate EntryStep(cfg: Config, sys: Sys, i: nat, op: Op, event: Event, sys': Sys)
    requires i < |sys.threads|
  {
    if op.Signal? then Moves(sys, i, MustSwap(op), sys') && event.Internal?
    else if op.Supply? || op.Observe? then
      var snapshot := if op.Supply? then op.response.snapshot else op.snapshot;
      if sys.flag then
        && Moves(sys, i, WantLock(op, Some(Failure(SourceChanged))), sys')
        && event.Linearizes? && event.thread == i && event.op == op && event.reply == Failure(SourceChanged)
      else if !snapshot.SameSource(cfg.snapshot) then Moves(sys, i, MustSwap(op), sys') && event.Internal?
      else Moves(sys, i, WantLock(op, None), sys') && event.Internal?
    else Moves(sys, i, WantLock(op, None), sys') && event.Internal?
  }

  ghost predicate SwapStep(sys: Sys, i: nat, op: Op, event: Event, sys': Sys)
    requires i < |sys.threads|
  {
    var reply := if op.Signal? then Done else Failure(SourceChanged);
    && Moves(sys.(flag := true), i, WantLock(op, Some(reply)), sys')
    && event.Linearizes? && event.thread == i && event.op == op && event.reply == reply
  }

  /** The first flag check with the lock held. */
  ghost predicate CheckStep(cfg: Config, sys: Sys, i: nat, op: Op, event: Event, sys': Sys)
    requires i < |sys.threads| && op.Valid()
  {
    exists alloc, write, poison, reply ::
      CheckOutcome(cfg, sys, i, op, alloc, write, poison, reply, event, sys')
  }

  ghost predicate CheckOutcome(cfg: Config, sys: Sys, i: nat, op: Op, alloc: Alloc, write: Store, poison: bool,
                               reply: Reply, event: Event, sys': Sys)
    requires i < |sys.threads| && op.Valid()
  {
    if sys.flag then
      && WhenChanged(op, sys.store, write, reply)
      && Moves(sys, i, Writing(op, write, reply), sys') && event == Linearizes(i, op, alloc, reply)
    else
      && Step(cfg, op, alloc, sys.store, write, poison, reply)
      && if poison then
           Moves(sys, i, MustPoison(op, write, reply), sys') && event == Linearizes(i, op, alloc, reply)
         else if reply.Supplied? then
           Moves(sys, i, Prepared(op, alloc, write, reply), sys') && event.Internal?
         else
           Moves(sys, i, Writing(op, write, reply), sys') && event == Linearizes(i, op, alloc, reply)
  }

  /** The second flag check of supply and observe_snapshot, just before the commit. */
  ghost predicate CommitStep(sys: Sys, i: nat, t: Thread, event: Event, sys': Sys)
    requires i < |sys.threads| && t.Prepared?
  {
    if sys.flag then
      && Moves(sys, i, Writing(t.op, ChangedAll(sys.store), Failure(SourceChanged)), sys')
      && event == Linearizes(i, t.op, t.alloc, Failure(SourceChanged))
    else
      && Moves(sys, i, Writing(t.op, t.write, t.reply), sys')
      && event == Linearizes(i, t.op, t.alloc, t.reply)
  }

  ghost predicate ReleaseLock(sys: Sys, i: nat, write: Store, to: Thread, sys': Sys)
    requires i < |sys.threads|
  {
    sys' == sys.(store := write, holder := None, threads := sys.threads[i := to])
  }

  /** One atomic step of thread i. */
  ghost predicate ThreadStep(cfg: Config, sys: Sys, i: nat, event: Event, sys': Sys)
    requires i < |sys.threads| && OpsValid(sys.threads[i])
  {
    match sys.threads[i]
    case Idle => exists op: Op :: op.Valid() && Moves(sys, i, Invoked(op), sys') && event.Internal?
    case Invoked(op) => EntryStep(cfg, sys, i, op, event, sys')
    case MustSwap(op) => SwapStep(sys, i, op, event, sys')
    case WantLock(op, decided) =>
      sys.holder.None? && Moves(sys.(holder := Some(i)), i, Holding(op, decided), sys') && event.Internal?
    case Holding(op, decided) =>
      if decided.Some? then
        ReleaseLock(sys, i, ChangedAll(sys.store), Returning(op, decided.value), sys') && event.Internal?
      else CheckStep(cfg, sys, i, op, event, sys')
    case Prepared(_, _, _, _) => CommitStep(sys, i, sys.threads[i], event, sys')
    case MustPoison(op, write, reply) =>
      Moves(sys.(flag := true), i, Writing(op, write, reply), sys') && event.Internal?
    case Writing(op, write, reply) =>
      ReleaseLock(sys, i, write, Returning(op, reply), sys') && event.Internal?
    case Returning(_, _) => Moves(sys, i, Idle, sys') && event.Internal?
  }

  ghost predicate OpsValid(t: Thread) { t.Idle? || t.op.Valid() }

  // ------------------------------------------------------------------ abstraction

  /** The flag as an observer of the atomic store sees it: a thread that has decided to
      poison has already taken effect. */
  ghost function AbsFlag(sys: Sys): bool {
    sys.flag || (sys.holder.Some? && sys.holder.value < |sys.threads| && sys.threads[sys.holder.value].MustPoison?)
  }

  /** The store the lock holder is going to leave behind. */
  ghost function Pending(sys: Sys): Store {
    if sys.holder.Some? && sys.holder.value < |sys.threads|
       && (sys.threads[sys.holder.value].MustPoison? || sys.threads[sys.holder.value].Writing?)
    then sys.threads[sys.holder.value].write
    else sys.store
  }

  ghost function AbsStore(sys: Sys): Store {
    if AbsFlag(sys) then ChangedAll(Pending(sys)) else Pending(sys)
  }

  /** What every thread state promises, given the flag and the store. */
  ghost predicate ThreadInv(cfg: Config, flag: bool, store: Store, t: Thread) {
    match t
    case Idle => true
    case Invoked(op) => op.Valid()
    case MustSwap(op) =>
      && op.Valid()
      && (op.Signal? || (op.Supply? && !op.response.snapshot.SameSource(cfg.snapshot))
          || (op.Observe? && !op.snapshot.SameSource(cfg.snapshot)))
    case WantLock(op, decided) => op.Valid() && (decided.Some? ==> flag) && (op.Signal? ==> decided.Some?)
    case Holding(op, decided) => op.Valid() && (decided.Some? ==> flag) && (op.Signal? ==> decided.Some?)
    case Prepared(op, alloc, write, reply) =>
      op.Valid() && reply.Supplied? && (op.Supply? || op.Observe?)
      && Step(cfg, op, alloc, store, write, false, reply)
    case MustPoison(op, write, reply) => op.Valid() && !op.Signal? && Inv(cfg, write) && NoPending(write)
    case Writing(op, write, reply) => op.Valid() && !op.Signal? && Inv(cfg, write)
    case Returning(op, reply) => op.Valid() && (op.Signal? ==> flag)
  }

  ghost predicate SysInv(cfg: Config, sys: Sys) {
    && Inv(cfg, sys.store)
    && (forall i :: 0 <= i < |sys.threads| ==> ThreadInv(cfg, sys.flag, sys.store, sys.threads[i]))
    && (forall i :: 0 <= i < |sys.threads| ==> (sys.threads[i].HoldsLock() <==> sys.holder == Some(i)))
    && (sys.holder.Some? ==> sys.holder.value < |sys.threads|)
  }

  // ------------------------------------------------------------------ invariants

  lemma ThreadInvAt(cfg: Config, sys: Sys, i: nat)
    requires SysInv(cfg, sys) && i < |sys.threads|
    ensures ThreadInv(cfg, sys.flag, sys.store, sys.threads[i])
    ensures sys.threads[i].HoldsLock() <==> sys.holder == Some(i)
  {
  }

  /** A step of thread i that leaves the store alone and gives thread i a sound state. */
  lemma MoveKeepsInv(cfg: Config, sys: Sys, i: nat, to: Thread, sys': Sys)
    requires SysInv(cfg, sys) && i < |sys.threads|
    requires sys'.store == sys.store && sys'.threads == sys.threads[i := to]
    requires sys.flag ==> sys'.flag
    requires ThreadInv(cfg, sys'.flag, sys'.store, to)
    requires to.HoldsLock() <==> sys'.holder == Some(i)
    requires sys'.holder == sys.holder || (sys.holder.None? && sys'.holder == Some(i))
    ensures SysInv(cfg, sys')
  {
    forall j | 0 <= j < |sys.threads|
      ensures ThreadInv(cfg, sys'.flag, sys'.store, sys'.threads[j])
      ensures sys'.threads[j].HoldsLock() <==> sys'.holder == Some(j)
    {
      ThreadInvAt(cfg, sys, j);
    }
  }

  /** The lock holder writes and releases; no other thread depends on the old store. */
  lemma ReleaseKeepsInv(cfg: Config, sys: Sys, i: nat, write: Store, to: Thread, sys': Sys)
    requires SysInv(cfg, sys) && i < |sys.threads| && sys.holder == Some(i)
    requires ReleaseLock(sys, i, write, to, sys')
    requires Inv(cfg, write) && to.Returning? && ThreadInv(cfg, sys.flag, write, to)
    ensures SysInv(cfg, sys')
  {
    forall j | 0 <= j < |sys.threads|
      ensures ThreadInv(cfg, sys'.flag, sys'.store, sys'.threads[j])
      ensures sys'.threads[j].HoldsLock() <==> sys'.holder == Some(j)
    {
      ThreadInvAt(cfg, sys, j);
    }
  }

  // ------------------------------------------------------------------ simulation

  /** The abstract counterpart of one step: nothing, or one operation taking effect. */
  ghost predicate Simulates(cfg: Config, sys: Sys, event: Event, sys': Sys) {
    match event
    case Internal => AbsFlag(sys') == AbsFlag(sys) && AbsStore(sys') == AbsStore(sys)
    case Linearizes(_, op, alloc, reply) =>
      Effect(cfg, AbsFlag(sys), AbsStore(sys), op, alloc, AbsFlag(sys'), AbsStore(sys'), reply)
  }

  lemma ChangedTwice(s: Store)
    ensures ChangedAll(ChangedAll(s)) == ChangedAll(s)
  {
  }

  lemma ChangedNothing(s: Store)
    requires NoPending(s)
    ensures ChangedAll(s) == s
  {
    forall i | 0 <= i < |s.tickets| ensures ChangedAll(s).tickets[i] == s.tickets[i] { }
  }

  /** Setting the flag while it is clear is the source change itself. */
  lemma SwapSimulates(cfg: Config, sys: Sys, i: nat, op: Op, event: Event, sys': Sys)
    requires SysInv(cfg, sys) && i < |sys.threads| && sys.threads[i] == MustSwap(op)
    requires SwapStep(sys, i, op, event, sys')
    ensures SysInv(cfg, sys') && Simulates(cfg, sys, event, sys')
  {
    ThreadInvAt(cfg, sys, i);
    MoveKeepsInv(cfg, sys, i, WantLock(op, Some(event.reply)), sys');
    ChangedTwice(Pending(sys));
    assert Pending(sys') == Pending(sys);
  }

  lemma EntrySimulates(cfg: Config, sys: Sys, i: nat, op: Op, event: Event, sys': Sys)
    requires SysInv(cfg, sys) && i < |sys.threads| && sys.threads[i] == Invoked(op)
    requires EntryStep(cfg, sys, i, op, event, sys')
    ensures SysInv(cfg, sys') && Simulates(cfg, sys, event, sys')
  {
    ThreadInvAt(cfg, sys, i);
    MoveKeepsInv(cfg, sys, i, sys'.threads[i], sys');
    ChangedTwice(Pending(sys));
    assert Pending(sys') == Pending(sys);
  }

  lemma WhenChangedAgain(op: Op, s: Store, s': Store, reply: Reply)
    requires WhenChanged(op, s, s', reply)
    ensures WhenChanged(op, ChangedAll(s), s', reply)
  {
    ChangedTwice(s);
  }

  lemma CheckSimulates(cfg: Config, sys: Sys, i: nat, op: Op, event: Event, sys': Sys)
    requires SysInv(cfg, sys) && i < |sys.threads| && sys.threads[i] == Holding(op, None) && op.Valid()
    requires CheckStep(cfg, sys, i, op, event, sys')
    ensures SysInv(cfg, sys') && Simulates(cfg, sys, event, sys')
  {
    ThreadInvAt(cfg, sys, i);
    var alloc, write, poison, reply :| CheckOutcome(cfg, sys, i, op, alloc, write, poison, reply, event, sys');
    if sys.flag {
      FlaggedCheck(cfg, sys, i, op, alloc, write, reply, event, sys');
    } else {
      ClearCheck(cfg, sys, i, op, alloc, write, poison, reply, event, sys');
    }
  }

  lemma FlaggedCheck(cfg: Config, sys: Sys, i: nat, op: Op, alloc: Alloc, write: Store, reply: Reply, event: Event, sys': Sys)
    requires SysInv(cfg, sys) && i < |sys.threads| && sys.threads[i] == Holding(op, None) && op.Valid()
    requires sys.flag && CheckOutcome(cfg, sys, i, op, alloc, write, false, reply, event, sys')
    ensures SysInv(cfg, sys') && Simulates(cfg, sys, event, sys') && NoPending(write)
  {
    ThreadInvAt(cfg, sys, i);
    WhenChangedKeepsInv(cfg, op, sys.store, write, reply);
    MoveKeepsInv(cfg, sys, i, Writing(op, write, reply), sys');
    WhenChangedAgain(op, sys.store, write, reply);
    ChangedNothing(write);
  }

  lemma ClearCheck(cfg: Config, sys: Sys, i: nat, op: Op, alloc: Alloc, write: Store, poison: bool, reply: Reply,
                   event: Event, sys': Sys)
    requires SysInv(cfg, sys) && i < |sys.threads| && sys.threads[i] == Holding(op, None) && op.Valid()
    requires !sys.flag && CheckOutcome(cfg, sys, i, op, alloc, write, poison, reply, event, sys')
    ensures SysInv(cfg, sys') && Simulates(cfg, sys, event, sys')
  {
    ThreadInvAt(cfg, sys, i);
    StepKeepsInv(cfg, op, alloc, sys.store, write, poison, reply);
    if !poison && reply.Supplied? { SuppliedByCommit(cfg, op, alloc, sys.store, write, reply); }
    MoveKeepsInv(cfg, sys, i, sys'.threads[i], sys');
    if poison { ChangedNothing(write); }
  }

  lemma SuppliedByCommit(cfg: Config, op: Op, alloc: Alloc, s: Store, s': Store, reply: Reply)
    requires op.Valid() && Step(cfg, op, alloc, s, s', false, reply) && reply.Supplied?
    ensures op.Supply? || op.Observe?
  {
  }

  lemma CommitSimulates(cfg: Config, sys: Sys, i: nat, event: Event, sys': Sys)
    requires SysInv(cfg, sys) && i < |sys.threads| && sys.threads[i].Prepared?
    requires CommitStep(sys, i, sys.threads[i], event, sys')
    ensures SysInv(cfg, sys') && Simulates(cfg, sys, event, sys')
  {
    var t := sys.threads[i];
    ThreadInvAt(cfg, sys, i);
    ChangedKeepsInv(cfg, sys.store);
    StepKeepsInv(cfg, t.op, t.alloc, sys.store, t.write, false, t.reply);
    MoveKeepsInv(cfg, sys, i, sys'.threads[i], sys');
    ChangedTwice(sys.store);
  }

  lemma LockedSimulates(cfg: Config, sys: Sys, i: nat, event: Event, sys': Sys)
    requires SysInv(cfg, sys) && i < |sys.threads|
    requires OpsValid(sys.threads[i]) && ThreadStep(cfg, sys, i, event, sys')
    requires sys.threads[i].Writing? || sys.threads[i].MustPoison?
             || (sys.threads[i].Holding? && sys.threads[i].decided.Some?)
    ensures SysInv(cfg, sys') && Simulates(cfg, sys, event, sys')
  {
    var t := sys.threads[i];
    ThreadInvAt(cfg, sys, i);
    ChangedKeepsInv(cfg, sys.store);
    if t.MustPoison? {
      MoveKeepsInv(cfg, sys, i, Writing(t.op, t.write, t.reply), sys');
    } else if t.Writing? {
      ReleaseKeepsInv(cfg, sys, i, t.write, Returning(t.op, t.reply), sys');
    } else {
      ReleaseKeepsInv(cfg, sys, i, ChangedAll(sys.store), Returning(t.op, t.decided.value), sys');
      ChangedTwice(sys.store);
    }
  }

  lemma LocalSimulates(cfg: Config, sys: Sys, i: nat, event: Event, sys': Sys)
    requires SysInv(cfg, sys) && i < |sys.threads|
    requires OpsValid(sys.threads[i]) && ThreadStep(cfg, sys, i, event, sys')
    requires sys.threads[i].Idle? || sys.threads[i].WantLock? || sys.threads[i].Returning?
    ensures SysInv(cfg, sys') && Simulates(cfg, sys, event, sys')
  {
    ThreadInvAt(cfg, sys, i);
    MoveKeepsInv(cfg, sys, i, sys'.threads[i], sys');
    assert Pending(sys') == Pending(sys);
  }

  /** Every atomic step of every thread keeps the invariant and is either invisible or
      exactly one operation taking effect with the reply the thread will return. */
  lemma StepSimulates(cfg: Config, sys: Sys, i: nat, event: Event, sys': Sys)
    requires SysInv(cfg, sys) && i < |sys.threads|
    requires OpsValid(sys.threads[i]) && ThreadStep(cfg, sys, i, event, sys')
    ensures SysInv(cfg, sys') && Simulates(cfg, sys, event, sys')
  {
    match sys.threads[i]
    case Invoked(op) => EntrySimulates(cfg, sys, i, op, event, sys');
    case MustSwap(op) => SwapSimulates(cfg, sys, i, op, event, sys');
    case Holding(op, decided) =>
      if decided.Some? {
        LockedSimulates(cfg, sys, i, event, sys');
      } else {
        CheckSimulates(cfg, sys, i, op, event, sys');
      }
    case Prepared(_, _, _, _) => CommitSimulates(cfg, sys, i, event, sys');
    case MustPoison(_, _, _) => LockedSimulates(cfg, sys, i, event, sys');
    case Writing(_, _, _) => LockedSimulates(cfg, sys, i, event, sys');
    case _ => LocalSimulates(cfg, sys, i, event, sys');
  }
}
