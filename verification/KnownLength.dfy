/** What a Range store knows of the length of its source: it learns it from the first
    snapshot that carries one, and from then on nothing past it is waited for or read
    (pdf-rs/bytes/src/store.rs, lines 366-407, 480-506, 735-748 and 951-973). */
module KnownLength {
  import opened Basics
  import opened Ranges
  import opened Segments
  import opened Coalesce
  import opened StoreSpec
  import opened StoreInv
  import opened StoreRuns

  /** The length an operation brings with it. */
  function LengthOf(op: Op): Option<nat> {
    match op
    case Supply(response) => response.snapshot.len
    case Observe(snapshot) => snapshot.len
    case _ => None
  }

  /** A successful supply or observation with a length leaves the store with that length; one
      without leaves what was known; and what was known before is never another length. */
  lemma SuccessTeaches(cfg: Config, flag: bool, s: Store, op: Op, alloc: Alloc, flag': bool, s': Store, reply: Reply)
    requires Effect(cfg, flag, s, op, alloc, flag', s', reply) && reply.Supplied?
    ensures LengthOf(op).Some? ==> s'.observedLen == LengthOf(op)
    ensures LengthOf(op).None? ==> s'.observedLen == s.observedLen == None
    ensures s.observedLen.Some? ==> LengthOf(op) == s.observedLen
  {
    hide Covered, Conflicts, Suppliable, Unsuppliable, Gaps, GapsOf, At;
  }

  /** Every other effect leaves the known length alone. */
  lemma OnlySuccessTeaches(cfg: Config, flag: bool, s: Store, op: Op, alloc: Alloc, flag': bool, s': Store, reply: Reply)
    requires Effect(cfg, flag, s, op, alloc, flag', s', reply) && !reply.Supplied?
    ensures s'.observedLen == s.observedLen
  {
    TicketEffectKeepsContent(cfg, flag, s, op, alloc, flag', s', reply);
  }

  ghost predicate Teaches(cfg: Config, w: World, w': World, len: nat) {
    exists op, alloc, reply :: TeachesBy(cfg, w, op, alloc, reply, w', len)
  }

  ghost predicate TeachesBy(cfg: Config, w: World, op: Op, alloc: Alloc, reply: Reply, w': World, len: nat) {
    Next(cfg, w, op, alloc, reply, w') && reply.Supplied? && LengthOf(op) == Some(len)
  }

  ghost predicate TaughtAt(cfg: Config, run: seq<World>, m: nat, len: nat)
    requires m + 1 < |run|
  {
    Teaches(cfg, run[m], run[m + 1], len)
  }

  lemma StepTeaches(cfg: Config, w: World, w': World, len: nat)
    requires Steps(cfg, w, w')
    ensures w'.store.observedLen == Some(len) <==> w.store.observedLen == Some(len) || Teaches(cfg, w, w', len)
  {
    hide Effect;
    if Teaches(cfg, w, w', len) {
      var op, alloc, reply :| TeachesBy(cfg, w, op, alloc, reply, w', len);
      SuccessTeaches(cfg, w.flag, w.store, op, alloc, w'.flag, w'.store, reply);
    } else {
      var op, alloc, reply :| Next(cfg, w, op, alloc, reply, w');
      if reply.Supplied? {
        SuccessTeaches(cfg, w.flag, w.store, op, alloc, w'.flag, w'.store, reply);
        assert LengthOf(op) == Some(len) ==> TeachesBy(cfg, w, op, alloc, reply, w', len);
      } else {
        OnlySuccessTeaches(cfg, w.flag, w.store, op, alloc, w'.flag, w'.store, reply);
      }
    }
  }

  /** At any point of any run the store knows a length exactly when its own snapshot has it
      or a successful supply or observation before that point carried it. */
  lemma {:induction false} KnownExactly(cfg: Config, run: seq<World>, n: nat, len: nat)
    requires Run(cfg, run) && n < |run|
    ensures run[n].store.observedLen == Some(len)
            <==> cfg.snapshot.len == Some(len) || exists m :: 0 <= m < n && TaughtAt(cfg, run, m, len)
  {
    hide Run, Steps, Teaches;
    if n == 0 {
      StartsWithSnapshot(cfg, run);
    } else {
      KnownExactly(cfg, run, n - 1, len);
      StepsAt(cfg, run, n - 1);
      StepTeaches(cfg, run[n - 1], run[n], len);
      assert TaughtAt(cfg, run, n - 1, len) <==> Teaches(cfg, run[n - 1], run[n], len);
    }
  }

  lemma StartsWithSnapshot(cfg: Config, run: seq<World>)
    requires Run(cfg, run)
    ensures run[0].store.observedLen == cfg.snapshot.len
  {
  }

  /** Nothing from this offset on is waited for. */
  ghost predicate NoneWaitsPast(s: Store, len: nat) {
    forall i, k: nat ::
      (0 <= i < |s.tickets| && s.tickets[i].phase.Pending? && Hit(s.tickets[i].missing, k)) ==> k < len
  }

  /** Once a length has been carried by a successful supply or observation, no ticket waits
      for anything past it at any later point. */
  lemma NoneWaitsPastLength(cfg: Config, run: seq<World>, m: nat, n: nat, len: nat)
    requires Run(cfg, run) && m < n < |run| && TaughtAt(cfg, run, m, len)
    ensures NoneWaitsPast(run[n].store, len)
  {
    hide Run, Teaches, NoneWaitsPast;
    KnownExactly(cfg, run, n, len);
    RunInv(cfg, run, n);
    NothingPast(cfg, run[n].store, len);
  }

  /** And a poll that ends past it is answered with the end of the file. */
  lemma PollPastLength(cfg: Config, run: seq<World>, m: nat, n: nat, len: nat, op: Op, alloc: Alloc, flag': bool,
                       s': Store, reply: Reply)
    requires Run(cfg, run) && m < n < |run| && TaughtAt(cfg, run, m, len) && !run[n].flag
    requires op.Poll? && op.range.len <= cfg.limits.maxRead && op.range.End() > len
    requires Effect(cfg, false, run[n].store, op, alloc, flag', s', reply)
    ensures reply == EndOfFile
  {
    hide Run, Teaches, Effect;
    KnownExactly(cfg, run, n, len);
    PollsPast(cfg, run[n].store, op, alloc, flag', s', reply, len);
  }

  lemma NothingPast(cfg: Config, s: Store, len: nat)
    requires Inv(cfg, s) && s.observedLen == Some(len)
    ensures NoneWaitsPast(s, len)
  {
    forall i, k: nat | 0 <= i < |s.tickets| && s.tickets[i].phase.Pending? && Hit(s.tickets[i].missing, k) ensures k < len {
      assert RecordInv(cfg, s, s.tickets[i]);
      MissingWithinLast(s.tickets[i].missing);
    }
  }

  lemma PollsPast(cfg: Config, s: Store, op: Op, alloc: Alloc, flag': bool, s': Store, reply: Reply, len: nat)
    requires Effect(cfg, false, s, op, alloc, flag', s', reply) && s.observedLen == Some(len)
    requires op.Poll? && op.range.len <= cfg.limits.maxRead && op.range.End() > len
    ensures reply == EndOfFile
  {
    hide Gaps, At, WhenChanged;
  }
}
