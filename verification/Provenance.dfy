/** Where the bytes of a Range store come from (pdf-rs/bytes/src/store.rs, lines 415-754 and
    951-1000): over any run, a poll returns exactly what supplies brought. */
module Provenance {
  import opened Basics
  import opened Ranges
  import opened Segments
  import opened StoreSpec
  import opened StoreInv
  import opened StoreRuns
  import opened ByteCache
  import opened CacheRefinement

  /** The view of a new store: nothing cached, nobody waiting. */
  lemma InitialView(cfg: Config)
    ensures View(Initial(cfg).store) == Cache(map[], cfg.snapshot.len, map[], 1, 0)
  {
    assert BytesOf([]) == map[];
    assert WaitingOf([]) == map[];
  }

  /** One step of a run, seen as an answer of the cache. */
  ghost predicate Answered(cfg: Config, w: World, op: Op, alloc: Alloc, reply: Reply, w': World) {
    && Next(cfg, w, op, alloc, reply, w')
    && Answers(cfg, w.flag, View(w.store), op, alloc, w'.flag, View(w'.store), reply)
  }

  /** Every run is one of the cache's. */
  lemma RunIsAnswered(cfg: Config, run: seq<World>, i: nat) returns (op: Op, alloc: Alloc, reply: Reply)
    requires Run(cfg, run) && i + 1 < |run|
    ensures Answered(cfg, run[i], op, alloc, reply, run[i + 1])
  {
    hide Answers, Effect, Inv, View;
    StepsAt(cfg, run, i);
    RunInv(cfg, run, i);
    op, alloc, reply :| Next(cfg, run[i], op, alloc, reply, run[i + 1]);
    EffectIsAnswer(cfg, run[i].flag, run[i].store, op, alloc, run[i + 1].flag, run[i + 1].store, reply);
  }

  /** The step from w to w' is a successful supply that brings byte b for offset k. */
  ghost predicate Brings(cfg: Config, w: World, w': World, k: nat, b: Byte) {
    exists op, alloc, reply :: BringsIn(cfg, w, op, alloc, reply, w', k, b)
  }

  ghost predicate BringsIn(cfg: Config, w: World, op: Op, alloc: Alloc, reply: Reply, w': World, k: nat, b: Byte) {
    && Next(cfg, w, op, alloc, reply, w') && op.Supply? && reply.Supplied?
    && op.response.range.Contains(k) && op.response.bytes[k - op.response.range.start] == b
  }

  /** Only a successful supply changes the bytes, by map union. */
  lemma {:induction false} BytesChange(cfg: Config, changed: bool, c: Cache, op: Op, alloc: Alloc, changed': bool, c': Cache,
                                       reply: Reply)
    requires op.Valid() && Answers(cfg, changed, c, op, alloc, changed', c', reply)
    ensures c'.bytes == if op.Supply? && reply.Supplied? then c.bytes + Payload(op.response) else c.bytes
  {
    hide Polls, Wakes, Fits, Hinders, Contradicts, Disagrees, Payload, IsWithout;
    if op.Poll? && !changed { PollKeepsBytes(cfg, c, op.range, op.job, op.checkpoint, alloc, c', reply); }
  }

  lemma PollKeepsBytes(cfg: Config, c: Cache, range: Range, job: nat, checkpoint: nat, alloc: Alloc, c': Cache, reply: Reply)
    requires Polls(cfg, c, range, job, checkpoint, alloc, c', reply)
    ensures c'.bytes == c.bytes && !reply.Supplied?
  {
    hide Lacking, Starts, Lists;
  }

  /** A byte is new only if the step brings it. */
  lemma {:induction false} OnlySupplyBrings(cfg: Config, w: World, op: Op, alloc: Alloc, reply: Reply, w': World, k: nat)
    requires Answered(cfg, w, op, alloc, reply, w') && k in View(w'.store).bytes
    ensures var b := View(w'.store).bytes[k];
            BringsIn(cfg, w, op, alloc, reply, w', k, b) || (k in View(w.store).bytes && View(w.store).bytes[k] == b)
  {
    hide View, Answers, Step, WhenChanged, Payload;
    BytesChange(cfg, w.flag, View(w.store), op, alloc, w'.flag, View(w'.store), reply);
    if op.Supply? { PayloadIs(op.response); }
  }

  ghost predicate BroughtAt(cfg: Config, run: seq<World>, j: nat, k: nat, b: Byte)
    requires j + 1 < |run|
  {
    Brings(cfg, run[j], run[j + 1], k, b)
  }

  /** Every cached byte was brought by an earlier supply. */
  lemma {:induction false} BytesWereBrought(cfg: Config, run: seq<World>, i: nat, k: nat) returns (j: nat)
    requires Run(cfg, run) && i < |run| && k in View(run[i].store).bytes
    ensures j < i && BroughtAt(cfg, run, j, k, View(run[i].store).bytes[k])
  {
    hide View, Answered, Next;
    if i == 0 {
      InitialView(cfg);
      assert false;
    } else {
      var op, alloc, reply := RunIsAnswered(cfg, run, i - 1);
      OnlySupplyBrings(cfg, run[i - 1], op, alloc, reply, run[i], k);
      if BringsIn(cfg, run[i - 1], op, alloc, reply, run[i], k, View(run[i].store).bytes[k]) {
        j := i - 1;
        assert Brings(cfg, run[j], run[j + 1], k, View(run[i].store).bytes[k]);
      } else {
        j := BytesWereBrought(cfg, run, i - 1, k);
      }
    }
  }

  /** What a supply has brought stays. */
  lemma {:induction false} BroughtStays(cfg: Config, run: seq<World>, j: nat, i: nat, k: nat, b: Byte)
    requires Run(cfg, run) && j < i < |run| && BroughtAt(cfg, run, j, k, b)
    ensures k in View(run[i].store).bytes && View(run[i].store).bytes[k] == b
  {
    hide View, Next, Run, Grows, Inv;
    var op, alloc, reply :| BringsIn(cfg, run[j], op, alloc, reply, run[j + 1], k, b);
    RunInv(cfg, run, j);
    RunInv(cfg, run, j + 1);
    RunInv(cfg, run, i);
    RunOnlyGrows(cfg, run, j + 1, i);
    BroughtIn(cfg, run[j], op, alloc, reply, run[j + 1], k, b);
    StillCached(cfg, run[j + 1], run[i], k);
  }

  lemma {:induction false} BroughtIn(cfg: Config, w: World, op: Op, alloc: Alloc, reply: Reply, w': World, k: nat, b: Byte)
    requires WorldInv(cfg, w) && BringsIn(cfg, w, op, alloc, reply, w', k, b)
    ensures k in View(w'.store).bytes && View(w'.store).bytes[k] == b
  {
    hide View, Answers, Inv, Step, WhenChanged, Payload;
    EffectIsAnswer(cfg, w.flag, w.store, op, alloc, w'.flag, w'.store, reply);
    BytesChange(cfg, w.flag, View(w.store), op, alloc, w'.flag, View(w'.store), reply);
    PayloadIs(op.response);
  }

  lemma StillCached(cfg: Config, w: World, w': World, k: nat)
    requires WorldInv(cfg, w) && WorldInv(cfg, w') && Later(w, w') && k in View(w.store).bytes
    ensures k in View(w'.store).bytes && View(w'.store).bytes[k] == View(w.store).bytes[k]
  {
    BytesAre(w.store.segments);
    BytesAre(w'.store.segments);
  }

  /** A poll that returns bytes returns, for each offset of its range, what an earlier supply
      brought for it, and what every earlier supply brought for it. */
  lemma {:induction false} PollReturnsSupplied(cfg: Config, run: seq<World>, i: nat, op: Op, alloc: Alloc, reply: Reply, k: nat)
    requires Run(cfg, run) && i + 1 < |run| && Next(cfg, run[i], op, alloc, reply, run[i + 1])
    requires op.Poll? && reply.ReadyBytes? && op.range.Contains(k)
    ensures |reply.bytes| == op.range.len
    ensures var b := reply.bytes[k - op.range.start]; exists j :: 0 <= j < i && BroughtAt(cfg, run, j, k, b)
    ensures forall j, b :: 0 <= j < i && BroughtAt(cfg, run, j, k, b) ==> b == reply.bytes[k - op.range.start]
  {
    hide View, BroughtAt, Run, Inv;
    PollReturnsCached(cfg, run, i, op, alloc, reply, k);
    var j := BytesWereBrought(cfg, run, i, k);
    forall j, b | 0 <= j < i && BroughtAt(cfg, run, j, k, b) ensures b == reply.bytes[k - op.range.start] {
      BroughtStays(cfg, run, j, i, k, b);
    }
  }

  lemma {:induction false} PollReturnsCached(cfg: Config, run: seq<World>, i: nat, op: Op, alloc: Alloc, reply: Reply, k: nat)
    requires Run(cfg, run) && i + 1 < |run| && Next(cfg, run[i], op, alloc, reply, run[i + 1])
    requires op.Poll? && reply.ReadyBytes? && op.range.Contains(k)
    ensures |reply.bytes| == op.range.len
    ensures k in View(run[i].store).bytes && View(run[i].store).bytes[k] == reply.bytes[k - op.range.start]
  {
    hide View, Run, Inv, Polls, Changes;
    RunInv(cfg, run, i);
    EffectIsAnswer(cfg, run[i].flag, run[i].store, op, alloc, run[i + 1].flag, run[i + 1].store, reply);
    PollReads(cfg, View(run[i].store), op.range, op.job, op.checkpoint, alloc, View(run[i + 1].store), reply, k);
  }

  lemma PollReads(cfg: Config, c: Cache, range: Range, job: nat, checkpoint: nat, alloc: Alloc, c': Cache, reply: Reply, k: nat)
    requires Polls(cfg, c, range, job, checkpoint, alloc, c', reply) && reply.ReadyBytes? && range.Contains(k)
    ensures |reply.bytes| == range.len && k in c.bytes && c.bytes[k] == reply.bytes[k - range.start]
  {
    hide Lacking, Starts, Lists;
  }
}
