/** The bounded Range store (pdf-rs/bytes/src/store.rs). Each method is one operation of
    the source, with its loops; its contract is the corresponding step of StoreSpec.

    Interference by other threads is explicit: the atomic flag can be swapped at any
    moment, so methods take booleans saying whether a foreign swap lands just before a
    flag check. Everything else of the state is only touched with the lock held. Fallible
    allocations are the booleans of `Alloc`. */
module RangeStores {
  import opened Basics
  import opened Ranges
  import opened Segments
  import opened Coalesce
  import opened StoreSpec
  import opened StoreInv
  import opened SupplyPrep

  class RangeStore {
    const cfg: Config
    var sourceChanged: bool
    var segments: seq<Segment>
    var cachedBytes: nat
    var tickets: seq<Record>
    var nextTicket: nat
    var observedLen: Option<nat>
    var subscriptionCount: nat

    ghost function State(): Store
      reads this
    {
      Store(segments, cachedBytes, tickets, nextTicket, observedLen, subscriptionCount)
    }

    ghost predicate Valid()
      reads this
    {
      Inv(cfg, State())
    }

    constructor (cfg: Config)
      requires cfg.limits.Valid()
      requires cfg.snapshot.len.Some? ==> cfg.snapshot.len.value <= cfg.limits.maxInput
      ensures this.cfg == cfg && Valid() && !sourceChanged
      ensures State() == Store([], 0, [], 1, cfg.snapshot.len, 0)
    {
      this.cfg := cfg;
      sourceChanged := false;
      segments, cachedBytes, tickets := [], 0, [];
      nextTicket, observedLen, subscriptionCount := 1, cfg.snapshot.len, 0;
    }

    /** RangeStore::new: a snapshot longer than the input limit is refused before anything
        is reserved. `namespace` is the next store number, unless all are used up. */
    static method New(snapshot: Snapshot, limits: Limits, segmentsGranted: bool, ticketsGranted: bool,
                      namespace: Option<nat>)
      returns (r: Result<RangeStore>)
      requires limits.Valid()
      ensures r.Ok? <==>
                && (snapshot.len.Some? ==> snapshot.len.value <= limits.maxInput)
                && segmentsGranted && ticketsGranted && namespace.Some?
      ensures r.Ok? ==>
                && fresh(r.value) && r.value.Valid() && !r.value.sourceChanged
                && r.value.cfg == Config(namespace.value, snapshot, limits)
                && r.value.State() == Store([], 0, [], 1, snapshot.len, 0)
      ensures snapshot.len.Some? && snapshot.len.value > limits.maxInput ==>
                r == Err(ResourceLimit(InputBytes, limits.maxInput, snapshot.len.value))
    {
      if snapshot.len.Some? && snapshot.len.value > limits.maxInput {
        return Err(ResourceLimit(InputBytes, limits.maxInput, snapshot.len.value));
      }
      if !segmentsGranted {
        return Err(ResourceLimit(Allocation, limits.maxSegments, limits.maxSegments));
      }
      if !ticketsGranted {
        return Err(ResourceLimit(Allocation, limits.maxTickets, limits.maxTickets));
      }
      if namespace.None? {
        return Err(InternalState);
      }
      var store := new RangeStore(Config(namespace.value, snapshot, limits));
      return Ok(store);
    }

    // ---------------------------------------------------------------- source change

    /** transition_source_changed. */
    method TransitionSourceChanged()
      modifies this`tickets
      ensures State() == ChangedAll(old(State()))
    {
      var i := 0;
      while i < |tickets|
        invariant 0 <= i <= |tickets| == |old(tickets)|
        invariant forall j :: 0 <= j < |tickets| ==>
                    tickets[j] == if j < i then ChangedRecord(old(tickets)[j]) else old(tickets)[j]
        modifies this`tickets
      {
        if tickets[i].phase == Pending {
          tickets := tickets[i := tickets[i].(phase := Changed)];
        }
        i := i + 1;
      }
      assert tickets == ChangedAll(old(State())).tickets;
    }

    /** source_change_precedes_commit: the compare-exchange of false with false, seen after
        a possible foreign swap. */
    method SourceChangePrecedesCommit(swapped: bool) returns (changed: bool)
      modifies this`sourceChanged
      ensures sourceChanged == changed == (old(sourceChanged) || swapped)
    {
      sourceChanged := sourceChanged || swapped;
      changed := sourceChanged;
    }

    /** synchronize_source_change. */
    method SynchronizeSourceChange(swapped: bool) returns (changed: bool)
      modifies this`sourceChanged, this`tickets
      ensures sourceChanged == changed == (old(sourceChanged) || swapped)
      ensures State() == if changed then ChangedAll(old(State())) else old(State())
    {
      changed := SourceChangePrecedesCommit(swapped);
      if changed {
        TransitionSourceChanged();
      }
    }

    /** poison_source. */
    method PoisonSource()
      modifies this`sourceChanged, this`tickets
      ensures sourceChanged && State() == ChangedAll(old(State()))
    {
      sourceChanged := true;
      TransitionSourceChanged();
    }

    /** signal_source_changed. */
    method SignalSourceChanged() returns (reply: Reply)
      requires Valid()
      modifies this`sourceChanged, this`tickets
      ensures Valid() && sourceChanged && reply == Done && State() == ChangedAll(old(State()))
      ensures NoPending(State())
    {
      ChangedKeepsInv(cfg, State());
      sourceChanged := true;
      TransitionSourceChanged();
      reply := Done;
    }

    // ---------------------------------------------------------------- metadata

    /** reject_if_observed_metadata_conflicts, followed by the error of the caller. */
    method RejectOversize(len: Option<nat>, error: SourceError, swapped: bool) returns (reply: Reply)
      requires Valid() && error.ResourceLimit?
      modifies this`sourceChanged, this`tickets
      ensures old(sourceChanged) || swapped ==>
                sourceChanged && State() == ChangedAll(old(State())) && reply == Failure(SourceChanged)
      ensures !(old(sourceChanged) || swapped) ==>
                if MetadataConflict(old(State()), len)
                then Poisons(old(State()), State(), sourceChanged, reply, SourceChanged)
                else Rejects(old(State()), State(), sourceChanged, reply, error)
    {
      var changed := SynchronizeSourceChange(swapped);
      if changed {
        return Failure(SourceChanged);
      }
      var conflicts := if observedLen.Some? then len != observedLen
                       else len.Some? && |segments| > 0 && segments[|segments| - 1].end > len.value;
      if conflicts {
        PoisonSource();
        return Failure(SourceChanged);
      }
      return Failure(error);
    }

    /** complete_tickets_at_eof: wakes the pending records that wait past the bound length. */
    method CompleteTicketsAtEof(length: nat, readyTickets: seq<Ticket>) returns (ready: seq<Ticket>)
      requires forall i :: 0 <= i < |tickets| ==> WaitsForRest(tickets[i], segments)
      modifies this`tickets
      ensures tickets == Woken(old(tickets), segments, Some(length))
      ensures ready == readyTickets + NewlyReady(old(tickets), tickets, |tickets|)
    {
      ready := readyTickets;
      ghost var before, segs := tickets, segments;
      var records := tickets;
      for i := 0 to |records|
        invariant |records| == |before|
        invariant forall j :: 0 <= j < i ==> records[j] == WokenRecord(before[j], segs, Some(length))
        invariant forall j :: i <= j < |before| ==> records[j] == before[j]
        invariant ready == readyTickets + NewlyReady(before, records, i)
      {
        ghost var mid := records;
        assert WaitsForRest(before[i], segs);
        if records[i].phase == Pending && LastMissing(records[i].missing) > length {
          records := records[i := records[i].(phase := Ready)];
          ready := ready + [records[i].ticket];
        }
        ReadyPrefix(before, mid, records, i);
      }
      tickets := records;
      assert tickets == Woken(before, segs, Some(length));
    }

    /** The length comparison of observe_snapshot and supply: the length to bind, or the
        reply that ends the operation. */
    method CheckLength(len: Option<nat>) returns (ended: Option<Reply>, bound: Option<nat>)
      requires !sourceChanged
      modifies this`sourceChanged, this`tickets
      ensures if TooLong(cfg, old(State()), len) then
                && ended.Some?
                && Rejects(old(State()), State(), sourceChanged, ended.value,
                           ResourceLimit(InputBytes, cfg.limits.maxInput, len.value))
              else if MetadataConflict(old(State()), len)
              then ended.Some? && Poisons(old(State()), State(), sourceChanged, ended.value, SourceChanged)
              else ended.None? && !sourceChanged && State() == old(State()) && bound == Binds(observedLen, len)
    {
      ended, bound := None, None;
      if observedLen.Some? {
        if len != observedLen {
          PoisonSource();
          ended := Some(Failure(SourceChanged));
        }
      } else if len.Some? {
        if len.value > cfg.limits.maxInput {
          ended := Some(Failure(ResourceLimit(InputBytes, cfg.limits.maxInput, len.value)));
        } else if |segments| > 0 && segments[|segments| - 1].end > len.value {
          PoisonSource();
          ended := Some(Failure(SourceChanged));
        } else {
          bound := len;
        }
      }
    }

    /** observe_snapshot. `swapped` says at which of its three flag checks a foreign swap
        has landed: on entry, after locking, before committing. */
    method ObserveSnapshot(snapshot: Snapshot, alloc: Alloc, swapped: (bool, bool, bool)) returns (reply: Reply)
      requires Valid()
      modifies this`sourceChanged, this`tickets, this`observedLen
      ensures Valid()
      ensures old(sourceChanged) || swapped.0 ==>
                sourceChanged && WhenChanged(Observe(snapshot), old(State()), State(), reply)
      ensures !(old(sourceChanged) || swapped.0) ==>
                || ObserveStep(cfg, old(State()), snapshot, alloc, State(), sourceChanged, reply)
                || ((swapped.1 || swapped.2) && snapshot.SameSource(cfg.snapshot)
                    && sourceChanged && WhenChanged(Observe(snapshot), old(State()), State(), reply))
      ensures reply.Supplied? ==> !sourceChanged && !swapped.1 && !swapped.2
    {
      ghost var s := State();
      var changed := SourceChangePrecedesCommit(swapped.0);
      if changed {
        TransitionSourceChanged();
        reply := Failure(SourceChanged);
      } else if snapshot.identity != cfg.snapshot.identity || snapshot.validator != cfg.snapshot.validator {
        sourceChanged := true;
        TransitionSourceChanged();
        reply := Failure(SourceChanged);
      } else {
        reply := ObserveLocked(snapshot, alloc, swapped.1, swapped.2);
      }
      ghost var s' := State();
      if ObserveStep(cfg, s, snapshot, alloc, s', sourceChanged, reply) {
        ObserveKeepsInv(cfg, s, snapshot, alloc, s', sourceChanged, reply);
      } else {
        WhenChangedKeepsInv(cfg, Observe(snapshot), s, s', reply);
      }
    }

    method ObserveLocked(snapshot: Snapshot, alloc: Alloc, swapped: bool, swappedLate: bool) returns (reply: Reply)
      requires Valid() && !sourceChanged && snapshot.SameSource(cfg.snapshot)
      modifies this`sourceChanged, this`tickets, this`observedLen
      ensures || ObserveStep(cfg, old(State()), snapshot, alloc, State(), sourceChanged, reply)
              || ((swapped || swappedLate) && sourceChanged
                  && WhenChanged(Observe(snapshot), old(State()), State(), reply))
      ensures reply.Supplied? ==> !sourceChanged && !swapped && !swappedLate
    {
      var changed := SynchronizeSourceChange(swapped);
      if changed {
        reply := Failure(SourceChanged);
      } else {
        var ended, bound := CheckLength(snapshot.len);
        if ended.Some? {
          reply := ended.value;
        } else if !alloc.ready {
          reply := Failure(ResourceLimit(Allocation, cfg.limits.maxTickets, |tickets|));
        } else {
          changed := SourceChangePrecedesCommit(swappedLate);
          if changed {
            TransitionSourceChanged();
            reply := Failure(SourceChanged);
          } else {
            reply := CommitBound(bound);
          }
        }
      }
    }

    /** The commit shared by observe_snapshot and the already-covered branch of supply. */
    method CommitBound(bound: Option<nat>) returns (reply: Reply)
      requires Valid()
      modifies this`tickets, this`observedLen
      ensures Commits(old(State()), old(segments), bound, State(), reply)
    {
      ghost var s := State();
      PendingFacts();
      var ready: seq<Ticket> := [];
      if bound.Some? {
        observedLen := bound;
        ready := CompleteTicketsAtEof(bound.value, ready);
      } else {
        NothingWakes(cfg, s);
      }
      reply := Supplied(cachedBytes, ready);
    }

    // ---------------------------------------------------------------- supply

    /** supply. `swapped` says at which of its three flag checks a foreign swap has landed:
        on entry, after locking, before committing. */
    method SupplyResponse(response: Response, alloc: Alloc, swapped: (bool, bool, bool)) returns (reply: Reply)
      requires Valid() && response.Valid()
      modifies this
      ensures Valid()
      ensures old(sourceChanged) || swapped.0 ==>
                sourceChanged && WhenChanged(Supply(response), old(State()), State(), reply)
      ensures !(old(sourceChanged) || swapped.0) ==>
                || SupplyStep(cfg, old(State()), response, alloc, State(), sourceChanged, reply)
                || ((swapped.1 || swapped.2) && response.snapshot.SameSource(cfg.snapshot)
                    && sourceChanged && WhenChanged(Supply(response), old(State()), State(), reply))
      ensures reply.Supplied? ==> !sourceChanged && !swapped.1 && !swapped.2
    {
      ghost var s := State();
      var changed := SourceChangePrecedesCommit(swapped.0);
      if changed {
        TransitionSourceChanged();
        reply := Failure(SourceChanged);
      } else if response.snapshot.identity != cfg.snapshot.identity
                || response.snapshot.validator != cfg.snapshot.validator {
        sourceChanged := true;
        TransitionSourceChanged();
        reply := Failure(SourceChanged);
      } else if response.range.len > cfg.limits.maxRead {
        var error := ResourceLimit(ReadBytes, cfg.limits.maxRead, response.range.len);
        reply := RejectOversize(response.snapshot.len, error, swapped.1);
      } else if response.range.End() > cfg.limits.maxInput {
        var error := ResourceLimit(InputBytes, cfg.limits.maxInput, response.range.End());
        reply := RejectOversize(response.snapshot.len, error, swapped.1);
      } else if alloc.responseSeen + response.capacity > cfg.limits.maxResident {
        var error := ResourceLimit(ResidentBytes, cfg.limits.maxResident, Min(U64_MAX, alloc.responseSeen + response.capacity));
        reply := RejectOversize(response.snapshot.len, error, swapped.1);
      } else {
        reply := SupplyLocked(response, alloc, swapped.1, swapped.2);
      }
      ghost var s' := State();
      if SupplyStep(cfg, s, response, alloc, s', sourceChanged, reply) {
        SupplyKeepsInv(cfg, s, response, alloc, s', sourceChanged, reply);
      } else {
        WhenChangedKeepsInv(cfg, Supply(response), s, s', reply);
      }
    }

    /** Lines 477-754: everything under the state lock. */
    method SupplyLocked(response: Response, alloc: Alloc, swapped: bool, swappedLate: bool) returns (reply: Reply)
      requires Valid() && !sourceChanged && response.Valid()
      requires response.snapshot.SameSource(cfg.snapshot) && Oversize(cfg, response, alloc).None?
      modifies this
      ensures || SupplyStep(cfg, old(State()), response, alloc, State(), sourceChanged, reply)
              || ((swapped || swappedLate) && sourceChanged
                  && WhenChanged(Supply(response), old(State()), State(), reply))
      ensures reply.Supplied? ==> !sourceChanged && !swapped && !swappedLate
    {
      var changed := SynchronizeSourceChange(swapped);
      if changed {
        reply := Failure(SourceChanged);
      } else {
        var ended, bound := CheckLength(response.snapshot.len);
        if ended.Some? {
          reply := ended.value;
        } else if !alloc.ready {
          reply := Failure(ResourceLimit(Allocation, cfg.limits.maxTickets, |tickets|));
        } else {
          reply := SupplyBytes(response, alloc, bound, swappedLate);
        }
      }
    }

    /** Lines 519-754: conflicts, coverage, coalescing and the commit. */
    method SupplyBytes(response: Response, alloc: Alloc, bound: Option<nat>, swappedLate: bool) returns (reply: Reply)
      requires Valid() && !sourceChanged && response.Valid()
      requires bound == Binds(observedLen, response.snapshot.len)
      modifies this
      ensures if Conflicts(old(segments), response.range, response.bytes)
              then Poisons(old(State()), State(), sourceChanged, reply, ConflictingBytes)
              else
                || (swappedLate && Poisons(old(State()), State(), sourceChanged, reply, SourceChanged))
                || (reply.Failure? && Rejects(old(State()), State(), sourceChanged, reply, reply.error)
                    && Unsuppliable(cfg, old(State()), response, alloc, reply.error))
                || (!swappedLate && !sourceChanged && Suppliable(cfg, old(State()), response, segments, alloc)
                    && Commits(old(State()), segments, bound, State(), reply))
    {
      var conflict := FindConflict(segments, response.range, response.bytes);
      if conflict {
        PoisonSource();
        reply := Failure(ConflictingBytes);
      } else {
        var covered := RangeIsCovered(segments, response.range);
        if covered {
          CoveredSuppliable(cfg, State(), response, alloc);
          var changed := SourceChangePrecedesCommit(swappedLate);
          if changed {
            TransitionSourceChanged();
            reply := Failure(SourceChanged);
          } else {
            reply := CommitBound(bound);
          }
        } else {
          reply := SupplyUncovered(response, alloc, bound, swappedLate);
        }
      }
    }

    method SupplyUncovered(response: Response, alloc: Alloc, bound: Option<nat>, swappedLate: bool) returns (reply: Reply)
      requires Valid() && !sourceChanged && response.Valid() && !Covered(segments, response.range)
      modifies this
      ensures || (swappedLate && Poisons(old(State()), State(), sourceChanged, reply, SourceChanged))
              || (reply.Failure? && Rejects(old(State()), State(), sourceChanged, reply, reply.error)
                  && Unsuppliable(cfg, old(State()), response, alloc, reply.error))
              || (!swappedLate && !sourceChanged && Suppliable(cfg, old(State()), response, segments, alloc)
                  && Commits(old(State()), segments, bound, State(), reply))
    {
      PendingFacts();
      ghost var s := State();
      var prospective, newCachedBytes, prospect := PrepareSegments(segments, cachedBytes, response, alloc, cfg.limits);
      hide Covered, OverLimit, Rebuilds, SegmentLimit, UpdateLimit, Commits, Inv;
      if prospective.Err? {
        assert LimitedBy(cfg, s, response, prospect, alloc, prospective.error);
        reply := Failure(prospective.error);
      } else {
        var updates := PrepareUpdates(tickets, prospective.value, bound, alloc, cfg.limits);
        if updates.Err? {
          assert LimitedBy(cfg, s, response, prospect, alloc, updates.error);
          reply := Failure(updates.error);
        } else {
          UnlimitedFits(cfg, s, response.range, prospect, alloc);
          var changed := SourceChangePrecedesCommit(swappedLate);
          if changed {
            TransitionSourceChanged();
            reply := Failure(SourceChanged);
          } else {
            reply := CommitPrepared(prospective.value, newCachedBytes, bound, updates.value);
          }
        }
      }
    }

    /** Lines 735-753: installs what was prepared. */
    method CommitPrepared(prospective: seq<Segment>, newCachedBytes: nat, bound: Option<nat>, updates: seq<Update>)
      returns (reply: Reply)
      requires newCachedBytes == Total(prospective)
      requires updates == Updates(tickets, prospective, bound, |tickets|)
      modifies this`segments, this`cachedBytes, this`observedLen, this`tickets
      ensures Commits(old(State()), prospective, bound, State(), reply)
    {
      ghost var before := tickets;
      assert Apply(before, updates, 0) == before && ApplyReady(before, updates, 0) == [];
      hide Apply, ApplyReady, Woken, NewlyReady, Updates;
      segments := prospective;
      cachedBytes := newCachedBytes;
      if bound.Some? {
        observedLen := bound;
      }
      var ready: seq<Ticket> := [];
      for m := 0 to |updates|
        invariant tickets == Apply(before, updates, m)
        invariant ready == ApplyReady(before, updates, m)
        modifies this`tickets
      {
        var update := updates[m];
        var record := tickets[update.index];
        ApplyKeepsTicket(before, updates, m, update.index);
        ApplyOn(before, updates, m);
        if update.remaining.Some? {
          tickets := tickets[update.index := record.(missing := update.remaining.value)];
        } else {
          tickets := tickets[update.index := record.(phase := Ready)];
          ready := ready + [record.ticket];
        }
      }
      AllUpdatesWake(before, prospective, bound);
      UpdatesReady(before, prospective, bound, |before|);
      reply := Supplied(cachedBytes, ready);
    }

    // ---------------------------------------------------------------- poll

    /** ByteSource::poll. */
    method PollRange(range: Range, job: nat, checkpoint: nat, alloc: Alloc, swapped: bool) returns (reply: Reply)
      requires Valid()
      modifies this
      ensures Valid() && sourceChanged == (old(sourceChanged) || swapped)
      ensures sourceChanged ==> WhenChanged(Poll(range, job, checkpoint), old(State()), State(), reply)
      ensures !sourceChanged ==> PollStep(cfg, old(State()), range, job, checkpoint, alloc, State(), reply)
    {
      ghost var s := State();
      var changed := SynchronizeSourceChange(swapped);
      if changed {
        ChangedKeepsInv(cfg, s);
        reply := Failure(SourceChanged);
      } else {
        reply := PollUnchanged(range, job, checkpoint, alloc);
        PollKeepsInv(cfg, s, range, job, checkpoint, alloc, State(), reply);
      }
    }

    method PollUnchanged(range: Range, job: nat, checkpoint: nat, alloc: Alloc) returns (reply: Reply)
      requires Valid()
      modifies this`tickets, this`nextTicket, this`subscriptionCount
      ensures PollStep(cfg, old(State()), range, job, checkpoint, alloc, State(), reply)
    {
      UncoveredGaps(segments, range);
      if range.len > cfg.limits.maxRead {
        return Failure(ResourceLimit(ReadBytes, cfg.limits.maxRead, range.len));
      }
      if observedLen.Some? && range.End() > observedLen.value {
        return EndOfFile;
      }
      if range.End() > cfg.limits.maxInput {
        return Failure(ResourceLimit(InputBytes, cfg.limits.maxInput, range.End()));
      }
      var covered := RangeIsCovered(segments, range);
      if covered {
        var bytes := BorrowRange(segments, range);
        return ReadyBytes(bytes.value);
      }
      var missing := Segments.MissingRanges(segments, range, cfg.limits.maxMissing, alloc.missing);
      if missing.Err? {
        return Failure(missing.error);
      }
      var index := FindWaiting(tickets, missing.value, 0);
      if index < |tickets| {
        reply := JoinTicket(index, missing.value, job, checkpoint, alloc);
      } else {
        reply := OpenTicket(missing.value, job, checkpoint, alloc);
      }
    }

    /** Lines 995-1042: a pending ticket already waits for exactly these ranges. */
    method JoinTicket(index: nat, missing: seq<Range>, job: nat, checkpoint: nat, alloc: Alloc) returns (reply: Reply)
      requires index < |tickets| && tickets[index].missing == missing
      modifies this`tickets, this`subscriptionCount
      ensures JoinStep(cfg, old(State()), index, job, checkpoint, alloc, State(), reply)
    {
      var record := tickets[index];
      var existing := FindJob(record.subscribers, job, 0);
      if existing < |record.subscribers| {
        if record.subscribers[existing].checkpoint != checkpoint {
          return Failure(CheckpointConflict);
        }
        return PendingOn(record.ticket, missing);
      }
      if subscriptionCount >= cfg.limits.maxSubscriptions {
        return Failure(ResourceLimit(TotalSubscriptions, cfg.limits.maxSubscriptions, subscriptionCount + 1));
      }
      if |record.subscribers| >= cfg.limits.maxSubscribers {
        return Failure(ResourceLimit(TicketSubscribers, cfg.limits.maxSubscribers, |record.subscribers| + 1));
      }
      if !alloc.subscribers {
        return Failure(ResourceLimit(Allocation, cfg.limits.maxSubscribers, |record.subscribers| + 1));
      }
      tickets := tickets[index := record.(subscribers := record.subscribers + [Subscription(job, checkpoint)])];
      subscriptionCount := subscriptionCount + 1;
      return PendingOn(record.ticket, missing);
    }

    /** Lines 1044-1087: a new ticket. The number is consumed even if the subscriber vector
        cannot be allocated. */
    method OpenTicket(missing: seq<Range>, job: nat, checkpoint: nat, alloc: Alloc) returns (reply: Reply)
      modifies this`tickets, this`nextTicket, this`subscriptionCount
      ensures OpenStep(cfg, old(State()), missing, job, checkpoint, alloc, State(), reply)
    {
      if |tickets| >= cfg.limits.maxTickets {
        return Failure(ResourceLimit(Tickets, cfg.limits.maxTickets, |tickets| + 1));
      }
      if subscriptionCount >= cfg.limits.maxSubscriptions {
        return Failure(ResourceLimit(TotalSubscriptions, cfg.limits.maxSubscriptions, subscriptionCount + 1));
      }
      var ticket := Ticket(cfg.namespace, nextTicket);
      if nextTicket >= U64_MAX {
        return Failure(ResourceLimit(Tickets, cfg.limits.maxTickets, U64_MAX));
      }
      nextTicket := nextTicket + 1;
      if !alloc.subscribers {
        return Failure(ResourceLimit(Allocation, 1, 1));
      }
      tickets := tickets + [Record(ticket, missing, [Subscription(job, checkpoint)], Pending)];
      subscriptionCount := subscriptionCount + 1;
      return PendingOn(ticket, missing);
    }

    // ---------------------------------------------------------------- tickets

    /** fail_ticket. */
    method FailTicket(ticket: Ticket, error: SourceError, swapped: bool) returns (reply: Reply)
      requires Valid()
      modifies this`sourceChanged, this`tickets
      ensures Valid()
      ensures old(sourceChanged) || swapped ==>
                sourceChanged && WhenChanged(Fail(ticket, error), old(State()), State(), reply)
      ensures !(old(sourceChanged) || swapped) ==>
                FailStep(old(State()), ticket, error, State(), sourceChanged, reply)
    {
      ChangedKeepsInv(cfg, State());
      var changed := SynchronizeSourceChange(swapped);
      ghost var s, poison := State(), false;
      var n := FindTicket(tickets, ticket, 0);
      if n == |tickets| {
        reply := Failure(UnknownTicket);
      } else if error.Integrity() {
        PoisonSource();
        poison, reply := true, Done;
      } else if tickets[n].phase != Pending {
        reply := Failure(TicketAlreadyTerminal);
      } else {
        tickets := tickets[n := tickets[n].(phase := Failed(error))];
        reply := Done;
      }
      assert FailStep(s, ticket, error, State(), poison, reply);
      FailKeepsInv(cfg, s, ticket, error, State(), poison, reply);
    }

    /** Vec::retain with the predicate of unsubscribe. */
    method RetainOtherJobs(subs: seq<Subscription>, job: nat) returns (kept: seq<Subscription>)
      ensures kept == WithoutJob(subs, job, |subs|)
    {
      kept := [];
      for i := 0 to |subs|
        invariant kept == WithoutJob(subs, job, i)
      {
        if subs[i].job != job {
          kept := kept + [subs[i]];
        }
      }
    }

    /** unsubscribe. */
    method UnsubscribeJob(ticket: Ticket, job: nat, swapped: bool) returns (reply: Reply)
      requires Valid()
      modifies this`sourceChanged, this`tickets, this`subscriptionCount
      ensures Valid() && sourceChanged == (old(sourceChanged) || swapped)
      ensures sourceChanged ==> WhenChanged(Unsubscribe(ticket, job), old(State()), State(), reply)
      ensures !sourceChanged ==> UnsubscribeStep(old(State()), ticket, job, State(), reply)
    {
      ChangedKeepsInv(cfg, State());
      var changed := SynchronizeSourceChange(swapped);
      ghost var s := State();
      reply := UnsubscribeLocked(ticket, job);
      UnsubscribeKeepsInv(cfg, s, ticket, job, State(), reply);
    }

    method UnsubscribeLocked(ticket: Ticket, job: nat) returns (reply: Reply)
      requires Valid()
      modifies this`tickets, this`subscriptionCount
      ensures UnsubscribeStep(old(State()), ticket, job, State(), reply)
    {
      var n := FindTicket(tickets, ticket, 0);
      if n == |tickets| {
        reply := Failure(UnknownTicket);
      } else if tickets[n].phase != Pending {
        reply := Failure(TicketAlreadyTerminal);
      } else {
        var record := tickets[n];
        var kept := RetainOtherJobs(record.subscribers, job);
        SumMember(tickets, n, |tickets|);
        WithoutJobShrinks(record.subscribers, job, |record.subscribers|);
        tickets := tickets[n := record.(subscribers := kept, phase := if kept == [] then Abandoned else Pending)];
        subscriptionCount := subscriptionCount - (|record.subscribers| - |kept|);
        reply := Done;
      }
    }

    /** take_subscriptions. */
    method TakeSubscriptions(ticket: Ticket, swapped: bool) returns (reply: Reply)
      requires Valid()
      modifies this`sourceChanged, this`tickets, this`subscriptionCount
      ensures Valid() && sourceChanged == (old(sourceChanged) || swapped)
      ensures sourceChanged ==> WhenChanged(Take(ticket), old(State()), State(), reply)
      ensures !sourceChanged ==> TakeStep(old(State()), ticket, State(), reply)
    {
      ChangedKeepsInv(cfg, State());
      var changed := SynchronizeSourceChange(swapped);
      ghost var s := State();
      reply := TakeLocked(ticket);
      TakeKeepsInv(cfg, s, ticket, State(), reply);
    }

    method TakeLocked(ticket: Ticket) returns (reply: Reply)
      requires Valid()
      modifies this`tickets, this`subscriptionCount
      ensures TakeStep(old(State()), ticket, State(), reply)
    {
      var n := FindTicket(tickets, ticket, 0);
      if n == |tickets| {
        reply := Failure(UnknownTicket);
      } else if tickets[n].phase == Pending {
        reply := Failure(TicketNotTerminal);
      } else {
        var subscribers := tickets[n].subscribers;
        SumMember(tickets, n, |tickets|);
        tickets := tickets[n := tickets[n].(subscribers := [])];
        subscriptionCount := subscriptionCount - |subscribers|;
        reply := Taken(subscribers);
      }
    }

    /** ticket_status. */
    method TicketStatus(ticket: Ticket, swapped: bool) returns (reply: Reply)
      requires Valid()
      modifies this`sourceChanged, this`tickets
      ensures Valid() && sourceChanged == (old(sourceChanged) || swapped)
      ensures sourceChanged ==> WhenChanged(QueryStatus(ticket), old(State()), State(), reply)
      ensures !sourceChanged ==> StatusStep(old(State()), ticket, State(), reply)
    {
      ChangedKeepsInv(cfg, State());
      var changed := SynchronizeSourceChange(swapped);
      var n := FindTicket(tickets, ticket, 0);
      reply := if n == |tickets| then Failure(UnknownTicket) else StatusIs(StatusOf(tickets[n]));
    }

    /** release_ticket. The source subtracts the removed record's subscriber count, which
        the preceding check makes zero. */
    method ReleaseTicket(ticket: Ticket, swapped: bool) returns (reply: Reply)
      requires Valid()
      modifies this`sourceChanged, this`tickets, this`subscriptionCount
      ensures Valid() && sourceChanged == (old(sourceChanged) || swapped)
      ensures sourceChanged ==> WhenChanged(Release(ticket), old(State()), State(), reply)
      ensures !sourceChanged ==> ReleaseStep(old(State()), ticket, State(), reply)
    {
      ChangedKeepsInv(cfg, State());
      var changed := SynchronizeSourceChange(swapped);
      ghost var s := State();
      var n := FindTicket(tickets, ticket, 0);
      if n == |tickets| {
        reply := Failure(UnknownTicket);
      } else if tickets[n].phase == Pending {
        reply := Failure(TicketNotTerminal);
      } else if tickets[n].subscribers != [] {
        reply := Failure(SubscriptionsNotTaken);
      } else {
        var removed := |tickets[n].subscribers|;
        tickets := tickets[..n] + tickets[n + 1..];
        subscriptionCount := subscriptionCount - removed;
        reply := Done;
      }
      ReleaseKeepsInv(cfg, s, ticket, State(), reply);
    }

    lemma PendingFacts()
      requires Valid()
      ensures forall i :: 0 <= i < |tickets| ==> WaitsForRest(tickets[i], segments)
    {
      forall i | 0 <= i < |tickets| ensures WaitsForRest(tickets[i], segments) {
        assert RecordInv(cfg, State(), State().tickets[i]);
        if tickets[i].phase.Pending? { MissingIsRest(segments, tickets[i].missing); }
      }
    }
  }

  /** A pending record's list is canonical, non-empty and already what is left of it. */
  ghost predicate WaitsForRest(r: Record, segs: seq<Segment>) {
    r.phase.Pending? ==> Canonical(r.missing) && r.missing != [] && GapsOf(segs, r.missing) == r.missing
  }

  lemma UnlimitedFits(cfg: Config, s: Store, range: Range, segs': seq<Segment>, alloc: Alloc)
    requires SegmentLimit(cfg.limits, s.segments, range, segs', alloc).None?
    requires forall i :: 0 <= i < |s.tickets| && s.tickets[i].phase.Pending? ==>
               |GapsOf(segs', s.tickets[i].missing)| <= cfg.limits.maxMissing
    ensures !OverLimit(cfg, s, segs')
  {
  }

  lemma CoveredSuppliable(cfg: Config, s: Store, response: Response, alloc: Alloc)
    requires Inv(cfg, s) && response.Valid() && Covered(s.segments, response.range)
    requires !Conflicts(s.segments, response.range, response.bytes)
    ensures Suppliable(cfg, s, response, s.segments, alloc)
  {
    SameSegmentsFit(cfg, s);
    forall k: nat ensures At(s.segments, k) == Updated(s.segments, response.range, response.bytes, k) {
      AtHas(s.segments, k);
    }
  }

  lemma {:induction false} ApplyKeepsTicket(tickets: seq<Record>, updates: seq<Update>, m: nat, j: nat)
    requires m <= |updates| && j < |tickets|
    ensures Apply(tickets, updates, m)[j].ticket == tickets[j].ticket
  {
    if m > 0 { ApplyKeepsTicket(tickets, updates, m - 1, j); }
  }

  lemma AllUpdatesWake(tickets: seq<Record>, segs: seq<Segment>, bound: Option<nat>)
    ensures var u := Updates(tickets, segs, bound, |tickets|);
            Apply(tickets, u, |u|) == Woken(tickets, segs, bound)
  {
    var u := Updates(tickets, segs, bound, |tickets|);
    forall j | 0 <= j < |tickets| ensures Apply(tickets, u, |u|)[j] == Woken(tickets, segs, bound)[j] {
      UpdatesWake(tickets, segs, bound, |tickets|, j);
    }
  }

  lemma {:induction false} ReadySame(before: seq<Record>, a: seq<Record>, b: seq<Record>, n: nat)
    requires n <= |before| == |a| == |b| && forall j :: 0 <= j < n ==> a[j] == b[j]
    ensures NewlyReady(before, a, n) == NewlyReady(before, b, n)
  {
    if n > 0 { ReadySame(before, a, b, n - 1); }
  }

  lemma ReadyPrefix(before: seq<Record>, a: seq<Record>, b: seq<Record>, i: nat)
    requires i < |before| == |a| == |b| && forall j :: 0 <= j < i ==> a[j] == b[j]
    ensures NewlyReady(before, b, i + 1)
            == NewlyReady(before, a, i) + (if before[i].phase.Pending? && b[i].phase.Ready? then [b[i].ticket] else [])
  {
    ReadySame(before, a, b, i);
  }

  lemma {:induction false} NoneReady(a: seq<Record>, n: nat)
    requires n <= |a|
    ensures NewlyReady(a, a, n) == []
  {
    if n > 0 { NoneReady(a, n - 1); }
  }

  /** A commit that binds nothing and adds nothing wakes nobody. */
  lemma NothingWakes(cfg: Config, s: Store)
    requires Inv(cfg, s)
    ensures Woken(s.tickets, s.segments, None) == s.tickets
    ensures NewlyReady(s.tickets, s.tickets, |s.tickets|) == []
  {
    forall i | 0 <= i < |s.tickets| ensures WokenRecord(s.tickets[i], s.segments, None) == s.tickets[i] {
      assert RecordInv(cfg, s, s.tickets[i]);
      if s.tickets[i].phase.Pending? { MissingIsRest(s.segments, s.tickets[i].missing); }
    }
    NoneReady(s.tickets, |s.tickets|);
  }
}
