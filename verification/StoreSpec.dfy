/** What each RangeStore operation is allowed to do, in terms of the cached content and
    the ticket records (pdf-rs/bytes/src/store.rs). Everything here is about one
    operation running with the state lock held and the source-changed flag still clear;
    `WhenChanged` is what the same operation does once the flag is set. */
module StoreSpec {
  import opened Basics
  import opened Ranges
  import opened Segments
  import opened Coalesce

  datatype Limits = Limits(
    maxInput: nat, maxRead: nat, maxCached: nat, maxResident: nat, maxSegments: nat,
    maxTickets: nat, maxSubscribers: nat, maxSubscriptions: nat, maxMissing: nat)
  {
    /** RangeStoreLimits::validate, as far as the proofs need it. */
    predicate Valid() {
      && 0 < maxRead <= maxInput <= U64_MAX
      && maxRead <= maxCached <= maxResident
      && 0 < maxSegments && 0 < maxTickets && 0 < maxSubscribers
      && 0 < maxSubscriptions && 0 < maxMissing
    }
  }

  datatype Snapshot = Snapshot(identity: nat, validator: nat, len: Option<nat>) {
    predicate SameSource(other: Snapshot) {
      identity == other.identity && validator == other.validator
    }
  }

  datatype Config = Config(namespace: nat, snapshot: Snapshot, limits: Limits)

  datatype Subscription = Subscription(job: nat, checkpoint: nat)

  datatype Ticket = Ticket(namespace: nat, value: nat)

  datatype Phase = Pending | Ready | Failed(error: SourceError) | Changed | Abandoned

  datatype Record = Record(ticket: Ticket, missing: seq<Range>, subscribers: seq<Subscription>, phase: Phase)

  datatype Store = Store(
    segments: seq<Segment>, cachedBytes: nat, tickets: seq<Record>, nextTicket: nat,
    observedLen: Option<nat>, subscriptionCount: nat)

  /** A host response that passed RangeResponse::new. */
  datatype Response = Response(snapshot: Snapshot, range: Range, bytes: seq<Byte>, capacity: nat) {
    predicate Valid() {
      && |bytes| == range.len && |bytes| <= capacity
      && (snapshot.len.Some? ==> range.End() <= snapshot.len.value)
    }
  }

  /** RangeResponse::new. */
  function NewResponse(snapshot: Snapshot, range: Range, bytes: seq<Byte>, capacity: nat): (r: Result<Response>)
    requires |bytes| <= capacity
    ensures r.Ok? <==> |bytes| == range.len && (snapshot.len.Some? ==> range.End() <= snapshot.len.value)
    ensures r.Ok? ==> r.value.Valid() && r.value.range == range && r.value.bytes == bytes && r.value.snapshot == snapshot
    ensures r.Err? ==> r.error == if |bytes| != range.len then ResponseLengthMismatch else ResponseOutOfBounds
  {
    if |bytes| != range.len then Err(ResponseLengthMismatch)
    else if snapshot.len.Some? && range.End() > snapshot.len.value then Err(ResponseOutOfBounds)
    else Ok(Response(snapshot, range, bytes, capacity))
  }

  /** Which of the operation's fallible reservations succeed, the slack the allocator adds
      to a coalesced backing, and what the resident counter showed when the response and the
      remainder were reserved. */
  datatype Alloc = Alloc(
    ready: bool, affected: bool, merged: bool, prospective: bool, updates: bool, missing: bool, subscribers: bool,
    slack: nat, responseSeen: nat, remainderSeen: nat)

  datatype Status = IsPending(subscribers: nat) | IsReady | IsFailed(error: SourceError) | IsChanged | IsAbandoned

  datatype Reply =
    | Supplied(cachedBytes: nat, ready: seq<Ticket>)
    | ReadyBytes(bytes: seq<Byte>)
    | PendingOn(ticket: Ticket, missing: seq<Range>)
    | EndOfFile
    | Done
    | Taken(subscriptions: seq<Subscription>)
    | StatusIs(status: Status)
    | Failure(error: SourceError)

  // ------------------------------------------------------------------ invariant

  ghost predicate Below(limit: Option<nat>, k: nat) { limit.Some? ==> k <= limit.value }

  /** Last cached offset, exclusive; 0 for an empty list. */
  function LastEnd(segs: seq<Segment>): nat { if segs == [] then 0 else segs[|segs| - 1].end }

  ghost predicate CacheInv(cfg: Config, s: Store) {
    && Sorted(s.segments)
    && s.cachedBytes == Total(s.segments) <= cfg.limits.maxCached
    && |s.segments| <= cfg.limits.maxSegments
    && LastEnd(s.segments) <= cfg.limits.maxInput
    && Below(s.observedLen, LastEnd(s.segments))
    && (s.observedLen.Some? ==> s.observedLen.value <= cfg.limits.maxInput)
  }

  ghost predicate OncePerJob(subs: seq<Subscription>) {
    forall i, j :: 0 <= i < j < |subs| ==> subs[i].job != subs[j].job
  }

  function LastMissing(missing: seq<Range>): nat {
    if missing == [] then 0 else missing[|missing| - 1].End()
  }

  /** The record's missing list is what is still uncached of it. */
  ghost predicate Uncached(segs: seq<Segment>, missing: seq<Range>) {
    forall k: nat :: Hit(missing, k) ==> !Has(segs, k)
  }

  ghost predicate RecordInv(cfg: Config, s: Store, r: Record) {
    && r.ticket.namespace == cfg.namespace && r.ticket.value < s.nextTicket
    && OncePerJob(r.subscribers) && |r.subscribers| <= cfg.limits.maxSubscribers
    && Canonical(r.missing) && 0 < |r.missing| <= cfg.limits.maxMissing
    && (r.phase.Pending? ==>
          && r.subscribers != []
          && Uncached(s.segments, r.missing)
          && Below(s.observedLen, LastMissing(r.missing)))
  }

  /** Sum of the subscriber counts of the first n records. */
  ghost function SubscriberSum(tickets: seq<Record>, n: nat): nat
    requires n <= |tickets|
  {
    if n == 0 then 0 else SubscriberSum(tickets, n - 1) + |tickets[n - 1].subscribers|
  }

  ghost predicate TicketInv(cfg: Config, s: Store) {
    && |s.tickets| <= cfg.limits.maxTickets
    && (forall i :: 0 <= i < |s.tickets| ==> RecordInv(cfg, s, s.tickets[i]))
    && (forall i, j :: 0 <= i < j < |s.tickets| ==> s.tickets[i].ticket.value < s.tickets[j].ticket.value)
    && s.subscriptionCount == SubscriberSum(s.tickets, |s.tickets|) <= cfg.limits.maxSubscriptions
    && s.nextTicket <= U64_MAX
  }

  ghost predicate Inv(cfg: Config, s: Store) {
    cfg.limits.Valid() && CacheInv(cfg, s) && TicketInv(cfg, s)
  }

  // ------------------------------------------------------------------ source change

  ghost function ChangedRecord(r: Record): Record {
    if r.phase.Pending? then r.(phase := Changed) else r
  }

  /** transition_source_changed. */
  ghost function ChangedAll(s: Store): Store {
    s.(tickets := seq(|s.tickets|, i requires 0 <= i < |s.tickets| => ChangedRecord(s.tickets[i])))
  }

  ghost predicate NoPending(s: Store) {
    forall i :: 0 <= i < |s.tickets| ==> !s.tickets[i].phase.Pending?
  }

  // ------------------------------------------------------------------ waking tickets

  /** What a commit makes of one record, given the new segments and the length it binds:
      nothing left to wait for, or waiting past the end of the source, wakes it. */
  ghost function WokenRecord(r: Record, segs: seq<Segment>, bound: Option<nat>): Record {
    if !r.phase.Pending? then r
    else
      var rest := GapsOf(segs, r.missing);
      if rest == [] || (bound.Some? && LastMissing(rest) > bound.value) then r.(phase := Ready)
      else r.(missing := rest)
  }

  ghost function Woken(tickets: seq<Record>, segs: seq<Segment>, bound: Option<nat>): (w: seq<Record>)
    ensures |w| == |tickets|
  {
    seq(|tickets|, i requires 0 <= i < |tickets| => WokenRecord(tickets[i], segs, bound))
  }

  /** The tickets among the first n that became ready, in order. */
  ghost function NewlyReady(before: seq<Record>, after: seq<Record>, n: nat): seq<Ticket>
    requires n <= |before| == |after|
  {
    if n == 0 then []
    else if before[n - 1].phase.Pending? && after[n - 1].phase.Ready?
    then NewlyReady(before, after, n - 1) + [after[n - 1].ticket]
    else NewlyReady(before, after, n - 1)
  }

  /** The length a snapshot binds: only the first known length binds. */
  ghost function Binds(observed: Option<nat>, len: Option<nat>): Option<nat> {
    if observed.None? then len else None
  }

  /** A commit: new segments, the length they bind, and the tickets they wake. */
  ghost predicate Commits(s: Store, segs: seq<Segment>, bound: Option<nat>, s': Store, reply: Reply) {
    && s' == s.(segments := segs, cachedBytes := Total(segs),
                observedLen := if bound.Some? then bound else s.observedLen,
                tickets := Woken(s.tickets, segs, bound))
    && reply == Supplied(s'.cachedBytes, NewlyReady(s.tickets, s'.tickets, |s.tickets|))
  }

  // ------------------------------------------------------------------ supply and observe

  /** The new metadata contradicts what is bound or cached. */
  ghost predicate MetadataConflict(s: Store, len: Option<nat>) {
    if s.observedLen.Some? then len != s.observedLen
    else len.Some? && LastEnd(s.segments) > len.value
  }

  /** A canonical list holding the old content updated by the response. */
  ghost predicate Rebuilds(segs: seq<Segment>, response: Response, segs': seq<Segment>)
    requires response.Valid()
  {
    && Sorted(segs')
    && (forall k: nat :: At(segs', k) == Updated(segs, response.range, response.bytes, k))
  }

  ghost predicate OverLimit(cfg: Config, s: Store, segs': seq<Segment>) {
    || Total(segs') > cfg.limits.maxCached
    || |segs'| > cfg.limits.maxSegments
    || exists i :: 0 <= i < |s.tickets| && s.tickets[i].phase.Pending?
         && |GapsOf(segs', s.tickets[i].missing)| > cfg.limits.maxMissing
  }

  /** Responses rejected before they are queued: their metadata is still checked. */
  ghost function Oversize(cfg: Config, response: Response, alloc: Alloc): Option<SourceError> {
    if response.range.len > cfg.limits.maxRead then
      Some(ResourceLimit(ReadBytes, cfg.limits.maxRead, response.range.len))
    else if response.range.End() > cfg.limits.maxInput then
      Some(ResourceLimit(InputBytes, cfg.limits.maxInput, response.range.End()))
    else ResidentLimit(cfg.limits, alloc.responseSeen + response.capacity)
  }

  ghost function ResidentLimit(limits: Limits, attempted: nat): Option<SourceError> {
    if attempted > limits.maxResident then Some(ResourceLimit(ResidentBytes, limits.maxResident, Min(U64_MAX, attempted)))
    else None
  }

  ghost predicate Poisons(s: Store, s': Store, poison: bool, reply: Reply, error: SourceError) {
    poison && s' == ChangedAll(s) && reply == Failure(error)
  }

  ghost predicate Rejects(s: Store, s': Store, poison: bool, reply: Reply, error: SourceError) {
    !poison && s' == s && reply == Failure(error) && error.ResourceLimit?
  }

  // ------------------------------------------------------------------ the limits of a supply

  /** Length of the segment that holds offset k, among the first n. */
  ghost function MergedLen(segs: seq<Segment>, n: nat, k: nat): nat
    requires n <= |segs|
  {
    if n == 0 then 0 else if segs[n - 1].Contains(k) then |segs[n - 1].backing| else MergedLen(segs, n - 1, k)
  }

  ghost predicate TouchesAny(segs: seq<Segment>, range: Range) {
    exists i :: 0 <= i < |segs| && Touches(segs[i], range)
  }

  /** Coalescing `len` bytes: the claim of the remainder, the vector, and its capacity
      against the claim. */
  ghost function UnionLimit(limits: Limits, len: nat, alloc: Alloc): (e: Option<SourceError>)
    ensures e.Some? ==> e.value.ResourceLimit?
  {
    if alloc.remainderSeen + len > limits.maxResident then ResidentLimit(limits, alloc.remainderSeen + len)
    else if !alloc.merged then Some(ResourceLimit(Allocation, limits.maxResident, len))
    else ResidentLimit(limits, alloc.remainderSeen + len + alloc.slack)
  }

  /** The first limit or refused reservation on the way to the new segments, in the order
      the source meets them. */
  ghost function SegmentLimit(limits: Limits, segs: seq<Segment>, range: Range, segs': seq<Segment>, alloc: Alloc):
      (e: Option<SourceError>)
    ensures e.Some? ==> e.value.ResourceLimit?
  {
    if !alloc.affected then Some(ResourceLimit(Allocation, limits.maxSegments, |segs|))
    else if Total(segs') > limits.maxCached then
      Some(ResourceLimit(LimitKind.CachedBytes, limits.maxCached, Total(segs')))
    else if |segs'| > limits.maxSegments then Some(ResourceLimit(LimitKind.Segments, limits.maxSegments, |segs'|))
    else
      var merging := if TouchesAny(segs, range) then UnionLimit(limits, MergedLen(segs', |segs'|, range.start), alloc) else None;
      if merging.Some? then merging
      else if !alloc.prospective then Some(ResourceLimit(Allocation, limits.maxSegments, |segs'|))
      else None
  }

  /** The first limit met by the pending tickets from i on. */
  ghost function MissingLimit(limits: Limits, tickets: seq<Record>, segs': seq<Segment>, alloc: Alloc, i: nat):
      (e: Option<SourceError>)
    requires i <= |tickets|
    ensures e.Some? ==> e.value.ResourceLimit?
    decreases |tickets| - i
  {
    if i == |tickets| then None
    else if tickets[i].phase.Pending?
            && MissingOutcome(GapsOf(segs', tickets[i].missing), limits.maxMissing, alloc.missing).Err? then
      Some(MissingOutcome(GapsOf(segs', tickets[i].missing), limits.maxMissing, alloc.missing).error)
    else MissingLimit(limits, tickets, segs', alloc, i + 1)
  }

  ghost function UpdateLimit(limits: Limits, tickets: seq<Record>, segs': seq<Segment>, alloc: Alloc):
      (e: Option<SourceError>)
    ensures e.Some? ==> e.value.ResourceLimit?
  {
    if !alloc.updates then Some(ResourceLimit(Allocation, limits.maxTickets, |tickets|))
    else MissingLimit(limits, tickets, segs', alloc, 0)
  }

  /** The first reason not to commit the new segments, if there is one. */
  ghost function SupplyLimit(limits: Limits, s: Store, range: Range, segs': seq<Segment>, alloc: Alloc):
      (e: Option<SourceError>)
    ensures e.Some? ==> e.value.ResourceLimit?
  {
    var preparing := SegmentLimit(limits, s.segments, range, segs', alloc);
    if preparing.Some? then preparing else UpdateLimit(limits, s.tickets, segs', alloc)
  }

  /** supply, lines 415-754. */
  ghost predicate SupplyStep(cfg: Config, s: Store, response: Response, alloc: Alloc,
                             s': Store, poison: bool, reply: Reply)
    requires response.Valid()
  {
    var len := response.snapshot.len;
    if !response.snapshot.SameSource(cfg.snapshot) then Poisons(s, s', poison, reply, SourceChanged)
    else if Oversize(cfg, response, alloc).Some? then
      if MetadataConflict(s, len) then Poisons(s, s', poison, reply, SourceChanged)
      else Rejects(s, s', poison, reply, Oversize(cfg, response, alloc).value)
    else if TooLong(cfg, s, len) then Rejects(s, s', poison, reply, ResourceLimit(InputBytes, cfg.limits.maxInput, len.value))
    else if MetadataConflict(s, len) then Poisons(s, s', poison, reply, SourceChanged)
    else if !alloc.ready then Rejects(s, s', poison, reply, ResourceLimit(Allocation, cfg.limits.maxTickets, |s.tickets|))
    else if Conflicts(s.segments, response.range, response.bytes) then
      Poisons(s, s', poison, reply, ConflictingBytes)
    else
      || (!poison && Commits(s, s'.segments, Binds(s.observedLen, len), s', reply)
          && Suppliable(cfg, s, response, s'.segments, alloc))
      || (reply.Failure? && Rejects(s, s', poison, reply, reply.error) && Unsuppliable(cfg, s, response, alloc, reply.error))
  }

  ghost predicate TooLong(cfg: Config, s: Store, len: Option<nat>) {
    s.observedLen.None? && len.Some? && len.value > cfg.limits.maxInput
  }

  /** The segments a successful supply installs: the old ones if they cover the response,
      otherwise the rebuilt list, no limit having been met on the way to it. */
  ghost predicate Suppliable(cfg: Config, s: Store, response: Response, segs': seq<Segment>, alloc: Alloc)
    requires response.Valid()
  {
    && Rebuilds(s.segments, response, segs') && !OverLimit(cfg, s, segs')
    && if Covered(s.segments, response.range) then segs' == s.segments
       else SupplyLimit(cfg.limits, s, response.range, segs', alloc).None?
  }

  /** Why a conflict-free supply is rejected: the first limit on the way to its segments. */
  ghost predicate Unsuppliable(cfg: Config, s: Store, response: Response, alloc: Alloc, error: SourceError)
    requires response.Valid()
  {
    && !Covered(s.segments, response.range)
    && exists segs' :: LimitedBy(cfg, s, response, segs', alloc, error)
  }

  ghost predicate LimitedBy(cfg: Config, s: Store, response: Response, segs': seq<Segment>, alloc: Alloc, error: SourceError)
    requires response.Valid()
  {
    Rebuilds(s.segments, response, segs') && SupplyLimit(cfg.limits, s, response.range, segs', alloc) == Some(error)
  }

  /** observe_snapshot, lines 341-408. */
  ghost predicate ObserveStep(cfg: Config, s: Store, snapshot: Snapshot, alloc: Alloc,
                              s': Store, poison: bool, reply: Reply)
  {
    var len := snapshot.len;
    if !snapshot.SameSource(cfg.snapshot) then Poisons(s, s', poison, reply, SourceChanged)
    else if TooLong(cfg, s, len) then Rejects(s, s', poison, reply, ResourceLimit(InputBytes, cfg.limits.maxInput, len.value))
    else if MetadataConflict(s, len) then Poisons(s, s', poison, reply, SourceChanged)
    else if !alloc.ready then Rejects(s, s', poison, reply, ResourceLimit(Allocation, cfg.limits.maxTickets, |s.tickets|))
    else !poison && Commits(s, s.segments, Binds(s.observedLen, len), s', reply)
  }

  // ------------------------------------------------------------------ poll

  /** The bytes are the cached content of the range. */
  ghost predicate IsRead(segs: seq<Segment>, range: Range, bytes: seq<Byte>) {
    |bytes| == range.len && forall k: nat :: range.Contains(k) ==> At(segs, k) == Some(bytes[k - range.start])
  }

  /** Index of the first pending record waiting for exactly these ranges, from i on. */
  function FindWaiting(tickets: seq<Record>, missing: seq<Range>, i: nat): (n: nat)
    requires i <= |tickets|
    ensures i <= n <= |tickets|
    ensures n < |tickets| ==> tickets[n].phase.Pending? && tickets[n].missing == missing
    ensures forall j :: i <= j < n ==> !(tickets[j].phase.Pending? && tickets[j].missing == missing)
    decreases |tickets| - i
  {
    if i == |tickets| then i
    else if tickets[i].phase.Pending? && tickets[i].missing == missing then i
    else FindWaiting(tickets, missing, i + 1)
  }

  /** Index of the job's subscription, from i on. */
  function FindJob(subs: seq<Subscription>, job: nat, i: nat): (n: nat)
    requires i <= |subs|
    ensures i <= n <= |subs|
    ensures n < |subs| ==> subs[n].job == job
    ensures forall j :: i <= j < n ==> subs[j].job != job
    decreases |subs| - i
  {
    if i == |subs| then i else if subs[i].job == job then i else FindJob(subs, job, i + 1)
  }

  /** Joining an existing pending ticket. */
  ghost predicate JoinStep(cfg: Config, s: Store, n: nat, job: nat, checkpoint: nat, alloc: Alloc,
                           s': Store, reply: Reply)
    requires n < |s.tickets|
  {
    var record := s.tickets[n];
    var at := FindJob(record.subscribers, job, 0);
    if at < |record.subscribers| then
      && s' == s
      && reply == if record.subscribers[at].checkpoint == checkpoint
                  then PendingOn(record.ticket, record.missing) else Failure(CheckpointConflict)
    else if s.subscriptionCount >= cfg.limits.maxSubscriptions then
      s' == s && reply == Failure(ResourceLimit(TotalSubscriptions, cfg.limits.maxSubscriptions, s.subscriptionCount + 1))
    else if |record.subscribers| >= cfg.limits.maxSubscribers then
      s' == s && reply == Failure(ResourceLimit(TicketSubscribers, cfg.limits.maxSubscribers, |record.subscribers| + 1))
    else if !alloc.subscribers then
      s' == s && reply == Failure(ResourceLimit(Allocation, cfg.limits.maxSubscribers, |record.subscribers| + 1))
    else
      && s' == s.(tickets := s.tickets[n := record.(subscribers := record.subscribers + [Subscription(job, checkpoint)])],
                  subscriptionCount := s.subscriptionCount + 1)
      && reply == PendingOn(record.ticket, record.missing)
  }

  /** Opening a new ticket. */
  ghost predicate OpenStep(cfg: Config, s: Store, missing: seq<Range>, job: nat, checkpoint: nat, alloc: Alloc,
                           s': Store, reply: Reply)
  {
    if |s.tickets| >= cfg.limits.maxTickets then
      s' == s && reply == Failure(ResourceLimit(Tickets, cfg.limits.maxTickets, |s.tickets| + 1))
    else if s.subscriptionCount >= cfg.limits.maxSubscriptions then
      s' == s && reply == Failure(ResourceLimit(TotalSubscriptions, cfg.limits.maxSubscriptions, s.subscriptionCount + 1))
    else if s.nextTicket >= U64_MAX then
      s' == s && reply == Failure(ResourceLimit(Tickets, cfg.limits.maxTickets, U64_MAX))
    else if !alloc.subscribers then
      s' == s.(nextTicket := s.nextTicket + 1) && reply == Failure(ResourceLimit(Allocation, 1, 1))
    else
      var ticket := Ticket(cfg.namespace, s.nextTicket);
      && s' == s.(tickets := s.tickets + [Record(ticket, missing, [Subscription(job, checkpoint)], Pending)],
                  nextTicket := s.nextTicket + 1, subscriptionCount := s.subscriptionCount + 1)
      && reply == PendingOn(ticket, missing)
  }

  /** poll, lines 951-1088. */
  ghost predicate PollStep(cfg: Config, s: Store, range: Range, job: nat, checkpoint: nat, alloc: Alloc,
                           s': Store, reply: Reply)
  {
    if range.len > cfg.limits.maxRead then
      s' == s && reply == Failure(ResourceLimit(ReadBytes, cfg.limits.maxRead, range.len))
    else if s.observedLen.Some? && range.End() > s.observedLen.value then
      s' == s && reply == EndOfFile
    else if range.End() > cfg.limits.maxInput then
      s' == s && reply == Failure(ResourceLimit(InputBytes, cfg.limits.maxInput, range.End()))
    else if forall k: nat :: range.Contains(k) ==> At(s.segments, k).Some? then
      s' == s && reply.ReadyBytes? && IsRead(s.segments, range, reply.bytes)
    else
      var missing := Gaps(s.segments, range);
      if MissingOutcome(missing, cfg.limits.maxMissing, alloc.missing).Err? then
        s' == s && reply == Failure(MissingOutcome(missing, cfg.limits.maxMissing, alloc.missing).error)
      else
        var n := FindWaiting(s.tickets, missing, 0);
        if n < |s.tickets| then JoinStep(cfg, s, n, job, checkpoint, alloc, s', reply)
        else OpenStep(cfg, s, missing, job, checkpoint, alloc, s', reply)
  }

  // ------------------------------------------------------------------ ticket operations

  /** Index of the record with this ticket, from i on. */
  function FindTicket(tickets: seq<Record>, ticket: Ticket, i: nat): (n: nat)
    requires i <= |tickets|
    ensures i <= n <= |tickets|
    ensures n < |tickets| ==> tickets[n].ticket == ticket
    ensures forall j :: i <= j < n ==> tickets[j].ticket != ticket
    decreases |tickets| - i
  {
    if i == |tickets| then i else if tickets[i].ticket == ticket then i else FindTicket(tickets, ticket, i + 1)
  }

  /** Vec::retain with the predicate of unsubscribe, over the first n subscriptions. */
  ghost function WithoutJob(subs: seq<Subscription>, job: nat, n: nat): seq<Subscription>
    requires n <= |subs|
  {
    if n == 0 then []
    else if subs[n - 1].job == job then WithoutJob(subs, job, n - 1)
    else WithoutJob(subs, job, n - 1) + [subs[n - 1]]
  }

  /** fail_ticket, lines 757-779. */
  ghost predicate FailStep(s: Store, ticket: Ticket, error: SourceError, s': Store, poison: bool, reply: Reply) {
    var n := FindTicket(s.tickets, ticket, 0);
    if n == |s.tickets| then !poison && s' == s && reply == Failure(UnknownTicket)
    else if error.Integrity() then poison && s' == ChangedAll(s) && reply == Done
    else if !s.tickets[n].phase.Pending? then !poison && s' == s && reply == Failure(TicketAlreadyTerminal)
    else
      && !poison && reply == Done
      && s' == s.(tickets := s.tickets[n := s.tickets[n].(phase := Failed(error))])
  }

  /** unsubscribe, lines 796-821. */
  ghost predicate UnsubscribeStep(s: Store, ticket: Ticket, job: nat, s': Store, reply: Reply) {
    var n := FindTicket(s.tickets, ticket, 0);
    if n == |s.tickets| then s' == s && reply == Failure(UnknownTicket)
    else if !s.tickets[n].phase.Pending? then s' == s && reply == Failure(TicketAlreadyTerminal)
    else
      var record := s.tickets[n];
      var kept := WithoutJob(record.subscribers, job, |record.subscribers|);
      && reply == Done
      && s.subscriptionCount - (|record.subscribers| - |kept|) >= 0
      && s' == s.(tickets := s.tickets[n := record.(subscribers := kept,
                                                    phase := if kept == [] then Abandoned else Pending)],
                  subscriptionCount := s.subscriptionCount - (|record.subscribers| - |kept|))
  }

  /** take_subscriptions, lines 828-846. */
  ghost predicate TakeStep(s: Store, ticket: Ticket, s': Store, reply: Reply) {
    var n := FindTicket(s.tickets, ticket, 0);
    if n == |s.tickets| then s' == s && reply == Failure(UnknownTicket)
    else if s.tickets[n].phase.Pending? then s' == s && reply == Failure(TicketNotTerminal)
    else
      && reply == Taken(s.tickets[n].subscribers)
      && s.subscriptionCount - |s.tickets[n].subscribers| >= 0
      && s' == s.(tickets := s.tickets[n := s.tickets[n].(subscribers := [])],
                  subscriptionCount := s.subscriptionCount - |s.tickets[n].subscribers|)
  }

  function StatusOf(r: Record): Status {
    match r.phase
    case Pending => IsPending(|r.subscribers|)
    case Ready => IsReady
    case Failed(error) => IsFailed(error)
    case Changed => IsChanged
    case Abandoned => IsAbandoned
  }

  /** ticket_status, lines 849-866. */
  ghost predicate StatusStep(s: Store, ticket: Ticket, s': Store, reply: Reply) {
    var n := FindTicket(s.tickets, ticket, 0);
    && s' == s
    && reply == if n == |s.tickets| then Failure(UnknownTicket) else StatusIs(StatusOf(s.tickets[n]))
  }

  /** release_ticket, lines 869-891. */
  ghost predicate ReleaseStep(s: Store, ticket: Ticket, s': Store, reply: Reply) {
    var n := FindTicket(s.tickets, ticket, 0);
    if n == |s.tickets| then s' == s && reply == Failure(UnknownTicket)
    else if s.tickets[n].phase.Pending? then s' == s && reply == Failure(TicketNotTerminal)
    else if s.tickets[n].subscribers != [] then s' == s && reply == Failure(SubscriptionsNotTaken)
    else s' == s.(tickets := s.tickets[..n] + s.tickets[n + 1..]) && reply == Done
  }

  // ------------------------------------------------------------------ operations

  datatype Op =
    | Supply(response: Response)
    | Observe(snapshot: Snapshot)
    | Poll(range: Range, job: nat, checkpoint: nat)
    | Fail(ticket: Ticket, error: SourceError)
    | Signal
    | Unsubscribe(ticket: Ticket, job: nat)
    | Take(ticket: Ticket)
    | QueryStatus(ticket: Ticket)
    | Release(ticket: Ticket)
  {
    predicate Valid() { Supply? ==> response.Valid() }
  }

  /** One operation whose flag check found the flag clear. */
  ghost predicate Step(cfg: Config, op: Op, alloc: Alloc, s: Store, s': Store, poison: bool, reply: Reply)
    requires op.Valid()
  {
    match op
    case Supply(response) => SupplyStep(cfg, s, response, alloc, s', poison, reply)
    case Observe(snapshot) => ObserveStep(cfg, s, snapshot, alloc, s', poison, reply)
    case Poll(range, job, checkpoint) => !poison && PollStep(cfg, s, range, job, checkpoint, alloc, s', reply)
    case Fail(ticket, error) => FailStep(s, ticket, error, s', poison, reply)
    case Signal => poison && s' == ChangedAll(s) && reply == Done
    case Unsubscribe(ticket, job) => !poison && UnsubscribeStep(s, ticket, job, s', reply)
    case Take(ticket) => !poison && TakeStep(s, ticket, s', reply)
    case QueryStatus(ticket) => !poison && StatusStep(s, ticket, s', reply)
    case Release(ticket) => !poison && ReleaseStep(s, ticket, s', reply)
  }

  /** The same operation once the flag is set: every pending ticket is changed first, and
      supply, observe and poll do nothing else. */
  ghost predicate WhenChanged(op: Op, s: Store, s': Store, reply: Reply) {
    var c := ChangedAll(s);
    match op
    case Supply(_) => s' == c && reply == Failure(SourceChanged)
    case Observe(_) => s' == c && reply == Failure(SourceChanged)
    case Poll(_, _, _) => s' == c && reply == Failure(SourceChanged)
    case Fail(ticket, error) => exists poison :: FailStep(c, ticket, error, s', poison, reply)
    case Signal => s' == c && reply == Done
    case Unsubscribe(ticket, job) => UnsubscribeStep(c, ticket, job, s', reply)
    case Take(ticket) => TakeStep(c, ticket, s', reply)
    case QueryStatus(ticket) => StatusStep(c, ticket, s', reply)
    case Release(ticket) => ReleaseStep(c, ticket, s', reply)
  }
}
