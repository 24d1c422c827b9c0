/** The Range store as a caller sees it (pdf-rs/bytes/src/store.rs, lines 341-1088): a finite
    map from offsets to bytes, the length once known, and a finite map from tickets to what
    each waits for. No segments, no ranges, no positions in lists: CacheRefinement shows that
    every effect of the store is one of these. */
module ByteCache {
  import opened Basics
  import opened Ranges
  import opened Segments
  import opened StoreSpec

  /** A ticket: the offsets it still wants, who is subscribed, and what became of it. */
  datatype Waiting = Waiting(wants: set<nat>, subscribers: seq<Subscription>, phase: Phase)

  datatype Cache = Cache(bytes: map<nat, Byte>, length: Option<nat>, waiting: map<Ticket, Waiting>, next: nat, held: nat)

  /** The offsets that begin a run of neighbouring offsets: as many as there are runs. */
  ghost function Starts(offsets: set<nat>): set<nat> { set k | k in offsets && Begins(offsets, k) }

  ghost predicate Begins(offsets: set<nat>, k: nat) { k == 0 || k - 1 !in offsets }

  ghost function Payload(response: Response): map<nat, Byte>
    requires response.Valid()
  {
    map k | k in Interval(response.range.start, response.range.End()) :: PayloadByte(response, k)
  }

  ghost function PayloadByte(response: Response, k: nat): Byte {
    if 0 <= k - response.range.start < |response.bytes| then response.bytes[k - response.range.start] else 0
  }

  // ------------------------------------------------------------------ a change of the source

  ghost function Change(w: Waiting): Waiting { if w.phase.Pending? then w.(phase := Changed) else w }

  ghost function Changes(c: Cache): Cache { c.(waiting := map t | t in c.waiting :: Change(c.waiting[t])) }

  // ------------------------------------------------------------------ waking

  /** The offsets still wanted. */
  ghost function Left(w: Waiting, bytes: map<nat, Byte>): set<nat> { w.wants - bytes.Keys }

  ghost predicate ReachesPast(offsets: set<nat>, length: Option<nat>) {
    length.Some? && exists k :: k in offsets && k >= length.value
  }

  /** A pending ticket is ready once it wants nothing more, or something past the end. */
  ghost function Wake(w: Waiting, bytes: map<nat, Byte>, length: Option<nat>): Waiting {
    if !w.phase.Pending? then w
    else if Left(w, bytes) == {} || ReachesPast(Left(w, bytes), length) then w.(phase := Ready)
    else w.(wants := Left(w, bytes))
  }

  /** The tickets reported are those that turn from pending to ready, in ascending order. */
  ghost predicate Reports(c: Cache, c': Cache, ready: seq<Ticket>) {
    && Ascends(ready)
    && (forall t :: t in ready
          <==> t in c.waiting && t in c'.waiting && c.waiting[t].phase.Pending? && c'.waiting[t].phase.Ready?)
  }

  ghost predicate Ascends(ready: seq<Ticket>) { forall i, j :: 0 <= i < j < |ready| ==> ready[i].value < ready[j].value }

  ghost predicate Wakes(c: Cache, c': Cache, ready: seq<Ticket>) {
    && c'.waiting == (map t | t in c.waiting :: Wake(c.waiting[t], c'.bytes, c'.length))
    && c'.next == c.next && c'.held == c.held && Reports(c, c', ready)
  }

  // ------------------------------------------------------------------ supply and observe

  /** A length that is not the known one, or past which something is cached. */
  ghost predicate Contradicts(c: Cache, len: Option<nat>) {
    if c.length.Some? then len != c.length else len.Some? && exists k :: k in c.bytes && k >= len.value
  }

  ghost predicate Disagrees(c: Cache, response: Response)
    requires response.Valid()
  {
    exists k :: k in c.bytes && k in Payload(response) && c.bytes[k] != Payload(response)[k]
  }

  /** The limits the cache respects. */
  ghost predicate Fits(cfg: Config, c: Cache, bytes: map<nat, Byte>) {
    && |bytes| <= cfg.limits.maxCached && |Starts(bytes.Keys)| <= cfg.limits.maxSegments
    && forall t :: t in c.waiting && c.waiting[t].phase.Pending? ==> |Starts(Left(c.waiting[t], bytes))| <= cfg.limits.maxMissing
  }

  ghost predicate Granted(alloc: Alloc) {
    alloc.ready && alloc.affected && alloc.merged && alloc.prospective && alloc.updates && alloc.missing
  }

  ghost predicate TooManyPieces(cfg: Config, c: Cache, bytes: map<nat, Byte>) {
    exists t :: t in c.waiting && c.waiting[t].phase.Pending? && |Starts(Left(c.waiting[t], bytes))| > cfg.limits.maxMissing
  }

  /** What a resource limit says about a supply. */
  ghost predicate Hinders(cfg: Config, c: Cache, response: Response, alloc: Alloc, kind: LimitKind)
    requires response.Valid()
  {
    var limits, range, len, bytes := cfg.limits, response.range, response.snapshot.len, c.bytes + Payload(response);
    match kind
    case ReadBytes => range.len > limits.maxRead
    case InputBytes => range.End() > limits.maxInput || (c.length.None? && len.Some? && len.value > limits.maxInput)
    case ResidentBytes =>
      || alloc.responseSeen + response.capacity > limits.maxResident
      || alloc.remainderSeen + |bytes| + alloc.slack > limits.maxResident
    case CachedBytes => |bytes| > limits.maxCached
    case Segments => |Starts(bytes.Keys)| > limits.maxSegments
    case MissingRanges => TooManyPieces(cfg, c, bytes)
    case Allocation => !Granted(alloc)
    case _ => false
  }

  ghost predicate Learns(c: Cache, len: Option<nat>, c': Cache) {
    c'.length == (if len.Some? then len else c.length) && (c.length.Some? ==> len == c.length)
  }

  /** supply: map union with a response that agrees, or a failure with its cause. */
  ghost predicate Supplies(cfg: Config, c: Cache, response: Response, alloc: Alloc, c': Cache, poison: bool, reply: Reply)
    requires response.Valid()
  {
    var foreign := !response.snapshot.SameSource(cfg.snapshot);
    match reply
    case Supplied(count, ready) =>
      && !poison && !foreign && !Contradicts(c, response.snapshot.len) && !Disagrees(c, response)
      && c'.bytes == c.bytes + Payload(response) && count == |c'.bytes| && Fits(cfg, c, c'.bytes)
      && Learns(c, response.snapshot.len, c') && Wakes(c, c', ready)
    case Failure(error) =>
      if error == SourceChanged then poison && c' == Changes(c) && (foreign || Contradicts(c, response.snapshot.len))
      else if error == ConflictingBytes then poison && c' == Changes(c) && !foreign && Disagrees(c, response)
      else !poison && c' == c && !foreign && error.ResourceLimit? && Hinders(cfg, c, response, alloc, error.kind)
    case _ => false
  }

  /** observe_snapshot: the length and whom it wakes, or a failure with its cause. */
  ghost predicate Observes(cfg: Config, c: Cache, snapshot: Snapshot, alloc: Alloc, c': Cache, poison: bool, reply: Reply) {
    var foreign := !snapshot.SameSource(cfg.snapshot);
    match reply
    case Supplied(count, ready) =>
      && !poison && !foreign && !Contradicts(c, snapshot.len)
      && c'.bytes == c.bytes && count == |c'.bytes| && Learns(c, snapshot.len, c') && Wakes(c, c', ready)
    case Failure(error) =>
      if error == SourceChanged then poison && c' == Changes(c) && (foreign || Contradicts(c, snapshot.len))
      else
        && !poison && c' == c && !foreign && error.ResourceLimit?
        && ((error.kind.InputBytes? && c.length.None? && snapshot.len.Some? && snapshot.len.value > cfg.limits.maxInput)
            || (error.kind.Allocation? && !alloc.ready))
    case _ => false
  }

  // ------------------------------------------------------------------ poll

  /** The offsets of the range that are not cached. */
  ghost function Lacking(c: Cache, range: Range): set<nat> { Interval(range.start, range.End()) - c.bytes.Keys }

  ghost predicate Lists(missing: seq<Range>, offsets: set<nat>) {
    Canonical(missing) && forall k: nat :: Hit(missing, k) <==> k in offsets
  }

  ghost predicate WaitsFor(c: Cache, t: Ticket, offsets: set<nat>) {
    t in c.waiting && c.waiting[t].phase.Pending? && c.waiting[t].wants == offsets
  }

  /** The oldest pending ticket that wants exactly these offsets. */
  ghost predicate Oldest(c: Cache, t: Ticket, offsets: set<nat>) {
    WaitsFor(c, t, offsets) && forall u :: WaitsFor(c, u, offsets) ==> t.value <= u.value
  }

  ghost predicate Waits(t: Ticket, offsets: set<nat>, reply: Reply) {
    reply.PendingOn? && reply.ticket == t && Lists(reply.missing, offsets)
  }

  ghost predicate Refuses(c: Cache, c': Cache, reply: Reply, error: SourceError) { c' == c && reply == Failure(error) }

  ghost predicate HasJob(subs: seq<Subscription>, job: nat) { exists i :: 0 <= i < |subs| && subs[i].job == job }

  /** A job joins a waiting ticket, unless it is there already or a limit is met. */
  ghost predicate Joins(cfg: Config, c: Cache, t: Ticket, job: nat, checkpoint: nat, alloc: Alloc, c': Cache, reply: Reply)
    requires t in c.waiting
  {
    var w, limits := c.waiting[t], cfg.limits;
    if HasJob(w.subscribers, job) then
      if Subscription(job, checkpoint) in w.subscribers then c' == c && Waits(t, w.wants, reply)
      else Refuses(c, c', reply, CheckpointConflict)
    else if c.held >= limits.maxSubscriptions then
      Refuses(c, c', reply, ResourceLimit(TotalSubscriptions, limits.maxSubscriptions, c.held + 1))
    else if |w.subscribers| >= limits.maxSubscribers then
      Refuses(c, c', reply, ResourceLimit(TicketSubscribers, limits.maxSubscribers, |w.subscribers| + 1))
    else if !alloc.subscribers then
      Refuses(c, c', reply, ResourceLimit(Allocation, limits.maxSubscribers, |w.subscribers| + 1))
    else
      && c' == c.(waiting := c.waiting[t := w.(subscribers := w.subscribers + [Subscription(job, checkpoint)])], held := c.held + 1)
      && Waits(t, w.wants, reply)
  }

  /** A new ticket, unless a limit is met; a refused subscriber list costs a number. */
  ghost predicate Opens(cfg: Config, c: Cache, offsets: set<nat>, job: nat, checkpoint: nat, alloc: Alloc, c': Cache, reply: Reply) {
    var t, limits := Ticket(cfg.namespace, c.next), cfg.limits;
    if |c.waiting| >= limits.maxTickets then Refuses(c, c', reply, ResourceLimit(Tickets, limits.maxTickets, |c.waiting| + 1))
    else if c.held >= limits.maxSubscriptions then
      Refuses(c, c', reply, ResourceLimit(TotalSubscriptions, limits.maxSubscriptions, c.held + 1))
    else if c.next >= U64_MAX then Refuses(c, c', reply, ResourceLimit(Tickets, limits.maxTickets, U64_MAX))
    else if !alloc.subscribers then c' == c.(next := c.next + 1) && reply == Failure(ResourceLimit(Allocation, 1, 1))
    else
      && t !in c.waiting && Waits(t, offsets, reply)
      && c' == c.(waiting := c.waiting[t := Waiting(offsets, [Subscription(job, checkpoint)], Pending)], next := c.next + 1,
                  held := c.held + 1)
  }

  /** poll: the cached bytes, the end of the file, a ticket to wait for, or a failure. */
  ghost predicate Polls(cfg: Config, c: Cache, range: Range, job: nat, checkpoint: nat, alloc: Alloc, c': Cache, reply: Reply) {
    var limits, offsets := cfg.limits, Lacking(c, range);
    if range.len > limits.maxRead then Refuses(c, c', reply, ResourceLimit(ReadBytes, limits.maxRead, range.len))
    else if c.length.Some? && range.End() > c.length.value then c' == c && reply == EndOfFile
    else if range.End() > limits.maxInput then Refuses(c, c', reply, ResourceLimit(InputBytes, limits.maxInput, range.End()))
    else if offsets == {} then
      && c' == c && reply.ReadyBytes? && |reply.bytes| == range.len
      && forall k: nat :: range.Contains(k) ==> k in c.bytes && c.bytes[k] == reply.bytes[k - range.start]
    else if !alloc.missing then Refuses(c, c', reply, ResourceLimit(Allocation, limits.maxMissing, limits.maxMissing))
    else if |Starts(offsets)| > limits.maxMissing then
      Refuses(c, c', reply, ResourceLimit(LimitKind.MissingRanges, limits.maxMissing, limits.maxMissing + 1))
    else if exists t :: WaitsFor(c, t, offsets) then
      exists t :: Oldest(c, t, offsets) && Joins(cfg, c, t, job, checkpoint, alloc, c', reply)
    else Opens(cfg, c, offsets, job, checkpoint, alloc, c', reply)
  }

  // ------------------------------------------------------------------ ticket operations

  predicate Integral(error: SourceError) { error == SourceChanged || error == ConflictingBytes }

  /** fail_ticket. An integrity failure is one of the source, not of the ticket. */
  ghost predicate Fails(c: Cache, t: Ticket, error: SourceError, c': Cache, poison: bool, reply: Reply) {
    if t !in c.waiting then !poison && Refuses(c, c', reply, UnknownTicket)
    else if Integral(error) then poison && c' == Changes(c) && reply == Done
    else if c.waiting[t].phase != Pending then !poison && Refuses(c, c', reply, TicketAlreadyTerminal)
    else !poison && reply == Done && c' == c.(waiting := c.waiting[t := c.waiting[t].(phase := Failed(error))])
  }

  /** The subscriptions without the one of this job, of which there is at most one. */
  ghost predicate IsWithout(subs: seq<Subscription>, job: nat, kept: seq<Subscription>) {
    if HasJob(subs, job) then exists i :: 0 <= i < |subs| && subs[i].job == job && kept == subs[..i] + subs[i + 1..]
    else kept == subs
  }

  /** unsubscribe. A ticket nobody waits for is abandoned. */
  ghost predicate Unsubscribes(c: Cache, t: Ticket, job: nat, c': Cache, reply: Reply) {
    if t !in c.waiting then Refuses(c, c', reply, UnknownTicket)
    else if c.waiting[t].phase != Pending then Refuses(c, c', reply, TicketAlreadyTerminal)
    else
      && reply == Done
      && exists kept ::
           && IsWithout(c.waiting[t].subscribers, job, kept)
           && c' == c.(waiting := c.waiting[t := c.waiting[t].(subscribers := kept, phase := if kept == [] then Abandoned else Pending)],
                       held := c'.held)
           && c'.held == c.held + |kept| - |c.waiting[t].subscribers|
  }

  /** take_subscriptions. */
  ghost predicate TakesAll(c: Cache, t: Ticket, c': Cache, reply: Reply) {
    if t !in c.waiting then Refuses(c, c', reply, UnknownTicket)
    else if c.waiting[t].phase == Pending then Refuses(c, c', reply, TicketNotTerminal)
    else
      && reply == Taken(c.waiting[t].subscribers)
      && c' == c.(waiting := c.waiting[t := c.waiting[t].(subscribers := [])], held := c'.held)
      && c'.held == c.held - |c.waiting[t].subscribers|
  }

  /** ticket_status. */
  ghost predicate Tells(c: Cache, t: Ticket, c': Cache, reply: Reply) {
    if t !in c.waiting then Refuses(c, c', reply, UnknownTicket)
    else
      && c' == c
      && reply == match c.waiting[t].phase
                  case Pending => StatusIs(IsPending(|c.waiting[t].subscribers|))
                  case Ready => StatusIs(IsReady)
                  case Failed(error) => StatusIs(IsFailed(error))
                  case Changed => StatusIs(IsChanged)
                  case Abandoned => StatusIs(IsAbandoned)
  }

  /** release_ticket. */
  ghost predicate Releases(c: Cache, t: Ticket, c': Cache, reply: Reply) {
    if t !in c.waiting then Refuses(c, c', reply, UnknownTicket)
    else if c.waiting[t].phase == Pending then Refuses(c, c', reply, TicketNotTerminal)
    else if c.waiting[t].subscribers != [] then Refuses(c, c', reply, SubscriptionsNotTaken)
    else c' == c.(waiting := c.waiting - {t}) && reply == Done
  }

  // ------------------------------------------------------------------ operations

  /** One operation; `changed` is the source-changed flag in front of it. */
  ghost predicate Answers(cfg: Config, changed: bool, c: Cache, op: Op, alloc: Alloc, changed': bool, c': Cache, reply: Reply)
    requires op.Valid()
  {
    if changed && (op.Supply? || op.Observe? || op.Poll?) then
      changed' && c' == Changes(c) && reply == Failure(SourceChanged)
    else
      var seen := if changed then Changes(c) else c;
      match op
      case Supply(response) => Supplies(cfg, seen, response, alloc, c', changed', reply)
      case Observe(snapshot) => Observes(cfg, seen, snapshot, alloc, c', changed', reply)
      case Poll(range, job, checkpoint) => !changed' && Polls(cfg, seen, range, job, checkpoint, alloc, c', reply)
      case Fail(t, error) =>
        var poison := t in seen.waiting && Integral(error);
        (changed' <==> changed || poison) && Fails(seen, t, error, c', poison, reply)
      case Signal => changed' && c' == Changes(c) && reply == Done
      case Unsubscribe(t, job) => (changed' <==> changed) && Unsubscribes(seen, t, job, c', reply)
      case Take(t) => (changed' <==> changed) && TakesAll(seen, t, c', reply)
      case QueryStatus(t) => (changed' <==> changed) && Tells(seen, t, c', reply)
      case Release(t) => (changed' <==> changed) && Releases(seen, t, c', reply)
  }
}
