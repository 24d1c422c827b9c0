/** Budget composition in the acquired-object job (pdf-rs/document/src/acquired_object.rs,
    lines 1137-1171, 1210-1780 and 2032-2098). The parent hands caps to a resolver, a
    payload read, a decoder and an object-stream parser; each of them is arbitrary except
    that it stays within its cap. */
module ObjectJob {
  import opened Basics

  datatype WorkCaps = WorkCaps(read: nat, parse: nat)

  datatype DecodeLimits = DecodeLimits(maxInput: nat, maxLayer: nat, maxTotal: nat, maxFinal: nat) {
    /** What DecodeLimits::validate demands, as far as capping matters. */
    predicate Valid() { 0 < maxFinal <= maxLayer && maxFinal <= maxTotal }
  }

  datatype JobLimits = JobLimits(
    read: nat, parse: nat, resolverRead: nat, resolverParse: nat, decode: DecodeLimits, maxDecoded: nat, maxSyntax: nat)

  datatype JobError =
    | JobAlreadyComplete
    | SourceSnapshotMismatch
    | Cancelled
    | ChildFailed
    | RetainedLimit
    | InvalidContainer
    | EmptyPayload
    | PayloadLimit
    | ReadBudget
    | ParseBudget
    | UnexpectedEnd
    // The failures below are unreachable when children obey their caps.
    | ReadRemainderLost
    | SemanticCapLost
    | ReadTotalExceeded
    | ParseTotalExceeded
    | TransitionSeen
  {
    predicate Unreachable() {
      ReadRemainderLost? || SemanticCapLost? || ReadTotalExceeded? || ParseTotalExceeded? || TransitionSeen?
    }
  }

  /** The lower jobs of one object, as they answer during one poll. */
  datatype Container = Container(stream: bool, planOk: bool, retainedOk: bool, filtered: bool, span: nat)

  datatype ResolverReply = ResolverPending | ResolverFailed | Resolved(container: Container)

  datatype PayloadReply = PayloadPending | PayloadEnd | PayloadFailed | PayloadReady(matches: bool)

  /** What a decoder or parser has done under its cap, whether it succeeds or fails. */
  datatype Effort = Effort(ok: bool, amount: nat)

  datatype Children = Children(
    resolver: ResolverReply, resolverRead: nat, resolverParse: nat, resolverRetainedOk: bool,
    payload: PayloadReply, cancelled: bool, decode: nat -> Effort, semantic: nat -> Effort,
    matches: bool, retainedOk: bool)

  /** The work the children have really done for one job. */
  datatype Work = Work(resolverRead: nat, resolverParse: nat, payloadRead: nat, decoded: nat, parsed: nat) {
    function Read(): nat { resolverRead + payloadRead }

    function Parsed(): nat { resolverParse + decoded + parsed }
  }

  datatype Stats = Stats(
    resolverRead: nat, resolverParse: nat, payloadRead: nat, decodeOutput: nat, semanticParse: nat,
    totalRead: nat, totalParse: nat)

  datatype Phase =
    | Framing
    | Payload(span: nat, filtered: bool)
    | Parse(span: nat, filtered: bool)
    | Complete
    | Failed(error: JobError)
    | Transition

  datatype Reply = Ready | Pending | Failure(error: JobError)

  datatype JobState = JobState(phase: Phase, stats: Stats, work: Work)

  // ------------------------------------------------------------------ capped limits

  /** capped_decode_limits. */
  function CappedDecode(limits: DecodeLimits, cap: nat): (c: DecodeLimits)
    requires limits.Valid() && 0 < cap
    ensures c.Valid() && c.maxInput == limits.maxInput
    ensures c.maxTotal == Min(limits.maxTotal, cap) && c.maxFinal <= Min(limits.maxFinal, cap)
    ensures c.maxLayer <= limits.maxLayer && c.maxLayer <= cap
  {
    var final := Min(limits.maxFinal, cap);
    DecodeLimits(limits.maxInput, Max(Min(limits.maxLayer, cap), final), Max(Min(limits.maxTotal, cap), final), final)
  }

  /** capped_object_stream_limits, the part that bounds syntax work. */
  function CappedSyntax(maxSyntax: nat, cap: nat): nat { Min(maxSyntax, cap) }

  /** Every child stays within the cap it is given. */
  ghost predicate Obey(caps: WorkCaps, limits: JobLimits, st: JobState, c: Children) {
    && st.stats.resolverRead <= c.resolverRead <= Min(caps.read, limits.resolverRead)
    && st.stats.resolverParse <= c.resolverParse <= Min(caps.parse, limits.resolverParse)
    && Bounded(c)
  }

  ghost predicate Bounded(c: Children) {
    (forall cap :: c.decode(cap).amount <= cap) && (forall cap :: c.semantic(cap).amount <= cap)
  }

  // ------------------------------------------------------------------ invariant

  ghost predicate Summed(caps: WorkCaps, s: Stats) {
    && s.totalRead == s.resolverRead + s.payloadRead <= caps.read
    && s.totalParse == s.resolverParse + s.decodeOutput + s.semanticParse <= caps.parse
  }

  /** The job's counters are the work its children have done. */
  ghost predicate Recorded(s: Stats, w: Work) {
    && s.resolverRead == w.resolverRead && s.resolverParse == w.resolverParse && s.payloadRead == w.payloadRead
    && s.decodeOutput == w.decoded && s.semanticParse == w.parsed
  }

  /** Work and totals never exceed the caps, whatever the phase, and are recorded exactly
      until a failure. */
  ghost predicate Inv(caps: WorkCaps, st: JobState) {
    var s, w := st.stats, st.work;
    && w.Read() <= caps.read && w.Parsed() <= caps.parse
    && s.totalRead <= caps.read && s.totalParse <= caps.parse
    && !st.phase.Transition?
    && match st.phase
       case Framing => Recorded(s, w) && Summed(caps, s) && s.payloadRead == s.decodeOutput == s.semanticParse == 0
       case Payload(span, _) =>
         && Recorded(s, w) && Summed(caps, s) && s.payloadRead == s.decodeOutput == s.semanticParse == 0
         && s.resolverRead + span <= caps.read
       case Parse(span, _) =>
         Recorded(s, w) && Summed(caps, s) && s.payloadRead == span && s.decodeOutput == s.semanticParse == 0
       case Complete => Recorded(s, w) && Summed(caps, s)
       case Failed(error) => Spent(caps, s) && !error.Unreachable()
       case Transition => false
  }

  /** The counters of a job, failed or not, stay within its caps. */
  ghost predicate Spent(caps: WorkCaps, s: Stats) {
    && s.resolverRead + s.payloadRead <= caps.read
    && s.resolverParse + s.decodeOutput + s.semanticParse <= caps.parse
  }

  /** The caps that decoder and parser get, from what the resolver and the decoder have left. */
  ghost function DecoderCap(caps: WorkCaps, limits: JobLimits, w: Work): nat
    requires limits.decode.Valid() && w.resolverParse + 1 < caps.parse
  {
    CappedDecode(limits.decode, caps.parse - w.resolverParse - 1).maxTotal
  }

  ghost function ParserCap(caps: WorkCaps, limits: JobLimits, w: Work): nat
    requires w.resolverParse + w.decoded <= caps.parse
  {
    CappedSyntax(limits.maxSyntax, caps.parse - w.resolverParse - w.decoded)
  }

  /** The parser has accepted the object under its cap, and this is what it did. */
  ghost predicate ObjectParsed(caps: WorkCaps, limits: JobLimits, w: Work, c: Children) {
    w.resolverParse + w.decoded <= caps.parse && c.semantic(ParserCap(caps, limits, w)) == Effort(true, w.parsed)
    && c.matches && c.retainedOk
  }

  /** The span of the payload a poll in this phase may read. */
  function SpanOf(phase: Phase, c: Children): nat {
    if phase.Payload? then phase.span else if c.resolver.Resolved? then c.resolver.container.span else 0
  }

  /** What one poll adds to the work is what its children answered: the resolver its running
      totals, the payload its span, the decoder and the parser what they did under the caps
      they were given. */
  ghost predicate Adds(caps: WorkCaps, limits: JobLimits, w: Work, w': Work, c: Children, span: nat)
  {
    && ((w'.resolverRead, w'.resolverParse) == (w.resolverRead, w.resolverParse)
        || (w'.resolverRead, w'.resolverParse) == (c.resolverRead, c.resolverParse))
    && (w'.payloadRead == w.payloadRead || (c.payload.PayloadReady? && w'.payloadRead == w.payloadRead + span))
    && (w'.decoded == w.decoded
        || (limits.decode.Valid() && w'.resolverParse + 1 < caps.parse
            && w'.decoded == w.decoded + c.decode(DecoderCap(caps, limits, w')).amount))
    && (w'.parsed == w.parsed
        || (w'.resolverParse + w'.decoded <= caps.parse
            && w'.parsed == w.parsed + c.semantic(ParserCap(caps, limits, w')).amount))
  }

  function FilteredOf(phase: Phase, c: Children): bool {
    if phase.Payload? || phase.Parse? then phase.filtered else c.resolver.Resolved? && c.resolver.container.filtered
  }

  /** The longest payload the limits admit. */
  function LongestPayload(limits: JobLimits, filtered: bool): nat { if filtered then limits.decode.maxInput else limits.maxDecoded }

  /** The decoder has failed under the cap it was given. */
  ghost predicate DecoderFails(caps: WorkCaps, limits: JobLimits, w: Work, c: Children) {
    limits.decode.Valid() && w.resolverParse + 1 < caps.parse && !c.decode(DecoderCap(caps, limits, w)).ok
  }

  /** The parser has failed under the cap it was given. */
  ghost predicate ParserFails(caps: WorkCaps, limits: JobLimits, w: Work, c: Children) {
    w.resolverParse + w.decoded <= caps.parse && !c.semantic(ParserCap(caps, limits, w)).ok
  }

  /** What each failure says about the children and the budgets, `w` being the work done. */
  ghost predicate Blames(caps: WorkCaps, limits: JobLimits, from: Phase, w: Work, c: Children, error: JobError) {
    match error
    case SourceSnapshotMismatch => c.payload.PayloadReady? && !c.payload.matches
    case Cancelled => c.cancelled
    case ChildFailed =>
      || c.resolver.ResolverFailed? || (c.resolver.Resolved? && !c.resolver.container.planOk)
      || c.payload.PayloadFailed? || DecoderFails(caps, limits, w, c) || ParserFails(caps, limits, w, c) || !c.matches
    case RetainedLimit =>
      !c.resolverRetainedOk || (c.resolver.Resolved? && !c.resolver.container.retainedOk) || !c.retainedOk
    case InvalidContainer => c.resolver.Resolved? && !c.resolver.container.stream
    case EmptyPayload => c.resolver.Resolved? && c.resolver.container.span == 0
    case PayloadLimit =>
      c.resolver.Resolved? && c.resolver.container.span > LongestPayload(limits, c.resolver.container.filtered)
    case ReadBudget => c.resolver.Resolved? && c.resolverRead + c.resolver.container.span > caps.read
    case ParseBudget => caps.parse < w.resolverParse + (if FilteredOf(from, c) then 2 else 1)
    case UnexpectedEnd => c.payload.PayloadEnd?
    case _ => false
  }

  function Rank(p: Phase): nat {
    match p
    case Framing => 0
    case Payload(_, _) => 1
    case Parse(_, _) => 2
    case Complete => 3
    case Failed(_) => 3
    case Transition => 3
  }

  /** What one poll may do: phases move forward, a finished job stays as it is, Ready means
      that the job has just become complete. */
  ghost predicate PollStep(st: JobState, st': JobState, reply: Reply) {
    && Rank(st.phase) <= Rank(st'.phase)
    && (reply.Ready? <==> st'.phase.Complete? && !st.phase.Complete?)
    && (reply.Pending? ==> Rank(st'.phase) < 3)
    && (st.phase.Complete? ==> st' == st && reply == Failure(JobAlreadyComplete))
    && (st.phase.Failed? ==> st' == st && reply == Failure(st.phase.error))
    && (reply.Failure? ==> !reply.error.Unreachable() && (st.phase.Complete? || st'.phase == Failed(reply.error)))
  }

  function FailedOr(error: Option<JobError>, next: Phase): Phase {
    if error.Some? then Failed(error.value) else next
  }

  /** What poll answers in this phase, when it does not go on: a phase that is still the
      one it came from is pending. */
  function Answer(phase: Phase, from: Phase): Option<Reply> {
    if phase.Failed? then Some(Failure(phase.error))
    else if phase.Complete? then Some(Ready)
    else if phase == from then Some(Pending)
    else None
  }

  ghost predicate IsNew(st: JobState) {
    st.phase.Framing? && st.stats == Stats(0, 0, 0, 0, 0, 0, 0) && st.work == Work(0, 0, 0, 0, 0)
  }

  class OpenAcquiredObjectJob {
    const caps: WorkCaps
    const limits: JobLimits
    const compressed: bool
    var phase: Phase
    var stats: Stats
    /** What the children have done so far, whatever the job has recorded of it. */
    ghost var work: Work

    ghost function State(): JobState
      reads this
    {
      JobState(phase, stats, work)
    }

    ghost predicate Valid()
      reads this
    {
      limits.decode.Valid() && Inv(caps, State())
    }

    /** new_with_work_caps, after its checks. */
    constructor (caps: WorkCaps, limits: JobLimits, compressed: bool)
      requires limits.decode.Valid() && caps.read <= limits.read && caps.parse <= limits.parse
      ensures this.caps == caps && this.limits == limits && this.compressed == compressed
      ensures Valid() && IsNew(State())
    {
      this.caps, this.limits, this.compressed := caps, limits, compressed;
      phase, stats, work := Framing, Stats(0, 0, 0, 0, 0, 0, 0), Work(0, 0, 0, 0, 0);
    }

    // ---------------------------------------------------------------- children

    /** The resolver runs on and shows its running totals. */
    method AskResolver(c: Children) returns (read: nat, parse: nat)
      modifies this`work
      ensures read == c.resolverRead && parse == c.resolverParse
      ensures work == old(work).(resolverRead := c.resolverRead, resolverParse := c.resolverParse)
    {
      read, parse := c.resolverRead, c.resolverParse;
      work := work.(resolverRead := c.resolverRead, resolverParse := c.resolverParse);
    }

    /** The payload is read in one piece, or not yet. */
    method ReadPayload(span: nat, c: Children) returns (reply: PayloadReply)
      modifies this`work
      ensures reply == c.payload
      ensures work == if c.payload.PayloadReady? then old(work).(payloadRead := old(work).payloadRead + span) else old(work)
    {
      reply := c.payload;
      if reply.PayloadReady? {
        work := work.(payloadRead := work.payloadRead + span);
      }
    }

    method Decode(cap: nat, c: Children) returns (effort: Effort)
      modifies this`work
      ensures effort == c.decode(cap)
      ensures work == old(work).(decoded := old(work).decoded + effort.amount)
    {
      effort := c.decode(cap);
      work := work.(decoded := work.decoded + effort.amount);
    }

    method ParseSemantic(cap: nat, c: Children) returns (effort: Effort)
      modifies this`work
      ensures effort == c.semantic(cap)
      ensures work == old(work).(parsed := old(work).parsed + effort.amount)
    {
      effort := c.semantic(cap);
      work := work.(parsed := work.parsed + effort.amount);
    }

    // ---------------------------------------------------------------- the job

    method Fail(error: JobError) returns (reply: Reply)
      modifies this`phase
      ensures phase == Failed(error) && reply == Failure(error)
    {
      phase := Failed(error);
      reply := Failure(error);
    }

    /** update_totals. */
    method UpdateTotals() returns (error: Option<JobError>)
      modifies this`stats
      ensures var s := old(stats);
              var read, parse := s.resolverRead + s.payloadRead, s.resolverParse + s.decodeOutput + s.semanticParse;
              if read > caps.read then error == Some(ReadTotalExceeded) && stats == s
              else if parse > caps.parse then error == Some(ParseTotalExceeded) && stats == s
              else error == None && stats == s.(totalRead := read, totalParse := parse)
    {
      var totalRead := stats.resolverRead + stats.payloadRead;
      if totalRead > caps.read {
        return Some(ReadTotalExceeded);
      }
      var totalParse := stats.resolverParse + stats.decodeOutput + stats.semanticParse;
      if totalParse > caps.parse {
        return Some(ParseTotalExceeded);
      }
      stats := stats.(totalRead := totalRead, totalParse := totalParse);
      error := None;
    }

    /** poll. */
    method Poll(sameSnapshot: bool, cancelled: bool, c: Children) returns (reply: Reply)
      requires Valid() && Obey(caps, limits, State(), c)
      modifies this
      ensures Valid() && PollStep(old(State()), State(), reply)
      ensures Adds(caps, limits, old(work), work, c, SpanOf(old(phase), c))
      ensures reply.Ready? ==> ObjectParsed(caps, limits, work, c) || (!compressed && c.resolver.Resolved?)
      ensures reply.Pending? ==> c.resolver.ResolverPending? || c.payload.PayloadPending?
      ensures reply.Failure? && Rank(old(phase)) < 3 ==>
                || (!sameSnapshot && reply.error == SourceSnapshotMismatch) || (cancelled && reply.error == Cancelled)
                || Blames(caps, limits, old(phase), work, c, reply.error)
    {
      hide Adds, ObjectParsed, Blames;
      NothingAdds(caps, limits, work, c);
      if phase.Failed? {
        return Failure(phase.error);
      }
      if phase.Complete? {
        return Failure(JobAlreadyComplete);
      }
      if !sameSnapshot {
        reply := Fail(SourceSnapshotMismatch);
        return;
      }
      if cancelled {
        reply := Fail(Cancelled);
        return;
      }
      reply := Advance(c);
    }

    /** The loop of poll: it runs through phases until one of them answers. */
    method Advance(c: Children) returns (reply: Reply)
      requires Valid() && Obey(caps, limits, State(), c) && Rank(phase) < 3
      modifies this
      ensures Valid() && Rank(old(phase)) <= Rank(phase)
      ensures Adds(caps, limits, old(work), work, c, SpanOf(old(phase), c))
      ensures reply.Ready? ==> ObjectParsed(caps, limits, work, c) || (!compressed && c.resolver.Resolved?)
      ensures match reply
              case Ready => phase.Complete?
              case Pending => Rank(phase) < 3 && (c.resolver.ResolverPending? || c.payload.PayloadPending?)
              case Failure(error) => phase == Failed(error) && !error.Unreachable() && Blames(caps, limits, old(phase), work, c, error)
    {
      hide Adds, ObjectParsed, Blames;
      NothingAdds(caps, limits, work, c);
      while true
        invariant Valid() && Rank(old(phase)) <= Rank(phase) < 3
        invariant phase == old(phase) ==> State() == old(State())
        invariant phase != old(phase) ==> Rank(old(phase)) < Rank(phase)
        invariant Adds(caps, limits, old(work), work, c, SpanOf(old(phase), c))
        invariant phase.Payload? ==> phase.span == SpanOf(old(phase), c) && work.payloadRead == old(work).payloadRead
        invariant phase.Parse? || phase.Payload? ==> phase.filtered == FilteredOf(old(phase), c)
        invariant phase.Parse? || phase.Payload? ==> work.decoded == old(work).decoded && work.parsed == old(work).parsed
        decreases 3 - Rank(phase)
      {
        var state := phase;
        phase := Transition;
        var next: Option<Reply>;
        match state {
          case Framing =>
            next := PollFraming(c, old(phase));
            FramingAdds(caps, limits, old(work), work, c, SpanOf(old(phase), c));
          case Payload(span, filtered) =>
            ghost var before := work;
            next := PollPayload(span, filtered, c, old(phase));
            PayloadAdds(caps, limits, old(work), before, work, c, span);
          case Parse(span, filtered) =>
            ghost var before := work;
            reply := ParseObjectStream(filtered, c, span, old(phase));
            LastAdds(caps, limits, old(work), before, work, c, SpanOf(old(phase), c));
            return;
          case _ =>
            assert false;
        }
        if next.Some? {
          return next.value;
        }
      }
    }

    /** The Framing arm of poll; None goes on with the Payload phase. */
    method PollFraming(c: Children, ghost from: Phase) returns (reply: Option<Reply>)
      requires limits.decode.Valid() && phase.Transition? && Inv(caps, JobState(Framing, stats, work))
      requires Obey(caps, limits, JobState(Framing, stats, work), c) && from.Framing?
      modifies this
      ensures Valid()
      ensures match reply
              case None =>
                phase.Payload? && c.resolver.Resolved? && phase.span == c.resolver.container.span
                && phase.filtered == c.resolver.container.filtered
              case Some(Ready) => phase.Complete? && !compressed && c.resolver.Resolved?
              case Some(Pending) => phase.Framing? && c.resolver.ResolverPending?
              case Some(Failure(error)) =>
                phase == Failed(error) && !error.Unreachable() && Blames(caps, limits, from, work, c, error)
      ensures work == old(work).(resolverRead := c.resolverRead, resolverParse := c.resolverParse)
      ensures stats.resolverRead == c.resolverRead && stats.resolverParse == c.resolverParse
    {
      var read, parse := AskResolver(c);
      stats := stats.(resolverRead := read, resolverParse := parse);
      if !c.resolverRetainedOk {
        phase := Failed(RetainedLimit);
        return Some(Failure(RetainedLimit));
      }
      var error := UpdateTotals();
      phase := Framed(error, c.resolver, c);
      reply := Answer(phase, Framing);
    }

    /** Where the job goes from Framing. */
    method Framed(error: Option<JobError>, resolver: ResolverReply, ghost c: Children) returns (next: Phase)
      requires stats.resolverRead == c.resolverRead <= caps.read && resolver == c.resolver
      ensures error.Some? ==> next == Failed(error.value)
      ensures error.None? ==>
                && !next.Transition? && !next.Parse? && (next.Complete? ==> !compressed && resolver.Resolved?)
                && (next.Framing? ==> resolver.ResolverPending?)
                && (next.Failed? ==>
                      !next.error.Unreachable() && forall w: Work :: Blames(caps, limits, Framing, w, c, next.error))
                && (next.Payload? ==>
                      resolver.Resolved? && next == Payload(resolver.container.span, resolver.container.filtered)
                      && stats.resolverRead + next.span <= caps.read)
    {
      if error.Some? {
        return Failed(error.value);
      }
      if resolver.ResolverPending? {
        return Framing;
      }
      if resolver.ResolverFailed? {
        return Failed(ChildFailed);
      }
      if !resolver.container.retainedOk {
        return Failed(RetainedLimit);
      }
      if !compressed {
        return Complete;
      }
      next := PlanPayload(resolver.container);
    }

    /** Lines 1318-1406: the checks between framing and reading the payload. */
    method PlanPayload(container: Container) returns (next: Phase)
      requires stats.resolverRead <= caps.read
      ensures var longest, remaining := LongestPayload(limits, container.filtered), caps.read - stats.resolverRead;
              && (next == Payload(container.span, container.filtered)
                  <==> container.stream && container.planOk && 0 < container.span <= Min(longest, remaining))
              && (next.Payload? ==> next == Payload(container.span, container.filtered))
              && (next.Payload? || next.Failed?)
              && (next == Failed(PayloadLimit) ==> longest <= remaining && longest < container.span)
              && (next == Failed(ReadBudget) ==> remaining < longest && remaining < container.span)
              && (next == Failed(EmptyPayload) ==> container.span == 0)
              && (next == Failed(InvalidContainer) <==> !container.stream)
              && (next == Failed(ChildFailed) <==> container.stream && !container.planOk)
              && (next.Failed? ==> next.error in {PayloadLimit, ReadBudget, EmptyPayload, InvalidContainer, ChildFailed})
    {
      if !container.stream {
        return Failed(InvalidContainer);
      }
      if !container.planOk {
        return Failed(ChildFailed);
      }
      if container.span == 0 {
        return Failed(EmptyPayload);
      }
      var payloadLimit := if container.filtered then limits.decode.maxInput else limits.maxDecoded;
      if caps.read < stats.resolverRead {
        return Failed(ReadRemainderLost);
      }
      var readRemaining := caps.read - stats.resolverRead;
      if readRemaining < payloadLimit && container.span > readRemaining {
        return Failed(ReadBudget);
      }
      if container.span > payloadLimit {
        return Failed(PayloadLimit);
      }
      if container.span > readRemaining {
        return Failed(ReadBudget);
      }
      return Payload(container.span, container.filtered);
    }

    /** The Payload arm of poll; None goes on with the Parse phase. */
    method PollPayload(span: nat, filtered: bool, c: Children, ghost from: Phase) returns (reply: Option<Reply>)
      requires limits.decode.Valid() && phase.Transition? && Inv(caps, JobState(Payload(span, filtered), stats, work))
      modifies this
      ensures Valid()
      ensures match reply
              case None => phase == Parse(span, filtered)
              case Some(Ready) => false
              case Some(Pending) => phase.Payload? && c.payload.PayloadPending?
              case Some(Failure(error)) =>
                phase == Failed(error) && !error.Unreachable() && Blames(caps, limits, from, work, c, error)
      ensures work == old(work).(payloadRead := work.payloadRead)
      ensures work.payloadRead == old(work).payloadRead + (if c.payload.PayloadReady? then span else 0)
      ensures phase.Parse? ==> stats.payloadRead == span
    {
      var payload := ReadPayload(span, c);
      match payload {
        case PayloadPending =>
          phase := Payload(span, filtered);
          return Some(Pending);
        case PayloadEnd =>
          phase := Failed(UnexpectedEnd);
          return Some(Failure(UnexpectedEnd));
        case PayloadFailed =>
          phase := Failed(ChildFailed);
          return Some(Failure(ChildFailed));
        case PayloadReady(matches) =>
          if !matches {
            phase := Failed(SourceSnapshotMismatch);
            return Some(Failure(SourceSnapshotMismatch));
          }
          stats := stats.(payloadRead := span);
          var error := UpdateTotals();
          phase := FailedOr(error, Parse(span, filtered));
          reply := Answer(phase, Payload(span, filtered));
      }
    }

    /** parse_object_stream. */
    method ParseObjectStream(filtered: bool, c: Children, ghost span: nat, ghost from: Phase) returns (reply: Reply)
      requires limits.decode.Valid() && phase.Transition? && Bounded(c)
      requires Inv(caps, JobState(Parse(span, filtered), stats, work)) && filtered == FilteredOf(from, c)
      modifies this
      ensures Valid() && !reply.Pending?
      ensures reply.Ready? ==> phase.Complete? && ObjectParsed(caps, limits, work, c)
      ensures reply.Failure? ==>
                phase == Failed(reply.error) && !reply.error.Unreachable() && Blames(caps, limits, from, work, c, reply.error)
      ensures Adds(caps, limits, old(work), work, c, 0)
      ensures work == old(work).(decoded := work.decoded, parsed := work.parsed)
    {
      hide Adds, Blames, CappedDecode, CappedSyntax, FilteredOf, ObjectParsed, Bounded;
      NothingAdds(caps, limits, work, c);
      StoppedBlames(caps, limits, from, work, c);
      if c.cancelled {
        reply := Fail(Cancelled);
        return;
      }
      if caps.parse <= stats.resolverParse {
        reply := Fail(ParseBudget);
        return;
      }
      var error := ParsePasses(filtered, c, span, from);
      ParseAdds(caps, limits, old(work), work, c);
      if error.Some? {
        reply := Fail(error.value);
        return;
      }
      phase := Complete;
      reply := Ready;
    }

    /** Both passes, the totals and what is retained. */
    method ParsePasses(filtered: bool, c: Children, ghost span: nat, ghost from: Phase) returns (error: Option<JobError>)
      requires limits.decode.Valid() && Bounded(c) && filtered == FilteredOf(from, c) && stats.resolverParse < caps.parse
      requires Inv(caps, JobState(Parse(span, filtered), stats, work))
      modifies this`stats, this`work
      ensures work == old(work).(decoded := work.decoded, parsed := work.parsed)
      ensures work.decoded + work.parsed <= caps.parse - work.resolverParse
      ensures work.decoded == 0
              || (caps.parse - work.resolverParse > 1
                  && work.decoded == c.decode(CappedDecode(limits.decode, caps.parse - work.resolverParse - 1).maxTotal).amount)
      ensures work.parsed == 0
              || work.parsed == c.semantic(CappedSyntax(limits.maxSyntax, caps.parse - work.resolverParse - work.decoded)).amount
      ensures error.None? ==> Inv(caps, JobState(Complete, stats, work)) && ObjectParsed(caps, limits, work, c)
      ensures error.Some? ==>
                && Inv(caps, JobState(Failed(error.value), stats, work)) && Blames(caps, limits, from, work, c, error.value)
                && !error.value.Unreachable()
    {
      hide Blames, CappedDecode, CappedSyntax, FilteredOf, ObjectParsed, Bounded;
      error := ParseWithin(filtered, caps.parse - stats.resolverParse, c);
      StoppedBlames(caps, limits, from, work, c);
      if error.Some? {
        PassBlames(caps, limits, from, filtered, work, c, error.value);
        return;
      }
      SuccessParses(caps, limits, work, c);
      error := UpdateTotals();
      if error.None? && !c.retainedOk {
        error := Some(RetainedLimit);
      }
    }

    /** The decode and semantic passes: together they do no more than what is left, succeed
        or fail, and what they do is recorded as soon as they have done it. */
    method ParseWithin(filtered: bool, parseRemaining: nat, c: Children) returns (error: Option<JobError>)
      requires limits.decode.Valid() && 0 < parseRemaining && Bounded(c)
      requires stats.decodeOutput == stats.semanticParse == work.decoded == work.parsed == 0
      modifies this`stats, this`work
      ensures stats == old(stats).(decodeOutput := stats.decodeOutput, semanticParse := stats.semanticParse)
      ensures work == old(work).(decoded := work.decoded, parsed := work.parsed)
      ensures work.decoded + work.parsed <= parseRemaining
      ensures stats.decodeOutput <= work.decoded && stats.semanticParse <= work.parsed
      ensures error.Some? ==>
                || (error.value == ParseBudget && filtered && parseRemaining < 2)
                || (error.value == ChildFailed && filtered && parseRemaining > 1
                    && !c.decode(CappedDecode(limits.decode, parseRemaining - 1).maxTotal).ok)
                || (error.value == ChildFailed
                    && (!c.matches || !c.semantic(CappedSyntax(limits.maxSyntax, parseRemaining - work.decoded)).ok))
      ensures error.None? ==> c.matches && stats.decodeOutput == work.decoded && stats.semanticParse == work.parsed
      ensures work.decoded == 0
              || (filtered && parseRemaining > 1
                  && work.decoded == c.decode(CappedDecode(limits.decode, parseRemaining - 1).maxTotal).amount)
      ensures work.parsed == 0
              || work.parsed == c.semantic(CappedSyntax(limits.maxSyntax, parseRemaining - work.decoded)).amount
      ensures error.None? ==>
                && (if filtered then
                      && parseRemaining > 1
                      && c.decode(CappedDecode(limits.decode, parseRemaining - 1).maxTotal) == Effort(true, stats.decodeOutput)
                    else stats.decodeOutput == 0)
                && c.semantic(CappedSyntax(limits.maxSyntax, parseRemaining - stats.decodeOutput))
                   == Effort(true, stats.semanticParse)
      ensures filtered && parseRemaining > 1 && c.decode(CappedDecode(limits.decode, parseRemaining - 1).maxTotal).ok ==>
                stats.decodeOutput == c.decode(CappedDecode(limits.decode, parseRemaining - 1).maxTotal).amount
    {
      var semanticCap := parseRemaining;
      if filtered {
        if parseRemaining < 2 {
          return Some(ParseBudget);
        }
        var decodeLimits := CappedDecode(limits.decode, parseRemaining - 1);
        var decoded := Decode(decodeLimits.maxTotal, c);
        if !decoded.ok {
          return Some(ChildFailed);
        }
        stats := stats.(decodeOutput := decoded.amount);
        if parseRemaining <= stats.decodeOutput {
          return Some(SemanticCapLost);
        }
        semanticCap := parseRemaining - stats.decodeOutput;
      }
      var semantic := ParseSemantic(CappedSyntax(limits.maxSyntax, semanticCap), c);
      if !semantic.ok || !c.matches {
        return Some(ChildFailed);
      }
      stats := stats.(semanticParse := semantic.amount);
      return None;
    }
  }

  // ------------------------------------------------------------------ who is to blame

  lemma StoppedBlames(caps: WorkCaps, limits: JobLimits, from: Phase, w: Work, c: Children)
    ensures c.cancelled ==> Blames(caps, limits, from, w, c, Cancelled)
    ensures caps.parse <= w.resolverParse ==> Blames(caps, limits, from, w, c, ParseBudget)
    ensures !c.retainedOk ==> Blames(caps, limits, from, w, c, RetainedLimit)
  {
  }

  lemma SuccessParses(caps: WorkCaps, limits: JobLimits, w: Work, c: Children)
    requires w.resolverParse + w.decoded <= caps.parse && c.matches
    requires c.semantic(CappedSyntax(limits.maxSyntax, caps.parse - w.resolverParse - w.decoded)) == Effort(true, w.parsed)
    ensures c.retainedOk ==> ObjectParsed(caps, limits, w, c)
  {
    hide CappedSyntax;
  }

  lemma PassBlames(caps: WorkCaps, limits: JobLimits, from: Phase, filtered: bool, w: Work, c: Children, error: JobError)
    requires limits.decode.Valid() && w.resolverParse + w.decoded <= caps.parse && w.resolverParse < caps.parse
    requires filtered == FilteredOf(from, c)
    requires var remaining := caps.parse - w.resolverParse;
             || (error == ParseBudget && filtered && remaining < 2)
             || (error == ChildFailed && filtered && remaining > 1 && !c.decode(CappedDecode(limits.decode, remaining - 1).maxTotal).ok)
             || (error == ChildFailed && (!c.matches || !c.semantic(CappedSyntax(limits.maxSyntax, remaining - w.decoded)).ok))
    ensures Blames(caps, limits, from, w, c, error) && !error.Unreachable()
  {
    hide CappedDecode, CappedSyntax, FilteredOf;
  }

  // ------------------------------------------------------------------ the work of one poll

  lemma NothingAdds(caps: WorkCaps, limits: JobLimits, w: Work, c: Children)
    ensures forall span :: Adds(caps, limits, w, w, c, span)
  {
  }

  lemma FramingAdds(caps: WorkCaps, limits: JobLimits, w: Work, w': Work, c: Children, span: nat)
    requires w' == w.(resolverRead := c.resolverRead, resolverParse := c.resolverParse)
    ensures Adds(caps, limits, w, w', c, span)
  {
  }

  lemma PayloadAdds(caps: WorkCaps, limits: JobLimits, w: Work, mid: Work, w': Work, c: Children, span: nat)
    requires Adds(caps, limits, w, mid, c, span)
    requires mid.payloadRead == w.payloadRead && mid.decoded == w.decoded && mid.parsed == w.parsed
    requires w' == mid.(payloadRead := mid.payloadRead + if c.payload.PayloadReady? then span else 0)
    ensures Adds(caps, limits, w, w', c, span)
  {
  }

  lemma ParseAdds(caps: WorkCaps, limits: JobLimits, w: Work, w': Work, c: Children)
    requires limits.decode.Valid() && w.resolverParse < caps.parse && w.decoded == w.parsed == 0
    requires w' == w.(decoded := w'.decoded, parsed := w'.parsed)
    requires w'.decoded + w'.parsed <= caps.parse - w.resolverParse
    requires w'.decoded == 0
             || (caps.parse - w.resolverParse > 1
                 && w'.decoded == c.decode(CappedDecode(limits.decode, caps.parse - w.resolverParse - 1).maxTotal).amount)
    requires w'.parsed == 0
             || w'.parsed == c.semantic(CappedSyntax(limits.maxSyntax, caps.parse - w.resolverParse - w'.decoded)).amount
    ensures Adds(caps, limits, w, w', c, 0)
  {
  }

  lemma LastAdds(caps: WorkCaps, limits: JobLimits, w: Work, mid: Work, w': Work, c: Children, span: nat)
    requires Adds(caps, limits, w, mid, c, span) && mid.decoded == w.decoded && mid.parsed == w.parsed
    requires Adds(caps, limits, mid, w', c, 0) && w' == mid.(decoded := w'.decoded, parsed := w'.parsed)
    ensures Adds(caps, limits, w, w', c, span)
  {
  }

  // ------------------------------------------------------------------ whole runs

  /** One poll, as the contract of Poll has it: of a sound job, with children that obey. */
  ghost predicate PollAt(caps: WorkCaps, limits: JobLimits, states: seq<JobState>, children: seq<Children>,
                         replies: seq<Reply>, i: nat)
    requires |states| == |replies| + 1 == |children| + 1 && i < |replies|
  {
    Inv(caps, states[i]) && Obey(caps, limits, states[i], children[i]) ==>
      && Inv(caps, states[i + 1]) && PollStep(states[i], states[i + 1], replies[i])
      && Adds(caps, limits, states[i].work, states[i + 1].work, children[i], SpanOf(states[i].phase, children[i]))
  }

  /** A job's life: any number of polls of a new job, its children obeying each time. */
  ghost predicate Life(caps: WorkCaps, limits: JobLimits, states: seq<JobState>, children: seq<Children>, replies: seq<Reply>) {
    && |states| == |replies| + 1 == |children| + 1
    && IsNew(states[0])
    && forall i :: 0 <= i < |replies| ==>
         Obey(caps, limits, states[i], children[i]) && PollAt(caps, limits, states, children, replies, i)
  }

  /** At every point of a life, failures included, all they have read together and all they have parsed together stays
      within the caps of the job. A job that has completed reports exactly this work. */
  lemma {:induction false} BudgetsKept(caps: WorkCaps, limits: JobLimits, states: seq<JobState>, children: seq<Children>,
                                       replies: seq<Reply>, i: nat)
    requires Life(caps, limits, states, children, replies) && i < |states|
    ensures Inv(caps, states[i])
    ensures states[i].work.Read() <= caps.read && states[i].work.Parsed() <= caps.parse
    ensures states[i].phase.Complete? ==>
              states[i].stats.totalRead == states[i].work.Read() && states[i].stats.totalParse == states[i].work.Parsed()
  {
    hide Obey, Adds, PollStep;
    if i > 0 {
      BudgetsKept(caps, limits, states, children, replies, i - 1);
      assert PollAt(caps, limits, states, children, replies, i - 1);
    }
  }

  lemma LifeLengths(caps: WorkCaps, limits: JobLimits, states: seq<JobState>, children: seq<Children>, replies: seq<Reply>)
    requires Life(caps, limits, states, children, replies)
    ensures |states| == |replies| + 1 == |children| + 1
  {
  }

  /** The work of a life is what the children answered, poll by poll. */
  lemma WorkIsAnswers(caps: WorkCaps, limits: JobLimits, states: seq<JobState>, children: seq<Children>, replies: seq<Reply>, i: nat)
    requires Life(caps, limits, states, children, replies) && i < |replies|
    ensures PollStep(states[i], states[i + 1], replies[i])
    ensures Adds(caps, limits, states[i].work, states[i + 1].work, children[i], SpanOf(states[i].phase, children[i]))
  {
    hide Obey, Adds, PollStep;
    BudgetsKept(caps, limits, states, children, replies, i);
    assert PollAt(caps, limits, states, children, replies, i);
  }

  ghost predicate PolledAt(states: seq<JobState>, replies: seq<Reply>, i: nat)
    requires |states| == |replies| + 1 && i < |replies|
  {
    PollStep(states[i], states[i + 1], replies[i])
  }

  ghost predicate Polled(states: seq<JobState>, replies: seq<Reply>) {
    |states| == |replies| + 1 && forall i :: 0 <= i < |replies| ==> PolledAt(states, replies, i)
  }

  lemma LifePolled(caps: WorkCaps, limits: JobLimits, states: seq<JobState>, children: seq<Children>, replies: seq<Reply>)
    requires Life(caps, limits, states, children, replies)
    ensures Polled(states, replies)
  {
    LifeLengths(caps, limits, states, children, replies);
    hide Life, PollStep;
    forall i | 0 <= i < |replies| ensures PolledAt(states, replies, i) {
      WorkIsAnswers(caps, limits, states, children, replies, i);
    }
  }

  lemma {:induction false} PolledForward(states: seq<JobState>, replies: seq<Reply>, i: nat, j: nat)
    requires Polled(states, replies) && i <= j < |states|
    ensures Rank(states[i].phase) <= Rank(states[j].phase)
    ensures states[i].phase.Complete? || states[i].phase.Failed? ==> states[j] == states[i]
    decreases j
  {
    if i < j {
      PolledForward(states, replies, i, j - 1);
      assert PolledAt(states, replies, j - 1);
    }
  }

  lemma PhasesMoveForward(caps: WorkCaps, limits: JobLimits, states: seq<JobState>, children: seq<Children>,
                          replies: seq<Reply>, i: nat, j: nat)
    requires Life(caps, limits, states, children, replies) && i <= j < |states|
    ensures Rank(states[i].phase) <= Rank(states[j].phase)
    ensures states[i].phase.Complete? || states[i].phase.Failed? ==> states[j] == states[i]
  {
    LifePolled(caps, limits, states, children, replies);
    hide Life, Polled;
    PolledForward(states, replies, i, j);
  }

  lemma PolledReadyOnce(states: seq<JobState>, replies: seq<Reply>, i: nat, j: nat)
    requires Polled(states, replies) && i < j < |replies| && replies[i].Ready?
    ensures replies[j] == Failure(JobAlreadyComplete)
  {
    assert PolledAt(states, replies, i) && PolledAt(states, replies, j);
    PolledForward(states, replies, i + 1, j);
  }

  /** Ready is returned at most once, and after it every poll fails as already complete. */
  lemma ReadyOnce(caps: WorkCaps, limits: JobLimits, states: seq<JobState>, children: seq<Children>, replies: seq<Reply>,
                  i: nat, j: nat)
    requires Life(caps, limits, states, children, replies) && i < j < |replies| && replies[i].Ready?
    ensures replies[j] == Failure(JobAlreadyComplete)
  {
    LifePolled(caps, limits, states, children, replies);
    hide Life, Polled;
    PolledReadyOnce(states, replies, i, j);
  }
}
