/** Types shared by every component: bytes, machine-integer ceilings, options and
    the byte layer's error values. */
module Basics {

  type Byte = x: nat | x < 256

  const U64_MAX: nat := 0xFFFF_FFFF_FFFF_FFFF

  datatype Option<+T> = None | Some(value: T)

  function Min(a: int, b: int): int { if a <= b then a else b }

  function Max(a: int, b: int): int { if a <= b then b else a }

  /** Budget dimensions of the byte layer (SourceLimitKind). */
  datatype LimitKind =
    | InputBytes
    | ReadBytes
    | CachedBytes
    | ResidentBytes
    | Segments
    | Tickets
    | TicketSubscribers
    | TotalSubscriptions
    | MissingRanges
    | Allocation

  /** Byte-layer failures (SourceErrorCode together with the limit context). */
  datatype SourceError =
    | InvalidRange
    | ResponseLengthMismatch
    | ResponseOutOfBounds
    | SourceChanged
    | ConflictingBytes
    | ResourceLimit(kind: LimitKind, limit: nat, attempted: nat)
    | RangeCountLimit
    | UnknownTicket
    | TicketAlreadyTerminal
    | TicketNotTerminal
    | CheckpointConflict
    | SubscriptionsNotTaken
    | SourceUnavailable
    | InternalState
  {
    /** The category whose report poisons the whole snapshot. */
    predicate Integrity() { SourceChanged? || ConflictingBytes? }
  }

  datatype Result<+T> = Ok(value: T) | Err(error: SourceError)
}
