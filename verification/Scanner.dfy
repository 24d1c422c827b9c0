/** The content scanner (pdf-rs/content/src/scanner.rs, lines 161-918). The class is the
    source's Runner: it walks the streams, charges fuel and tokens, and builds operand
    trees. The ghost log of token spans ties what it returns to ContentTokens. Cancellation
    and allocation are arbitrary outcomes. */
module Scanner {
  import opened Basics
  import opened Decimal
  import opened NumberLexemes
  import opened Lexical
  import opened ContentTokens
  import opened TokenGrammar
  import opened ScanLimits

  const CANCELLATION_PROBE_INTERVAL := 256

  datatype Outcome<+T> = Accepted(value: T) | Rejected(error: ContentError)

  /** The scanned operators, in order. */
  datatype Program = NoOperators | Published(front: Program, span: Span, known: bool, operands: Items, ordinal: nat)

  datatype ArrayStep = Closed(operand: Operand) | More(items: Items)

  datatype DictionaryStep = ClosedEntries(operand: Operand) | MoreEntries(entries: Entries)

  /** How far a scan has come. */
  datatype Progress = Progress(here: Pos, log: seq<Span>, operands: nat, nesting: nat)

  class Runner {
    const streams: seq<seq<Byte>>
    const limits: ContentLimits
    /** The operator tokens the scanner knows. */
    const known: set<seq<Byte>>
    var streamIndex: nat
    var offset: nat
    var totalDecodedBytes: nat
    var tokens: nat
    var maxTokenBytes: nat
    var operands: nat
    var maxOperandsPerOperator: nat
    var maxNestingDepth: nat
    var operators: nat
    var unknownOperators: nat
    var fuel: nat
    var retainedBytes: nat
    ghost var log: seq<Span>

    constructor (streams: seq<seq<Byte>>, limits: ContentLimits, known: set<seq<Byte>>)
      ensures this.streams == streams && this.limits == limits && this.known == known
      ensures Valid() && log == [] && operands == maxNestingDepth == operators == 0
      ensures maxOperandsPerOperator == unknownOperators == 0 && Scanned(NoOperators, NoItems)
    {
      this.streams, this.limits, this.known := streams, limits, known;
      streamIndex, offset, totalDecodedBytes, tokens, maxTokenBytes := 0, 0, 0, 0, 0;
      operands, maxOperandsPerOperator, maxNestingDepth, operators := 0, 0, 0, 0;
      unknownOperators, fuel, retainedBytes := 0, 0, 0;
      log := [];
      new;
      NothingRead(streams);
    }

    // ---------------------------------------------------------------- state

    ghost function Here(): Pos
      reads this
    {
      Pos(streamIndex, offset)
    }

    ghost function Now(): Progress
      reads this
    {
      Progress(Here(), log, operands, maxNestingDepth)
    }

    /** Ceilings that hold even after an error. */
    ghost predicate Bounded()
      reads this
    {
      && fuel <= limits.maxFuel && tokens <= limits.maxTokens && retainedBytes <= limits.maxRetainedBytes
      && maxNestingDepth <= limits.maxNestingDepth && maxTokenBytes <= limits.maxTokenBytes
    }

    /** Between tokens: every byte and every token so far is charged exactly once, and the
        log is the token sequence of the bytes behind. */
    ghost predicate Valid()
      reads this
    {
      && Bounded()
      && InStreams(streams, Here())
      && fuel == Behind(streams, Here()) + tokens
      && LogValid()
      && Skip(streams, LogEnd(log, |log|)) == Skip(streams, Here())
    }

    ghost predicate LogValid()
      reads this
    {
      && tokens == |log| && Lexed(streams, log) && InStreams(streams, LogEnd(log, |log|))
      && maxTokenBytes == LongestToken(log, |log|)
    }

    /** At the start of the next token, or at the end of the input. */
    ghost predicate AtToken()
      reads this
    {
      Valid() && Skip(streams, Here()) == Here()
    }

    /** Inside a token that starts at the current position, its bytes up to `end` charged. */
    ghost predicate Charged(end: nat)
      reads this
    {
      && Bounded() && LogValid()
      && streamIndex < |streams| && offset <= end <= |streams[streamIndex]|
      && fuel == Behind(streams, Here()) + tokens + (end - offset)
      && Skip(streams, LogEnd(log, |log|)) == Here()
    }

    ghost function Remaining(): nat
      requires InStreams(streams, Here())
      reads this
    {
      BehindTotal(streams, Here());
      Length(streams, |streams|) - Behind(streams, Here())
    }

    predicate AtEnd()
      reads this
    {
      streamIndex >= |streams|
    }

    function Peek(): Option<Byte>
      reads this
    {
      if streamIndex < |streams| then At(streams[streamIndex], offset) else None
    }

    function PeekNext(): Option<Byte>
      reads this
    {
      if streamIndex < |streams| then At(streams[streamIndex], offset + 1) else None
    }

    // ---------------------------------------------------------------- charges

    method CheckCancelled() returns (failed: Option<ContentError>)
      ensures failed.Some? ==> failed.value == Cancelled
    {
      var cancelled: bool := *;
      failed := if cancelled then Some(Cancelled) else None;
    }

    method ChargeFuel(amount: nat) returns (failed: Option<ContentError>)
      requires fuel <= limits.maxFuel
      modifies this`fuel
      ensures fuel <= limits.maxFuel
      ensures fuel == if failed.None? then old(fuel) + amount else old(fuel)
      ensures failed.Some? ==> RunsDry(limits, failed.value, fuel + amount)
    {
      var next := fuel + amount;
      failed := None;
      if fuel % CANCELLATION_PROBE_INTERVAL == 0 || next / CANCELLATION_PROBE_INTERVAL > fuel / CANCELLATION_PROBE_INTERVAL {
        failed := CheckCancelled();
      }
      if failed.None? {
        if next > limits.maxFuel {
          failed := Some(Resource(Fuel));
        } else {
          fuel := next;
        }
      }
    }

    /** charge_token behind make_span: the token's bytes are charged already. */
    method FinishToken(end: nat) returns (r: Outcome<Span>)
      requires Charged(end) && offset < end && TokenEnd(streams[streamIndex], offset) == Some(end)
      modifies this`offset, this`fuel, this`tokens, this`maxTokenBytes, this`log
      ensures Bounded()
      ensures r.Accepted? ==>
                && Valid() && Here() == Pos(old(streamIndex), end)
                && r.value == Span(old(streamIndex), old(offset), end) && log == old(log) + [r.value]
      ensures r.Rejected? ==> Justified(streams, limits, r.error) && !r.error.Syntactic()
    {
      hide LexedTo, NextToken, Skip, TokenEnd;
      var span := Span(streamIndex, offset, end);
      LexedOn(streams, log, span);
      LongestOn(log, span);
      offset := end;
      if end - span.start > limits.maxTokenBytes {
        TokenTooLong(streams, limits, log, span);
        return Rejected(Resource(TokenBytes));
      }
      if tokens >= limits.maxTokens {
        TooManyTokens(streams, limits, log + [span]);
        return Rejected(Resource(Tokens));
      }
      var failed := ChargeFuel(1);
      if failed.Some? {
        DryIsJustified(streams, limits, log + [span], Here(), failed.value, fuel + 1);
        return Rejected(failed.value);
      }
      tokens := tokens + 1;
      maxTokenBytes := Max(maxTokenBytes, end - span.start);
      log := log + [span];
      return Accepted(span);
    }

    /** preflight_retained, the reservation, and commit_retained with the capacity the
        allocator reports. */
    method AllocateBytes(capacity: nat) returns (failed: Option<ContentError>)
      requires retainedBytes <= limits.maxRetainedBytes
      modifies this`retainedBytes
      ensures retainedBytes <= limits.maxRetainedBytes
      ensures failed.None? ==> retainedBytes >= old(retainedBytes) + capacity
      ensures failed.Some? ==> failed.value.Resource? && Justified(streams, limits, failed.value)
    {
      if retainedBytes + capacity > limits.maxRetainedBytes {
        return Some(Resource(RetainedBytes));
      }
      var granted: bool := *;
      if !granted {
        return Some(Resource(ContentLimit.Allocation));
      }
      var actual: nat :| actual >= capacity;
      if retainedBytes + actual > limits.maxRetainedBytes {
        return Some(Resource(RetainedBytes));
      }
      retainedBytes := retainedBytes + actual;
      failed := None;
    }

    /** reserve_slot: a full vector grows, and its growth is retained. */
    method ReserveSlot() returns (failed: Option<ContentError>)
      requires retainedBytes <= limits.maxRetainedBytes
      modifies this`retainedBytes
      ensures retainedBytes <= limits.maxRetainedBytes
      ensures failed.Some? ==> failed.value.Resource? && Justified(streams, limits, failed.value)
    {
      var full: bool := *;
      failed := None;
      if full {
        var minimumBytes: nat :| minimumBytes > 0;
        failed := AllocateBytes(minimumBytes);
      }
    }

    /** A token and the allocation of its decoded bytes. */
    method FinishWithBytes(end: nat, decodedLen: nat) returns (r: Outcome<Span>)
      requires Charged(end) && offset < end && TokenEnd(streams[streamIndex], offset) == Some(end)
      modifies this`offset, this`fuel, this`tokens, this`maxTokenBytes, this`log, this`retainedBytes
      ensures Bounded()
      ensures r.Accepted? ==>
                && Valid() && Here() == Pos(old(streamIndex), end)
                && r.value == Span(old(streamIndex), old(offset), end) && log == old(log) + [r.value]
      ensures r.Rejected? ==> Justified(streams, limits, r.error) && !r.error.Syntactic()
    {
      hide LexedTo, NextToken, Skip, TokenEnd;
      r := FinishToken(end);
      if r.Accepted? {
        var failed := AllocateBytes(decodedLen);
        if failed.Some? {
          r := Rejected(failed.value);
        }
      }
    }

    // ---------------------------------------------------------------- white space

    /** advance_boundaries. */
    method AdvanceBoundaries()
      requires Valid()
      modifies this`streamIndex, this`offset
      ensures Valid() && Skip(streams, Here()) == Skip(streams, old(Here()))
      ensures Behind(streams, Here()) == Behind(streams, old(Here()))
      ensures streamIndex < |streams| ==> offset < |streams[streamIndex]|
    {
      hide LexedTo, NextToken, Skip;
      while streamIndex < |streams| && offset == |streams[streamIndex]|
        invariant Valid() && Skip(streams, Here()) == Skip(streams, old(Here()))
        invariant Behind(streams, Here()) == Behind(streams, old(Here()))
        decreases |streams| - streamIndex
      {
        BoundarySkips(streams, streamIndex);
        streamIndex := streamIndex + 1;
        offset := 0;
      }
    }

    /** The comment loop: up to and including the line end, or to the end of the stream. */
    method SkipComment() returns (failed: Option<ContentError>)
      requires Valid() && streamIndex < |streams| && offset < |streams[streamIndex]|
      requires streams[streamIndex][offset] == PERCENT
      modifies this`offset, this`fuel
      ensures Bounded()
      ensures failed.None? ==> Valid() && Skip(streams, Here()) == Skip(streams, old(Here()))
      ensures failed.None? ==> offset > old(offset)
      ensures failed.Some? ==> Justified(streams, limits, failed.value) && !failed.value.Syntactic()
    {
      hide LexedTo, NextToken, Skip;
      var bytes := streams[streamIndex];
      ghost var start, fuelStart := offset, fuel;
      while offset < |bytes|
        invariant start <= offset <= |bytes| && Bounded() && fuel == fuelStart + (offset - start)
        invariant CommentEnd(bytes, start) == CommentEnd(bytes, offset)
        decreases |bytes| - offset
      {
        var current := bytes[offset];
        failed := ChargeFuel(1);
        if failed.Some? {
          DryIsJustified(streams, limits, log, Pos(streamIndex, offset + 1), failed.value, fuel + 1);
          return;
        }
        offset := offset + 1;
        if current == CR || current == LF {
          CommentSkips(streams, streamIndex, start, offset);
          return None;
        }
      }
      CommentSkips(streams, streamIndex, start, offset);
      return None;
    }

    method SkipWhitespace() returns (failed: Option<ContentError>)
      requires Valid() && streamIndex < |streams| && offset < |streams[streamIndex]|
      requires IsWhitespace(streams[streamIndex][offset])
      modifies this`offset, this`fuel
      ensures Bounded()
      ensures failed.None? ==> Valid() && Skip(streams, Here()) == Skip(streams, old(Here())) && offset == old(offset) + 1
      ensures failed.Some? ==> Justified(streams, limits, failed.value) && !failed.value.Syntactic()
    {
      hide LexedTo, NextToken, Skip;
      WhitespaceSkips(streams, streamIndex, offset);
      failed := ChargeFuel(1);
      if failed.None? {
        offset := offset + 1;
      } else {
        DryIsJustified(streams, limits, log, Pos(streamIndex, offset + 1), failed.value, fuel + 1);
      }
    }

    method SkipTrivia() returns (failed: Option<ContentError>)
      requires Valid()
      modifies this`streamIndex, this`offset, this`fuel
      ensures Bounded()
      ensures failed.None? ==> AtToken() && Here() == Skip(streams, old(Here()))
      ensures failed.Some? ==> Justified(streams, limits, failed.value) && !failed.value.Syntactic()
    {
      hide LexedTo, NextToken;
      while true
        invariant Valid() && Skip(streams, Here()) == Skip(streams, old(Here()))
        decreases Length(streams, |streams|) - Behind(streams, Here())
      {
        BehindTotal(streams, Here());
        AdvanceBoundaries();
        if streamIndex >= |streams| {
          return None;
        }
        var byte := streams[streamIndex][offset];
        if IsWhitespace(byte) {
          failed := SkipWhitespace();
          if failed.Some? {
            return;
          }
        } else if byte == PERCENT {
          failed := SkipComment();
          if failed.Some? {
            return;
          }
        } else {
          return None;
        }
      }
    }

    // ---------------------------------------------------------------- tokens

    /** scan_regular. */
    method ScanRegular() returns (r: Outcome<Span>)
      requires AtToken() && streamIndex < |streams|
      modifies this`offset, this`fuel, this`tokens, this`maxTokenBytes, this`log
      ensures Bounded()
      ensures r.Accepted? ==>
                && Valid() && Here() == r.value.Behind() && log == old(log) + [r.value]
                && r.value.First() == old(Here()) && InBounds(streams, r.value)
                && !IsDelimiter(streams[r.value.stream][r.value.start])
      ensures r.Rejected? && r.error.Syntactic() ==> old(Peek()).None? || IsDelimiter(old(Peek()).value)
      ensures r.Rejected? && !r.error.Syntactic() ==> Justified(streams, limits, r.error)
    {
      hide LexedTo, NextToken, Skip, TokenEnd;
      var bytes := streams[streamIndex];
      var end := offset;
      while end < |bytes| && !IsDelimiter(bytes[end])
        invariant Charged(end) && RegularEnd(bytes, offset) == RegularEnd(bytes, end)
        decreases |bytes| - end
        modifies this`fuel
      {
        var failed := ChargeFuel(1);
        if failed.Some? {
          DryIsJustified(streams, limits, log, Pos(streamIndex, end + 1), failed.value, fuel + 1);
          return Rejected(failed.value);
        }
        end := end + 1;
      }
      if end == offset {
        return Rejected(MalformedToken);
      }
      RegularEnds(bytes, offset);
      r := FinishToken(end);
    }

    /** scan_fixed, for the brackets. */
    method ScanFixed(len: nat) returns (r: Outcome<Span>)
      requires AtToken() && streamIndex < |streams| && offset < |streams[streamIndex]| && 0 < len
      requires TokenEnd(streams[streamIndex], offset) == Some(offset + len)
      modifies this`offset, this`fuel, this`tokens, this`maxTokenBytes, this`log
      ensures Bounded()
      ensures r.Accepted? ==>
                && Valid() && Here() == r.value.Behind() && log == old(log) + [r.value]
                && r.value.First() == old(Here()) && InBounds(streams, r.value) && r.value.end == r.value.start + len
      ensures r.Rejected? ==> Justified(streams, limits, r.error) && !r.error.Syntactic()
    {
      hide LexedTo, NextToken, Skip, TokenEnd;
      var end := offset + len;
      if end > |streams[streamIndex]| {
        return Rejected(MismatchedDelimiter);
      }
      var failed := ChargeFuel(len);
      if failed.Some? {
        DryIsJustified(streams, limits, log, Pos(streamIndex, end), failed.value, fuel + len);
        return Rejected(failed.value);
      }
      assert Charged(end) && Here() == old(Here()) && log == old(log);
      r := FinishToken(end);
    }

    /** The first loop of scan_name: it charges every byte, checks every escape and counts
        the characters the second loop will write. */
    method ValidateName(bytes: seq<Byte>, start: nat) returns (r: Outcome<(nat, nat)>)
      requires fuel <= limits.maxFuel && start < |bytes| && bytes[start] == SLASH
      modifies this`fuel
      ensures fuel <= limits.maxFuel
      ensures r.Accepted? ==>
                && start < r.value.0 && fuel == old(fuel) + (r.value.0 - start)
                && NameEnds(bytes, start + 1, r.value.0) && r.value.1 == |NameFrom(bytes, start + 1).value.0|
      ensures r.Rejected? && r.error.Syntactic() ==> NameFrom(bytes, start + 1).None?
      ensures r.Rejected? && !r.error.Syntactic() ==> RunsDry(limits, r.error, old(fuel) + (|bytes| - start))
    {
      var failed := ChargeFuel(1);
      if failed.Some? {
        return Rejected(failed.value);
      }
      var index := start + 1;
      var decodedLen := 0;
      while index < |bytes| && !IsDelimiter(bytes[index])
        invariant start < index <= |bytes| && fuel == old(fuel) + (index - start) <= limits.maxFuel
        invariant Counted(bytes, start + 1, index, decodedLen)
        decreases |bytes| - index
      {
        failed := ChargeFuel(1);
        if failed.Some? {
          return Rejected(failed.value);
        }
        if bytes[index] == HASH {
          if index + 1 >= |bytes| || HexValue(bytes[index + 1]).None? {
            return Rejected(InvalidNameEscape);
          }
          if index + 2 >= |bytes| || HexValue(bytes[index + 2]).None? {
            return Rejected(InvalidNameEscape);
          }
          failed := ChargeFuel(2);
          if failed.Some? {
            return Rejected(failed.value);
          }
          index := index + 3;
        } else {
          index := index + 1;
        }
        decodedLen := decodedLen + 1;
      }
      return Accepted((index, decodedLen));
    }

    /** scan_name. */
    method ScanName() returns (r: Outcome<(Span, seq<Byte>)>)
      requires AtToken() && Peek() == Some(SLASH)
      modifies this`offset, this`fuel, this`tokens, this`maxTokenBytes, this`log, this`retainedBytes
      ensures Bounded()
      ensures r.Accepted? ==>
                && Valid() && Here() == r.value.0.Behind() && log == old(log) + [r.value.0]
                && r.value.0.First() == old(Here()) && InBounds(streams, r.value.0)
                && IsName(streams[r.value.0.stream], r.value.0.start, r.value.0.end, r.value.1)
      ensures r.Rejected? ==> Justified(streams, limits, r.error)
    {
      hide LexedTo, NextToken, Skip, Hopeless;
      var bytes, start := streams[streamIndex], offset;
      var validated := ValidateName(bytes, start);
      if validated.Rejected? {
        if validated.error.Syntactic() {
          NoTokenIsHopeless(streams, log, Here());
        } else {
          PassIsJustified(streams, limits, log, Here(), validated.error, old(fuel) + (|bytes| - start));
        }
        return Rejected(validated.error);
      }
      var index, decodedLen := validated.value.0, validated.value.1;
      assert Charged(index);
      var span := FinishWithBytes(index, decodedLen);
      if span.Rejected? {
        return Rejected(span.error);
      }
      var decoded := DecodeName(bytes, start + 1, index);
      assert |decoded| == decodedLen;
      return Accepted((span.value, decoded));
    }

    /** The validating loop's work on a backslash: one escape, up to four bytes. */
    method ValidateEscape(bytes: seq<Byte>, index: nat) returns (r: Outcome<(nat, nat)>)
      requires fuel <= limits.maxFuel && index < |bytes| && bytes[index] == BACKSLASH
      modifies this`fuel
      ensures fuel <= limits.maxFuel
      ensures r.Accepted? ==>
                && index < r.value.0 && fuel == old(fuel) + (r.value.0 - index - 1)
                && PieceIs(bytes, index, r.value.0, r.value.1)
      ensures r.Rejected? && r.error.Syntactic() ==> LexAt(bytes, index) == None
      ensures r.Rejected? && !r.error.Syntactic() ==> RunsDry(limits, r.error, old(fuel) + (|bytes| - index - 1))
    {
      var next := index + 1;
      if next >= |bytes| {
        return Rejected(UnterminatedString);
      }
      var escaped := bytes[next];
      var failed := ChargeFuel(1);
      if failed.Some? {
        return Rejected(failed.value);
      }
      next := next + 1;
      if escaped == CR {
        if next < |bytes| && bytes[next] == LF {
          failed := ChargeFuel(1);
          if failed.Some? {
            return Rejected(failed.value);
          }
          next := next + 1;
        }
        return Accepted((next, 0));
      }
      if escaped == LF {
        return Accepted((next, 0));
      }
      if IsOctal(escaped) {
        r := ValidateOctal(bytes, index);
        return;
      }
      return Accepted((next, 1));
    }

    /** The second and third digit of an octal escape. */
    method ValidateOctal(bytes: seq<Byte>, index: nat) returns (r: Outcome<(nat, nat)>)
      requires fuel <= limits.maxFuel && index + 1 < |bytes| && bytes[index] == BACKSLASH && IsOctal(bytes[index + 1])
      modifies this`fuel
      ensures fuel <= limits.maxFuel
      ensures r.Accepted? ==>
                && index + 1 < r.value.0 && fuel == old(fuel) + (r.value.0 - index - 2)
                && PieceIs(bytes, index, r.value.0, r.value.1)
      ensures r.Rejected? ==> RunsDry(limits, r.error, old(fuel) + (|bytes| - index - 2))
    {
      var next := index + 2;
      while next < index + 4 && next < |bytes| && IsOctal(bytes[next])
        invariant index + 2 <= next <= index + 4 && next <= |bytes|
        invariant fuel == old(fuel) + (next - index - 2) <= limits.maxFuel
        invariant forall j :: index + 2 <= j < next ==> IsOctal(bytes[j])
      {
        var failed := ChargeFuel(1);
        if failed.Some? {
          return Rejected(failed.value);
        }
        next := next + 1;
      }
      return Accepted((next, 1));
    }

    /** One piece, its first byte charged. */
    method ValidatePiece(bytes: seq<Byte>, index: nat) returns (r: Outcome<(nat, nat)>)
      requires fuel <= limits.maxFuel && index < |bytes|
      modifies this`fuel
      ensures fuel <= limits.maxFuel
      ensures r.Accepted? ==>
                && index < r.value.0 && fuel == old(fuel) + (r.value.0 - index - 1)
                && PieceIs(bytes, index, r.value.0, r.value.1)
      ensures r.Rejected? && r.error.Syntactic() ==> LexAt(bytes, index) == None
      ensures r.Rejected? && !r.error.Syntactic() ==> RunsDry(limits, r.error, old(fuel) + (|bytes| - index - 1))
    {
      if bytes[index] == BACKSLASH {
        r := ValidateEscape(bytes, index);
      } else {
        if bytes[index] == CR && index + 1 < |bytes| && bytes[index + 1] == LF {
          var failed := ChargeFuel(1);
          if failed.Some? {
            return Rejected(failed.value);
          }
          return Accepted((index + 2, 1));
        }
        return Accepted((index + 1, 1));
      }
    }

    /** The validating loop of parse_literal_string: it charges every byte, balances the
        parentheses and counts the bytes decode_literal will write. */
    method ValidateLiteral(bytes: seq<Byte>, start: nat) returns (r: Outcome<(nat, nat)>)
      requires fuel <= limits.maxFuel && start < |bytes| && bytes[start] == OPEN_PAREN
      modifies this`fuel
      ensures fuel <= limits.maxFuel
      ensures r.Accepted? ==>
                && start < r.value.0 && fuel == old(fuel) + (r.value.0 - start)
                && LiteralClose(bytes, start + 1, 1) == Some(r.value.0) && r.value.1 == LiteralSize(bytes, start + 1, 1)
      ensures r.Rejected? && r.error.Syntactic() ==> LiteralClose(bytes, start + 1, 1).None?
      ensures r.Rejected? && !r.error.Syntactic() ==>
                RunsDry(limits, r.error, old(fuel) + (|bytes| - start)) || (r.error == ContentError.InternalState && |bytes| > U32_MAX)
    {
      var failed := ChargeFuel(1);
      if failed.Some? {
        return Rejected(failed.value);
      }
      var index, nesting, decodedLen := start + 1, 1, 0;
      while true
        invariant start < index <= |bytes| && fuel == old(fuel) + (index - start) <= limits.maxFuel
        invariant 1 <= nesting <= index - start
        invariant LiteralClose(bytes, index, nesting) == LiteralClose(bytes, start + 1, 1)
        invariant LiteralSize(bytes, start + 1, 1) == decodedLen + LiteralSize(bytes, index, nesting)
        decreases |bytes| - index
      {
        if index >= |bytes| {
          return Rejected(UnterminatedString);
        }
        var byte := bytes[index];
        failed := ChargeFuel(1);
        if failed.Some? {
          return Rejected(failed.value);
        }
        if byte == CLOSE_PAREN && nesting == 1 {
          LiteralStops(bytes, index);
          return Accepted((index + 1, decodedLen));
        }
        if byte == OPEN_PAREN && nesting == U32_MAX {
          return Rejected(ContentError.InternalState);
        }
        var piece := ValidatePiece(bytes, index);
        if piece.Rejected? {
          return Rejected(piece.error);
        }
        LiteralStep(bytes, index, nesting, piece.value.0, piece.value.1);
        nesting := if byte == OPEN_PAREN then nesting + 1 else if byte == CLOSE_PAREN then nesting - 1 else nesting;
        index, decodedLen := piece.value.0, decodedLen + piece.value.1;
      }
    }

    /** parse_literal_string: the second pass sees the slice between the parentheses and
        writes exactly the bytes the first pass counted. */
    method ScanLiteral() returns (r: Outcome<(Span, seq<Byte>)>)
      requires AtToken() && Peek() == Some(OPEN_PAREN)
      modifies this`offset, this`fuel, this`tokens, this`maxTokenBytes, this`log, this`retainedBytes
      ensures Bounded()
      ensures r.Accepted? ==>
                && Valid() && Here() == r.value.0.Behind() && log == old(log) + [r.value.0]
                && r.value.0.First() == old(Here()) && LeafMeans(streams, r.value.0, LiteralString(r.value.1))
      ensures r.Rejected? ==> Justified(streams, limits, r.error)
    {
      hide LexedTo, NextToken, Meaning, LiteralClose, LiteralSize, Skip, LeafMeans, Hopeless, TokenEnd;
      var bytes, start := streams[streamIndex], offset;
      var validated := ValidateLiteral(bytes, start);
      StringEnds(bytes, start);
      if validated.Rejected? {
        if validated.error.Syntactic() {
          NoTokenIsHopeless(streams, log, Here());
        } else {
          PassIsJustified(streams, limits, log, Here(), validated.error, old(fuel) + (|bytes| - start));
        }
        return Rejected(validated.error);
      }
      assert Charged(validated.value.0);
      var span := FinishWithBytes(validated.value.0, validated.value.1);
      if span.Rejected? {
        return Rejected(span.error);
      }
      var decoded := DecodeLiteralToken(streams, span.value);
      assert |decoded| == validated.value.1;
      return Accepted((span.value, decoded));
    }

    method ParseLiteralString() returns (r: Outcome<Operand>)
      requires AtToken() && Peek() == Some(OPEN_PAREN)
      modifies this`offset, this`fuel, this`tokens, this`maxTokenBytes, this`log, this`retainedBytes
      ensures Bounded()
      ensures r.Accepted? ==> Valid() && ReadLeaf(streams, old(Now()), Now(), r.value)
      ensures r.Rejected? ==> Justified(streams, limits, r.error)
    {
      hide Hopeless;
      var text := ScanLiteral();
      if text.Rejected? {
        return Rejected(text.error);
      }
      return Accepted(Leaf(text.value.0, LiteralString(text.value.1)));
    }

    /** The loop of parse_hex_string. */
    method ValidateHex(bytes: seq<Byte>, start: nat) returns (r: Outcome<(nat, nat)>)
      requires fuel <= limits.maxFuel && start < |bytes| && bytes[start] == LESS
      modifies this`fuel
      ensures fuel <= limits.maxFuel
      ensures r.Accepted? ==>
                && start < r.value.0 && fuel == old(fuel) + (r.value.0 - start)
                && HexClose(bytes, start + 1) == Some(r.value.0) && r.value.1 == |Nibbles(bytes, start + 1, r.value.0 - 1)|
      ensures r.Rejected? && r.error.Syntactic() ==> HexClose(bytes, start + 1).None?
      ensures r.Rejected? && !r.error.Syntactic() ==> RunsDry(limits, r.error, old(fuel) + (|bytes| - start))
    {
      var failed := ChargeFuel(1);
      if failed.Some? {
        return Rejected(failed.value);
      }
      var index, nibbles := start + 1, 0;
      while true
        invariant start < index <= |bytes| && fuel == old(fuel) + (index - start) <= limits.maxFuel
        invariant HexClose(bytes, index) == HexClose(bytes, start + 1)
        invariant nibbles == |Nibbles(bytes, start + 1, index)|
        decreases |bytes| - index
      {
        if index >= |bytes| {
          return Rejected(UnterminatedString);
        }
        var byte := bytes[index];
        failed := ChargeFuel(1);
        if failed.Some? {
          return Rejected(failed.value);
        }
        index := index + 1;
        if byte == GREATER {
          return Accepted((index, nibbles));
        }
        if IsWhitespace(byte) {
          continue;
        }
        if HexValue(byte).None? {
          return Rejected(InvalidHexString);
        }
        nibbles := nibbles + 1;
      }
    }

    /** parse_hex_string. */
    method ScanHex() returns (r: Outcome<(Span, seq<Byte>)>)
      requires AtToken() && Peek() == Some(LESS) && PeekNext() != Some(LESS)
      modifies this`offset, this`fuel, this`tokens, this`maxTokenBytes, this`log, this`retainedBytes
      ensures Bounded()
      ensures r.Accepted? ==>
                && Valid() && Here() == r.value.0.Behind() && log == old(log) + [r.value.0]
                && r.value.0.First() == old(Here()) && LeafMeans(streams, r.value.0, HexString(r.value.1))
      ensures r.Rejected? ==> Justified(streams, limits, r.error)
    {
      hide LexedTo, NextToken, HexMeaning, HexClose, Skip, Hopeless, TokenEnd;
      var bytes, start := streams[streamIndex], offset;
      var validated := ValidateHex(bytes, start);
      StringEnds(bytes, start);
      if validated.Rejected? {
        if validated.error.Syntactic() {
          NoTokenIsHopeless(streams, log, Here());
        } else {
          PassIsJustified(streams, limits, log, Here(), validated.error, old(fuel) + (|bytes| - start));
        }
        return Rejected(validated.error);
      }
      assert Charged(validated.value.0);
      var decodedLen := (validated.value.1 + 1) / 2;
      var span := FinishWithBytes(validated.value.0, decodedLen);
      if span.Rejected? {
        return Rejected(span.error);
      }
      var decoded := DecodeHexToken(streams, span.value);
      assert |decoded| == decodedLen;
      return Accepted((span.value, decoded));
    }

    method ParseHexString() returns (r: Outcome<Operand>)
      requires AtToken() && Peek() == Some(LESS) && PeekNext() != Some(LESS)
      modifies this`offset, this`fuel, this`tokens, this`maxTokenBytes, this`log, this`retainedBytes
      ensures Bounded()
      ensures r.Accepted? ==> Valid() && ReadLeaf(streams, old(Now()), Now(), r.value)
      ensures r.Rejected? ==> Justified(streams, limits, r.error)
    {
      hide Hopeless;
      var text := ScanHex();
      if text.Rejected? {
        return Rejected(text.error);
      }
      return Accepted(Leaf(text.value.0, HexString(text.value.1)));
    }

    /** parse_name_operand. */
    method ParseNameOperand() returns (r: Outcome<Operand>)
      requires AtToken() && Peek() == Some(SLASH)
      modifies this`offset, this`fuel, this`tokens, this`maxTokenBytes, this`log, this`retainedBytes
      ensures Bounded()
      ensures r.Accepted? ==> Valid() && ReadLeaf(streams, old(Now()), Now(), r.value)
      ensures r.Rejected? ==> Justified(streams, limits, r.error)
    {
      hide Hopeless;
      var name := ScanName();
      if name.Rejected? {
        return Rejected(name.error);
      }
      return Accepted(Leaf(name.value.0, Name(name.value.1)));
    }

    // ---------------------------------------------------------------- operands

    /** copy_token_bytes. */
    method CopyTokenBytes(span: Span) returns (r: Outcome<seq<Byte>>)
      requires InBounds(streams, span) && retainedBytes <= limits.maxRetainedBytes
      modifies this`retainedBytes
      ensures retainedBytes <= limits.maxRetainedBytes
      ensures r.Accepted? ==> r.value == Text(streams, span)
      ensures r.Rejected? ==> r.error.Resource? && Justified(streams, limits, r.error)
    {
      var failed := AllocateBytes(span.end - span.start);
      if failed.Some? {
        return Rejected(failed.value);
      }
      return Accepted(streams[span.stream][span.start..span.end]);
    }

    /** primitive_operand: None for an operator token. */
    method PrimitiveOperand(span: Span) returns (r: Outcome<Option<Operand>>)
      requires InBounds(streams, span) && retainedBytes <= limits.maxRetainedBytes
      modifies this`retainedBytes
      ensures retainedBytes <= limits.maxRetainedBytes
      ensures r.Accepted? && r.value.None? ==> Primitive(Text(streams, span), None)
      ensures r.Accepted? && r.value.Some? ==>
                r.value.value.Leaf? && r.value.value.span == span && LeafMeans(streams, span, r.value.value.value)
      ensures r.Rejected? && r.error.Syntactic() ==> RegularClass(Text(streams, span)).BadToken?
      ensures r.Rejected? && !r.error.Syntactic() ==> Justified(streams, limits, r.error)
    {
      var raw := streams[span.stream][span.start..span.end];
      if raw == NULL_TOKEN {
        return Accepted(Some(Leaf(span, Null)));
      }
      if raw == TRUE_TOKEN {
        return Accepted(Some(Leaf(span, Boolean(true))));
      }
      if raw == FALSE_TOKEN {
        return Accepted(Some(Leaf(span, Boolean(false))));
      }
      if IsNumberStart(raw[0]) {
        var number := ParseNumber(raw);
        if number.None? {
          return Rejected(InvalidNumber);
        }
        if number.value.Integer? {
          return Accepted(Some(Leaf(span, Value.Integer(number.value.value))));
        }
        var copy := CopyTokenBytes(span);
        if copy.Rejected? {
          return Rejected(copy.error);
        }
        return Accepted(Some(Leaf(span, Value.Real(copy.value))));
      }
      return Accepted(None);
    }

    /** record_operand. */
    method RecordOperand()
      modifies this`operands
      ensures operands == old(operands) + 1
    {
      operands := operands + 1;
    }

    /** parse_operand. */
    method ParseOperand(depth: nat, ghost st: Stack) returns (r: Outcome<Operand>)
      requires Valid() && depth <= maxNestingDepth && Reaches(streams, log, st) && TakesValue(st) && Height(st) == depth
      requires st.Top? ==> AtToken() && Peek().Some? && IsDelimiter(Peek().value)
      requires st.InArray? ==> AtToken() && Peek() != Some(CLOSE_BRACKET)
      modifies this`streamIndex, this`offset, this`fuel, this`tokens, this`maxTokenBytes, this`log, this`retainedBytes,
               this`operands, this`maxNestingDepth
      ensures Bounded()
      ensures r.Accepted? ==> Valid() && ReadTree(streams, old(Now()), Now(), r.value, depth, 0)
      ensures r.Rejected? ==> Justified(streams, limits, r.error)
      decreases Remaining(), 2
    {
      hide LexedTo, NextToken, Skip, Flatten, TreeMeans, Count, Hopeless, RunTo;
      BehindTotal(streams, Here());
      var failed := SkipTrivia();
      if failed.Some? {
        return Rejected(failed.value);
      }
      if Peek().None? {
        EndIsHopeless(streams, log, st);
        return Rejected(MismatchedDelimiter);
      }
      ghost var start := Now();
      r := ParseUncounted(depth, st);
      if r.Accepted? {
        SkippedTree(streams, old(Now()), start, Now(), r.value, depth);
        RecordOperand();
      }
    }

    /** The dispatch of parse_operand on the first byte. */
    method ParseUncounted(depth: nat, ghost st: Stack) returns (r: Outcome<Operand>)
      requires AtToken() && Peek().Some? && depth <= maxNestingDepth && Reaches(streams, log, st) && TakesValue(st)
      requires Height(st) == depth
      requires (st.Top? ==> IsDelimiter(Peek().value)) && (st.InArray? ==> Peek() != Some(CLOSE_BRACKET))
      modifies this`streamIndex, this`offset, this`fuel, this`tokens, this`maxTokenBytes, this`log, this`retainedBytes,
               this`operands, this`maxNestingDepth
      ensures Bounded()
      ensures r.Accepted? ==> Valid() && ReadTree(streams, old(Now()), Now(), r.value, depth, 1)
      ensures r.Rejected? ==> Justified(streams, limits, r.error)
      decreases Remaining(), 1
    {
      hide LexedTo, NextToken, Skip, Flatten, TreeMeans, LeafMeans, Count, Hopeless, RunTo, TokenEnd;
      var byte := Peek().value;
      if byte == OPEN_BRACKET {
        r := ParseArray(depth, st);
      } else if byte == LESS && PeekNext() == Some(LESS) {
        r := ParseDictionary(depth, st);
      } else if byte == CLOSE_BRACKET || byte == GREATER {
        CloserClass(streams, Here());
        MisplacedIsHopeless(streams, log, st, Here());
        r := Rejected(MismatchedDelimiter);
      } else if byte == CLOSE_PAREN || byte == OPEN_BRACE || byte == CLOSE_BRACE {
        NoTokenHere(streams[streamIndex], offset);
        NoTokenIsHopeless(streams, log, Here());
        r := Rejected(MalformedToken);
      } else {
        TokenByte(streams, Here());
        r := ParseLeaf(byte, st);
        if r.Accepted? { LeafTree(streams, old(Now()), Now(), r.value, depth); }
      }
    }

    /** Its branches without recursion. */
    method ParseLeaf(byte: Byte, ghost st: Stack) returns (r: Outcome<Operand>)
      requires AtToken() && Peek() == Some(byte) && !(byte == LESS && PeekNext() == Some(LESS))
      requires Reaches(streams, log, st) && TakesValue(st)
      requires byte != OPEN_PAREN && byte != LESS && byte != SLASH ==> !IsDelimiter(byte) && !st.Top?
      modifies this`offset, this`fuel, this`tokens, this`maxTokenBytes, this`log, this`retainedBytes
      ensures Bounded()
      ensures r.Accepted? ==> Valid() && ReadLeaf(streams, old(Now()), Now(), r.value)
      ensures r.Rejected? ==> Justified(streams, limits, r.error)
    {
      hide LexedTo, NextToken, Skip, LeafMeans, Hopeless, RunTo;
      if byte == OPEN_PAREN {
        r := ParseLiteralString();
      } else if byte == LESS {
        r := ParseHexString();
      } else if byte == SLASH {
        r := ParseNameOperand();
      } else {
        r := ParsePrimitive(st);
      }
    }

    /** The last branch: a regular token that must be a primitive operand. */
    method ParsePrimitive(ghost st: Stack) returns (r: Outcome<Operand>)
      requires AtToken() && Peek().Some? && !IsDelimiter(Peek().value)
      requires Reaches(streams, log, st) && TakesValue(st) && !st.Top?
      modifies this`offset, this`fuel, this`tokens, this`maxTokenBytes, this`log, this`retainedBytes
      ensures Bounded()
      ensures r.Accepted? ==> Valid() && ReadLeaf(streams, old(Now()), Now(), r.value)
      ensures r.Rejected? ==> Justified(streams, limits, r.error)
    {
      hide LexedTo, NextToken, Skip, LeafMeans, Hopeless, RunTo, ClassOf, RegularClass, Primitive;
      var token := ScanRegular();
      if token.Rejected? {
        return Rejected(token.error);
      }
      RegularIs(streams, token.value);
      var operand := PrimitiveOperand(token.value);
      if operand.Rejected? {
        if operand.error.Syntactic() { TokenIsHopeless(streams, old(log), st, token.value); }
        return Rejected(operand.error);
      }
      if operand.value.None? {
        PrimitiveClass(Text(streams, token.value));
        TokenIsHopeless(streams, old(log), st, token.value);
        return Rejected(MalformedToken);
      }
      r := Accepted(operand.value.value);
    }

    /** enter_container. */
    method EnterContainer(parentDepth: nat) returns (r: Outcome<nat>)
      requires maxNestingDepth <= limits.maxNestingDepth
      modifies this`maxNestingDepth
      ensures maxNestingDepth <= limits.maxNestingDepth
      ensures r.Accepted? ==> r.value == parentDepth + 1 && maxNestingDepth == Max(old(maxNestingDepth), parentDepth + 1)
      ensures r.Rejected? ==> r.error == Resource(NestingDepth) && parentDepth + 1 > limits.maxNestingDepth
    {
      var depth := parentDepth + 1;
      if depth > limits.maxNestingDepth {
        return Rejected(Resource(NestingDepth));
      }
      maxNestingDepth := Max(maxNestingDepth, depth);
      return Accepted(depth);
    }

    /** The bracket that opens a container. */
    method OpenContainer(parentDepth: nat, len: nat, ghost st: Stack) returns (r: Outcome<Span>)
      requires AtToken() && Peek().Some? && 0 < len && TokenEnd(streams[streamIndex], offset) == Some(offset + len)
      requires Opens(streams, Here(), len) && Reaches(streams, log, st) && TakesValue(st) && Height(st) == parentDepth
      modifies this`offset, this`fuel, this`tokens, this`maxTokenBytes, this`log, this`maxNestingDepth
      ensures Bounded()
      ensures r.Accepted? ==>
                && Valid() && InBounds(streams, r.value) && r.value.First() == old(Here()) && r.value.end == r.value.start + len
                && InsideArray(streams, old(Now()), Now(), r.value, NoItems, parentDepth + 1)
                && InsideDictionary(streams, old(Now()), Now(), r.value, NoEntries, parentDepth + 1)
      ensures r.Rejected? ==> Justified(streams, limits, r.error) && !r.error.Syntactic()
    {
      hide LexedTo, NextToken, Skip, TokenEnd, InsideArray, InsideDictionary;
      var depth := EnterContainer(parentDepth);
      if depth.Rejected? {
        OpenTooDeep(streams, limits, log, st, Here(), len);
        return Rejected(depth.error);
      }
      r := ScanFixed(len);
      if r.Accepted? { OpenInside(streams, old(Now()), Now(), r.value, parentDepth); }
    }

    /** The next byte that is not white space or comment. */
    method NextByte() returns (r: Outcome<Byte>)
      requires Valid()
      modifies this`streamIndex, this`offset, this`fuel
      ensures Bounded()
      ensures r.Accepted? ==> AtToken() && Peek() == Some(r.value) && Skipped(streams, old(Now()), Now())
      ensures r.Rejected? && r.error.Syntactic() ==> Complete(streams, log)
      ensures r.Rejected? && !r.error.Syntactic() ==> Justified(streams, limits, r.error)
    {
      hide LexedTo, NextToken, Skip;
      var failed := SkipTrivia();
      if failed.Some? {
        return Rejected(failed.value);
      }
      if Peek().None? {
        return Rejected(MismatchedDelimiter);
      }
      return Accepted(Peek().value);
    }

    /** parse_array. */
    method ParseArray(parentDepth: nat, ghost st: Stack) returns (r: Outcome<Operand>)
      requires AtToken() && Peek() == Some(OPEN_BRACKET) && parentDepth <= maxNestingDepth
      requires Reaches(streams, log, st) && TakesValue(st) && Height(st) == parentDepth
      modifies this`streamIndex, this`offset, this`fuel, this`tokens, this`maxTokenBytes, this`log, this`retainedBytes,
               this`operands, this`maxNestingDepth
      ensures Bounded()
      ensures r.Accepted? ==> Valid() && ReadTree(streams, old(Now()), Now(), r.value, parentDepth, 1)
      ensures r.Rejected? ==> Justified(streams, limits, r.error)
      decreases Remaining(), 0, 0
    {
      hide LexedTo, NextToken, Skip, TokenEnd, Flatten, TreeMeans, Count, FlattenItems, CountItems, ItemsMean, Length;
      hide Hopeless, RunTo;
      BracketEnds(streams[streamIndex], offset);
      OpensHere(streams, Here());
      ghost var start := Remaining();
      var open := OpenContainer(parentDepth, 1, st);
      if open.Rejected? {
        return Rejected(open.error);
      }
      FixedText(streams, open.value);
      var values := NoItems;
      while true
        invariant Valid() && InsideArray(streams, old(Now()), Now(), open.value, values, parentDepth + 1)
        invariant Remaining() < start
        decreases Remaining()
      {
        var step := ArrayItem(open.value, values, parentDepth + 1, old(Now()), st);
        if step.Rejected? {
          return Rejected(step.error);
        }
        if step.value.Closed? {
          return Accepted(step.value.operand);
        }
        values := step.value.items;
      }
    }

    /** One trip round the loop of parse_array. */
    method ArrayItem(open: Span, values: Items, depth: nat, ghost from: Progress, ghost st: Stack)
      returns (r: Outcome<ArrayStep>)
      requires Reaches(streams, from.log, st) && TakesValue(st) && Height(st) == depth - 1
      requires Valid() && InBounds(streams, open) && Text(streams, open) == [OPEN_BRACKET] && 0 < depth
      requires InsideArray(streams, from, Now(), open, values, depth)
      modifies this`streamIndex, this`offset, this`fuel, this`tokens, this`maxTokenBytes, this`log, this`retainedBytes,
               this`operands, this`maxNestingDepth
      ensures Bounded()
      ensures r.Accepted? && r.value.Closed? ==> Valid() && ReadTree(streams, from, Now(), r.value.operand, depth - 1, 1)
      ensures r.Accepted? && r.value.More? ==>
                && Valid() && InsideArray(streams, from, Now(), open, r.value.items, depth)
                && Behind(streams, old(Here())) < Behind(streams, Here())
      ensures r.Rejected? ==> Justified(streams, limits, r.error)
      decreases Remaining(), 3
    {
      hide LexedTo, NextToken, Skip, TokenEnd, Flatten, TreeMeans, Count, FlattenItems, CountItems, ItemsMean, Length;
      hide Hopeless, RunTo, ClassOf, Complete;
      ghost var inside := InArray(AfterValue(st));
      ArrayReads(streams, from, Now(), open, values, depth, st);
      BehindTotal(streams, Here());
      var byte := NextByte();
      if byte.Rejected? {
        if byte.error.Syntactic() { EndIsHopeless(streams, log, inside); }
        return Rejected(byte.error);
      }
      ghost var skipped := Now();
      if byte.value == CLOSE_BRACKET {
        BracketEnds(streams[streamIndex], offset);
        var close := ScanFixed(1);
        if close.Rejected? {
          return Rejected(close.error);
        }
        FixedText(streams, close.value);
        CloseArray(streams, from, old(Now()), Now(), open, values, close.value, depth - 1);
        return Accepted(Closed(Array(open, values, close.value)));
      }
      if byte.value == GREATER && PeekNext() == Some(GREATER) {
        CloserClass(streams, Here());
        MisplacedIsHopeless(streams, log, inside, Here());
        return Rejected(MismatchedDelimiter);
      }
      var value := ParseOperand(depth, inside);
      if value.Rejected? {
        return Rejected(value.error);
      }
      var failed := ReserveSlot();
      if failed.Some? {
        return Rejected(failed.value);
      }
      AddItem(streams, from, old(Now()), skipped, Now(), open, values, depth, value.value);
      return Accepted(More(Push(values, value.value)));
    }

    /** parse_dictionary. */
    method ParseDictionary(parentDepth: nat, ghost st: Stack) returns (r: Outcome<Operand>)
      requires AtToken() && Peek() == Some(LESS) && PeekNext() == Some(LESS) && parentDepth <= maxNestingDepth
      requires Reaches(streams, log, st) && TakesValue(st) && Height(st) == parentDepth
      modifies this`streamIndex, this`offset, this`fuel, this`tokens, this`maxTokenBytes, this`log, this`retainedBytes,
               this`operands, this`maxNestingDepth
      ensures Bounded()
      ensures r.Accepted? ==> Valid() && ReadTree(streams, old(Now()), Now(), r.value, parentDepth, 1)
      ensures r.Rejected? ==> Justified(streams, limits, r.error)
      decreases Remaining(), 0, 0
    {
      hide LexedTo, NextToken, Skip, TokenEnd, Flatten, TreeMeans, Count, FlattenEntries, CountEntries, EntriesMean, Length;
      hide Hopeless, RunTo;
      BracketEnds(streams[streamIndex], offset);
      OpensHere(streams, Here());
      ghost var start := Remaining();
      var open := OpenContainer(parentDepth, 2, st);
      if open.Rejected? {
        return Rejected(open.error);
      }
      FixedText(streams, open.value);
      var entries := NoEntries;
      while true
        invariant Valid() && InsideDictionary(streams, old(Now()), Now(), open.value, entries, parentDepth + 1)
        invariant Remaining() < start
        decreases Remaining()
      {
        var step := DictionaryEntry(open.value, entries, parentDepth + 1, old(Now()), st);
        if step.Rejected? {
          return Rejected(step.error);
        }
        if step.value.ClosedEntries? {
          return Accepted(step.value.operand);
        }
        entries := step.value.entries;
      }
    }

    /** One trip round the loop of parse_dictionary. */
    method DictionaryEntry(open: Span, entries: Entries, depth: nat, ghost from: Progress, ghost st: Stack)
      returns (r: Outcome<DictionaryStep>)
      requires Reaches(streams, from.log, st) && TakesValue(st) && Height(st) == depth - 1
      requires Valid() && InBounds(streams, open) && Text(streams, open) == [LESS, LESS] && 0 < depth
      requires InsideDictionary(streams, from, Now(), open, entries, depth)
      modifies this`streamIndex, this`offset, this`fuel, this`tokens, this`maxTokenBytes, this`log, this`retainedBytes,
               this`operands, this`maxNestingDepth
      ensures Bounded()
      ensures r.Accepted? && r.value.ClosedEntries? ==> Valid() && ReadTree(streams, from, Now(), r.value.operand, depth - 1, 1)
      ensures r.Accepted? && r.value.MoreEntries? ==>
                && Valid() && InsideDictionary(streams, from, Now(), open, r.value.entries, depth)
                && Behind(streams, old(Here())) < Behind(streams, Here())
      ensures r.Rejected? ==> Justified(streams, limits, r.error)
      decreases Remaining(), 3
    {
      hide LexedTo, NextToken, Skip, TokenEnd, Flatten, TreeMeans, Count, FlattenEntries, CountEntries, EntriesMean, Length;
      hide Hopeless, RunTo, ClassOf, Complete;
      ghost var below := AfterValue(st);
      DictionaryReads(streams, from, Now(), open, entries, depth, st);
      BehindTotal(streams, Here());
      var byte := NextByte();
      if byte.Rejected? {
        if byte.error.Syntactic() { EndIsHopeless(streams, log, AtKey(below)); }
        return Rejected(byte.error);
      }
      if byte.value == GREATER && PeekNext() == Some(GREATER) {
        BracketEnds(streams[streamIndex], offset);
        var close := ScanFixed(2);
        if close.Rejected? {
          return Rejected(close.error);
        }
        FixedText(streams, close.value);
        CloseDictionary(streams, from, old(Now()), Now(), open, entries, close.value, depth - 1);
        return Accepted(ClosedEntries(Dictionary(open, entries, close.value)));
      }
      if byte.value == CLOSE_BRACKET {
        NotKeyIsHopeless(streams, log, below, Here());
        return Rejected(MismatchedDelimiter);
      }
      if byte.value != SLASH {
        NotKeyIsHopeless(streams, log, below, Here());
        return Rejected(InvalidDictionaryKey);
      }
      r := ParseEntry(entries, depth, from, old(Now()), open, below);
    }

    /** A key and its value. */
    method ParseEntry(entries: Entries, depth: nat, ghost from: Progress, ghost mid: Progress, ghost open: Span,
                      ghost below: Stack)
      returns (r: Outcome<DictionaryStep>)
      requires AtToken() && Peek() == Some(SLASH) && 0 < depth && Reaches(streams, log, AtKey(below)) && Height(below) == depth - 1
      requires Skipped(streams, mid, Now()) && InsideDictionary(streams, from, mid, open, entries, depth)
      modifies this`streamIndex, this`offset, this`fuel, this`tokens, this`maxTokenBytes, this`log, this`retainedBytes,
               this`operands, this`maxNestingDepth
      ensures Bounded()
      ensures r.Accepted? ==>
                && r.value.MoreEntries? && Valid() && InsideDictionary(streams, from, Now(), open, r.value.entries, depth)
                && Behind(streams, old(Here())) < Behind(streams, Here())
      ensures r.Rejected? ==> Justified(streams, limits, r.error)
      decreases Remaining(), 2
    {
      hide LexedTo, NextToken, Skip, TokenEnd, Flatten, TreeMeans, Count, FlattenEntries, CountEntries, EntriesMean, Length;
      hide Hopeless, RunTo, ClassOf, Complete;
      BehindTotal(streams, Here());
      var key := ScanName();
      if key.Rejected? {
        return Rejected(key.error);
      }
      ghost var keyed := Now();
      KeyClass(streams, key.value.0, key.value.1);
      RunOn(streams, old(log), AtKey(below), key.value.0);
      var value := ParseOperand(depth, AtValue(below));
      if value.Rejected? {
        return Rejected(value.error);
      }
      var failed := ReserveSlot();
      if failed.Some? {
        return Rejected(failed.value);
      }
      AddEntry(streams, from, mid, keyed, Now(), open, entries, depth, key.value.0, key.value.1, value.value);
      return Accepted(MoreEntries(PushEntry(entries, key.value.0, key.value.1, value.value)));
    }

    // ---------------------------------------------------------------- programs

    /** admit_inputs. */
    method AdmitInputs() returns (failed: Option<ContentError>)
      modifies this`totalDecodedBytes
      ensures failed.None? ==>
                && |streams| <= limits.maxStreams
                && totalDecodedBytes == Length(streams, |streams|) <= limits.maxTotalDecodedBytes
      ensures failed.Some? ==> failed.value.Resource? && Justified(streams, limits, failed.value)
    {
      if |streams| > limits.maxStreams {
        return Some(Resource(Streams));
      }
      var total := 0;
      for i := 0 to |streams|
        invariant total == Length(streams, i) <= limits.maxTotalDecodedBytes || i == 0
        invariant total == Length(streams, i)
      {
        var next := total + |streams[i]|;
        LengthGrows(streams, i + 1, |streams|);
        if next > limits.maxTotalDecodedBytes {
          return Some(Resource(TotalDecodedBytes));
        }
        total := next;
      }
      totalDecodedBytes := total;
      failed := None;
    }

    /** push_pending. */
    method PushPending(pending: Items, operand: Operand) returns (r: Outcome<Items>)
      requires retainedBytes <= limits.maxRetainedBytes
      modifies this`retainedBytes, this`maxOperandsPerOperator
      ensures retainedBytes <= limits.maxRetainedBytes
      ensures r.Accepted? ==>
                && r.value == Push(pending, operand) && Size(r.value) <= limits.maxOperandsPerOperator
                && maxOperandsPerOperator == Max(old(maxOperandsPerOperator), Size(r.value))
      ensures r.Rejected? ==>
                && !r.error.Syntactic()
                && ((r.error == Resource(OperandsPerOperator) && Size(pending) >= limits.maxOperandsPerOperator)
                    || Justified(streams, limits, r.error))
    {
      var count := Size(pending);
      if count >= limits.maxOperandsPerOperator {
        return Rejected(Resource(OperandsPerOperator));
      }
      var failed := ReserveSlot();
      if failed.Some? {
        return Rejected(failed.value);
      }
      maxOperandsPerOperator := Max(maxOperandsPerOperator, count + 1);
      return Accepted(Push(pending, operand));
    }

    /** publish_operator. */
    method PublishOperator(program: Program, pending: Items, token: Span) returns (r: Outcome<Program>)
      requires InBounds(streams, token) && retainedBytes <= limits.maxRetainedBytes && operators <= limits.maxOperators
      modifies this`retainedBytes, this`operators, this`unknownOperators
      ensures retainedBytes <= limits.maxRetainedBytes && operators <= limits.maxOperators
      ensures r.Accepted? ==>
                && operators == old(operators) + 1
                && r.value == Published(program, token, Text(streams, token) in known, pending, old(operators))
                && unknownOperators == old(unknownOperators) + (if Text(streams, token) in known then 0 else 1)
      ensures r.Rejected? ==>
                && !r.error.Syntactic()
                && ((r.error == Resource(Operators) && old(operators) >= limits.maxOperators) || Justified(streams, limits, r.error))
    {
      if operators >= limits.maxOperators {
        return Rejected(Resource(Operators));
      }
      var isKnown := streams[token.stream][token.start..token.end] in known;
      if !isKnown {
        var copy := CopyTokenBytes(token);
        if copy.Rejected? {
          return Rejected(copy.error);
        }
        unknownOperators := unknownOperators + 1;
      }
      var failed := ReserveSlot();
      if failed.Some? {
        return Rejected(failed.value);
      }
      r := Accepted(Published(program, token, isKnown, pending, operators));
      operators := operators + 1;
    }

    ghost function Totals(): Statistics
      reads this
    {
      Statistics(log, operands, maxNestingDepth, operators, unknownOperators, maxOperandsPerOperator)
    }

    /** Between two top-level operands or operators every statistic is what the program's
        trees say. */
    ghost predicate Scanned(program: Program, pending: Items)
      reads this
    {
      && Valid() && operators <= limits.maxOperators && maxOperandsPerOperator <= limits.maxOperandsPerOperator
      && Accounts(streams, known, Totals(), program, pending)
    }

    /** scan. On success: the fuel is every decoded byte plus every token, the log is the
        complete token sequence of the streams and nothing else than the program's own
        tokens in order, and every statistic is what the program's trees say. */
    method Scan() returns (r: Outcome<Program>)
      requires Scanned(NoOperators, NoItems) && log == []
      modifies this
      ensures fuel <= limits.maxFuel && tokens <= limits.maxTokens
      ensures r.Accepted? ==>
                && fuel == totalDecodedBytes + tokens && totalDecodedBytes == Length(streams, |streams|)
                && tokens == |log| && Complete(streams, log) && log == ProgramTokens(r.value)
                && maxTokenBytes == LongestToken(log, |log|)
                && Scanned(r.value, NoItems) && tokens == ProgramSize(r.value) + ProgramCount(r.value).Tokens()
      ensures r.Rejected? ==> Justified(streams, limits, r.error)
      ensures r.Rejected? && r.error.Syntactic() ==> NoProgram(streams, known)
    {
      hide LexedTo, NextToken, Skip, TokenEnd, Accounts, Hopeless, RunTo, NoProgram;
      var cancelled := CheckCancelled();
      if cancelled.Some? {
        return Rejected(cancelled.value);
      }
      var failed := AdmitInputs();
      if failed.Some? {
        return Rejected(failed.value);
      }
      var program, pending := NoOperators, NoItems;
      while true
        invariant Scanned(program, pending) && totalDecodedBytes == Length(streams, |streams|)
        decreases Remaining()
      {
        BehindTotal(streams, Here());
        failed := SkipTrivia();
        if failed.Some? {
          return Rejected(failed.value);
        }
        if AtEnd() {
          break;
        }
        var step := ScanOne(program, pending);
        if step.Rejected? {
          if step.error.Syntactic() { HopelessForPrograms(streams, known); }
          return Rejected(step.error);
        }
        program, pending := step.value.0, step.value.1;
      }
      if !pending.NoItems? {
        AccountsRead(streams, known, Totals(), program, pending);
        EndIsHopeless(streams, log, Top(true));
        HopelessForPrograms(streams, known);
        return Rejected(DanglingOperands);
      }
      cancelled := CheckCancelled();
      if cancelled.Some? {
        return Rejected(cancelled.value);
      }
      FinalAccounts(streams, known, Totals(), program);
      return Accepted(program);
    }

    /** One trip round the loop of scan, behind white space. */
    method ScanOne(program: Program, pending: Items) returns (r: Outcome<(Program, Items)>)
      requires AtToken() && Peek().Some? && Scanned(program, pending)
      modifies this`streamIndex, this`offset, this`fuel, this`tokens, this`maxTokenBytes, this`log, this`retainedBytes,
               this`operands, this`maxNestingDepth, this`maxOperandsPerOperator, this`operators, this`unknownOperators
      ensures fuel <= limits.maxFuel && tokens <= limits.maxTokens
      ensures r.Accepted? ==> Scanned(r.value.0, r.value.1) && Behind(streams, old(Here())) < Behind(streams, Here())
      ensures r.Rejected? ==> Justified(streams, limits, r.error)
    {
      hide LexedTo, NextToken, Skip, TokenEnd, Accounts, Hopeless, RunTo, ClassOf;
      var byte := Peek().value;
      if byte == OPEN_BRACKET || byte == OPEN_PAREN || byte == SLASH || byte == LESS {
        r := ScanOperand(program, pending);
      } else if IsNumberStart(byte) || byte in {110, 116, 102} {
        r := ScanRegularToken(program, pending, true);
      } else if IsDelimiter(byte) {
        AccountsRead(streams, known, Totals(), program, pending);
        DelimiterIsHopeless(streams, log, Top(pending.Push?), Here());
        r := Rejected(if byte == CLOSE_BRACKET || byte == GREATER then MismatchedDelimiter else MalformedToken);
      } else {
        r := ScanRegularToken(program, pending, false);
      }
    }

    /** A top-level operand that a delimiter introduces. */
    method ScanOperand(program: Program, pending: Items) returns (r: Outcome<(Program, Items)>)
      requires Scanned(program, pending) && AtToken() && Peek().Some? && IsDelimiter(Peek().value)
      modifies this`streamIndex, this`offset, this`fuel, this`tokens, this`maxTokenBytes, this`log, this`retainedBytes,
               this`operands, this`maxNestingDepth, this`maxOperandsPerOperator, this`operators, this`unknownOperators
      ensures fuel <= limits.maxFuel && tokens <= limits.maxTokens
      ensures r.Accepted? ==> Scanned(r.value.0, r.value.1) && Behind(streams, old(Here())) < Behind(streams, Here())
      ensures r.Rejected? ==> Justified(streams, limits, r.error)
    {
      hide LexedTo, NextToken, Skip, TokenEnd, Flatten, TreeMeans, Count, LeafMeans, Primitive, Accounts, Hopeless, RunTo;
      AccountsRead(streams, known, Totals(), program, pending);
      var operand := ParseOperand(0, Top(pending.Push?));
      if operand.Rejected? {
        return Rejected(operand.error);
      }
      ghost var read := log;
      var pushed := PushPending(pending, operand.value);
      if pushed.Rejected? {
        if Size(pending) >= limits.maxOperandsPerOperator {
          OneOperandTooMany(streams, known, limits, old(Totals()), program, pending, operand.value, read);
        }
        return Rejected(pushed.error);
      }
      OperandAccounted(streams, known, old(Totals()), program, pending, operand.value, Totals());
      return Accepted((program, pushed.value));
    }

    /** A regular token: a primitive operand or an operator. */
    method ScanRegularToken(program: Program, pending: Items, maybeOperand: bool) returns (r: Outcome<(Program, Items)>)
      requires AtToken() && Peek().Some? && Scanned(program, pending) && !IsDelimiter(Peek().value)
      requires !maybeOperand ==> !IsNumberStart(Peek().value) && Peek().value !in {110, 116, 102}
      modifies this`streamIndex, this`offset, this`fuel, this`tokens, this`maxTokenBytes, this`log, this`retainedBytes,
               this`operands, this`maxNestingDepth, this`maxOperandsPerOperator, this`operators, this`unknownOperators
      ensures fuel <= limits.maxFuel && tokens <= limits.maxTokens
      ensures r.Accepted? ==> Scanned(r.value.0, r.value.1) && Behind(streams, old(Here())) < Behind(streams, Here())
      ensures r.Rejected? ==> Justified(streams, limits, r.error)
    {
      hide LexedTo, NextToken, Skip, TokenEnd, Flatten, TreeMeans, Count, LeafMeans, Primitive, Accounts;
      hide Hopeless, RunTo, ClassOf, RegularClass;
      AccountsRead(streams, known, Totals(), program, pending);
      var token := ScanRegular();
      if token.Rejected? {
        return Rejected(token.error);
      }
      var operand: Outcome<Option<Operand>> := Accepted(None);
      if maybeOperand {
        operand := PrimitiveOperand(token.value);
      } else {
        NotPrimitive(Text(streams, token.value));
      }
      if operand.Rejected? {
        if operand.error.Syntactic() {
          RegularIs(streams, token.value);
          TokenIsHopeless(streams, old(log), Top(pending.Push?), token.value);
        }
        return Rejected(operand.error);
      }
      r := AcceptToken(program, pending, token.value, operand.value, old(Totals()));
    }

    /** What scan does with a classified regular token. */
    method AcceptToken(program: Program, pending: Items, token: Span, operand: Option<Operand>, ghost before: Statistics)
      returns (r: Outcome<(Program, Items)>)
      requires Valid() && operators <= limits.maxOperators && maxOperandsPerOperator <= limits.maxOperandsPerOperator
      requires Accounts(streams, known, before, program, pending) && InBounds(streams, token)
      requires Totals() == before.(log := before.log + [token])
      requires operand.Some? ==>
                 operand.value.Leaf? && operand.value.span == token && LeafMeans(streams, token, operand.value.value)
      requires operand.None? ==>
                 Primitive(Text(streams, token), None) && !IsDelimiter(streams[token.stream][token.start])
      modifies this`operands, this`retainedBytes, this`maxOperandsPerOperator, this`operators, this`unknownOperators
      ensures fuel <= limits.maxFuel && tokens <= limits.maxTokens
      ensures r.Accepted? ==> Scanned(r.value.0, r.value.1)
      ensures r.Rejected? ==> Justified(streams, limits, r.error) && !r.error.Syntactic()
    {
      hide LexedTo, NextToken, Skip, TokenEnd, Flatten, TreeMeans, Count, LeafMeans, Primitive, Accounts;
      if operand.Some? {
        RecordOperand();
        LeafIsTree(streams, operand.value);
        var pushed := PushPending(pending, operand.value);
        if pushed.Rejected? {
          if Size(pending) >= limits.maxOperandsPerOperator {
            OneOperandTooMany(streams, known, limits, before, program, pending, operand.value, log);
          }
          return Rejected(pushed.error);
        }
        OperandAccounted(streams, known, before, program, pending, operand.value, Totals());
        return Accepted((program, pushed.value));
      }
      var published := PublishOperator(program, pending, token);
      if published.Rejected? {
        if before.operators >= limits.maxOperators {
          OneOperatorTooMany(streams, known, limits, before, program, pending, token, log);
        }
        return Rejected(published.error);
      }
      OperatorAccounted(streams, known, before, program, pending, token, published.value.known, Totals());
      return Accepted((published.value, NoItems));
    }
  }

  // ------------------------------------------------------------------ programs

  /** The tokens of a program, in order. */
  ghost function ProgramTokens(p: Program): seq<Span> {
    match p
    case NoOperators => []
    case Published(front, span, _, operands, _) => ProgramTokens(front) + FlattenItems(operands) + [span]
  }

  ghost function ProgramCount(p: Program): Census {
    match p
    case NoOperators => NOTHING
    case Published(front, _, _, operands, _) => ProgramCount(front).Plus(CountItems(operands))
  }

  ghost function ProgramSize(p: Program): nat { if p.NoOperators? then 0 else ProgramSize(p.front) + 1 }

  ghost function Unknowns(p: Program): nat {
    if p.NoOperators? then 0 else Unknowns(p.front) + (if p.known then 0 else 1)
  }

  ghost function Widest(p: Program): nat { if p.NoOperators? then 0 else Max(Widest(p.front), Size(p.operands)) }

  /** Ordinals are indices; operator tokens are no operands and are classified by their
      bytes; operands mean what their bytes spell. */
  ghost predicate ProgramMeans(streams: seq<seq<Byte>>, known: set<seq<Byte>>, p: Program) {
    p.Published? ==>
      && ProgramMeans(streams, known, p.front) && p.ordinal == ProgramSize(p.front)
      && OperatorMeans(streams, known, p.span, p.known) && ItemsMean(streams, p.operands)
  }

  ghost predicate OperatorMeans(streams: seq<seq<Byte>>, known: set<seq<Byte>>, span: Span, isKnown: bool) {
    && InBounds(streams, span) && !IsDelimiter(streams[span.stream][span.start])
    && Primitive(Text(streams, span), None) && (isKnown <==> Text(streams, span) in known)
  }

  /** No program has these bytes: the tokens of a complete reading never make one. */
  ghost predicate NoProgram(streams: seq<seq<Byte>>, known: set<seq<Byte>>) {
    forall p :: Complete(streams, ProgramTokens(p)) ==> !ProgramMeans(streams, known, p)
  }

  /** The tokens of a program are read to the end of its last operator. */
  lemma {:induction false} RunProgram(streams: seq<seq<Byte>>, known: set<seq<Byte>>, p: Program)
    requires ProgramMeans(streams, known, p)
    ensures Reaches(streams, ProgramTokens(p), Top(false))
  {
    hide ClassOf, OperatorMeans, ItemsMean;
    match p
    case NoOperators =>
    case Published(front, span, isKnown, operands, _) =>
      RunProgram(streams, known, front);
      RunItems(streams, ProgramTokens(front), Top(false), operands);
      OperatorClass(streams, known, span, isKnown);
      RunOn(streams, ProgramTokens(front) + FlattenItems(operands), Top(operands.Push?), span);
  }

  lemma OperatorClass(streams: seq<seq<Byte>>, known: set<seq<Byte>>, span: Span, isKnown: bool)
    requires OperatorMeans(streams, known, span, isKnown)
    ensures InBounds(streams, span) && ClassOf(streams, span).OperatorToken?
  {
    RegularIs(streams, span);
    PrimitiveClass(Text(streams, span));
  }

  lemma PrimitiveClass(raw: seq<Byte>)
    requires |raw| > 0 && Primitive(raw, None)
    ensures RegularClass(raw).OperatorToken?
  {
  }

  lemma RegularIs(streams: seq<seq<Byte>>, span: Span)
    requires InBounds(streams, span) && !IsDelimiter(streams[span.stream][span.start])
    ensures ClassOf(streams, span) == RegularClass(Text(streams, span))
  {
  }

  lemma HopelessForPrograms(streams: seq<seq<Byte>>, known: set<seq<Byte>>)
    requires Hopeless(streams)
    ensures NoProgram(streams, known)
  {
    hide Complete, ProgramMeans, RunTo;
    forall p | Complete(streams, ProgramTokens(p)) ensures !ProgramMeans(streams, known, p) {
      if ProgramMeans(streams, known, p) { RunProgram(streams, known, p); }
    }
  }

  lemma AccountsRead(streams: seq<seq<Byte>>, known: set<seq<Byte>>, t: Statistics, program: Program, pending: Items)
    requires Accounts(streams, known, t, program, pending)
    ensures Reaches(streams, t.log, Top(pending.Push?))
  {
    RunProgram(streams, known, program);
    RunItems(streams, ProgramTokens(program), Top(false), pending);
  }

  lemma ArrayReads(streams: seq<seq<Byte>>, from: Progress, now: Progress, open: Span, items: Items, depth: nat, st: Stack)
    requires InBounds(streams, open) && Text(streams, open) == [OPEN_BRACKET]
    requires InsideArray(streams, from, now, open, items, depth) && Reaches(streams, from.log, st) && TakesValue(st)
    ensures Reaches(streams, now.log, InArray(AfterValue(st)))
  {
    DelimiterClass(streams, open);
    RunOn(streams, from.log, st, open);
    RunItems(streams, from.log + [open], InArray(AfterValue(st)), items);
  }

  lemma DictionaryReads(streams: seq<seq<Byte>>, from: Progress, now: Progress, open: Span, entries: Entries, depth: nat,
                        st: Stack)
    requires InBounds(streams, open) && Text(streams, open) == [LESS, LESS]
    requires InsideDictionary(streams, from, now, open, entries, depth) && Reaches(streams, from.log, st) && TakesValue(st)
    ensures Reaches(streams, now.log, AtKey(AfterValue(st)))
  {
    DelimiterClass(streams, open);
    RunOn(streams, from.log, st, open);
    RunEntries(streams, from.log + [open], AfterValue(st), entries);
  }

  lemma TokenIsHopeless(streams: seq<seq<Byte>>, log: seq<Span>, st: Stack, s: Span)
    requires Lexed(streams, log + [s]) && Reaches(streams, log, st) && InBounds(streams, s)
    requires Step(st, ClassOf(streams, s)).None?
    ensures Hopeless(streams)
  {
    RunOn(streams, log, st, s);
    StuckIsHopeless(streams, log + [s]);
  }

  lemma CloserClass(streams: seq<seq<Byte>>, here: Pos)
    requires here.stream < |streams| && here.offset < |streams[here.stream]|
    ensures var bytes := streams[here.stream];
            var e := TokenEnd(bytes, here.offset);
            e.Some? ==>
              && InBounds(streams, Span(here.stream, here.offset, e.value))
              && var c := ClassOf(streams, Span(here.stream, here.offset, e.value));
              && (bytes[here.offset] == CLOSE_BRACKET ==> c.ArrayCloses?)
              && (bytes[here.offset] == GREATER ==> c.DictionaryCloses?)
              && (c.NameToken? ==> bytes[here.offset] == SLASH)
              && (c.DictionaryCloses? ==> bytes[here.offset] == GREATER && At(bytes, here.offset + 1) == Some(GREATER))
  {
  }

  lemma NotKeyIsHopeless(streams: seq<seq<Byte>>, log: seq<Span>, below: Stack, here: Pos)
    requires Lexed(streams, log) && InStreams(streams, LogEnd(log, |log|)) && Skip(streams, LogEnd(log, |log|)) == here
    requires here.stream < |streams| && here.offset < |streams[here.stream]| && Reaches(streams, log, AtKey(below))
    requires var bytes := streams[here.stream];
             && bytes[here.offset] != SLASH
             && !(bytes[here.offset] == GREATER && At(bytes, here.offset + 1) == Some(GREATER))
    ensures Hopeless(streams)
  {
    hide Lexed, Skip, TokenEnd, ClassOf, RunTo, Hopeless;
    CloserClass(streams, here);
    MisplacedIsHopeless(streams, log, AtKey(below), here);
  }

  /** A delimiter that opens nothing, where no container is open. */
  lemma DelimiterIsHopeless(streams: seq<seq<Byte>>, log: seq<Span>, st: Stack, here: Pos)
    requires Lexed(streams, log) && InStreams(streams, LogEnd(log, |log|)) && Skip(streams, LogEnd(log, |log|)) == here
    requires here.stream < |streams| && here.offset < |streams[here.stream]| && Reaches(streams, log, st) && st.Top?
    requires var b := streams[here.stream][here.offset];
             IsDelimiter(b) && b != OPEN_BRACKET && b != OPEN_PAREN && b != SLASH && b != LESS
    ensures Hopeless(streams)
  {
    var b := streams[here.stream][here.offset];
    CloserClass(streams, here);
    hide Lexed, Skip, TokenEnd, ClassOf, RunTo, Hopeless;
    if b == CLOSE_BRACKET || b == GREATER {
      MisplacedIsHopeless(streams, log, st, here);
    } else {
      NoTokenHere(streams[here.stream], here.offset);
      NoTokenIsHopeless(streams, log, here);
    }
  }

  lemma NoTokenHere(bytes: seq<Byte>, i: nat)
    requires i < |bytes| && IsDelimiter(bytes[i])
    requires bytes[i] != OPEN_BRACKET && bytes[i] != OPEN_PAREN && bytes[i] != SLASH && bytes[i] != LESS
    requires bytes[i] != CLOSE_BRACKET && bytes[i] != GREATER
    ensures TokenEnd(bytes, i).None?
  {
  }

  /** At a token there is neither white space nor a comment. */
  lemma TokenByte(streams: seq<seq<Byte>>, here: Pos)
    requires InStreams(streams, here) && Skip(streams, here) == here && here.stream < |streams|
    requires here.offset < |streams[here.stream]|
    ensures !IsWhitespace(streams[here.stream][here.offset]) && streams[here.stream][here.offset] != PERCENT
  {
    hide Skip, TriviaEnd;
    SkipOn(streams, here);
    assert Behind(streams, Pos(here.stream + 1, 0)) > Behind(streams, here);
  }

  /** Where skipping stops: in this stream, or further on. */
  lemma SkipOn(streams: seq<seq<Byte>>, here: Pos)
    requires InStreams(streams, here) && here.stream < |streams|
    ensures var e, next := TriviaEnd(streams[here.stream], here.offset), Pos(here.stream + 1, 0);
            && InStreams(streams, next)
            && Skip(streams, here) == if e < |streams[here.stream]| then Pos(here.stream, e) else Skip(streams, next)
  {
    hide TriviaEnd, Length;
  }

  lemma NotPrimitive(raw: seq<Byte>)
    requires |raw| > 0 && !IsNumberStart(raw[0]) && raw[0] !in {110, 116, 102}
    ensures Primitive(raw, None)
  {
  }

  lemma LeafIsTree(streams: seq<seq<Byte>>, o: Operand)
    requires o.Leaf? && LeafMeans(streams, o.span, o.value)
    ensures TreeMeans(streams, o) && Flatten(o) == [o.span] && Count(o) == Census(1, 0, 0, 0)
  {
  }

  datatype Statistics = Statistics(
    log: seq<Span>, operands: nat, nesting: nat, operators: nat, unknown: nat, widest: nat)

  /** The statistics of a scan, in terms of the operators published and the operands still
      pending. */
  ghost predicate Accounts(streams: seq<seq<Byte>>, known: set<seq<Byte>>, t: Statistics, program: Program, pending: Items) {
    && t.log == ProgramTokens(program) + FlattenItems(pending)
    && t.operands == ProgramCount(program).Nodes() + CountItems(pending).Nodes()
    && t.nesting == Max(ProgramCount(program).depth, CountItems(pending).depth)
    && t.operators == ProgramSize(program) && t.unknown == Unknowns(program)
    && t.widest == Max(Widest(program), Size(pending))
    && ProgramMeans(streams, known, program) && ItemsMean(streams, pending)
  }

  lemma OperandAccounted(streams: seq<seq<Byte>>, known: set<seq<Byte>>, t: Statistics, program: Program, pending: Items,
                         o: Operand, t': Statistics)
    requires Accounts(streams, known, t, program, pending) && TreeMeans(streams, o)
    requires t' == t.(log := t.log + Flatten(o), operands := t.operands + Count(o).Nodes(),
                      nesting := Max(t.nesting, Count(o).depth), widest := Max(t.widest, Size(pending) + 1))
    ensures Accounts(streams, known, t', program, Push(pending, o))
  {
    hide ProgramTokens, ProgramCount, ProgramMeans, Flatten, FlattenItems, Count, CountItems, TreeMeans;
    ItemPushed(pending, o);
    ItemCounted(pending, o);
    assert t'.log == ProgramTokens(program) + (FlattenItems(pending) + Flatten(o));
  }

  lemma PublishedTokens(log: seq<Span>, program: Program, span: Span, isKnown: bool, pending: Items, ordinal: nat)
    requires log == ProgramTokens(program) + FlattenItems(pending)
    ensures log + [span] == ProgramTokens(Published(program, span, isKnown, pending, ordinal)) + FlattenItems(NoItems)
  {
    hide Flatten;
  }

  lemma PublishedCount(program: Program, span: Span, isKnown: bool, pending: Items, ordinal: nat)
    ensures ProgramCount(Published(program, span, isKnown, pending, ordinal)) == ProgramCount(program).Plus(CountItems(pending))
  {
    hide CountItems;
  }

  lemma NothingPending()
    ensures CountItems(NoItems).Nodes() == 0 && CountItems(NoItems).depth == 0
  {
  }

  lemma PublishedSizes(program: Program, span: Span, isKnown: bool, pending: Items, ordinal: nat)
    ensures var p := Published(program, span, isKnown, pending, ordinal);
            && ProgramSize(p) == ProgramSize(program) + 1 && Unknowns(p) == Unknowns(program) + (if isKnown then 0 else 1)
            && Widest(p) == Max(Widest(program), Size(pending)) && Size(NoItems) == 0
  {
  }

  lemma PublishedMeans(streams: seq<seq<Byte>>, known: set<seq<Byte>>, program: Program, span: Span, isKnown: bool, pending: Items)
    requires ProgramMeans(streams, known, program) && ItemsMean(streams, pending)
    requires OperatorMeans(streams, known, span, isKnown)
    ensures ProgramMeans(streams, known, Published(program, span, isKnown, pending, ProgramSize(program)))
    ensures ItemsMean(streams, NoItems)
  {
    hide OperatorMeans, TreeMeans;
  }

  lemma OperatorAccounted(streams: seq<seq<Byte>>, known: set<seq<Byte>>, t: Statistics, program: Program, pending: Items,
                          span: Span, isKnown: bool, t': Statistics)
    requires Accounts(streams, known, t, program, pending) && OperatorMeans(streams, known, span, isKnown)
    requires t' == t.(log := t.log + [span], operators := t.operators + 1, unknown := t.unknown + (if isKnown then 0 else 1))
    ensures Accounts(streams, known, t', Published(program, span, isKnown, pending, t.operators), NoItems)
  {
    hide OperatorMeans, ProgramMeans, ProgramTokens, ProgramCount, ItemsMean, FlattenItems, CountItems;
    hide ProgramSize, Unknowns, Widest, Size;
    PublishedSizes(program, span, isKnown, pending, t.operators);
    PublishedTokens(t.log, program, span, isKnown, pending, t.operators);
    PublishedCount(program, span, isKnown, pending, t.operators);
    NothingPending();
    PublishedMeans(streams, known, program, span, isKnown, pending);
  }

  /** Every statistic of a finished scan in terms of the tokens: operators, leaves, keys and
      two per container. */
  lemma {:induction false} TokensOfProgram(p: Program)
    ensures |ProgramTokens(p)| == ProgramSize(p) + ProgramCount(p).Tokens()
  {
    if p.Published? {
      TokensOfProgram(p.front);
      TokensOfItems(p.operands);
    }
  }

  /** The depth of a program is the most containers its tokens have open at a time. */
  lemma {:induction false} DepthOfProgram(streams: seq<seq<Byte>>, known: set<seq<Byte>>, p: Program)
    requires ProgramMeans(streams, known, p)
    ensures Tallest(streams, ProgramTokens(p), |ProgramTokens(p)|) == ProgramCount(p).depth
  {
    hide ClassOf, OperatorMeans, ItemsMean, Flatten, Tallest, CountItems, RunTo;
    match p
    case NoOperators => NothingTall(streams);
    case Published(front, span, isKnown, operands, _) =>
      DepthOfProgram(streams, known, front);
      RunProgram(streams, known, front);
      ItemsTallest(streams, ProgramTokens(front), Top(false), operands);
      RunItems(streams, ProgramTokens(front), Top(false), operands);
      OperatorClass(streams, known, span, isKnown);
      TallestOn(streams, ProgramTokens(front) + FlattenItems(operands), Top(operands.Push?), span, Top(false));
  }

  lemma NothingTall(streams: seq<seq<Byte>>)
    ensures Tallest(streams, [], 0) == 0
  {
  }

  /** The tokens of a program that fills the streams are read as one. */
  lemma ProgramIsProgram(streams: seq<seq<Byte>>, known: set<seq<Byte>>, p: Program)
    requires ProgramMeans(streams, known, p) && Complete(streams, ProgramTokens(p))
    ensures IsProgram(streams, ProgramTokens(p))
  {
    hide Complete;
    RunProgram(streams, known, p);
  }

  lemma FinalAccounts(streams: seq<seq<Byte>>, known: set<seq<Byte>>, t: Statistics, program: Program)
    requires Accounts(streams, known, t, program, NoItems)
    ensures t.log == ProgramTokens(program) && |t.log| == ProgramSize(program) + ProgramCount(program).Tokens()
  {
    TokensOfProgram(program);
    assert t.log == ProgramTokens(program) + FlattenItems(NoItems) == ProgramTokens(program);
  }

  /** The span of operator n, and its place among the tokens. */
  ghost function OperatorSpan(p: Program, n: nat): Span
    requires n < ProgramSize(p)
  {
    if n == ProgramSize(p.front) then p.span else OperatorSpan(p.front, n)
  }

  ghost function OperatorIndex(p: Program, n: nat): nat
    requires n < ProgramSize(p)
  {
    if n == ProgramSize(p.front) then |ProgramTokens(p.front)| + |FlattenItems(p.operands)| else OperatorIndex(p.front, n)
  }

  lemma {:induction false} OperatorInLog(p: Program, n: nat)
    requires n < ProgramSize(p)
    ensures OperatorIndex(p, n) < |ProgramTokens(p)| && ProgramTokens(p)[OperatorIndex(p, n)] == OperatorSpan(p, n)
  {
    if n < ProgramSize(p.front) { OperatorInLog(p.front, n); }
  }

  lemma {:induction false} OperatorsInOrder(p: Program, m: nat, n: nat)
    requires m < n < ProgramSize(p)
    ensures OperatorIndex(p, m) < OperatorIndex(p, n)
  {
    if n < ProgramSize(p.front) {
      OperatorsInOrder(p.front, m, n);
    } else {
      OperatorInLog(p.front, m);
    }
  }

  /** Operator spans are non-empty and strictly increasing in stream order. */
  lemma SpansIncrease(streams: seq<seq<Byte>>, p: Program, m: nat, n: nat)
    requires Complete(streams, ProgramTokens(p)) && m < n < ProgramSize(p)
    ensures var a, b := OperatorSpan(p, m), OperatorSpan(p, n); a.start < a.end && Before(a.Behind(), b.First())
  {
    OperatorInLog(p, m);
    OperatorInLog(p, n);
    OperatorsInOrder(p, m, n);
    LogInOrder(streams, ProgramTokens(p), OperatorIndex(p, m), OperatorIndex(p, n));
  }

  // ------------------------------------------------------------------ second passes

  /** The slice a literal's second pass gets, and what it makes of it. */
  method DecodeLiteralToken(streams: seq<seq<Byte>>, span: Span) returns (decoded: seq<Byte>)
    requires InBounds(streams, span) && streams[span.stream][span.start] == OPEN_PAREN
    requires LiteralClose(streams[span.stream], span.start + 1, 1) == Some(span.end)
    ensures LeafMeans(streams, span, LiteralString(decoded))
    ensures |decoded| == LiteralSize(streams[span.stream], span.start + 1, 1)
  {
    var bytes := streams[span.stream];
    ghost var pieces := LiteralReads(bytes, span.start, [], span.start + 1, 1, 0);
    var inner := bytes[span.start + 1..span.end - 1];
    ReadsInner(bytes, span.start, span.end, pieces, inner);
    decoded := DecodeLiteral(inner, pieces);
  }

  method DecodeHexToken(streams: seq<seq<Byte>>, span: Span) returns (decoded: seq<Byte>)
    requires InBounds(streams, span) && streams[span.stream][span.start] == LESS
    requires HexClose(streams[span.stream], span.start + 1) == Some(span.end)
    ensures LeafMeans(streams, span, HexString(decoded))
    ensures |decoded| == (|Nibbles(streams[span.stream], span.start + 1, span.end - 1)| + 1) / 2
  {
    var bytes := streams[span.stream];
    var inner := bytes[span.start + 1..span.end - 1];
    NibblesSlice(bytes, span.start + 1, span.end - 1, inner, |inner|);
    decoded := DecodeHex(inner);
  }

  lemma {:induction false} NibblesSlice(bytes: seq<Byte>, lo: nat, hi: nat, inner: seq<Byte>, n: nat)
    requires lo <= hi <= |bytes| && inner == bytes[lo..hi] && n <= |inner|
    ensures Nibbles(inner, 0, n) == Nibbles(bytes, lo, lo + n)
  {
    if n > 0 { NibblesSlice(bytes, lo, hi, inner, n - 1); }
  }

  /** The number of bytes the literal from i on stands for, with this many parentheses open. */
  function LiteralSize(bytes: seq<Byte>, i: nat, nesting: nat): nat
    requires i <= |bytes|
    decreases |bytes| - i
  {
    var p := LexAt(bytes, i);
    if p.None? || i + Width(p.value) > |bytes| then 0
    else if p.value == Plain(CLOSE_PAREN) && nesting <= 1 then 0
    else |Means(p.value)| + LiteralSize(bytes, i + Width(p.value), nesting + Nesting(p.value))
  }

  /** What stands between the parentheses of an accepted literal, piece by piece. */
  lemma LiteralReads(bytes: seq<Byte>, start: nat, pieces: seq<Piece>, index: nat, nesting: nat, decodedLen: nat)
    returns (all: seq<Piece>)
    requires start < index <= |bytes| && bytes[start] == OPEN_PAREN && nesting >= 1
    requires ReadSoFar(bytes, start + 1, pieces, index, nesting, decodedLen)
    requires LiteralClose(bytes, index, nesting).Some?
    ensures IsLiteral(bytes, start, LiteralClose(bytes, index, nesting).value, all)
    ensures |Meaning(all, |all|)| == decodedLen + LiteralSize(bytes, index, nesting)
    decreases |bytes| - index
  {
    hide LexAt, Lex, Meaning, After, Depth, Reads, IsLiteral;
    if bytes[index] == CLOSE_PAREN && nesting == 1 {
      all := pieces;
      LiteralDone(bytes, start, pieces, index, decodedLen);
    } else {
      var p := LiteralAdvance(bytes, start, pieces, index, nesting, decodedLen);
      all := LiteralReads(bytes, start, pieces + [p], index + Width(p), nesting + Nesting(p), decodedLen + |Means(p)|);
    }
  }

  /** Reading a literal from behind its first k pieces finds its closing parenthesis. */
  lemma {:induction false} LiteralCloses(raw: seq<Byte>, start: nat, end: nat, pieces: seq<Piece>, k: nat)
    requires IsLiteral(raw, start, end, pieces) && k <= |pieces|
    ensures After(start + 1, pieces, k) < end
    ensures LiteralClose(raw, After(start + 1, pieces, k), 1 + Depth(pieces, k)) == Some(end)
    decreases |pieces| - k
  {
    hide LexAt, Lex, LiteralClose;
    AfterGrows(start + 1, pieces, k, |pieces|);
    assert Depth(pieces, k) >= 0;
    if k < |pieces| {
      LiteralCloses(raw, start, end, pieces, k + 1);
      assert ReadsAt(raw, start + 1, pieces, k) && Depth(pieces, k + 1) >= 0;
      CloseOn(raw, After(start + 1, pieces, k), 1 + Depth(pieces, k), pieces[k]);
    } else {
      CloseHere(raw, end - 1);
    }
  }

  lemma CloseOn(raw: seq<Byte>, i: nat, nesting: nat, p: Piece)
    requires LexAt(raw, i) == Some(p) && i + Width(p) <= |raw| && nesting >= 1 && nesting + Nesting(p) >= 1
    ensures LiteralClose(raw, i, nesting) == LiteralClose(raw, i + Width(p), nesting + Nesting(p))
  {
    hide LexAt;
  }

  lemma CloseHere(raw: seq<Byte>, i: nat)
    requires i < |raw| && raw[i] == CLOSE_PAREN
    ensures LiteralClose(raw, i, 1) == Some(i + 1)
  {
  }

  /** The first pass accepts exactly the literals of the grammar: it stops at `end` if and
      only if what stands in front of `end` is a parenthesized, balanced list of pieces. */
  lemma LiteralAccepted(raw: seq<Byte>, start: nat, end: nat)
    requires start < |raw| && raw[start] == OPEN_PAREN
    ensures TokenEnd(raw, start) == Some(end) <==> exists pieces :: IsLiteral(raw, start, end, pieces)
  {
    hide IsLiteral;
    if LiteralClose(raw, start + 1, 1) == Some(end) {
      var pieces := LiteralReads(raw, start, [], start + 1, 1, 0);
    }
    if pieces :| IsLiteral(raw, start, end, pieces) {
      LiteralCloses(raw, start, end, pieces, 0);
    }
  }

  /** Written as octal escapes, every byte string is one token for the first pass. */
  lemma OctalAccepted(bytes: seq<Byte>, raw: seq<Byte>, pieces: seq<Piece>)
    requires OctalText(bytes, raw) && OctalPieces(bytes, pieces)
    ensures TokenEnd(raw, 0) == Some(|raw|) && Meaning(pieces, |pieces|) == bytes
    ensures LeafMeans([raw], Span(0, 0, |raw|), LiteralString(bytes))
  {
    OctalRoundTrip(bytes, raw, pieces);
    LiteralAccepted(raw, 0, |raw|);
    hide IsLiteral, Meaning;
  }

  lemma LiteralAdvance(bytes: seq<Byte>, start: nat, pieces: seq<Piece>, index: nat, nesting: nat, decodedLen: nat)
    returns (p: Piece)
    requires start < index < |bytes| && nesting >= 1 && !(bytes[index] == CLOSE_PAREN && nesting == 1)
    requires ReadSoFar(bytes, start + 1, pieces, index, nesting, decodedLen)
    requires LiteralClose(bytes, index, nesting).Some?
    ensures index + Width(p) <= |bytes| && nesting + Nesting(p) >= 1
    ensures ReadSoFar(bytes, start + 1, pieces + [p], index + Width(p), nesting + Nesting(p), decodedLen + |Means(p)|)
    ensures LiteralClose(bytes, index + Width(p), nesting + Nesting(p)) == LiteralClose(bytes, index, nesting)
    ensures LiteralSize(bytes, index, nesting) == |Means(p)| + LiteralSize(bytes, index + Width(p), nesting + Nesting(p))
  {
    hide Lex, Meaning, After, Depth, Reads;
    p := LexAt(bytes, index).value;
    LiteralStep(bytes, index, nesting, index + Width(p), |Means(p)|);
    ReadOn(bytes, start + 1, pieces, index, nesting, decodedLen, p);
  }

  // ------------------------------------------------------------------ refusals

  /** A cancellation, or fuel that does not cover `spent`. */
  predicate RunsDry(limits: ContentLimits, error: ContentError, spent: nat) {
    error == Cancelled || (error == Resource(Fuel) && spent > limits.maxFuel)
  }

  /** What was to be spent is a byte of the input or the charge of a token. */
  lemma DryIsJustified(streams: seq<seq<Byte>>, limits: ContentLimits, log: seq<Span>, here: Pos, error: ContentError, spent: nat)
    requires RunsDry(limits, error, spent) && Lexed(streams, log) && InStreams(streams, here)
    requires spent <= Behind(streams, here) + |log|
    ensures Justified(streams, limits, error) && !error.Syntactic()
  {
    hide LexedTo;
    BehindTotal(streams, here);
    if error == Resource(Fuel) { FuelShort(streams, limits, log, spent); }
  }

  /** The same for a first pass, which may go on to the end of its stream. */
  lemma PassIsJustified(streams: seq<seq<Byte>>, limits: ContentLimits, log: seq<Span>, here: Pos, error: ContentError, spent: nat)
    requires Lexed(streams, log) && InStreams(streams, here) && here.stream < |streams|
    requires spent <= Behind(streams, here) + |log| + (|streams[here.stream]| - here.offset)
    requires RunsDry(limits, error, spent) || (error == ContentError.InternalState && |streams[here.stream]| > U32_MAX)
    ensures Justified(streams, limits, error) && !error.Syntactic()
  {
    hide LexedTo;
    var end := Pos(here.stream, |streams[here.stream]|);
    if RunsDry(limits, error, spent) {
      DryIsJustified(streams, limits, log, end, error, spent);
    } else {
      BehindTotal(streams, end);
    }
  }

  /** A bracket of this many bytes opens a container here. */
  ghost predicate Opens(streams: seq<seq<Byte>>, here: Pos, len: nat) {
    && here.stream < |streams| && here.offset + len <= |streams[here.stream]|
    && var raw := streams[here.stream][here.offset..here.offset + len];
    raw == [OPEN_BRACKET] || raw == [LESS, LESS]
  }

  lemma OpensHere(streams: seq<seq<Byte>>, here: Pos)
    requires here.stream < |streams| && here.offset < |streams[here.stream]|
    ensures streams[here.stream][here.offset] == OPEN_BRACKET ==> Opens(streams, here, 1)
    ensures streams[here.stream][here.offset] == LESS && At(streams[here.stream], here.offset + 1) == Some(LESS) ==>
              Opens(streams, here, 2)
  {
  }

  lemma OpenTooDeep(streams: seq<seq<Byte>>, limits: ContentLimits, log: seq<Span>, st: Stack, here: Pos, len: nat)
    requires Lexed(streams, log) && InStreams(streams, LogEnd(log, |log|)) && Skip(streams, LogEnd(log, |log|)) == here
    requires 0 < len && Opens(streams, here, len) && TokenEnd(streams[here.stream], here.offset) == Some(here.offset + len)
    requires Reaches(streams, log, st) && TakesValue(st) && Height(st) + 1 > limits.maxNestingDepth
    ensures Beyond(streams, limits, NestingDepth)
  {
    hide LexedTo, Skip, TokenEnd, ClassOf, RunTo, NextToken, Beyond;
    var s := Span(here.stream, here.offset, here.offset + len);
    LexedOn(streams, log, s);
    DelimiterClass(streams, s);
    RunOn(streams, log, st, s);
    assert Height(AfterValue(st)) == Height(st);
    TooDeep(streams, limits, log + [s], Step(st, ClassOf(streams, s)).value);
  }

  lemma {:induction false} ProgramOperators(streams: seq<seq<Byte>>, known: set<seq<Byte>>, p: Program)
    requires ProgramMeans(streams, known, p)
    ensures OperatorCount(streams, ProgramTokens(p), |ProgramTokens(p)|) >= ProgramSize(p)
  {
    hide ClassOf, OperatorMeans, ItemsMean, Flatten;
    match p
    case NoOperators =>
    case Published(front, span, isKnown, operands, _) =>
      ProgramOperators(streams, known, front);
      OperatorClass(streams, known, span, isKnown);
      var all := ProgramTokens(p);
      assert all[|all| - 1] == span && forall i :: 0 <= i < |ProgramTokens(front)| ==> all[i] == ProgramTokens(front)[i];
      SameCounts(streams, all, ProgramTokens(front), |ProgramTokens(front)|);
      CountGrows(streams, all, |ProgramTokens(front)|, |all| - 1);
  }

  lemma OneOperatorTooMany(streams: seq<seq<Byte>>, known: set<seq<Byte>>, limits: ContentLimits, t: Statistics, program: Program,
                           pending: Items, token: Span, log: seq<Span>)
    requires Accounts(streams, known, t, program, pending) && t.operators >= limits.maxOperators
    requires InBounds(streams, token) && OperatorMeans(streams, known, token, Text(streams, token) in known)
    requires log == t.log + [token] && Lexed(streams, log)
    ensures Beyond(streams, limits, Operators)
  {
    hide LexedTo, OperatorMeans, Beyond;
    var isKnown := Text(streams, token) in known;
    var p := Published(program, token, isKnown, pending, t.operators);
    PublishedMeans(streams, known, program, token, isKnown, pending);
    PublishedSizes(program, token, isKnown, pending, t.operators);
    ProgramOperators(streams, known, p);
    TooManyOperators(streams, limits, log);
  }

  lemma OneOperandTooMany(streams: seq<seq<Byte>>, known: set<seq<Byte>>, limits: ContentLimits, t: Statistics, program: Program,
                          pending: Items, o: Operand, log: seq<Span>)
    requires Accounts(streams, known, t, program, pending) && Size(pending) >= limits.maxOperandsPerOperator
    requires TreeMeans(streams, o) && log == t.log + Flatten(o) && Lexed(streams, log)
    ensures Beyond(streams, limits, OperandsPerOperator)
  {
    hide LexedTo, TreeMeans, Flatten, RunTo, Beyond, Outstanding, ProgramMeans, ItemsMean, ProgramTokens, FlattenItems, Accounts;
    AccountsMean(streams, known, t, program, pending, o);
    ReadLog(streams, known, t, program, pending, o);
    RunProgram(streams, known, program);
    ItemsOutstanding(streams, ProgramTokens(program), Top(false), Push(pending, o));
    TooManyOperands(streams, limits, log);
  }

  lemma ReadLog(streams: seq<seq<Byte>>, known: set<seq<Byte>>, t: Statistics, program: Program, pending: Items, o: Operand)
    requires Accounts(streams, known, t, program, pending)
    ensures t.log + Flatten(o) == ProgramTokens(program) + FlattenItems(Push(pending, o)) && Size(Push(pending, o)) == Size(pending) + 1
  {
    hide Flatten, ProgramTokens, ProgramMeans, ItemsMean;
    assert t.log + Flatten(o) == ProgramTokens(program) + (FlattenItems(pending) + Flatten(o));
  }

  lemma AccountsMean(streams: seq<seq<Byte>>, known: set<seq<Byte>>, t: Statistics, program: Program, pending: Items, o: Operand)
    requires Accounts(streams, known, t, program, pending) && TreeMeans(streams, o)
    ensures ProgramMeans(streams, known, program) && ItemsMean(streams, Push(pending, o))
  {
    hide TreeMeans, ProgramMeans;
  }

  lemma NothingRead(streams: seq<seq<Byte>>)
    ensures Lexed(streams, []) && InStreams(streams, Pos(0, 0)) && Behind(streams, Pos(0, 0)) == 0
  {
  }

  lemma {:induction false} LengthGrows(streams: seq<seq<Byte>>, m: nat, n: nat)
    requires m <= n <= |streams|
    ensures Length(streams, m) <= Length(streams, n)
    decreases n
  {
    if m < n { LengthGrows(streams, m, n - 1); }
  }

  lemma BehindTotal(streams: seq<seq<Byte>>, p: Pos)
    requires InStreams(streams, p)
    ensures Behind(streams, p) <= Length(streams, |streams|)
  {
    LengthGrows(streams, if p.stream < |streams| then p.stream + 1 else p.stream, |streams|);
  }

  lemma BoundarySkips(streams: seq<seq<Byte>>, s: nat)
    requires s < |streams|
    ensures Skip(streams, Pos(s, |streams[s]|)) == Skip(streams, Pos(s + 1, 0))
    ensures Behind(streams, Pos(s, |streams[s]|)) == Behind(streams, Pos(s + 1, 0))
  {
  }

  lemma WhitespaceSkips(streams: seq<seq<Byte>>, s: nat, i: nat)
    requires s < |streams| && i < |streams[s]| && IsWhitespace(streams[s][i])
    ensures Skip(streams, Pos(s, i)) == Skip(streams, Pos(s, i + 1))
  {
  }

  lemma RegularEnds(bytes: seq<Byte>, i: nat)
    requires i < |bytes| && !IsDelimiter(bytes[i])
    ensures TokenEnd(bytes, i) == Some(RegularEnd(bytes, i))
  {
  }

  lemma CommentSkips(streams: seq<seq<Byte>>, s: nat, start: nat, end: nat)
    requires s < |streams| && start < end <= |streams[s]| && streams[s][start] == PERCENT
    requires end == CommentEnd(streams[s], start)
    ensures Skip(streams, Pos(s, start)) == Skip(streams, Pos(s, end))
  {
  }

  /** A leaf was read: its token joined the log. */
  ghost predicate ReadLeaf(streams: seq<seq<Byte>>, from: Progress, now: Progress, o: Operand) {
    && o.Leaf? && LeafMeans(streams, o.span, o.value)
    && now == from.(here := o.span.Behind(), log := from.log + [o.span]) && from.here == o.span.First()
  }

  /** A tree was read at nesting depth `depth`: its tokens joined the log, its nodes (but
      for `uncounted`) the operand count, its depth the nesting maximum. */
  ghost predicate ReadTree(streams: seq<seq<Byte>>, from: Progress, now: Progress, o: Operand, depth: nat, uncounted: nat) {
    && InStreams(streams, from.here) && InStreams(streams, now.here) && Behind(streams, from.here) < Behind(streams, now.here)
    && now.log == from.log + Flatten(o) && TreeMeans(streams, o)
    && now.operands + uncounted == from.operands + Count(o).Nodes()
    && now.nesting == Max(from.nesting, depth + Count(o).depth)
  }

  /** The same state apart from skipped white space. */
  ghost predicate Skipped(streams: seq<seq<Byte>>, from: Progress, now: Progress) {
    && InStreams(streams, from.here) && InStreams(streams, now.here) && Behind(streams, from.here) <= Behind(streams, now.here)
    && now == from.(here := now.here)
  }

  /** What the loop of an open container has read since the bracket. */
  ghost predicate Inside(streams: seq<seq<Byte>>, from: Progress, now: Progress, open: Span, inner: seq<Span>, c: Census, depth: nat) {
    && InStreams(streams, from.here) && InStreams(streams, now.here) && Behind(streams, from.here) < Behind(streams, now.here)
    && now.log == from.log + [open] + inner
    && now.operands == from.operands + c.Nodes()
    && now.nesting == Max(from.nesting, depth + c.depth)
  }

  lemma LeafTree(streams: seq<seq<Byte>>, from: Progress, now: Progress, o: Operand, depth: nat)
    requires ReadLeaf(streams, from, now, o) && depth <= from.nesting
    ensures ReadTree(streams, from, now, o, depth, 1)
  {
  }

  lemma SkippedTree(streams: seq<seq<Byte>>, from: Progress, mid: Progress, now: Progress, o: Operand, depth: nat)
    requires Skipped(streams, from, mid) && ReadTree(streams, mid, now, o, depth, 1)
    ensures ReadTree(streams, from, now.(operands := now.operands + 1), o, depth, 0)
  {
  }

  ghost predicate InsideArray(streams: seq<seq<Byte>>, from: Progress, now: Progress, open: Span, items: Items, depth: nat) {
    Inside(streams, from, now, open, FlattenItems(items), CountItems(items), depth) && ItemsMean(streams, items)
  }

  ghost predicate InsideDictionary(streams: seq<seq<Byte>>, from: Progress, now: Progress, open: Span, entries: Entries, depth: nat) {
    Inside(streams, from, now, open, FlattenEntries(entries), CountEntries(entries), depth) && EntriesMean(streams, entries)
  }

  lemma OpenInside(streams: seq<seq<Byte>>, from: Progress, now: Progress, open: Span, parentDepth: nat)
    requires InBounds(streams, open) && from.here == open.First() && now.here == open.Behind()
    requires now == Progress(now.here, from.log + [open], from.operands, Max(from.nesting, parentDepth + 1))
    ensures InsideArray(streams, from, now, open, NoItems, parentDepth + 1)
    ensures InsideDictionary(streams, from, now, open, NoEntries, parentDepth + 1)
  {
    hide Length;
    assert from.log + [open] + [] == from.log + [open];
  }

  lemma AddItem(streams: seq<seq<Byte>>, from: Progress, mid: Progress, skipped: Progress, now: Progress,
                open: Span, items: Items, depth: nat, o: Operand)
    requires InsideArray(streams, from, mid, open, items, depth)
    requires Skipped(streams, mid, skipped) && ReadTree(streams, skipped, now, o, depth, 0)
    ensures InsideArray(streams, from, now, open, Push(items, o), depth)
  {
    hide Length, Flatten, FlattenItems, TreeMeans, Count, CountItems;
    ItemPushed(items, o);
    ItemCounted(items, o);
    assert now.log == from.log + [open] + (FlattenItems(items) + Flatten(o));
  }

  lemma ItemPushed(items: Items, o: Operand)
    ensures FlattenItems(Push(items, o)) == FlattenItems(items) + Flatten(o)
  {
    hide Flatten;
  }

  lemma ItemCounted(items: Items, o: Operand)
    ensures CountItems(Push(items, o)) == CountItems(items).Plus(Count(o))
  {
    hide Count;
  }

  lemma AddEntry(streams: seq<seq<Byte>>, from: Progress, mid: Progress, keyed: Progress, now: Progress,
                 open: Span, entries: Entries, depth: nat, keySpan: Span, key: seq<Byte>, value: Operand)
    requires InsideDictionary(streams, from, mid, open, entries, depth)
    requires InStreams(streams, keyed.here) && Behind(streams, mid.here) <= Behind(streams, keyed.here)
    requires keyed == mid.(here := keyed.here, log := mid.log + [keySpan]) && KeyMeans(streams, keySpan, key)
    requires ReadTree(streams, keyed, now, value, depth, 0)
    ensures InsideDictionary(streams, from, now, open, PushEntry(entries, keySpan, key, value), depth)
  {
    hide Length, Flatten, FlattenEntries, TreeMeans, Count, CountEntries, KeyMeans;
    var before := FlattenEntries(entries);
    EntryPushed(entries, keySpan, key, value);
    EntryCounted(entries, keySpan, key, value);
    Regroup(from.log + [open], before, [keySpan], Flatten(value));
    assert now.log == from.log + [open] + FlattenEntries(PushEntry(entries, keySpan, key, value));
  }

  lemma EntryPushed(entries: Entries, keySpan: Span, key: seq<Byte>, value: Operand)
    ensures FlattenEntries(PushEntry(entries, keySpan, key, value)) == FlattenEntries(entries) + [keySpan] + Flatten(value)
  {
    hide Flatten;
  }

  lemma EntryCounted(entries: Entries, keySpan: Span, key: seq<Byte>, value: Operand)
    ensures CountEntries(PushEntry(entries, keySpan, key, value)) == CountEntries(entries).Keyed().Plus(Count(value))
  {
    hide Count;
  }

  lemma Regroup<T>(a: seq<T>, b: seq<T>, c: seq<T>, d: seq<T>)
    ensures a + b + c + d == a + (b + c + d)
  {
  }

  /** The bytes of a delimiter. */
  lemma FixedText(streams: seq<seq<Byte>>, s: Span)
    requires InBounds(streams, s)
    ensures s.end == s.start + 1 ==> Text(streams, s) == [streams[s.stream][s.start]]
    ensures s.end == s.start + 2 ==> Text(streams, s) == [streams[s.stream][s.start], streams[s.stream][s.start + 1]]
  {
  }

  lemma CloseArray(streams: seq<seq<Byte>>, from: Progress, mid: Progress, now: Progress,
                   open: Span, items: Items, close: Span, parentDepth: nat)
    requires InsideArray(streams, from, mid, open, items, parentDepth + 1)
    requires InStreams(streams, now.here) && Behind(streams, mid.here) <= Behind(streams, now.here)
    requires now == mid.(here := now.here, log := mid.log + [close])
    requires Delimits(streams, open, close, [OPEN_BRACKET], [CLOSE_BRACKET])
    ensures ReadTree(streams, from, now, Array(open, items, close), parentDepth, 1)
  {
    hide Length, FlattenItems, ItemsMean, CountItems;
    assert from.log + [open] + FlattenItems(items) + [close] == from.log + ([open] + FlattenItems(items) + [close]);
  }

  lemma CloseDictionary(streams: seq<seq<Byte>>, from: Progress, mid: Progress, now: Progress,
                        open: Span, entries: Entries, close: Span, parentDepth: nat)
    requires InsideDictionary(streams, from, mid, open, entries, parentDepth + 1)
    requires InStreams(streams, now.here) && Behind(streams, mid.here) <= Behind(streams, now.here)
    requires now == mid.(here := now.here, log := mid.log + [close])
    requires Delimits(streams, open, close, [LESS, LESS], [GREATER, GREATER])
    ensures ReadTree(streams, from, now, Dictionary(open, entries, close), parentDepth, 1)
  {
    hide Length, FlattenEntries, EntriesMean, CountEntries;
    assert from.log + [open] + FlattenEntries(entries) + [close] == from.log + ([open] + FlattenEntries(entries) + [close]);
  }

  /** The piece at index ends at `end` and stands for `width` bytes. */
  ghost predicate PieceIs(bytes: seq<Byte>, index: nat, end: nat, width: nat) {
    && LexAt(bytes, index).Some? && end <= |bytes|
    && end == index + Width(LexAt(bytes, index).value) && width == |Means(LexAt(bytes, index).value)|
  }

  /** The name from lo on is the counted characters followed by the name from index on. */
  ghost predicate Counted(bytes: seq<Byte>, lo: nat, index: nat, count: nat)
    requires lo <= |bytes| && index <= |bytes|
  {
    var all, rest := NameFrom(bytes, lo), NameFrom(bytes, index);
    && (all.Some? <==> rest.Some?)
    && (all.Some? ==> all.value.1 == rest.value.1 && |all.value.0| == count + |rest.value.0|)
  }

  /** The pieces read so far, their open parentheses and decoded length. */
  ghost predicate ReadSoFar(bytes: seq<Byte>, lo: nat, pieces: seq<Piece>, index: nat, nesting: nat, decodedLen: nat) {
    && Reads(bytes, lo, pieces) && index == After(lo, pieces, |pieces|)
    && nesting == 1 + Depth(pieces, |pieces|) && (forall n :: 0 <= n <= |pieces| ==> Depth(pieces, n) >= 0)
    && decodedLen == |Meaning(pieces, |pieces|)|
  }

  lemma BracketEnds(bytes: seq<Byte>, i: nat)
    requires i < |bytes|
    ensures bytes[i] == OPEN_BRACKET || bytes[i] == CLOSE_BRACKET ==> TokenEnd(bytes, i) == Some(i + 1)
    ensures bytes[i] == LESS && At(bytes, i + 1) == Some(LESS) ==> TokenEnd(bytes, i) == Some(i + 2)
    ensures bytes[i] == GREATER && At(bytes, i + 1) == Some(GREATER) ==> TokenEnd(bytes, i) == Some(i + 2)
  {
  }

  lemma StringEnds(bytes: seq<Byte>, i: nat)
    requires i < |bytes|
    ensures bytes[i] == OPEN_PAREN ==> TokenEnd(bytes, i) == LiteralClose(bytes, i + 1, 1)
    ensures bytes[i] == LESS && At(bytes, i + 1) != Some(LESS) ==> TokenEnd(bytes, i) == HexClose(bytes, i + 1)
  {
  }

  lemma LiteralDone(bytes: seq<Byte>, start: nat, pieces: seq<Piece>, index: nat, decodedLen: nat)
    requires start < index < |bytes| && bytes[start] == OPEN_PAREN && bytes[index] == CLOSE_PAREN
    requires ReadSoFar(bytes, start + 1, pieces, index, 1, decodedLen)
    ensures IsLiteral(bytes, start, index + 1, pieces) && LiteralClose(bytes, index, 1) == Some(index + 1)
    ensures LiteralSize(bytes, index, 1) == 0
  {
    LiteralStops(bytes, index);
  }

  lemma LiteralStep(bytes: seq<Byte>, index: nat, nesting: nat, end: nat, width: nat)
    requires index < |bytes| && PieceIs(bytes, index, end, width) && nesting >= 1
    requires !(bytes[index] == CLOSE_PAREN && nesting == 1)
    ensures var n := if bytes[index] == OPEN_PAREN then nesting + 1
                     else if bytes[index] == CLOSE_PAREN then nesting - 1 else nesting;
            && LiteralClose(bytes, index, nesting) == LiteralClose(bytes, end, n)
            && LiteralSize(bytes, index, nesting) == width + LiteralSize(bytes, end, n)
  {
  }

  lemma LiteralStops(bytes: seq<Byte>, index: nat)
    requires index < |bytes| && bytes[index] == CLOSE_PAREN
    ensures LiteralClose(bytes, index, 1) == Some(index + 1) && LiteralSize(bytes, index, 1) == 0
  {
    assert LexAt(bytes, index) == Some(Plain(CLOSE_PAREN));
  }

  lemma ReadOn(bytes: seq<Byte>, lo: nat, pieces: seq<Piece>, index: nat, nesting: nat, decodedLen: nat, p: Piece)
    requires ReadSoFar(bytes, lo, pieces, index, nesting, decodedLen) && LexAt(bytes, index) == Some(p)
    requires nesting + Nesting(p) >= 1
    ensures ReadSoFar(bytes, lo, pieces + [p], index + Width(p), nesting + Nesting(p), decodedLen + |Means(p)|)
  {
    var all := pieces + [p];
    SameAfter(lo, all, pieces, |pieces|);
    SameMeaning(all, pieces, |pieces|);
    forall k | 0 <= k < |all| ensures ReadsAt(bytes, lo, all, k) {
      if k < |pieces| {
        assert ReadsAt(bytes, lo, pieces, k);
        SameAfter(lo, all, pieces, k);
      }
    }
    forall n | 0 <= n <= |all| ensures Depth(all, n) >= 0 {
      if n <= |pieces| { SameAfter(lo, all, pieces, n); }
    }
  }
}
