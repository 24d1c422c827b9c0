/** Exact fixed-point conversion of PDF decimal lexemes (pdf-rs/content/src/number.rs,
    lines 31-236). Every checked machine operation of the source is written out; Decimal
    gives the meaning it is proved against. */
module ContentNumbers {
  import opened Basics
  import opened Decimal

  const I64_MAX: int := 0x7FFF_FFFF_FFFF_FFFF
  const I128_MAX: int := 0x7FFF_FFFF_FFFF_FFFF_FFFF_FFFF_FFFF_FFFF
  const MAX_SCALED_DIGITS: nat := 19

  datatype NumberError = InvalidNumber | NumericPrecision | NumericOverflow

  datatype NumberResult = Number(scaled: int) | Refused(error: NumberError)

  predicate InI64(v: int) { -I64_MAX - 1 <= v <= I64_MAX }

  function CheckedI128(x: int): Option<int> { if -I128_MAX - 1 <= x <= I128_MAX then Some(x) else None }

  function CheckedU64(x: nat): Option<nat> { if x <= U64_MAX then Some(x) else None }

  /** What the conversion of a lexeme is for: the exact value if it has nine decimals and
      fits, and one of three errors otherwise. */
  ghost predicate Converts(raw: seq<Byte>, r: NumberResult) {
    match r
    case Number(v) => Denotes(raw, v) && InI64(v)
    case Refused(InvalidNumber) => !WellFormed(raw)
    case Refused(NumericPrecision) => WellFormed(raw) && forall v :: !Denotes(raw, v)
    case Refused(NumericOverflow) => exists v :: Denotes(raw, v) && !InI64(v)
  }

  /** The three errors and the values exclude each other, so a conversion has one result. */
  lemma ConvertsOnce(raw: seq<Byte>, a: NumberResult, b: NumberResult)
    requires Converts(raw, a) && Converts(raw, b)
    ensures a == b
  {
    if a.Number? {
      if b.Number? {
        DenotesOnce(raw, a.scaled, b.scaled);
      } else if b.error.NumericOverflow? {
        var w :| Denotes(raw, w) && !InI64(w);
        DenotesOnce(raw, a.scaled, w);
      }
    } else if a.error.NumericOverflow? {
      var v :| Denotes(raw, v) && !InI64(v);
      if b.Number? { DenotesOnce(raw, v, b.scaled); }
    }
  }

  // ------------------------------------------------------------------ mantissa

  datatype MantissaScan = MantissaScan(
    end: nat, totalDigits: nat, fractionalDigits: nat, firstNonzero: Option<nat>, lastNonzero: nat)

  lemma {:induction false} DotsGrow(raw: seq<Byte>, lo: nat, i: nat, j: nat)
    requires i <= j <= |raw|
    ensures Dots(raw, lo, i) <= Dots(raw, lo, j)
    decreases j
  {
    if i < j { DotsGrow(raw, lo, i, j - 1); }
  }

  lemma EndIs(raw: seq<Byte>, i: nat)
    requires Start(raw) <= i <= |raw| && forall j :: Start(raw) <= j < i ==> !IsExponentMark(raw[j])
    ensures i <= End(raw)
    ensures i == |raw| || IsExponentMark(raw[i]) ==> i == End(raw)
  {
  }

  lemma BadByte(raw: seq<Byte>, i: nat)
    requires Start(raw) <= i < |raw| && forall j :: Start(raw) <= j < i ==> !IsExponentMark(raw[j])
    requires !IsDigit(raw[i]) && !IsExponentMark(raw[i]) && (raw[i] == DOT ==> Dots(raw, Start(raw), i) >= 1)
    ensures !MantissaOk(raw, Start(raw), End(raw))
  {
    EndIs(raw, i + 1);
    DotsGrow(raw, Start(raw), i + 1, End(raw));
  }

  /** What the positions of the first and last nonzero digit say about the value read so
      far; `first` and `last` are their ordinals among the digits. */
  ghost predicate Nonzeros(raw: seq<Byte>, lo: nat, hi: nat, first: Option<nat>, last: nat, firstAt: nat, lastAt: nat)
    requires hi <= |raw|
  {
    if first.None? then Value(raw, lo, hi) == 0
    else
      && lo <= firstAt <= lastAt < hi
      && IsDigit(raw[firstAt]) && raw[firstAt] != 48 && Value(raw, lo, firstAt) == 0
      && first.value == Digits(raw, lo, firstAt)
      && last == Digits(raw, lo, lastAt) && EndsAt(raw, lo, lastAt, hi) && Value(raw, lo, lastAt + 1) % 10 != 0
  }

  /** Reading one more byte: a nonzero digit becomes the last one, anything else only
      scales. */
  lemma NonzerosStep(raw: seq<Byte>, lo: nat, hi: nat, first: Option<nat>, last: nat, firstAt: nat, lastAt: nat)
    requires lo <= hi < |raw| && Nonzeros(raw, lo, hi, first, last, firstAt, lastAt)
    ensures if IsDigit(raw[hi]) && raw[hi] != 48
            then Nonzeros(raw, lo, hi + 1, if first.None? then Some(Digits(raw, lo, hi)) else first, Digits(raw, lo, hi),
                          if first.None? then hi else firstAt, hi)
            else Nonzeros(raw, lo, hi + 1, first, last, firstAt, lastAt)
  {
    if IsDigit(raw[hi]) && raw[hi] != 48 {
      EndsHere(raw, lo, hi);
    } else if first.Some? {
      EndsOn(raw, lo, lastAt, hi);
    }
  }

  /** The counters of the first loop behind raw[lo..hi]. */
  ghost predicate Counts(raw: seq<Byte>, lo: nat, hi: nat, seenDecimal: bool, scan: MantissaScan, firstAt: nat, lastAt: nat)
    requires hi <= |raw|
  {
    && (forall j :: lo <= j < hi ==> IsDigit(raw[j]) || raw[j] == DOT)
    && scan.end == hi && scan.totalDigits == Digits(raw, lo, hi) && scan.fractionalDigits == Fraction(raw, lo, hi)
    && Dots(raw, lo, hi) == (if seenDecimal then 1 else 0)
    && Nonzeros(raw, lo, hi, scan.firstNonzero, scan.lastNonzero, firstAt, lastAt)
  }

  lemma DigitStep(raw: seq<Byte>, lo: nat, hi: nat, seenDecimal: bool, scan: MantissaScan, firstAt: nat, lastAt: nat)
    requires lo <= hi < |raw| && IsDigit(raw[hi]) && Counts(raw, lo, hi, seenDecimal, scan, firstAt, lastAt)
    ensures var fractional := scan.fractionalDigits + if seenDecimal then 1 else 0;
            var first := if raw[hi] != 48 && scan.firstNonzero.None? then Some(scan.totalDigits) else scan.firstNonzero;
            var last := if raw[hi] != 48 then scan.totalDigits else scan.lastNonzero;
            Counts(raw, lo, hi + 1, seenDecimal, MantissaScan(hi + 1, scan.totalDigits + 1, fractional, first, last),
                   if raw[hi] != 48 && scan.firstNonzero.None? then hi else firstAt, if raw[hi] != 48 then hi else lastAt)
  {
    NonzerosStep(raw, lo, hi, scan.firstNonzero, scan.lastNonzero, firstAt, lastAt);
    hide Nonzeros;
  }

  lemma PointStep(raw: seq<Byte>, lo: nat, hi: nat, scan: MantissaScan, firstAt: nat, lastAt: nat)
    requires lo <= hi < |raw| && raw[hi] == DOT && Counts(raw, lo, hi, false, scan, firstAt, lastAt)
    ensures Counts(raw, lo, hi + 1, true, scan.(end := hi + 1), firstAt, lastAt)
  {
    NonzerosStep(raw, lo, hi, scan.firstNonzero, scan.lastNonzero, firstAt, lastAt);
    hide Nonzeros;
  }

  /** The loop has ended: at the end of the mantissa, or at a byte that cannot be in one. */
  lemma MantissaEnds(raw: seq<Byte>, i: nat, seenDecimal: bool, scan: MantissaScan, firstAt: nat, lastAt: nat)
    requires Start(raw) <= i <= |raw| && Counts(raw, Start(raw), i, seenDecimal, scan, firstAt, lastAt)
    ensures i == |raw| || IsExponentMark(raw[i]) ==>
              i == End(raw) && (MantissaOk(raw, Start(raw), End(raw)) <==> scan.totalDigits > 0)
    ensures i < |raw| && !IsExponentMark(raw[i]) && !IsDigit(raw[i]) && (raw[i] == DOT ==> seenDecimal) ==>
              !MantissaOk(raw, Start(raw), End(raw))
  {
    EndIs(raw, i);
    if i < |raw| && !IsExponentMark(raw[i]) && !IsDigit(raw[i]) && (raw[i] == DOT ==> seenDecimal) {
      BadByte(raw, i);
    }
  }

  /** The first loop of parse_content_number. */
  method ScanMantissa(raw: seq<Byte>) returns (r: Option<MantissaScan>, ghost firstAt: nat, ghost lastAt: nat)
    ensures r.Some? <==> MantissaOk(raw, Start(raw), End(raw))
    ensures r.Some? ==>
              && r.value.end == End(raw)
              && r.value.totalDigits == Digits(raw, Start(raw), End(raw))
              && r.value.fractionalDigits == Fraction(raw, Start(raw), End(raw))
              && Nonzeros(raw, Start(raw), End(raw), r.value.firstNonzero, r.value.lastNonzero, firstAt, lastAt)
  {
    hide Nonzeros, Digits, Fraction, Dots, Value, MantissaOk, End;
    var lo := SignLen(raw, 0);
    var index := lo;
    var seenDecimal := false;
    var totalDigits, fractionalDigits, lastNonzero := 0, 0, 0;
    var firstNonzero: Option<nat> := None;
    firstAt, lastAt := 0, 0;
    NothingRead(raw);
    while index < |raw|
      invariant lo <= index <= |raw|
      invariant Counts(raw, lo, index, seenDecimal,
                       MantissaScan(index, totalDigits, fractionalDigits, firstNonzero, lastNonzero), firstAt, lastAt)
    {
      hide Counts;
      var byte := raw[index];
      ghost var scan := MantissaScan(index, totalDigits, fractionalDigits, firstNonzero, lastNonzero);
      MantissaEnds(raw, index, seenDecimal, scan, firstAt, lastAt);
      if IsDigit(byte) {
        DigitStep(raw, lo, index, seenDecimal, scan, firstAt, lastAt);
        var ordinal := totalDigits;
        totalDigits := totalDigits + 1;
        if seenDecimal {
          fractionalDigits := fractionalDigits + 1;
        }
        if byte != 48 {
          if firstNonzero.None? {
            firstNonzero := Some(ordinal);
            firstAt := index;
          }
          lastNonzero := ordinal;
          lastAt := index;
        }
      } else if byte == DOT && !seenDecimal {
        PointStep(raw, lo, index, scan, firstAt, lastAt);
        seenDecimal := true;
      } else if IsExponentMark(byte) {
        break;
      } else {
        return None, 0, 0;
      }
      index := index + 1;
    }
    MantissaEnds(raw, index, seenDecimal, MantissaScan(index, totalDigits, fractionalDigits, firstNonzero, lastNonzero),
                 firstAt, lastAt);
    if totalDigits == 0 {
      return None, 0, 0;
    }
    return Some(MantissaScan(index, totalDigits, fractionalDigits, firstNonzero, lastNonzero)), firstAt, lastAt;
  }

  lemma NothingRead(raw: seq<Byte>)
    ensures Counts(raw, Start(raw), Start(raw), false, MantissaScan(Start(raw), 0, 0, None, 0), 0, 0)
  {
  }

  // ------------------------------------------------------------------ exponent

  datatype ParsedExponent = Finite(value: int) | PositiveOverflow | NegativeOverflow

  /** An exponent as parse_exponent sees it: exact, or beyond an i128 on either side. */
  function ExponentOf(e: int): ParsedExponent {
    if e > I128_MAX then PositiveOverflow else if e < -I128_MAX then NegativeOverflow else Finite(e)
  }

  /** parse_exponent on raw[at..]; None is InvalidNumber. */
  method ParseExponent(raw: seq<Byte>, at: nat) returns (r: Option<ParsedExponent>)
    requires at <= |raw|
    ensures r.Some? <==> ExponentOk(raw, at)
    ensures r.Some? ==> r.value == ExponentOf(ExponentAt(raw, at))
  {
    if at == |raw| {
      return None;
    }
    var negative := raw[at] == MINUS;
    var lo := at + SignLen(raw, at);
    if lo == |raw| {
      return None;
    }
    var magnitude: Option<int> := Some(0);
    for i := lo to |raw|
      invariant forall j :: lo <= j < i ==> IsDigit(raw[j])
      invariant magnitude == if Value(raw, lo, i) <= I128_MAX then Some(Value(raw, lo, i)) else None
    {
      if !IsDigit(raw[i]) {
        return None;
      }
      if magnitude.Some? {
        var scaled := CheckedI128(magnitude.value * 10);
        magnitude := if scaled.Some? then CheckedI128(scaled.value + Digit(raw[i])) else None;
      }
    }
    match magnitude {
      case Some(value) =>
        r := Some(Finite(if negative then -value else value));
      case None =>
        r := Some(if negative then NegativeOverflow else PositiveOverflow);
    }
  }

  // ------------------------------------------------------------------ conversion

  /** The value the third loop holds before position i. */
  ghost function Held(raw: seq<Byte>, lo: nat, lastAt: nat, i: nat): nat
    requires i <= |raw| && lastAt < |raw|
  {
    Value(raw, lo, if i <= lastAt then i else lastAt + 1)
  }

  lemma HeldStep(raw: seq<Byte>, lo: nat, firstAt: nat, lastAt: nat, i: nat)
    requires lo <= firstAt <= lastAt < |raw| && IsDigit(raw[firstAt]) && IsDigit(raw[lastAt])
    requires Value(raw, lo, firstAt) == 0 && lo <= i < |raw|
    ensures Held(raw, lo, lastAt, i + 1) <= Value(raw, lo, lastAt + 1)
    ensures Held(raw, lo, lastAt, i + 1)
            == if IsDigit(raw[i]) && Digits(raw, lo, firstAt) <= Digits(raw, lo, i) <= Digits(raw, lo, lastAt)
               then 10 * Held(raw, lo, lastAt, i) + Digit(raw[i]) else Held(raw, lo, lastAt, i)
  {
    if i <= lastAt { ValueGrows(raw, lo, i + 1, lastAt + 1); }
    if i < firstAt { ValueGrows(raw, lo, i + 1, firstAt); }
    if IsDigit(raw[i]) { Ordinals(raw, lo, i, firstAt, lastAt); }
  }

  /** The third loop: the digits between the first and the last nonzero one. It cannot
      overflow when at most nineteen digits are read. */
  method Magnitude(raw: seq<Byte>, end: nat, first: nat, last: nat, ghost firstAt: nat, ghost lastAt: nat)
    returns (magnitude: Option<nat>)
    requires Start(raw) <= firstAt <= lastAt < end <= |raw| && IsDigit(raw[firstAt]) && IsDigit(raw[lastAt])
    requires Value(raw, Start(raw), firstAt) == 0
    requires first == Digits(raw, Start(raw), firstAt) && last == Digits(raw, Start(raw), lastAt)
    requires Value(raw, Start(raw), lastAt + 1) <= U64_MAX
    ensures magnitude == Some(Value(raw, Start(raw), lastAt + 1))
  {
    var lo := SignLen(raw, 0);
    var ordinal, value := 0, 0;
    for i := lo to end
      invariant ordinal == Digits(raw, lo, i)
      invariant value == Held(raw, lo, lastAt, i) <= U64_MAX
    {
      HeldStep(raw, lo, firstAt, lastAt, i);
      if !IsDigit(raw[i]) {
        continue;
      }
      if ordinal >= first && ordinal <= last {
        var scaled := CheckedU64(value * 10);
        if scaled.None? {
          return None;
        }
        var sum := CheckedU64(scaled.value + Digit(raw[i]));
        if sum.None? {
          return None;
        }
        value := sum.value;
      }
      ordinal := ordinal + 1;
    }
    return Some(value);
  }

  lemma {:induction false} ValueGrows(raw: seq<Byte>, lo: nat, i: nat, j: nat)
    requires i <= j <= |raw|
    ensures Value(raw, lo, i) <= Value(raw, lo, j)
    decreases j
  {
    if i < j { ValueGrows(raw, lo, i, j - 1); }
  }

  /** Comparing ordinals of digits is comparing their positions. */
  lemma Ordinals(raw: seq<Byte>, lo: nat, i: nat, firstAt: nat, lastAt: nat)
    requires lo <= i < |raw| && IsDigit(raw[i]) && lo <= firstAt <= lastAt < |raw|
    requires IsDigit(raw[firstAt]) && IsDigit(raw[lastAt])
    ensures Digits(raw, lo, i) >= Digits(raw, lo, firstAt) <==> i >= firstAt
    ensures Digits(raw, lo, i) <= Digits(raw, lo, lastAt) <==> i <= lastAt
  {
    if i < firstAt { DigitsGrow(raw, lo, i, firstAt); } else { DigitsGrow(raw, lo, firstAt, i); }
    if i <= lastAt { DigitsGrow(raw, lo, i, lastAt); } else { DigitsGrow(raw, lo, lastAt, i); }
  }

  lemma Nineteen(n: nat)
    requires n <= MAX_SCALED_DIGITS
    ensures Pow10(n) <= 10_000_000_000_000_000_000 < U64_MAX
  {
    PowGrows(n, 19);
    PowAdd(9, 10);
    SmallPowers();
  }

  lemma SmallPowers()
    ensures Pow10(9) == 1_000_000_000 && Pow10(10) == 10_000_000_000
  {
    assert Pow10(3) == 1000;
    PowAdd(3, 3);
    PowAdd(6, 3);
  }

  /** signed_scaled. */
  function SignedScaled(magnitude: nat, negative: bool): (r: NumberResult)
    requires magnitude <= U64_MAX
    ensures r == if InI64(Signed(negative, magnitude)) then Number(Signed(negative, magnitude))
                 else Refused(NumericOverflow)
  {
    if magnitude == 0 then Number(0)
    else if !negative then (if magnitude <= I64_MAX then Number(magnitude) else Refused(NumericOverflow))
    else if magnitude > I64_MAX + 1 then Refused(NumericOverflow)
    else if magnitude == I64_MAX + 1 then Number(-I64_MAX - 1)
    else Number(0 - magnitude)
  }

  datatype Shift = Exact(value: int) | Fails(error: NumberError)

  /** The decimal shift, with the error of each checked step. */
  function DecimalShift(exponent: int, fractional: nat, zeros: nat): (r: Shift)
    requires -I128_MAX <= exponent <= I128_MAX && fractional <= ISIZE_MAX && zeros <= ISIZE_MAX
    ensures r.Exact? ==> r.value == exponent - fractional + 9 + zeros
    ensures r.Fails? ==> r.error == if exponent < 0 then NumericPrecision else NumericOverflow
    ensures r.Fails? && exponent < 0 ==> exponent - fractional + 9 + zeros < 0
    ensures r.Fails? && exponent >= 0 ==> exponent - fractional + 9 + zeros > MAX_SCALED_DIGITS
  {
    var net := CheckedI128(exponent - fractional);
    if net.None? then Fails(NumericPrecision)
    else
      var scaled := CheckedI128(net.value + 9);
      if scaled.None? then Fails(if exponent < 0 then NumericPrecision else NumericOverflow)
      else
        var shifted := CheckedI128(scaled.value + zeros);
        if shifted.None? then Fails(NumericOverflow) else Exact(shifted.value)
  }

  /** A nonzero lexeme, by its significant digits and the zeros behind them. */
  ghost predicate Splits(raw: seq<Byte>, significant: nat, digits: nat, zeros: nat) {
    && WellFormed(raw) && |raw| <= ISIZE_MAX
    && significant % 10 != 0 && Mantissa(raw) == significant * Pow10(zeros)
    && 1 <= digits <= |raw| && zeros <= |raw|
    && Pow10(digits - 1) <= significant < Pow10(digits)
  }

  /** A negative shift drops nonzero digits. */
  lemma TooPrecise(raw: seq<Byte>, significant: nat, digits: nat, zeros: nat)
    requires Splits(raw, significant, digits, zeros) && Scale(raw) + zeros < 0
    ensures Converts(raw, Refused(NumericPrecision))
  {
    DenotesScaled(raw, significant, zeros);
  }

  /** More than nineteen scaled digits are beyond i64 on either side. */
  lemma TooLarge(raw: seq<Byte>, significant: nat, digits: nat, zeros: nat)
    requires Splits(raw, significant, digits, zeros)
    requires Scale(raw) + zeros >= 0 && digits + Scale(raw) + zeros > MAX_SCALED_DIGITS
    ensures Converts(raw, Refused(NumericOverflow))
  {
    var shift := Scale(raw) + zeros;
    DenotesScaled(raw, significant, zeros);
    PowAdd(digits - 1, shift);
    TimesMonotone(Pow10(digits - 1), significant, Pow10(shift));
    PowGrows(19, digits - 1 + shift);
    PowAdd(9, 10);
    SmallPowers();
    assert !InI64(Signed(Negative(raw, 0), significant * Pow10(shift)));
  }

  lemma TimesMonotone(a: nat, b: nat, c: nat)
    requires a <= b
    ensures a * c <= b * c
  {
    assert b * c == a * c + (b - a) * c;
  }

  /** At most nineteen scaled digits: every u64 step is exact. */
  lemma FitsWord(raw: seq<Byte>, significant: nat, digits: nat, zeros: nat)
    requires Splits(raw, significant, digits, zeros)
    requires Scale(raw) + zeros >= 0 && digits + Scale(raw) + zeros <= MAX_SCALED_DIGITS
    ensures significant <= U64_MAX && Pow10(Scale(raw) + zeros) <= U64_MAX
    ensures ScaledBy(significant, Scale(raw) + zeros) <= U64_MAX
    ensures Denotes(raw, Signed(Negative(raw, 0), ScaledBy(significant, Scale(raw) + zeros)))
  {
    var shift := Scale(raw) + zeros;
    DenotesScaled(raw, significant, zeros);
    Nineteen(digits);
    Nineteen(shift);
    PowAdd(digits, shift);
    Nineteen(digits + shift);
    TimesMonotone(significant, Pow10(digits), Pow10(shift));
  }

  /** The scan of a nonzero mantissa splits it. */
  lemma ScanSplits(raw: seq<Byte>, scan: MantissaScan, firstAt: nat, lastAt: nat)
    requires WellFormed(raw) && |raw| <= ISIZE_MAX && scan.firstNonzero.Some?
    requires scan.totalDigits == Digits(raw, Start(raw), End(raw))
    requires Nonzeros(raw, Start(raw), End(raw), scan.firstNonzero, scan.lastNonzero, firstAt, lastAt)
    ensures scan.totalDigits >= scan.lastNonzero + 1 && scan.lastNonzero >= scan.firstNonzero.value
    ensures Splits(raw, Value(raw, Start(raw), lastAt + 1), scan.lastNonzero - scan.firstNonzero.value + 1,
                   scan.totalDigits - scan.lastNonzero - 1)
  {
    ValueBounds(raw, Start(raw), firstAt, lastAt + 1);
  }

  lemma ZeroDenotes(raw: seq<Byte>)
    requires WellFormed(raw) && Mantissa(raw) == 0
    ensures Denotes(raw, 0)
  {
    if Scale(raw) >= 0 { assert Signed(Negative(raw, 0), 0) * Pow10(Scale(raw)) == 0; }
  }

  /** parse_content_number. For every lexeme: the exact value when it is a multiple of
      10^-9 that fits, NumericPrecision exactly when it is not such a multiple,
      NumericOverflow exactly when it is one out of range. */
  method ParseContentNumber(raw: seq<Byte>) returns (r: NumberResult)
    requires |raw| <= ISIZE_MAX
    ensures Converts(raw, r)
  {
    if |raw| == 0 {
      return Refused(InvalidNumber);
    }
    var scan, firstAt, lastAt := ScanMantissa(raw);
    if scan.None? {
      return Refused(InvalidNumber);
    }
    var exponent := Some(Finite(0));
    if scan.value.end < |raw| {
      exponent := ParseExponent(raw, scan.value.end + 1);
    }
    if exponent.None? {
      return Refused(InvalidNumber);
    }
    assert WellFormed(raw) && exponent.value == ExponentOf(Exponent(raw));
    if scan.value.firstNonzero.None? {
      ZeroDenotes(raw);
      return Number(0);
    }
    r := ConvertNonzero(raw, scan.value, exponent.value, firstAt, lastAt);
  }

  /** Lines 129-195. */
  method ConvertNonzero(raw: seq<Byte>, scan: MantissaScan, exponent: ParsedExponent, ghost firstAt: nat, ghost lastAt: nat)
    returns (r: NumberResult)
    requires WellFormed(raw) && |raw| <= ISIZE_MAX && scan.firstNonzero.Some? && scan.end == End(raw)
    requires scan.totalDigits == Digits(raw, Start(raw), End(raw))
    requires scan.fractionalDigits == Fraction(raw, Start(raw), End(raw))
    requires Nonzeros(raw, Start(raw), End(raw), scan.firstNonzero, scan.lastNonzero, firstAt, lastAt)
    requires exponent == ExponentOf(Exponent(raw))
    ensures Converts(raw, r)
  {
    ScanSplits(raw, scan, firstAt, lastAt);
    var trailingZeros := scan.totalDigits - scan.lastNonzero - 1;
    var significantDigits := scan.lastNonzero - scan.firstNonzero.value + 1;
    ghost var significant := Value(raw, Start(raw), lastAt + 1);
    match exponent {
      case PositiveOverflow =>
        TooLarge(raw, significant, significantDigits, trailingZeros);
        return Refused(NumericOverflow);
      case NegativeOverflow =>
        TooPrecise(raw, significant, significantDigits, trailingZeros);
        return Refused(NumericPrecision);
      case Finite(value) =>
        var shift := DecimalShift(value, scan.fractionalDigits, trailingZeros);
        if shift.Fails? {
          if value < 0 {
            TooPrecise(raw, significant, significantDigits, trailingZeros);
          } else {
            TooLarge(raw, significant, significantDigits, trailingZeros);
          }
          return Refused(shift.error);
        }
        if shift.value < 0 {
          TooPrecise(raw, significant, significantDigits, trailingZeros);
          return Refused(NumericPrecision);
        }
        if significantDigits + shift.value > MAX_SCALED_DIGITS {
          TooLarge(raw, significant, significantDigits, trailingZeros);
          return Refused(NumericOverflow);
        }
        FitsWord(raw, significant, significantDigits, trailingZeros);
        r := Scaled(raw, scan, shift.value, firstAt, lastAt);
    }
  }

  /** Lines 174-195: the u64 arithmetic, none of whose checks fails. */
  method Scaled(raw: seq<Byte>, scan: MantissaScan, shift: nat, ghost firstAt: nat, ghost lastAt: nat)
    returns (r: NumberResult)
    requires WellFormed(raw) && scan.firstNonzero.Some? && scan.end == End(raw)
    requires Nonzeros(raw, Start(raw), End(raw), scan.firstNonzero, scan.lastNonzero, firstAt, lastAt)
    requires Value(raw, Start(raw), lastAt + 1) <= U64_MAX && Pow10(shift) <= U64_MAX
    requires ScaledBy(Value(raw, Start(raw), lastAt + 1), shift) <= U64_MAX
    requires Denotes(raw, Signed(Negative(raw, 0), ScaledBy(Value(raw, Start(raw), lastAt + 1), shift)))
    ensures Converts(raw, r)
  {
    var magnitude := Magnitude(raw, scan.end, scan.firstNonzero.value, scan.lastNonzero, firstAt, lastAt);
    var power := CheckedU64(Pow10(shift));
    var scaled := CheckedU64(magnitude.value * power.value);
    r := SignedScaled(scaled.value, raw[0] == MINUS);
  }

  /** from_integer. */
  function FromInteger(value: int): NumberResult
    requires InI64(value)
  {
    if InI64(value * 1_000_000_000) then Number(value * 1_000_000_000) else Refused(NumericOverflow)
  }
}
