/** The scanner's own number grammar (pdf-rs/content/src/scanner.rs, lines 1142-1213) and
    its agreement with the exact conversion of number.rs. */
module NumberLexemes {
  import opened Basics
  import opened Decimal
  import opened ContentNumbers

  datatype ParsedNumber = Integer(value: int) | Real

  ghost predicate IntegerLexeme(raw: seq<Byte>) {
    WellFormed(raw) && End(raw) == |raw| && Dots(raw, Start(raw), |raw|) == 0
  }

  ghost function IntegerValue(raw: seq<Byte>): int { Signed(Negative(raw, 0), Mantissa(raw)) }

  /** What the scanner accepts: every well-formed lexeme, except an integer beyond i64. */
  ghost predicate Scans(raw: seq<Byte>, r: Option<ParsedNumber>) {
    if !WellFormed(raw) then r.None?
    else if !IntegerLexeme(raw) then r == Some(Real)
    else if InI64(IntegerValue(raw)) then r == Some(Integer(IntegerValue(raw)))
    else r.None?
  }

  method SkipDigits(raw: seq<Byte>, from: nat) returns (end: nat)
    requires from <= |raw|
    ensures from <= end <= |raw| && forall j :: from <= j < end ==> IsDigit(raw[j])
    ensures end == |raw| || !IsDigit(raw[end])
  {
    end := from;
    while end < |raw| && IsDigit(raw[end])
      invariant from <= end <= |raw| && forall j :: from <= j < end ==> IsDigit(raw[j])
    {
      end := end + 1;
    }
  }

  /** parse_number. */
  method ParseNumber(raw: seq<Byte>) returns (r: Option<ParsedNumber>)
    ensures Scans(raw, r)
  {
    var start := SignLen(raw, 0);
    var index := SkipDigits(raw, start);
    var integerDigits := index - start;
    OnlyDigits(raw, start, start, index);
    var hasDot, fractionalDigits := false, 0;
    if index < |raw| && raw[index] == DOT {
      hasDot := true;
      index := index + 1;
      var fractionalStart := index;
      index := SkipDigits(raw, index);
      fractionalDigits := index - fractionalStart;
      OnlyDigits(raw, start, fractionalStart, index);
    }
    Stops(raw, index);
    if integerDigits == 0 && fractionalDigits == 0 {
      return None;
    }
    var hasExponent := false;
    if index < |raw| && IsExponentMark(raw[index]) {
      hasExponent := true;
      index := index + 1;
      index := index + SignLen(raw, index);
      var exponentStart := index;
      index := SkipDigits(raw, index);
      if index == exponentStart {
        return None;
      }
    }
    if index != |raw| {
      return None;
    }
    if hasDot || hasExponent {
      return Some(Real);
    }
    r := IntegerOf(raw);
  }

  /** A run of digits: nothing but the digit count changes. */
  lemma {:induction false} OnlyDigits(raw: seq<Byte>, lo: nat, from: nat, end: nat)
    requires lo <= from <= end <= |raw| && forall j :: from <= j < end ==> IsDigit(raw[j])
    ensures Digits(raw, lo, end) == Digits(raw, lo, from) + end - from && Dots(raw, lo, end) == Dots(raw, lo, from)
    decreases end
  {
    if from < end { OnlyDigits(raw, lo, from, end - 1); }
  }

  /** Where the two digit runs stop, the mantissa ends, or the lexeme is malformed. */
  lemma Stops(raw: seq<Byte>, i: nat)
    requires Start(raw) <= i <= |raw|
    requires forall j :: Start(raw) <= j < i ==> IsDigit(raw[j]) || raw[j] == DOT
    requires Dots(raw, Start(raw), i) <= 1
    requires i < |raw| ==> !IsDigit(raw[i]) && (raw[i] == DOT ==> Dots(raw, Start(raw), i) >= 1)
    ensures i == |raw| || IsExponentMark(raw[i]) ==>
              i == End(raw) && (MantissaOk(raw, Start(raw), i) <==> Digits(raw, Start(raw), i) >= 1)
    ensures !(i == |raw| || IsExponentMark(raw[i])) ==> !WellFormed(raw)
  {
    EndIs(raw, i);
    if i < |raw| && !IsExponentMark(raw[i]) { BadByte(raw, i); }
  }

  /** The checked u64 accumulation of lines 1193-1212. */
  method IntegerOf(raw: seq<Byte>) returns (r: Option<ParsedNumber>)
    requires IntegerLexeme(raw)
    ensures r == if InI64(IntegerValue(raw)) then Some(Integer(IntegerValue(raw))) else None
  {
    var start := SignLen(raw, 0);
    AllDigits(raw);
    var magnitude := 0;
    for i := start to |raw|
      invariant magnitude == Value(raw, start, i) <= U64_MAX
    {
      ValueGrows(raw, start, i + 1, |raw|);
      var scaled := CheckedU64(magnitude * 10);
      if scaled.None? {
        return None;
      }
      var sum := CheckedU64(scaled.value + Digit(raw[i]));
      if sum.None? {
        return None;
      }
      magnitude := sum.value;
    }
    if raw[0] == MINUS {
      if magnitude == I64_MAX + 1 {
        return Some(Integer(-I64_MAX - 1));
      }
      return if magnitude <= I64_MAX then Some(Integer(0 - magnitude)) else None;
    }
    return if magnitude <= I64_MAX then Some(Integer(magnitude)) else None;
  }

  lemma AllDigits(raw: seq<Byte>)
    requires IntegerLexeme(raw)
    ensures forall j :: Start(raw) <= j < |raw| ==> IsDigit(raw[j])
    ensures |raw| > 0 && Fraction(raw, Start(raw), |raw|) == 0
  {
    forall j | Start(raw) <= j < |raw| ensures IsDigit(raw[j]) {
      DotsGrow(raw, Start(raw), j + 1, |raw|);
    }
    NoFraction(raw, Start(raw), |raw|);
  }

  lemma {:induction false} NoFraction(raw: seq<Byte>, lo: nat, hi: nat)
    requires hi <= |raw| && Dots(raw, lo, hi) == 0
    ensures Fraction(raw, lo, hi) == 0
    decreases hi
  {
    if lo < hi { NoFraction(raw, lo, hi - 1); }
  }

  /** The two grammars agree on every byte string. What the scanner takes for a real is
      never an invalid number; an integer it accepts converts to the same result either
      way; and what it refuses is malformed for both or an integer no i64 holds. */
  lemma GrammarsAgree(raw: seq<Byte>, scanned: Option<ParsedNumber>, parsed: NumberResult)
    requires Scans(raw, scanned) && Converts(raw, parsed)
    ensures scanned == Some(Real) ==> parsed != Refused(InvalidNumber)
    ensures scanned.Some? && scanned.value.Integer? ==>
              InI64(scanned.value.value) && parsed == FromInteger(scanned.value.value)
    ensures scanned.None? ==>
              parsed == if WellFormed(raw) then Refused(NumericOverflow) else Refused(InvalidNumber)
  {
    if IntegerLexeme(raw) {
      var v := IntegerValue(raw) * 1_000_000_000;
      IntegerDenotes(raw, v);
      ConvertsOnce(raw, parsed, if InI64(v) then Number(v) else Refused(NumericOverflow));
    }
  }

  lemma IntegerDenotes(raw: seq<Byte>, v: int)
    requires IntegerLexeme(raw) && v == IntegerValue(raw) * 1_000_000_000
    ensures Denotes(raw, v)
  {
    AllDigits(raw);
    SmallPowers();
  }
}
