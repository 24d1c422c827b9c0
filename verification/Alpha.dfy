/** Alpha constants: an exact decimal ratio rounded to a 16-bit unit
    (pdf-rs/content/src/ext_gstate.rs, lines 592-671). */
module Alpha {
  import opened Basics
  import opened Decimal
  import opened ContentNumbers

  const I32_MAX: int := 0x7FFF_FFFF
  const UNIT_MAX: nat := 65535

  datatype Ratio = Ratio(numerator: int, denominator: int)

  predicate InI32(x: int) { -I32_MAX - 1 <= x <= I32_MAX }

  /** Decimal places that remain behind the exponent. */
  function Places(raw: seq<Byte>): int { Fraction(raw, Start(raw), End(raw)) - Exponent(raw) }

  ghost function SignedMantissa(raw: seq<Byte>): int { Signed(Negative(raw, 0), Mantissa(raw)) }

  /** The ratio is exactly the number the lexeme writes. */
  ghost predicate IsValue(raw: seq<Byte>, r: Ratio) {
    && WellFormed(raw) && r.denominator > 0
    && if Places(raw) >= 0 then r.numerator * Pow10(Places(raw)) == SignedMantissa(raw) * r.denominator
       else r.numerator == SignedMantissa(raw) * Pow10(-Places(raw)) * r.denominator
  }

  /** The lexemes whose ratio the machine integers hold: nothing else is refused. */
  ghost predicate Representable(raw: seq<Byte>) {
    && WellFormed(raw) && Mantissa(raw) <= I128_MAX
    && Fraction(raw, Start(raw), End(raw)) <= I32_MAX && InI32(Exponent(raw)) && InI32(Places(raw))
    && Pow10(if Places(raw) >= 0 then Places(raw) else -Places(raw)) <= I128_MAX
    && (Places(raw) < 0 ==> Mantissa(raw) * Pow10(-Places(raw)) <= I128_MAX)
  }

  /** pow10. */
  method PowerOfTen(exponent: nat) returns (r: Option<int>)
    ensures r == if Pow10(exponent) <= I128_MAX then Some(Pow10(exponent)) else None
  {
    var value := 1;
    for i := 0 to exponent
      invariant value == Pow10(i) <= I128_MAX
    {
      var next := CheckedI128(value * 10);
      if next.None? {
        PowGrows(i + 1, exponent);
        return None;
      }
      value := next.value;
    }
    return Some(value);
  }

  /** str::parse::<i32> on raw[at..]: an optional sign, at least one digit, no overflow. */
  method ParseI32(raw: seq<Byte>, at: nat) returns (r: Option<int>)
    requires at <= |raw|
    ensures r.Some? <==> ExponentOk(raw, at) && InI32(ExponentAt(raw, at))
    ensures r.Some? ==> r.value == ExponentAt(raw, at)
  {
    var lo := at + SignLen(raw, at);
    if lo == |raw| {
      return None;
    }
    var negative := raw[at] == MINUS;
    var value: int := 0;
    for i := lo to |raw|
      invariant forall j :: lo <= j < i ==> IsDigit(raw[j])
      invariant value == Signed(negative, Value(raw, lo, i)) && InI32(value)
    {
      if !IsDigit(raw[i]) {
        return None;
      }
      var digit: int := Digit(raw[i]);
      ValueGrows(raw, lo, i + 1, |raw|);
      value := if negative then value * 10 - digit else value * 10 + digit;
      if !InI32(value) {
        return None;
      }
    }
    return Some(value);
  }

  /** The mantissa loop of decimal_ratio: the digits as an integer, and how many of them
      stand behind the point. */
  method MantissaDigits(raw: seq<Byte>, end: nat) returns (r: Option<(nat, nat)>)
    requires end == End(raw)
    ensures r.Some? <==> MantissaOk(raw, Start(raw), end) && Mantissa(raw) <= I128_MAX && Fraction(raw, Start(raw), end) <= I32_MAX
    ensures r.Some? ==> r.value == (Mantissa(raw), Fraction(raw, Start(raw), end))
  {
    hide Value, Fraction, Digits, Dots;
    var lo := SignLen(raw, 0);
    NothingYet(raw, lo);
    var digits, fractional, afterDecimal, sawDigit := 0, 0, false, false;
    for i := lo to end
      invariant forall j :: lo <= j < i ==> IsDigit(raw[j]) || raw[j] == DOT
      invariant digits == Value(raw, lo, i) <= I128_MAX && fractional == Fraction(raw, lo, i) <= I32_MAX
      invariant Dots(raw, lo, i) == (if afterDecimal then 1 else 0) && (sawDigit <==> Digits(raw, lo, i) > 0)
    {
      ByteStep(raw, lo, i, end);
      if IsDigit(raw[i]) {
        sawDigit := true;
        var scaled := CheckedI128(digits * 10);
        var sum := if scaled.Some? then CheckedI128(scaled.value + Digit(raw[i])) else None;
        if sum.None? {
          return None;
        }
        digits := sum.value;
        if afterDecimal {
          if fractional == I32_MAX {
            return None;
          }
          fractional := fractional + 1;
        }
      } else if raw[i] == DOT && !afterDecimal {
        afterDecimal := true;
      } else {
        return None;
      }
    }
    if !sawDigit {
      return None;
    }
    return Some((digits, fractional));
  }

  lemma NothingYet(raw: seq<Byte>, lo: nat)
    requires lo <= |raw|
    ensures Value(raw, lo, lo) == Fraction(raw, lo, lo) == Digits(raw, lo, lo) == Dots(raw, lo, lo) == 0
  {
  }

  /** One more byte, and how the totals at the end bound what is read so far. */
  lemma ByteStep(raw: seq<Byte>, lo: nat, i: nat, end: nat)
    requires lo <= i < end <= |raw|
    ensures Digits(raw, lo, i + 1) == Digits(raw, lo, i) + (if IsDigit(raw[i]) then 1 else 0)
    ensures Dots(raw, lo, i + 1) == Dots(raw, lo, i) + (if raw[i] == DOT then 1 else 0) <= Dots(raw, lo, end)
    ensures Value(raw, lo, i + 1) == (if IsDigit(raw[i]) then 10 * Value(raw, lo, i) + Digit(raw[i]) else Value(raw, lo, i))
            <= Value(raw, lo, end)
    ensures Fraction(raw, lo, i + 1)
            == Fraction(raw, lo, i) + (if IsDigit(raw[i]) && Dots(raw, lo, i) > 0 then 1 else 0)
            <= Fraction(raw, lo, end)
  {
    ValueGrows(raw, lo, i + 1, end);
    FractionGrows(raw, lo, i + 1, end);
    DotsGrow(raw, lo, i + 1, end);
  }

  lemma {:induction false} FractionGrows(raw: seq<Byte>, lo: nat, i: nat, j: nat)
    requires i <= j <= |raw|
    ensures Fraction(raw, lo, i) <= Fraction(raw, lo, j)
    decreases j
  {
    if i < j { FractionGrows(raw, lo, i, j - 1); }
  }

  /** decimal_ratio. */
  method DecimalRatio(raw: seq<Byte>) returns (r: Option<Ratio>)
    ensures r.Some? <==> Representable(raw)
    ensures r.Some? ==> IsValue(raw, r.value)
    ensures r.Some? ==> r.value == TheRatio(raw)
  {
    hide Value, Fraction, MantissaOk, ExponentOk, Pow10;
    if |raw| == 0 {
      EmptyMalformed(raw);
      return None;
    }
    var end := MantissaEnd(raw, SignLen(raw, 0));
    var exponent := Some(0);
    if end < |raw| {
      exponent := ParseI32(raw, end + 1);
    }
    if exponent.None? {
      return None;
    }
    var mantissa := MantissaDigits(raw, end);
    if mantissa.None? {
      return None;
    }
    var digits, scale := mantissa.value.0, mantissa.value.1 - exponent.value;
    if !InI32(scale) {
      return None;
    }
    var power := PowerOfTen(if scale >= 0 then scale else -scale);
    if power.None? {
      return None;
    }
    var numerator: int := digits;
    if scale < 0 {
      var product := CheckedI128(digits * power.value);
      if product.None? {
        return None;
      }
      numerator := product.value;
    }
    RatioIsValue(raw);
    r := Some(Ratio(if raw[0] == MINUS then -numerator else numerator, if scale >= 0 then power.value else 1));
  }

  lemma EmptyMalformed(raw: seq<Byte>)
    requires raw == []
    ensures !WellFormed(raw)
  {
  }

  ghost function TheRatio(raw: seq<Byte>): Ratio {
    if Places(raw) >= 0 then Ratio(SignedMantissa(raw), Pow10(Places(raw)))
    else Ratio(Signed(Negative(raw, 0), Mantissa(raw) * Pow10(-Places(raw))), 1)
  }

  lemma RatioIsValue(raw: seq<Byte>)
    requires WellFormed(raw)
    ensures IsValue(raw, TheRatio(raw))
  {
    if Places(raw) < 0 { SignedTimes(Negative(raw, 0), Mantissa(raw), Pow10(-Places(raw))); }
  }

  // ------------------------------------------------------------------ rounding

  /** u is 65535·n/d rounded half up. */
  ghost predicate Rounds(r: Ratio, u: int) {
    (2 * u - 1) * r.denominator <= 2 * UNIT_MAX * r.numerator < (2 * u + 1) * r.denominator
  }

  function Distance(r: Ratio, u: int): int {
    var gap := UNIT_MAX * r.numerator - u * r.denominator;
    if gap < 0 then -gap else gap
  }

  /** That is the integer nearest to 65535·n/d, and the greater one when two are. */
  lemma RoundsToNearest(r: Ratio, u: int)
    requires r.denominator > 0
    ensures Rounds(r, u) <==> forall w: int :: w != u ==> Distance(r, u) < Distance(r, w) + (if w < u then 1 else 0)
  {
    var n, d := UNIT_MAX * r.numerator, r.denominator;
    assert (2 * u - 1) * d == 2 * (u * d) - d && (2 * u + 1) * d == 2 * (u * d) + d;
    if Rounds(r, u) {
      forall w: int | w != u ensures Distance(r, u) < Distance(r, w) + (if w < u then 1 else 0) {
        assert w * d == u * d + (w - u) * d;
        if w > u { AtLeastOnce(w - u, d); } else { AtLeastOnce(u - w, d); assert (w - u) * d == -((u - w) * d); }
      }
    } else {
      assert (u + 1) * d == u * d + d && (u - 1) * d == u * d - d;
      assert Distance(r, u) >= Distance(r, u + 1) || Distance(r, u) >= Distance(r, u - 1) + 1;
    }
  }

  lemma AtLeastOnce(k: int, d: int)
    requires k >= 1 && d > 0
    ensures k * d >= d
  {
    TimesStep(k - 1, d);
    assert k * d == (k - 1) * d + d;
  }

  datatype SyntaxValue = IntegerValue(value: int) | RealValue(raw: seq<Byte>) | OtherValue

  /** The number a value writes, as a ratio; None when it is none or not representable. */
  ghost function RatioOf(v: SyntaxValue): Option<Ratio> {
    match v
    case IntegerValue(value) => Some(Ratio(value, 1))
    case RealValue(raw) => if Representable(raw) then Some(TheRatio(raw)) else None
    case OtherValue => None
  }

  /** Between zero and one, and small enough to be scaled. */
  ghost predicate Unit(r: Ratio) {
    0 <= r.numerator <= r.denominator && r.numerator * UNIT_MAX + r.denominator / 2 <= I128_MAX
  }

  /** parse_unit: it succeeds exactly on representable numbers in [0, 1], and the result is
      65535 times the exact number, rounded half up. */
  method ParseUnit(v: SyntaxValue) returns (r: Option<nat>)
    ensures r.Some? <==> RatioOf(v).Some? && Unit(RatioOf(v).value)
    ensures r.Some? ==> r.value <= UNIT_MAX && Rounds(RatioOf(v).value, r.value)
  {
    var ratio: Option<Ratio> := None;
    match v {
      case IntegerValue(value) =>
        if value == 0 || value == 1 {
          ratio := Some(Ratio(value, 1));
        }
      case RealValue(raw) =>
        ratio := DecimalRatio(raw);
      case OtherValue =>
    }
    if ratio.None? {
      return None;
    }
    var numerator, denominator := ratio.value.numerator, ratio.value.denominator;
    if numerator < 0 || numerator > denominator || denominator <= 0 {
      return None;
    }
    var product := CheckedI128(numerator * UNIT_MAX);
    if product.None? {
      return None;
    }
    var sum := CheckedI128(product.value + denominator / 2);
    if sum.None? {
      return None;
    }
    EvenOrOne(v);
    DivisionRounds(numerator, denominator, sum.value / denominator);
    return Some(sum.value / denominator);
  }

  /** A denominator is a power of ten: one, or even. */
  lemma EvenOrOne(v: SyntaxValue)
    requires RatioOf(v).Some?
    ensures RatioOf(v).value.denominator == 1 || (RatioOf(v).value.denominator > 0 && RatioOf(v).value.denominator % 2 == 0)
  {
    hide Representable, SignedMantissa, Places, Pow10;
    if v.RealValue? && Places(v.raw) >= 0 { PowersAreEven(Places(v.raw)); }
  }

  lemma PowersAreEven(n: nat)
    ensures n == 0 ==> Pow10(n) == 1
    ensures n > 0 ==> Pow10(n) % 2 == 0
  {
    if n > 0 { assert Pow10(n) == 2 * (5 * Pow10(n - 1)); }
  }

  lemma DivisionRounds(n: int, d: int, u: int)
    requires 0 <= n <= d && 0 < d && (d == 1 || d % 2 == 0) && u == (n * UNIT_MAX + d / 2) / d
    ensures 0 <= u <= UNIT_MAX && Rounds(Ratio(n, d), u)
  {
    var x := n * UNIT_MAX + d / 2;
    Quotient(x, d, u);
    if d > 1 { HalfUp(n, d, u, d / 2); }
    if u > UNIT_MAX { TooBig(n, d, u); }
  }

  lemma Quotient(x: int, d: int, u: int)
    requires 0 <= x && 0 < d && u == x / d
    ensures u * d <= x < u * d + d && 0 <= u
  {
  }

  lemma HalfUp(n: int, d: int, u: int, half: int)
    requires d == 2 * half && u * d <= n * UNIT_MAX + half < u * d + d
    ensures Rounds(Ratio(n, d), u)
  {
    assert (2 * u - 1) * d == 2 * (u * d) - d && (2 * u + 1) * d == 2 * (u * d) + d;
  }

  lemma TooBig(n: int, d: int, u: int)
    requires 0 <= n <= d && 0 < d && u > UNIT_MAX
    ensures u * d > n * UNIT_MAX + d / 2
  {
    assert u * d >= (UNIT_MAX + 1) * d by { TimesStep(u - (UNIT_MAX + 1), d); assert u * d == (UNIT_MAX + 1) * d + (u - (UNIT_MAX + 1)) * d; }
    assert (UNIT_MAX + 1) * d == UNIT_MAX * d + d;
    assert n * UNIT_MAX <= d * UNIT_MAX;
  }

  lemma TimesStep(a: int, b: int)
    requires a >= 0 && b >= 0
    ensures a * b >= 0
  {
  }

  /** Conversion is monotone in the exact number, with 0 and 1 at the ends. */
  lemma RoundingMonotone(a: Ratio, u: int, b: Ratio, w: int)
    requires a.denominator > 0 && b.denominator > 0 && Rounds(a, u) && Rounds(b, w)
    requires a.numerator * b.denominator <= b.numerator * a.denominator
    ensures u <= w
    ensures a.numerator == 0 ==> u == 0
    ensures a.numerator == a.denominator ==> u == UNIT_MAX
  {
    var d, e := a.denominator, b.denominator;
    CrossScale(2 * u - 1, d, 2 * UNIT_MAX * a.numerator, e);
    CrossScaleStrict(2 * UNIT_MAX * b.numerator, 2 * w + 1, e, d);
    CrossCompare(a.numerator, d, b.numerator, e);
    Product(2 * u - 1, d, e);
    Product(2 * w + 1, e, d);
    Sign(2 * u - 1 - (2 * w + 1), d * e);
    Sign(d, e);
    Spread(2 * u - 1, 2 * w + 1, d * e);
    if a.numerator == 0 { ZeroRounds(u, d); }
    if a.numerator == d { OneRounds(u, d); }
  }

  lemma Product(x: int, d: int, e: int)
    ensures x * d * e == x * (d * e)
  {
  }

  lemma Spread(x: int, y: int, p: int)
    ensures (x - y) * p == x * p - y * p
  {
  }

  /** A product with a positive factor has the sign of the other. */
  lemma Sign(a: int, b: int)
    ensures b > 0 && a > 0 ==> a * b > 0
    ensures b > 0 && a < 0 ==> a * b < 0
  {
  }

  lemma CrossScale(x: int, d: int, y: int, e: int)
    requires x * d <= y && e > 0
    ensures x * d * e <= y * e
  {
    assert (y - x * d) * e >= 0;
  }

  lemma CrossScaleStrict(y: int, x: int, e: int, d: int)
    requires y < x * e && d > 0
    ensures y * d < x * e * d
  {
    assert (x * e - y) * d > 0;
  }

  lemma CrossCompare(n: int, d: int, m: int, e: int)
    requires n * e <= m * d
    ensures 2 * UNIT_MAX * n * e <= 2 * UNIT_MAX * m * d
  {
    assert 2 * UNIT_MAX * n * e == 2 * UNIT_MAX * (n * e) && 2 * UNIT_MAX * m * d == 2 * UNIT_MAX * (m * d);
  }

  lemma ZeroRounds(u: int, d: int)
    requires d > 0 && (2 * u - 1) * d <= 0 < (2 * u + 1) * d
    ensures u == 0
  {
    Sign(2 * u - 1, d);
    Sign(2 * u + 1, d);
  }

  lemma OneRounds(u: int, d: int)
    requires d > 0 && (2 * u - 1) * d <= 2 * UNIT_MAX * d < (2 * u + 1) * d
    ensures u == UNIT_MAX
  {
    assert (2 * (u - UNIT_MAX) - 1) * d == (2 * u - 1) * d - 2 * UNIT_MAX * d;
    assert (2 * (u - UNIT_MAX) + 1) * d == (2 * u + 1) * d - 2 * UNIT_MAX * d;
    ZeroRounds(u - UNIT_MAX, d);
  }
}
