/** Decimal lexemes as byte strings and the number they denote: an optional sign, digits
    with at most one decimal point, and an optional exponent. Everything is defined on
    positions of the lexeme; powers of ten keep the arithmetic exact. */
module Decimal {
  import opened Basics

  /** The longest slice the source language can hold. */
  const ISIZE_MAX: nat := 0x7FFF_FFFF_FFFF_FFFF

  const DOT: Byte := 46
  const PLUS: Byte := 43
  const MINUS: Byte := 45

  predicate IsDigit(b: Byte) { 48 <= b <= 57 }

  /** `e` or `E`. */
  predicate IsExponentMark(b: Byte) { b == 101 || b == 69 }

  function Digit(b: Byte): (d: nat)
    requires IsDigit(b)
    ensures d <= 9
  {
    b - 48
  }

  function Pow10(n: nat): (p: nat)
    ensures p >= 1
  {
    if n == 0 then 1 else 10 * Pow10(n - 1)
  }

  function ScaledBy(s: nat, n: nat): nat { s * Pow10(n) }

  lemma {:induction false} PowAdd(a: nat, b: nat)
    ensures Pow10(a + b) == Pow10(a) * Pow10(b)
  {
    if a > 0 {
      PowAdd(a - 1, b);
      assert Pow10(a + b) == 10 * Pow10(a - 1 + b);
      assert 10 * (Pow10(a - 1) * Pow10(b)) == (10 * Pow10(a - 1)) * Pow10(b);
    }
  }

  lemma PowGrows(a: nat, b: nat)
    requires a <= b
    ensures Pow10(a) <= Pow10(b)
  {
    PowAdd(a, b - a);
    MulAtLeast(Pow10(a), Pow10(b - a));
  }

  lemma MulAtLeast(a: nat, b: nat)
    requires b >= 1
    ensures a <= a * b
  {
  }

  // ------------------------------------------------------------------ digits

  /** Number of digits in raw[lo..hi], ignoring other bytes. */
  function Digits(raw: seq<Byte>, lo: nat, hi: nat): (n: nat)
    requires hi <= |raw|
    ensures n <= hi
  {
    if hi <= lo then 0 else Digits(raw, lo, hi - 1) + (if IsDigit(raw[hi - 1]) then 1 else 0)
  }

  /** The integer those digits write. */
  function Value(raw: seq<Byte>, lo: nat, hi: nat): nat
    requires hi <= |raw|
  {
    if hi <= lo then 0
    else if IsDigit(raw[hi - 1]) then 10 * Value(raw, lo, hi - 1) + Digit(raw[hi - 1])
    else Value(raw, lo, hi - 1)
  }

  function Dots(raw: seq<Byte>, lo: nat, hi: nat): nat
    requires hi <= |raw|
  {
    if hi <= lo then 0 else Dots(raw, lo, hi - 1) + (if raw[hi - 1] == DOT then 1 else 0)
  }

  /** Number of digits behind the decimal point. */
  function Fraction(raw: seq<Byte>, lo: nat, hi: nat): (n: nat)
    requires hi <= |raw|
    ensures n <= hi
  {
    if hi <= lo then 0
    else Fraction(raw, lo, hi - 1) + (if IsDigit(raw[hi - 1]) && Dots(raw, lo, hi - 1) > 0 then 1 else 0)
  }

  // ------------------------------------------------------------------ lexemes

  /** Length of the sign that may stand at position i. */
  function SignLen(raw: seq<Byte>, i: nat): (n: nat)
    ensures n <= 1 && (i <= |raw| ==> i + n <= |raw|)
  {
    if i < |raw| && (raw[i] == MINUS || raw[i] == PLUS) then 1 else 0
  }

  predicate Negative(raw: seq<Byte>, i: nat) { i < |raw| && raw[i] == MINUS }

  /** Position of the first exponent mark from i on. */
  function MantissaEnd(raw: seq<Byte>, i: nat): (e: nat)
    requires i <= |raw|
    ensures i <= e <= |raw|
    ensures e < |raw| ==> IsExponentMark(raw[e])
    ensures forall j :: i <= j < e ==> !IsExponentMark(raw[j])
    decreases |raw| - i
  {
    if i == |raw| || IsExponentMark(raw[i]) then i else MantissaEnd(raw, i + 1)
  }

  predicate MantissaOk(raw: seq<Byte>, lo: nat, hi: nat)
    requires hi <= |raw|
  {
    && (forall i :: lo <= i < hi ==> IsDigit(raw[i]) || raw[i] == DOT)
    && Dots(raw, lo, hi) <= 1
    && Digits(raw, lo, hi) >= 1
  }

  /** raw[i..] is an exponent: an optional sign and at least one digit. */
  predicate ExponentOk(raw: seq<Byte>, i: nat)
    requires i <= |raw|
  {
    var lo := i + SignLen(raw, i);
    lo < |raw| && forall j :: lo <= j < |raw| ==> IsDigit(raw[j])
  }

  function Start(raw: seq<Byte>): (s: nat)
    ensures s <= |raw|
  {
    SignLen(raw, 0)
  }

  function End(raw: seq<Byte>): (e: nat)
    ensures Start(raw) <= e <= |raw|
  {
    MantissaEnd(raw, Start(raw))
  }

  predicate WellFormed(raw: seq<Byte>) {
    MantissaOk(raw, Start(raw), End(raw)) && (End(raw) < |raw| ==> ExponentOk(raw, End(raw) + 1))
  }

  function Exponent(raw: seq<Byte>): int {
    if End(raw) == |raw| then 0 else ExponentAt(raw, End(raw) + 1)
  }

  function ExponentAt(raw: seq<Byte>, i: nat): int
    requires i <= |raw|
  {
    Signed(Negative(raw, i), Value(raw, i + SignLen(raw, i), |raw|))
  }

  function Mantissa(raw: seq<Byte>): nat { Value(raw, Start(raw), End(raw)) }

  /** The power of ten that the mantissa is scaled by in units of 10^-9. */
  function Scale(raw: seq<Byte>): int { Exponent(raw) - Fraction(raw, Start(raw), End(raw)) + 9 }

  function Signed(negative: bool, magnitude: nat): int {
    var m: int := magnitude;
    if negative then -m else m
  }

  /** v / 10^9 is exactly the number the lexeme writes. */
  ghost predicate Denotes(raw: seq<Byte>, v: int) {
    && WellFormed(raw)
    && var m := Signed(Negative(raw, 0), Mantissa(raw));
    if Scale(raw) >= 0 then v == m * Pow10(Scale(raw)) else v * Pow10(-Scale(raw)) == m
  }

  /** A lexeme denotes at most one multiple of 10^-9. */
  lemma DenotesOnce(raw: seq<Byte>, v: int, w: int)
    requires Denotes(raw, v) && Denotes(raw, w)
    ensures v == w
  {
    if Scale(raw) < 0 { CancelFactor(v, w, Pow10(-Scale(raw))); }
  }

  lemma CancelFactor(v: int, w: int, p: nat)
    requires p >= 1
    ensures v * p == w * p ==> v == w
  {
    if v < w {
      TimesStrict(v, w, p);
    } else if w < v {
      TimesStrict(w, v, p);
    }
  }

  lemma TimesStrict(v: int, w: int, p: nat)
    requires v < w && p >= 1
    ensures v * p < w * p
  {
    var d := w - v;
    assert (v + d) * p == v * p + d * p;
    MulAtLeast(p, d);
  }

  // ------------------------------------------------------------------ significant digits

  lemma {:induction false} DigitsGrow(raw: seq<Byte>, lo: nat, i: nat, j: nat)
    requires i <= j <= |raw|
    ensures Digits(raw, lo, i) <= Digits(raw, lo, j)
    ensures lo <= i < j && IsDigit(raw[i]) ==> Digits(raw, lo, i) < Digits(raw, lo, j)
    decreases j
  {
    if i < j { DigitsGrow(raw, lo, i, j - 1); }
  }

  /** From its first nonzero digit on, a value has as many decimal digits as are written. */
  lemma {:induction false} ValueBounds(raw: seq<Byte>, lo: nat, first: nat, hi: nat)
    requires lo <= first < hi <= |raw| && IsDigit(raw[first]) && raw[first] != 48
    requires Value(raw, lo, first) == 0
    ensures Digits(raw, lo, hi) > Digits(raw, lo, first)
    ensures Pow10(Digits(raw, lo, hi) - Digits(raw, lo, first) - 1) <= Value(raw, lo, hi)
    ensures Value(raw, lo, hi) < Pow10(Digits(raw, lo, hi) - Digits(raw, lo, first))
    decreases hi
  {
    DigitsGrow(raw, lo, first, hi);
    if first < hi - 1 {
      ValueBounds(raw, lo, first, hi - 1);
    } else {
      assert Pow10(1) == 10 * Pow10(0);
    }
  }

  /** Trailing zeros: digits behind the last nonzero one only scale the value. */
  ghost predicate EndsAt(raw: seq<Byte>, lo: nat, last: nat, hi: nat)
    requires hi <= |raw|
  {
    && lo <= last < hi && IsDigit(raw[last]) && raw[last] != 48
    && Digits(raw, lo, hi) >= Digits(raw, lo, last) + 1
    && Value(raw, lo, hi) == Value(raw, lo, last + 1) * Pow10(Digits(raw, lo, hi) - Digits(raw, lo, last) - 1)
  }

  lemma EndsHere(raw: seq<Byte>, lo: nat, last: nat)
    requires lo <= last < |raw| && IsDigit(raw[last]) && raw[last] != 48
    ensures EndsAt(raw, lo, last, last + 1)
    ensures Value(raw, lo, last + 1) % 10 != 0
  {
    assert Pow10(0) == 1;
    assert Value(raw, lo, last + 1) == 10 * Value(raw, lo, last) + Digit(raw[last]);
  }

  lemma EndsOn(raw: seq<Byte>, lo: nat, last: nat, hi: nat)
    requires hi < |raw| && EndsAt(raw, lo, last, hi) && (IsDigit(raw[hi]) ==> raw[hi] == 48)
    ensures EndsAt(raw, lo, last, hi + 1)
  {
    if IsDigit(raw[hi]) {
      var zeros := Digits(raw, lo, hi) - Digits(raw, lo, last) - 1;
      assert Pow10(zeros + 1) == 10 * Pow10(zeros);
      Regroup(Value(raw, lo, last + 1), Pow10(zeros));
    }
  }

  lemma Regroup(v: nat, p: nat)
    ensures 10 * (v * p) == v * (10 * p)
  {
  }

  /** A lexeme whose digits end at a nonzero digit denotes a multiple of 10^-9 exactly when
      the scale covers the digits that remain, and then this one. */
  lemma DenotesScaled(raw: seq<Byte>, significant: nat, zeros: nat)
    requires WellFormed(raw) && significant % 10 != 0 && Mantissa(raw) == significant * Pow10(zeros)
    ensures Scale(raw) + zeros >= 0 ==>
              Denotes(raw, Signed(Negative(raw, 0), ScaledBy(significant, Scale(raw) + zeros)))
    ensures Scale(raw) + zeros < 0 ==> forall v :: !Denotes(raw, v)
  {
    if Scale(raw) >= 0 {
      ScaledUp(raw, significant, zeros);
    } else if Scale(raw) + zeros >= 0 {
      ScaledDown(raw, significant, zeros);
    } else {
      forall v ensures !Denotes(raw, v) { NotDenoted(raw, significant, zeros, v); }
    }
  }

  lemma ScaledUp(raw: seq<Byte>, significant: nat, zeros: nat)
    requires WellFormed(raw) && Mantissa(raw) == significant * Pow10(zeros) && Scale(raw) >= 0
    ensures Denotes(raw, Signed(Negative(raw, 0), ScaledBy(significant, Scale(raw) + zeros)))
  {
    PowAdd(zeros, Scale(raw));
    Associate(significant, Pow10(zeros), Pow10(Scale(raw)));
    SignedTimes(Negative(raw, 0), Mantissa(raw), Pow10(Scale(raw)));
  }

  lemma ScaledDown(raw: seq<Byte>, significant: nat, zeros: nat)
    requires WellFormed(raw) && Mantissa(raw) == significant * Pow10(zeros) && Scale(raw) < 0 <= Scale(raw) + zeros
    ensures Denotes(raw, Signed(Negative(raw, 0), ScaledBy(significant, Scale(raw) + zeros)))
  {
    var shift, deficit := Scale(raw) + zeros, -Scale(raw);
    PowAdd(shift, deficit);
    Associate(significant, Pow10(shift), Pow10(deficit));
    SignedTimes(Negative(raw, 0), ScaledBy(significant, shift), Pow10(deficit));
  }

  lemma NotDenoted(raw: seq<Byte>, significant: nat, zeros: nat, v: int)
    requires significant % 10 != 0 && WellFormed(raw) && Mantissa(raw) == significant * Pow10(zeros)
    requires Scale(raw) + zeros < 0
    ensures !Denotes(raw, v)
  {
    var deficit := -Scale(raw) - zeros;
    PowAdd(zeros, deficit);
    NotDivisible(significant, Pow10(zeros), Pow10(deficit - 1), v);
    NotDivisible(significant, Pow10(zeros), Pow10(deficit - 1), -v);
    assert Pow10(-Scale(raw)) == Pow10(zeros) * (10 * Pow10(deficit - 1));
    Negate(v, Pow10(-Scale(raw)));
  }

  lemma Negate(a: int, b: int)
    ensures (-a) * b == -(a * b)
  {
  }

  lemma SignedTimes(negative: bool, a: nat, b: nat)
    ensures Signed(negative, a) * b == Signed(negative, a * b)
  {
    Negate(a, b);
  }

  lemma Associate(a: nat, b: nat, c: nat)
    ensures (a * b) * c == a * (b * c)
  {
  }

  /** s·p is not a multiple of p·10q when 10 does not divide s. */
  lemma NotDivisible(s: nat, p: nat, q: nat, v: int)
    requires s % 10 != 0 && p >= 1
    ensures v * (p * (10 * q)) != s * p
  {
    assert v * (p * (10 * q)) == (10 * (v * q)) * p by { Shuffle(v, p, q); }
    CancelFactor(10 * (v * q), s, p);
    TenTimes(v * q);
  }

  lemma TenTimes(x: int)
    ensures (10 * x) % 10 == 0
  {
  }

  lemma Shuffle(v: int, p: int, q: int)
    ensures v * (p * (10 * q)) == (10 * (v * q)) * p
  {
    assert p * (10 * q) == (10 * q) * p;
    assert v * ((10 * q) * p) == (v * (10 * q)) * p;
    assert v * (10 * q) == 10 * (v * q);
  }
}
