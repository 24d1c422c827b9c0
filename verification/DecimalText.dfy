/** How decimal lexemes are written, byte for byte, and what each of them is worth: an
    optional sign, digits with at most one point, and an optional power of ten. The lexemes of
    this form are exactly the well-formed ones, and the conversions of number.rs, scanner.rs
    and ext_gstate.rs give the number that is written (pdf-rs/content/src/number.rs, lines
    65-236; scanner.rs, lines 1142-1213; ext_gstate.rs, lines 610-658). */
module DecimalText {
  import opened Basics
  import opened Decimal
  import opened ContentNumbers
  import opened NumberLexemes
  import opened Alpha

  type Figure = d: nat | d < 10

  function Ascii(f: Figure): Byte {
    var n: nat := f;
    48 + n
  }

  /** The figures as ASCII digits. */
  function Bytes(figures: seq<Figure>): (b: seq<Byte>)
    ensures |b| == |figures| && forall i :: 0 <= i < |figures| ==> b[i] == Ascii(figures[i])
  {
    seq(|figures|, i requires 0 <= i < |figures| => Ascii(figures[i]))
  }

  /** The number the first n figures write in base ten. */
  function InTens(figures: seq<Figure>, n: nat): nat
    requires n <= |figures|
  {
    if n == 0 then 0 else 10 * InTens(figures, n - 1) + figures[n - 1]
  }

  datatype Sign = NoSign | Plus | Minus

  function SignBytes(sign: Sign): seq<Byte> {
    match sign
    case NoSign => []
    case Plus => [43]
    case Minus => [45]
  }

  datatype Power = Power(upper: bool, sign: Sign, figures: seq<Figure>)

  datatype Layout = Layout(sign: Sign, whole: seq<Figure>, point: bool, fraction: seq<Figure>, power: Option<Power>) {
    predicate Proper() {
      && |whole| + |fraction| >= 1 && (!point ==> fraction == [])
      && (power.Some? ==> |power.value.figures| >= 1)
    }
  }

  function PointBytes(point: bool): seq<Byte> { if point then [46] else [] }

  function PowerBytes(power: Option<Power>): seq<Byte> {
    if power.None? then []
    else [if power.value.upper then 69 else 101] + SignBytes(power.value.sign) + Bytes(power.value.figures)
  }

  /** The lexeme of a layout. */
  function Spelled(l: Layout): seq<Byte> {
    SignBytes(l.sign) + Bytes(l.whole) + PointBytes(l.point) + Bytes(l.fraction) + PowerBytes(l.power)
  }

  function Worth(sign: Sign, n: nat): int { if sign.Minus? then 0 - n else n }

  lemma SignedIsWorth(sign: Sign, n: nat)
    ensures Signed(sign.Minus?, n) == Worth(sign, n)
  {
  }

  function PowerOf(l: Layout): int {
    if l.power.None? then 0 else Worth(l.power.value.sign, InTens(l.power.value.figures, |l.power.value.figures|))
  }

  /** The figures in front of and behind the point, as one integer with the sign. */
  function Unscaled(l: Layout): int { Worth(l.sign, InTens(l.whole + l.fraction, |l.whole| + |l.fraction|)) }

  // ------------------------------------------------------------------ positions

  function At1(l: Layout): nat { |SignBytes(l.sign)| }

  function At2(l: Layout): nat { At1(l) + |l.whole| }

  function At3(l: Layout): nat { At2(l) + |PointBytes(l.point)| }

  function At4(l: Layout): nat { At3(l) + |l.fraction| }

  function At5(l: Layout): nat { At4(l) + |PowerBytes(l.power)| }

  /** `part` stands in raw from position `at` on. */
  ghost predicate Stands(raw: seq<Byte>, at: nat, part: seq<Byte>) {
    at + |part| <= |raw| && forall k :: at <= k < at + |part| ==> raw[k] == part[k - at]
  }

  /** Where each part of the layout stands. */
  ghost predicate Placed(raw: seq<Byte>, l: Layout) {
    && |raw| == At5(l)
    && Stands(raw, 0, SignBytes(l.sign)) && Stands(raw, At1(l), Bytes(l.whole)) && Stands(raw, At2(l), PointBytes(l.point))
    && Stands(raw, At3(l), Bytes(l.fraction)) && Stands(raw, At4(l), PowerBytes(l.power))
  }

  lemma SpelledIsPlaced(raw: seq<Byte>, l: Layout)
    ensures raw == Spelled(l) <==> Placed(raw, l)
  {
    hide Bytes, SignBytes, PointBytes, PowerBytes;
    Joined(raw, SignBytes(l.sign), Bytes(l.whole), PointBytes(l.point), Bytes(l.fraction), PowerBytes(l.power));
  }

  lemma Joined(raw: seq<Byte>, a: seq<Byte>, b: seq<Byte>, c: seq<Byte>, d: seq<Byte>, e: seq<Byte>)
    ensures raw == a + b + c + d + e
            <==> |raw| == |a| + |b| + |c| + |d| + |e|
                 && Stands(raw, 0, a) && Stands(raw, |a|, b) && Stands(raw, |a| + |b|, c)
                 && Stands(raw, |a| + |b| + |c|, d) && Stands(raw, |a| + |b| + |c| + |d|, e)
  {
    Joined2(raw, a + b + c + d, e);
    if |raw| == |a| + |b| + |c| + |d| + |e| {
      var r4, r3, r2 := raw[..|a| + |b| + |c| + |d|], raw[..|a| + |b| + |c|], raw[..|a| + |b|];
      Joined2(r4, a + b + c, d);
      Joined2(r3, a + b, c);
      Joined2(r2, a, b);
    }
  }

  lemma Joined2(raw: seq<Byte>, a: seq<Byte>, b: seq<Byte>)
    ensures raw == a + b <==> |raw| == |a| + |b| && raw[..|a|] == a && Stands(raw, |a|, b)
    ensures |raw| >= |a| ==> (raw[..|a|] == a <==> Stands(raw, 0, a))
  {
    if |raw| == |a| + |b| && raw[..|a|] == a && Stands(raw, |a|, b) {
      forall k | 0 <= k < |raw| ensures raw[k] == (a + b)[k] {
        if k < |a| { assert raw[k] == raw[..|a|][k]; }
      }
    }
  }

  // ------------------------------------------------------------------ runs of figures

  /** Reading n more figures behind the value v. */
  function Continued(v: nat, figures: seq<Figure>, n: nat): nat
    requires n <= |figures|
  {
    if n == 0 then v else 10 * Continued(v, figures, n - 1) + figures[n - 1]
  }

  lemma {:induction false} NumberIsContinued(a: seq<Figure>, b: seq<Figure>, n: nat)
    requires n <= |b|
    ensures InTens(a + b, |a| + n) == Continued(InTens(a, |a|), b, n)
  {
    if n == 0 { NumberPrefix(a + b, a, |a|); } else { NumberIsContinued(a, b, n - 1); }
  }

  lemma {:induction false} NumberPrefix(a: seq<Figure>, b: seq<Figure>, n: nat)
    requires n <= |a| && n <= |b| && forall i :: 0 <= i < n ==> a[i] == b[i]
    ensures InTens(a, n) == InTens(b, n)
  {
    if n > 0 { NumberPrefix(a, b, n - 1); }
  }

  lemma FigureByte(raw: seq<Byte>, from: nat, figures: seq<Figure>, n: nat)
    requires Stands(raw, from, Bytes(figures)) && n < |figures|
    ensures IsDigit(raw[from + n]) && raw[from + n] != DOT && !IsExponentMark(raw[from + n])
    ensures Digit(raw[from + n]) == figures[n] && raw[from + n] != MINUS && raw[from + n] != PLUS
  {
    assert raw[from + n] == Bytes(figures)[from + n - from];
  }

  lemma {:induction false} FigureRun(raw: seq<Byte>, lo: nat, from: nat, figures: seq<Figure>, n: nat)
    requires lo <= from && Stands(raw, from, Bytes(figures)) && n <= |figures|
    ensures Value(raw, lo, from + n) == Continued(Value(raw, lo, from), figures, n)
    ensures Digits(raw, lo, from + n) == Digits(raw, lo, from) + n && Dots(raw, lo, from + n) == Dots(raw, lo, from)
    ensures Fraction(raw, lo, from + n) == Fraction(raw, lo, from) + (if Dots(raw, lo, from) > 0 then n else 0)
  {
    if n > 0 {
      FigureRun(raw, lo, from, figures, n - 1);
      FigureByte(raw, from, figures, n - 1);
    }
  }

  lemma {:induction false} ContinuedFromZero(figures: seq<Figure>, n: nat)
    requires n <= |figures|
    ensures Continued(0, figures, n) == InTens(figures, n)
  {
    if n > 0 { ContinuedFromZero(figures, n - 1); }
  }

  // ------------------------------------------------------------------ what a placed layout reads as

  lemma StartIs(raw: seq<Byte>, l: Layout)
    requires l.Proper() && Placed(raw, l)
    ensures Start(raw) == At1(l) && (Negative(raw, 0) <==> l.sign.Minus?)
  {
    if l.sign.NoSign? {
      if |l.whole| > 0 { FigureByte(raw, 0, l.whole, 0); } else { assert raw[At2(l)] == PointBytes(l.point)[0]; }
    } else {
      assert raw[0] == SignBytes(l.sign)[0];
    }
  }

  /** The bytes between the sign and the power. */
  lemma MantissaIs(raw: seq<Byte>, l: Layout)
    requires l.Proper() && Placed(raw, l)
    ensures Value(raw, At1(l), At4(l)) == InTens(l.whole + l.fraction, |l.whole| + |l.fraction|)
    ensures Digits(raw, At1(l), At4(l)) == |l.whole| + |l.fraction| && Fraction(raw, At1(l), At4(l)) == |l.fraction|
    ensures Dots(raw, At1(l), At4(l)) == if l.point then 1 else 0
  {
    hide Value, Digits, Dots, Fraction, Continued, InTens, Bytes, SignBytes, PointBytes, PowerBytes, Stands;
    WholeRead(raw, At1(l), l.whole);
    PointRead(raw, l);
    FigureRun(raw, At1(l), At3(l), l.fraction, |l.fraction|);
    NumberIsContinued(l.whole, l.fraction, |l.fraction|);
    hide Placed;
  }

  lemma WholeRead(raw: seq<Byte>, lo: nat, whole: seq<Figure>)
    requires Stands(raw, lo, Bytes(whole))
    ensures Value(raw, lo, lo + |whole|) == InTens(whole, |whole|) && Digits(raw, lo, lo + |whole|) == |whole|
    ensures Fraction(raw, lo, lo + |whole|) == Dots(raw, lo, lo + |whole|) == 0
  {
    NothingRead(raw, lo);
    hide Value, Digits, Dots, Fraction, Continued, InTens, Bytes;
    FigureRun(raw, lo, lo, whole, |whole|);
    ContinuedFromZero(whole, |whole|);
  }

  lemma NothingRead(raw: seq<Byte>, lo: nat)
    requires lo <= |raw|
    ensures Value(raw, lo, lo) == Digits(raw, lo, lo) == Dots(raw, lo, lo) == Fraction(raw, lo, lo) == 0
  {
  }

  lemma PointRead(raw: seq<Byte>, l: Layout)
    requires Placed(raw, l)
    ensures Value(raw, At1(l), At3(l)) == Value(raw, At1(l), At2(l)) && Digits(raw, At1(l), At3(l)) == Digits(raw, At1(l), At2(l))
    ensures Fraction(raw, At1(l), At3(l)) == Fraction(raw, At1(l), At2(l))
    ensures Dots(raw, At1(l), At3(l)) == Dots(raw, At1(l), At2(l)) + (if l.point then 1 else 0)
  {
    if l.point { assert raw[At2(l)] == PointBytes(l.point)[0]; }
  }

  lemma MantissaBytes(raw: seq<Byte>, l: Layout, j: nat)
    requires Placed(raw, l) && At1(l) <= j < At4(l)
    ensures (IsDigit(raw[j]) || raw[j] == DOT) && !IsExponentMark(raw[j])
  {
    if j < At2(l) {
      FigureByte(raw, At1(l), l.whole, j - At1(l));
    } else if j < At3(l) {
      assert raw[j] == PointBytes(l.point)[j - At2(l)];
    } else {
      FigureByte(raw, At3(l), l.fraction, j - At3(l));
    }
  }

  lemma EndIsPower(raw: seq<Byte>, l: Layout)
    requires l.Proper() && Placed(raw, l)
    ensures End(raw) == At4(l) && MantissaOk(raw, At1(l), At4(l))
  {
    StartIs(raw, l);
    MantissaIs(raw, l);
    forall j | At1(l) <= j < At4(l) ensures (IsDigit(raw[j]) || raw[j] == DOT) && !IsExponentMark(raw[j]) {
      MantissaBytes(raw, l, j);
    }
    if l.power.Some? { assert raw[At4(l)] == PowerBytes(l.power)[0]; }
    EndIs(raw, At4(l));
  }

  lemma PowerPlaced(raw: seq<Byte>, l: Layout)
    requires Placed(raw, l) && l.power.Some?
    ensures Stands(raw, At4(l) + 1, SignBytes(l.power.value.sign))
    ensures Stands(raw, At4(l) + 1 + |SignBytes(l.power.value.sign)|, Bytes(l.power.value.figures))
    ensures |raw| == At4(l) + 1 + |SignBytes(l.power.value.sign)| + |l.power.value.figures|
  {
    var p, at := l.power.value, At4(l);
    var mark: seq<Byte> := [if p.upper then 69 else 101];
    hide SignBytes, Bytes;
    StandsInTwo(raw, at, mark + SignBytes(p.sign), Bytes(p.figures));
    StandsInTwo(raw, at, mark, SignBytes(p.sign));
  }

  lemma StandsInTwo(raw: seq<Byte>, at: nat, a: seq<Byte>, b: seq<Byte>)
    requires Stands(raw, at, a + b)
    ensures Stands(raw, at, a) && Stands(raw, at + |a|, b)
  {
    forall k | at <= k < at + |a| ensures raw[k] == a[k - at] { assert raw[k] == (a + b)[k - at]; }
    forall k | at + |a| <= k < at + |a| + |b| ensures raw[k] == b[k - (at + |a|)] { assert raw[k] == (a + b)[k - at]; }
  }

  lemma PowerSign(raw: seq<Byte>, at: nat, p: Power)
    requires Stands(raw, at, SignBytes(p.sign)) && Stands(raw, at + |SignBytes(p.sign)|, Bytes(p.figures)) && |p.figures| >= 1
    ensures SignLen(raw, at) == |SignBytes(p.sign)| && (Negative(raw, at) <==> p.sign.Minus?)
  {
    if p.sign.NoSign? { FigureByte(raw, at, p.figures, 0); } else { assert raw[at] == SignBytes(p.sign)[0]; }
  }

  lemma FiguresAreDigits(raw: seq<Byte>, lo: nat, figures: seq<Figure>)
    requires Stands(raw, lo, Bytes(figures)) && |raw| == lo + |figures|
    ensures forall j :: lo <= j < |raw| ==> IsDigit(raw[j])
  {
    hide Bytes;
    forall j | lo <= j < |raw| ensures IsDigit(raw[j]) { FigureByte(raw, lo, figures, j - lo); }
  }

  lemma PowerReads(raw: seq<Byte>, at: nat, p: Power)
    requires Stands(raw, at, SignBytes(p.sign)) && Stands(raw, at + |SignBytes(p.sign)|, Bytes(p.figures))
    requires |raw| == at + |SignBytes(p.sign)| + |p.figures| && |p.figures| >= 1
    ensures ExponentOk(raw, at) && ExponentAt(raw, at) == Worth(p.sign, InTens(p.figures, |p.figures|))
  {
    hide Value, Bytes, SignBytes, SignLen, Negative, InTens, Stands, Worth, Signed;
    var lo := at + |SignBytes(p.sign)|;
    PowerSign(raw, at, p);
    SignedIsWorth(p.sign, InTens(p.figures, |p.figures|));
    WholeRead(raw, lo, p.figures);
    FiguresAreDigits(raw, lo, p.figures);
  }

  lemma PowerIs(raw: seq<Byte>, l: Layout)
    requires l.Proper() && Placed(raw, l) && l.power.Some?
    ensures ExponentOk(raw, At4(l) + 1) && ExponentAt(raw, At4(l) + 1) == PowerOf(l)
  {
    hide Placed, Stands, SignBytes, Bytes, Worth, InTens, ExponentOk, ExponentAt, At4;
    PowerPlaced(raw, l);
    PowerReads(raw, At4(l) + 1, l.power.value);
  }

  /** A layout's lexeme is well-formed, and this is what it reads as. */
  lemma Anatomy(l: Layout)
    requires l.Proper()
    ensures var raw := Spelled(l);
            && WellFormed(raw) && (Negative(raw, 0) <==> l.sign.Minus?)
            && Mantissa(raw) == InTens(l.whole + l.fraction, |l.whole| + |l.fraction|)
            && Fraction(raw, Start(raw), End(raw)) == |l.fraction| && Exponent(raw) == PowerOf(l)
            && (IntegerLexeme(raw) <==> !l.point && l.power.None?)
  {
    hide Spelled, PowerOf;
    var raw := Spelled(l);
    SpelledIsPlaced(raw, l);
    StartIs(raw, l);
    EndIsPower(raw, l);
    MantissaIs(raw, l);
    if l.power.Some? { PowerIs(raw, l); } else { NoPower(l); }
  }

  lemma NoPower(l: Layout)
    requires l.power.None?
    ensures PowerOf(l) == 0 && PowerBytes(l.power) == []
  {
  }

  // ------------------------------------------------------------------ what it is worth

  /** v billionths are the number the layout writes: the figures with their sign, times ten to
      the power less the number of decimals, times 10^9. */
  ghost predicate IsBillionths(l: Layout, v: int) {
    var shift := PowerOf(l) - |l.fraction| + 9;
    if shift >= 0 then v == Unscaled(l) * Pow10(shift) else v * Pow10(-shift) == Unscaled(l)
  }

  /** The meaning the conversions are proved against is the number that is written. */
  lemma DenotesWhatIsWritten(l: Layout, v: int)
    requires l.Proper()
    ensures Denotes(Spelled(l), v) <==> IsBillionths(l, v)
  {
    hide Spelled, Pow10, WellFormed, Unscaled, Mantissa, Negative, PowerOf, Scale, Denotes, IsBillionths, Signed;
    Reading(l);
    var m, shift := Unscaled(l), PowerOf(l) - |l.fraction| + 9;
    DenotesByShift(Spelled(l), m, shift, v);
    BillionthsByShift(l, m, shift, v);
  }

  lemma BillionthsByShift(l: Layout, m: int, shift: int, v: int)
    requires m == Unscaled(l) && shift == PowerOf(l) - |l.fraction| + 9
    ensures IsBillionths(l, v) <==> if shift >= 0 then v == m * Pow10(shift) else v * Pow10(-shift) == m
  {
    hide Pow10, PowerOf, Unscaled;
  }

  lemma DenotesByShift(raw: seq<Byte>, m: int, shift: int, v: int)
    requires WellFormed(raw) && m == Signed(Negative(raw, 0), Mantissa(raw)) && shift == Scale(raw)
    ensures Denotes(raw, v) <==> if shift >= 0 then v == m * Pow10(shift) else v * Pow10(-shift) == m
  {
    hide WellFormed, Pow10, Signed, Negative, Mantissa, Scale;
  }

  lemma Reading(l: Layout)
    requires l.Proper()
    ensures WellFormed(Spelled(l)) && Signed(Negative(Spelled(l), 0), Mantissa(Spelled(l))) == Unscaled(l)
    ensures Scale(Spelled(l)) == PowerOf(l) - |l.fraction| + 9
  {
    hide Spelled, WellFormed, InTens, Mantissa, Fraction, Exponent, Negative, PowerOf, Worth, Signed, SignBytes;
    Anatomy(l);
    SignedIsWorth(l.sign, InTens(l.whole + l.fraction, |l.whole| + |l.fraction|));
  }

  // ------------------------------------------------------------------ every lexeme is one of these

  function FiguresIn(bytes: seq<Byte>): (figures: seq<Figure>)
    requires forall i :: 0 <= i < |bytes| ==> IsDigit(bytes[i])
    ensures Bytes(figures) == bytes
  {
    seq(|bytes|, i requires 0 <= i < |bytes| => Digit(bytes[i]))
  }

  function SignIn(raw: seq<Byte>, at: nat): (sign: Sign)
    ensures at <= |raw| ==> SignBytes(sign) == raw[at..at + SignLen(raw, at)]
  {
    if SignLen(raw, at) == 0 then NoSign else if raw[at] == MINUS then Minus else Plus
  }

  function PowerIn(raw: seq<Byte>, e: nat): Option<Power>
    requires e < |raw| ==> ExponentOk(raw, e + 1)
  {
    if e >= |raw| then None
    else Some(Power(raw[e] == 69, SignIn(raw, e + 1), FiguresIn(raw[e + 1 + SignLen(raw, e + 1)..])))
  }

  lemma PowerFound(raw: seq<Byte>, e: nat)
    requires e <= |raw| && (e < |raw| ==> IsExponentMark(raw[e]) && ExponentOk(raw, e + 1))
    ensures var power := PowerIn(raw, e);
            PowerBytes(power) == raw[e..] && (power.Some? ==> |power.value.figures| >= 1)
  {
    if e < |raw| {
      var from := e + 1 + SignLen(raw, e + 1);
      var sign, figures := SignIn(raw, e + 1), FiguresIn(raw[from..]);
      hide Bytes, SignBytes, SignIn, SignLen, FiguresIn;
      assert raw[e..] == [raw[e]] + raw[e + 1..from] + raw[from..];
    }
  }

  function FindDot(raw: seq<Byte>, lo: nat, hi: nat): (dot: nat)
    requires hi <= |raw| && Dots(raw, lo, hi) == 1
    ensures lo <= dot < hi && raw[dot] == DOT && Dots(raw, lo, dot) == 0
    decreases hi
  {
    if raw[hi - 1] == DOT then hi - 1 else FindDot(raw, lo, hi - 1)
  }

  /** The mantissa splits at its point. */
  lemma Split(raw: seq<Byte>, lo: nat, hi: nat) returns (whole: seq<Figure>, point: bool, fraction: seq<Figure>)
    requires lo <= hi <= |raw| && MantissaOk(raw, lo, hi)
    ensures |whole| + |fraction| >= 1 && (!point ==> fraction == [])
    ensures raw[lo..hi] == Bytes(whole) + PointBytes(point) + Bytes(fraction)
  {
    var dot := if Dots(raw, lo, hi) == 1 then FindDot(raw, lo, hi) else hi;
    AllButDot(raw, lo, hi, dot);
    DigitsAreMany(raw, lo, hi);
    hide Digits, Dots, MantissaOk, Bytes;
    whole, point := FiguresIn(raw[lo..dot]), dot < hi;
    if point {
      fraction := FiguresIn(raw[dot + 1..hi]);
      assert raw[lo..hi] == raw[lo..dot] + [DOT] + raw[dot + 1..hi];
    } else {
      fraction := [];
    }
  }

  lemma AllButDot(raw: seq<Byte>, lo: nat, hi: nat, dot: nat)
    requires lo <= hi <= |raw| && MantissaOk(raw, lo, hi) && Dots(raw, lo, hi) <= 1
    requires (dot == hi && Dots(raw, lo, hi) == 0) || (lo <= dot < hi && raw[dot] == DOT && Dots(raw, lo, dot) == 0)
    ensures forall j :: lo <= j < hi && j != dot ==> IsDigit(raw[j])
  {
    forall j | lo <= j < hi && j != dot ensures IsDigit(raw[j]) {
      if raw[j] == DOT { SecondDot(raw, lo, hi, dot, j); }
    }
  }

  lemma SecondDot(raw: seq<Byte>, lo: nat, hi: nat, dot: nat, j: nat)
    requires lo <= j < hi <= |raw| && raw[j] == DOT && j != dot && Dots(raw, lo, hi) <= 1
    requires (dot == hi && Dots(raw, lo, hi) == 0) || (lo <= dot < hi && raw[dot] == DOT && Dots(raw, lo, dot) == 0)
    ensures false
  {
    DotsGrow(raw, lo, j + 1, hi);
    if dot < hi {
      if j < dot { DotsGrow(raw, lo, j + 1, dot); } else { DotsGrow(raw, lo, dot + 1, j); }
    }
  }

  lemma {:induction false} DigitsAreMany(raw: seq<Byte>, lo: nat, hi: nat)
    requires lo <= hi <= |raw|
    ensures Digits(raw, lo, hi) + Dots(raw, lo, hi) <= hi - lo
    decreases hi
  {
    if lo < hi { DigitsAreMany(raw, lo, hi - 1); }
  }

  lemma Rewritten(raw: seq<Byte>) returns (l: Layout)
    requires WellFormed(raw)
    ensures l.Proper() && raw == Spelled(l)
  {
    var s, e := Start(raw), End(raw);
    var sign, power := SignIn(raw, 0), PowerIn(raw, e);
    PowerFound(raw, e);
    var whole, point, fraction := Split(raw, s, e);
    l := Layout(sign, whole, point, fraction, power);
    hide SignIn, PowerIn, WellFormed, Bytes, SignBytes, PointBytes, PowerBytes, SignLen, Start, End;
    Regrouped(raw, s, e, Bytes(whole), PointBytes(point), Bytes(fraction));
  }

  lemma Regrouped(raw: seq<Byte>, s: nat, e: nat, a: seq<Byte>, b: seq<Byte>, c: seq<Byte>)
    requires s <= e <= |raw| && raw[s..e] == a + b + c
    ensures raw == raw[..s] + a + b + c + raw[e..]
  {
    assert raw == raw[..s] + raw[s..e] + raw[e..];
    assert raw[..s] + (a + b + c) == raw[..s] + a + b + c;
  }

  /** The well-formed lexemes are the ones that are written this way, and no others. */
  lemma WellFormedIsWritten(raw: seq<Byte>)
    ensures WellFormed(raw) <==> exists l: Layout :: l.Proper() && raw == Spelled(l)
  {
    hide WellFormed, Spelled;
    if WellFormed(raw) { var l := Rewritten(raw); }
    forall l: Layout | l.Proper() && raw == Spelled(l) ensures WellFormed(raw) { Anatomy(l); }
  }

  // ------------------------------------------------------------------ writing numbers

  /** A number in base ten, without leading zeros. */
  function Figures(n: nat): (figures: seq<Figure>)
    ensures |figures| >= 1
  {
    if n < 10 then [n] else Figures(n / 10) + [n % 10]
  }

  /** The last `width` figures of a number. */
  function Decimals(n: nat, width: nat): (figures: seq<Figure>)
    ensures |figures| == width
  {
    if width == 0 then [] else Decimals(n / 10, width - 1) + [n % 10]
  }

  lemma {:induction false} FiguresWrite(n: nat)
    ensures InTens(Figures(n), |Figures(n)|) == n
  {
    var figures := Figures(n);
    if n < 10 {
      assert InTens(figures, 0) == 0;
    } else {
      FiguresWrite(n / 10);
      NumberPrefix(figures, Figures(n / 10), |figures| - 1);
    }
  }

  /** The number without its last `width` figures. */
  function Above(n: nat, width: nat): nat { if width == 0 then n else Above(n / 10, width - 1) }

  /** Figures with `width` decimals behind them. */
  lemma {:induction false} DecimalsWrite(n: nat, width: nat)
    ensures var high := Figures(Above(n, width));
            InTens(high + Decimals(n, width), |high| + width) == n
  {
    var high := Figures(Above(n, width));
    var figures := high + Decimals(n, width);
    if width == 0 {
      FiguresWrite(n);
      assert figures == high;
    } else {
      DecimalsWrite(n / 10, width - 1);
      var before := high + Decimals(n / 10, width - 1);
      assert figures == before + [n % 10];
      hide Figures, Decimals, Above;
      NumberPrefix(figures, before, |before|);
    }
  }

  function Size(v: int): nat { if v < 0 then 0 - v else v }

  /** The sign of v, with an optional plus. */
  function SignOf(v: int, plus: bool): Sign { if v < 0 then Minus else if plus then Plus else NoSign }

  /** v as an integer. */
  function IntegerForm(v: int, plus: bool): Layout { Layout(SignOf(v, plus), Figures(Size(v)), false, [], None) }

  /** v / 10^9 with nine decimals. */
  function FixedForm(v: int, plus: bool): Layout {
    Layout(SignOf(v, plus), Figures(Above(Size(v), 9)), true, Decimals(Size(v), 9), None)
  }

  /** v times ten to the power of e. */
  function ScientificForm(v: int, plus: bool, e: int, upper: bool, explicitPlus: bool): Layout {
    Layout(SignOf(v, plus), Figures(Size(v)), false, [], Some(Power(upper, SignOf(e, explicitPlus), Figures(Size(e)))))
  }

  lemma IntegerWorth(v: int, plus: bool)
    ensures Unscaled(IntegerForm(v, plus)) == v && PowerOf(IntegerForm(v, plus)) == 0
  {
    hide Figures, InTens;
    FiguresWrite(Size(v));
    assert Figures(Size(v)) + [] == Figures(Size(v));
  }

  lemma FixedWorth(v: int, plus: bool)
    ensures Unscaled(FixedForm(v, plus)) == v && PowerOf(FixedForm(v, plus)) == 0
  {
    hide Figures, InTens, Decimals, Above;
    DecimalsWrite(Size(v), 9);
  }

  lemma ScientificWorth(v: int, plus: bool, e: int, upper: bool, explicitPlus: bool)
    ensures var l := ScientificForm(v, plus, e, upper, explicitPlus);
            Unscaled(l) == v && PowerOf(l) == e
  {
    hide Figures, InTens;
    FiguresWrite(Size(v));
    FiguresWrite(Size(e));
    assert Figures(Size(v)) + [] == Figures(Size(v));
  }

  /** The result for a lexeme that is worth v billionths: v when 64 bits hold it. */
  function Fitting(v: int): NumberResult {
    if -9_223_372_036_854_775_808 <= v <= 9_223_372_036_854_775_807 then NumberResult.Number(v)
    else Refused(NumericOverflow)
  }

  lemma FittingConverts(raw: seq<Byte>, v: int, r: NumberResult)
    requires Denotes(raw, v) && Converts(raw, r)
    ensures r == Fitting(v)
  {
    hide Denotes;
    ConvertsOnce(raw, r, Fitting(v));
  }

  /** What number.rs makes of any lexeme that is written properly. */
  lemma WrittenConverts(l: Layout, r: NumberResult)
    requires l.Proper() && Converts(Spelled(l), r)
    ensures forall v :: IsBillionths(l, v) ==> r == Fitting(v)
    ensures (forall v :: !IsBillionths(l, v)) ==> r == Refused(NumericPrecision)
  {
    hide Spelled, WellFormed, InTens, Mantissa, Fraction, Exponent, Negative, PowerOf, IntegerLexeme, IsBillionths, Denotes;
    Anatomy(l);
    forall v ensures Denotes(Spelled(l), v) <==> IsBillionths(l, v) { DenotesWhatIsWritten(l, v); }
    forall v | IsBillionths(l, v) ensures r == Fitting(v) { FittingConverts(Spelled(l), v, r); }
  }

  /** What the scanner makes of it. */
  lemma WrittenScans(l: Layout, r: Option<ParsedNumber>)
    requires l.Proper() && Scans(Spelled(l), r)
    ensures r == if l.point || l.power.Some? then Some(Real)
                 else if InI64(Unscaled(l)) then Some(Integer(Unscaled(l))) else None
  {
    hide Spelled, WellFormed, Unscaled, InTens, Mantissa, Fraction, Exponent, Negative, PowerOf, IntegerLexeme;
    Anatomy(l);
    Reading(l);
  }

  /** Every integer, written in base ten, is read back: as itself by the scanner, and as
      that many times 10^9 by the conversion. */
  lemma IntegersRoundTrip(v: int, plus: bool, converted: NumberResult, scanned: Option<ParsedNumber>)
    requires Converts(Spelled(IntegerForm(v, plus)), converted) && Scans(Spelled(IntegerForm(v, plus)), scanned)
    ensures converted == Fitting(v * 1_000_000_000) && scanned == if InI64(v) then Some(Integer(v)) else None
  {
    hide Spelled, Figures, Converts, Scans, Pow10, PowerOf, Unscaled;
    var l := IntegerForm(v, plus);
    IntegerWorth(v, plus);
    SmallPowers();
    WrittenScans(l, scanned);
    assert IsBillionths(l, v * 1_000_000_000);
    WrittenConverts(l, converted);
  }

  /** Every number of nine decimals is read back to the last of them, and is a real. */
  lemma DecimalsRoundTrip(v: int, plus: bool, converted: NumberResult, scanned: Option<ParsedNumber>)
    requires Converts(Spelled(FixedForm(v, plus)), converted) && Scans(Spelled(FixedForm(v, plus)), scanned)
    ensures converted == Fitting(v) && scanned == Some(Real)
  {
    hide Spelled, Figures, Decimals, Above, Converts, Scans, PowerOf, Unscaled;
    var l := FixedForm(v, plus);
    FixedWorth(v, plus);
    WrittenScans(l, scanned);
    assert IsBillionths(l, v) by { assert Pow10(0) == 1; }
    WrittenConverts(l, converted);
  }

  /** A power of ten behind its mark moves the point by that many places. */
  lemma PowersRoundTrip(v: int, plus: bool, e: int, upper: bool, explicitPlus: bool, converted: NumberResult,
                        scanned: Option<ParsedNumber>)
    requires e >= -9
    requires Converts(Spelled(ScientificForm(v, plus, e, upper, explicitPlus)), converted)
    requires Scans(Spelled(ScientificForm(v, plus, e, upper, explicitPlus)), scanned)
    ensures converted == Fitting(v * Pow10(e + 9)) && scanned == Some(Real)
  {
    hide Spelled, Figures, Converts, Scans, Pow10, PowerOf, Unscaled;
    var l := ScientificForm(v, plus, e, upper, explicitPlus);
    ScientificWorth(v, plus, e, upper, explicitPlus);
    WrittenScans(l, scanned);
    assert IsBillionths(l, v * Pow10(e + 9));
    WrittenConverts(l, converted);
  }

  // ------------------------------------------------------------------ alpha constants

  lemma PlacesAre(l: Layout)
    requires l.Proper()
    ensures WellFormed(Spelled(l)) && SignedMantissa(Spelled(l)) == Unscaled(l) && Places(Spelled(l)) == |l.fraction| - PowerOf(l)
  {
    hide Spelled, WellFormed, Unscaled, Mantissa, Negative, PowerOf, Signed, Exponent, Fraction;
    Reading(l);
  }

  /** The ratio of an alpha constant is the number that is written, too. */
  lemma RatioIsWhatIsWritten(l: Layout, r: Ratio)
    requires l.Proper() && r.denominator > 0
    ensures var shift := PowerOf(l) - |l.fraction|;
            IsValue(Spelled(l), r)
            <==> if shift > 0 then r.numerator == Unscaled(l) * Pow10(shift) * r.denominator
                 else r.numerator * Pow10(-shift) == Unscaled(l) * r.denominator
  {
    hide Spelled, Pow10, WellFormed, Unscaled, PowerOf, SignedMantissa, Places;
    PlacesAre(l);
  }

  /** v / 10^9 with nine decimals is that very ratio, and an alpha constant when it lies
      between zero and one. */
  lemma DecimalsAreRatios(v: int, plus: bool)
    requires Size(v) <= I128_MAX
    ensures RatioOf(RealValue(Spelled(FixedForm(v, plus)))) == Some(Ratio(v, 1_000_000_000))
    ensures 0 <= v <= 1_000_000_000 <==> Unit(Ratio(v, 1_000_000_000))
  {
    hide Spelled, FixedForm, WellFormed, Unscaled, PowerOf, Fraction, Exponent, Mantissa, Negative, Pow10, IntegerLexeme, InTens;
    var l := FixedForm(v, plus);
    FixedIs(v, plus);
    FixedWorth(v, plus);
    PlacesAre(l);
    Anatomy(l);
    SmallPowers();
  }

  lemma FixedIs(v: int, plus: bool)
    ensures var l := FixedForm(v, plus);
            l.Proper() && |l.fraction| == 9 && InTens(l.whole + l.fraction, |l.whole| + |l.fraction|) == Size(v)
  {
    hide Figures, InTens, Decimals, Above;
    DecimalsWrite(Size(v), 9);
  }
}
