/** Lexical classes and the second passes of the content scanner
    (pdf-rs/content/src/scanner.rs, lines 612-634 and 1215-1328): decoding literal strings,
    hexadecimal strings and names that a first pass has accepted. The reference is the
    grammar of sections 7.3.4.2, 7.3.4.3 and 7.3.5 of ISO 32000-1. */
module Lexical {
  import opened Basics

  const BACKSLASH: Byte := 92
  const CR: Byte := 13
  const LF: Byte := 10
  const OPEN_PAREN: Byte := 40
  const CLOSE_PAREN: Byte := 41
  const LESS: Byte := 60
  const GREATER: Byte := 62
  const SLASH: Byte := 47
  const PERCENT: Byte := 37
  const OPEN_BRACKET: Byte := 91
  const CLOSE_BRACKET: Byte := 93
  const OPEN_BRACE: Byte := 123
  const CLOSE_BRACE: Byte := 125
  const HASH: Byte := 35

  predicate IsWhitespace(b: Byte) { b in {0, 9, 10, 12, 13, 32} }

  predicate IsDelimiter(b: Byte) {
    IsWhitespace(b)
    || b in {OPEN_PAREN, CLOSE_PAREN, LESS, GREATER, OPEN_BRACKET, CLOSE_BRACKET, OPEN_BRACE, CLOSE_BRACE, SLASH, PERCENT}
  }

  predicate IsOctal(b: Byte) { 48 <= b <= 55 }

  type Nibble = x: nat | x < 16

  function HexValue(b: Byte): Option<Nibble> {
    if 48 <= b <= 57 then Some(b - 48)
    else if 97 <= b <= 102 then Some(b - 97 + 10)
    else if 65 <= b <= 70 then Some(b - 65 + 10)
    else None
  }

  /** (high << 4) | low. */
  function Join(high: Nibble, low: Nibble): Byte {
    var h: int := high;
    h * 16 + low
  }

  function At(raw: seq<Byte>, i: nat): Option<Byte> { if i < |raw| then Some(raw[i]) else None }

  // ------------------------------------------------------------------ literal strings

  datatype Eol = Cr | Lf | CrLf

  /** One lexical piece of a literal string. A plain piece may be a parenthesis. */
  datatype RawPiece =
    | Plain(b: Byte)
    | LineEnd(eol: Eol)
    | Escaped(b: Byte)
    | OctalEscape(digits: seq<Byte>)
    | Continuation(eol: Eol)

  function SpellEol(eol: Eol): seq<Byte> {
    match eol
    case Cr => [CR]
    case Lf => [LF]
    case CrLf => [CR, LF]
  }

  /** How a piece is written. */
  function Spell(p: RawPiece): (s: seq<Byte>) {
    match p
    case Plain(b) => [b]
    case LineEnd(eol) => SpellEol(eol)
    case Escaped(b) => [BACKSLASH, b]
    case OctalEscape(digits) => [BACKSLASH] + digits
    case Continuation(eol) => [BACKSLASH] + SpellEol(eol)
  }

  /** The pieces of the grammar. */
  predicate IsPiece(p: RawPiece) {
    match p
    case Plain(b) => b != BACKSLASH && b != CR
    case LineEnd(eol) => eol != Lf
    case Escaped(b) => !IsOctal(b) && b != CR && b != LF
    case OctalEscape(digits) => 1 <= |digits| <= 3 && forall i :: 0 <= i < |digits| ==> IsOctal(digits[i])
    case Continuation(_) => true
  }

  type Piece = p: RawPiece | IsPiece(p) witness Plain(0)

  /** The longest reading: a carriage return takes a following line feed, and an octal
      escape takes up to three digits. */
  predicate Longest(p: Piece, next: Option<Byte>) {
    match p
    case LineEnd(Cr) => next != Some(LF)
    case Continuation(Cr) => next != Some(LF)
    case OctalEscape(digits) => |digits| == 3 || next.None? || !IsOctal(next.value)
    case _ => true
  }

  function OctalValue(digits: seq<Byte>, n: nat): nat
    requires n <= |digits| && forall i :: 0 <= i < |digits| ==> IsOctal(digits[i])
  {
    if n == 0 then 0 else 8 * OctalValue(digits, n - 1) + (digits[n - 1] - 48)
  }

  /** The byte behind a backslash that is neither octal nor a line end. */
  function Unescape(b: Byte): Byte {
    if b == 110 then 10 else if b == 114 then 13 else if b == 116 then 9
    else if b == 98 then 8 else if b == 102 then 12 else b
  }

  /** What a piece stands for: high-order overflow of an octal escape is ignored, an
      unescaped line end is one line feed, an escaped one is nothing. */
  function Means(p: Piece): seq<Byte> {
    match p
    case Plain(b) => [b]
    case LineEnd(_) => [LF]
    case Escaped(b) => [Unescape(b)]
    case OctalEscape(digits) => [OctalValue(digits, |digits|) % 256]
    case Continuation(_) => []
  }

  /** The next piece, from four bytes of lookahead. */
  function Lex(a: Option<Byte>, b: Option<Byte>, c: Option<Byte>, d: Option<Byte>): Option<Piece> {
    if a.None? then None
    else if a.value == BACKSLASH then
      if b.None? then None
      else if b.value == CR then Some(Continuation(if c == Some(LF) then CrLf else Cr))
      else if b.value == LF then Some(Continuation(Lf))
      else if IsOctal(b.value) then
        if c.None? || !IsOctal(c.value) then Some(OctalEscape([b.value]))
        else if d.None? || !IsOctal(d.value) then Some(OctalEscape([b.value, c.value]))
        else Some(OctalEscape([b.value, c.value, d.value]))
      else Some(Escaped(b.value))
    else if a.value == CR then Some(LineEnd(if b == Some(LF) then CrLf else Cr))
    else Some(Plain(a.value))
  }

  function LexAt(raw: seq<Byte>, i: nat): Option<Piece> {
    Lex(At(raw, i), At(raw, i + 1), At(raw, i + 2), At(raw, i + 3))
  }

  ghost predicate SpelledAt(raw: seq<Byte>, i: nat, p: Piece) {
    && i + |Spell(p)| <= |raw|
    && (forall k :: 0 <= k < |Spell(p)| ==> raw[i + k] == Spell(p)[k])
    && Longest(p, At(raw, i + |Spell(p)|))
  }

  /** The lookahead decides the grammar: the next piece is the one and only longest piece
      spelled at this position. */
  lemma LexIsGrammar(raw: seq<Byte>, i: nat, p: Piece)
    ensures LexAt(raw, i) == Some(p) <==> SpelledAt(raw, i, p)
  {
    if LexAt(raw, i) == Some(p) { LexSpells(raw, i, p); }
    if SpelledAt(raw, i, p) { SpelledLexes(raw, i, p); }
  }

  lemma LexSpells(raw: seq<Byte>, i: nat, p: Piece)
    requires LexAt(raw, i) == Some(p)
    ensures SpelledAt(raw, i, p)
  {
  }

  lemma SpelledLexes(raw: seq<Byte>, i: nat, p: Piece)
    requires SpelledAt(raw, i, p)
    ensures LexAt(raw, i) == Some(p)
  {
    var s := Spell(p);
    assert raw[i] == s[0];
    match p
    case Plain(b) =>
    case LineEnd(eol) => if eol.CrLf? { assert raw[i + 1] == s[1]; }
    case Escaped(b) => assert raw[i + 1] == s[1];
    case Continuation(eol) =>
      assert raw[i + 1] == s[1];
      if eol.CrLf? { assert raw[i + 2] == s[2]; }
    case OctalEscape(digits) =>
      assert raw[i + 1] == s[1];
      if |digits| == 1 {
        assert digits == [raw[i + 1]];
      } else {
        assert raw[i + 2] == s[2];
        if |digits| == 2 {
          assert digits == [raw[i + 1], raw[i + 2]];
        } else {
          assert raw[i + 3] == s[3];
          assert digits == [raw[i + 1], raw[i + 2], raw[i + 3]];
        }
      }
  }

  function Width(p: Piece): (n: nat)
    ensures n > 0
  {
    match p
    case Plain(_) => 1
    case LineEnd(eol) => if eol.CrLf? then 2 else 1
    case Escaped(_) => 2
    case OctalEscape(digits) => 1 + |digits|
    case Continuation(eol) => if eol.CrLf? then 3 else 2
  }

  /** Position behind the first n pieces. */
  function After(lo: nat, pieces: seq<Piece>, n: nat): (i: nat)
    requires n <= |pieces|
    ensures i >= lo
  {
    if n == 0 then lo else After(lo, pieces, n - 1) + Width(pieces[n - 1])
  }

  /** raw reads as these pieces from position lo on. */
  ghost predicate Reads(raw: seq<Byte>, lo: nat, pieces: seq<Piece>) {
    forall k :: 0 <= k < |pieces| ==> ReadsAt(raw, lo, pieces, k)
  }

  ghost predicate ReadsAt(raw: seq<Byte>, lo: nat, pieces: seq<Piece>, k: nat)
    requires k < |pieces|
  {
    LexAt(raw, After(lo, pieces, k)) == Some(pieces[k])
  }

  /** What the first n pieces stand for. */
  function Meaning(pieces: seq<Piece>, n: nat): seq<Byte>
    requires n <= |pieces|
  {
    if n == 0 then [] else Meaning(pieces, n - 1) + Means(pieces[n - 1])
  }

  function Nesting(p: Piece): int {
    if p == Plain(OPEN_PAREN) then 1 else if p == Plain(CLOSE_PAREN) then -1 else 0
  }

  /** Open parentheses after the first n pieces. */
  function Depth(pieces: seq<Piece>, n: nat): int
    requires n <= |pieces|
  {
    if n == 0 then 0 else Depth(pieces, n - 1) + Nesting(pieces[n - 1])
  }

  /** Unescaped parentheses balance, and no prefix closes more than it opens. */
  ghost predicate Balanced(pieces: seq<Piece>) {
    Depth(pieces, |pieces|) == 0 && forall n :: 0 <= n <= |pieces| ==> Depth(pieces, n) >= 0
  }

  lemma {:induction false} SameAfter(lo: nat, a: seq<Piece>, b: seq<Piece>, n: nat)
    requires n <= |a| && n <= |b| && forall k :: 0 <= k < n ==> a[k] == b[k]
    ensures After(lo, a, n) == After(lo, b, n) && Depth(a, n) == Depth(b, n)
  {
    if n > 0 { SameAfter(lo, a, b, n - 1); }
  }

  lemma {:induction false} SameMeaning(a: seq<Piece>, b: seq<Piece>, n: nat)
    requires n <= |a| && n <= |b| && forall k :: 0 <= k < n ==> a[k] == b[k]
    ensures Meaning(a, n) == Meaning(b, n)
  {
    if n > 0 { SameMeaning(a, b, n - 1); }
  }

  lemma {:induction false} AfterGrows(lo: nat, pieces: seq<Piece>, m: nat, n: nat)
    requires m <= n <= |pieces|
    ensures After(lo, pieces, m) <= After(lo, pieces, n)
    ensures m < n ==> After(lo, pieces, m) < After(lo, pieces, n)
    decreases n
  {
    if m < n { AfterGrows(lo, pieces, m, n - 1); }
  }

  /** An accepted literal: `pieces` is what stands between its parentheses. */
  ghost predicate IsLiteral(raw: seq<Byte>, start: nat, end: nat, pieces: seq<Piece>) {
    && start < |raw| && raw[start] == OPEN_PAREN && start + 1 < end <= |raw| && raw[end - 1] == CLOSE_PAREN
    && Reads(raw, start + 1, pieces) && After(start + 1, pieces, |pieces|) == end - 1
    && Balanced(pieces)
  }

  /** Cutting the string at its closing parenthesis does not change how it reads. */
  lemma ReadsInner(raw: seq<Byte>, start: nat, end: nat, pieces: seq<Piece>, inner: seq<Byte>)
    requires IsLiteral(raw, start, end, pieces) && inner == raw[start + 1..end - 1]
    ensures Reads(inner, 0, pieces) && After(0, pieces, |pieces|) == |inner|
  {
    forall k | 0 <= k < |pieces| ensures ReadsAt(inner, 0, pieces, k) {
      ReadsInnerAt(raw, start, end, pieces, inner, k);
    }
    Shifted(start + 1, pieces, |pieces|);
  }

  lemma ReadsInnerAt(raw: seq<Byte>, start: nat, end: nat, pieces: seq<Piece>, inner: seq<Byte>, k: nat)
    requires IsLiteral(raw, start, end, pieces) && inner == raw[start + 1..end - 1] && k < |pieces|
    ensures ReadsAt(inner, 0, pieces, k)
  {
    assert ReadsAt(raw, start + 1, pieces, k);
    Shifted(start + 1, pieces, k);
    AfterGrows(start + 1, pieces, k + 1, |pieces|);
    CutLex(raw, start + 1, end - 1, After(0, pieces, k), inner, pieces[k]);
  }

  lemma {:induction false} Shifted(lo: nat, pieces: seq<Piece>, n: nat)
    requires n <= |pieces|
    ensures After(lo, pieces, n) == lo + After(0, pieces, n)
  {
    if n > 0 { Shifted(lo, pieces, n - 1); }
  }

  lemma CutLex(raw: seq<Byte>, lo: nat, hi: nat, i: nat, inner: seq<Byte>, p: Piece)
    requires lo <= hi < |raw| && raw[hi] == CLOSE_PAREN && inner == raw[lo..hi]
    requires LexAt(raw, lo + i) == Some(p) && lo + i + Width(p) <= hi
    ensures LexAt(inner, i) == Some(p)
  {
    CutAt(raw, lo, hi, i, inner);
    CutAt(raw, lo, hi, i + 1, inner);
    CutAt(raw, lo, hi, i + 2, inner);
    CutAt(raw, lo, hi, i + 3, inner);
  }

  lemma CutAt(raw: seq<Byte>, lo: nat, hi: nat, i: nat, inner: seq<Byte>)
    requires lo <= hi < |raw| && raw[hi] == CLOSE_PAREN && inner == raw[lo..hi]
    ensures At(inner, i) == if lo + i < hi then At(raw, lo + i) else None
    ensures lo + i == hi ==> At(raw, lo + i) == Some(CLOSE_PAREN)
  {
  }

  /** decode_literal. On the pieces the first pass has read it never looks past the slice,
      and it appends exactly what they stand for. */
  method DecodeLiteral(raw: seq<Byte>, ghost pieces: seq<Piece>) returns (output: seq<Byte>)
    requires Reads(raw, 0, pieces) && After(0, pieces, |pieces|) == |raw|
    ensures output == Meaning(pieces, |pieces|)
  {
    output := [];
    var index := 0;
    ghost var k := 0;
    while index < |raw|
      invariant 0 <= k <= |pieces| && index == After(0, pieces, k) <= |raw|
      invariant output == Meaning(pieces, k)
      decreases |raw| - index
    {
      assert ReadsAt(raw, 0, pieces, k);
      AfterGrows(0, pieces, k + 1, |pieces|);
      index, output := DecodePiece(raw, index, output, pieces[k]);
      k := k + 1;
    }
    AfterGrows(0, pieces, k, |pieces|);
  }

  /** The loop body of decode_literal. */
  method DecodePiece(raw: seq<Byte>, start: nat, before: seq<Byte>, ghost p: Piece) returns (index: nat, output: seq<Byte>)
    requires start < |raw| && LexAt(raw, start) == Some(p)
    ensures index == start + Width(p) && output == before + Means(p)
  {
    index, output := start, before;
    if raw[index] == BACKSLASH {
      index := index + 1;
      var byte := raw[index];
      if byte == CR {
        index := index + 1;
        if At(raw, index) == Some(LF) {
          index := index + 1;
        }
      } else if byte == LF {
        index := index + 1;
      } else if IsOctal(byte) {
        var value: Byte;
        index, value := DecodeOctal(raw, index, p);
        output := output + [value];
      } else {
        output := output + [Unescape(byte)];
        index := index + 1;
      }
    } else if raw[index] == CR {
      output := output + [LF];
      index := index + 1;
      if At(raw, index) == Some(LF) {
        index := index + 1;
      }
    } else {
      output := output + [raw[index]];
      index := index + 1;
    }
  }

  /** Octal digits accumulate in a u8 with wrapping arithmetic. */
  method DecodeOctal(raw: seq<Byte>, start: nat, ghost p: Piece) returns (index: nat, value: Byte)
    requires 0 < start < |raw| && p.OctalEscape? && LexAt(raw, start - 1) == Some(p)
    ensures index == start + |p.digits| && Means(p) == [value]
  {
    OctalDigits(raw, start, p);
    value := raw[start] - 48;
    index := start + 1;
    while index < start + 3 && index < |raw| && IsOctal(raw[index])
      invariant start + 1 <= index <= start + |p.digits|
      invariant value == OctalValue(p.digits, index - start) % 256
      decreases |raw| - index
    {
      WrapOctal(OctalValue(p.digits, index - start), raw[index] - 48);
      value := (value * 8 % 256 + (raw[index] - 48)) % 256;
      index := index + 1;
    }
  }

  lemma OctalDigits(raw: seq<Byte>, start: nat, p: Piece)
    requires 0 < start < |raw| && p.OctalEscape? && LexAt(raw, start - 1) == Some(p)
    ensures start + |p.digits| <= |raw| && forall k :: 0 <= k < |p.digits| ==> raw[start + k] == p.digits[k]
    ensures |p.digits| == 3 || start + |p.digits| == |raw| || !IsOctal(raw[start + |p.digits|])
    ensures OctalValue(p.digits, 1) == raw[start] - 48 < 8
  {
    assert p.digits[0] == raw[start];
    assert OctalValue(p.digits, 0) == 0;
  }

  lemma WrapOctal(v: nat, d: nat)
    ensures ((v % 256) * 8 % 256 + d) % 256 == (8 * v + d) % 256
  {
  }

  function OctalDigit(b: Byte, n: nat): (d: Byte)
    ensures IsOctal(d)
  {
    48 + (if n == 0 then b / 64 else if n == 1 then b / 8 % 8 else b % 8)
  }

  function OctalOf(b: Byte): Piece { OctalEscape([OctalDigit(b, 0), OctalDigit(b, 1), OctalDigit(b, 2)]) }

  /** The octal escape of b is spelled at position i. */
  ghost predicate OctalAt(raw: seq<Byte>, i: nat, b: Byte) {
    && At(raw, i) == Some(BACKSLASH) && At(raw, i + 1) == Some(OctalDigit(b, 0))
    && At(raw, i + 2) == Some(OctalDigit(b, 1)) && At(raw, i + 3) == Some(OctalDigit(b, 2))
  }

  /** raw is, in parentheses, every byte as a three-digit octal escape. */
  ghost predicate OctalText(bytes: seq<Byte>, raw: seq<Byte>) {
    && |raw| == 4 * |bytes| + 2 && raw[0] == OPEN_PAREN && raw[|raw| - 1] == CLOSE_PAREN
    && forall k :: 0 <= k < |bytes| ==> OctalAt(raw, 1 + 4 * k, bytes[k])
  }

  ghost predicate OctalPieces(bytes: seq<Byte>, pieces: seq<Piece>) {
    |pieces| == |bytes| && forall k :: 0 <= k < |bytes| ==> pieces[k] == OctalOf(bytes[k])
  }

  /** Round trip: written as octal escapes, every byte string is an accepted literal that
      decodes to itself. */
  lemma OctalRoundTrip(bytes: seq<Byte>, raw: seq<Byte>, pieces: seq<Piece>)
    requires OctalText(bytes, raw) && OctalPieces(bytes, pieces)
    ensures IsLiteral(raw, 0, |raw|, pieces) && Meaning(pieces, |pieces|) == bytes
  {
    OctalMeaning(bytes, pieces, |bytes|);
    assert bytes[..|bytes|] == bytes;
    forall k | 0 <= k < |pieces| ensures ReadsAt(raw, 1, pieces, k) { OctalReadsAt(bytes, raw, pieces, k); }
    OctalAfter(bytes, pieces, |bytes|);
    OctalBalanced(bytes, pieces);
  }

  lemma {:induction false} OctalMeaning(bytes: seq<Byte>, pieces: seq<Piece>, n: nat)
    requires OctalPieces(bytes, pieces) && n <= |bytes|
    ensures Meaning(pieces, n) == bytes[..n]
  {
    if n > 0 {
      OctalMeaning(bytes, pieces, n - 1);
      OctalMeans(bytes[n - 1]);
      assert bytes[..n] == bytes[..n - 1] + [bytes[n - 1]];
    }
  }

  lemma OctalMeans(b: Byte)
    ensures Means(OctalOf(b)) == [b]
  {
    var digits := OctalOf(b).digits;
    assert OctalValue(digits, 0) == 0;
    assert OctalValue(digits, 1) == b / 64;
    assert OctalValue(digits, 2) == b / 8;
    assert OctalValue(digits, 3) == b;
  }

  lemma {:induction false} OctalAfter(bytes: seq<Byte>, pieces: seq<Piece>, k: nat)
    requires OctalPieces(bytes, pieces) && k <= |bytes|
    ensures After(1, pieces, k) == 1 + 4 * k && Depth(pieces, k) == 0
  {
    if k > 0 {
      OctalAfter(bytes, pieces, k - 1);
      assert pieces[k - 1] == OctalOf(bytes[k - 1]);
    }
  }

  lemma OctalReadsAt(bytes: seq<Byte>, raw: seq<Byte>, pieces: seq<Piece>, k: nat)
    requires OctalText(bytes, raw) && OctalPieces(bytes, pieces) && k < |bytes|
    ensures ReadsAt(raw, 1, pieces, k)
  {
    OctalAfter(bytes, pieces, k);
    assert OctalAt(raw, 1 + 4 * k, bytes[k]);
    OctalLex(bytes[k]);
  }

  lemma OctalLex(b: Byte)
    ensures Lex(Some(BACKSLASH), Some(OctalDigit(b, 0)), Some(OctalDigit(b, 1)), Some(OctalDigit(b, 2))) == Some(OctalOf(b))
  {
  }

  lemma OctalBalanced(bytes: seq<Byte>, pieces: seq<Piece>)
    requires OctalPieces(bytes, pieces)
    ensures Balanced(pieces)
  {
    forall m | 0 <= m <= |pieces| ensures Depth(pieces, m) == 0 { OctalAfter(bytes, pieces, m); }
  }

  // ------------------------------------------------------------------ hexadecimal strings

  /** Hex digits in raw[lo..hi], skipping white space. */
  function Nibbles(raw: seq<Byte>, lo: nat, hi: nat): seq<Nibble>
    requires hi <= |raw|
  {
    if hi <= lo then []
    else if HexValue(raw[hi - 1]).Some? then Nibbles(raw, lo, hi - 1) + [HexValue(raw[hi - 1]).value]
    else Nibbles(raw, lo, hi - 1)
  }

  predicate HexBody(raw: seq<Byte>, lo: nat, hi: nat)
    requires hi <= |raw|
  {
    forall i :: lo <= i < hi ==> IsWhitespace(raw[i]) || HexValue(raw[i]).Some?
  }

  /** Two digits to a byte; an odd last digit is followed by a zero. */
  function Packed(nibbles: seq<Nibble>, n: nat): (bytes: seq<Byte>)
    requires n <= |nibbles|
    ensures |bytes| == (n + 1) / 2
  {
    if n == 0 then []
    else if n % 2 == 1 then Packed(nibbles, n - 1) + [Join(nibbles[n - 1], 0)]
    else Packed(nibbles, n - 2) + [Join(nibbles[n - 2], nibbles[n - 1])]
  }

  /** The bytes a hexadecimal string stands for. */
  function HexMeaning(raw: seq<Byte>, lo: nat, hi: nat): seq<Byte>
    requires hi <= |raw|
  {
    Packed(Nibbles(raw, lo, hi), |Nibbles(raw, lo, hi)|)
  }

  /** decode_hex. */
  method DecodeHex(raw: seq<Byte>) returns (output: seq<Byte>)
    requires HexBody(raw, 0, |raw|)
    ensures output == HexMeaning(raw, 0, |raw|)
  {
    output := [];
    var high: Option<Nibble> := None;
    for i := 0 to |raw|
      invariant Halfway(Nibbles(raw, 0, i), high, output)
    {
      if IsWhitespace(raw[i]) {
        continue;
      }
      var nibble := HexValue(raw[i]).value;
      HalfwayStep(Nibbles(raw, 0, i), high, output, nibble);
      if high.Some? {
        output := output + [Join(high.value, nibble)];
        high := None;
      } else {
        high := Some(nibble);
      }
    }
    if high.Some? {
      output := output + [Join(high.value, 0)];
    }
  }

  /** A pending high nibble is the odd last digit. */
  ghost predicate Halfway(nibbles: seq<Nibble>, high: Option<Nibble>, output: seq<Byte>) {
    if high.None? then |nibbles| % 2 == 0 && output == Packed(nibbles, |nibbles|)
    else |nibbles| % 2 == 1 && high.value == nibbles[|nibbles| - 1] && output == Packed(nibbles, |nibbles| - 1)
  }

  lemma HalfwayStep(nibbles: seq<Nibble>, high: Option<Nibble>, output: seq<Byte>, next: Nibble)
    requires Halfway(nibbles, high, output)
    ensures if high.Some? then Halfway(nibbles + [next], None, output + [Join(high.value, next)])
            else Halfway(nibbles + [next], Some(next), output)
  {
    PackedPrefix(nibbles, nibbles + [next], if high.Some? then |nibbles| - 1 else |nibbles|);
  }

  lemma {:induction false} PackedPrefix(a: seq<Nibble>, b: seq<Nibble>, n: nat)
    requires n <= |a| && n <= |b| && forall i :: 0 <= i < n ==> a[i] == b[i]
    ensures Packed(a, n) == Packed(b, n)
  {
    if n > 0 { PackedPrefix(a, b, if n % 2 == 1 then n - 1 else n - 2); }
  }

  // ------------------------------------------------------------------ names

  /** A name character at position i: a plain byte, or `#` and two hex digits. None when the
      escape is malformed. */
  function NameChar(raw: seq<Byte>, i: nat): (r: Option<(Byte, nat)>)
    requires i < |raw|
    ensures r.Some? ==> r.value.1 > 0 && i + r.value.1 <= |raw|
  {
    if raw[i] != HASH then Some((raw[i], 1))
    else
      var high := if i + 1 < |raw| then HexValue(raw[i + 1]) else None;
      var low := if i + 2 < |raw| then HexValue(raw[i + 2]) else None;
      if high.None? || low.None? then None else Some((Join(high.value, low.value), 3))
  }

  /** The characters of a name from position i up to the delimiter that ends it, with the
      position of that end; None when an escape is malformed. */
  function NameFrom(raw: seq<Byte>, i: nat): (r: Option<(seq<Byte>, nat)>)
    requires i <= |raw|
    ensures r.Some? ==> i <= r.value.1 <= |raw|
    decreases |raw| - i
  {
    if i == |raw| || IsDelimiter(raw[i]) then Some(([], i))
    else
      var c := NameChar(raw, i);
      if c.None? then None
      else
        var rest := NameFrom(raw, i + c.value.1);
        if rest.None? then None else Some(([c.value.0] + rest.value.0, rest.value.1))
  }

  /** The decoding loop of scan_name: the escapes it takes for granted are those the first
      pass has validated. */
  method DecodeName(raw: seq<Byte>, start: nat, end: nat) returns (decoded: seq<Byte>)
    requires start <= end <= |raw| && NameEnds(raw, start, end)
    ensures decoded == NameFrom(raw, start).value.0
  {
    decoded := [];
    var source := start;
    while source < end
      invariant start <= source <= end && NameEnds(raw, source, end)
      invariant NameFrom(raw, start).value.0 == decoded + NameFrom(raw, source).value.0
      decreases end - source
    {
      NameStep(raw, source, end, decoded);
      if raw[source] == HASH {
        var high := HexValue(raw[source + 1]).value;
        var low := HexValue(raw[source + 2]).value;
        decoded := decoded + [Join(high, low)];
        source := source + 3;
      } else {
        decoded := decoded + [raw[source]];
        source := source + 1;
      }
    }
  }

  ghost predicate NameEnds(raw: seq<Byte>, i: nat, end: nat) {
    i <= |raw| && NameFrom(raw, i).Some? && NameFrom(raw, i).value.1 == end
  }

  lemma NameStep(raw: seq<Byte>, i: nat, end: nat, decoded: seq<Byte>)
    requires NameEnds(raw, i, end) && i < end
    ensures i < |raw| && NameChar(raw, i).Some?
    ensures var c := NameChar(raw, i).value;
            && NameEnds(raw, i + c.1, end) && i + c.1 <= end
            && decoded + NameFrom(raw, i).value.0 == (decoded + [c.0]) + NameFrom(raw, i + c.1).value.0
  {
  }
}
