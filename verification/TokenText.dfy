/** How strings and names are written, byte for byte, and what they stand for: literal
    strings with every escape, hexadecimal strings, and names (pdf-rs/content/src/scanner.rs,
    lines 612-634, 785-1040 and 1215-1328; sections 7.3.4.2, 7.3.4.3 and 7.3.5 of ISO
    32000-1). The tokens of these forms are exactly the accepted ones, and each means what is
    written. */
module TokenText {
  import opened Basics
  import opened Lexical
  import opened ContentTokens
  import opened Scanner

  // ------------------------------------------------------------------ literal strings

  type OctalFigure = d: nat | d < 8

  /** One byte or escape of a literal string, as the standard lists them. */
  datatype RawItem =
    | Itself(b: Byte)
    | Return(feed: bool)
    | Backslashed(b: Byte)
    | Octal(figures: seq<OctalFigure>)
    | Broken(carriage: bool, feed: bool)

  /** A backslash and a carriage return are not written as themselves; digits and line ends
      behind a backslash are escapes of their own. */
  predicate IsItem(item: RawItem) {
    match item
    case Itself(b) => b != 92 && b != 13
    case Return(_) => true
    case Backslashed(b) => !(48 <= b <= 55) && b != 13 && b != 10
    case Octal(figures) => 1 <= |figures| <= 3
    case Broken(carriage, feed) => carriage || feed
  }

  type Item = item: RawItem | IsItem(item) witness Itself(0)

  function OctalByte(f: OctalFigure): Byte {
    var n: nat := f;
    48 + n
  }

  function OctalBytes(figures: seq<OctalFigure>): (b: seq<Byte>)
    ensures |b| == |figures| && forall i :: 0 <= i < |figures| ==> b[i] == OctalByte(figures[i])
  {
    seq(|figures|, i requires 0 <= i < |figures| => OctalByte(figures[i]))
  }

  function Bytes(item: Item): (b: seq<Byte>)
    ensures |b| >= 1
  {
    match item
    case Itself(b) => [b]
    case Return(feed) => if feed then [13, 10] else [13]
    case Backslashed(b) => [92, b]
    case Octal(figures) => [92] + OctalBytes(figures)
    case Broken(carriage, feed) => if !carriage then [92, 10] else if feed then [92, 13, 10] else [92, 13]
  }

  /** The number that octal figures write. */
  function InEights(figures: seq<OctalFigure>): nat
    requires 1 <= |figures| <= 3
  {
    var a: nat := figures[0];
    if |figures| == 1 then a
    else
      var b: nat := figures[1];
      if |figures| == 2 then 8 * a + b else 64 * a + 8 * b + figures[2]
  }

  /** Line feed, carriage return, tab, backspace and form feed have letters; any other byte
      behind a backslash stands for itself. */
  function Letter(b: Byte): Byte {
    match b
    case 110 => 10
    case 114 => 13
    case 116 => 9
    case 98 => 8
    case 102 => 12
    case _ => b
  }

  function Stands(item: Item): seq<Byte> {
    match item
    case Itself(b) => [b]
    case Return(_) => [10]
    case Backslashed(b) => [Letter(b)]
    case Octal(figures) => [InEights(figures) % 256]
    case Broken(_, _) => []
  }

  /** The byte that follows must not belong to the item. */
  predicate Fits(item: Item, next: Byte) {
    match item
    case Return(feed) => !feed ==> next != 10
    case Octal(figures) => |figures| < 3 ==> !(48 <= next <= 55)
    case Broken(carriage, feed) => carriage && !feed ==> next != 10
    case _ => true
  }

  function Written(items: seq<Item>, n: nat): seq<Byte>
    requires n <= |items|
  {
    if n == 0 then [] else Written(items, n - 1) + Bytes(items[n - 1])
  }

  function StandFor(items: seq<Item>, n: nat): seq<Byte>
    requires n <= |items|
  {
    if n == 0 then [] else StandFor(items, n - 1) + Stands(items[n - 1])
  }

  /** Parentheses that are open behind the first n items. */
  function Open(items: seq<Item>, n: nat): int
    requires n <= |items|
  {
    if n == 0 then 0
    else if items[n - 1] == Itself(40) then Open(items, n - 1) + 1
    else if items[n - 1] == Itself(41) then Open(items, n - 1) - 1
    else Open(items, n - 1)
  }

  function Follower(items: seq<Item>, k: nat): Byte
    requires k < |items|
  {
    if k + 1 < |items| then Bytes(items[k + 1])[0] else 41
  }

  /** The items can stand together between parentheses. */
  ghost predicate Proper(items: seq<Item>) {
    && (forall k :: 0 <= k < |items| ==> Fits(items[k], Follower(items, k)))
    && (forall n :: 0 <= n <= |items| ==> Open(items, n) >= 0) && Open(items, |items|) == 0
  }

  function LiteralText(items: seq<Item>): seq<Byte> { [40] + Written(items, |items|) + [41] }

  // ------------------------------------------------------------------ items are pieces

  function PieceOf(item: Item): Piece {
    match item
    case Itself(b) => Plain(b)
    case Return(feed) => LineEnd(if feed then CrLf else Cr)
    case Backslashed(b) => Escaped(b)
    case Octal(figures) => OctalEscape(OctalBytes(figures))
    case Broken(carriage, feed) => Continuation(if !carriage then Lf else if feed then CrLf else Cr)
  }

  function ItemOf(p: Piece): (item: Item) {
    match p
    case Plain(b) => Itself(b)
    case LineEnd(eol) => Return(eol.CrLf?)
    case Escaped(b) => Backslashed(b)
    case OctalEscape(digits) => Octal(seq(|digits|, i requires 0 <= i < |digits| => digits[i] - 48))
    case Continuation(eol) => Broken(!eol.Lf?, !eol.Cr?)
  }

  lemma ItemsArePieces(item: Item, next: Byte)
    ensures var p := PieceOf(item);
            && Spell(p) == Bytes(item) && Width(p) == |Bytes(item)|
            && (Longest(p, Some(next)) <==> Fits(item, next))
            && Nesting(p) == (if item == Itself(40) then 1 else if item == Itself(41) then -1 else 0)
  {
  }

  lemma MeansTheSame(item: Item)
    ensures Means(PieceOf(item)) == Stands(item)
  {
    if item.Octal? {
      var digits := OctalBytes(item.figures);
      assert OctalValue(digits, 0) == 0;
      assert OctalValue(digits, 1) == digits[0] - 48;
      if |digits| >= 2 { assert OctalValue(digits, 2) == 8 * OctalValue(digits, 1) + (digits[1] - 48); }
    }
  }

  lemma PiecesAreItems(p: Piece)
    ensures PieceOf(ItemOf(p)) == p
  {
    if p.OctalEscape? { assert OctalBytes(ItemOf(p).figures) == p.digits; }
  }

  ghost predicate Pieces(items: seq<Item>, pieces: seq<Piece>) {
    |pieces| == |items| && forall k :: 0 <= k < |items| ==> pieces[k] == PieceOf(items[k])
  }

  lemma {:induction false} SameShape(items: seq<Item>, pieces: seq<Piece>, n: nat)
    requires Pieces(items, pieces) && n <= |items|
    ensures After(1, pieces, n) == 1 + |Written(items, n)| && Lexical.Depth(pieces, n) == Open(items, n)
  {
    hide Bytes, PieceOf, Width, Nesting;
    if n > 0 {
      SameShape(items, pieces, n - 1);
      ItemsArePieces(items[n - 1], 0);
    }
  }

  lemma {:induction false} SameSense(items: seq<Item>, pieces: seq<Piece>, n: nat)
    requires Pieces(items, pieces) && n <= |items|
    ensures Meaning(pieces, n) == StandFor(items, n)
  {
    if n > 0 {
      SameSense(items, pieces, n - 1);
      MeansTheSame(items[n - 1]);
      hide Means, Stands, PieceOf;
    }
  }

  lemma {:induction false} WrittenGrows(items: seq<Item>, m: nat, n: nat)
    requires m <= n <= |items|
    ensures Written(items, m) <= Written(items, n)
    decreases n
  {
    hide Bytes;
    if m < n { WrittenGrows(items, m, n - 1); }
  }

  ghost predicate HasAt(raw: seq<Byte>, i: nat, b: seq<Byte>) { i + |b| <= |raw| && raw[i..i + |b|] == b }

  lemma WrittenAt(items: seq<Item>, k: nat)
    requires k < |items|
    ensures HasAt(Written(items, |items|), |Written(items, k)|, Bytes(items[k]))
  {
    hide Bytes;
    WrittenGrows(items, k + 1, |items|);
    InMiddle(Written(items, |items|), Written(items, k), Bytes(items[k]));
  }

  lemma InMiddle(all: seq<Byte>, a: seq<Byte>, b: seq<Byte>)
    requires a + b <= all
    ensures HasAt(all, |a|, b)
  {
    assert all[..|a| + |b|] == a + b;
  }

  lemma Enclosed(raw: seq<Byte>, all: seq<Byte>, i: nat, b: seq<Byte>)
    requires raw == [40] + all + [41] && HasAt(all, i, b)
    ensures HasAt(raw, 1 + i, b)
    ensures i + |b| == |all| ==> raw[1 + i + |b|] == 41
  {
    assert raw[1..1 + |all|] == all;
  }

  /** Where item k stands in the text, and what follows it. */
  lemma ItemAt(items: seq<Item>, raw: seq<Byte>, k: nat)
    requires k < |items| && raw == LiteralText(items)
    ensures var i, b := 1 + |Written(items, k)|, Bytes(items[k]);
            HasAt(raw, i, b) && i + |b| < |raw| && raw[i + |b|] == Follower(items, k)
  {
    hide Written, Bytes;
    var i, b, all := |Written(items, k)|, Bytes(items[k]), Written(items, |items|);
    WrittenAt(items, k);
    Enclosed(raw, all, i, b);
    WrittenStep(items, k);
    if k + 1 < |items| {
      WrittenAt(items, k + 1);
      Enclosed(raw, all, i + |b|, Bytes(items[k + 1]));
      FirstOf(raw, 1 + i + |b|, Bytes(items[k + 1]));
    }
  }

  lemma WrittenStep(items: seq<Item>, k: nat)
    requires k < |items|
    ensures |Written(items, k + 1)| == |Written(items, k)| + |Bytes(items[k])|
  {
  }

  lemma FirstOf(raw: seq<Byte>, i: nat, b: seq<Byte>)
    requires HasAt(raw, i, b) && |b| >= 1
    ensures raw[i] == b[0]
  {
    assert raw[i] == raw[i..i + |b|][0];
  }

  lemma LexesAs(raw: seq<Byte>, i: nat, item: Item, next: Byte)
    requires HasAt(raw, i, Bytes(item)) && i + |Bytes(item)| < |raw| && raw[i + |Bytes(item)|] == next
    ensures LexAt(raw, i) == Some(PieceOf(item)) <==> Fits(item, next)
  {
    ItemsArePieces(item, next);
    LexIsGrammar(raw, i, PieceOf(item));
    hide Bytes, PieceOf, Fits, Longest, Spell, LexAt;
    var b := Bytes(item);
    forall j | 0 <= j < |b| ensures raw[i + j] == b[j] { assert raw[i + j] == raw[i..i + |b|][j]; }
  }

  lemma LexedFrom(raw: seq<Byte>, i: nat, item: Item)
    requires LexAt(raw, i) == Some(PieceOf(item))
    ensures i + |Bytes(item)| <= |raw| && raw[i..i + |Bytes(item)|] == Bytes(item)
  {
    ItemsArePieces(item, 0);
    LexIsGrammar(raw, i, PieceOf(item));
    hide Bytes, PieceOf, Fits, Longest, Spell, LexAt;
  }

  lemma ReadAtItem(items: seq<Item>, pieces: seq<Piece>, raw: seq<Byte>, k: nat)
    requires Pieces(items, pieces) && k < |items| && raw == LiteralText(items)
    ensures ReadsAt(raw, 1, pieces, k) <==> Fits(items[k], Follower(items, k))
  {
    hide Bytes, PieceOf, Fits, LexAt, Written, Follower, LiteralText, Open, Lexical.Depth;
    SameShape(items, pieces, k);
    ItemAt(items, raw, k);
    LexesAs(raw, 1 + |Written(items, k)|, items[k], Follower(items, k));
  }

  /** A text made of items is a literal exactly when the items are proper. */
  lemma TextIsLiteral(items: seq<Item>, pieces: seq<Piece>, raw: seq<Byte>)
    requires Pieces(items, pieces) && raw == LiteralText(items)
    ensures IsLiteral(raw, 0, |raw|, pieces) <==> Proper(items)
  {
    hide Bytes, PieceOf, Fits, Written, After, Follower, ReadsAt, Open, Lexical.Depth;
    SameShape(items, pieces, |items|);
    forall n | 0 <= n <= |items| ensures Lexical.Depth(pieces, n) == Open(items, n) { SameShape(items, pieces, n); }
    forall k | 0 <= k < |items| ensures ReadsAt(raw, 1, pieces, k) <==> Fits(items[k], Follower(items, k)) {
      ReadAtItem(items, pieces, raw, k);
    }
  }

  /** Round trip: proper items are one token, which means what they stand for. */
  lemma LiteralRoundTrip(items: seq<Item>)
    requires Proper(items)
    ensures var raw := LiteralText(items);
            && TokenEnd(raw, 0) == Some(|raw|)
            && LeafMeans([raw], Span(0, 0, |raw|), LiteralString(StandFor(items, |items|)))
  {
    var raw := LiteralText(items);
    var pieces: seq<Piece> := seq(|items|, k requires 0 <= k < |items| => PieceOf(items[k]));
    TextIsLiteral(items, pieces, raw);
    SameSense(items, pieces, |items|);
    LiteralAccepted(raw, 0, |raw|);
    hide Written, StandFor, IsLiteral, Meaning, Proper;
    assert [raw][0] == raw;
  }

  lemma {:induction false} PiecesWritten(raw: seq<Byte>, items: seq<Item>, pieces: seq<Piece>, n: nat)
    requires Pieces(items, pieces) && IsLiteral(raw, 0, |raw|, pieces) && n <= |items|
    ensures 1 + |Written(items, n)| <= |raw| - 1 && raw[1..1 + |Written(items, n)|] == Written(items, n)
  {
    hide Bytes, PieceOf, LexAt, Open, Lexical.Depth, After;
    SameShape(items, pieces, n);
    AfterGrows(1, pieces, n, |pieces|);
    if n > 0 {
      PiecesWritten(raw, items, pieces, n - 1);
      SameShape(items, pieces, n - 1);
      assert ReadsAt(raw, 1, pieces, n - 1);
      var i, b := 1 + |Written(items, n - 1)|, Bytes(items[n - 1]);
      LexedFrom(raw, i, items[n - 1]);
      assert Written(items, n) == Written(items, n - 1) + b;
      hide IsLiteral, Written, Pieces, ReadsAt;
      assert raw[1..i + |b|] == raw[1..i] + raw[i..i + |b|];
    }
  }

  /** The accepted literals are those texts and no others. */
  lemma LiteralsAreWritten(raw: seq<Byte>, decoded: seq<Byte>)
    requires raw != [] && raw[0] == 40
    ensures TokenEnd(raw, 0) == Some(|raw|) && LeafMeans([raw], Span(0, 0, |raw|), LiteralString(decoded))
            <==> exists items: seq<Item> :: Proper(items) && raw == LiteralText(items) && decoded == StandFor(items, |items|)
  {
    assert [raw][0] == raw;
    if TokenEnd(raw, 0) == Some(|raw|) && LeafMeans([raw], Span(0, 0, |raw|), LiteralString(decoded)) {
      var pieces :| IsLiteral(raw, 0, |raw|, pieces) && decoded == Meaning(pieces, |pieces|);
      var items := Itemized(raw, pieces);
      assert Proper(items) && raw == LiteralText(items) && decoded == StandFor(items, |items|);
    }
    forall items: seq<Item> | Proper(items) && raw == LiteralText(items) && decoded == StandFor(items, |items|)
      ensures TokenEnd(raw, 0) == Some(|raw|) && LeafMeans([raw], Span(0, 0, |raw|), LiteralString(decoded))
    {
      LiteralRoundTrip(items);
    }
  }

  lemma ItemsFor(pieces: seq<Piece>) returns (items: seq<Item>)
    ensures Pieces(items, pieces)
  {
    items := seq(|pieces|, k requires 0 <= k < |pieces| => ItemOf(pieces[k]));
    hide PieceOf, ItemOf;
    forall k | 0 <= k < |pieces| ensures pieces[k] == PieceOf(items[k]) { PiecesAreItems(pieces[k]); }
  }

  lemma TextOfPieces(raw: seq<Byte>, items: seq<Item>, pieces: seq<Piece>)
    requires Pieces(items, pieces) && IsLiteral(raw, 0, |raw|, pieces)
    ensures raw == LiteralText(items)
  {
    hide Pieces, Written, Reads, Balanced;
    PiecesWritten(raw, items, pieces, |items|);
    SameShape(items, pieces, |items|);
    SameCount(items, pieces);
    assert raw == [raw[0]] + raw[1..|raw| - 1] + [raw[|raw| - 1]];
  }

  lemma SameCount(items: seq<Item>, pieces: seq<Piece>)
    requires Pieces(items, pieces)
    ensures |items| == |pieces|
  {
  }

  lemma Itemized(raw: seq<Byte>, pieces: seq<Piece>) returns (items: seq<Item>)
    requires IsLiteral(raw, 0, |raw|, pieces)
    ensures Proper(items) && raw == LiteralText(items) && Meaning(pieces, |pieces|) == StandFor(items, |items|)
  {
    hide Pieces, IsLiteral, Proper, LiteralText, Meaning, StandFor;
    items := ItemsFor(pieces);
    SameCount(items, pieces);
    TextOfPieces(raw, items, pieces);
    TextIsLiteral(items, pieces, raw);
    SameSense(items, pieces, |items|);
  }

  /** How a byte string is usually written: letters for the five control characters, a
      backslash in front of parentheses and backslashes, anything else as it is. */
  function Usual(b: Byte): Item {
    match b
    case 10 => Backslashed(110)
    case 13 => Backslashed(114)
    case 9 => Backslashed(116)
    case 8 => Backslashed(98)
    case 12 => Backslashed(102)
    case 40 => Backslashed(40)
    case 41 => Backslashed(41)
    case 92 => Backslashed(92)
    case _ => Itself(b)
  }

  function Usually(bytes: seq<Byte>): (items: seq<Item>)
    ensures |items| == |bytes| && forall k :: 0 <= k < |bytes| ==> items[k] == Usual(bytes[k])
  {
    seq(|bytes|, k requires 0 <= k < |bytes| => Usual(bytes[k]))
  }

  lemma UsualStands(b: Byte, next: Byte)
    ensures Stands(Usual(b)) == [b] && Fits(Usual(b), next) && Usual(b) != Itself(40) && Usual(b) != Itself(41)
  {
  }

  lemma {:induction false} UsuallyStand(bytes: seq<Byte>, n: nat)
    requires n <= |bytes|
    ensures StandFor(Usually(bytes), n) == bytes[..n] && Open(Usually(bytes), n) == 0
  {
    hide Usual, Stands;
    if n > 0 {
      UsuallyStand(bytes, n - 1);
      UsualStands(bytes[n - 1], 0);
      assert bytes[..n] == bytes[..n - 1] + [bytes[n - 1]];
    }
  }

  /** Every byte string, so written, is one accepted literal that decodes to itself. */
  lemma ByteStringsRoundTrip(bytes: seq<Byte>)
    ensures var raw := LiteralText(Usually(bytes));
            TokenEnd(raw, 0) == Some(|raw|) && LeafMeans([raw], Span(0, 0, |raw|), LiteralString(bytes))
  {
    hide Usual, Fits, Follower, Open, StandFor, LiteralText, LeafMeans, TokenEnd;
    var items := Usually(bytes);
    forall n | 0 <= n <= |items| ensures Open(items, n) == 0 { UsuallyStand(bytes, n); }
    forall k | 0 <= k < |items| ensures Fits(items[k], Follower(items, k)) { UsualStands(bytes[k], Follower(items, k)); }
    UsuallyStand(bytes, |bytes|);
    assert bytes[..|bytes|] == bytes;
    LiteralRoundTrip(items);
  }

  // ------------------------------------------------------------------ hexadecimal strings

  /** A figure in either case, or white space. */
  datatype HexMark = Figure(value: Nibble, upper: bool) | Blank(space: Space)

  type Space = b: Byte | b == 0 || b == 9 || b == 10 || b == 12 || b == 13 || b == 32 witness 32

  function HexFigure(value: Nibble, upper: bool): Byte {
    var v: int := value;
    if v < 10 then 48 + v else if upper then 55 + v else 87 + v
  }

  function HexByte(mark: HexMark): Byte { if mark.Blank? then mark.space else HexFigure(mark.value, mark.upper) }

  function HexText(marks: seq<HexMark>): (raw: seq<Byte>)
    ensures |raw| == |marks| + 2 && raw[0] == 60 && raw[|raw| - 1] == 62
    ensures forall k :: 0 <= k < |marks| ==> raw[k + 1] == HexByte(marks[k])
  {
    [60] + seq(|marks|, k requires 0 <= k < |marks| => HexByte(marks[k])) + [62]
  }

  function Figures(marks: seq<HexMark>, n: nat): (values: seq<Nibble>)
    requires n <= |marks|
  {
    if n == 0 then []
    else if marks[n - 1].Figure? then Figures(marks, n - 1) + [marks[n - 1].value]
    else Figures(marks, n - 1)
  }

  /** Two figures to a byte, the first being the more significant; a missing last figure is
      a zero. */
  ghost predicate Paired(values: seq<Nibble>, bytes: seq<Byte>) {
    && |bytes| == (|values| + 1) / 2
    && forall i :: 0 <= i < |bytes| ==> bytes[i] == 16 * Weight(values, 2 * i) + Weight(values, 2 * i + 1)
  }

  function Weight(values: seq<Nibble>, i: nat): nat { if i < |values| then values[i] else 0 }

  lemma HexBytes(mark: HexMark)
    ensures var b := HexByte(mark);
            && (IsWhitespace(b) <==> mark.Blank?) && b != 60 && b != 62
            && HexValue(b) == if mark.Figure? then Some(mark.value) else None
  {
  }

  lemma {:induction false} NibblesAre(marks: seq<HexMark>, raw: seq<Byte>, n: nat)
    requires raw == HexText(marks) && n <= |marks|
    ensures Nibbles(raw, 1, 1 + n) == Figures(marks, n)
  {
    if n > 0 {
      NibblesAre(marks, raw, n - 1);
      HexBytes(marks[n - 1]);
    }
  }

  lemma {:induction false} ClosesAt(marks: seq<HexMark>, raw: seq<Byte>, n: nat)
    requires raw == HexText(marks) && n <= |marks|
    ensures HexClose(raw, 1 + n) == Some(|raw|)
    decreases |marks| - n
  {
    if n < |marks| {
      ClosesAt(marks, raw, n + 1);
      HexBytes(marks[n]);
    }
  }

  lemma {:induction false} PackedIsPaired(values: seq<Nibble>, n: nat)
    requires n <= |values|
    ensures forall i :: 0 <= i < (n + 1) / 2 ==>
              Packed(values, n)[i] == 16 * Weight(values, 2 * i) + (if 2 * i + 1 < n then Weight(values, 2 * i + 1) else 0)
  {
    if n > 0 { PackedIsPaired(values, if n % 2 == 1 then n - 1 else n - 2); }
  }

  lemma PairedOnce(values: seq<Nibble>, bytes: seq<Byte>)
    ensures Paired(values, bytes) <==> bytes == Packed(values, |values|)
  {
    PackedIsPaired(values, |values|);
    var packed := Packed(values, |values|);
    if Paired(values, bytes) { assert bytes == packed; }
  }

  /** Round trip: such a text is one token, which means the bytes its figures pair to. */
  lemma HexRoundTrip(marks: seq<HexMark>, bytes: seq<Byte>)
    ensures var raw := HexText(marks);
            && TokenEnd(raw, 0) == Some(|raw|)
            && (LeafMeans([raw], Span(0, 0, |raw|), HexString(bytes)) <==> Paired(Figures(marks, |marks|), bytes))
  {
    hide HexByte, HexValue, Nibbles, Packed, Figures, Paired, HexClose;
    var raw := HexText(marks);
    ClosesAt(marks, raw, 0);
    NibblesAre(marks, raw, |marks|);
    PairedOnce(Figures(marks, |marks|), bytes);
    if |marks| > 0 { HexBytes(marks[0]); }
    assert [raw][0] == raw;
    hide HexText;
  }

  function MarkOf(b: Byte): HexMark
    requires IsWhitespace(b) || HexValue(b).Some?
  {
    if IsWhitespace(b) then Blank(b) else Figure(HexValue(b).value, b < 97)
  }

  lemma MarksOf(raw: seq<Byte>) returns (marks: seq<HexMark>)
    requires |raw| >= 2 && raw[0] == 60 && raw[|raw| - 1] == 62 && HexBody(raw, 1, |raw| - 1)
    ensures raw == HexText(marks)
  {
    marks := seq(|raw| - 2, k requires 0 <= k < |raw| - 2 => MarkOf(raw[k + 1]));
    forall k | 0 <= k < |marks| ensures HexByte(marks[k]) == raw[k + 1] { MarkWrites(raw[k + 1]); }
  }

  lemma MarkWrites(b: Byte)
    requires IsWhitespace(b) || HexValue(b).Some?
    ensures HexByte(MarkOf(b)) == b
  {
  }

  /** The accepted hexadecimal strings are those texts and no others. */
  lemma HexIsWritten(raw: seq<Byte>)
    requires |raw| >= 2 && raw[0] == 60 && raw[1] != 60
    ensures TokenEnd(raw, 0) == Some(|raw|) <==> exists marks: seq<HexMark> :: raw == HexText(marks)
  {
    hide HexText, HexBody, HexClose, LeafMeans, Paired, Figures;
    if TokenEnd(raw, 0) == Some(|raw|) { var marks := MarksOf(raw); }
    forall marks: seq<HexMark> | raw == HexText(marks) ensures TokenEnd(raw, 0) == Some(|raw|) { HexRoundTrip(marks, []); }
  }

  // ------------------------------------------------------------------ names

  /** A character of a name: a regular one as it is, or any as two figures behind a `#`. */
  datatype RawChar = Regular(b: Byte) | Coded(high: HexMark, low: HexMark)

  predicate Ends(b: Byte) {
    || b == 0 || b == 9 || b == 10 || b == 12 || b == 13 || b == 32
    || b == 40 || b == 41 || b == 60 || b == 62 || b == 91 || b == 93 || b == 123 || b == 125 || b == 47 || b == 37
  }

  predicate IsChar(c: RawChar) {
    match c
    case Regular(b) => !Ends(b) && b != 35
    case Coded(high, low) => high.Figure? && low.Figure?
  }

  type Char = c: RawChar | IsChar(c) witness Regular(65)

  function CharBytes(c: Char): seq<Byte> {
    match c
    case Regular(b) => [b]
    case Coded(high, low) => [35, HexByte(high), HexByte(low)]
  }

  function CharStands(c: Char): Byte {
    match c
    case Regular(b) => b
    case Coded(high, low) =>
      var h: int := high.value;
      16 * h + low.value
  }

  function NameText(chars: seq<Char>): seq<Byte> { if chars == [] then [] else CharBytes(chars[0]) + NameText(chars[1..]) }

  function NameStands(chars: seq<Char>): seq<Byte> { if chars == [] then [] else [CharStands(chars[0])] + NameStands(chars[1..]) }

  lemma DelimitersAre(b: Byte)
    ensures IsDelimiter(b) <==> Ends(b)
  {
  }

  /** A name ends at the end of the input or at one of sixteen bytes. */
  ghost predicate EndsAt(raw: seq<Byte>, e: nat) { e == |raw| || (e < |raw| && Ends(raw[e])) }

  lemma CharReads(raw: seq<Byte>, i: nat, c: Char)
    requires HasAt(raw, i, CharBytes(c))
    ensures i < |raw| && NameChar(raw, i) == Some((CharStands(c), |CharBytes(c)|)) && !IsDelimiter(raw[i])
  {
    var b := CharBytes(c);
    forall j | 0 <= j < |b| ensures raw[i + j] == b[j] { assert raw[i + j] == raw[i..i + |b|][j]; }
    assert raw[i + 0] == b[0];
    DelimitersAre(raw[i]);
    if c.Coded? {
      assert raw[i + 1] == b[1] && raw[i + 2] == b[2];
      HexBytes(c.high);
      HexBytes(c.low);
    }
  }

  lemma HasTwo(raw: seq<Byte>, i: nat, a: seq<Byte>, b: seq<Byte>)
    ensures HasAt(raw, i, a + b) <==> HasAt(raw, i, a) && HasAt(raw, i + |a|, b)
  {
    if HasAt(raw, i, a + b) {
      assert raw[i..i + |a| + |b|][..|a|] == a && raw[i..i + |a| + |b|][|a|..] == b;
    }
    if HasAt(raw, i, a) && HasAt(raw, i + |a|, b) {
      assert raw[i..i + |a| + |b|] == raw[i..i + |a|] + raw[i + |a|..i + |a| + |b|];
    }
  }

  lemma {:induction false} NameReads(raw: seq<Byte>, i: nat, chars: seq<Char>)
    requires HasAt(raw, i, NameText(chars)) && EndsAt(raw, i + |NameText(chars)|)
    ensures NameFrom(raw, i) == Some((NameStands(chars), i + |NameText(chars)|))
    decreases |chars|
  {
    if chars == [] {
      if i < |raw| { DelimitersAre(raw[i]); }
    } else {
      HasTwo(raw, i, CharBytes(chars[0]), NameText(chars[1..]));
      CharReads(raw, i, chars[0]);
      NameReads(raw, i + |CharBytes(chars[0])|, chars[1..]);
      hide CharBytes, NameChar, CharStands;
    }
  }

  lemma CharOf(raw: seq<Byte>, i: nat) returns (c: Char)
    requires i < |raw| && NameChar(raw, i).Some? && !IsDelimiter(raw[i])
    ensures HasAt(raw, i, CharBytes(c)) && NameChar(raw, i) == Some((CharStands(c), |CharBytes(c)|))
  {
    DelimitersAre(raw[i]);
    if raw[i] == 35 {
      c := Coded(MarkOf(raw[i + 1]), MarkOf(raw[i + 2]));
      assert raw[i..i + 3] == CharBytes(c);
    } else {
      c := Regular(raw[i]);
      assert raw[i..i + 1] == CharBytes(c);
    }
  }

  lemma NoCharAt(raw: seq<Byte>, i: nat)
    requires i <= |raw| && (i < |raw| ==> IsDelimiter(raw[i]))
    ensures HasAt(raw, i, NameText([])) && EndsAt(raw, i) && NameFrom(raw, i) == Some((NameStands([]), i)) && NameText([]) == []
  {
    if i < |raw| { DelimitersAre(raw[i]); }
  }

  lemma OneCharMore(raw: seq<Byte>, i: nat, c: Char, rest: seq<Char>)
    requires HasAt(raw, i, CharBytes(c)) && HasAt(raw, i + |CharBytes(c)|, NameText(rest))
    ensures HasAt(raw, i, NameText([c] + rest)) && |NameText([c] + rest)| == |CharBytes(c)| + |NameText(rest)|
    ensures NameStands([c] + rest) == [CharStands(c)] + NameStands(rest)
  {
    hide CharBytes, CharStands;
    assert ([c] + rest)[1..] == rest;
    HasTwo(raw, i, CharBytes(c), NameText(rest));
  }

  lemma {:induction false} CharsOf(raw: seq<Byte>, i: nat) returns (chars: seq<Char>)
    requires i <= |raw| && NameFrom(raw, i).Some?
    ensures HasAt(raw, i, NameText(chars)) && EndsAt(raw, i + |NameText(chars)|)
    ensures NameFrom(raw, i) == Some((NameStands(chars), i + |NameText(chars)|))
    decreases |raw| - i
  {
    hide CharBytes, NameChar, CharStands, NameText, NameStands, HasAt, EndsAt;
    if i == |raw| || IsDelimiter(raw[i]) {
      chars := [];
      NoCharAt(raw, i);
    } else {
      var c := CharOf(raw, i);
      var rest := CharsOf(raw, i + |CharBytes(c)|);
      chars := [c] + rest;
      OneCharMore(raw, i, c, rest);
    }
  }

  /** The accepted names are a slash and such characters, and mean what those stand for. */
  lemma NamesAreWritten(raw: seq<Byte>, start: nat, end: nat, name: seq<Byte>)
    requires start < |raw| && raw[start] == 47
    ensures TokenEnd(raw, start) == Some(end) && LeafMeans([raw], Span(0, start, end), Name(name))
            <==> exists chars: seq<Char> ::
                   && end == start + 1 + |NameText(chars)| && HasAt(raw, start + 1, NameText(chars)) && EndsAt(raw, end)
                   && name == NameStands(chars)
  {
    hide NameFrom, NameText, NameStands, HasAt, EndsAt;
    assert [raw][0] == raw;
    if TokenEnd(raw, start) == Some(end) && LeafMeans([raw], Span(0, start, end), Name(name)) {
      var chars := CharsOf(raw, start + 1);
    }
    forall chars: seq<Char> |
      && end == start + 1 + |NameText(chars)| && HasAt(raw, start + 1, NameText(chars)) && EndsAt(raw, end)
      && name == NameStands(chars)
      ensures TokenEnd(raw, start) == Some(end) && LeafMeans([raw], Span(0, start, end), Name(name))
    {
      NameReads(raw, start + 1, chars);
    }
  }

  // ------------------------------------------------------------------ white space and comments

  /** White space, or a comment up to the byte that ends its line. */
  datatype RawFiller = White(b: Space) | Comment(text: seq<Byte>, feed: bool)

  predicate IsFiller(f: RawFiller) { f.Comment? ==> OneLine(f.text) }

  predicate OneLine(text: seq<Byte>) { forall k :: 0 <= k < |text| ==> text[k] != 13 && text[k] != 10 }

  type Filler = f: RawFiller | IsFiller(f) witness White(32)

  function FillerBytes(f: Filler): (b: seq<Byte>)
    ensures |b| >= 1
  {
    match f
    case White(b) => [b]
    case Comment(text, feed) => [37] + text + [if feed then 10 else 13]
  }

  function FillerText(fillers: seq<Filler>): seq<Byte> {
    if fillers == [] then [] else FillerBytes(fillers[0]) + FillerText(fillers[1..])
  }

  /** Filling goes on to the end of the stream, in a comment that nothing ends. */
  ghost predicate Unfinished(raw: seq<Byte>, i: nat) { i < |raw| && raw[i] == 37 && OneLine(raw[i + 1..]) }

  predicate IsSpace(b: Byte) { b == 0 || b == 9 || b == 10 || b == 12 || b == 13 || b == 32 }

  lemma SpacesAre(b: Byte)
    ensures IsWhitespace(b) <==> IsSpace(b)
  {
  }

  lemma {:induction false} CommentRuns(raw: seq<Byte>, i: nat, text: seq<Byte>)
    requires HasAt(raw, i, text) && OneLine(text)
    ensures i + |text| == |raw| ==> CommentEnd(raw, i) == |raw|
    ensures i + |text| < |raw| && (raw[i + |text|] == 13 || raw[i + |text|] == 10) ==> CommentEnd(raw, i) == i + |text| + 1
    decreases |text|
  {
    if text != [] {
      assert raw[i] == raw[i..i + |text|][0];
      assert raw[i + 1..i + |text|] == raw[i..i + |text|][1..];
      CommentRuns(raw, i + 1, text[1..]);
    }
  }

  lemma FillerSkips(raw: seq<Byte>, i: nat, f: Filler)
    requires HasAt(raw, i, FillerBytes(f))
    ensures TriviaEnd(raw, i) == TriviaEnd(raw, i + |FillerBytes(f)|)
  {
    hide OneLine, CommentEnd;
    FirstOf(raw, i, FillerBytes(f));
    SpacesAre(raw[i]);
    if f.Comment? { CommentSkips(raw, i, f.text, if f.feed then 10 else 13); }
  }

  lemma CommentSkips(raw: seq<Byte>, i: nat, text: seq<Byte>, end: Byte)
    requires HasAt(raw, i, [37] + text + [end]) && OneLine(text) && (end == 10 || end == 13)
    ensures CommentEnd(raw, i + 1) == i + |text| + 2
  {
    hide OneLine, CommentEnd, HasAt;
    var e: seq<Byte> := [end];
    HasTwo(raw, i, [37] + text, e);
    HasTwo(raw, i, [37], text);
    FirstOf(raw, i + 1 + |text|, e);
    EndsThere(raw, i + 1 + |text|, end);
    CommentRuns(raw, i + 1, text);
  }

  lemma EndsThere(raw: seq<Byte>, i: nat, end: Byte)
    requires HasAt(raw, i, [end])
    ensures i < |raw|
  {
  }

  /** Where filling stops: in front of a byte that is neither white space nor a comment, or
      at the end of the stream. */
  ghost predicate Stops(raw: seq<Byte>, i: nat, e: nat) {
    || (i == e < |raw| && !IsSpace(raw[e]) && raw[e] != 37)
    || (e == |raw| && (i == e || Unfinished(raw, i)))
  }

  lemma StopsThere(raw: seq<Byte>, i: nat, e: nat)
    requires i <= |raw| && Stops(raw, i, e)
    ensures TriviaEnd(raw, i) == e
  {
    if i < |raw| { SpacesAre(raw[i]); }
    if Unfinished(raw, i) {
      SpacesAre(37);
      CommentRuns(raw, i + 1, raw[i + 1..]);
    }
  }

  lemma {:induction false} FillersSkip(raw: seq<Byte>, i: nat, fillers: seq<Filler>, e: nat)
    requires HasAt(raw, i, FillerText(fillers)) && Stops(raw, i + |FillerText(fillers)|, e)
    ensures TriviaEnd(raw, i) == e
    decreases |fillers|
  {
    hide FillerBytes, Stops, TriviaEnd;
    if fillers == [] {
      StopsThere(raw, i, e);
    } else {
      HasTwo(raw, i, FillerBytes(fillers[0]), FillerText(fillers[1..]));
      FillerSkips(raw, i, fillers[0]);
      FillersSkip(raw, i + |FillerBytes(fillers[0])|, fillers[1..], e);
    }
  }

  /** No line ends in raw[lo..hi]. */
  ghost predicate NoLineEnd(raw: seq<Byte>, lo: nat, hi: nat)
    requires hi <= |raw|
  {
    forall k :: lo <= k < hi ==> raw[k] != 13 && raw[k] != 10
  }

  lemma {:induction false} LineOf(raw: seq<Byte>, i: nat) returns (e: nat)
    requires i <= |raw|
    ensures i <= e <= |raw| && NoLineEnd(raw, i, e) && (e < |raw| ==> raw[e] == 13 || raw[e] == 10)
    decreases |raw| - i
  {
    if i == |raw| || raw[i] == 13 || raw[i] == 10 {
      e := i;
    } else {
      e := LineOf(raw, i + 1);
    }
  }

  lemma LineIsOne(raw: seq<Byte>, lo: nat, hi: nat)
    requires lo <= hi <= |raw| && NoLineEnd(raw, lo, hi)
    ensures OneLine(raw[lo..hi])
  {
    var line := raw[lo..hi];
    forall k | 0 <= k < |line| ensures line[k] != 13 && line[k] != 10 { assert line[k] == raw[lo + k]; }
  }

  lemma CommentOf(raw: seq<Byte>, i: nat) returns (c: Option<Filler>)
    requires i < |raw| && raw[i] == 37
    ensures if c.Some? then HasAt(raw, i, FillerBytes(c.value)) else Unfinished(raw, i)
  {
    var e := LineOf(raw, i + 1);
    LineIsOne(raw, i + 1, e);
    if e < |raw| {
      c := Some(Comment(raw[i + 1..e], raw[e] == 10));
      assert raw[i..e + 1] == [raw[i]] + raw[i + 1..e] + [raw[e]];
    } else {
      c := None;
      assert raw[i + 1..] == raw[i + 1..e];
    }
  }

  lemma StopsHere(raw: seq<Byte>, i: nat)
    requires i <= |raw| && (i < |raw| ==> (!IsSpace(raw[i]) && raw[i] != 37) || Unfinished(raw, i))
    ensures HasAt(raw, i, FillerText([])) && Stops(raw, i + |FillerText([])|, TriviaEnd(raw, i))
  {
    if i < |raw| {
      SpacesAre(raw[i]);
      if Unfinished(raw, i) { StopsThere(raw, i, |raw|); } else { StopsThere(raw, i, i); }
    } else {
      StopsThere(raw, i, i);
    }
  }

  /** What is skipped is filling: nothing but white space and comments. */
  lemma {:induction false} FillersOf(raw: seq<Byte>, i: nat) returns (fillers: seq<Filler>)
    requires i <= |raw|
    ensures HasAt(raw, i, FillerText(fillers)) && Stops(raw, i + |FillerText(fillers)|, TriviaEnd(raw, i))
    decreases |raw| - i, 1
  {
    hide FillerBytes, Stops, TriviaEnd, Unfinished, HasAt, FillerText;
    var filler: Option<Filler> := None;
    if i < |raw| && IsSpace(raw[i]) {
      WhiteAt(raw, i);
      filler := Some(White(raw[i]));
    } else if i < |raw| && raw[i] == 37 {
      filler := CommentOf(raw, i);
    }
    if filler.Some? {
      fillers := FilledOn(raw, i, filler.value);
    } else {
      fillers := [];
      StopsHere(raw, i);
    }
  }

  lemma WhiteAt(raw: seq<Byte>, i: nat)
    requires i < |raw| && IsSpace(raw[i])
    ensures HasAt(raw, i, FillerBytes(White(raw[i])))
  {
  }

  lemma {:induction false} FilledOn(raw: seq<Byte>, i: nat, f: Filler) returns (fillers: seq<Filler>)
    requires i < |raw| && HasAt(raw, i, FillerBytes(f))
    ensures HasAt(raw, i, FillerText(fillers)) && Stops(raw, i + |FillerText(fillers)|, TriviaEnd(raw, i))
    decreases |raw| - i, 0
  {
    hide FillerBytes, TriviaEnd, Stops;
    FillerSkips(raw, i, f);
    var rest := FillersOf(raw, i + |FillerBytes(f)|);
    fillers := [f] + rest;
    assert fillers[1..] == rest;
    HasTwo(raw, i, FillerBytes(f), FillerText(rest));
  }

  /** Skipping from i stops at e exactly when white space and comments stand in between, as
      the standard writes them. */
  lemma TriviaIsWritten(raw: seq<Byte>, i: nat, e: nat)
    requires i <= |raw|
    ensures TriviaEnd(raw, i) == e
            <==> exists fillers: seq<Filler> :: HasAt(raw, i, FillerText(fillers)) && Stops(raw, i + |FillerText(fillers)|, e)
  {
    hide TriviaEnd, Stops, FillerText, HasAt;
    if TriviaEnd(raw, i) == e {
      var fillers := FillersOf(raw, i);
      assert HasAt(raw, i, FillerText(fillers)) && Stops(raw, i + |FillerText(fillers)|, e);
    }
    forall fillers: seq<Filler> | HasAt(raw, i, FillerText(fillers)) && Stops(raw, i + |FillerText(fillers)|, e)
      ensures TriviaEnd(raw, i) == e
    {
      FillersSkip(raw, i, fillers, e);
    }
  }

  // ------------------------------------------------------------------ regular tokens

  /** A byte that belongs to a number, a keyword or an operator. */
  predicate InWord(b: Byte) { !Ends(b) }

  /** Brackets are tokens of one or two bytes; bytes that end nothing and begin nothing make
      up one token as long as they last. */
  lemma {:induction false} Words(raw: seq<Byte>, i: nat, e: nat)
    requires i < e <= |raw| && InWord(raw[i]) && forall k :: i <= k < e ==> InWord(raw[k])
    requires e < |raw| ==> Ends(raw[e])
    ensures TokenEnd(raw, i) == Some(e)
  {
    DelimitersAre(raw[i]);
    WordRun(raw, i + 1, e);
  }

  lemma {:induction false} WordRun(raw: seq<Byte>, i: nat, e: nat)
    requires i <= e <= |raw| && (e < |raw| ==> Ends(raw[e])) && forall k :: i <= k < e ==> InWord(raw[k])
    ensures RegularEnd(raw, i) == e
    decreases e - i
  {
    if i < |raw| { DelimitersAre(raw[i]); }
    if i < e { WordRun(raw, i + 1, e); }
  }

  lemma BracketTokens(raw: seq<Byte>, i: nat)
    requires i < |raw|
    ensures raw[i] == 91 || raw[i] == 93 ==> TokenEnd(raw, i) == Some(i + 1)
    ensures (raw[i] == 60 || raw[i] == 62) && i + 1 < |raw| && raw[i + 1] == raw[i] ==> TokenEnd(raw, i) == Some(i + 2)
    ensures raw[i] == 41 || raw[i] == 123 || raw[i] == 125 ==> TokenEnd(raw, i).None?
    ensures raw[i] == 62 && (i + 1 == |raw| || raw[i + 1] != 62) ==> TokenEnd(raw, i).None?
  {
  }

  /** The tokens of containers are these brackets. */
  lemma ContainersAre(streams: seq<seq<Byte>>, o: Operand)
    requires TreeMeans(streams, o)
    ensures o.Array? ==> Text(streams, o.open) == [91] && Text(streams, o.close) == [93]
    ensures o.Dictionary? ==> Text(streams, o.open) == [60, 60] && Text(streams, o.close) == [62, 62]
  {
  }

  function Ascii(s: string): (bytes: seq<Byte>)
    requires forall i :: 0 <= i < |s| ==> s[i] < 128 as char
    ensures |bytes| == |s| && forall i :: 0 <= i < |s| ==> bytes[i] == s[i] as int
  {
    seq(|s|, i requires 0 <= i < |s| => s[i] as int)
  }

  predicate BeginsNumber(b: Byte) { 48 <= b <= 57 || b == 43 || b == 45 || b == 46 }

  /** Three words are operands; every other word that does not begin as a number is an operator. */
  lemma Keywords(raw: seq<Byte>, value: Option<Value>)
    requires raw != [] && Primitive(raw, value)
    ensures raw == Ascii("null") ==> value == Some(Null)
    ensures raw == Ascii("true") ==> value == Some(Boolean(true))
    ensures raw == Ascii("false") ==> value == Some(Boolean(false))
    ensures (raw != Ascii("null") && raw != Ascii("true") && raw != Ascii("false") && !BeginsNumber(raw[0])) ==> value.None?
  {
    assert Ascii("null") == NULL_TOKEN && Ascii("true") == TRUE_TOKEN && Ascii("false") == FALSE_TOKEN;
  }
}
