/** The tokens of an ordered sequence of content streams and the operand trees built from
    them, as the content scanner defines them (pdf-rs/content/src/scanner.rs; sections 7.2
    and 7.8.2 of ISO 32000-1). Everything the scanner reports is a function of the bytes:
    where each token starts and ends, and what each leaf means. */
module ContentTokens {
  import opened Basics
  import opened Decimal
  import opened NumberLexemes
  import opened Lexical

  // ------------------------------------------------------------------ positions

  /** A position in the stream sequence; (number of streams, 0) is the end. */
  datatype Pos = Pos(stream: nat, offset: nat)

  ghost predicate InStreams(streams: seq<seq<Byte>>, p: Pos) {
    if p.stream < |streams| then p.offset <= |streams[p.stream]| else p == Pos(|streams|, 0)
  }

  /** Decoded bytes of the first n streams. */
  ghost function Length(streams: seq<seq<Byte>>, n: nat): nat
    requires n <= |streams|
  {
    if n == 0 then 0 else Length(streams, n - 1) + |streams[n - 1]|
  }

  /** Bytes in front of a position. */
  ghost function Behind(streams: seq<seq<Byte>>, p: Pos): nat
    requires InStreams(streams, p)
  {
    Length(streams, p.stream) + p.offset
  }

  // ------------------------------------------------------------------ white space and comments

  /** The position behind a comment that starts at or before i. */
  function CommentEnd(bytes: seq<Byte>, i: nat): (e: nat)
    requires i <= |bytes|
    ensures i <= e <= |bytes|
    decreases |bytes| - i
  {
    if i == |bytes| then i
    else if bytes[i] == CR || bytes[i] == LF then i + 1
    else CommentEnd(bytes, i + 1)
  }

  /** The first position from i on that is neither white space nor inside a comment. */
  function TriviaEnd(bytes: seq<Byte>, i: nat): (e: nat)
    requires i <= |bytes|
    ensures i <= e <= |bytes|
    ensures e < |bytes| ==> !IsWhitespace(bytes[e]) && bytes[e] != PERCENT
    decreases |bytes| - i
  {
    if i == |bytes| then i
    else if IsWhitespace(bytes[i]) then TriviaEnd(bytes, i + 1)
    else if bytes[i] == PERCENT then TriviaEnd(bytes, CommentEnd(bytes, i + 1))
    else i
  }

  /** The next token position from p on, across stream boundaries: a comment ends with its
      stream. */
  ghost function Skip(streams: seq<seq<Byte>>, p: Pos): (q: Pos)
    requires InStreams(streams, p)
    ensures InStreams(streams, q) && Behind(streams, p) <= Behind(streams, q)
    ensures q.stream < |streams| ==> q.offset < |streams[q.stream]|
    decreases |streams| - p.stream
  {
    if p.stream == |streams| then p
    else
      var e := TriviaEnd(streams[p.stream], p.offset);
      if e < |streams[p.stream]| then Pos(p.stream, e) else Skip(streams, Pos(p.stream + 1, 0))
  }

  lemma {:induction false} SkipTwice(streams: seq<seq<Byte>>, p: Pos)
    requires InStreams(streams, p)
    ensures Skip(streams, Skip(streams, p)) == Skip(streams, p)
    decreases |streams| - p.stream
  {
    if p.stream < |streams| {
      var e := TriviaEnd(streams[p.stream], p.offset);
      if e == |streams[p.stream]| { SkipTwice(streams, Pos(p.stream + 1, 0)); }
    }
  }

  // ------------------------------------------------------------------ token ends

  /** The position behind the parenthesis that closes a literal string, reading from i with
      this many parentheses open. */
  function LiteralClose(bytes: seq<Byte>, i: nat, nesting: nat): (e: Option<nat>)
    requires i <= |bytes|
    ensures e.Some? ==> i < e.value <= |bytes|
    decreases |bytes| - i
  {
    var p := LexAt(bytes, i);
    if p.None? || i + Width(p.value) > |bytes| then None
    else if p.value == Plain(CLOSE_PAREN) && nesting <= 1 then Some(i + 1)
    else LiteralClose(bytes, i + Width(p.value), nesting + Nesting(p.value))
  }

  /** The position behind the `>` that closes a hexadecimal string. */
  function HexClose(bytes: seq<Byte>, i: nat): (e: Option<nat>)
    requires i <= |bytes|
    ensures e.Some? ==> i < e.value <= |bytes| && bytes[e.value - 1] == GREATER && HexBody(bytes, i, e.value - 1)
    decreases |bytes| - i
  {
    if i == |bytes| then None
    else if bytes[i] == GREATER then Some(i + 1)
    else if IsWhitespace(bytes[i]) || HexValue(bytes[i]).Some? then HexClose(bytes, i + 1)
    else None
  }

  /** The end of the run of regular characters from i on. */
  function RegularEnd(bytes: seq<Byte>, i: nat): (e: nat)
    requires i <= |bytes|
    ensures i <= e <= |bytes|
    decreases |bytes| - i
  {
    if i == |bytes| || IsDelimiter(bytes[i]) then i else RegularEnd(bytes, i + 1)
  }

  /** Where the token that starts at i ends, if one does. */
  function TokenEnd(bytes: seq<Byte>, i: nat): (e: Option<nat>)
    requires i < |bytes|
    ensures e.Some? ==> i < e.value <= |bytes|
  {
    var b := bytes[i];
    if b == OPEN_BRACKET || b == CLOSE_BRACKET then Some(i + 1)
    else if b == LESS then
      if At(bytes, i + 1) == Some(LESS) then Some(i + 2) else HexClose(bytes, i + 1)
    else if b == GREATER then (if At(bytes, i + 1) == Some(GREATER) then Some(i + 2) else None)
    else if b == OPEN_PAREN then LiteralClose(bytes, i + 1, 1)
    else if b == SLASH then
      var name := NameFrom(bytes, i + 1);
      if name.Some? then Some(name.value.1) else None
    else if IsDelimiter(b) then None
    else Some(RegularEnd(bytes, i + 1))
  }

  // ------------------------------------------------------------------ operand trees

  /** A token's place: bytes [start, end) of one stream. */
  datatype Span = Span(stream: nat, start: nat, end: nat) {
    function First(): Pos { Pos(stream, start) }
    function Behind(): Pos { Pos(stream, end) }
  }

  datatype Value =
    | Null
    | Boolean(truth: bool)
    | Integer(number: int)
    | Real(lexeme: seq<Byte>)
    | Name(bytes: seq<Byte>)
    | LiteralString(bytes: seq<Byte>)
    | HexString(bytes: seq<Byte>)

  datatype Operand =
    | Leaf(span: Span, value: Value)
    | Array(open: Span, items: Items, close: Span)
    | Dictionary(open: Span, entries: Entries, close: Span)

  /** Vectors of operands and of dictionary entries, growing at the end. */
  datatype Items = NoItems | Push(front: Items, last: Operand)

  datatype Entries = NoEntries | PushEntry(front: Entries, keySpan: Span, key: seq<Byte>, value: Operand)

  function Size(items: Items): nat { if items.NoItems? then 0 else Size(items.front) + 1 }

  /** The tokens of a tree, in order. */
  ghost function Flatten(o: Operand): seq<Span> {
    match o
    case Leaf(span, _) => [span]
    case Array(open, items, close) => [open] + FlattenItems(items) + [close]
    case Dictionary(open, entries, close) => [open] + FlattenEntries(entries) + [close]
  }

  ghost function FlattenItems(items: Items): seq<Span> {
    match items
    case NoItems => []
    case Push(front, last) => FlattenItems(front) + Flatten(last)
  }

  ghost function FlattenEntries(entries: Entries): seq<Span> {
    match entries
    case NoEntries => []
    case PushEntry(front, keySpan, _, value) => FlattenEntries(front) + [keySpan] + Flatten(value)
  }

  /** Tree sizes: nodes, and the tokens a tree must have by its shape. */
  datatype Census = Census(leaves: nat, keys: nat, containers: nat, depth: nat) {
    function Nodes(): nat { leaves + containers }

    function Tokens(): nat { leaves + keys + 2 * containers }

    /** Two neighbouring trees. */
    function Plus(other: Census): Census {
      Census(leaves + other.leaves, keys + other.keys, containers + other.containers, Max(depth, other.depth))
    }

    function Wrapped(): Census { Census(leaves, keys, containers + 1, depth + 1) }

    function Keyed(): Census { Census(leaves, keys + 1, containers, depth) }
  }

  const NOTHING := Census(0, 0, 0, 0)

  function Count(o: Operand): Census {
    match o
    case Leaf(_, _) => Census(1, 0, 0, 0)
    case Array(_, items, _) => CountItems(items).Wrapped()
    case Dictionary(_, entries, _) => CountEntries(entries).Wrapped()
  }

  function CountItems(items: Items): Census {
    match items
    case NoItems => NOTHING
    case Push(front, last) => CountItems(front).Plus(Count(last))
  }

  function CountEntries(entries: Entries): Census {
    match entries
    case NoEntries => NOTHING
    case PushEntry(front, _, _, value) => CountEntries(front).Keyed().Plus(Count(value))
  }

  /** A tree has one token per leaf and key and two per container. */
  lemma {:induction false} TokensOfTree(o: Operand)
    ensures |Flatten(o)| == Count(o).Tokens()
  {
    match o
    case Leaf(_, _) =>
    case Array(_, items, _) => TokensOfItems(items);
    case Dictionary(_, entries, _) => TokensOfEntries(entries);
  }

  lemma {:induction false} TokensOfItems(items: Items)
    ensures |FlattenItems(items)| == CountItems(items).Tokens()
  {
    if items.Push? {
      TokensOfItems(items.front);
      TokensOfTree(items.last);
    }
  }

  lemma {:induction false} TokensOfEntries(entries: Entries)
    ensures |FlattenEntries(entries)| == CountEntries(entries).Tokens()
  {
    if entries.PushEntry? {
      TokensOfEntries(entries.front);
      TokensOfTree(entries.value);
    }
  }

  // ------------------------------------------------------------------ meanings

  const NULL_TOKEN: seq<Byte> := [110, 117, 108, 108]
  const TRUE_TOKEN: seq<Byte> := [116, 114, 117, 101]
  const FALSE_TOKEN: seq<Byte> := [102, 97, 108, 115, 101]

  predicate IsNumberStart(b: Byte) { IsDigit(b) || b == PLUS || b == MINUS || b == DOT }

  ghost predicate InBounds(streams: seq<seq<Byte>>, s: Span) {
    s.stream < |streams| && s.start < s.end <= |streams[s.stream]|
  }

  ghost function Text(streams: seq<seq<Byte>>, s: Span): seq<Byte>
    requires InBounds(streams, s)
  {
    streams[s.stream][s.start..s.end]
  }

  /** What a regular token is as an operand; None for an operator. */
  ghost predicate Primitive(raw: seq<Byte>, value: Option<Value>) {
    if raw == NULL_TOKEN then value == Some(Null)
    else if raw == TRUE_TOKEN then value == Some(Boolean(true))
    else if raw == FALSE_TOKEN then value == Some(Boolean(false))
    else if |raw| > 0 && IsNumberStart(raw[0]) then
      || (value.Some? && value.value.Integer? && Scans(raw, Some(ParsedNumber.Integer(value.value.number))))
      || (value == Some(Value.Real(raw)) && Scans(raw, Some(ParsedNumber.Real)))
    else value.None?
  }

  ghost predicate IsName(bytes: seq<Byte>, start: nat, end: nat, name: seq<Byte>) {
    && start < |bytes| && bytes[start] == SLASH
    && NameFrom(bytes, start + 1) == Some((name, end))
  }

  /** A leaf means what its bytes spell. */
  ghost predicate LeafMeans(streams: seq<seq<Byte>>, s: Span, value: Value) {
    && InBounds(streams, s)
    && var bytes := streams[s.stream];
    match value
    case Name(name) => IsName(bytes, s.start, s.end, name)
    case LiteralString(decoded) => exists pieces :: IsLiteral(bytes, s.start, s.end, pieces) && decoded == Meaning(pieces, |pieces|)
    case HexString(decoded) =>
      && bytes[s.start] == LESS && s.start + 1 < s.end && bytes[s.end - 1] == GREATER
      && HexBody(bytes, s.start + 1, s.end - 1) && decoded == HexMeaning(bytes, s.start + 1, s.end - 1)
    case _ => Primitive(Text(streams, s), Some(value))
  }

  /** The delimiters of a container, byte for byte. */
  ghost predicate Delimits(streams: seq<seq<Byte>>, open: Span, close: Span, first: seq<Byte>, last: seq<Byte>) {
    && InBounds(streams, open) && InBounds(streams, close)
    && Text(streams, open) == first && Text(streams, close) == last
  }

  ghost predicate TreeMeans(streams: seq<seq<Byte>>, o: Operand) {
    match o
    case Leaf(span, value) => LeafMeans(streams, span, value)
    case Array(open, items, close) =>
      Delimits(streams, open, close, [OPEN_BRACKET], [CLOSE_BRACKET]) && ItemsMean(streams, items)
    case Dictionary(open, entries, close) =>
      Delimits(streams, open, close, [LESS, LESS], [GREATER, GREATER]) && EntriesMean(streams, entries)
  }

  ghost predicate ItemsMean(streams: seq<seq<Byte>>, items: Items) {
    items.Push? ==> ItemsMean(streams, items.front) && TreeMeans(streams, items.last)
  }

  ghost predicate EntriesMean(streams: seq<seq<Byte>>, entries: Entries) {
    entries.PushEntry? ==>
      && EntriesMean(streams, entries.front)
      && KeyMeans(streams, entries.keySpan, entries.key)
      && TreeMeans(streams, entries.value)
  }

  ghost predicate KeyMeans(streams: seq<seq<Byte>>, s: Span, key: seq<Byte>) {
    InBounds(streams, s) && IsName(streams[s.stream], s.start, s.end, key)
  }

  // ------------------------------------------------------------------ the token log

  /** The position behind the last of the first n tokens. */
  ghost function LogEnd(log: seq<Span>, n: nat): Pos
    requires n <= |log|
  {
    if n == 0 then Pos(0, 0) else log[n - 1].Behind()
  }

  /** Token n is the longest token at the first position behind token n-1 that is not white
      space or comment: nothing is skipped, and nothing is a matter of choice. */
  ghost predicate NextToken(streams: seq<seq<Byte>>, log: seq<Span>, n: nat)
    requires n < |log|
  {
    && InBounds(streams, log[n]) && InStreams(streams, LogEnd(log, n))
    && Skip(streams, LogEnd(log, n)) == log[n].First()
    && TokenEnd(streams[log[n].stream], log[n].start) == Some(log[n].end)
  }

  ghost predicate Lexed(streams: seq<seq<Byte>>, log: seq<Span>) { LexedTo(streams, log, |log|) }

  ghost predicate LexedTo(streams: seq<seq<Byte>>, log: seq<Span>, n: nat)
    requires n <= |log|
  {
    n == 0 || (LexedTo(streams, log, n - 1) && NextToken(streams, log, n - 1))
  }

  lemma {:induction false} LexedPrefix(streams: seq<seq<Byte>>, a: seq<Span>, b: seq<Span>, n: nat)
    requires n <= |a| && n <= |b| && forall i :: 0 <= i < n ==> a[i] == b[i]
    requires LexedTo(streams, a, n)
    ensures LexedTo(streams, b, n)
  {
    if n > 0 { LexedPrefix(streams, a, b, n - 1); }
  }

  lemma LexedOn(streams: seq<seq<Byte>>, log: seq<Span>, s: Span)
    requires Lexed(streams, log) && InBounds(streams, s) && InStreams(streams, LogEnd(log, |log|))
    requires Skip(streams, LogEnd(log, |log|)) == s.First()
    requires TokenEnd(streams[s.stream], s.start) == Some(s.end)
    ensures Lexed(streams, log + [s])
  {
    var all := log + [s];
    LexedPrefix(streams, log, all, |log|);
    assert LogEnd(all, |log|) == LogEnd(log, |log|) && all[|log|] == s;
    assert NextToken(streams, all, |log|);
  }

  lemma {:induction false} LexedAt(streams: seq<seq<Byte>>, log: seq<Span>, n: nat, i: nat)
    requires i < n <= |log| && LexedTo(streams, log, n)
    ensures NextToken(streams, log, i)
  {
    if i < n - 1 { LexedAt(streams, log, n - 1, i); }
  }

  /** The whole input is read: nothing but white space and comments is left. */
  ghost predicate Complete(streams: seq<seq<Byte>>, log: seq<Span>) {
    && Lexed(streams, log) && InStreams(streams, LogEnd(log, |log|))
    && Skip(streams, LogEnd(log, |log|)) == Pos(|streams|, 0)
  }

  /** The bytes alone determine the tokens. */
  lemma CompleteOnce(streams: seq<seq<Byte>>, a: seq<Span>, b: seq<Span>)
    requires Complete(streams, a) && Complete(streams, b)
    ensures a == b
  {
    var n := if |a| <= |b| then |a| else |b|;
    SamePrefix(streams, a, b, n);
    if |a| < |b| { Stuck(streams, a, b); }
    if |b| < |a| { Stuck(streams, b, a); }
    assert a == a[..n] && b == b[..n];
  }

  /** A complete log has no continuation. */
  lemma Stuck(streams: seq<seq<Byte>>, a: seq<Span>, b: seq<Span>)
    requires Complete(streams, a) && Lexed(streams, b) && |a| < |b|
    ensures a != b[..|a|]
  {
    LexedAt(streams, b, |b|, |a|);
  }

  lemma {:induction false} SamePrefix(streams: seq<seq<Byte>>, a: seq<Span>, b: seq<Span>, n: nat)
    requires Lexed(streams, a) && Lexed(streams, b) && n <= |a| && n <= |b|
    ensures a[..n] == b[..n]
  {
    if n > 0 {
      SamePrefix(streams, a, b, n - 1);
      LexedAt(streams, a, |a|, n - 1);
      LexedAt(streams, b, |b|, n - 1);
      if n > 1 { assert a[n - 2] == a[..n - 1][n - 2] == b[..n - 1][n - 2] == b[n - 2]; }
      assert a[..n] == a[..n - 1] + [a[n - 1]] && b[..n] == b[..n - 1] + [b[n - 1]];
    }
  }

  // ------------------------------------------------------------------ order

  ghost predicate Before(p: Pos, q: Pos) { p.stream < q.stream || (p.stream == q.stream && p.offset <= q.offset) }

  lemma {:induction false} SkipForward(streams: seq<seq<Byte>>, p: Pos)
    requires InStreams(streams, p)
    ensures Before(p, Skip(streams, p))
    decreases |streams| - p.stream
  {
    if p.stream < |streams| && TriviaEnd(streams[p.stream], p.offset) == |streams[p.stream]| {
      SkipForward(streams, Pos(p.stream + 1, 0));
    }
  }

  /** Tokens follow one another without overlap. */
  lemma {:induction false} LogInOrder(streams: seq<seq<Byte>>, log: seq<Span>, i: nat, j: nat)
    requires Lexed(streams, log) && i < j < |log|
    ensures Before(log[i].Behind(), log[j].First()) && log[i].start < log[i].end
    decreases j
  {
    LexedAt(streams, log, |log|, i);
    LexedAt(streams, log, |log|, j);
    SkipForward(streams, LogEnd(log, j));
    if i < j - 1 {
      LogInOrder(streams, log, i, j - 1);
      LexedAt(streams, log, |log|, j - 1);
    }
  }
}
