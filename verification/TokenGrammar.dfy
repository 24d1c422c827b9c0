/** Which token sequences are content programs: a pushdown reading of the tokens, one at a
    time. Operand trees and programs run through it; a sequence that it does not accept is
    the token sequence of no program (pdf-rs/content/src/scanner.rs, lines 336-565). */
module TokenGrammar {
  import opened Basics
  import opened Decimal
  import opened NumberLexemes
  import opened Lexical
  import opened ContentTokens

  datatype Class = ArrayOpens | ArrayCloses | DictionaryOpens | DictionaryCloses | NameToken | LeafToken | OperatorToken | BadToken

  /** What a token is, by its bytes. */
  ghost function ClassOf(streams: seq<seq<Byte>>, s: Span): Class
    requires InBounds(streams, s)
  {
    var raw := Text(streams, s);
    if raw[0] == OPEN_BRACKET then ArrayOpens
    else if raw[0] == CLOSE_BRACKET then ArrayCloses
    else if raw[0] == LESS then (if |raw| > 1 && raw[1] == LESS then DictionaryOpens else LeafToken)
    else if raw[0] == GREATER then DictionaryCloses
    else if raw[0] == SLASH then NameToken
    else if raw[0] == OPEN_PAREN then LeafToken
    else RegularClass(raw)
  }

  ghost function RegularClass(raw: seq<Byte>): Class
    requires |raw| > 0
  {
    if raw == NULL_TOKEN || raw == TRUE_TOKEN || raw == FALSE_TOKEN then LeafToken
    else if IsNumberStart(raw[0]) then (if Scans(raw, None) then BadToken else LeafToken)
    else OperatorToken
  }

  /** Where the reading stands: at top level, with or without pending operands, or inside a
      container, whose `below` is where it stands behind the closing bracket. */
  datatype Stack =
    | Top(pending: bool)
    | InArray(below: Stack)
    | AtKey(below: Stack)
    | AtValue(below: Stack)

  predicate TakesValue(st: Stack) { !st.AtKey? }

  /** Behind an operand. */
  function AfterValue(st: Stack): Stack
    requires TakesValue(st)
  {
    match st
    case Top(_) => Top(true)
    case InArray(below) => st
    case AtValue(below) => AtKey(below)
  }

  function Step(st: Stack, c: Class): Option<Stack> {
    if st.AtKey? then
      if c.NameToken? then Some(AtValue(st.below)) else if c.DictionaryCloses? then Some(st.below) else None
    else match c
      case ArrayOpens => Some(InArray(AfterValue(st)))
      case DictionaryOpens => Some(AtKey(AfterValue(st)))
      case NameToken => Some(AfterValue(st))
      case LeafToken => Some(AfterValue(st))
      case ArrayCloses => if st.InArray? then Some(st.below) else None
      case OperatorToken => if st.Top? then Some(Top(false)) else None
      case DictionaryCloses => None
      case BadToken => None
  }

  /** The reading behind the first n tokens. */
  ghost function RunTo(streams: seq<seq<Byte>>, log: seq<Span>, n: nat): Option<Stack>
    requires n <= |log|
  {
    if n == 0 then Some(Top(false))
    else
      var before := RunTo(streams, log, n - 1);
      if before.None? || !InBounds(streams, log[n - 1]) then None
      else Step(before.value, ClassOf(streams, log[n - 1]))
  }

  ghost predicate Reaches(streams: seq<seq<Byte>>, log: seq<Span>, st: Stack) {
    RunTo(streams, log, |log|) == Some(st)
  }

  lemma {:induction false} RunPrefix(streams: seq<seq<Byte>>, a: seq<Span>, b: seq<Span>, n: nat)
    requires n <= |a| && n <= |b| && forall i :: 0 <= i < n ==> a[i] == b[i]
    ensures RunTo(streams, a, n) == RunTo(streams, b, n)
  {
    if n > 0 { RunPrefix(streams, a, b, n - 1); }
  }

  lemma {:induction false} RunStuck(streams: seq<seq<Byte>>, log: seq<Span>, n: nat, m: nat)
    requires n <= m <= |log| && RunTo(streams, log, n).None?
    ensures RunTo(streams, log, m).None?
    decreases m
  {
    if n < m { RunStuck(streams, log, n, m - 1); }
  }

  lemma RunOn(streams: seq<seq<Byte>>, log: seq<Span>, st: Stack, s: Span)
    requires Reaches(streams, log, st) && InBounds(streams, s)
    ensures RunTo(streams, log + [s], |log| + 1) == Step(st, ClassOf(streams, s))
  {
    RunPrefix(streams, log + [s], log, |log|);
  }

  // ------------------------------------------------------------------ trees

  lemma LeafClass(streams: seq<seq<Byte>>, s: Span, value: Value)
    requires LeafMeans(streams, s, value)
    ensures ClassOf(streams, s).LeafToken? || ClassOf(streams, s).NameToken?
  {
    var raw := Text(streams, s);
    match value
    case Name(_) =>
    case LiteralString(_) =>
    case HexString(_) =>
    case _ =>
      NumberScansOnce(raw);
  }

  lemma NumberScansOnce(raw: seq<Byte>)
    ensures forall r :: Scans(raw, Some(r)) ==> !Scans(raw, None)
  {
  }

  /** A tree takes the reading from in front of an operand to behind it. */
  lemma {:induction false} RunTree(streams: seq<seq<Byte>>, log: seq<Span>, st: Stack, o: Operand)
    requires Reaches(streams, log, st) && TakesValue(st) && TreeMeans(streams, o)
    ensures Reaches(streams, log + Flatten(o), AfterValue(st))
    decreases o
  {
    hide ClassOf, LeafMeans, RunTo, ItemsMean, EntriesMean;
    match o
    case Leaf(span, value) =>
      LeafInBounds(streams, span, value);
      LeafClass(streams, span, value);
      RunOn(streams, log, st, span);
    case Array(open, items, close) =>
      DelimiterClass(streams, open);
      DelimiterClass(streams, close);
      RunOn(streams, log, st, open);
      RunItems(streams, log + [open], InArray(AfterValue(st)), items);
      RunOn(streams, log + [open] + FlattenItems(items), InArray(AfterValue(st)), close);
      Rejoined(log, [open], FlattenItems(items), [close]);
    case Dictionary(open, entries, close) =>
      DelimiterClass(streams, open);
      DelimiterClass(streams, close);
      RunOn(streams, log, st, open);
      RunEntries(streams, log + [open], AfterValue(st), entries);
      RunOn(streams, log + [open] + FlattenEntries(entries), AtKey(AfterValue(st)), close);
      Rejoined(log, [open], FlattenEntries(entries), [close]);
  }

  lemma LeafInBounds(streams: seq<seq<Byte>>, s: Span, value: Value)
    requires LeafMeans(streams, s, value)
    ensures InBounds(streams, s)
  {
  }

  lemma DelimiterClass(streams: seq<seq<Byte>>, s: Span)
    requires InBounds(streams, s)
    ensures Text(streams, s) == [OPEN_BRACKET] ==> ClassOf(streams, s).ArrayOpens?
    ensures Text(streams, s) == [CLOSE_BRACKET] ==> ClassOf(streams, s).ArrayCloses?
    ensures Text(streams, s) == [LESS, LESS] ==> ClassOf(streams, s).DictionaryOpens?
    ensures Text(streams, s) == [GREATER, GREATER] ==> ClassOf(streams, s).DictionaryCloses?
  {
  }

  /** Operands one after the other: nothing changes inside an array, and at top level they
      become pending. */
  lemma {:induction false} RunItems(streams: seq<seq<Byte>>, log: seq<Span>, st: Stack, items: Items)
    requires Reaches(streams, log, st) && (st.InArray? || st.Top?) && ItemsMean(streams, items)
    ensures Reaches(streams, log + FlattenItems(items), if items.Push? then AfterValue(st) else st)
    decreases items
  {
    match items
    case NoItems => assert log + [] == log;
    case Push(front, last) =>
      RunItems(streams, log, st, front);
      RunTree(streams, log + FlattenItems(front), if front.Push? then AfterValue(st) else st, last);
      assert log + (FlattenItems(front) + Flatten(last)) == log + FlattenItems(front) + Flatten(last);
  }

  lemma {:induction false} RunEntries(streams: seq<seq<Byte>>, log: seq<Span>, below: Stack, entries: Entries)
    requires Reaches(streams, log, AtKey(below)) && EntriesMean(streams, entries)
    ensures Reaches(streams, log + FlattenEntries(entries), AtKey(below))
    decreases entries
  {
    hide ClassOf, RunTo, TreeMeans, KeyMeans, Flatten;
    match entries
    case NoEntries => assert log + [] == log;
    case PushEntry(front, keySpan, key, value) =>
      RunEntries(streams, log, below, front);
      KeyInBounds(streams, keySpan, key);
      KeyClass(streams, keySpan, key);
      RunOn(streams, log + FlattenEntries(front), AtKey(below), keySpan);
      RunTree(streams, log + FlattenEntries(front) + [keySpan], AtValue(below), value);
      Rejoined(log, FlattenEntries(front), [keySpan], Flatten(value));
  }

  lemma Rejoined<T>(a: seq<T>, b: seq<T>, c: seq<T>, d: seq<T>)
    ensures a + (b + c + d) == a + b + c + d
  {
  }

  lemma KeyInBounds(streams: seq<seq<Byte>>, s: Span, key: seq<Byte>)
    requires KeyMeans(streams, s, key)
    ensures InBounds(streams, s)
  {
  }

  lemma KeyClass(streams: seq<seq<Byte>>, s: Span, key: seq<Byte>)
    requires KeyMeans(streams, s, key)
    ensures ClassOf(streams, s).NameToken?
  {
  }

  // ------------------------------------------------------------------ hopeless inputs

  /** No complete token sequence of these streams is read to the end of an operator. */
  ghost predicate Hopeless(streams: seq<seq<Byte>>) {
    forall log :: Complete(streams, log) ==> !Reaches(streams, log, Top(false))
  }

  /** A complete token sequence goes on from every sequence read so far, unless that one is
      already complete. */
  lemma CompleteExtends(streams: seq<seq<Byte>>, log: seq<Span>, all: seq<Span>)
    requires Lexed(streams, log) && Complete(streams, all)
    ensures |log| <= |all| && all[..|log|] == log
  {
    hide NextToken, LexedTo, Skip;
    var n := if |log| <= |all| then |log| else |all|;
    SamePrefix(streams, log, all, n);
    if |all| < |log| {
      assert all == all[..n];
      Stuck(streams, all, log);
    }
    assert log == log[..|log|];
  }

  /** The reading of what has been read so far is stuck. */
  lemma StuckIsHopeless(streams: seq<seq<Byte>>, log: seq<Span>)
    requires Lexed(streams, log) && RunTo(streams, log, |log|).None?
    ensures Hopeless(streams)
  {
    hide RunTo, Complete, Lexed;
    forall all | Complete(streams, all) ensures !Reaches(streams, all, Top(false)) {
      CompleteExtends(streams, log, all);
      RunPrefix(streams, log, all, |log|);
      RunStuck(streams, all, |log|, |all|);
    }
  }

  /** No token begins here. */
  lemma NoTokenIsHopeless(streams: seq<seq<Byte>>, log: seq<Span>, here: Pos)
    requires Lexed(streams, log) && InStreams(streams, LogEnd(log, |log|)) && Skip(streams, LogEnd(log, |log|)) == here
    requires here.stream < |streams| && here.offset < |streams[here.stream]|
    requires TokenEnd(streams[here.stream], here.offset).None?
    ensures Hopeless(streams)
  {
    hide Complete, Lexed;
    forall all ensures !Complete(streams, all) {
      if Complete(streams, all) { NoTokenStops(streams, log, here, all); }
    }
  }

  lemma NoTokenStops(streams: seq<seq<Byte>>, log: seq<Span>, here: Pos, all: seq<Span>)
    requires Lexed(streams, log) && InStreams(streams, LogEnd(log, |log|)) && Skip(streams, LogEnd(log, |log|)) == here
    requires here.stream < |streams| && here.offset < |streams[here.stream]|
    requires TokenEnd(streams[here.stream], here.offset).None?
    ensures !Complete(streams, all)
  {
    hide LexedTo, Skip, TokenEnd;
    if Complete(streams, all) {
      CompleteExtends(streams, log, all);
      assert |log| > 0 ==> all[..|log|][|log| - 1] == log[|log| - 1];
      if |all| > |log| {
        LexedAt(streams, all, |all|, |log|);
        assert false;
      }
    }
  }

  /** The token that begins here is out of place. */
  lemma MisplacedIsHopeless(streams: seq<seq<Byte>>, log: seq<Span>, st: Stack, here: Pos)
    requires Lexed(streams, log) && InStreams(streams, LogEnd(log, |log|)) && Skip(streams, LogEnd(log, |log|)) == here
    requires here.stream < |streams| && here.offset < |streams[here.stream]| && Reaches(streams, log, st)
    requires var e := TokenEnd(streams[here.stream], here.offset);
             e.Some? ==> Step(st, ClassOf(streams, Span(here.stream, here.offset, e.value))).None?
    ensures Hopeless(streams)
  {
    hide RunTo, LexedTo, Skip, TokenEnd, ClassOf, NextToken;
    var e := TokenEnd(streams[here.stream], here.offset);
    if e.None? {
      NoTokenIsHopeless(streams, log, here);
    } else {
      var s := Span(here.stream, here.offset, e.value);
      LexedOn(streams, log, s);
      RunOn(streams, log, st, s);
      StuckIsHopeless(streams, log + [s]);
    }
  }

  /** The input ends in the middle of something. */
  lemma EndIsHopeless(streams: seq<seq<Byte>>, log: seq<Span>, st: Stack)
    requires Complete(streams, log) && Reaches(streams, log, st) && st != Top(false)
    ensures Hopeless(streams)
  {
    hide Complete, RunTo;
    forall all | Complete(streams, all) ensures !Reaches(streams, all, Top(false)) {
      CompleteOnce(streams, log, all);
    }
  }
}
