/** What a content scan may refuse (pdf-rs/content/src/scanner.rs, lines 161-335): its errors
    and limits, how much of each limit a token sequence takes up, and when a refusal is
    justified: a syntactic error when the input holds no program, a limit when every program
    the input could hold is beyond it. */
module ScanLimits {
  import opened Basics
  import opened Lexical
  import opened ContentTokens
  import opened TokenGrammar

  const U32_MAX := 0xFFFF_FFFF

  datatype ContentLimit =
    | Streams | TotalDecodedBytes | TokenBytes | Tokens | OperandsPerOperator | NestingDepth | Operators | Fuel
    | RetainedBytes | Allocation

  datatype ContentError =
    | Cancelled
    | Resource(kind: ContentLimit)
    | UnterminatedString
    | InvalidHexString
    | InvalidNameEscape
    | InvalidNumber
    | InvalidDictionaryKey
    | MismatchedDelimiter
    | MalformedToken
    | DanglingOperands
    | InternalState
  {
    /** The input is at fault, and not a limit, the host or a counter. */
    predicate Syntactic() { !Cancelled? && !Resource? && !InternalState? }
  }

  datatype ContentLimits = ContentLimits(
    maxStreams: nat, maxTotalDecodedBytes: nat, maxTokenBytes: nat, maxTokens: nat, maxOperandsPerOperator: nat,
    maxNestingDepth: nat, maxOperators: nat, maxFuel: nat, maxRetainedBytes: nat)

  // ------------------------------------------------------------------ what tokens take up

  /** Number of open containers. */
  function Height(st: Stack): nat { if st.Top? then 0 else 1 + Height(st.below) }

  ghost predicate IsOperator(streams: seq<seq<Byte>>, s: Span) { InBounds(streams, s) && ClassOf(streams, s).OperatorToken? }

  /** Operators among the first n tokens. */
  ghost function OperatorCount(streams: seq<seq<Byte>>, log: seq<Span>, n: nat): nat
    requires n <= |log|
  {
    if n == 0 then 0 else OperatorCount(streams, log, n - 1) + (if IsOperator(streams, log[n - 1]) then 1 else 0)
  }

  /** Top-level operands complete among the first n tokens, behind the last operator. */
  ghost function Outstanding(streams: seq<seq<Byte>>, log: seq<Span>, n: nat): nat
    requires n <= |log|
  {
    if n == 0 || IsOperator(streams, log[n - 1]) then 0
    else Outstanding(streams, log, n - 1) + (if RunTo(streams, log, n) == Some(Top(true)) then 1 else 0)
  }

  ghost predicate HeightWithin(streams: seq<seq<Byte>>, log: seq<Span>, n: nat, max: nat)
    requires n <= |log|
  {
    RunTo(streams, log, n).Some? ==> Height(RunTo(streams, log, n).value) <= max
  }

  /** The streams with these tokens keep within the limit. What is retained, and whether it
      can be allocated, is the allocator's business. */
  ghost predicate Within(streams: seq<seq<Byte>>, limits: ContentLimits, log: seq<Span>, kind: ContentLimit) {
    match kind
    case Streams => |streams| <= limits.maxStreams
    case TotalDecodedBytes => Length(streams, |streams|) <= limits.maxTotalDecodedBytes
    case TokenBytes => forall n :: 0 <= n < |log| ==> log[n].end - log[n].start <= limits.maxTokenBytes
    case Tokens => |log| <= limits.maxTokens
    case Fuel => Length(streams, |streams|) + |log| <= limits.maxFuel
    case Operators => OperatorCount(streams, log, |log|) <= limits.maxOperators
    case OperandsPerOperator => forall n :: 0 <= n <= |log| ==> Outstanding(streams, log, n) <= limits.maxOperandsPerOperator
    case NestingDepth => forall n :: 0 <= n <= |log| ==> HeightWithin(streams, log, n, limits.maxNestingDepth)
    case RetainedBytes => false
    case Allocation => false
  }

  // ------------------------------------------------------------------ justified refusals

  /** These tokens are all of the input, and they are a program's. */
  ghost predicate IsProgram(streams: seq<seq<Byte>>, log: seq<Span>) {
    Complete(streams, log) && Reaches(streams, log, Top(false))
  }

  ghost predicate Beyond(streams: seq<seq<Byte>>, limits: ContentLimits, kind: ContentLimit) {
    forall log :: IsProgram(streams, log) ==> !Within(streams, limits, log, kind)
  }

  ghost predicate Justified(streams: seq<seq<Byte>>, limits: ContentLimits, error: ContentError) {
    match error
    case Cancelled => true
    case Resource(kind) => Beyond(streams, limits, kind)
    case InternalState => Length(streams, |streams|) > U32_MAX
    case _ => Hopeless(streams)
  }

  lemma SyntacticIsHopeless(streams: seq<seq<Byte>>, limits: ContentLimits, error: ContentError)
    requires error.Syntactic()
    ensures Justified(streams, limits, error) <==> Hopeless(streams)
  {
  }

  /** A program within its limits is refused by a cancellation or the allocator alone. */
  lemma ProgramsAreNotRefused(streams: seq<seq<Byte>>, limits: ContentLimits, log: seq<Span>, error: ContentError)
    requires IsProgram(streams, log) && Length(streams, |streams|) <= U32_MAX
    requires forall kind: ContentLimit :: !kind.RetainedBytes? && !kind.Allocation? ==> Within(streams, limits, log, kind)
    requires Justified(streams, limits, error)
    ensures error == Cancelled || error == Resource(RetainedBytes) || error == Resource(ContentLimit.Allocation)
  {
    hide Within, Complete, RunTo;
  }

  // ------------------------------------------------------------------ how limits are exceeded

  /** A program's tokens go on from what has been read. */
  lemma GoesOn(streams: seq<seq<Byte>>, log: seq<Span>, all: seq<Span>)
    requires Lexed(streams, log) && IsProgram(streams, all)
    ensures |log| <= |all| && forall i :: 0 <= i < |log| ==> all[i] == log[i]
  {
    hide Complete, Lexed, RunTo;
    CompleteExtends(streams, log, all);
    forall i | 0 <= i < |log| ensures all[i] == log[i] { assert all[i] == all[..|log|][i]; }
  }

  lemma FuelShort(streams: seq<seq<Byte>>, limits: ContentLimits, log: seq<Span>, spent: nat)
    requires Lexed(streams, log) && limits.maxFuel < spent <= Length(streams, |streams|) + |log|
    ensures Beyond(streams, limits, Fuel)
  {
    hide Lexed, IsProgram;
    forall all | IsProgram(streams, all) ensures !Within(streams, limits, all, Fuel) { GoesOn(streams, log, all); }
  }

  lemma TokenTooLong(streams: seq<seq<Byte>>, limits: ContentLimits, log: seq<Span>, s: Span)
    requires Lexed(streams, log + [s]) && s.end - s.start > limits.maxTokenBytes
    ensures Beyond(streams, limits, TokenBytes)
  {
    hide Lexed, IsProgram;
    forall all | IsProgram(streams, all) ensures !Within(streams, limits, all, TokenBytes) {
      GoesOn(streams, log + [s], all);
      assert all[|log|] == (log + [s])[|log|] == s;
    }
  }

  lemma TooManyTokens(streams: seq<seq<Byte>>, limits: ContentLimits, log: seq<Span>)
    requires Lexed(streams, log) && |log| > limits.maxTokens
    ensures Beyond(streams, limits, Tokens)
  {
    hide Lexed, IsProgram;
    forall all | IsProgram(streams, all) ensures !Within(streams, limits, all, Tokens) { GoesOn(streams, log, all); }
  }

  lemma TooDeep(streams: seq<seq<Byte>>, limits: ContentLimits, log: seq<Span>, st: Stack)
    requires Lexed(streams, log) && Reaches(streams, log, st) && Height(st) > limits.maxNestingDepth
    ensures Beyond(streams, limits, NestingDepth)
  {
    hide Lexed, IsProgram, RunTo;
    forall all | IsProgram(streams, all) ensures !Within(streams, limits, all, NestingDepth) {
      GoesOn(streams, log, all);
      RunPrefix(streams, log, all, |log|);
      assert !HeightWithin(streams, all, |log|, limits.maxNestingDepth);
    }
  }

  lemma {:induction false} SameCounts(streams: seq<seq<Byte>>, a: seq<Span>, b: seq<Span>, n: nat)
    requires n <= |a| && n <= |b| && forall i :: 0 <= i < n ==> a[i] == b[i]
    ensures OperatorCount(streams, a, n) == OperatorCount(streams, b, n)
    ensures Outstanding(streams, a, n) == Outstanding(streams, b, n)
  {
    hide IsOperator, RunTo;
    if n > 0 {
      SameCounts(streams, a, b, n - 1);
      RunPrefix(streams, a, b, n);
    }
  }

  lemma {:induction false} CountGrows(streams: seq<seq<Byte>>, log: seq<Span>, m: nat, n: nat)
    requires m <= n <= |log|
    ensures OperatorCount(streams, log, m) <= OperatorCount(streams, log, n)
    decreases n
  {
    hide IsOperator;
    if m < n { CountGrows(streams, log, m, n - 1); }
  }

  lemma TooManyOperators(streams: seq<seq<Byte>>, limits: ContentLimits, log: seq<Span>)
    requires Lexed(streams, log) && OperatorCount(streams, log, |log|) > limits.maxOperators
    ensures Beyond(streams, limits, Operators)
  {
    hide Lexed, IsProgram, OperatorCount, Outstanding;
    forall all | IsProgram(streams, all) ensures !Within(streams, limits, all, Operators) {
      GoesOn(streams, log, all);
      SameCounts(streams, log, all, |log|);
      CountGrows(streams, all, |log|, |all|);
    }
  }

  lemma TooManyOperands(streams: seq<seq<Byte>>, limits: ContentLimits, log: seq<Span>)
    requires Lexed(streams, log) && Outstanding(streams, log, |log|) > limits.maxOperandsPerOperator
    ensures Beyond(streams, limits, OperandsPerOperator)
  {
    hide Lexed, IsProgram, OperatorCount, Outstanding;
    forall all | IsProgram(streams, all) ensures !Within(streams, limits, all, OperandsPerOperator) {
      GoesOn(streams, log, all);
      SameCounts(streams, log, all, |log|);
    }
  }

  // ------------------------------------------------------------------ what trees take up

  /** One more token. */
  lemma OutstandingOn(streams: seq<seq<Byte>>, log: seq<Span>, st: Stack, s: Span, after: Stack)
    requires Reaches(streams, log, st) && InBounds(streams, s) && Step(st, ClassOf(streams, s)) == Some(after)
    ensures Reaches(streams, log + [s], after)
    ensures IsOperator(streams, s) ==> Outstanding(streams, log + [s], |log| + 1) == 0
    ensures !IsOperator(streams, s) ==>
              Outstanding(streams, log + [s], |log| + 1)
              == Outstanding(streams, log, |log|) + (if after == Top(true) then 1 else 0)
  {
    RunOn(streams, log, st, s);
    SameCounts(streams, log + [s], log, |log|);
  }

  function AtTop(st: Stack): nat { if st.Top? then 1 else 0 }

  /** A tree at top level is one more operand; inside a container it is none. */
  lemma {:induction false} TreeOutstanding(streams: seq<seq<Byte>>, log: seq<Span>, st: Stack, o: Operand)
    requires Reaches(streams, log, st) && TakesValue(st) && TreeMeans(streams, o)
    ensures Outstanding(streams, log + Flatten(o), |log + Flatten(o)|) == Outstanding(streams, log, |log|) + AtTop(st)
    decreases o
  {
    hide ClassOf, LeafMeans, RunTo, ItemsMean, EntriesMean, Outstanding;
    match o
    case Leaf(span, value) =>
      LeafInBounds(streams, span, value);
      LeafClass(streams, span, value);
      OutstandingOn(streams, log, st, span, AfterValue(st));
    case Array(open, items, close) =>
      DelimiterClass(streams, open);
      DelimiterClass(streams, close);
      OutstandingOn(streams, log, st, open, InArray(AfterValue(st)));
      ItemsOutstanding(streams, log + [open], InArray(AfterValue(st)), items);
      RunItems(streams, log + [open], InArray(AfterValue(st)), items);
      OutstandingOn(streams, log + [open] + FlattenItems(items), InArray(AfterValue(st)), close, AfterValue(st));
      Rejoined(log, [open], FlattenItems(items), [close]);
    case Dictionary(open, entries, close) =>
      DelimiterClass(streams, open);
      DelimiterClass(streams, close);
      OutstandingOn(streams, log, st, open, AtKey(AfterValue(st)));
      EntriesOutstanding(streams, log + [open], AfterValue(st), entries);
      RunEntries(streams, log + [open], AfterValue(st), entries);
      OutstandingOn(streams, log + [open] + FlattenEntries(entries), AtKey(AfterValue(st)), close, AfterValue(st));
      Rejoined(log, [open], FlattenEntries(entries), [close]);
  }

  lemma {:induction false} ItemsOutstanding(streams: seq<seq<Byte>>, log: seq<Span>, st: Stack, items: Items)
    requires Reaches(streams, log, st) && (st.InArray? || st.Top?) && ItemsMean(streams, items)
    ensures Outstanding(streams, log + FlattenItems(items), |log + FlattenItems(items)|)
            == Outstanding(streams, log, |log|) + (if st.Top? then Size(items) else 0)
    decreases items
  {
    hide RunTo, TreeMeans, Flatten, Outstanding;
    match items
    case NoItems => assert log + [] == log;
    case Push(front, last) =>
      ItemsOutstanding(streams, log, st, front);
      RunItems(streams, log, st, front);
      TreeOutstanding(streams, log + FlattenItems(front), if front.Push? then AfterValue(st) else st, last);
      assert log + (FlattenItems(front) + Flatten(last)) == log + FlattenItems(front) + Flatten(last);
  }

  lemma {:induction false} EntriesOutstanding(streams: seq<seq<Byte>>, log: seq<Span>, below: Stack, entries: Entries)
    requires Reaches(streams, log, AtKey(below)) && EntriesMean(streams, entries)
    ensures Outstanding(streams, log + FlattenEntries(entries), |log + FlattenEntries(entries)|)
            == Outstanding(streams, log, |log|)
    decreases entries
  {
    hide ClassOf, RunTo, TreeMeans, KeyMeans, Flatten, Outstanding;
    match entries
    case NoEntries => assert log + [] == log;
    case PushEntry(front, keySpan, key, value) =>
      EntriesOutstanding(streams, log, below, front);
      RunEntries(streams, log, below, front);
      KeyInBounds(streams, keySpan, key);
      KeyClass(streams, keySpan, key);
      OutstandingOn(streams, log + FlattenEntries(front), AtKey(below), keySpan, AtValue(below));
      TreeOutstanding(streams, log + FlattenEntries(front) + [keySpan], AtValue(below), value);
      Rejoined(log, FlattenEntries(front), [keySpan], Flatten(value));
  }

  // ------------------------------------------------------------------ the longest token

  /** The length of the longest of the first n tokens. */
  ghost function LongestToken(log: seq<Span>, n: nat): nat
    requires n <= |log|
  {
    if n == 0 then 0 else Max(LongestToken(log, n - 1), log[n - 1].end - log[n - 1].start)
  }

  lemma {:induction false} SameLongest(a: seq<Span>, b: seq<Span>, n: nat)
    requires n <= |a| && n <= |b| && forall i :: 0 <= i < n ==> a[i] == b[i]
    ensures LongestToken(a, n) == LongestToken(b, n)
  {
    if n > 0 { SameLongest(a, b, n - 1); }
  }

  lemma LongestOn(log: seq<Span>, s: Span)
    ensures LongestToken(log + [s], |log| + 1) == Max(LongestToken(log, |log|), s.end - s.start)
  {
    SameLongest(log + [s], log, |log|);
  }

  /** No token is longer, and one is as long. */
  lemma {:induction false} LongestIs(log: seq<Span>, n: nat)
    requires n <= |log| && forall i :: 0 <= i < n ==> log[i].start < log[i].end
    ensures forall i :: 0 <= i < n ==> log[i].end - log[i].start <= LongestToken(log, n)
    ensures n > 0 ==> exists i :: 0 <= i < n && log[i].end - log[i].start == LongestToken(log, n)
  {
    if n > 0 { LongestIs(log, n - 1); }
  }

  // ------------------------------------------------------------------ how deep trees go

  ghost function HeightAt(streams: seq<seq<Byte>>, log: seq<Span>, n: nat): nat
    requires n <= |log|
  {
    if RunTo(streams, log, n).Some? then Height(RunTo(streams, log, n).value) else 0
  }

  /** The most containers open behind any of the first n tokens. */
  ghost function Tallest(streams: seq<seq<Byte>>, log: seq<Span>, n: nat): nat
    requires n <= |log|
  {
    if n == 0 then 0 else Max(Tallest(streams, log, n - 1), HeightAt(streams, log, n))
  }

  lemma {:induction false} SameTallest(streams: seq<seq<Byte>>, a: seq<Span>, b: seq<Span>, n: nat)
    requires n <= |a| && n <= |b| && forall i :: 0 <= i < n ==> a[i] == b[i]
    ensures Tallest(streams, a, n) == Tallest(streams, b, n)
  {
    hide RunTo;
    if n > 0 {
      SameTallest(streams, a, b, n - 1);
      RunPrefix(streams, a, b, n);
    }
  }

  lemma TallestCovers(streams: seq<seq<Byte>>, log: seq<Span>, st: Stack)
    requires Reaches(streams, log, st)
    ensures Tallest(streams, log, |log|) >= Height(st)
  {
  }

  lemma TallestOn(streams: seq<seq<Byte>>, log: seq<Span>, st: Stack, s: Span, after: Stack)
    requires Reaches(streams, log, st) && InBounds(streams, s) && Step(st, ClassOf(streams, s)) == Some(after)
    ensures Reaches(streams, log + [s], after)
    ensures Tallest(streams, log + [s], |log| + 1) == Max(Tallest(streams, log, |log|), Height(after))
  {
    hide ClassOf;
    RunOn(streams, log, st, s);
    SameTallest(streams, log + [s], log, |log|);
  }

  lemma SameHeight(st: Stack)
    requires TakesValue(st)
    ensures Height(AfterValue(st)) == Height(st)
  {
  }

  /** Reading a tree opens as many containers at a time as the tree is deep, and no more. */
  lemma {:induction false} TreeTallest(streams: seq<seq<Byte>>, log: seq<Span>, st: Stack, o: Operand)
    requires Reaches(streams, log, st) && TakesValue(st) && TreeMeans(streams, o)
    ensures Tallest(streams, log + Flatten(o), |log + Flatten(o)|)
            == Max(Tallest(streams, log, |log|), Height(st) + Count(o).depth)
    decreases o
  {
    hide ClassOf, LeafMeans, RunTo, ItemsMean, EntriesMean, Tallest;
    TallestCovers(streams, log, st);
    SameHeight(st);
    match o
    case Leaf(span, value) =>
      LeafInBounds(streams, span, value);
      LeafClass(streams, span, value);
      TallestOn(streams, log, st, span, AfterValue(st));
    case Array(open, items, close) =>
      DelimiterClass(streams, open);
      DelimiterClass(streams, close);
      TallestOn(streams, log, st, open, InArray(AfterValue(st)));
      ItemsTallest(streams, log + [open], InArray(AfterValue(st)), items);
      RunItems(streams, log + [open], InArray(AfterValue(st)), items);
      TallestOn(streams, log + [open] + FlattenItems(items), InArray(AfterValue(st)), close, AfterValue(st));
      Rejoined(log, [open], FlattenItems(items), [close]);
    case Dictionary(open, entries, close) =>
      DelimiterClass(streams, open);
      DelimiterClass(streams, close);
      TallestOn(streams, log, st, open, AtKey(AfterValue(st)));
      EntriesTallest(streams, log + [open], AfterValue(st), entries);
      RunEntries(streams, log + [open], AfterValue(st), entries);
      TallestOn(streams, log + [open] + FlattenEntries(entries), AtKey(AfterValue(st)), close, AfterValue(st));
      Rejoined(log, [open], FlattenEntries(entries), [close]);
  }

  lemma {:induction false} ItemsTallest(streams: seq<seq<Byte>>, log: seq<Span>, st: Stack, items: Items)
    requires Reaches(streams, log, st) && (st.InArray? || st.Top?) && ItemsMean(streams, items)
    ensures Tallest(streams, log + FlattenItems(items), |log + FlattenItems(items)|)
            == Max(Tallest(streams, log, |log|), Height(st) + CountItems(items).depth)
    decreases items
  {
    hide RunTo, TreeMeans, Flatten, Tallest, Count;
    TallestCovers(streams, log, st);
    match items
    case NoItems => assert log + [] == log;
    case Push(front, last) =>
      ItemsTallest(streams, log, st, front);
      RunItems(streams, log, st, front);
      SameHeight(st);
      TreeTallest(streams, log + FlattenItems(front), if front.Push? then AfterValue(st) else st, last);
      assert log + (FlattenItems(front) + Flatten(last)) == log + FlattenItems(front) + Flatten(last);
  }

  lemma {:induction false} EntriesTallest(streams: seq<seq<Byte>>, log: seq<Span>, below: Stack, entries: Entries)
    requires Reaches(streams, log, AtKey(below)) && EntriesMean(streams, entries)
    ensures Tallest(streams, log + FlattenEntries(entries), |log + FlattenEntries(entries)|)
            == Max(Tallest(streams, log, |log|), Height(AtKey(below)) + CountEntries(entries).depth)
    decreases entries
  {
    hide ClassOf, RunTo, TreeMeans, KeyMeans, Flatten, Tallest, Count;
    TallestCovers(streams, log, AtKey(below));
    match entries
    case NoEntries => assert log + [] == log;
    case PushEntry(front, keySpan, key, value) =>
      EntriesTallest(streams, log, below, front);
      RunEntries(streams, log, below, front);
      KeyInBounds(streams, keySpan, key);
      KeyClass(streams, keySpan, key);
      TallestOn(streams, log + FlattenEntries(front), AtKey(below), keySpan, AtValue(below));
      TreeTallest(streams, log + FlattenEntries(front) + [keySpan], AtValue(below), value);
      Rejoined(log, FlattenEntries(front), [keySpan], Flatten(value));
  }
}
