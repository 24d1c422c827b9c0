/** Brackets without a stack: which opening bracket is still open behind a prefix of a
    sequence. The planner's q and Q and the plan's Save and Restore actions are read this
    way, and the stacks of the source are proved to agree. */
module Matching {
  import opened Basics

  datatype Mark = Open | Close | Plain

  /** The innermost bracket still open behind the first n marks: a closing bracket takes
      back what its partner opened. */
  function Innermost(marks: seq<Mark>, n: nat): (i: Option<nat>)
    requires n <= |marks|
    ensures i.Some? ==> i.value < n && marks[i.value].Open?
  {
    if n == 0 then None
    else match marks[n - 1]
      case Open => Some(n - 1)
      case Plain => Innermost(marks, n - 1)
      case Close =>
        var partner := Innermost(marks, n - 1);
        if partner.None? then None else Innermost(marks, partner.value)
  }

  /** Number of brackets open behind the first n marks. */
  function Level(marks: seq<Mark>, n: nat): nat
    requires n <= |marks|
  {
    var i := Innermost(marks, n);
    if i.None? then 0 else 1 + Level(marks, i.value)
  }

  /** One more mark. */
  lemma LevelStep(marks: seq<Mark>, n: nat)
    requires n < |marks|
    ensures marks[n].Open? ==> Innermost(marks, n + 1) == Some(n) && Level(marks, n + 1) == Level(marks, n) + 1
    ensures marks[n].Plain? ==> Innermost(marks, n + 1) == Innermost(marks, n) && Level(marks, n + 1) == Level(marks, n)
    ensures marks[n].Close? && Innermost(marks, n).Some? ==>
              && Innermost(marks, n + 1) == Innermost(marks, Innermost(marks, n).value)
              && Level(marks, n + 1) == Level(marks, Innermost(marks, n).value) == Level(marks, n) - 1
  {
  }

  /** Opening minus closing brackets. */
  ghost function Depth(marks: seq<Mark>, n: nat): int
    requires n <= |marks|
  {
    if n == 0 then 0 else Depth(marks, n - 1) + (if marks[n - 1].Open? then 1 else if marks[n - 1].Close? then -1 else 0)
  }

  /** Every closing bracket among the first n marks has a partner. */
  ghost predicate Matched(marks: seq<Mark>, n: nat)
    requires n <= |marks|
  {
    forall k :: 0 <= k < n && marks[k].Close? ==> Innermost(marks, k).Some?
  }

  /** Counting finds the nesting exactly. */
  lemma {:induction false} DepthIsLevel(marks: seq<Mark>, n: nat)
    requires n <= |marks| && Matched(marks, n)
    ensures Depth(marks, n) == Level(marks, n)
  {
    if n > 0 { DepthIsLevel(marks, n - 1); }
  }

  lemma {:induction false} SamePrefix(a: seq<Mark>, b: seq<Mark>, n: nat)
    requires n <= |a| && n <= |b| && forall k :: 0 <= k < n ==> a[k] == b[k]
    ensures Innermost(a, n) == Innermost(b, n) && Level(a, n) == Level(b, n)
  {
    if n > 0 {
      SamePrefix(a, b, n - 1);
      var i := Innermost(a, n - 1);
      if i.Some? { SamePrefix(a, b, i.value); }
    }
  }

  /** Marks i..j hold no bracket. */
  lemma {:induction false} PlainBetween(marks: seq<Mark>, i: nat, j: nat)
    requires i <= j <= |marks| && forall k :: i <= k < j ==> marks[k].Plain?
    ensures Innermost(marks, j) == Innermost(marks, i) && Level(marks, j) == Level(marks, i)
    decreases j
  {
    if i < j { PlainBetween(marks, i, j - 1); }
  }

  /** Bracket i opens at the depth in front of it and stays open up to j. */
  ghost predicate OpenSince(marks: seq<Mark>, i: nat, j: nat)
    requires i < j <= |marks|
  {
    marks[i].Open? && forall k :: i < k <= j ==> Depth(marks, k) > Depth(marks, i)
  }

  /** At one level above the depth in front of an open bracket, that bracket is innermost. */
  lemma {:induction false} InnermostOpen(marks: seq<Mark>, i: nat, j: nat)
    requires i < j <= |marks| && Matched(marks, j) && OpenSince(marks, i, j)
    ensures Innermost(marks, j).Some? && i <= Innermost(marks, j).value
    ensures Depth(marks, j) == Depth(marks, i) + 1 ==> Innermost(marks, j) == Some(i)
    decreases j
  {
    if i < j - 1 {
      InnermostOpen(marks, i, j - 1);
      var m := Innermost(marks, j - 1).value;
      DepthIsLevel(marks, i);
      DepthIsLevel(marks, j - 1);
      DepthIsLevel(marks, j);
      DepthIsLevel(marks, m);
      if m > i { InnermostOpen(marks, i, m); }
    }
    InnermostIsLast(marks, i, j);
  }

  lemma InnermostIsLast(marks: seq<Mark>, i: nat, j: nat)
    requires i < j <= |marks| && Matched(marks, j) && OpenSince(marks, i, j)
    requires Innermost(marks, j).Some? && i <= Innermost(marks, j).value
    ensures Depth(marks, j) == Depth(marks, i) + 1 ==> Innermost(marks, j) == Some(i)
  {
    var m := Innermost(marks, j).value;
    DepthIsLevel(marks, j);
    DepthIsLevel(marks, m);
  }

  /** The bracket in front of which nothing is open, on the way out of position n; n itself
      when nothing is open there. */
  function Outermost(marks: seq<Mark>, n: nat): (o: nat)
    requires n <= |marks|
    ensures o <= n
  {
    var i := Innermost(marks, n);
    if i.None? then n else Outermost(marks, i.value)
  }

  lemma OutermostStep(marks: seq<Mark>, n: nat)
    requires n < |marks|
    ensures marks[n].Open? ==> Outermost(marks, n + 1) == Outermost(marks, n)
    ensures marks[n].Plain? ==>
              Outermost(marks, n + 1) == if Innermost(marks, n).None? then n + 1 else Outermost(marks, n)
    ensures marks[n].Close? && Innermost(marks, n).Some? ==>
              Outermost(marks, n + 1)
              == if Level(marks, n) == 1 then n + 1 else Outermost(marks, n)
    ensures Innermost(marks, n).None? ==> Outermost(marks, n) == n
    ensures Level(marks, n) == 1 ==> Innermost(marks, n) == Some(Outermost(marks, n))
    ensures Level(marks, n) == 0 <==> Innermost(marks, n).None?
  {
    LevelStep(marks, n);
  }
}
