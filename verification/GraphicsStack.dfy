/** q and Q in legal content programs (pdf-rs/content/src/vm.rs, lines 2924-3108, 3694-4015
    and 4883-4900): a balanced segment leaves no trace, the final matrix depends on top-level
    cm operators alone, and the emitted Save and Restore actions nest. */
module GraphicsStack {
  import opened Basics
  import opened Matching
  import opened VmPlan
  import opened VmExec
  import opened VmSimulation

  lemma LegalMatched(cfg: Config, program: seq<Operator>, rulings: seq<Ruling>, n: nat)
    requires n <= |program| == |rulings| && LegalTo(cfg, program, rulings, n)
    ensures Matched(Brackets(program), n)
  {
    forall k | 0 <= k < n && Brackets(program)[k].Close? ensures Innermost(Brackets(program), k).Some? {
      assert Refusal(cfg, program, rulings, k).None?;
    }
  }

  // ------------------------------------------------------------------ neutrality

  /** Neutrality: operator i is a q, operator j a Q, and counting q against Q the nesting
      between them never falls back to that in front of i until j does it. Behind j the
      matrix, the text state and the open q operators are those in front of i. */
  lemma SaveRestoreNeutral(cfg: Config, program: seq<Operator>, rulings: seq<Ruling>, i: nat, j: nat)
    requires i < j < |program| == |rulings| && LegalTo(cfg, program, rulings, j + 1)
    requires OpenSince(Brackets(program), i, j) && program[j].kind.RestoreGraphics?
    requires Depth(Brackets(program), j + 1) == Depth(Brackets(program), i)
    ensures CtmAt(cfg, program, j + 1) == CtmAt(cfg, program, i) && TextAt(program, j + 1) == TextAt(program, i)
    ensures Frame(program, j + 1) == Frame(program, i) && Saves(program, j + 1) == Saves(program, i)
  {
    LegalMatched(cfg, program, rulings, j + 1);
    InnermostOpen(Brackets(program), i, j);
    LevelStep(Brackets(program), j);
  }

  // ------------------------------------------------------------------ the final matrix

  /** The product of the cm operands outside every q, in order. */
  ghost function TopLevel(cfg: Config, program: seq<Operator>, n: nat): Option<Matrix>
    requires n <= |program|
  {
    if n == 0 then Some(cfg.initialCtm)
    else
      var before := TopLevel(cfg, program, n - 1);
      if program[n - 1].kind.Concat? && Depth(Brackets(program), n - 1) == 0
      then (if before.None? then None else cfg.multiply(before.value, program[n - 1].kind.matrix))
      else before
  }

  /** The matrix in front of the outermost open q is the product of the top-level operands. */
  lemma {:induction false} OutermostCtm(cfg: Config, program: seq<Operator>, n: nat)
    requires n <= |program| && Matched(Brackets(program), n)
    ensures TopLevel(cfg, program, n) == CtmAt(cfg, program, Outermost(Brackets(program), n))
  {
    if n > 0 {
      var marks := Brackets(program);
      OutermostCtm(cfg, program, n - 1);
      DepthIsLevel(marks, n - 1);
      OutermostStep(marks, n - 1);
      hide Outermost, Innermost, Level, Depth;
    }
  }

  /** The final matrix is the product of the top-level cm operands alone, and the program's
      q and Q operators balance. */
  lemma FinalCtmIsTopLevel(cfg: Config, program: seq<Operator>, rulings: seq<Ruling>, plan: Plan)
    requires |program| == |rulings| && Legal(cfg, program, rulings) && IsPlan(cfg, program, rulings, plan)
    ensures TopLevel(cfg, program, |program|) == Some(plan.finalCtm)
    ensures Depth(Brackets(program), |program|) == 0
    ensures forall n :: 0 <= n <= |program| ==> Depth(Brackets(program), n) >= 0
  {
    var marks := Brackets(program);
    LegalMatched(cfg, program, rulings, |program|);
    OutermostCtm(cfg, program, |program|);
    FrameIsOpen(program, |program|);
    forall n | 0 <= n <= |program| ensures Depth(marks, n) == Level(marks, n) { DepthIsLevel(marks, n); }
  }

  // ------------------------------------------------------------------ nesting of actions

  lemma {:induction false} LevelsBounded(cfg: Config, capacity: nat, uses: seq<nat>, actions: seq<Action>, n: nat)
    requires n <= |actions| && forall m :: 0 <= m < n ==> Smooth(cfg, capacity, uses, actions, m)
    ensures Matched(ActionBrackets(actions), n) && Levels(actions, n) <= capacity
  {
    hide Levels, Opened;
    OpenedIsMatched(cfg, capacity, uses, actions, n);
    if n > 0 {
      LevelsBounded(cfg, capacity, uses, actions, n - 1);
      assert Smooth(cfg, capacity, uses, actions, n - 1);
      OpenedStep(actions, n - 1);
    } else {
      FirstOpen(actions);
      OpenedIsLevel(actions, 0);
    }
  }

  lemma OpenedIsLevel(actions: seq<Action>, n: nat)
    requires n <= |actions|
    ensures Levels(actions, n) == 0 <==> Opened(actions, n).None?
  {
  }

  lemma OpenedIsMatched(cfg: Config, capacity: nat, uses: seq<nat>, actions: seq<Action>, n: nat)
    requires n <= |actions| && forall m :: 0 <= m < n ==> Smooth(cfg, capacity, uses, actions, m)
    ensures Matched(ActionBrackets(actions), n)
  {
    forall k | 0 <= k < n && ActionBrackets(actions)[k].Close? ensures Innermost(ActionBrackets(actions), k).Some? {
      assert Smooth(cfg, capacity, uses, actions, k);
    }
  }

  lemma {:induction false} DepthLimited(cfg: Config, program: seq<Operator>, rulings: seq<Ruling>, n: nat)
    requires n <= |program| == |rulings| && LegalTo(cfg, program, rulings, n)
    ensures Deepest(cfg, program, n) <= cfg.maxGraphicsDepth
  {
    if n > 0 {
      DepthLimited(cfg, program, rulings, n - 1);
      assert Refusal(cfg, program, rulings, n - 1).None?;
      FrameStep(cfg, program, n - 1);
    }
  }

  /** The Save and Restore actions of every plan are well nested and balanced, never deeper
      than the recorded depth, and that depth respects the limit. */
  lemma PlansNest(cfg: Config, program: seq<Operator>, rulings: seq<Ruling>, plan: Plan)
    requires cfg.Valid() && |program| == |rulings| && Legal(cfg, program, rulings) && IsPlan(cfg, program, rulings, plan)
    ensures forall n :: 0 <= n <= |plan.actions| ==> 0 <= Depth(ActionBrackets(plan.actions), n) <= plan.maxDepth
    ensures Depth(ActionBrackets(plan.actions), |plan.actions|) == 0
    ensures plan.maxDepth <= cfg.maxGraphicsDepth
  {
    hide Smooth, Refusal;
    PlansRun(cfg, program, rulings, plan);
    DepthLimited(cfg, program, rulings, |program|);
    var actions := plan.actions;
    var uses := FontSources(actions, |actions|);
    forall n | 0 <= n <= |actions| ensures Depth(ActionBrackets(actions), n) == Levels(actions, n) <= plan.maxDepth {
      LevelsBounded(cfg, plan.maxDepth, uses, actions, n);
      DepthIsLevel(ActionBrackets(actions), n);
    }
    OpenedIsLevel(actions, |actions|);
  }
}
