/** Forward simulation between planning and running (pdf-rs/content/src/vm.rs, lines
    2336-2615 and 5867-6237): in front of the actions of operator n a run has in force
    exactly what the program has in force in front of operator n, so a plan never surprises
    the executor. */
module VmSimulation {
  import opened Basics
  import opened Matching
  import opened VmPlan
  import opened VmExec

  /** Where the actions of operator n begin. */
  ghost function Pos(cfg: Config, program: seq<Operator>, rulings: seq<Ruling>, n: nat): nat
    requires n <= |program| == |rulings|
  {
    |ActionsTo(cfg, program, rulings, n)|
  }

  /** The actions of the operators stand in order at the front of the plan. */
  ghost predicate Runs(cfg: Config, program: seq<Operator>, rulings: seq<Ruling>, actions: seq<Action>)
    requires |program| == |rulings|
  {
    cfg.Valid() && ActionsTo(cfg, program, rulings, |program|) <= actions
  }

  lemma {:induction false} ActionsGrow(cfg: Config, program: seq<Operator>, rulings: seq<Ruling>, n: nat, m: nat)
    requires n <= m <= |program| == |rulings|
    ensures ActionsTo(cfg, program, rulings, n) <= ActionsTo(cfg, program, rulings, m)
    decreases m
  {
    hide Emitted;
    if n < m { ActionsGrow(cfg, program, rulings, n, m - 1); }
  }

  /** What operator n emits is found at its position. */
  lemma EmittedThere(cfg: Config, program: seq<Operator>, rulings: seq<Ruling>, actions: seq<Action>, n: nat)
    requires n < |program| == |rulings| && Runs(cfg, program, rulings, actions)
    ensures var e := Emitted(cfg, program, rulings, n);
            var p := Pos(cfg, program, rulings, n);
            && Pos(cfg, program, rulings, n + 1) == p + |e| <= |actions|
            && forall k :: 0 <= k < |e| ==> actions[p + k] == e[k]
  {
    hide Emitted;
    ActionsGrow(cfg, program, rulings, n + 1, |program|);
    var a := ActionsTo(cfg, program, rulings, n + 1);
    var e := Emitted(cfg, program, rulings, n);
    assert a == ActionsTo(cfg, program, rulings, n) + e;
    hide ActionsTo;
    forall k | 0 <= k < |e| ensures actions[|a| - |e| + k] == e[k] {
      assert a[|a| - |e| + k] == e[k];
    }
  }

  // ------------------------------------------------------------------ in step

  /** The Save action open where operator n begins: that of its innermost q, or the Form's. */
  ghost function OpenAction(cfg: Config, program: seq<Operator>, rulings: seq<Ruling>, n: nat): Option<nat>
    requires n <= |program| == |rulings|
  {
    if !cfg.graphicsV2 then None
    else if Frame(program, n).Some? then Some(Pos(cfg, program, rulings, Frame(program, n).value))
    else if Envelope(cfg, program) > 0 then Some(0) else None
  }

  ghost predicate InStep(cfg: Config, program: seq<Operator>, rulings: seq<Ruling>, actions: seq<Action>, n: nat)
    requires n <= |program| == |rulings|
  {
    var p := Pos(cfg, program, rulings, n);
    && p <= |actions|
    && Opened(actions, p) == OpenAction(cfg, program, rulings, n)
    && Levels(actions, p) == (if cfg.graphicsV2 then Saves(program, n) + Envelope(cfg, program) else 0)
    && ParamsAt(actions, p) == TextAt(program, n) && Active(actions, p) == InText(program, n)
    && |FontSources(actions, p)| == Fonts(program, n)
    && (!cfg.graphicsV2 ==> TextAt(program, n) == NO_TEXT)
  }

  /** Actions p..q paint: nothing in force changes, and none of them is a surprise. */
  lemma {:induction false} Paints(actions: seq<Action>, p: nat, q: nat)
    requires p <= q <= |actions| && forall m :: p <= m < q ==> actions[m].Painting?
    ensures Opened(actions, q) == Opened(actions, p) && Levels(actions, q) == Levels(actions, p)
    ensures ParamsAt(actions, q) == ParamsAt(actions, p) && Active(actions, q) == Active(actions, p)
    ensures FontSources(actions, q) == FontSources(actions, p)
    decreases q
  {
    hide Opened, Levels;
    if p < q {
      Paints(actions, p, q - 1);
      OpenedStep(actions, q - 1);
    }
  }

  lemma StartInStep(cfg: Config, program: seq<Operator>, rulings: seq<Ruling>, actions: seq<Action>)
    requires |program| == |rulings| && Runs(cfg, program, rulings, actions)
    ensures InStep(cfg, program, rulings, actions, 0)
  {
    ActionsGrow(cfg, program, rulings, 0, |program|);
    if Envelope(cfg, program) > 0 {
      assert actions[0] == ActionsTo(cfg, program, rulings, 0)[0] && actions[1] == ActionsTo(cfg, program, rulings, 0)[1];
      OpenedStep(actions, 0);
      Paints(actions, 1, 2);
    }
  }

  lemma TextInStep(cfg: Config, program: seq<Operator>, rulings: seq<Ruling>, actions: seq<Action>, n: nat)
    requires n < |program| == |rulings| && Runs(cfg, program, rulings, actions)
    requires InStep(cfg, program, rulings, actions, n) && IsText(program[n].kind)
    requires Refusal(cfg, program, rulings, n).None?
    ensures InStep(cfg, program, rulings, actions, n + 1)
  {
    hide Opened, Levels, Frame, Saves, ActionsTo;
    EmittedThere(cfg, program, rulings, actions, n);
    var p := Pos(cfg, program, rulings, n);
    assert actions[p + 0] == Emitted(cfg, program, rulings, n)[0];
    OpenedStep(actions, p);
    FrameStep(cfg, program, n);
  }

  lemma SaveInStep(cfg: Config, program: seq<Operator>, rulings: seq<Ruling>, actions: seq<Action>, n: nat)
    requires n < |program| == |rulings| && Runs(cfg, program, rulings, actions)
    requires InStep(cfg, program, rulings, actions, n) && program[n].kind.SaveGraphics?
    ensures InStep(cfg, program, rulings, actions, n + 1)
  {
    hide Opened, Levels, Frame, Saves, ActionsTo;
    EmittedThere(cfg, program, rulings, actions, n);
    FrameStep(cfg, program, n);
    if cfg.graphicsV2 {
      var p := Pos(cfg, program, rulings, n);
      assert actions[p + 0] == Emitted(cfg, program, rulings, n)[0];
      OpenedStep(actions, p);
    }
  }

  lemma RestoreInStep(cfg: Config, program: seq<Operator>, rulings: seq<Ruling>, actions: seq<Action>, n: nat, i: nat)
    requires n < |program| == |rulings| && Runs(cfg, program, rulings, actions)
    requires InStep(cfg, program, rulings, actions, n) && program[n].kind.RestoreGraphics? && Frame(program, n) == Some(i)
    requires InStep(cfg, program, rulings, actions, i)
    ensures InStep(cfg, program, rulings, actions, n + 1)
  {
    hide Opened, Levels, Frame, Saves, ActionsTo;
    EmittedThere(cfg, program, rulings, actions, n);
    FrameStep(cfg, program, n);
    if cfg.graphicsV2 {
      var p := Pos(cfg, program, rulings, n);
      assert actions[p + 0] == Emitted(cfg, program, rulings, n)[0];
      OpenedStep(actions, p);
    }
  }

  lemma OtherInStep(cfg: Config, program: seq<Operator>, rulings: seq<Ruling>, actions: seq<Action>, n: nat)
    requires n < |program| == |rulings| && Runs(cfg, program, rulings, actions)
    requires InStep(cfg, program, rulings, actions, n)
    requires !IsText(program[n].kind) && Bracket(program[n].kind).Plain?
    ensures InStep(cfg, program, rulings, actions, n + 1)
  {
    hide Opened, Levels, Frame, Saves, ActionsTo;
    EmittedThere(cfg, program, rulings, actions, n);
    FrameStep(cfg, program, n);
    var p, q := Pos(cfg, program, rulings, n), Pos(cfg, program, rulings, n + 1);
    forall m | p <= m < q ensures actions[m].Painting? {
      assert actions[p + (m - p)] == Emitted(cfg, program, rulings, n)[m - p];
    }
    Paints(actions, p, q);
  }

  /** Every operator of a legal program keeps the run in step. */
  lemma {:induction false} LegalInStep(cfg: Config, program: seq<Operator>, rulings: seq<Ruling>, actions: seq<Action>, n: nat)
    requires n <= |program| == |rulings| && Runs(cfg, program, rulings, actions) && LegalTo(cfg, program, rulings, n)
    ensures InStep(cfg, program, rulings, actions, n)
  {
    hide InStep, Runs;
    if n == 0 {
      StartInStep(cfg, program, rulings, actions);
    } else {
      assert Refusal(cfg, program, rulings, n - 1).None?;
      LegalInStep(cfg, program, rulings, actions, n - 1);
      if IsText(program[n - 1].kind) {
        TextInStep(cfg, program, rulings, actions, n - 1);
      } else if program[n - 1].kind.SaveGraphics? {
        SaveInStep(cfg, program, rulings, actions, n - 1);
      } else if program[n - 1].kind.RestoreGraphics? {
        var i := Frame(program, n - 1).value;
        LegalInStep(cfg, program, rulings, actions, i);
        RestoreInStep(cfg, program, rulings, actions, n - 1, i);
      } else {
        OtherInStep(cfg, program, rulings, actions, n - 1);
      }
    }
  }

  // ------------------------------------------------------------------ no surprise

  lemma {:induction false} SourcesGrow(actions: seq<Action>, m: nat, n: nat)
    requires m <= n <= |actions|
    ensures FontSources(actions, m) <= FontSources(actions, n)
    decreases n
  {
    if m < n { SourcesGrow(actions, m, n - 1); }
  }

  lemma {:induction false} DeepestGrows(cfg: Config, program: seq<Operator>, n: nat, m: nat)
    requires n <= m <= |program|
    ensures Saves(program, n) + Envelope(cfg, program) <= Deepest(cfg, program, n) <= Deepest(cfg, program, m)
    decreases m
  {
    if n < m { DeepestGrows(cfg, program, n, m - 1); } else { DeepestCovers(cfg, program, n); }
  }

  /** Action m is no surprise, and if it shows text it does so with the mode in force. */
  ghost predicate Smooth(cfg: Config, capacity: nat, uses: seq<nat>, actions: seq<Action>, m: nat)
    requires m < |actions|
  {
    && !Surprise(cfg, capacity, uses, actions, m)
    && (actions[m].TextShow? ==> actions[m].mode == ParamsAt(actions, m).mode)
  }

  lemma OperatorSmooth(cfg: Config, program: seq<Operator>, rulings: seq<Ruling>, actions: seq<Action>, n: nat, m: nat)
    requires n < |program| == |rulings| && Runs(cfg, program, rulings, actions)
    requires InStep(cfg, program, rulings, actions, n) && Refusal(cfg, program, rulings, n).None?
    requires Pos(cfg, program, rulings, n) <= m < Pos(cfg, program, rulings, n + 1) <= |actions|
    ensures Smooth(cfg, Deepest(cfg, program, |program|), FontSources(actions, |actions|), actions, m)
  {
    hide Surprise, Refusal, InStep, ActionsTo;
    EmittedThere(cfg, program, rulings, actions, n);
    var p := Pos(cfg, program, rulings, n);
    assert actions[p + (m - p)] == Emitted(cfg, program, rulings, n)[m - p];
    if actions[m].Painting? {
      PaintingSmooth(cfg, Deepest(cfg, program, |program|), FontSources(actions, |actions|), actions, m);
    } else {
      assert m == p;
      SourcesGrow(actions, m + 1, |actions|);
      var capacity := Deepest(cfg, program, |program|);
      hide Levels, Saves, Frame, Opened, Deepest, CtmAt;
      InStepFacts(cfg, program, rulings, actions, n);
      if IsText(program[n].kind) {
        TextSmooth(cfg, program, rulings, actions, n, p, capacity);
      } else {
        assert actions[p].Save? || actions[p].Restore?;
        DeepestGrows(cfg, program, n + 1, |program|);
        FrameStep(cfg, program, n);
        BracketSmooth(cfg, program, rulings, actions, n, p, capacity);
      }
    }
  }

  lemma InStepFacts(cfg: Config, program: seq<Operator>, rulings: seq<Ruling>, actions: seq<Action>, n: nat)
    requires n <= |program| == |rulings| && InStep(cfg, program, rulings, actions, n)
    ensures var p := Pos(cfg, program, rulings, n);
            && p <= |actions| && ParamsAt(actions, p) == TextAt(program, n) && Active(actions, p) == InText(program, n)
            && Levels(actions, p) == if cfg.graphicsV2 then Saves(program, n) + Envelope(cfg, program) else 0
  {
  }

  lemma PaintingSmooth(cfg: Config, capacity: nat, uses: seq<nat>, actions: seq<Action>, m: nat)
    requires m < |actions| && actions[m].Painting?
    ensures Smooth(cfg, capacity, uses, actions, m)
  {
  }

  /** The action of a legal text operator. */
  lemma TextSmooth(cfg: Config, program: seq<Operator>, rulings: seq<Ruling>, actions: seq<Action>, n: nat, p: nat,
                   capacity: nat)
    requires n < |program| == |rulings| && IsText(program[n].kind) && Refusal(cfg, program, rulings, n).None?
    requires p < |actions| && Emitted(cfg, program, rulings, n) == [actions[p]]
    requires Active(actions, p) == InText(program, n) && ParamsAt(actions, p) == TextAt(program, n)
    requires FontSources(actions, p + 1) <= FontSources(actions, |actions|)
    ensures Smooth(cfg, capacity, FontSources(actions, |actions|), actions, p)
  {
    hide InText, Active, TextAt, ParamsAt, CtmAt;
  }

  /** The action of a legal q or Q. */
  lemma BracketSmooth(cfg: Config, program: seq<Operator>, rulings: seq<Ruling>, actions: seq<Action>, n: nat, p: nat,
                      capacity: nat)
    requires n < |program| == |rulings| && Refusal(cfg, program, rulings, n).None? && p < |actions|
    requires (program[n].kind.SaveGraphics? && actions[p].Save?) || (program[n].kind.RestoreGraphics? && actions[p].Restore?)
    requires cfg.graphicsV2
    requires Levels(actions, p) == Saves(program, n) + Envelope(cfg, program)
    requires Saves(program, n + 1) + Envelope(cfg, program) <= capacity
    requires program[n].kind.SaveGraphics? ==> Saves(program, n + 1) == Saves(program, n) + 1
    requires program[n].kind.RestoreGraphics? ==> (Saves(program, n) == 0 <==> Frame(program, n).None?)
    ensures Smooth(cfg, capacity, FontSources(actions, |actions|), actions, p)
  {
    hide Levels, Saves, Frame;
  }

  lemma {:induction false} PrefixSmooth(cfg: Config, program: seq<Operator>, rulings: seq<Ruling>, actions: seq<Action>,
                                        n: nat, m: nat)
    requires n <= |program| == |rulings| && Runs(cfg, program, rulings, actions) && LegalTo(cfg, program, rulings, n)
    requires m < Pos(cfg, program, rulings, n) <= |actions|
    ensures Smooth(cfg, Deepest(cfg, program, |program|), FontSources(actions, |actions|), actions, m)
  {
    hide Smooth, InStep, Refusal;
    if n == 0 {
      PrologueSmooth(cfg, program, rulings, actions, m);
    } else {
      assert Refusal(cfg, program, rulings, n - 1).None?;
      LegalInStep(cfg, program, rulings, actions, n - 1);
      if m >= Pos(cfg, program, rulings, n - 1) {
        OperatorSmooth(cfg, program, rulings, actions, n - 1, m);
      } else {
        PrefixSmooth(cfg, program, rulings, actions, n - 1, m);
      }
    }
  }

  lemma PrologueSmooth(cfg: Config, program: seq<Operator>, rulings: seq<Ruling>, actions: seq<Action>, m: nat)
    requires |program| == |rulings| && Runs(cfg, program, rulings, actions)
    requires m < Pos(cfg, program, rulings, 0)
    ensures m < |actions| && Smooth(cfg, Deepest(cfg, program, |program|), FontSources(actions, |actions|), actions, m)
  {
    ActionsGrow(cfg, program, rulings, 0, |program|);
    assert actions[m] == ActionsTo(cfg, program, rulings, 0)[m];
    DeepestGrows(cfg, program, 0, |program|);
  }

  /** The action planned for the text-showing operator n carries the matrix in force there. */
  ghost predicate ShownInForce(cfg: Config, program: seq<Operator>, rulings: seq<Ruling>, actions: seq<Action>, n: nat)
    requires n < |program| == |rulings|
  {
    var p := Pos(cfg, program, rulings, n);
    && p < |actions| && actions[p].TextShow?
    && Some(actions[p].ctm) == CtmAt(cfg, program, n) && actions[p].mode == TextAt(program, n).mode
  }

  lemma {:induction false} LegalCtm(cfg: Config, program: seq<Operator>, rulings: seq<Ruling>, n: nat)
    requires n <= |program| == |rulings| && LegalTo(cfg, program, rulings, n)
    ensures CtmAt(cfg, program, n).Some?
  {
    if n > 0 {
      assert Refusal(cfg, program, rulings, n - 1).None?;
      LegalCtm(cfg, program, rulings, n - 1);
      if program[n - 1].kind.RestoreGraphics? { LegalCtm(cfg, program, rulings, Frame(program, n - 1).value); }
    }
  }

  lemma ShowsInForce(cfg: Config, program: seq<Operator>, rulings: seq<Ruling>, actions: seq<Action>, n: nat)
    requires n < |program| == |rulings| && program[n].kind.ShowText?
    requires Runs(cfg, program, rulings, actions) && LegalTo(cfg, program, rulings, n)
    ensures ShownInForce(cfg, program, rulings, actions, n)
  {
    LegalCtm(cfg, program, rulings, n);
    EmittedThere(cfg, program, rulings, actions, n);
    assert actions[Pos(cfg, program, rulings, n) + 0] == Emitted(cfg, program, rulings, n)[0];
  }

  /** Forward simulation: the plan of a legal program runs to its end without one structural
      surprise, on a parameter stack of the planned depth and with the font uses registered
      from it; every text is shown with the mode and the matrix in force; and the run ends
      outside text objects, with every Save restored and every font use consumed. */
  lemma PlansRun(cfg: Config, program: seq<Operator>, rulings: seq<Ruling>, plan: Plan)
    requires cfg.Valid() && |program| == |rulings| && Legal(cfg, program, rulings) && IsPlan(cfg, program, rulings, plan)
    ensures var uses := FontSources(plan.actions, |plan.actions|);
            && |uses| == plan.fontUses
            && forall m :: 0 <= m < |plan.actions| ==> Smooth(cfg, plan.maxDepth, uses, plan.actions, m)
    ensures forall n :: 0 <= n < |program| && program[n].kind.ShowText? ==> ShownInForce(cfg, program, rulings, plan.actions, n)
    ensures !Active(plan.actions, |plan.actions|) && Opened(plan.actions, |plan.actions|).None?
  {
    hide Surprise, Refusal, ShownInForce;
    var actions, n := plan.actions, |program|;
    var uses := FontSources(actions, |actions|);
    LegalInStep(cfg, program, rulings, actions, n);
    var p := Pos(cfg, program, rulings, n);
    FrameIsOpen(program, n);
    if Envelope(cfg, program) > 0 {
      assert actions[p] == Restore;
      OpenedStep(actions, p);
      EpilogueSmooth(cfg, plan.maxDepth, uses, actions, p);
      FirstOpen(actions);
    }
    hide Smooth;
    forall k | 0 <= k < n && program[k].kind.ShowText? ensures ShownInForce(cfg, program, rulings, actions, k) {
      ShowsInForce(cfg, program, rulings, actions, k);
    }
    forall m | 0 <= m < |actions| ensures Smooth(cfg, plan.maxDepth, uses, actions, m) {
      if m < p { PrefixSmooth(cfg, program, rulings, actions, n, m); }
    }
  }

  lemma FrameIsOpen(program: seq<Operator>, n: nat)
    requires n <= |program|
    ensures Saves(program, n) == 0 <==> Frame(program, n).None?
  {
  }

  lemma FirstOpen(actions: seq<Action>)
    ensures Opened(actions, 0).None?
  {
  }

  lemma EpilogueSmooth(cfg: Config, capacity: nat, uses: seq<nat>, actions: seq<Action>, p: nat)
    requires p < |actions| && actions[p].Restore? && cfg.graphicsV2 && Levels(actions, p) > 0
    ensures Smooth(cfg, capacity, uses, actions, p)
  {
  }

  // ------------------------------------------------------------------ materialization

  /** No action of a plan is a surprise. */
  lemma ActionRuns(cfg: Config, program: seq<Operator>, rulings: seq<Ruling>, plan: Plan, m: nat)
    requires cfg.Valid() && |program| == |rulings| && Legal(cfg, program, rulings) && IsPlan(cfg, program, rulings, plan)
    requires m < |plan.actions|
    ensures !Surprise(cfg, plan.maxDepth, FontSources(plan.actions, |plan.actions|), plan.actions, m)
  {
    hide Surprise, Legal, IsPlan;
    PlansRun(cfg, program, rulings, plan);
    assert Smooth(cfg, plan.maxDepth, FontSources(plan.actions, |plan.actions|), plan.actions, m);
  }

  lemma UsesRegistered(cfg: Config, program: seq<Operator>, rulings: seq<Ruling>, plan: Plan)
    requires cfg.Valid() && |program| == |rulings| && Legal(cfg, program, rulings) && IsPlan(cfg, program, rulings, plan)
    ensures |FontSources(plan.actions, |plan.actions|)| == plan.fontUses
  {
    hide Legal, IsPlan;
    PlansRun(cfg, program, rulings, plan);
  }

  datatype Outcome = Ready(finalCtm: Matrix, fontUses: nat) | Stopped(reason: Reason)

  /** materialize_execution_plan on the plan of a legal program. Only guards, budgets and the
      Scene can still stop it: no structural surprise is reachable. */
  method Materialize(cfg: Config, plan: Plan, guards: seq<bool>, ghost program: seq<Operator>, ghost rulings: seq<Ruling>)
    returns (outcome: Outcome)
    requires cfg.Valid() && |program| == |rulings| && Legal(cfg, program, rulings) && IsPlan(cfg, program, rulings, plan)
    requires |guards| == |plan.actions|
    ensures outcome == if (forall i :: 0 <= i < |guards| ==> guards[i]) then Ready(plan.finalCtm, plan.fontUses)
                       else Stopped(External)
  {
    hide Surprise, Legal, IsPlan, Opened, Levels, ParamsAt, SavedAre, FontSources, Active, IsParams;
    UsesRegistered(cfg, program, rulings, plan);
    var uses := PlanFontResources(plan.actions);
    var text := new TextExecutor(cfg, plan.maxDepth, uses, plan.actions);
    var n := |plan.actions|;
    for i := 0 to n
      invariant forall j :: 0 <= j < i ==> guards[j]
      invariant text.cfg == cfg && text.capacity == plan.maxDepth && text.uses == uses
      invariant text.At(plan.actions, i)
    {
      if !guards[i] {
        return Stopped(External);
      }
      ActionRuns(cfg, program, rulings, plan, i);
      var ok := text.ExecuteAction(plan.actions[i], plan.actions, i);
      if !ok {
        return Stopped(Internal);
      }
    }
    if text.cursor != |uses| {
      return Stopped(Internal);
    }
    return Ready(plan.finalCtm, text.cursor);
  }
}
