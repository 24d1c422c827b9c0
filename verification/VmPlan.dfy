/** Content VM planning (pdf-rs/content/src/vm.rs, lines 2336-2615, 2924-3108, 3114-5024):
    the structural part of build_execution_plan. What is in force at a position of a program
    is read off the operators in front of it, without a stack: behind a Q things are as they
    were in front of its q. The class has the source's stacks, flags and counters, and is
    proved to accept exactly the legal programs and to plan what is in force.

    GraphicsVm is a stack of matrices, painting emits arbitrary actions that are neither
    Save, Restore nor text, and whatever else can end a run (limits, fuel, operand shapes,
    documents, cancellation) is a ruling on each operator that says at which stage. */
module VmPlan {
  import opened Basics
  import opened Matching

  /** A transformation matrix; how two of them multiply, and when that overflows, is the
      Scene's business. */
  datatype Matrix = Matrix(entries: seq<int>)

  /** Actions of a plan. */
  datatype Action =
    | Save
    | Restore
    | TextBegin
    | TextEnd
    | TextSetting
    | TextFont(source: nat)
    | TextRender(mode: int)
    | TextMove
    | TextShow(mode: int, ctm: Matrix)
    | Painting

  /** Operators by what they do to the planner. */
  datatype Kind =
    | SaveGraphics
    | RestoreGraphics
    | Concat(matrix: Matrix)
    | BeginText
    | EndText
    | SetTextState
    | SetFont
    | SetRenderMode(mode: int)
    | MoveText
    | ShowText
    | BeginCompatibility
    | EndCompatibility
    | BeginMarked
    | EndMarked
    | MarkedPoint
    | Paint
    | SetStyle
    | Unknown

  datatype Operator = Operator(kind: Kind, source: nat)

  /** What lies outside the structural part: whether a guard or an operand of the wrong shape
      ends the run before the context is checked (`guard`), operand conversion or fuel behind
      that check (`operands`), retention or the Scene while the operator is planned
      (`planning`); whether a failure meets a changed source or a cancellation, which it then
      gives way to (`interrupted`); and how many painting actions the operator emits. */
  datatype Ruling = Ruling(guard: bool, operands: bool, planning: bool, interrupted: bool, painted: nat)

  datatype Config = Config(
    graphicsV2: bool, fonts: bool, form: bool, maxGraphicsDepth: nat, maxCompatibilityDepth: nat,
    maxMarkedDepth: nat, initialCtm: Matrix, multiply: (Matrix, Matrix) -> Option<Matrix>)
  {
    /** Forms are only ever executed with the graphics-v2 profile. */
    predicate Valid() { form ==> graphicsV2 }
  }

  datatype Reason =
    | External
    | InvalidGraphicsState
    | InvalidTextObject
    | InvalidOperatorContext
    | InvalidCompatibilityState
    | InvalidMarkedContentState
    | InvalidGraphicsParameter
    | Unsupported
    | DepthLimit
    | SceneOverflow
    | Internal

  datatype Verdict<+T> = Continue(value: T) | Stop(reason: Reason)

  /** The font operator and the render mode in force. */
  datatype TextState = TextState(font: Option<nat>, mode: int)

  const NO_TEXT: TextState := TextState(None, 0)

  datatype Plan = Plan(actions: seq<Action>, finalCtm: Matrix, fontUses: nat, maxDepth: nat)

  function Repeated(n: nat): (a: seq<Action>)
    ensures |a| == n && forall i :: 0 <= i < n ==> a[i] == Painting
  {
    if n == 0 then [] else Repeated(n - 1) + [Painting]
  }

  /** The slot of the implicit Form envelope. */
  function Envelope(cfg: Config, program: seq<Operator>): nat { if cfg.form && program != [] then 1 else 0 }

  predicate IsText(kind: Kind) {
    kind.BeginText? || kind.EndText? || kind.SetTextState? || kind.SetFont? || kind.SetRenderMode?
    || kind.MoveText? || kind.ShowText?
  }

  // ------------------------------------------------------------------ what is in force

  function Bracket(kind: Kind): Mark {
    if kind.SaveGraphics? then Open else if kind.RestoreGraphics? then Close else Plain
  }

  /** The q and Q operators of a program as brackets. */
  function Brackets(program: seq<Operator>): (marks: seq<Mark>)
    ensures |marks| == |program| && forall i :: 0 <= i < |program| ==> marks[i] == Bracket(program[i].kind)
  {
    seq(|program|, i requires 0 <= i < |program| => Bracket(program[i].kind))
  }

  /** The innermost q open in front of operator n. */
  function Frame(program: seq<Operator>, n: nat): (i: Option<nat>)
    requires n <= |program|
    ensures i.Some? ==> i.value < n && program[i.value].kind.SaveGraphics?
  {
    Innermost(Brackets(program), n)
  }

  function Saves(program: seq<Operator>, n: nat): nat
    requires n <= |program|
  {
    Level(Brackets(program), n)
  }

  /** The matrix in front of operator n, unless a product on the way overflowed. */
  function CtmAt(cfg: Config, program: seq<Operator>, n: nat): Option<Matrix>
    requires n <= |program|
  {
    if n == 0 then Some(cfg.initialCtm)
    else if program[n - 1].kind.RestoreGraphics? && Frame(program, n - 1).Some? then
      CtmAt(cfg, program, Frame(program, n - 1).value)
    else if program[n - 1].kind.Concat? then
      var before := CtmAt(cfg, program, n - 1);
      if before.None? then None else cfg.multiply(before.value, program[n - 1].kind.matrix)
    else CtmAt(cfg, program, n - 1)
  }

  /** The font and render mode in front of operator n. */
  function TextAt(program: seq<Operator>, n: nat): TextState
    requires n <= |program|
  {
    if n == 0 then NO_TEXT
    else if program[n - 1].kind.RestoreGraphics? && Frame(program, n - 1).Some? then
      TextAt(program, Frame(program, n - 1).value)
    else if program[n - 1].kind.SetFont? then TextAt(program, n - 1).(font := Some(program[n - 1].source))
    else if program[n - 1].kind.SetRenderMode? then TextAt(program, n - 1).(mode := program[n - 1].kind.mode)
    else TextAt(program, n - 1)
  }

  /** Operator n stands between a BT and its ET. */
  function InText(program: seq<Operator>, n: nat): bool
    requires n <= |program|
  {
    n > 0 && (program[n - 1].kind.BeginText? || (!program[n - 1].kind.EndText? && InText(program, n - 1)))
  }

  function Compatibility(program: seq<Operator>, n: nat): int
    requires n <= |program|
  {
    if n == 0 then 0
    else
      Compatibility(program, n - 1)
      + (if program[n - 1].kind.BeginCompatibility? then 1 else if program[n - 1].kind.EndCompatibility? then -1 else 0)
  }

  function Marked(program: seq<Operator>, n: nat): int
    requires n <= |program|
  {
    if n == 0 then 0
    else Marked(program, n - 1) + (if program[n - 1].kind.BeginMarked? then 1 else if program[n - 1].kind.EndMarked? then -1 else 0)
  }

  function Fonts(program: seq<Operator>, n: nat): nat
    requires n <= |program|
  {
    if n == 0 then 0 else Fonts(program, n - 1) + (if program[n - 1].kind.SetFont? then 1 else 0)
  }

  /** The deepest nesting in front of operator n, the envelope included. */
  function Deepest(cfg: Config, program: seq<Operator>, n: nat): nat
    requires n <= |program|
  {
    if n == 0 then Envelope(cfg, program)
    else Max(Deepest(cfg, program, n - 1), Saves(program, n) + Envelope(cfg, program))
  }

  // ------------------------------------------------------------------ legal programs

  /** validate_operator_context, which only the graphics-v2 profile runs. */
  function WrongContext(cfg: Config, active: bool, kind: Kind): bool {
    cfg.graphicsV2 && (if active then kind.Paint? else kind.MoveText? || kind.ShowText?)
  }

  /** Why operator n cannot stand where it does, given what is in force in front of it. */
  function Structural(cfg: Config, program: seq<Operator>, n: nat): Option<Reason>
    requires n < |program|
  {
    var kind := program[n].kind;
    match kind
    case BeginText => if InText(program, n) then Some(InvalidTextObject) else None
    case EndText => if InText(program, n) then None else Some(InvalidTextObject)
    case SaveGraphics =>
      if Saves(program, n) + 1 + Envelope(cfg, program) > cfg.maxGraphicsDepth then Some(DepthLimit) else None
    case RestoreGraphics => if Frame(program, n).None? then Some(InvalidGraphicsState) else None
    case Concat(_) => if CtmAt(cfg, program, n + 1).None? then Some(SceneOverflow) else None
    case BeginCompatibility =>
      if Compatibility(program, n) >= cfg.maxCompatibilityDepth then Some(DepthLimit) else None
    case EndCompatibility => if Compatibility(program, n) <= 0 then Some(InvalidCompatibilityState) else None
    case BeginMarked => if Marked(program, n) >= cfg.maxMarkedDepth then Some(DepthLimit) else None
    case EndMarked => if Marked(program, n) <= 0 then Some(InvalidMarkedContentState) else None
    case Unknown => if Compatibility(program, n) > 0 then None else Some(Unsupported)
    case MarkedPoint => Some(Unsupported)
    case Paint => if cfg.graphicsV2 then None else Some(Unsupported)
    case SetStyle => if cfg.graphicsV2 then None else Some(Unsupported)
    case _ =>
      if !cfg.fonts || !cfg.graphicsV2 then Some(Unsupported)
      else if kind.SetRenderMode? then
        if kind.mode < 0 || 7 < kind.mode then Some(InvalidGraphicsParameter)
        else if kind.mode > 3 then Some(Unsupported) else None
      else if kind.ShowText? && TextAt(program, n).font.None? then Some(InvalidTextObject)
      else None
  }

  /** Why operator n ends the run, if it does, in the order of the stages. */
  function Refusal(cfg: Config, program: seq<Operator>, rulings: seq<Ruling>, n: nat): Option<Reason>
    requires n < |program| == |rulings|
  {
    var ruling := rulings[n];
    var found :=
      if ruling.guard then Some(External)
      else if WrongContext(cfg, InText(program, n), program[n].kind) then Some(InvalidOperatorContext)
      else if ruling.operands then Some(External)
      else if Structural(cfg, program, n).Some? then Structural(cfg, program, n)
      else if ruling.planning then Some(External)
      else None;
    if found.Some? && ruling.interrupted then Some(External) else found
  }

  /** The first n operators are legal where they stand. */
  ghost predicate LegalTo(cfg: Config, program: seq<Operator>, rulings: seq<Ruling>, n: nat)
    requires n <= |program| == |rulings|
  {
    Envelope(cfg, program) <= cfg.maxGraphicsDepth && forall k :: 0 <= k < n ==> Refusal(cfg, program, rulings, k).None?
  }

  /** What is still open behind the whole program, in the order it is complained about. */
  function Imbalance(program: seq<Operator>): Option<Reason> {
    var n := |program|;
    if Saves(program, n) != 0 then Some(InvalidGraphicsState)
    else if InText(program, n) then Some(InvalidTextObject)
    else if Compatibility(program, n) != 0 then Some(InvalidCompatibilityState)
    else if Marked(program, n) != 0 then Some(InvalidMarkedContentState)
    else None
  }

  /** A program is planned exactly when every operator is legal where it stands and nothing
      is left open. */
  ghost predicate Legal(cfg: Config, program: seq<Operator>, rulings: seq<Ruling>)
    requires |program| == |rulings|
  {
    LegalTo(cfg, program, rulings, |program|) && Imbalance(program).None?
  }

  // ------------------------------------------------------------------ planned actions

  /** What operator n adds to the plan: text is shown with the mode and the matrix in force. */
  function Emitted(cfg: Config, program: seq<Operator>, rulings: seq<Ruling>, n: nat): seq<Action>
    requires n < |program| == |rulings|
  {
    match program[n].kind
    case SaveGraphics => if cfg.graphicsV2 then [Save] else []
    case RestoreGraphics => if cfg.graphicsV2 then [Restore] else []
    case BeginText => [TextBegin]
    case EndText => [TextEnd]
    case SetTextState => [TextSetting]
    case SetFont => [TextFont(program[n].source)]
    case SetRenderMode(mode) => [TextRender(mode)]
    case MoveText => [TextMove]
    case ShowText =>
      var ctm := CtmAt(cfg, program, n);
      [TextShow(TextAt(program, n).mode, if ctm.Some? then ctm.value else cfg.initialCtm)]
    case BeginMarked => if cfg.graphicsV2 then [] else [Painting]
    case EndMarked => if cfg.graphicsV2 then [] else [Painting]
    case Paint => Repeated(rulings[n].painted)
    case _ => []
  }

  function ActionsTo(cfg: Config, program: seq<Operator>, rulings: seq<Ruling>, n: nat): seq<Action>
    requires n <= |program| == |rulings|
  {
    if n == 0 then (if Envelope(cfg, program) > 0 then [Save, Painting] else [])
    else ActionsTo(cfg, program, rulings, n - 1) + Emitted(cfg, program, rulings, n - 1)
  }

  /** The plan of a program: prologue, the operators' actions, epilogue; the matrix in force
      at the end; the font uses; the depth a run will need. */
  ghost predicate IsPlan(cfg: Config, program: seq<Operator>, rulings: seq<Ruling>, plan: Plan)
    requires |program| == |rulings|
  {
    && plan.actions == ActionsTo(cfg, program, rulings, |program|) + (if Envelope(cfg, program) > 0 then [Restore] else [])
    && CtmAt(cfg, program, |program|) == Some(plan.finalCtm)
    && plan.fontUses == Fonts(program, |program|)
    && plan.maxDepth == Deepest(cfg, program, |program|)
  }

  /** The first reason to stop: the envelope, the first illegal operator, what is left open. */
  ghost predicate StopsWith(cfg: Config, program: seq<Operator>, rulings: seq<Ruling>, reason: Reason)
    requires |program| == |rulings|
  {
    || (Envelope(cfg, program) > cfg.maxGraphicsDepth && reason == DepthLimit)
    || (exists n :: 0 <= n < |program| && LegalTo(cfg, program, rulings, n)
                    && Refusal(cfg, program, rulings, n) == Some(reason))
    || (LegalTo(cfg, program, rulings, |program|) && Imbalance(program) == Some(reason))
  }

  // ------------------------------------------------------------------ the planner

  /** The first `len` saved entries are what was in force in front of the open q operators,
      from the innermost one, `frame`, outwards. */
  ghost predicate StackIs(cfg: Config, program: seq<Operator>, saved: seq<Matrix>, savedText: seq<(bool, int)>,
                          len: nat, frame: Option<nat>)
    requires frame.Some? ==> frame.value < |program|
    decreases if frame.Some? then frame.value + 1 else 0
  {
    if frame.None? then len == 0
    else
      && 0 < len <= |saved| && len <= |savedText|
      && Some(saved[len - 1]) == CtmAt(cfg, program, frame.value)
      && IsTextState(savedText[len - 1], TextAt(program, frame.value))
      && StackIs(cfg, program, saved, savedText, len - 1, Frame(program, frame.value))
  }

  /** The planner only remembers whether a font is selected. */
  predicate IsTextState(planned: (bool, int), text: TextState) {
    planned.0 == text.font.Some? && planned.1 == text.mode
  }

  lemma {:induction false} StackSame(cfg: Config, program: seq<Operator>, a: seq<Matrix>, aText: seq<(bool, int)>,
                                     b: seq<Matrix>, bText: seq<(bool, int)>, len: nat, frame: Option<nat>)
    requires frame.Some? ==> frame.value < |program|
    requires StackIs(cfg, program, a, aText, len, frame) && len <= |b| && len <= |bText|
    requires forall k :: 0 <= k < len && k < |a| ==> b[k] == a[k]
    requires forall k :: 0 <= k < len && k < |aText| ==> bText[k] == aText[k]
    ensures StackIs(cfg, program, b, bText, len, frame)
    decreases len
  {
    if frame.Some? { StackSame(cfg, program, a, aText, b, bText, len - 1, Frame(program, frame.value)); }
  }

  /** build_execution_plan, with its mutable stacks and action vector. */
  class Planner {
    const cfg: Config
    var actions: seq<Action>
    var ctm: Matrix
    var saved: seq<Matrix>
    var textActive: bool
    var fontSelected: bool
    var renderMode: int
    var savedText: seq<(bool, int)>
    var compatibility: nat
    var marked: nat
    var fontUses: nat
    var maxDepth: nat

    constructor (cfg: Config)
      ensures this.cfg == cfg && IsNew()
    {
      this.cfg := cfg;
      actions, ctm, saved, textActive, fontSelected, renderMode := [], cfg.initialCtm, [], false, false, 0;
      savedText, compatibility, marked, fontUses, maxDepth := [], 0, 0, 0, 0;
    }

    ghost predicate IsNew()
      reads this
    {
      && actions == [] && ctm == cfg.initialCtm && saved == [] && !textActive && !fontSelected && renderMode == 0
      && savedText == [] && compatibility == 0 && marked == 0 && fontUses == 0 && maxDepth == 0
    }

    /** The planner stands in front of operator n, with everything in force there. */
    ghost predicate At(program: seq<Operator>, rulings: seq<Ruling>, n: nat)
      reads this
    {
      && n <= |program| == |rulings|
      && actions == ActionsTo(cfg, program, rulings, n)
      && Some(ctm) == CtmAt(cfg, program, n) && IsTextState((fontSelected, renderMode), TextAt(program, n))
      && textActive == InText(program, n)
      && compatibility == Compatibility(program, n) && marked == Marked(program, n) && fontUses == Fonts(program, n)
      && maxDepth == Deepest(cfg, program, n)
      && |saved| == |savedText| == Saves(program, n)
      && StackIs(cfg, program, saved, savedText, |saved|, Frame(program, n))
    }

    /** plan_text_operator: refuses exactly what is illegal here, and otherwise leaves what
        is in force behind the operator. */
    method PlanTextOperator(op: Operator, ghost program: seq<Operator>, ghost rulings: seq<Ruling>, ghost n: nat)
      returns (stop: Option<Reason>)
      requires n < |program| && op == program[n] && IsText(op.kind) && At(program, rulings, n)
      modifies this
      ensures stop == Structural(cfg, program, n) && (stop.None? ==> At(program, rulings, n + 1))
    {
      hide Frame, Saves, StackIs, Deepest, CtmAt, Compatibility, Marked;
      FrameStep(cfg, program, n);
      CountStep(program, n);
      if op.kind.BeginText? {
        if textActive {
          return Some(InvalidTextObject);
        }
        actions := actions + [TextBegin];
        textActive := true;
        return None;
      }
      if op.kind.EndText? {
        if !textActive {
          return Some(InvalidTextObject);
        }
        actions := actions + [TextEnd];
        textActive := false;
        return None;
      }
      if !cfg.fonts || !cfg.graphicsV2 {
        return Some(Unsupported);
      }
      var action := TextSetting;
      match op.kind {
        case SetFont =>
          fontUses := fontUses + 1;
          fontSelected := true;
          action := TextFont(op.source);
        case SetRenderMode(mode) =>
          if mode < 0 || mode > 7 {
            return Some(InvalidGraphicsParameter);
          }
          if mode >= 4 {
            return Some(Unsupported);
          }
          renderMode := mode;
          action := TextRender(mode);
        case MoveText => action := TextMove;
        case ShowText =>
          if !fontSelected {
            return Some(InvalidTextObject);
          }
          action := TextShow(renderMode, ctm);
        case _ =>
      }
      actions := actions + [action];
      return None;
    }

    /** q: what is in force becomes the innermost saved entry. */
    method PlanSave(envelope: nat, ghost program: seq<Operator>, ghost rulings: seq<Ruling>, ghost n: nat)
      returns (stop: Option<Reason>)
      requires n < |program| && program[n].kind.SaveGraphics?
      requires At(program, rulings, n) && envelope == Envelope(cfg, program)
      modifies this
      ensures stop == Structural(cfg, program, n) && (stop.None? ==> At(program, rulings, n + 1))
    {
      hide Frame, Saves, StackIs, Compatibility, Marked, Fonts;
      if |saved| + envelope + 1 > cfg.maxGraphicsDepth {
        return Some(DepthLimit);
      }
      FrameStep(cfg, program, n);
      CountStep(program, n);
      StackPushed(cfg, program, saved, savedText, ctm, (fontSelected, renderMode), n);
      if cfg.graphicsV2 {
        actions := actions + [Save];
      }
      saved := saved + [ctm];
      savedText := savedText + [(fontSelected, renderMode)];
      maxDepth := Max(maxDepth, |saved| + envelope);
      return None;
    }

    /** Q: the stacks give back what was in force in front of the matching q. */
    method PlanRestore(ghost program: seq<Operator>, ghost rulings: seq<Ruling>, ghost n: nat)
      returns (stop: Option<Reason>)
      requires n < |program| && program[n].kind.RestoreGraphics? && At(program, rulings, n)
      modifies this
      ensures stop == Structural(cfg, program, n) && (stop.None? ==> At(program, rulings, n + 1))
    {
      hide Frame, Saves, StackIs, Compatibility, Marked, Fonts, CtmAt, TextAt, InText, Deepest, ActionsTo, Emitted;
      FrameStep(cfg, program, n);
      CountStep(program, n);
      RestoreStep(cfg, program, rulings, n);
      if |saved| == 0 {
        return Some(InvalidGraphicsState);
      }
      if |savedText| == 0 {
        return Some(Internal);
      }
      StackPopped(cfg, program, saved, savedText, Frame(program, n).value);
      if cfg.graphicsV2 {
        actions := actions + [Restore];
      }
      ctm, saved := saved[|saved| - 1], saved[..|saved| - 1];
      var text := savedText[|savedText| - 1];
      fontSelected, renderMode, savedText := text.0, text.1, savedText[..|savedText| - 1];
      return None;
    }

    method PlanOtherOperator(op: Operator, ruling: Ruling, ghost program: seq<Operator>, ghost rulings: seq<Ruling>,
                             ghost n: nat)
      returns (stop: Option<Reason>)
      requires n < |program| && op == program[n] && At(program, rulings, n) && ruling == rulings[n]
      requires !IsText(op.kind) && !op.kind.SaveGraphics? && !op.kind.RestoreGraphics?
      modifies this
      ensures stop == Structural(cfg, program, n) && (stop.None? ==> At(program, rulings, n + 1))
    {
      hide Frame, Saves, StackIs, Deepest, TextAt, InText, Fonts;
      FrameStep(cfg, program, n);
      OtherStep(program, n);
      stop := None;
      match op.kind {
        case Concat(matrix) =>
          var product := cfg.multiply(ctm, matrix);
          if product.None? {
            return Some(SceneOverflow);
          }
          ctm := product.value;
        case BeginCompatibility =>
          if compatibility + 1 > cfg.maxCompatibilityDepth {
            return Some(DepthLimit);
          }
          compatibility := compatibility + 1;
        case EndCompatibility =>
          if compatibility == 0 {
            return Some(InvalidCompatibilityState);
          }
          compatibility := compatibility - 1;
        case BeginMarked =>
          if marked + 1 > cfg.maxMarkedDepth {
            return Some(DepthLimit);
          }
          if !cfg.graphicsV2 {
            actions := actions + [Painting];
          }
          marked := marked + 1;
        case EndMarked =>
          if marked == 0 {
            return Some(InvalidMarkedContentState);
          }
          if !cfg.graphicsV2 {
            actions := actions + [Painting];
          }
          marked := marked - 1;
        case Paint =>
          if !cfg.graphicsV2 {
            return Some(Unsupported);
          }
          actions := actions + Repeated(ruling.painted);
        case SetStyle =>
          if !cfg.graphicsV2 {
            return Some(Unsupported);
          }
        case MarkedPoint =>
          return Some(Unsupported);
        case _ =>
          if compatibility == 0 {
            return Some(Unsupported);
          }
      }
    }

    /** One trip round the loop of build_execution_plan. */
    method PlanOperator(op: Operator, ruling: Ruling, envelope: nat, ghost program: seq<Operator>,
                        ghost rulings: seq<Ruling>, ghost n: nat)
      returns (stop: Option<Reason>)
      requires n < |program| && op == program[n] && At(program, rulings, n) && ruling == rulings[n]
      requires envelope == Envelope(cfg, program)
      modifies this
      ensures stop == Refusal(cfg, program, rulings, n) && (stop.None? ==> At(program, rulings, n + 1))
    {
      hide Structural;
      if ruling.guard {
        stop := Some(External);
      } else if WrongContext(cfg, textActive, op.kind) {
        stop := Some(InvalidOperatorContext);
      } else if ruling.operands {
        stop := Some(External);
      } else {
        if IsText(op.kind) {
          stop := PlanTextOperator(op, program, rulings, n);
        } else if op.kind.SaveGraphics? {
          stop := PlanSave(envelope, program, rulings, n);
        } else if op.kind.RestoreGraphics? {
          stop := PlanRestore(program, rulings, n);
        } else {
          stop := PlanOtherOperator(op, ruling, program, rulings, n);
        }
        if stop.None? && ruling.planning {
          stop := Some(External);
        }
      }
      if stop.Some? && ruling.interrupted {
        stop := Some(External);
      }
    }

    /** build_execution_plan on a new planner: it plans exactly the legal programs, the plan
        is what is in force operator by operator, and a refusal names the first reason. */
    method Build(program: seq<Operator>, rulings: seq<Ruling>) returns (plan: Verdict<Plan>)
      requires |program| == |rulings| && IsNew()
      modifies this
      ensures plan.Continue? <==> Legal(cfg, program, rulings)
      ensures plan.Continue? ==> IsPlan(cfg, program, rulings, plan.value)
      ensures plan.Stop? ==> StopsWith(cfg, program, rulings, plan.reason)
    {
      var envelope := Envelope(cfg, program);
      if envelope > cfg.maxGraphicsDepth {
        return Stop(DepthLimit);
      }
      if envelope > 0 {
        actions := [Save, Painting];
        maxDepth := Max(maxDepth, 1);
      }
      for i := 0 to |program|
        invariant At(program, rulings, i) && LegalTo(cfg, program, rulings, i)
      {
        var stop := PlanOperator(program[i], rulings[i], envelope, program, rulings, i);
        if stop.Some? {
          return Stop(stop.value);
        }
      }
      if |saved| != 0 {
        return Stop(InvalidGraphicsState);
      }
      if textActive {
        return Stop(InvalidTextObject);
      }
      if compatibility != 0 {
        return Stop(InvalidCompatibilityState);
      }
      if marked != 0 {
        return Stop(InvalidMarkedContentState);
      }
      if envelope > 0 {
        actions := actions + [Restore];
      }
      return Continue(Plan(actions, ctm, fontUses, maxDepth));
    }
  }

  /** The recorded depth covers every open q. */
  lemma DeepestCovers(cfg: Config, program: seq<Operator>, n: nat)
    requires n <= |program|
    ensures Saves(program, n) + Envelope(cfg, program) <= Deepest(cfg, program, n)
  {
  }

  /** What one operator does to the nesting, and what it leaves in force if it is no bracket,
      no cm. */
  lemma FrameStep(cfg: Config, program: seq<Operator>, n: nat)
    requires n < |program|
    ensures program[n].kind.SaveGraphics? ==>
              Frame(program, n + 1) == Some(n) && Saves(program, n + 1) == Saves(program, n) + 1
    ensures program[n].kind.RestoreGraphics? && Frame(program, n).Some? ==>
              && Frame(program, n + 1) == Frame(program, Frame(program, n).value)
              && Saves(program, n + 1) == Saves(program, n) - 1
              && Deepest(cfg, program, n + 1) == Deepest(cfg, program, n)
    ensures program[n].kind.RestoreGraphics? ==> (Saves(program, n) == 0 <==> Frame(program, n).None?)
    ensures Bracket(program[n].kind).Plain? ==>
              && Frame(program, n + 1) == Frame(program, n) && Saves(program, n + 1) == Saves(program, n)
              && Deepest(cfg, program, n + 1) == Deepest(cfg, program, n)
              && (program[n].kind.Concat? || CtmAt(cfg, program, n + 1) == CtmAt(cfg, program, n))
  {
    LevelStep(Brackets(program), n);
    DeepestCovers(cfg, program, n);
  }

  /** Counters that brackets and text operators leave alone. */
  lemma CountStep(program: seq<Operator>, n: nat)
    requires n < |program| && (!Bracket(program[n].kind).Plain? || IsText(program[n].kind))
    ensures Compatibility(program, n + 1) == Compatibility(program, n) && Marked(program, n + 1) == Marked(program, n)
    ensures !program[n].kind.SetFont? ==> Fonts(program, n + 1) == Fonts(program, n)
  {
  }

  lemma RestoreStep(cfg: Config, program: seq<Operator>, rulings: seq<Ruling>, n: nat)
    requires n < |program| == |rulings| && program[n].kind.RestoreGraphics?
    ensures var before := ActionsTo(cfg, program, rulings, n);
            ActionsTo(cfg, program, rulings, n + 1) == if cfg.graphicsV2 then before + [Restore] else before
    ensures Frame(program, n).Some? ==>
              && CtmAt(cfg, program, n + 1) == CtmAt(cfg, program, Frame(program, n).value)
              && TextAt(program, n + 1) == TextAt(program, Frame(program, n).value)
    ensures InText(program, n + 1) == InText(program, n)
  {
  }

  /** Operators that are neither brackets nor text leave the text state alone. */
  lemma OtherStep(program: seq<Operator>, n: nat)
    requires n < |program| && Bracket(program[n].kind).Plain? && !IsText(program[n].kind)
    ensures TextAt(program, n + 1) == TextAt(program, n) && InText(program, n + 1) == InText(program, n)
    ensures Fonts(program, n + 1) == Fonts(program, n)
  {
  }

  lemma StackPushed(cfg: Config, program: seq<Operator>, saved: seq<Matrix>, savedText: seq<(bool, int)>, ctm: Matrix,
                    text: (bool, int), n: nat)
    requires n < |program| && |saved| == |savedText|
    requires StackIs(cfg, program, saved, savedText, |saved|, Frame(program, n))
    requires Some(ctm) == CtmAt(cfg, program, n) && IsTextState(text, TextAt(program, n))
    ensures StackIs(cfg, program, saved + [ctm], savedText + [text], |saved| + 1, Some(n))
  {
    StackSame(cfg, program, saved, savedText, saved + [ctm], savedText + [text], |saved|, Frame(program, n));
  }

  lemma StackPopped(cfg: Config, program: seq<Operator>, saved: seq<Matrix>, savedText: seq<(bool, int)>, i: nat)
    requires i < |program| && |saved| == |savedText| && StackIs(cfg, program, saved, savedText, |saved|, Some(i))
    ensures 0 < |saved| && Some(saved[|saved| - 1]) == CtmAt(cfg, program, i)
    ensures IsTextState(savedText[|saved| - 1], TextAt(program, i))
    ensures StackIs(cfg, program, saved[..|saved| - 1], savedText[..|saved| - 1], |saved| - 1, Frame(program, i))
  {
    var less := |saved| - 1;
    StackSame(cfg, program, saved, savedText, saved[..less], savedText[..less], less, Frame(program, i));
  }
}
