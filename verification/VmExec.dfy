/** Running a content plan (pdf-rs/content/src/vm.rs, lines 2219-2296, 5064-5330 and
    5867-6237): the text executor, which treats every structural surprise as an internal
    error, and why no plan of a legal program can surprise it. What is in force at a position
    of a plan is read off the actions in front of it, as for programs; the executor's stack
    is proved to agree. */
module VmExec {
  import opened Basics
  import opened Matching
  import opened VmPlan

  // ------------------------------------------------------------------ what is in force in a plan

  function ActionBracket(a: Action): Mark { if a.Save? then Open else if a.Restore? then Close else Plain }

  /** The Save and Restore actions of a plan as brackets. */
  function ActionBrackets(actions: seq<Action>): (marks: seq<Mark>)
    ensures |marks| == |actions| && forall i :: 0 <= i < |actions| ==> marks[i] == ActionBracket(actions[i])
  {
    seq(|actions|, i requires 0 <= i < |actions| => ActionBracket(actions[i]))
  }

  /** The innermost Save open in front of action m. */
  function Opened(actions: seq<Action>, m: nat): (i: Option<nat>)
    requires m <= |actions|
    ensures i.Some? ==> i.value < m && actions[i.value].Save?
  {
    Innermost(ActionBrackets(actions), m)
  }

  function Levels(actions: seq<Action>, m: nat): nat
    requires m <= |actions|
  {
    Level(ActionBrackets(actions), m)
  }

  /** The font and render mode a run of the plan has set in front of action m. */
  function ParamsAt(actions: seq<Action>, m: nat): TextState
    requires m <= |actions|
  {
    if m == 0 then NO_TEXT
    else if actions[m - 1].Restore? && Opened(actions, m - 1).Some? then ParamsAt(actions, Opened(actions, m - 1).value)
    else if actions[m - 1].TextFont? then ParamsAt(actions, m - 1).(font := Some(actions[m - 1].source))
    else if actions[m - 1].TextRender? then ParamsAt(actions, m - 1).(mode := actions[m - 1].mode)
    else ParamsAt(actions, m - 1)
  }

  function Active(actions: seq<Action>, m: nat): bool
    requires m <= |actions|
  {
    m > 0 && (actions[m - 1].TextBegin? || (!actions[m - 1].TextEnd? && Active(actions, m - 1)))
  }

  /** The sources of the font uses among the first m actions: what plan_font_resources
      registers, in this order. */
  function FontSources(actions: seq<Action>, m: nat): (uses: seq<nat>)
    requires m <= |actions|
    ensures |uses| <= m
  {
    if m == 0 then []
    else if actions[m - 1].TextFont? then FontSources(actions, m - 1) + [actions[m - 1].source]
    else FontSources(actions, m - 1)
  }

  /** Action m would be a structural surprise: a full or empty parameter stack, mismatched
      boundaries, positioning or showing outside a text object, a font use that is not the
      next registered one, text without a font, a render mode outside 0..3. */
  predicate Surprise(cfg: Config, capacity: nat, uses: seq<nat>, actions: seq<Action>, m: nat)
    requires m < |actions|
  {
    match actions[m]
    case Save => !cfg.graphicsV2 || Levels(actions, m) >= capacity
    case Restore => !cfg.graphicsV2 || Levels(actions, m) == 0
    case Painting => false
    case TextBegin => Active(actions, m)
    case TextEnd => !Active(actions, m)
    case TextSetting => !cfg.fonts || !cfg.graphicsV2
    case TextFont(source) =>
      !cfg.fonts || !cfg.graphicsV2
      || |FontSources(actions, m)| >= |uses| || uses[|FontSources(actions, m)|] != source
    case TextRender(mode) => !cfg.fonts || !cfg.graphicsV2 || mode < 0 || mode > 3
    case TextMove => !cfg.fonts || !cfg.graphicsV2 || !Active(actions, m)
    case TextShow(_, _) => !cfg.fonts || !cfg.graphicsV2 || !Active(actions, m) || ParamsAt(actions, m).font.None?
  }

  // ------------------------------------------------------------------ the executor

  /** The loop of plan_font_resources: the uses it registers, in plan order. */
  method PlanFontResources(actions: seq<Action>) returns (uses: seq<nat>)
    ensures uses == FontSources(actions, |actions|)
  {
    uses := [];
    for i := 0 to |actions|
      invariant uses == FontSources(actions, i)
    {
      if actions[i].TextFont? {
        uses := uses + [actions[i].source];
      }
    }
  }

  /** Text parameters that matter to the structure: the font use in force and the mode. */
  datatype Params = Params(font: Option<nat>, mode: int)

  /** The executor's font is a registered use of the font in force. */
  predicate IsParams(uses: seq<nat>, p: Params, text: TextState) {
    && p.mode == text.mode && p.font.Some? == text.font.Some?
    && (p.font.Some? ==> p.font.value < |uses| && Some(uses[p.font.value]) == text.font)
  }

  /** The first `len` saved parameters are those in force in front of the open Saves, from
      the innermost one outwards. */
  ghost predicate SavedAre(uses: seq<nat>, actions: seq<Action>, saved: seq<Params>, len: nat, open: Option<nat>)
    requires open.Some? ==> open.value < |actions|
    decreases if open.Some? then open.value + 1 else 0
  {
    if open.None? then len == 0
    else
      && 0 < len <= |saved| && IsParams(uses, saved[len - 1], ParamsAt(actions, open.value))
      && SavedAre(uses, actions, saved, len - 1, Opened(actions, open.value))
  }

  lemma {:induction false} SavedSame(uses: seq<nat>, actions: seq<Action>, a: seq<Params>, b: seq<Params>, len: nat,
                                     open: Option<nat>)
    requires open.Some? ==> open.value < |actions|
    requires SavedAre(uses, actions, a, len, open) && len <= |b| && forall k :: 0 <= k < len && k < |a| ==> b[k] == a[k]
    ensures SavedAre(uses, actions, b, len, open)
    decreases len
  {
    if open.Some? { SavedSame(uses, actions, a, b, len - 1, Opened(actions, open.value)); }
  }

  /** TextExecutor together with the font runtime's execution cursor. */
  class TextExecutor {
    const cfg: Config
    const capacity: nat
    const uses: seq<nat>
    var params: Params
    var saved: seq<Params>
    var active: bool
    var cursor: nat

    constructor (cfg: Config, capacity: nat, uses: seq<nat>, ghost actions: seq<Action>)
      ensures this.cfg == cfg && this.capacity == capacity && this.uses == uses && At(actions, 0)
    {
      this.cfg, this.capacity, this.uses := cfg, capacity, uses;
      params, saved, active, cursor := Params(None, 0), [], false, 0;
    }

    /** The executor stands in front of action m, with everything in force there. */
    ghost predicate At(actions: seq<Action>, m: nat)
      reads this
    {
      && m <= |actions|
      && IsParams(uses, params, ParamsAt(actions, m)) && active == Active(actions, m)
      && cursor == |FontSources(actions, m)|
      && |saved| == Levels(actions, m) && SavedAre(uses, actions, saved, |saved|, Opened(actions, m))
    }

    method SaveParameters(ghost actions: seq<Action>, ghost m: nat) returns (ok: bool)
      requires m < |actions| && actions[m].Save? && cfg.graphicsV2 && At(actions, m)
      modifies this`saved
      ensures ok <==> !Surprise(cfg, capacity, uses, actions, m)
      ensures ok ==> At(actions, m + 1)
    {
      hide Opened, Levels, SavedAre;
      if |saved| >= capacity {
        return false;
      }
      OpenedStep(actions, m);
      SavedPushed(uses, actions, saved, params, m);
      saved := saved + [params];
      return true;
    }

    method RestoreParameters(ghost actions: seq<Action>, ghost m: nat) returns (ok: bool)
      requires m < |actions| && actions[m].Restore? && cfg.graphicsV2 && At(actions, m)
      modifies this`saved, this`params
      ensures ok <==> !Surprise(cfg, capacity, uses, actions, m)
      ensures ok ==> At(actions, m + 1)
    {
      hide Opened, Levels, SavedAre;
      if |saved| == 0 {
        return false;
      }
      OpenedStep(actions, m);
      SavedPopped(uses, actions, saved, Opened(actions, m).value);
      params := saved[|saved| - 1];
      saved := saved[..|saved| - 1];
      return true;
    }

    method ExecuteBoundary(action: Action, ghost actions: seq<Action>, ghost m: nat) returns (ok: bool)
      requires m < |actions| && action == actions[m] && (action.TextBegin? || action.TextEnd?) && At(actions, m)
      modifies this`active
      ensures ok <==> !Surprise(cfg, capacity, uses, actions, m)
      ensures ok ==> At(actions, m + 1)
    {
      hide Opened, Levels, SavedAre;
      OpenedStep(actions, m);
      ok := active == action.TextEnd?;
      if ok {
        active := action.TextBegin?;
      }
    }

    /** TextExecutor::execute, for the actions that are no boundaries. */
    method Execute(action: Action, ghost actions: seq<Action>, ghost m: nat) returns (ok: bool)
      requires m < |actions| && action == actions[m] && At(actions, m)
      requires !action.TextBegin? && !action.TextEnd? && !action.Save? && !action.Restore? && !action.Painting?
      modifies this`params, this`cursor
      ensures ok <==> !Surprise(cfg, capacity, uses, actions, m)
      ensures ok ==> At(actions, m + 1)
    {
      hide Opened, Levels, SavedAre;
      OpenedStep(actions, m);
      if !cfg.fonts || !cfg.graphicsV2 {
        return false;
      }
      if (action.TextMove? || action.TextShow?) && !active {
        return false;
      }
      match action {
        case TextFont(source) =>
          if cursor >= |uses| || uses[cursor] != source {
            return false;
          }
          params := params.(font := Some(cursor));
          cursor := cursor + 1;
        case TextRender(mode) =>
          if mode < 0 || mode > 3 {
            return false;
          }
          params := params.(mode := mode);
        case TextShow(_, _) =>
          if params.font.None? {
            return false;
          }
        case _ =>
      }
      return true;
    }

    /** One action of a plan: it fails exactly on a structural surprise, and otherwise
        leaves in force what the plan has set behind it. */
    method ExecuteAction(action: Action, ghost actions: seq<Action>, ghost m: nat) returns (ok: bool)
      requires m < |actions| && action == actions[m] && At(actions, m)
      modifies this
      ensures ok <==> !Surprise(cfg, capacity, uses, actions, m)
      ensures ok ==> At(actions, m + 1)
    {
      match action {
        case Save =>
          ok := false;
          if cfg.graphicsV2 {
            ok := SaveParameters(actions, m);
          }
        case Restore =>
          ok := false;
          if cfg.graphicsV2 {
            ok := RestoreParameters(actions, m);
          }
        case Painting =>
          OpenedStep(actions, m);
          ok := true;
        case TextBegin => ok := ExecuteBoundary(action, actions, m);
        case TextEnd => ok := ExecuteBoundary(action, actions, m);
        case _ => ok := Execute(action, actions, m);
      }
    }
  }

  lemma OpenedStep(actions: seq<Action>, m: nat)
    requires m < |actions|
    ensures actions[m].Save? ==>
              Opened(actions, m + 1) == Some(m) && Levels(actions, m + 1) == Levels(actions, m) + 1
    ensures ActionBracket(actions[m]).Plain? ==>
              Opened(actions, m + 1) == Opened(actions, m) && Levels(actions, m + 1) == Levels(actions, m)
    ensures actions[m].Restore? && Opened(actions, m).Some? ==>
              && Opened(actions, m + 1) == Opened(actions, Opened(actions, m).value)
              && Levels(actions, m + 1) == Levels(actions, Opened(actions, m).value) == Levels(actions, m) - 1
    ensures Levels(actions, m) == 0 <==> Opened(actions, m).None?
  {
    LevelStep(ActionBrackets(actions), m);
  }

  lemma SavedPushed(uses: seq<nat>, actions: seq<Action>, saved: seq<Params>, p: Params, m: nat)
    requires m < |actions| && SavedAre(uses, actions, saved, |saved|, Opened(actions, m))
    requires IsParams(uses, p, ParamsAt(actions, m))
    ensures SavedAre(uses, actions, saved + [p], |saved| + 1, Some(m))
  {
    SavedSame(uses, actions, saved, saved + [p], |saved|, Opened(actions, m));
  }

  lemma SavedPopped(uses: seq<nat>, actions: seq<Action>, saved: seq<Params>, i: nat)
    requires i < |actions| && SavedAre(uses, actions, saved, |saved|, Some(i))
    ensures 0 < |saved| && IsParams(uses, saved[|saved| - 1], ParamsAt(actions, i))
    ensures SavedAre(uses, actions, saved[..|saved| - 1], |saved| - 1, Opened(actions, i))
  {
    SavedSame(uses, actions, saved, saved[..|saved| - 1], |saved| - 1, Opened(actions, i));
  }
}
