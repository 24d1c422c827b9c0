/** Content programs and their plans as machines with an explicit stack (pdf-rs/content/src/vm.rs,
    lines 2336-2615, 2924-3108 and 5867-6237): what a program puts on the page operator by
    operator, what a plan puts there action by action, and that these are the same events in
    the same order, with the same matrix, font and render mode. */
module ContentMachine {
  import opened Basics
  import opened Matching
  import opened VmPlan
  import opened VmExec
  import opened VmSimulation
  import opened GraphicsStack

  /** What a q saves and its Q gives back. */
  datatype Graphics = Graphics(ctm: Matrix, font: Option<nat>, mode: int)

  datatype Machine = Machine(now: Graphics, saved: seq<Graphics>)

  /** What reaches the page. */
  datatype Event = Begins | Ends | Sets | Moves | Shows(look: Graphics) | Paints

  function Last<T>(s: seq<T>): T
    requires s != []
  {
    s[|s| - 1]
  }

  // ------------------------------------------------------------------ programs

  function Step(cfg: Config, s: Machine, op: Operator): Option<Machine> {
    match op.kind
    case SaveGraphics => Some(Machine(s.now, s.saved + [s.now]))
    case RestoreGraphics => if s.saved == [] then None else Some(Machine(Last(s.saved), s.saved[..|s.saved| - 1]))
    case Concat(matrix) =>
      var product := cfg.multiply(s.now.ctm, matrix);
      if product.None? then None else Some(Machine(Graphics(product.value, s.now.font, s.now.mode), s.saved))
    case SetFont => Some(Machine(Graphics(s.now.ctm, Some(op.source), s.now.mode), s.saved))
    case SetRenderMode(mode) => Some(Machine(Graphics(s.now.ctm, s.now.font, mode), s.saved))
    case _ => Some(s)
  }

  /** The machine behind the first n operators; None once a Q has nothing to give back or a
      product overflows. */
  function Run(cfg: Config, program: seq<Operator>, n: nat): Option<Machine>
    requires n <= |program|
  {
    if n == 0 then Some(Machine(Graphics(cfg.initialCtm, None, 0), []))
    else
      var before := Run(cfg, program, n - 1);
      if before.None? then None else Step(cfg, before.value, program[n - 1])
  }

  function Paintings(n: nat): seq<Event> { seq(n, _ => Paints) }

  function Caused(cfg: Config, s: Machine, op: Operator, painted: nat): seq<Event> {
    match op.kind
    case BeginText => [Begins]
    case EndText => [Ends]
    case SetTextState => [Sets]
    case MoveText => [Moves]
    case ShowText => [Shows(s.now)]
    case Paint => Paintings(painted)
    case BeginMarked => if cfg.graphicsV2 then [] else [Paints]
    case EndMarked => if cfg.graphicsV2 then [] else [Paints]
    case _ => []
  }

  function Events(cfg: Config, program: seq<Operator>, rulings: seq<Ruling>, n: nat): seq<Event>
    requires n <= |program| == |rulings|
  {
    if n == 0 || Run(cfg, program, n - 1).None? then []
    else
      Events(cfg, program, rulings, n - 1)
      + Caused(cfg, Run(cfg, program, n - 1).value, program[n - 1], rulings[n - 1].painted)
  }

  // ------------------------------------------------------------------ plans

  datatype Player = Player(font: Option<nat>, mode: int, saved: seq<(Option<nat>, int)>)

  function Play(s: Player, a: Action): Option<Player> {
    match a
    case Save => Some(Player(s.font, s.mode, s.saved + [(s.font, s.mode)]))
    case Restore => if s.saved == [] then None else Some(Player(Last(s.saved).0, Last(s.saved).1, s.saved[..|s.saved| - 1]))
    case TextFont(source) => Some(Player(Some(source), s.mode, s.saved))
    case TextRender(mode) => Some(Player(s.font, mode, s.saved))
    case _ => Some(s)
  }

  function Playing(actions: seq<Action>, m: nat): Option<Player>
    requires m <= |actions|
  {
    if m == 0 then Some(Player(None, 0, []))
    else
      var before := Playing(actions, m - 1);
      if before.None? then None else Play(before.value, actions[m - 1])
  }

  function Put(s: Player, a: Action): seq<Event> {
    match a
    case TextBegin => [Begins]
    case TextEnd => [Ends]
    case TextSetting => [Sets]
    case TextMove => [Moves]
    case TextShow(_, ctm) => [Shows(Graphics(ctm, s.font, s.mode))]
    case Painting => [Paints]
    case _ => []
  }

  function Shown(actions: seq<Action>, m: nat): seq<Event>
    requires m <= |actions|
  {
    if m == 0 || Playing(actions, m - 1).None? then []
    else Shown(actions, m - 1) + Put(Playing(actions, m - 1).value, actions[m - 1])
  }

  // ------------------------------------------------------------------ the stack is the history

  /** The program machine agrees with what is read off the operators: the matrix, the text
      state, and on the stack the machine's state in front of each open q. */
  ghost predicate Agrees(cfg: Config, program: seq<Operator>, n: nat)
    requires n <= |program|
  {
    && Run(cfg, program, n).Some?
    && var s := Run(cfg, program, n).value;
    && Some(s.now.ctm) == CtmAt(cfg, program, n) && TextState(s.now.font, s.now.mode) == TextAt(program, n)
    && Stacked(cfg, program, s.saved, Frame(program, n))
  }

  ghost predicate Stacked(cfg: Config, program: seq<Operator>, saved: seq<Graphics>, frame: Option<nat>)
    requires frame.Some? ==> frame.value < |program|
  {
    if frame.None? then saved == []
    else
      var below := Run(cfg, program, frame.value);
      below.Some? && saved == below.value.saved + [below.value.now]
  }

  lemma AgreesOn(cfg: Config, program: seq<Operator>, rulings: seq<Ruling>, n: nat)
    requires n < |program| == |rulings| && Agrees(cfg, program, n) && Refusal(cfg, program, rulings, n).None?
    requires !program[n].kind.RestoreGraphics?
    ensures Agrees(cfg, program, n + 1)
  {
    hide Frame, Saves;
    FrameStep(cfg, program, n);
  }

  /** Q: the machine is back where it was in front of the q. */
  lemma RestoreReturns(cfg: Config, program: seq<Operator>, n: nat, i: nat)
    requires n < |program| && program[n].kind.RestoreGraphics? && Frame(program, n) == Some(i)
    requires Agrees(cfg, program, n) && Agrees(cfg, program, i)
    ensures Run(cfg, program, n + 1) == Run(cfg, program, i) && Agrees(cfg, program, n + 1)
  {
    FrameStep(cfg, program, n);
    hide Frame, Saves;
    var s, below := Run(cfg, program, n).value, Run(cfg, program, i).value;
    assert s.saved[..|s.saved| - 1] == below.saved;
  }

  /** A legal program runs, and the machine has in force what the planner is proved to have. */
  lemma {:induction false} LegalAgrees(cfg: Config, program: seq<Operator>, rulings: seq<Ruling>, n: nat)
    requires n <= |program| == |rulings| && LegalTo(cfg, program, rulings, n)
    ensures Agrees(cfg, program, n)
  {
    hide Refusal;
    if n == 0 {
      NoFrame(program);
    } else {
      assert Refusal(cfg, program, rulings, n - 1).None?;
      LegalAgrees(cfg, program, rulings, n - 1);
      if program[n - 1].kind.RestoreGraphics? {
        RestoreHasFrame(cfg, program, rulings, n - 1);
        var i := Frame(program, n - 1).value;
        LegalAgrees(cfg, program, rulings, i);
        RestoreReturns(cfg, program, n - 1, i);
      } else {
        AgreesOn(cfg, program, rulings, n - 1);
      }
    }
  }

  lemma NoFrame(program: seq<Operator>)
    ensures Frame(program, 0).None?
  {
  }

  lemma RestoreHasFrame(cfg: Config, program: seq<Operator>, rulings: seq<Ruling>, n: nat)
    requires n < |program| == |rulings| && program[n].kind.RestoreGraphics? && Refusal(cfg, program, rulings, n).None?
    ensures Frame(program, n).Some?
  {
  }

  /** The same for plans. */
  ghost predicate Keeps(actions: seq<Action>, m: nat)
    requires m <= |actions|
  {
    && Playing(actions, m).Some?
    && var s := Playing(actions, m).value;
    && TextState(s.font, s.mode) == ParamsAt(actions, m) && Kept(actions, s.saved, Opened(actions, m))
  }

  ghost predicate Kept(actions: seq<Action>, saved: seq<(Option<nat>, int)>, open: Option<nat>)
    requires open.Some? ==> open.value < |actions|
  {
    if open.None? then saved == []
    else
      var below := Playing(actions, open.value);
      below.Some? && saved == below.value.saved + [(below.value.font, below.value.mode)]
  }

  lemma KeepsOn(actions: seq<Action>, m: nat)
    requires m < |actions| && Keeps(actions, m) && !actions[m].Restore?
    ensures Keeps(actions, m + 1)
  {
    hide Opened, Levels;
    OpenedStep(actions, m);
  }

  lemma RestorePlayed(actions: seq<Action>, m: nat, i: nat)
    requires m < |actions| && actions[m].Restore? && Opened(actions, m) == Some(i) && Keeps(actions, m) && Keeps(actions, i)
    ensures Keeps(actions, m + 1)
  {
    OpenedStep(actions, m);
    hide Opened, Levels;
    var s, below := Playing(actions, m).value, Playing(actions, i).value;
    assert s.saved[..|s.saved| - 1] == below.saved;
  }

  lemma {:induction false} PlayerKeeps(actions: seq<Action>, m: nat)
    requires m <= |actions| && Matched(ActionBrackets(actions), m)
    ensures Keeps(actions, m)
  {
    if m == 0 {
      FirstOpen(actions);
    } else {
      PlayerKeeps(actions, m - 1);
      if actions[m - 1].Restore? {
        assert ActionBrackets(actions)[m - 1].Close?;
        var i := Opened(actions, m - 1).value;
        PlayerKeeps(actions, i);
        RestorePlayed(actions, m - 1, i);
      } else {
        KeepsOn(actions, m - 1);
      }
    }
  }

  // ------------------------------------------------------------------ the same events

  /** Painting actions put paintings and nothing else. */
  lemma {:induction false} PaintsShown(actions: seq<Action>, p: nat, q: nat)
    requires p <= q <= |actions| && Playing(actions, p).Some? && forall m :: p <= m < q ==> actions[m].Painting?
    ensures Shown(actions, q) == Shown(actions, p) + Paintings(q - p) && Playing(actions, q) == Playing(actions, p)
    decreases q
  {
    if p < q {
      PaintsShown(actions, p, q - 1);
      assert Paintings(q - p) == Paintings(q - 1 - p) + [Paints];
      assert Put(Playing(actions, q - 1).value, actions[q - 1]) == [Paints];
      hide Paintings, Put;
    } else {
      assert Paintings(0) == [];
    }
  }

  /** What operator n emits puts what it asks for, if machine and player have in force what
      the program has. */
  lemma Translates(cfg: Config, program: seq<Operator>, rulings: seq<Ruling>, n: nat, s: Machine, player: Player)
    requires n < |program| == |rulings| && Some(s.now.ctm) == CtmAt(cfg, program, n)
    requires TextState(s.now.font, s.now.mode) == TextAt(program, n) == TextState(player.font, player.mode)
    ensures var e := Emitted(cfg, program, rulings, n);
            var events := Caused(cfg, s, program[n], rulings[n].painted);
            if |e| == 1 then events == Put(player, e[0])
            else events == Paintings(|e|) && forall k :: 0 <= k < |e| ==> e[k] == Painting
  {
    hide CtmAt, TextAt;
    assert Paintings(1) == [Paints] && Paintings(0) == [];
  }

  lemma EmittedShown(actions: seq<Action>, p: nat, q: nat, e: seq<Action>)
    requires q == p + |e| <= |actions| && Playing(actions, p).Some? && forall k :: 0 <= k < |e| ==> actions[p + k] == e[k]
    requires |e| == 1 || forall k :: 0 <= k < |e| ==> e[k] == Painting
    ensures Shown(actions, q)
            == Shown(actions, p) + (if |e| == 1 then Put(Playing(actions, p).value, e[0]) else Paintings(|e|))
  {
    if |e| == 1 {
      assert actions[p + 0] == e[0];
    } else {
      forall m | p <= m < q ensures actions[m].Painting? { assert actions[p + (m - p)] == e[m - p]; }
      PaintsShown(actions, p, q);
    }
  }

  /** The events of operator n are put by its actions. */
  lemma OperatorShown(cfg: Config, program: seq<Operator>, rulings: seq<Ruling>, actions: seq<Action>, n: nat)
    requires n < |program| == |rulings| && Runs(cfg, program, rulings, actions) && Agrees(cfg, program, n)
    requires InStep(cfg, program, rulings, actions, n) && Keeps(actions, Pos(cfg, program, rulings, n))
    ensures var p, q := Pos(cfg, program, rulings, n), Pos(cfg, program, rulings, n + 1);
            && p <= q <= |actions|
            && Shown(actions, q)
               == Shown(actions, p) + Caused(cfg, Run(cfg, program, n).value, program[n], rulings[n].painted)
  {
    EmittedThere(cfg, program, rulings, actions, n);
    var p, q := Pos(cfg, program, rulings, n), Pos(cfg, program, rulings, n + 1);
    var e := Emitted(cfg, program, rulings, n);
    InStepFacts(cfg, program, rulings, actions, n);
    hide InStep, Runs, Pos, ActionsTo, ParamsAt, Active, Levels, Saves, Kept, Stacked, Run, CtmAt, TextAt, Emitted, Caused, Put,
         Shown, Playing, Opened, Frame;
    Translates(cfg, program, rulings, n, Run(cfg, program, n).value, Playing(actions, p).value);
    EmittedShown(actions, p, q, e);
  }

  lemma {:induction false} EventsShown(cfg: Config, program: seq<Operator>, rulings: seq<Ruling>, actions: seq<Action>, n: nat)
    requires n <= |program| == |rulings| && Runs(cfg, program, rulings, actions) && LegalTo(cfg, program, rulings, n)
    requires Matched(ActionBrackets(actions), |actions|)
    ensures Pos(cfg, program, rulings, n) <= |actions|
    ensures Shown(actions, Pos(cfg, program, rulings, n))
            == Paintings(Envelope(cfg, program)) + Events(cfg, program, rulings, n)
  {
    hide InStep, Agrees, Keeps, Refusal, Caused, Runs, Pos, Shown;
    if n == 0 {
      PrologueShown(cfg, program, rulings, actions);
    } else {
      EventsShown(cfg, program, rulings, actions, n - 1);
      StepShown(cfg, program, rulings, actions, n - 1);
    }
  }

  lemma StepShown(cfg: Config, program: seq<Operator>, rulings: seq<Ruling>, actions: seq<Action>, n: nat)
    requires n < |program| == |rulings| && Runs(cfg, program, rulings, actions) && LegalTo(cfg, program, rulings, n)
    requires Matched(ActionBrackets(actions), |actions|) && Pos(cfg, program, rulings, n) <= |actions|
    ensures Run(cfg, program, n).Some? && Pos(cfg, program, rulings, n + 1) <= |actions|
    ensures Shown(actions, Pos(cfg, program, rulings, n + 1))
            == Shown(actions, Pos(cfg, program, rulings, n))
               + Caused(cfg, Run(cfg, program, n).value, program[n], rulings[n].painted)
  {
    LegalAgrees(cfg, program, rulings, n);
    LegalInStep(cfg, program, rulings, actions, n);
    PlayerKeeps(actions, Pos(cfg, program, rulings, n));
    OperatorShown(cfg, program, rulings, actions, n);
  }

  lemma PrologueShown(cfg: Config, program: seq<Operator>, rulings: seq<Ruling>, actions: seq<Action>)
    requires |program| == |rulings| && Runs(cfg, program, rulings, actions)
    ensures Pos(cfg, program, rulings, 0) <= |actions|
    ensures Shown(actions, Pos(cfg, program, rulings, 0)) == Paintings(Envelope(cfg, program))
  {
    ActionsGrow(cfg, program, rulings, 0, |program|);
    if Envelope(cfg, program) > 0 {
      assert actions[0] == ActionsTo(cfg, program, rulings, 0)[0] && actions[1] == ActionsTo(cfg, program, rulings, 0)[1];
      assert Shown(actions, 1) == [];
      PaintsShown(actions, 1, 2);
    }
  }

  /** What a plan puts on the page is what the program asks for, event by event: text is
      shown with the matrix, the font and the render mode that an interpreter with a stack
      has in force; a Form adds the painting of its envelope in front. The plan's final
      matrix is the interpreter's, and nothing is left on either stack. */
  lemma PlanShowsProgram(cfg: Config, program: seq<Operator>, rulings: seq<Ruling>, plan: Plan)
    requires cfg.Valid() && |program| == |rulings| && Legal(cfg, program, rulings) && IsPlan(cfg, program, rulings, plan)
    ensures Shown(plan.actions, |plan.actions|)
            == Paintings(Envelope(cfg, program)) + Events(cfg, program, rulings, |program|)
    ensures Run(cfg, program, |program|).Some? && Playing(plan.actions, |plan.actions|).Some?
    ensures Run(cfg, program, |program|).value.now.ctm == plan.finalCtm
    ensures Run(cfg, program, |program|).value.saved == [] && Playing(plan.actions, |plan.actions|).value.saved == []
  {
    var actions, n := plan.actions, |program|;
    PlanMatched(cfg, program, rulings, plan);
    EventsShown(cfg, program, rulings, actions, n);
    LegalAgrees(cfg, program, rulings, n);
    FrameIsOpen(program, n);
    PlayerKeeps(actions, |actions|);
    PlayerKeeps(actions, Pos(cfg, program, rulings, n));
    hide Events, Refusal, Kept, Opened;
    EpilogueShown(cfg, program, rulings, actions);
  }

  lemma PlanMatched(cfg: Config, program: seq<Operator>, rulings: seq<Ruling>, plan: Plan)
    requires cfg.Valid() && |program| == |rulings| && Legal(cfg, program, rulings) && IsPlan(cfg, program, rulings, plan)
    ensures Matched(ActionBrackets(plan.actions), |plan.actions|) && Opened(plan.actions, |plan.actions|).None?
  {
    hide Smooth, ShownInForce, Legal, IsPlan;
    PlansRun(cfg, program, rulings, plan);
    OpenedIsMatched(cfg, plan.maxDepth, FontSources(plan.actions, |plan.actions|), plan.actions, |plan.actions|);
  }

  lemma EpilogueShown(cfg: Config, program: seq<Operator>, rulings: seq<Ruling>, actions: seq<Action>)
    requires |program| == |rulings| && Playing(actions, |actions|).Some?
    requires actions == ActionsTo(cfg, program, rulings, |program|) + (if Envelope(cfg, program) > 0 then [Restore] else [])
    ensures Pos(cfg, program, rulings, |program|) <= |actions|
    ensures Shown(actions, |actions|) == Shown(actions, Pos(cfg, program, rulings, |program|))
  {
    hide ActionsTo;
    var p := Pos(cfg, program, rulings, |program|);
    if p < |actions| {
      assert actions[p] == Restore && p + 1 == |actions|;
      NothingPut(actions, p);
    }
  }

  lemma NothingPut(actions: seq<Action>, p: nat)
    requires p < |actions| && actions[p].Restore?
    requires Playing(actions, p + 1).Some?
    ensures Shown(actions, p + 1) == Shown(actions, p)
  {
  }
}
