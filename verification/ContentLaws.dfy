/** Which content programs are planned, and why the others are not, spelled by counting
    operators; and which plans the executor runs, spelled by counting actions
    (pdf-rs/content/src/vm.rs, lines 2336-2615, 2924-3108, 3694-4900 and 5867-6237). */
module ContentLaws {
  import opened Basics
  import opened Matching
  import opened VmPlan
  import opened VmExec
  import opened VmSimulation
  import opened GraphicsStack
  import opened ContentMachine

  /** q and Q, BT and ET, BX and EX, BMC or BDC and EMC. */
  datatype Pair = GraphicsPair | TextPair | CompatibilityPair | MarkedPair

  /** Opening minus closing operators of a pair among the first n. */
  function Net(pair: Pair, program: seq<Operator>, n: nat): int
    requires n <= |program|
  {
    if n == 0 then 0
    else Net(pair, program, n - 1) + Change(pair, program[n - 1].kind)
  }

  function Change(pair: Pair, kind: Kind): int {
    match pair
    case GraphicsPair => if kind.SaveGraphics? then 1 else if kind.RestoreGraphics? then -1 else 0
    case TextPair => if kind.BeginText? then 1 else if kind.EndText? then -1 else 0
    case CompatibilityPair => if kind.BeginCompatibility? then 1 else if kind.EndCompatibility? then -1 else 0
    case MarkedPair => if kind.BeginMarked? then 1 else if kind.EndMarked? then -1 else 0
  }

  /** The operator is one the profile has. */
  predicate Supported(cfg: Config, program: seq<Operator>, n: nat)
    requires n < |program|
  {
    match program[n].kind
    case SetTextState => cfg.fonts && cfg.graphicsV2
    case SetFont => cfg.fonts && cfg.graphicsV2
    case SetRenderMode(mode) => cfg.fonts && cfg.graphicsV2 && !(4 <= mode <= 7)
    case MoveText => cfg.fonts && cfg.graphicsV2
    case ShowText => cfg.fonts && cfg.graphicsV2
    case Paint => cfg.graphicsV2
    case SetStyle => cfg.graphicsV2
    case MarkedPoint => false
    case Unknown => Net(CompatibilityPair, program, n) > 0
    case _ => true
  }

  /** The nesting limits leave room for the operator. */
  predicate HasRoom(cfg: Config, program: seq<Operator>, n: nat)
    requires n < |program|
  {
    match program[n].kind
    case SaveGraphics => Net(GraphicsPair, program, n) + Envelope(cfg, program) < cfg.maxGraphicsDepth
    case BeginCompatibility => Net(CompatibilityPair, program, n) < cfg.maxCompatibilityDepth
    case BeginMarked => Net(MarkedPair, program, n) < cfg.maxMarkedDepth
    case _ => true
  }

  /** The operator stands where it may stand. */
  predicate Placed(cfg: Config, program: seq<Operator>, n: nat)
    requires n < |program|
  {
    match program[n].kind
    case RestoreGraphics => Net(GraphicsPair, program, n) > 0
    case BeginText => Net(TextPair, program, n) == 0
    case EndText => Net(TextPair, program, n) == 1
    case MoveText => Net(TextPair, program, n) == 1
    case ShowText =>
      Net(TextPair, program, n) == 1 && Run(cfg, program, n).Some? && Run(cfg, program, n).value.now.font.Some?
    case Paint => Net(TextPair, program, n) == 0
    case EndCompatibility => Net(CompatibilityPair, program, n) > 0
    case EndMarked => Net(MarkedPair, program, n) > 0
    case _ => true
  }

  /** The operand is one the operator can have. */
  predicate Computes(cfg: Config, program: seq<Operator>, n: nat)
    requires n < |program|
  {
    match program[n].kind
    case Concat(_) => Run(cfg, program, n + 1).Some?
    case SetRenderMode(mode) => 0 <= mode <= 7
    case _ => true
  }

  predicate Undisturbed(ruling: Ruling) { !ruling.guard && !ruling.operands && !ruling.planning }

  predicate LawfulAt(cfg: Config, program: seq<Operator>, rulings: seq<Ruling>, n: nat)
    requires n < |program| == |rulings|
  {
    && Undisturbed(rulings[n]) && Supported(cfg, program, n) && HasRoom(cfg, program, n)
    && Placed(cfg, program, n) && Computes(cfg, program, n)
  }

  predicate LawfulTo(cfg: Config, program: seq<Operator>, rulings: seq<Ruling>, n: nat)
    requires n <= |program| == |rulings|
  {
    forall k :: 0 <= k < n ==> LawfulAt(cfg, program, rulings, k)
  }

  predicate Lawful(cfg: Config, program: seq<Operator>, rulings: seq<Ruling>)
    requires |program| == |rulings|
  {
    && Envelope(cfg, program) <= cfg.maxGraphicsDepth && LawfulTo(cfg, program, rulings, |program|)
    && Net(GraphicsPair, program, |program|) == 0 && Net(TextPair, program, |program|) == 0
    && Net(CompatibilityPair, program, |program|) == 0 && Net(MarkedPair, program, |program|) == 0
  }

  // ------------------------------------------------------------------ counting agrees

  lemma {:induction false} NetIsDepth(program: seq<Operator>, n: nat)
    requires n <= |program|
    ensures Net(GraphicsPair, program, n) == Depth(Brackets(program), n)
  {
    if n > 0 { NetIsDepth(program, n - 1); }
  }

  lemma {:induction false} NetIsCount(program: seq<Operator>, n: nat)
    requires n <= |program|
    ensures Net(CompatibilityPair, program, n) == Compatibility(program, n) && Net(MarkedPair, program, n) == Marked(program, n)
  {
    if n > 0 { NetIsCount(program, n - 1); }
  }

  lemma {:induction false} NetIsText(cfg: Config, program: seq<Operator>, rulings: seq<Ruling>, n: nat)
    requires n <= |program| == |rulings| && LegalTo(cfg, program, rulings, n)
    ensures Net(TextPair, program, n) == if InText(program, n) then 1 else 0
  {
    if n > 0 {
      assert Refusal(cfg, program, rulings, n - 1).None?;
      NetIsText(cfg, program, rulings, n - 1);
    }
  }

  /** In front of operator n of a legal prefix everything counted is what is in force. */
  ghost predicate Counted(cfg: Config, program: seq<Operator>, n: nat)
    requires n <= |program|
  {
    && Net(GraphicsPair, program, n) == Saves(program, n) && (Frame(program, n).None? <==> Saves(program, n) == 0)
    && Net(TextPair, program, n) == (if InText(program, n) then 1 else 0)
    && Net(CompatibilityPair, program, n) == Compatibility(program, n) && Net(MarkedPair, program, n) == Marked(program, n)
    && Run(cfg, program, n).Some? && Run(cfg, program, n).value.now.font == TextAt(program, n).font
    && Some(Run(cfg, program, n).value.now.ctm) == CtmAt(cfg, program, n)
  }

  lemma LegalCounted(cfg: Config, program: seq<Operator>, rulings: seq<Ruling>, n: nat)
    requires n <= |program| == |rulings| && LegalTo(cfg, program, rulings, n)
    ensures Counted(cfg, program, n)
  {
    hide Refusal;
    LegalAgrees(cfg, program, rulings, n);
    NetIsDepth(program, n);
    NetIsCount(program, n);
    NetIsText(cfg, program, rulings, n);
    LegalMatched(cfg, program, rulings, n);
    DepthIsLevel(Brackets(program), n);
    hide Stacked, Run, Net, CtmAt, TextAt, InText, Compatibility, Marked, LegalTo, Matched, Depth;
  }

  /** Where everything is counted right, the stages refuse exactly what is not lawful. */
  lemma RefusalIsUnlawful(cfg: Config, program: seq<Operator>, rulings: seq<Ruling>, n: nat)
    requires n < |program| == |rulings| && Counted(cfg, program, n)
    ensures Refusal(cfg, program, rulings, n).None? <==> LawfulAt(cfg, program, rulings, n)
  {
    hide Saves, Frame, TextAt, InText, Compatibility, Marked, Net;
    if program[n].kind.Concat? {
      assert Run(cfg, program, n + 1).Some? <==> CtmAt(cfg, program, n + 1).Some?;
    }
    hide Run, CtmAt;
  }

  lemma {:induction false} LegalIsLawfulTo(cfg: Config, program: seq<Operator>, rulings: seq<Ruling>, n: nat)
    requires n <= |program| == |rulings| && Envelope(cfg, program) <= cfg.maxGraphicsDepth
    ensures LegalTo(cfg, program, rulings, n) <==> LawfulTo(cfg, program, rulings, n)
  {
    hide Refusal, LawfulAt, Counted;
    if n > 0 {
      LegalIsLawfulTo(cfg, program, rulings, n - 1);
      if LegalTo(cfg, program, rulings, n - 1) {
        LegalCounted(cfg, program, rulings, n - 1);
        RefusalIsUnlawful(cfg, program, rulings, n - 1);
      }
    }
  }

  /** The planned programs are those in which, counting operators, everything nests, stands
      where it may, and is left closed; and with which nothing outside interferes. */
  lemma LegalIsLawful(cfg: Config, program: seq<Operator>, rulings: seq<Ruling>)
    requires |program| == |rulings|
    ensures Legal(cfg, program, rulings) <==> Lawful(cfg, program, rulings)
  {
    hide Refusal, LawfulAt;
    if Envelope(cfg, program) <= cfg.maxGraphicsDepth {
      LegalIsLawfulTo(cfg, program, rulings, |program|);
      if LegalTo(cfg, program, rulings, |program|) { LegalCounted(cfg, program, rulings, |program|); }
    }
  }

  // ------------------------------------------------------------------ reasons

  /** What each reason says about the operator it is given for. */
  predicate Due(cfg: Config, program: seq<Operator>, ruling: Ruling, n: nat, reason: Reason)
    requires n < |program|
  {
    var kind := program[n].kind;
    match reason
    case External => !Undisturbed(ruling) || ruling.interrupted
    case Unsupported => !Supported(cfg, program, n)
    case DepthLimit => !HasRoom(cfg, program, n)
    case InvalidOperatorContext => cfg.graphicsV2 && (kind.Paint? || kind.MoveText? || kind.ShowText?) && !Placed(cfg, program, n)
    case InvalidTextObject => (kind.BeginText? || kind.EndText? || kind.ShowText?) && !Placed(cfg, program, n)
    case InvalidGraphicsState => kind.RestoreGraphics? && !Placed(cfg, program, n)
    case InvalidCompatibilityState => kind.EndCompatibility? && !Placed(cfg, program, n)
    case InvalidMarkedContentState => kind.EndMarked? && !Placed(cfg, program, n)
    case InvalidGraphicsParameter => kind.SetRenderMode? && !Computes(cfg, program, n)
    case SceneOverflow => kind.Concat? && !Computes(cfg, program, n)
    case Internal => false
  }

  /** What each reason says about a program whose operators are all lawful. */
  predicate LeftOpen(program: seq<Operator>, reason: Reason) {
    match reason
    case InvalidGraphicsState => Net(GraphicsPair, program, |program|) != 0
    case InvalidTextObject => Net(TextPair, program, |program|) != 0
    case InvalidCompatibilityState => Net(CompatibilityPair, program, |program|) != 0
    case InvalidMarkedContentState => Net(MarkedPair, program, |program|) != 0
    case _ => false
  }

  lemma RefusalIsDue(cfg: Config, program: seq<Operator>, rulings: seq<Ruling>, n: nat, reason: Reason)
    requires n < |program| == |rulings| && Counted(cfg, program, n) && Refusal(cfg, program, rulings, n) == Some(reason)
    ensures Due(cfg, program, rulings[n], n, reason)
  {
    hide Saves, Frame, TextAt, InText, Compatibility, Marked, Net;
    if program[n].kind.Concat? {
      assert Run(cfg, program, n + 1).Some? <==> CtmAt(cfg, program, n + 1).Some?;
    }
    hide Run, CtmAt;
  }

  /** Every refusal is due: it names a fault of the first operator that is not lawful, of
      what a lawful run of operators leaves open, or a Form envelope without room. */
  lemma StopsAreDue(cfg: Config, program: seq<Operator>, rulings: seq<Ruling>, reason: Reason)
    requires |program| == |rulings| && StopsWith(cfg, program, rulings, reason)
    ensures || (Envelope(cfg, program) > cfg.maxGraphicsDepth && reason == DepthLimit)
            || (exists n :: 0 <= n < |program| && LawfulTo(cfg, program, rulings, n) && !LawfulAt(cfg, program, rulings, n)
                            && Due(cfg, program, rulings[n], n, reason))
            || (LawfulTo(cfg, program, rulings, |program|) && LeftOpen(program, reason))
  {
    hide Refusal, LawfulAt, Due;
    if Envelope(cfg, program) <= cfg.maxGraphicsDepth {
      if n :| 0 <= n < |program| && LegalTo(cfg, program, rulings, n) && Refusal(cfg, program, rulings, n) == Some(reason) {
        LegalCounted(cfg, program, rulings, n);
        LegalIsLawfulTo(cfg, program, rulings, n);
        RefusalIsUnlawful(cfg, program, rulings, n);
        RefusalIsDue(cfg, program, rulings, n, reason);
      } else {
        LegalCounted(cfg, program, rulings, |program|);
        LegalIsLawfulTo(cfg, program, rulings, |program|);
      }
    }
  }

  /** A program is refused for one reason only, and never when it is planned. */
  lemma StopsOnce(cfg: Config, program: seq<Operator>, rulings: seq<Ruling>, a: Reason, b: Reason)
    requires |program| == |rulings| && StopsWith(cfg, program, rulings, a) && StopsWith(cfg, program, rulings, b)
    ensures a == b && !Legal(cfg, program, rulings)
  {
    hide Refusal;
    if Envelope(cfg, program) <= cfg.maxGraphicsDepth && !LegalTo(cfg, program, rulings, |program|) {
      var m :| 0 <= m < |program| && LegalTo(cfg, program, rulings, m) && Refusal(cfg, program, rulings, m) == Some(a);
      var n :| 0 <= n < |program| && LegalTo(cfg, program, rulings, n) && Refusal(cfg, program, rulings, n) == Some(b);
      assert m == n;
    }
  }

  // ------------------------------------------------------------------ the recorded depth

  lemma {:induction false} DepthAttained(cfg: Config, program: seq<Operator>, n: nat) returns (k: nat)
    requires n <= |program|
    ensures k <= n && Deepest(cfg, program, n) == Saves(program, k) + Envelope(cfg, program)
  {
    if n == 0 || Deepest(cfg, program, n) != Deepest(cfg, program, n - 1) { k := n; } else { k := DepthAttained(cfg, program, n - 1); }
  }

  /** The recorded depth is the deepest nesting the program reaches, with the envelope. */
  lemma RecordedDepth(cfg: Config, program: seq<Operator>, rulings: seq<Ruling>, plan: Plan)
    requires |program| == |rulings| && Legal(cfg, program, rulings) && IsPlan(cfg, program, rulings, plan)
    ensures forall n :: 0 <= n <= |program| ==> Net(GraphicsPair, program, n) + Envelope(cfg, program) <= plan.maxDepth
    ensures exists n :: 0 <= n <= |program| && Net(GraphicsPair, program, n) + Envelope(cfg, program) == plan.maxDepth
  {
    hide Refusal;
    forall n | 0 <= n <= |program| ensures Net(GraphicsPair, program, n) == Saves(program, n) {
      LegalCounted(cfg, program, rulings, n);
    }
    forall n | 0 <= n <= |program| ensures Net(GraphicsPair, program, n) + Envelope(cfg, program) <= plan.maxDepth {
      DeepestGrows(cfg, program, n, |program|);
    }
    var k := DepthAttained(cfg, program, |program|);
  }

  // ------------------------------------------------------------------ plans without a surprise

  datatype ActionPair = SavePair | TextActions

  /** Opening minus closing actions of a pair among the first m. */
  function Balance(pair: ActionPair, actions: seq<Action>, m: nat): int
    requires m <= |actions|
  {
    if m == 0 then 0
    else
      var a := actions[m - 1];
      var before := Balance(pair, actions, m - 1);
      match pair
      case SavePair => if a.Save? then before + 1 else if a.Restore? then before - 1 else before
      case TextActions => if a.TextBegin? then before + 1 else if a.TextEnd? then before - 1 else before
  }

  function FontActions(actions: seq<Action>, m: nat): nat
    requires m <= |actions|
  {
    if m == 0 then 0 else FontActions(actions, m - 1) + (if actions[m - 1].TextFont? then 1 else 0)
  }

  /** Action m is one the executor expects where it stands. */
  predicate Orderly(cfg: Config, capacity: nat, uses: seq<nat>, actions: seq<Action>, m: nat)
    requires m < |actions|
  {
    match actions[m]
    case Save => cfg.graphicsV2 && Balance(SavePair, actions, m) < capacity
    case Restore => cfg.graphicsV2 && Balance(SavePair, actions, m) > 0
    case TextBegin => Balance(TextActions, actions, m) == 0
    case TextEnd => Balance(TextActions, actions, m) == 1
    case TextSetting => cfg.fonts && cfg.graphicsV2
    case TextFont(source) =>
      cfg.fonts && cfg.graphicsV2 && FontActions(actions, m) < |uses| && uses[FontActions(actions, m)] == source
    case TextRender(mode) => cfg.fonts && cfg.graphicsV2 && 0 <= mode <= 3
    case TextMove => cfg.fonts && cfg.graphicsV2 && Balance(TextActions, actions, m) == 1
    case TextShow(_, _) =>
      && cfg.fonts && cfg.graphicsV2 && Balance(TextActions, actions, m) == 1
      && Playing(actions, m).Some? && Playing(actions, m).value.font.Some?
    case Painting => true
  }

  ghost predicate Tallied(actions: seq<Action>, m: nat)
    requires m <= |actions|
  {
    && Balance(SavePair, actions, m) == Levels(actions, m) && Matched(ActionBrackets(actions), m)
    && Balance(TextActions, actions, m) == (if Active(actions, m) then 1 else 0)
    && FontActions(actions, m) == |FontSources(actions, m)|
  }

  lemma TalliedOn(cfg: Config, capacity: nat, uses: seq<nat>, actions: seq<Action>, m: nat)
    requires m < |actions| && Tallied(actions, m) && !Surprise(cfg, capacity, uses, actions, m)
    ensures Tallied(actions, m + 1)
  {
    OpenedStep(actions, m);
    hide Opened, Levels;
  }

  lemma {:induction false} SmoothTallied(cfg: Config, capacity: nat, uses: seq<nat>, actions: seq<Action>, m: nat)
    requires m <= |actions| && forall k :: 0 <= k < m ==> !Surprise(cfg, capacity, uses, actions, k)
    ensures Tallied(actions, m)
  {
    if m > 0 {
      SmoothTallied(cfg, capacity, uses, actions, m - 1);
      TalliedOn(cfg, capacity, uses, actions, m - 1);
    } else {
      FirstOpen(actions);
      OpenedIsLevel(actions, 0);
    }
  }

  /** Where everything is counted right, the executor is surprised exactly by what is out of
      order. */
  lemma SurpriseIsDisorder(cfg: Config, capacity: nat, uses: seq<nat>, actions: seq<Action>, m: nat)
    requires m < |actions| && Tallied(actions, m)
    ensures Surprise(cfg, capacity, uses, actions, m) <==> !Orderly(cfg, capacity, uses, actions, m)
  {
    PlayerKeeps(actions, m);
    hide Levels, Opened, ParamsAt, Playing, Active, FontSources;
  }

  /** A plan runs without a surprise exactly when, counting actions, it is in order. */
  lemma {:induction false} NoSurpriseIsOrder(cfg: Config, capacity: nat, uses: seq<nat>, actions: seq<Action>, m: nat)
    requires m <= |actions|
    ensures (forall k :: 0 <= k < m ==> !Surprise(cfg, capacity, uses, actions, k))
            <==> (forall k :: 0 <= k < m ==> Orderly(cfg, capacity, uses, actions, k))
  {
    hide Surprise, Orderly;
    if m > 0 {
      NoSurpriseIsOrder(cfg, capacity, uses, actions, m - 1);
      if forall k :: 0 <= k < m - 1 ==> !Surprise(cfg, capacity, uses, actions, k) {
        SmoothTallied(cfg, capacity, uses, actions, m - 1);
        SurpriseIsDisorder(cfg, capacity, uses, actions, m - 1);
      }
    }
  }
}
