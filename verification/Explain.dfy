/** The points ledger behind one result, backend/arena/rating/explain.py. */
module Explain {
  import opened Wrappers
  import opened Caps
  import opened Params
  import opened RatingTypes
  import opened Modifiers

  datatype LedgerKind =
    Base | Placement | Provisional | Streak | SoftCap | Boosting | Party | Dispersion | Confidence | CapAdjust |
    ZeroFloor | DisplayAdjust

  datatype Fidelity = Exact | Derived | Partial

  const RECONCILE_EPS := 0.000001

  /** The lobby context of a row without persisted cap facts. */
  datatype ExplainState = ExplainState(mu: real, sigma: real, matchesPlayed: int)

  datatype ExplainInput = ExplainInput(
    params: RatingParams,
    placement: int,
    teamCount: int,
    eligible: bool,
    crBefore: real,
    crAfter: real,
    crDelta: real,
    plBaseDeltaMu: real,
    finalDeltaMu: real,
    placementWeight: real,
    placementAmp: real,
    streakMult: real,
    boostingFactor: real,
    partyFactor: real,
    explainVersion: int,
    confidenceCr: Option<real>,
    preCapCrDelta: Option<real>,
    capFacts: Option<CapExplanation>,
    state: Option<ExplainState>,
    lobbyMeanMu: Option<real>,
    gainFloorMult: real)
  {
    predicate Valid() {
      params.softCapScale > 0.0 && params.WellFormed()
    }

    function Chain(): Recorded {
      Recorded(params, crBefore, plBaseDeltaMu, finalDeltaMu, placementWeight, placementAmp, streakMult,
               boostingFactor, partyFactor)
    }
  }

  /** The modifier chain as recorded with a result. */
  datatype Recorded = Recorded(
    params: RatingParams,
    crBefore: real,
    plBaseDeltaMu: real,
    finalDeltaMu: real,
    placementWeight: real,
    placementAmp: real,
    streakMult: real,
    boostingFactor: real,
    partyFactor: real)

  datatype LedgerEntry = LedgerEntry(
    kind: LedgerKind, pdl: real, multiplier: Option<real>, runningTotal: real, exact: bool)

  datatype CapVerdict = CapVerdict(
    active: bool,
    bound: CapBound,
    bounds: Option<Bounds>,
    minGain: Option<real>,
    rawPdl: Option<real>,
    adjustmentPdl: Option<real>,
    mismatchOverride: Option<real>,
    highCrScale: Option<real>,
    compositeWin: Option<real>)

  datatype PdlExplanation = PdlExplanation(
    fidelity: Fidelity,
    crBefore: real,
    crAfter: real,
    crDelta: real,
    placement: int,
    teamCount: int,
    entries: seq<LedgerEntry>,
    cap: CapVerdict,
    residual: real,
    unrecoverable: seq<string>)

  function Unknown(active: bool): CapVerdict {
    CapVerdict(active, NoBound, None, None, None, None, None, None, None)
  }

  function Or<T>(value: Option<T>, default: T): T {
    if value.Some? then value.value else default
  }

  // ---- A ledger is a list of contributions and their prefix sums ----

  datatype Step = Step(kind: LedgerKind, pdl: real, multiplier: Option<real>, exact: bool)

  function Total(steps: seq<Step>): real {
    if steps == [] then 0.0 else Total(steps[..|steps| - 1]) + steps[|steps| - 1].pdl
  }

  function Ledger(steps: seq<Step>): seq<LedgerEntry> {
    seq(|steps|, i requires 0 <= i < |steps| =>
      LedgerEntry(steps[i].kind, steps[i].pdl, steps[i].multiplier, Total(steps[..i + 1]), steps[i].exact))
  }

  lemma LedgerAppends(steps: seq<Step>, s: Step)
    ensures Total(steps + [s]) == Total(steps) + s.pdl
    ensures Ledger(steps + [s])
         == Ledger(steps) + [LedgerEntry(s.kind, s.pdl, s.multiplier, Total(steps) + s.pdl, s.exact)]
  {
    var more := steps + [s];
    assert more[..|steps|] == steps && more[..|more|] == more;
    forall i | 0 <= i < |steps| ensures Ledger(more)[i] == Ledger(steps)[i] {
      assert more[..i + 1] == steps[..i + 1];
    }
  }

  // ---- The contributions of one result ----

  /** The Plackett-Luce step, and what every multiplier in turn makes of it. */
  function Products(c: Recorded): (d: seq<real>)
    requires c.params.softCapScale > 0.0
    ensures |d| == 7
  {
    var d1 := c.plBaseDeltaMu * c.placementWeight;
    var d2 := d1 * c.placementAmp;
    var d3 := d2 * c.streakMult;
    var d4 := d3 * SoftCapFactor(c.crBefore, c.plBaseDeltaMu, c.params);
    var d5 := d4 * c.boostingFactor;
    [c.plBaseDeltaMu, d1, d2, d3, d4, d5, d5 * c.partyFactor]
  }

  /** The share of every multiplier in the step that is left of the Plackett-Luce delta, in points. */
  function Multipliers(c: Recorded): seq<Step>
    requires c.params.softCapScale > 0.0
  {
    var scale, d := c.params.scaleFactor, Products(c);
    [Step(Base, d[0] * scale, None, true),
     Step(Placement, (d[1] - d[0]) * scale, Some(c.placementWeight), true),
     Step(Provisional, (d[2] - d[1]) * scale, Some(c.placementAmp), true),
     Step(Streak, (d[3] - d[2]) * scale, Some(c.streakMult), true),
     Step(SoftCap, (d[4] - d[3]) * scale, Some(SoftCapFactor(c.crBefore, c.plBaseDeltaMu, c.params)), true),
     Step(Boosting, (d[5] - d[4]) * scale, Some(c.boostingFactor), true),
     Step(Party, (d[6] - d[5]) * scale, Some(c.partyFactor), true)]
  }

  function Product(c: Recorded): real
    requires c.params.softCapScale > 0.0
  {
    Products(c)[6]
  }

  /** What the dispersion cap took off the product, in points. */
  function DispersionLoss(c: Recorded): real
    requires c.params.softCapScale > 0.0
  {
    (c.finalDeltaMu - Product(c)) * c.params.scaleFactor
  }

  function ChainSteps(c: Recorded): seq<Step>
    requires c.params.softCapScale > 0.0
  {
    Multipliers(c) + [Step(Dispersion, DispersionLoss(c), None, true)]
  }

  /** How far the cap layer of a row can be told apart. */
  datatype CapStage =
    | Split(steps: seq<Step>, verdict: CapVerdict, fidelity: Fidelity)
    | Lumped(verdict: CapVerdict, missing: seq<string>)

  predicate Near(x: real, y: real) {
    Abs(x - y) < RECONCILE_EPS
  }

  /** The first rule whose outcome the final delta cannot be told from. */
  function Hit(delta: real, bounds: Bounds, floor: real): Option<CapBound> {
    if bounds.Bounded? && Near(delta, bounds.lo) then Some(LossCap)
    else if bounds.Bounded? && Near(delta, bounds.hi) then Some(GainCap)
    else if floor > 0.0 && Near(delta, FloorWithin(floor, bounds)) then Some(MinGainFloor)
    else None
  }

  /** Tier A: the decision replayed on the persisted facts. */
  function Replayed(inp: ExplainInput, cp: CapParams, cf: CapExplanation, post: real, fidelity: Fidelity): CapStage
    requires cp.WellFormed()
  {
    var raw := Or(inp.preCapCrDelta, post + Or(inp.confidenceCr, 0.0));
    var d := DecidePdlCap(raw, inp.placement, inp.teamCount, cf.compositeWin, cf.compositeLoss, cp, cf.gainFloorMult);
    Split([Step(Confidence, Or(inp.confidenceCr, raw - post), None, true), Step(CapAdjust, d.value - raw, None, true)],
          CapVerdict(true, d.bound, Some(d.bounds), Some(d.floor), Some(raw), Some(d.value - raw),
                     Some(cf.mismatchOverride), Some(cf.highCrScale), Some(cf.compositeWin)),
          fidelity)
  }

  /** Tier B: the bounds recomputed from the lobby, and a probe whether the delta sits on one of them. */
  function Probed(
      inp: ExplainInput, cp: CapParams, s: ExplainState, lobbyMean: real, post: real, sigmoid: real -> real): CapStage
    requires cp.WellFormed()
  {
    var ovr := MismatchOverride(s.mu, lobbyMean, s.sigma, s.matchesPlayed, cp);
    var hcs := HighCrScale(inp.crBefore, cp, sigmoid);
    var composite := CompositeWinMult(ovr, hcs, 1.0, cp);
    var bounds := CapBounds(inp.placement, inp.teamCount, composite, 1.0, cp);
    var floor := GainFloor(inp.placement, inp.teamCount, inp.gainFloorMult, cp);
    match Hit(inp.crDelta, bounds, floor)
    case None =>
      Split([Step(Confidence, inp.crDelta - post, None, true), Step(CapAdjust, 0.0, None, true)],
            CapVerdict(true, NoBound, Some(bounds), Some(floor), Some(inp.crDelta), Some(0.0), Some(ovr), Some(hcs),
                       Some(composite)),
            Derived)
    case Some(bound) =>
      Lumped(CapVerdict(true, bound, Some(bounds), Some(floor), None, None, Some(ovr), Some(hcs), Some(composite)), [])
  }

  function CapStageOf(inp: ExplainInput, sigmoid: real -> real): CapStage
    requires inp.Valid()
  {
    var post := Total(ChainSteps(inp.Chain()));
    var fidelity := if inp.explainVersion >= 1 then Exact else Derived;
    if inp.params.caps.None? then
      Split([Step(Confidence, Or(inp.confidenceCr, inp.crDelta - post), None, true)], Unknown(false), fidelity)
    else if inp.capFacts.Some? then Replayed(inp, inp.params.caps.value, inp.capFacts.value, post, fidelity)
    else if inp.state.Some? && inp.lobbyMeanMu.Some? && inp.crAfter > RECONCILE_EPS then
      Probed(inp, inp.params.caps.value, inp.state.value, inp.lobbyMeanMu.value, post, sigmoid)
    else
      Lumped(Unknown(true),
             (if inp.state.None? || inp.lobbyMeanMu.None? then ["cap_bounds"] else [])
             + (if inp.crAfter <= RECONCILE_EPS then ["zero_floor_ambiguity"] else []))
  }

  predicate ZeroFloored(inp: ExplainInput, running: real) {
    inp.crAfter <= RECONCILE_EPS && inp.crBefore + running < 0.0
  }

  /** The last entry: the lump of what cannot be told apart, or the gap the others leave. */
  function ClosingSteps(inp: ExplainInput, lumped: bool, running: real): seq<Step> {
    var gap := inp.crDelta - running;
    if lumped then [Step(DisplayAdjust, gap, None, false)]
    else if Abs(gap) <= RECONCILE_EPS then []
    else if ZeroFloored(inp, running) then [Step(ZeroFloor, gap, None, true)]
    else [Step(DisplayAdjust, gap, None, false)]
  }

  /** Everything that is known of the row before the books are closed. */
  function KnownSteps(inp: ExplainInput, sigmoid: real -> real): seq<Step>
    requires inp.Valid()
  {
    var stage := CapStageOf(inp, sigmoid);
    ChainSteps(inp.Chain()) + (if stage.Split? then stage.steps else [])
  }

  function Closing(inp: ExplainInput, sigmoid: real -> real): seq<Step>
    requires inp.Valid()
  {
    ClosingSteps(inp, CapStageOf(inp, sigmoid).Lumped?, Total(KnownSteps(inp, sigmoid)))
  }

  function Explained(inp: ExplainInput, sigmoid: real -> real): PdlExplanation
    requires inp.Valid()
  {
    if !inp.eligible then
      PdlExplanation(Exact, inp.crBefore, inp.crAfter, inp.crDelta, inp.placement, inp.teamCount, [], Unknown(false),
                     inp.crDelta, [])
    else
      var stage, closing := CapStageOf(inp, sigmoid), Closing(inp, sigmoid);
      var steps := KnownSteps(inp, sigmoid) + closing;
      var unexplained := stage.Split? && closing != [] && !closing[0].exact;
      PdlExplanation(
        if stage.Lumped? || unexplained then Partial else stage.fidelity,
        inp.crBefore, inp.crAfter, inp.crDelta, inp.placement, inp.teamCount,
        Ledger(steps), stage.verdict, inp.crDelta - Total(steps),
        if stage.Lumped? then stage.missing + ["confidence", "cap_adjustment"]
        else if unexplained then ["residual_gap"]
        else [])
  }

  /** The facts of a fresh engine result. */
  function FreshInput(params: RatingParams, placement: int, teamCount: int, r: PlayerRatingResult): ExplainInput {
    var m := r.modifiers;
    ExplainInput(params, placement, teamCount, r.eligible, r.crBefore, r.crAfter, r.crDelta, m.plBaseDeltaMu,
                 m.finalDeltaMu, m.placementWeight, m.placementAmp, m.streakMult, m.boostingFactor, m.partyFactor,
                 1, Some(r.confidenceCr), Some(r.preCapCrDelta), r.cap, None, None, 1.0)
  }

  function ExplainResult(
      params: RatingParams, placement: int, teamCount: int, r: PlayerRatingResult,
      sigmoid: real -> real): PdlExplanation
    requires FreshInput(params, placement, teamCount, r).Valid()
  {
    Explained(FreshInput(params, placement, teamCount, r), sigmoid)
  }

  /** `explain`: entries appended one by one on a running total. */
  method ExplainRow(inp: ExplainInput, sigmoid: real -> real) returns (e: PdlExplanation)
    requires inp.Valid()
    ensures e == Explained(inp, sigmoid)
  {
    hide Total, Ledger, Multipliers, DispersionLoss, CapStageOf, ZeroFloored, Abs, Explained;
    if !inp.eligible {
      IneligibleMovesNothing(inp, sigmoid);
      return PdlExplanation(Exact, inp.crBefore, inp.crAfter, inp.crDelta, inp.placement, inp.teamCount, [],
                            Unknown(false), inp.crDelta, []);
    }
    var entries: seq<LedgerEntry> := [];
    var running := 0.0;
    var chain := Multipliers(inp.Chain());
    EmptyLedger();
    for i := 0 to |chain|
      invariant entries == Ledger(chain[..i]) && running == Total(chain[..i])
    {
      LedgerAppends(chain[..i], chain[i]);
      assert chain[..i] + [chain[i]] == chain[..i + 1];
      running := running + chain[i].pdl;
      entries := entries + [LedgerEntry(chain[i].kind, chain[i].pdl, chain[i].multiplier, running, true)];
      MultipliersAreExact(inp.Chain(), i);
    }
    assert chain[..|chain|] == chain;
    ghost var steps := chain;
    var dispersion := DispersionLoss(inp.Chain());
    LedgerAppends(steps, Step(Dispersion, dispersion, None, true));
    steps := steps + [Step(Dispersion, dispersion, None, true)];
    running := running + dispersion;
    entries := entries + [LedgerEntry(Dispersion, dispersion, None, running, true)];
    var post := running;
    assert steps == ChainSteps(inp.Chain());

    var stage := CapStageOf(inp, sigmoid);
    var fidelity := if stage.Split? then stage.fidelity else Partial;
    var unrecoverable: seq<string> := if stage.Split? then [] else stage.missing;
    if stage.Lumped? {
      var adjust := inp.crDelta - post;
      assert steps == KnownSteps(inp, sigmoid);
      LedgerAppends(steps, Step(DisplayAdjust, adjust, None, false));
      steps := steps + [Step(DisplayAdjust, adjust, None, false)];
      running := post + adjust;
      entries := entries + [LedgerEntry(DisplayAdjust, adjust, None, running, false)];
      unrecoverable := unrecoverable + ["confidence", "cap_adjustment"];
    } else {
      ghost var chained := steps;
      for i := 0 to |stage.steps|
        invariant steps == chained + stage.steps[..i]
        invariant entries == Ledger(steps) && running == Total(steps)
      {
        var s := stage.steps[i];
        LedgerAppends(steps, s);
        running := running + s.pdl;
        entries := entries + [LedgerEntry(s.kind, s.pdl, s.multiplier, running, s.exact)];
        steps := steps + [s];
      }
      assert stage.steps[..|stage.steps|] == stage.steps;
      assert steps == KnownSteps(inp, sigmoid);
      var gap := inp.crDelta - running;
      if Abs(gap) > RECONCILE_EPS {
        var zeroFloored := ZeroFloored(inp, running);
        var kind := if zeroFloored then ZeroFloor else DisplayAdjust;
        LedgerAppends(steps, Step(kind, gap, None, zeroFloored));
        steps := steps + [Step(kind, gap, None, zeroFloored)];
        running := running + gap;
        entries := entries + [LedgerEntry(kind, gap, None, running, zeroFloored)];
        if !zeroFloored {
          fidelity := Partial;
          unrecoverable := unrecoverable + ["residual_gap"];
        }
      } else {
        assert steps + [] == steps;
      }
    }
    BooksClosed(inp, sigmoid, steps, fidelity, unrecoverable);
    e := PdlExplanation(fidelity, inp.crBefore, inp.crAfter, inp.crDelta, inp.placement, inp.teamCount, entries,
                        stage.verdict, inp.crDelta - running, unrecoverable);
  }

  lemma IneligibleMovesNothing(inp: ExplainInput, sigmoid: real -> real)
    requires inp.Valid() && !inp.eligible
    ensures Explained(inp, sigmoid) == PdlExplanation(Exact, inp.crBefore, inp.crAfter, inp.crDelta, inp.placement,
                                                      inp.teamCount, [], Unknown(false), inp.crDelta, [])
  {
  }

  /** An explanation by its steps: those that are known, and the one that closes the books if there is one. */
  lemma BooksClosed(inp: ExplainInput, sigmoid: real -> real, steps: seq<Step>, fidelity: Fidelity,
                    unrecoverable: seq<string>)
    requires inp.Valid() && inp.eligible && steps == KnownSteps(inp, sigmoid) + Closing(inp, sigmoid)
    requires if CapStageOf(inp, sigmoid).Lumped? then
               && fidelity == Partial
               && unrecoverable == CapStageOf(inp, sigmoid).missing + ["confidence", "cap_adjustment"]
             else if Closing(inp, sigmoid) != [] && !Closing(inp, sigmoid)[0].exact then
               fidelity == Partial && unrecoverable == ["residual_gap"]
             else
               fidelity == CapStageOf(inp, sigmoid).fidelity && unrecoverable == []
    ensures Explained(inp, sigmoid) == PdlExplanation(
              fidelity, inp.crBefore, inp.crAfter, inp.crDelta, inp.placement, inp.teamCount, Ledger(steps),
              CapStageOf(inp, sigmoid).verdict, inp.crDelta - Total(steps), unrecoverable)
  {
    hide Total, Ledger, KnownSteps, CapStageOf, Closing;
  }

  lemma EmptyLedger()
    ensures Ledger([]) == [] && Total([]) == 0.0
  {
  }

  lemma MultipliersAreExact(c: Recorded, i: nat)
    requires c.params.softCapScale > 0.0 && i < |Multipliers(c)|
    ensures Multipliers(c)[i].exact
  {
  }
}
