/**
 What the points ledger guarantees: it always reconciles, it retells a fresh result exactly, and for a row without
 cap facts its probe never calls an untouched delta what the cap moved.
 */
module ExplainLaws {
  import opened Wrappers
  import opened Caps
  import opened Params
  import opened RatingTypes
  import opened Modifiers
  import opened Engine
  import opened EngineLaws
  import opened Explain

  // ---- The books balance ----

  function PdlSum(entries: seq<LedgerEntry>): real {
    if entries == [] then 0.0 else PdlSum(entries[..|entries| - 1]) + entries[|entries| - 1].pdl
  }

  lemma {:induction false} LedgerSums(steps: seq<Step>, i: nat)
    requires i <= |steps|
    ensures PdlSum(Ledger(steps)[..i]) == Total(steps[..i])
  {
    if i > 0 {
      LedgerSums(steps, i - 1);
      assert Ledger(steps)[..i][..i - 1] == Ledger(steps)[..i - 1];
      assert steps[..i][..i - 1] == steps[..i - 1];
    }
  }

  /** What the known contributions leave of the stored delta. */
  function Gap(inp: ExplainInput, sigmoid: real -> real): real
    requires inp.Valid()
  {
    inp.crDelta - Total(KnownSteps(inp, sigmoid))
  }

  lemma ClosingCloses(inp: ExplainInput, sigmoid: real -> real)
    requires inp.Valid()
    ensures var gap, lumped := Gap(inp, sigmoid), CapStageOf(inp, sigmoid).Lumped?;
            inp.crDelta - Total(KnownSteps(inp, sigmoid) + Closing(inp, sigmoid)) ==
            if lumped || Abs(gap) > RECONCILE_EPS then 0.0 else gap
  {
    hide KnownSteps, CapStageOf;
    var known := KnownSteps(inp, sigmoid);
    if Closing(inp, sigmoid) == [] {
      assert known + [] == known;
    } else {
      LedgerAppends(known, Closing(inp, sigmoid)[0]);
    }
  }

  /**
   At every fidelity each running total is the sum of the entries so far, entries and residual make up the stored
   delta, and the residual is at most 1e-6.
   */
  lemma LedgerReconciles(inp: ExplainInput, sigmoid: real -> real)
    requires inp.Valid() && inp.eligible
    ensures var e := Explained(inp, sigmoid);
            && (forall i :: 0 <= i < |e.entries| ==> e.entries[i].runningTotal == PdlSum(e.entries[..i + 1]))
            && PdlSum(e.entries) + e.residual == inp.crDelta
            && Abs(e.residual) <= RECONCILE_EPS
            && (e.residual != 0.0 <==> CapStageOf(inp, sigmoid).Split? && 0.0 < Abs(Gap(inp, sigmoid)) <= RECONCILE_EPS)
  {
    hide KnownSteps, CapStageOf, Closing, Gap;
    var e := Explained(inp, sigmoid);
    var steps := KnownSteps(inp, sigmoid) + Closing(inp, sigmoid);
    ClosingCloses(inp, sigmoid);
    forall i | 0 <= i < |steps| ensures e.entries[i].runningTotal == PdlSum(e.entries[..i + 1]) {
      LedgerSums(steps, i + 1);
    }
    LedgerSums(steps, |steps|);
    assert steps[..|steps|] == steps && e.entries[..|e.entries|] == e.entries;
  }

  lemma TotalOfSeven(a: Step, b: Step, c: Step, d: Step, e: Step, f: Step, g: Step)
    ensures Total([a, b, c, d, e, f, g]) == a.pdl + b.pdl + c.pdl + d.pdl + e.pdl + f.pdl + g.pdl
  {
    hide Ledger, Total;
    EmptyLedger();
    LedgerAppends([], a);
    LedgerAppends([a], b);
    LedgerAppends([a, b], c);
    LedgerAppends([a, b, c], d);
    LedgerAppends([a, b, c, d], e);
    LedgerAppends([a, b, c, d, e], f);
    LedgerAppends([a, b, c, d, e, f], g);
    assert [] + [a] == [a] && [a] + [b] == [a, b] && [a, b] + [c] == [a, b, c] && [a, b, c] + [d] == [a, b, c, d];
    assert [a, b, c, d] + [e] == [a, b, c, d, e] && [a, b, c, d, e] + [f] == [a, b, c, d, e, f];
    assert [a, b, c, d, e, f] + [g] == [a, b, c, d, e, f, g];
  }

  lemma Telescopes(scale: real, d0: real, d1: real, d2: real, d3: real, d4: real, d5: real, d6: real)
    ensures d0 * scale + (d1 - d0) * scale + (d2 - d1) * scale + (d3 - d2) * scale + (d4 - d3) * scale
            + (d5 - d4) * scale + (d6 - d5) * scale == d6 * scale
  {
  }

  lemma MultipliersTelescope(c: Recorded)
    requires c.params.softCapScale > 0.0
    ensures Total(Multipliers(c)) == Product(c) * c.params.scaleFactor
  {
    hide Total, Ledger, SoftCapFactor, Products;
    var m, d := Multipliers(c), Products(c);
    TotalOfSeven(m[0], m[1], m[2], m[3], m[4], m[5], m[6]);
    assert m == [m[0], m[1], m[2], m[3], m[4], m[5], m[6]];
    Telescopes(c.params.scaleFactor, d[0], d[1], d[2], d[3], d[4], d[5], d[6]);
  }

  lemma DispersionCompletes(product: real, final: real, scale: real)
    ensures product * scale + (final - product) * scale == final * scale
  {
  }

  /** The modifier chain telescopes: its entries make up the engine's final step, in points. */
  lemma ChainTelescopes(inp: ExplainInput)
    requires inp.Valid()
    ensures Total(ChainSteps(inp.Chain())) == inp.finalDeltaMu * inp.params.scaleFactor
  {
    hide Total, Ledger, Multipliers, Product;
    MultipliersTelescope(inp.Chain());
    LedgerAppends(Multipliers(inp.Chain()), Step(Dispersion, DispersionLoss(inp.Chain()), None, true));
    DispersionCompletes(Product(inp.Chain()), inp.finalDeltaMu, inp.params.scaleFactor);
  }

  /** The kinds of the first eight entries of every explanation. */
  const CHAIN_KINDS := [Base, Placement, Provisional, Streak, SoftCap, Boosting, Party, Dispersion]

  /** The multipliers an input records, in the order the engine applies them. */
  function Factors(inp: ExplainInput): (factors: seq<real>)
    requires inp.Valid()
    ensures |factors| == 6
  {
    [inp.placementWeight, inp.placementAmp, inp.streakMult,
     SoftCapFactor(inp.crBefore, inp.plBaseDeltaMu, inp.params), inp.boostingFactor, inp.partyFactor]
  }

  lemma ProductChain(c: Recorded)
    requires c.params.softCapScale > 0.0
    ensures var d := Products(c);
            && d[0] == c.plBaseDeltaMu && d[1] == d[0] * c.placementWeight && d[2] == d[1] * c.placementAmp
            && d[3] == d[2] * c.streakMult
            && d[4] == d[3] * SoftCapFactor(c.crBefore, c.plBaseDeltaMu, c.params)
            && d[5] == d[4] * c.boostingFactor && d[6] == d[5] * c.partyFactor
  {
    hide SoftCapFactor;
  }

  /** Each factor leads from one product to the next. */
  lemma ProductStep(inp: ExplainInput, i: nat)
    requires inp.Valid() && i < 7
    ensures var d := Products(inp.Chain());
            if i == 0 then d[0] == inp.plBaseDeltaMu else d[i] == d[i - 1] * Factors(inp)[i - 1]
  {
    hide SoftCapFactor, Products;
    ProductChain(inp.Chain());
    if i == 0 {} else if i == 1 {} else if i == 2 {} else if i == 3 {} else if i == 4 {} else if i == 5 {} else {}
  }

  lemma MultiplierStep(inp: ExplainInput, i: nat)
    requires inp.Valid() && i < 7
    ensures |Multipliers(inp.Chain())| == 7
    ensures var step, d, scale := Multipliers(inp.Chain())[i], Products(inp.Chain()), inp.params.scaleFactor;
            && step.kind == CHAIN_KINDS[i] && step.exact
            && (if i == 0 then step.multiplier == None && step.pdl == d[0] * scale
                else step.multiplier == Some(Factors(inp)[i - 1]) && step.pdl == (d[i] - d[i - 1]) * scale)
  {
    hide SoftCapFactor, Products;
    if i == 0 {} else if i == 1 {} else if i == 2 {} else if i == 3 {} else if i == 4 {} else if i == 5 {} else {}
  }

  lemma {:induction false} ProductTotals(inp: ExplainInput, i: nat)
    requires inp.Valid() && i < 7
    ensures |Multipliers(inp.Chain())| == 7
    ensures Total(Multipliers(inp.Chain())[..i + 1]) == Products(inp.Chain())[i] * inp.params.scaleFactor
  {
    hide Multipliers, Products, Factors, Ledger;
    var steps, d, scale := Multipliers(inp.Chain()), Products(inp.Chain()), inp.params.scaleFactor;
    MultiplierStep(inp, i);
    assert steps[..i + 1][..i] == steps[..i];
    if i == 0 {
      EmptyLedger();
      assert steps[..0] == [];
    } else {
      ProductTotals(inp, i - 1);
      assert d[i - 1] * scale + (d[i] - d[i - 1]) * scale == d[i] * scale;
    }
  }

  /** One multiplier takes the running total to its own multiple. */
  lemma ShareOfTotal(before: real, w: real, scale: real)
    ensures (before * w - before) * scale == (w - 1.0) * (before * scale)
    ensures before * w * scale == w * (before * scale)
  {
  }

  /** The first eight entries are those of the chain. */
  lemma ChainEntries(inp: ExplainInput, sigmoid: real -> real, i: nat)
    requires inp.Valid() && inp.eligible && i < 8
    ensures |Multipliers(inp.Chain())| == 7
    ensures var entries, chain := Explained(inp, sigmoid).entries, ChainSteps(inp.Chain());
            && |chain| == 8 && |entries| >= 8
            && entries[i] == LedgerEntry(chain[i].kind, chain[i].pdl, chain[i].multiplier, Total(chain[..i + 1]),
                                         chain[i].exact)
            && (i < 7 ==> chain[..i + 1] == Multipliers(inp.Chain())[..i + 1])
  {
    hide CapStageOf, Multipliers, Total, Closing;
    SevenMultipliers(inp);
    var chain := ChainSteps(inp.Chain());
    var steps := KnownSteps(inp, sigmoid) + Closing(inp, sigmoid);
    assert steps[..i + 1] == chain[..i + 1];
  }

  /**
   The entries of every eligible row, one by one: the base step, then each multiplier taking the running total to its
   own multiple, in the engine's order, and the dispersion cap taking it to the final step.
   */
  lemma EntriesFollowTheChain(inp: ExplainInput, sigmoid: real -> real, i: nat)
    requires inp.Valid() && inp.eligible && 1 <= i <= 6
    ensures var entries, scale := Explained(inp, sigmoid).entries, inp.params.scaleFactor;
            && |entries| >= 8
            && entries[0].kind == Base && entries[0].exact && entries[0].multiplier == None
            && entries[0].pdl == entries[0].runningTotal == inp.plBaseDeltaMu * scale
            && entries[i].kind == CHAIN_KINDS[i] && entries[i].exact
            && entries[i].multiplier == Some(Factors(inp)[i - 1])
            && entries[i].pdl == (entries[i].multiplier.value - 1.0) * entries[i - 1].runningTotal
            && entries[i].runningTotal == entries[i].multiplier.value * entries[i - 1].runningTotal
            && entries[7].kind == Dispersion && entries[7].exact && entries[7].multiplier == None
            && entries[7].pdl == inp.finalDeltaMu * scale - entries[6].runningTotal
            && entries[7].runningTotal == inp.finalDeltaMu * scale
  {
    hide Total, Multipliers, Factors, Explained, Products;
    var d, scale := Products(inp.Chain()), inp.params.scaleFactor;
    ChainEntries(inp, sigmoid, 0);
    ChainEntries(inp, sigmoid, i - 1);
    ChainEntries(inp, sigmoid, i);
    ChainEntries(inp, sigmoid, 6);
    ChainEntries(inp, sigmoid, 7);
    ProductStep(inp, 0);
    ProductStep(inp, i);
    MultiplierStep(inp, 0);
    MultiplierStep(inp, i);
    ProductTotals(inp, 0);
    ProductTotals(inp, i - 1);
    ProductTotals(inp, i);
    ProductTotals(inp, 6);
    ShareOfTotal(d[i - 1], Factors(inp)[i - 1], scale);
    ChainTelescopes(inp);
    var chain := ChainSteps(inp.Chain());
    assert chain[..8] == chain;
    DispersionCompletes(Product(inp.Chain()), inp.finalDeltaMu, scale);
  }

  // ---- Explaining a fresh result ----

  /** How far a value lies below the floor at zero. */
  function Below(x: real): real {
    Max(0.0, -x)
  }

  /** The points of the state a player came with, before the floor at zero. */
  function RawBefore(lobby: Lobby, pt: ParticipantInput): real {
    lobby.params.RawCr(pt.state.mu, pt.state.sigma)
  }

  /** A rated seat whose displayed points belong to its mean and sigma, as every season keeps them. */
  predicate Seated(lobby: Lobby, pt: ParticipantInput) {
    && lobby.Valid() && pt.eligibleForProgression
    && pt.state.cr == lobby.params.ToCr(pt.state.mu, pt.state.sigma)
    && (lobby.params.caps.Some? ==> lobby.params.caps.value.NonNegativeGains())
  }

  function Fresh(lobby: Lobby, pt: ParticipantInput, updated: Rating, placement: int): ExplainInput
    requires lobby.Valid()
  {
    FreshInput(lobby.params, placement, lobby.teamCount, PlayerResult(lobby, pt, updated, placement))
  }

  lemma RawCrMoves(p: RatingParams, mu: real, sigma: real, step: real, sigma': real)
    ensures p.RawCr(mu + step, sigma') - p.RawCr(mu, sigma)
         == step * p.scaleFactor + -3.0 * (sigma' - sigma) * p.scaleFactor
  {
    var s := p.scaleFactor;
    assert (mu + step - 3.0 * sigma') * s - (mu - 3.0 * sigma) * s == (step - 3.0 * (sigma' - sigma)) * s;
    assert (step - 3.0 * (sigma' - sigma)) * s == step * s + -3.0 * (sigma' - sigma) * s;
  }

  lemma GainCapIsNotNegative(cp: CapParams, placement: int, teamCount: int, composite: real)
    requires cp.WellFormed() && cp.NonNegativeGains() && composite >= 0.0
    ensures var bounds := CapBounds(placement, teamCount, composite, 1.0, cp); bounds.Bounded? ==> bounds.hi >= 0.0
  {
    if teamCount in cp.baseCapByPlacement && 1 <= placement <= |cp.baseCapByPlacement[teamCount]| {
      assert cp.baseCapByPlacement[teamCount][placement - 1] in cp.baseCapByPlacement[teamCount];
    }
  }

  /** The plain facts of a rated seat the ledger is built from. */
  lemma FreshFacts(lobby: Lobby, pt: ParticipantInput, updated: Rating, placement: int)
    requires lobby.Valid() && pt.eligibleForProgression
    requires pt.state.cr == lobby.params.ToCr(pt.state.mu, pt.state.sigma)
    ensures var r := PlayerResult(lobby, pt, updated, placement);
            var u, x := RawPreCap(lobby, pt, updated, placement), RawBefore(lobby, pt);
            && r.eligible && r.crBefore == pt.state.cr == x + Below(x)
            && r.preCapCrDelta == u + Below(u) - pt.state.cr
            && r.modifiers.finalDeltaMu * lobby.params.scaleFactor + r.confidenceCr == u - x
            && (r.cap.None? <==> lobby.params.caps.None?)
            && (r.cap.None? ==> r.crDelta == r.preCapCrDelta)
            && r.crAfter == pt.state.cr + r.crDelta
  {
    hide CapFacts, Chain, SigmaAfter, RatingParams.RawCr, RatingParams.MuFor;
    var r := PlayerResult(lobby, pt, updated, placement);
    RawCrMoves(lobby.params, pt.state.mu, pt.state.sigma, r.modifiers.finalDeltaMu, r.sigmaAfter);
  }

  /** With gain caps that are not negative, the cap layer alone decides the delta: the floor at zero adds nothing. */
  lemma CapDecidesDelta(lobby: Lobby, pt: ParticipantInput, updated: Rating, placement: int)
    requires Seated(lobby, pt) && lobby.params.caps.Some?
    ensures var r := PlayerResult(lobby, pt, updated, placement);
            r.cap.Some? && r.crDelta == r.cap.value.cappedCrDelta
  {
    hide CapFacts, PlayerResult, CapBounds, MinGain;
    var r, cp := PlayerResult(lobby, pt, updated, placement), lobby.params.caps.value;
    SettledDelta(lobby, pt, updated, placement);
    FactsAreDecided(lobby, cp, pt, r.preCapCrDelta, placement);
    GainCapIsNotNegative(cp, placement, lobby.teamCount, r.cap.value.compositeWin);
  }

  /** Replaying the persisted facts of a fresh result gives the engine's own decision back. */
  lemma ReplayIsTheDecision(lobby: Lobby, pt: ParticipantInput, updated: Rating, placement: int, post: real)
    requires lobby.Valid() && pt.eligibleForProgression && lobby.params.caps.Some?
    ensures var r, inp := PlayerResult(lobby, pt, updated, placement), Fresh(lobby, pt, updated, placement);
            && r.cap.Some?
            && var cap := r.cap.value;
            Replayed(inp, lobby.params.caps.value, cap, post, Exact) ==
            Split([Step(Confidence, r.confidenceCr, None, true),
                   Step(CapAdjust, cap.cappedCrDelta - r.preCapCrDelta, None, true)],
                  CapVerdict(true, cap.bound, Some(cap.bounds), Some(cap.minGain), Some(r.preCapCrDelta),
                             Some(cap.cappedCrDelta - r.preCapCrDelta), Some(cap.mismatchOverride),
                             Some(cap.highCrScale), Some(cap.compositeWin)),
                  Exact)
  {
    hide Chain, SigmaAfter, MinGain, CapBounds, MismatchOverride, HighCrScale, CompositeWinMult, RatingParams.ToCr,
         Settle;
  }

  /** The cap part of a fresh explanation. */
  lemma FreshStage(lobby: Lobby, pt: ParticipantInput, updated: Rating, placement: int, sigmoid: real -> real)
    requires lobby.Valid() && pt.eligibleForProgression
    ensures var r, inp := PlayerResult(lobby, pt, updated, placement), Fresh(lobby, pt, updated, placement);
            && inp.Valid() && inp.eligible && inp.crDelta == r.crDelta && inp.finalDeltaMu == r.modifiers.finalDeltaMu
            && CapStageOf(inp, sigmoid) ==
               if lobby.params.caps.None?
               then Split([Step(Confidence, r.confidenceCr, None, true)], Unknown(false), Exact)
               else Replayed(inp, lobby.params.caps.value, r.cap.value, Total(ChainSteps(inp.Chain())), Exact)
  {
    hide Chain, SigmaAfter, CapFacts, Settle, Total, ChainSteps, Replayed, Probed;
  }

  /**
   Explaining a fresh result names the engine's own numbers: confidence is -3 times the change of sigma, in points,
   and the cap entry and verdict carry the engine's bound, limits, raw delta and capped value.
   */
  lemma FreshRetellsTheEngine(
      lobby: Lobby, pt: ParticipantInput, updated: Rating, placement: int, sigmoid: real -> real)
    requires lobby.Valid() && pt.eligibleForProgression
    ensures var r, inp := PlayerResult(lobby, pt, updated, placement), Fresh(lobby, pt, updated, placement);
            inp.Valid() && var e := ExplainResult(lobby.params, placement, lobby.teamCount, r, sigmoid);
            && |e.entries| >= 9 && e.entries[8].kind == Confidence
            && e.entries[8].pdl == -3.0 * (r.sigmaAfter - r.sigmaBefore) * lobby.params.scaleFactor
            && e.entries[7].kind == Dispersion
            && e.entries[7].runningTotal == r.modifiers.finalDeltaMu * lobby.params.scaleFactor
            && (lobby.params.caps.Some? ==>
                 && r.cap.Some? && |e.entries| >= 10 && e.entries[9].kind == CapAdjust
                 && e.cap.active && e.cap.bound == r.cap.value.bound && e.cap.bounds == Some(r.cap.value.bounds)
                 && e.cap.minGain == Some(r.cap.value.minGain)
                 && e.cap.rawPdl == Some(r.preCapCrDelta)
                 && r.preCapCrDelta + e.entries[9].pdl == r.cap.value.cappedCrDelta)
  {
    hide PlayerResult, Chain, Settle, Total, Closing, Multipliers, CapStageOf, Replayed;
    var inp := Fresh(lobby, pt, updated, placement);
    FreshStage(lobby, pt, updated, placement, sigmoid);
    FreshIdentities(lobby, pt, updated, placement);
    ChainTelescopes(inp);
    if lobby.params.caps.Some? { ReplayIsTheDecision(lobby, pt, updated, placement, Total(ChainSteps(inp.Chain()))); }
    var steps := KnownSteps(inp, sigmoid) + Closing(inp, sigmoid);
    SevenMultipliers(inp);
    assert steps[..8] == ChainSteps(inp.Chain());
  }

  /**
   Every multiplier entry of a fresh explanation carries the engine's own multiplier, the soft cap included, though
   it is recomputed; and the dispersion entry is other than zero exactly when the engine cut the step.
   */
  lemma FreshChainIsTheEngines(lobby: Lobby, pt: ParticipantInput, updated: Rating, placement: int)
    requires lobby.Valid() && pt.eligibleForProgression
    ensures var r, c := PlayerResult(lobby, pt, updated, placement), Fresh(lobby, pt, updated, placement).Chain();
            var m, steps := r.modifiers, Multipliers(c);
            && |steps| == 7 && steps[0].pdl == m.plBaseDeltaMu * lobby.params.scaleFactor
            && steps[1].multiplier == Some(m.placementWeight) && steps[2].multiplier == Some(m.placementAmp)
            && steps[3].multiplier == Some(m.streakMult) && steps[4].multiplier == Some(m.softCapFactor)
            && steps[5].multiplier == Some(m.boostingFactor) && steps[6].multiplier == Some(m.partyFactor)
            && (DispersionLoss(c) != 0.0 <==> m.dispersionClamped)
  {
    hide PlayerResult, Chain, SoftCapFactor, Fresh, Multipliers, Product;
    FreshChainFacts(lobby, pt, updated, placement);
    var c := Fresh(lobby, pt, updated, placement).Chain();
    CutIsFlagged(lobby.params, pt, updated.mu - pt.state.mu, placement, lobby.teamCount);
    MultipliersEcho(c);
    NonZeroScales(c.finalDeltaMu - Product(c), lobby.params.scaleFactor);
  }

  lemma MultipliersEcho(c: Recorded)
    requires c.params.softCapScale > 0.0
    ensures |Multipliers(c)| == 7
    ensures var steps := Multipliers(c);
            && steps[0].pdl == c.plBaseDeltaMu * c.params.scaleFactor
            && steps[1].multiplier == Some(c.placementWeight) && steps[2].multiplier == Some(c.placementAmp)
            && steps[3].multiplier == Some(c.streakMult)
            && steps[4].multiplier == Some(SoftCapFactor(c.crBefore, c.plBaseDeltaMu, c.params))
            && steps[5].multiplier == Some(c.boostingFactor) && steps[6].multiplier == Some(c.partyFactor)
    ensures Product(c) == c.plBaseDeltaMu * c.placementWeight * c.placementAmp * c.streakMult
                          * SoftCapFactor(c.crBefore, c.plBaseDeltaMu, c.params) * c.boostingFactor * c.partyFactor
  {
    hide SoftCapFactor;
  }

  lemma FreshChainFacts(lobby: Lobby, pt: ParticipantInput, updated: Rating, placement: int)
    requires lobby.Valid() && pt.eligibleForProgression
    ensures var r, c := PlayerResult(lobby, pt, updated, placement), Fresh(lobby, pt, updated, placement).Chain();
            var m := Chain(lobby.params, pt, updated.mu - pt.state.mu, placement, lobby.teamCount);
            && r.modifiers == m
            && c == Recorded(lobby.params, pt.state.cr, m.plBaseDeltaMu, m.finalDeltaMu, m.placementWeight,
                             m.placementAmp, m.streakMult, m.boostingFactor, m.partyFactor)
  {
    hide CapFacts, SigmaAfter, Settle, DispersionCap, StreakMultiplier, SoftCapFactor, GainPenalty;
  }

  lemma NonZeroScales(x: real, scale: real)
    requires scale != 0.0
    ensures x * scale != 0.0 <==> x != 0.0
  {
  }

  lemma FreshIdentities(lobby: Lobby, pt: ParticipantInput, updated: Rating, placement: int)
    requires lobby.Valid() && pt.eligibleForProgression
    ensures var r, inp := PlayerResult(lobby, pt, updated, placement), Fresh(lobby, pt, updated, placement);
            && inp.eligible && inp.params == lobby.params && inp.finalDeltaMu == r.modifiers.finalDeltaMu
            && r.confidenceCr == -3.0 * (r.sigmaAfter - r.sigmaBefore) * lobby.params.scaleFactor
  {
    hide Chain, SigmaAfter, CapFacts, Settle;
  }

  lemma SevenMultipliers(inp: ExplainInput)
    requires inp.Valid()
    ensures |Multipliers(inp.Chain())| == 7
  {
  }

  lemma TotalOfTwo(steps: seq<Step>, a: Step, b: Step)
    ensures Total(steps + [a]) == Total(steps) + a.pdl
    ensures Total(steps + [a, b]) == Total(steps) + a.pdl + b.pdl
  {
    hide Total, Ledger;
    LedgerAppends(steps, a);
    LedgerAppends(steps + [a], b);
    assert steps + [a, b] == steps + [a] + [b];
  }

  /**
   What the entries of a fresh result miss is what the floor at zero swallowed: below zero before the cap, less what
   the displayed points were already short of the mean before the match.
   */
  lemma FreshGap(lobby: Lobby, pt: ParticipantInput, updated: Rating, placement: int, sigmoid: real -> real)
    requires Seated(lobby, pt)
    ensures var inp := Fresh(lobby, pt, updated, placement);
            && inp.Valid() && CapStageOf(inp, sigmoid).Split? && CapStageOf(inp, sigmoid).fidelity == Exact
            && |CapStageOf(inp, sigmoid).steps| == (if lobby.params.caps.Some? then 2 else 1)
            && Gap(inp, sigmoid) == Below(RawPreCap(lobby, pt, updated, placement)) - Below(RawBefore(lobby, pt))
  {
    hide PlayerResult, Total, ChainSteps, CapStageOf, Replayed, RawPreCap, RawBefore, Below;
    var r, inp := PlayerResult(lobby, pt, updated, placement), Fresh(lobby, pt, updated, placement);
    FreshStage(lobby, pt, updated, placement, sigmoid);
    FreshFacts(lobby, pt, updated, placement);
    ChainTelescopes(inp);
    var chain := ChainSteps(inp.Chain());
    if lobby.params.caps.Some? {
      ReplayIsTheDecision(lobby, pt, updated, placement, Total(chain));
      CapDecidesDelta(lobby, pt, updated, placement);
      var steps := CapStageOf(inp, sigmoid).steps;
      TotalOfTwo(chain, steps[0], steps[1]);
      assert steps == [steps[0], steps[1]];
    } else {
      var steps := CapStageOf(inp, sigmoid).steps;
      TotalOfTwo(chain, steps[0], steps[0]);
    }
  }

  /**
   A fresh explanation is exact, with no adjustment, no zero-floor entry and nothing left over, exactly when the
   floor at zero swallowed as much before the cap as it had before the match; so whenever both the state and the
   uncapped result lie at or above zero.
   */
  lemma FreshIsExactIff(lobby: Lobby, pt: ParticipantInput, updated: Rating, placement: int, sigmoid: real -> real)
    requires Seated(lobby, pt)
    ensures var inp := Fresh(lobby, pt, updated, placement);
            inp.Valid() && var e := Explained(inp, sigmoid);
            ((&& e.fidelity == Exact && e.unrecoverable == [] && e.residual == 0.0 && PdlSum(e.entries) == e.crDelta
              && |e.entries| == if lobby.params.caps.Some? then 10 else 9)
             <==> Below(RawPreCap(lobby, pt, updated, placement)) == Below(RawBefore(lobby, pt)))
  {
    hide PlayerResult, Total, ChainSteps, KnownSteps, CapStageOf, RawPreCap, RawBefore, Below, PdlSum;
    var inp := Fresh(lobby, pt, updated, placement);
    FreshGap(lobby, pt, updated, placement, sigmoid);
    FreshIdentities(lobby, pt, updated, placement);
    LedgerReconciles(inp, sigmoid);
    ClosingCloses(inp, sigmoid);
    KnownLength(inp, sigmoid);
  }

  lemma KnownLength(inp: ExplainInput, sigmoid: real -> real)
    requires inp.Valid() && CapStageOf(inp, sigmoid).Split?
    ensures |KnownSteps(inp, sigmoid)| == 8 + |CapStageOf(inp, sigmoid).steps|
  {
    hide CapStageOf;
  }

  /** The last entry of a gap is a zero floor: the points ended at zero, and the others would take them below. */
  predicate ExplainedByFloor(crAfter: real, gap: real) {
    crAfter <= RECONCILE_EPS && crAfter < gap
  }

  /**
   What happens to the gap of any fresh result. Up to 1e-6 it stays as the residual. A larger one is the last entry:
   a zero floor when the points ended at zero and the entries before would take them below, else an unexplained
   adjustment. So the explanation is partial, with an adjustment of the whole gap, if and only if the gap is larger
   than 1e-6 and not explained by the floor.
   */
  lemma FreshIsPartialIff(lobby: Lobby, pt: ParticipantInput, updated: Rating, placement: int, sigmoid: real -> real)
    requires Seated(lobby, pt)
    ensures var r, inp := PlayerResult(lobby, pt, updated, placement), Fresh(lobby, pt, updated, placement);
            var gap := Below(RawPreCap(lobby, pt, updated, placement)) - Below(RawBefore(lobby, pt));
            inp.Valid() && var e := Explained(inp, sigmoid);
            && (e.fidelity == Partial <==> Abs(gap) > RECONCILE_EPS && !ExplainedByFloor(r.crAfter, gap))
            && (e.fidelity != Partial ==> e.fidelity == Exact)
            && e.residual == (if Abs(gap) <= RECONCILE_EPS then gap else 0.0)
            && (Abs(gap) > RECONCILE_EPS ==>
                 && e.entries != [] && var last := e.entries[|e.entries| - 1];
                 && last.pdl == gap
                 && last.kind == (if ExplainedByFloor(r.crAfter, gap) then ZeroFloor else DisplayAdjust))
  {
    hide PlayerResult, Total, ChainSteps, KnownSteps, CapStageOf, RawPreCap, RawBefore;
    var inp := Fresh(lobby, pt, updated, placement);
    FreshGap(lobby, pt, updated, placement, sigmoid);
    FreshFacts(lobby, pt, updated, placement);
    FreshStored(lobby, pt, updated, placement);
    FreshIdentities(lobby, pt, updated, placement);
    ClosingCloses(inp, sigmoid);
  }

  lemma FreshStored(lobby: Lobby, pt: ParticipantInput, updated: Rating, placement: int)
    requires lobby.Valid()
    ensures var r, inp := PlayerResult(lobby, pt, updated, placement), Fresh(lobby, pt, updated, placement);
            inp.crBefore == r.crBefore && inp.crAfter == r.crAfter && inp.crDelta == r.crDelta
  {
    hide PlayerResult;
  }

  // ---- Rows that were stored with less ----

  /**
   A row with cap facts that lacks its raw delta or its confidence: what is stored is shown as it is, what is missing is
   what closes the gap, and the running total after the cap is the value the cap decides on.
   */
  lemma MissingPartIsDerived(inp: ExplainInput, sigmoid: real -> real)
    requires inp.Valid() && inp.eligible && inp.params.caps.Some? && inp.capFacts.Some?
    requires inp.preCapCrDelta.None? || inp.confidenceCr.None?
    ensures var e := Explained(inp, sigmoid);
            && |e.entries| >= 10 && e.entries[8].kind == Confidence && e.entries[9].kind == CapAdjust
            && e.cap.rawPdl.Some? && e.cap.adjustmentPdl.Some?
            && (inp.confidenceCr.Some? ==> e.entries[8].pdl == inp.confidenceCr.value)
            && (inp.preCapCrDelta.Some? ==> e.cap.rawPdl == inp.preCapCrDelta)
            && e.entries[8].runningTotal == e.cap.rawPdl.value
            && e.entries[9].runningTotal == e.cap.rawPdl.value + e.cap.adjustmentPdl.value
            && e.entries[9].pdl == e.cap.adjustmentPdl.value
  {
    hide Total, ChainSteps, DecidePdlCap, Closing, Ledger;
    var stage, chain := CapStageOf(inp, sigmoid), ChainSteps(inp.Chain());
    assert stage.steps == [stage.steps[0], stage.steps[1]];
    TenEntries(inp, sigmoid, stage.steps[0], stage.steps[1]);
  }

  /** The ninth and tenth entry when two steps are known behind the chain. */
  lemma TenEntries(inp: ExplainInput, sigmoid: real -> real, a: Step, b: Step)
    requires inp.Valid() && inp.eligible
    requires CapStageOf(inp, sigmoid).Split? && CapStageOf(inp, sigmoid).steps == [a, b]
    ensures var entries, post := Explained(inp, sigmoid).entries, Total(ChainSteps(inp.Chain()));
            && |entries| >= 10
            && entries[8] == LedgerEntry(a.kind, a.pdl, a.multiplier, post + a.pdl, a.exact)
            && entries[9] == LedgerEntry(b.kind, b.pdl, b.multiplier, post + a.pdl + b.pdl, b.exact)
  {
    hide CapStageOf, Total, Multipliers;
    SevenMultipliers(inp);
    var chain := ChainSteps(inp.Chain());
    var steps := KnownSteps(inp, sigmoid) + Closing(inp, sigmoid);
    assert steps[..9] == chain + [a] && steps[..10] == chain + [a, b];
    TotalOfTwo(chain, a, b);
    assert steps[8] == a && steps[9] == b;
  }

  /** Without caps a missing confidence is whatever the chain leaves of the delta, so nothing is left over. */
  lemma UncappedRowCloses(inp: ExplainInput, sigmoid: real -> real)
    requires inp.Valid() && inp.eligible && inp.params.caps.None? && inp.confidenceCr.None?
    ensures var e := Explained(inp, sigmoid);
            && |e.entries| == 9 && e.entries[8].kind == Confidence && e.entries[8].runningTotal == inp.crDelta
            && e.residual == 0.0 && e.fidelity != Partial && !e.cap.active
  {
    hide Total, Multipliers;
    var chain := ChainSteps(inp.Chain());
    var confidence := Step(Confidence, inp.crDelta - Total(chain), None, true);
    TotalOfTwo(chain, confidence, confidence);
    SevenMultipliers(inp);
    assert KnownSteps(inp, sigmoid) == chain + [confidence];
    assert Closing(inp, sigmoid) == [];
    assert KnownSteps(inp, sigmoid) + [] == chain + [confidence];
    LedgerAppends(chain, confidence);
  }

  /**
   What a row without cap facts cannot tell: it says that its bounds are gone when its lobby is, that zero points hide
   what happened when it ended there, and is partial in either case.
   */
  lemma UnrecoverableSays(inp: ExplainInput, sigmoid: real -> real)
    requires inp.Valid() && inp.eligible && inp.params.caps.Some? && inp.capFacts.None?
    ensures var e := Explained(inp, sigmoid);
            && ("cap_bounds" in e.unrecoverable <==> inp.state.None? || inp.lobbyMeanMu.None?)
            && ("zero_floor_ambiguity" in e.unrecoverable <==> inp.crAfter <= 0.000001)
            && (inp.state.None? || inp.lobbyMeanMu.None? || inp.crAfter <= 0.000001 ==>
                 e.fidelity == Partial && e.cap.bound == NoBound && e.cap.bounds == None)
  {
    hide KnownSteps, Ledger, Total, Closing, ChainSteps, MismatchOverride, HighCrScale, CompositeWinMult, CapBounds,
         GainFloor, Hit;
  }

  // ---- The probe on a row without cap facts ----

  /** The same row as an older writer left it, with the true lobby context and floor multiplier supplied. */
  function Legacy(lobby: Lobby, pt: ParticipantInput, updated: Rating, placement: int): ExplainInput
    requires lobby.Valid()
  {
    var s := pt.state;
    Fresh(lobby, pt, updated, placement).(
      explainVersion := 0, confidenceCr := None, preCapCrDelta := None, capFacts := None,
      state := Some(ExplainState(s.mu, s.sigma, s.matchesPlayed)), lobbyMeanMu := Some(lobby.MeanWithout(s.mu)),
      gainFloorMult := 1.0 - Clamp(pt.boostingPenaltyFactor, 0.0, 1.0))
  }

  lemma LegacyStage(lobby: Lobby, pt: ParticipantInput, updated: Rating, placement: int)
    requires lobby.Valid() && pt.eligibleForProgression && lobby.params.caps.Some?
    requires PlayerResult(lobby, pt, updated, placement).crAfter > RECONCILE_EPS
    ensures var r, inp := PlayerResult(lobby, pt, updated, placement), Legacy(lobby, pt, updated, placement);
            && inp.Valid() && inp.eligible && inp.crDelta == r.crDelta && inp.crBefore == pt.state.cr
            && inp.placement == placement && inp.teamCount == lobby.teamCount && inp.params == lobby.params
            && CapStageOf(inp, lobby.maths.sigmoid) ==
               Probed(inp, lobby.params.caps.value, ExplainState(pt.state.mu, pt.state.sigma, pt.state.matchesPlayed),
                      lobby.MeanWithout(pt.state.mu), Total(ChainSteps(inp.Chain())), lobby.maths.sigmoid)
  {
    hide Chain, SigmaAfter, CapFacts, Settle, Total, ChainSteps, Replayed, Probed, Lobby.MeanWithout;
  }

  /** The probe recomputes the engine's bounds and floor, and looks for the stored delta on them. */
  lemma ProbeRecomputes(
      lobby: Lobby, cp: CapParams, pt: ParticipantInput, raw: real, placement: int, inp: ExplainInput, post: real)
    requires lobby.Valid() && cp.WellFormed()
    requires inp.placement == placement && inp.teamCount == lobby.teamCount && inp.crBefore == pt.state.cr
    requires inp.gainFloorMult == 1.0 - Clamp(pt.boostingPenaltyFactor, 0.0, 1.0)
    ensures var cap := CapFacts(lobby, cp, pt, raw, placement);
            var stage := Probed(inp, cp, ExplainState(pt.state.mu, pt.state.sigma, pt.state.matchesPlayed),
                                lobby.MeanWithout(pt.state.mu), post, lobby.maths.sigmoid);
            && stage.verdict.active && stage.verdict.bounds == Some(cap.bounds)
            && stage.verdict.minGain == Some(cap.minGain)
            && (match Hit(inp.crDelta, cap.bounds, cap.minGain)
                case None =>
                  && stage.Split? && stage.verdict.bound == NoBound
                  && stage.steps == [Step(Confidence, inp.crDelta - post, None, true), Step(CapAdjust, 0.0, None, true)]
                case Some(bound) =>
                  stage.Lumped? && stage.verdict.bound == bound && stage.verdict.rawPdl == None && stage.missing == [])
  {
    hide GainFloor, CapBounds, MismatchOverride, HighCrScale, CompositeWinMult, Lobby.MeanWithout, Hit, Decide;
    var cap := CapFacts(lobby, cp, pt, raw, placement);
    DecisionCarriesLimits(raw, CapBounds(placement, lobby.teamCount, cap.compositeWin, 1.0, cp),
                          GainFloor(placement, lobby.teamCount, cap.gainFloorMult, cp));
  }

  /** A delta at least 1e-6 away from both bounds and from the floor. */
  predicate OffLimits(delta: real, bounds: Bounds, floor: real) {
    && (bounds.Bounded? ==> Abs(delta - bounds.lo) >= 0.000001 && Abs(delta - bounds.hi) >= 0.000001)
    && (floor > 0.0 ==> Abs(delta - FloorWithin(floor, bounds)) >= 0.000001)
  }

  lemma ProbeStage(lobby: Lobby, pt: ParticipantInput, updated: Rating, placement: int)
    requires lobby.Valid() && pt.eligibleForProgression && lobby.params.caps.Some?
    requires PlayerResult(lobby, pt, updated, placement).crAfter > RECONCILE_EPS
    ensures var r, inp := PlayerResult(lobby, pt, updated, placement), Legacy(lobby, pt, updated, placement);
            && inp.Valid() && inp.eligible && inp.crDelta == r.crDelta && r.cap.Some?
            && var cap, stage := r.cap.value, CapStageOf(inp, lobby.maths.sigmoid);
            && stage.verdict.active && stage.verdict.bounds == Some(cap.bounds)
            && stage.verdict.minGain == Some(cap.minGain)
            && (match Hit(r.crDelta, cap.bounds, cap.minGain)
                case None =>
                  && stage.Split? && stage.verdict.bound == NoBound
                  && stage.steps == [Step(Confidence, r.crDelta - Total(ChainSteps(inp.Chain())), None, true),
                                     Step(CapAdjust, 0.0, None, true)]
                case Some(bound) =>
                  stage.Lumped? && stage.verdict.bound == bound && stage.verdict.rawPdl == None && stage.missing == [])
  {
    hide PlayerResult, CapFacts, Total, ChainSteps, Hit, CapStageOf, Probed;
    var r, inp := PlayerResult(lobby, pt, updated, placement), Legacy(lobby, pt, updated, placement);
    LegacyStage(lobby, pt, updated, placement);
    SettledDelta(lobby, pt, updated, placement);
    var post := Total(ChainSteps(inp.Chain()));
    ProbeRecomputes(lobby, lobby.params.caps.value, pt, r.preCapCrDelta, placement, inp, post);
  }

  /**
   The probe is sound: "none" means the cap left the raw delta alone, and whatever the cap moved is lumped. It names
   the loss cap whenever that bound, the gain cap unless the two limits nearly coincide, and the floor unless it
   nearly coincides with a limit.
   */
  lemma ProbeIsSound(lobby: Lobby, pt: ParticipantInput, updated: Rating, placement: int)
    requires lobby.Valid() && pt.eligibleForProgression && lobby.params.caps.Some?
    requires PlayerResult(lobby, pt, updated, placement).crAfter > RECONCILE_EPS
    ensures var r, inp := PlayerResult(lobby, pt, updated, placement), Legacy(lobby, pt, updated, placement);
            && inp.Valid() && r.cap.Some?
            && var cap, stage := r.cap.value, CapStageOf(inp, lobby.maths.sigmoid);
            var e := Explained(inp, lobby.maths.sigmoid);
            && e.cap == stage.verdict
            && (e.cap.bound == NoBound <==> stage.Split?)
            && (e.cap.bound == NoBound <==> OffLimits(r.crDelta, cap.bounds, cap.minGain))
            && (e.cap.bound == NoBound ==> cap.bound == NoBound && r.crDelta == r.preCapCrDelta)
            && (cap.bound != NoBound ==> stage.Lumped? && e.fidelity == Partial && e.cap.rawPdl == None)
            && (cap.bound == LossCap ==> e.cap.bound == LossCap)
            && (cap.bound == GainCap ==>
                 && cap.bounds.Bounded?
                 && (e.cap.bound == GainCap <==> !Near(cap.bounds.hi, cap.bounds.lo)))
            && (cap.bound == MinGainFloor ==>
                 var floor := FloorWithin(cap.minGain, cap.bounds);
                 (e.cap.bound == MinGainFloor <==>
                  cap.bounds.Bounded? ==> !Near(floor, cap.bounds.lo) && !Near(floor, cap.bounds.hi)))
  {
    hide PlayerResult, CapStageOf, CapFacts, Ledger, Total, Closing, KnownSteps, Legacy, CapBounds;
    var r, cp := PlayerResult(lobby, pt, updated, placement), lobby.params.caps.value;
    ProbeStage(lobby, pt, updated, placement);
    SettledDelta(lobby, pt, updated, placement);
    FactsAreDecided(lobby, cp, pt, r.preCapCrDelta, placement);
    DecisionIsCandidate(r.preCapCrDelta, r.cap.value.bounds, r.cap.value.minGain);
  }

  lemma SameChain(lobby: Lobby, pt: ParticipantInput, updated: Rating, placement: int)
    requires lobby.Valid()
    ensures Legacy(lobby, pt, updated, placement).Chain() == Fresh(lobby, pt, updated, placement).Chain()
  {
    hide PlayerResult, SoftCapFactor, Lobby.MeanWithout;
  }

  /** The books of a row with two known entries behind the chain. */
  lemma TwoStepBooks(inp: ExplainInput, sigmoid: real -> real, a: Step, b: Step)
    requires inp.Valid() && inp.eligible
    requires CapStageOf(inp, sigmoid).Split? && CapStageOf(inp, sigmoid).steps == [a, b]
    ensures var steps := ChainSteps(inp.Chain()) + [a, b] + Closing(inp, sigmoid);
            && Explained(inp, sigmoid).entries == Ledger(steps)
            && |ChainSteps(inp.Chain())| == 8 && |steps| >= 10 && steps[8] == a
    ensures Gap(inp, sigmoid) == inp.crDelta - Total(ChainSteps(inp.Chain())) - a.pdl - b.pdl
    ensures Gap(inp, sigmoid) == 0.0 ==> Closing(inp, sigmoid) == []
  {
    hide CapStageOf, Total, Ledger, Multipliers;
    TotalOfTwo(ChainSteps(inp.Chain()), a, b);
    SevenMultipliers(inp);
  }

  /**
   When the probe says "none", the ledger rebuilt without the persisted facts is the one with them exactly when the
   state before the match was on the unfloored identity.
   */
  lemma ProbeAgreesIff(lobby: Lobby, pt: ParticipantInput, updated: Rating, placement: int)
    requires lobby.Valid() && pt.eligibleForProgression && lobby.params.caps.Some?
    requires pt.state.cr == lobby.params.ToCr(pt.state.mu, pt.state.sigma)
    requires PlayerResult(lobby, pt, updated, placement).crAfter > RECONCILE_EPS
    requires var legacy := Legacy(lobby, pt, updated, placement);
             legacy.Valid() && Explained(legacy, lobby.maths.sigmoid).cap.bound == NoBound
    ensures var full, legacy := Fresh(lobby, pt, updated, placement), Legacy(lobby, pt, updated, placement);
            && full.Valid()
            && (Explained(legacy, lobby.maths.sigmoid).entries == Explained(full, lobby.maths.sigmoid).entries
                <==> RawBefore(lobby, pt) >= 0.0)
  {
    hide PlayerResult, Total, ChainSteps, CapStageOf, Replayed, RawPreCap, RawBefore, Explained, Gap, Closing, Ledger,
         Hit, Legacy, Fresh;
    var sigmoid := lobby.maths.sigmoid;
    var r := PlayerResult(lobby, pt, updated, placement);
    var full, legacy := Fresh(lobby, pt, updated, placement), Legacy(lobby, pt, updated, placement);
    ProbeIsSound(lobby, pt, updated, placement);
    ProbeStage(lobby, pt, updated, placement);
    FreshStage(lobby, pt, updated, placement, sigmoid);
    FreshFacts(lobby, pt, updated, placement);
    FreshUnmoved(lobby, pt, updated, placement);
    ReplayIsTheDecision(lobby, pt, updated, placement, Total(ChainSteps(full.Chain())));
    FreshIdentities(lobby, pt, updated, placement);
    SameChain(lobby, pt, updated, placement);
    ChainTelescopes(full);
    assert Total(ChainSteps(full.Chain())) == r.modifiers.finalDeltaMu * lobby.params.scaleFactor;
    var c := Step(Confidence, r.confidenceCr, None, true);
    var c' := Step(Confidence, r.crDelta - Total(ChainSteps(legacy.Chain())), None, true);
    var cap := Step(CapAdjust, 0.0, None, true);
    TwoStepBooks(full, sigmoid, c, cap);
    TwoStepBooks(legacy, sigmoid, c', cap);
    if RawBefore(lobby, pt) >= 0.0 {
      assert c == c';
    } else {
      var steps := ChainSteps(full.Chain()) + [c, cap] + Closing(full, sigmoid);
      var steps' := ChainSteps(legacy.Chain()) + [c', cap] + Closing(legacy, sigmoid);
      LedgerShowsPdl(steps, 8);
      LedgerShowsPdl(steps', 8);
    }
  }

  lemma LedgerShowsPdl(steps: seq<Step>, i: nat)
    requires i < |steps|
    ensures |Ledger(steps)| == |steps| && Ledger(steps)[i].pdl == steps[i].pdl
  {
  }

  /** Where the cap moved nothing and points are left, the uncapped result was above zero. */
  lemma FreshUnmoved(lobby: Lobby, pt: ParticipantInput, updated: Rating, placement: int)
    requires lobby.Valid() && pt.eligibleForProgression && lobby.params.caps.Some?
    requires pt.state.cr == lobby.params.ToCr(pt.state.mu, pt.state.sigma)
    ensures var r := PlayerResult(lobby, pt, updated, placement);
            && r.cap.Some?
            && (r.crDelta == r.preCapCrDelta && r.crAfter > 0.0 ==>
                 && Below(RawPreCap(lobby, pt, updated, placement)) == 0.0
                 && r.cap.value.cappedCrDelta == r.preCapCrDelta)
  {
    hide PlayerResult, RawPreCap, RawBefore, CapFacts;
    SettledDelta(lobby, pt, updated, placement);
    FreshFacts(lobby, pt, updated, placement);
  }
}
