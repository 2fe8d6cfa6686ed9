/** Concrete results and rows in which the ledger does what its documentation rules out. */
module ExplainCases {
  import opened Wrappers
  import opened Caps
  import opened Params
  import opened RatingTypes
  import opened Modifiers
  import opened Engine
  import opened EngineLaws
  import opened Explain
  import opened ExplainLaws
  import Season

  /** The shipped parameters with even placement weights, for lobbies of six teams. */
  const EVEN_PARAMS := DEFAULT_PARAMS.(placementWeights := map[6 := [1.0, 1.0, 1.0, 1.0, 1.0, 1.0]])

  function EvenLobby(maths: Maths): Lobby {
    Lobby(EVEN_PARAMS, maths, 6, 0.0, 18)
  }

  /** A player beyond the placement matches, without a streak. */
  function StateAt(mu: real, sigma: real, cr: real): PlayerState {
    PlayerState("p", mu, sigma, cr, 0, 20, 0, cr)
  }

  function SeatOf(s: PlayerState): ParticipantInput {
    ParticipantInput("p", s, 0, true, false, None, 0.0, 0.0)
  }

  /** With even weights a Plackett-Luce step is taken as it is, up to 80 either way. */
  lemma EvenStep(maths: Maths, s: PlayerState, base: real)
    requires 0.0 < s.sigma <= 200.0 && s.cr <= 5000.0 && s.placementMatchesRemaining == 0
    requires s.currentStreak == 0 || (s.currentStreak < 0 && base >= 0.0)
    ensures EvenLobby(maths).Valid()
    ensures Chain(EVEN_PARAMS, SeatOf(s), base, 4, 6).finalDeltaMu == Clamp(base, -80.0, 80.0)
  {
    DefaultsAreSound();
    assert 6 in EVEN_PARAMS.placementWeights;
    UnitFactors(base);
  }

  lemma UnitFactors(base: real)
    ensures base * 1.0 * 1.0 * 1.0 * 1.0 * 1.0 * 1.0 == base
  {
  }

  /** What a fourth place with an unchanged sigma comes to: the loss cap of 30, or the step as it is. */
  lemma FourthPlace(maths: Maths, s: PlayerState, base: real)
    requires 0.0 < s.sigma <= 200.0 && s.cr <= 5000.0 && s.placementMatchesRemaining == 0
    requires s.currentStreak == 0 || (s.currentStreak < 0 && base >= 0.0)
    requires s.cr == EVEN_PARAMS.ToCr(s.mu, s.sigma)
    requires EVEN_PARAMS.ToCr(s.mu + Clamp(base, -80.0, 80.0), s.sigma) <= s.cr + 13.0
    ensures var lobby, updated := EvenLobby(maths), Rating(s.mu + base, s.sigma);
            && Seated(lobby, SeatOf(s))
            && var r := PlayerResult(lobby, SeatOf(s), updated, 4);
            var u := EVEN_PARAMS.RawCr(s.mu + Clamp(base, -80.0, 80.0), s.sigma);
            && RawPreCap(lobby, SeatOf(s), updated, 4) == u && r.cap.Some?
            && r.crAfter == Max(Max(0.0, u), s.cr - 30.0)
            && (r.cap.value.bound == NoBound <==> Max(0.0, u) >= s.cr - 30.0)
            && r.sigmaAfter == s.sigma
            && (r.cap.value.bound == NoBound ==> r.muAfter == s.mu + Clamp(base, -80.0, 80.0))
  {
    hide CapFacts, CapBounds, MinGain, PlayerResult, Chain, RatingParams.RawCr, RatingParams.MuFor;
    var lobby, updated := EvenLobby(maths), Rating(s.mu + base, s.sigma);
    EvenStep(maths, s, base);
    DefaultsAreSound();
    ResultParts(lobby, SeatOf(s), updated, 4);
    SettledDelta(lobby, SeatOf(s), updated, 4);
    var r := PlayerResult(lobby, SeatOf(s), updated, 4);
    FactsAreDecided(lobby, DEFAULT_CAPS, SeatOf(s), r.preCapCrDelta, 4);
    DefaultCurves(4, 6, r.cap.value.compositeWin);
    RawCrMoves(EVEN_PARAMS, s.mu, s.sigma, Clamp(base, -80.0, 80.0), s.sigma);
  }

  /**
   A gap that nothing explains does happen. A step of -80 takes 35 points to zero before the cap, the loss cap of 30
   leaves 5, and 45 points end up in an adjustment.
   */
  lemma LiftedResultIsPartial(maths: Maths)
    ensures var lobby, s := EvenLobby(maths), StateAt(85.0, 100.0, 35.0);
            && Seated(lobby, SeatOf(s))
            && var inp := Fresh(lobby, SeatOf(s), Rating(-915.0, 100.0), 4);
            && inp.Valid() && inp.crAfter == 5.0
            && var e := Explained(inp, maths.sigmoid);
            && e.fidelity == Partial && e.entries != [] && var last := e.entries[|e.entries| - 1];
            last.kind == DisplayAdjust && last.pdl == 45.0
  {
    hide Explained, PlayerResult, Chain;
    var s, updated := StateAt(85.0, 100.0, 35.0), Rating(-915.0, 100.0);
    FourthPlace(maths, s, -1000.0);
    FreshStored(EvenLobby(maths), SeatOf(s), updated, 4);
    FreshIsPartialIff(EvenLobby(maths), SeatOf(s), updated, 4, maths.sigmoid);
  }

  /**
   And it happens without any cap. A loss of 20 from 10 points shows 0 points and leaves a mean that stands for -10,
   so the documented identity is lost.
   */
  function FlooredState(maths: Maths): PlayerState
    requires EvenLobby(maths).Valid()
  {
    var s := StateAt(360.0, 200.0, 10.0);
    Season.Updated(s, PlayerResult(EvenLobby(maths), SeatOf(s), Rating(340.0, 200.0), 4))
  }

  lemma UncappedLossLosesIdentity(maths: Maths)
    ensures EvenLobby(maths).Valid()
    ensures var s := FlooredState(maths);
            && s == PlayerState("p", 340.0, 200.0, 0.0, -1, 21, 0, 10.0)
            && s.cr != EVEN_PARAMS.RawCr(s.mu, s.sigma) == -10.0
  {
    var s, updated := StateAt(360.0, 200.0, 10.0), Rating(340.0, 200.0);
    FourthPlace(maths, s, -20.0);
    NextIsLoss(maths, s, updated);
  }

  lemma NextIsLoss(maths: Maths, s: PlayerState, updated: Rating)
    requires EvenLobby(maths).Valid()
    ensures PlayerResult(EvenLobby(maths), SeatOf(s), updated, 4).newStreak == NextStreak(s.currentStreak, false)
  {
    hide Chain, CapFacts, SigmaAfter, Settle;
  }

  /** The next step of 20 up, which no cap touches, closes with an adjustment of -10. */
  lemma NextGainIsPartial(maths: Maths)
    ensures EvenLobby(maths).Valid()
    ensures var lobby, seat := EvenLobby(maths), SeatOf(FlooredState(maths));
            && Seated(lobby, seat)
            && var r := PlayerResult(lobby, seat, Rating(360.0, 200.0), 4);
            var inp := Fresh(lobby, seat, Rating(360.0, 200.0), 4);
            && inp.Valid() && r.crAfter == 10.0 && r.cap.Some? && r.cap.value.bound == NoBound
            && var e := Explained(inp, maths.sigmoid);
            && e.fidelity == Partial && e.entries != [] && var last := e.entries[|e.entries| - 1];
            last.kind == DisplayAdjust && last.pdl == -10.0
  {
    hide Explained, PlayerResult, Chain;
    UncappedLossLosesIdentity(maths);
    var s, updated := FlooredState(maths), Rating(360.0, 200.0);
    FourthPlace(maths, s, 20.0);
    FreshStored(EvenLobby(maths), SeatOf(s), updated, 4);
    FreshIsPartialIff(EvenLobby(maths), SeatOf(s), updated, 4, maths.sigmoid);
  }

  /** The residual does reach 1e-6: a step of -10 from 9.999999 points. */
  lemma ResidualReachesEps(maths: Maths)
    ensures EvenLobby(maths).Valid()
    ensures var seat := SeatOf(StateAt(359.999999, 200.0, 9.999999));
            var inp := Fresh(EvenLobby(maths), seat, Rating(349.999999, 200.0), 4);
            inp.Valid() && Explained(inp, maths.sigmoid).residual == 0.000001
  {
    hide Explained, PlayerResult, Chain, Fresh;
    var s, updated := StateAt(359.999999, 200.0, 9.999999), Rating(349.999999, 200.0);
    FourthPlace(maths, s, -10.0);
    FreshIsPartialIff(EvenLobby(maths), SeatOf(s), updated, 4, maths.sigmoid);
  }

  /** Both verdicts of the probe occur: a loss of 10 is inside the loss cap of 30, a loss of 80 is cut to it. */
  lemma BothVerdictsHappen(maths: Maths, step: real)
    requires step in {-10.0, -80.0}
    ensures EvenLobby(maths).Valid()
    ensures var lobby, s, updated := EvenLobby(maths), StateAt(500.0, 200.0, 150.0), Rating(500.0 + step, 200.0);
            && PlayerResult(lobby, SeatOf(s), updated, 4).crAfter == (if step == -10.0 then 140.0 else 120.0)
            && var legacy := Legacy(lobby, SeatOf(s), updated, 4);
            && legacy.Valid()
            && Explained(legacy, maths.sigmoid).cap.bound == (if step == -10.0 then NoBound else LossCap)
  {
    hide Explained, PlayerResult, Chain, Legacy, CapStageOf, CapFacts, CapBounds, MinGain, Season.Step, OffLimits,
         RawPreCap, RatingParams.MuFor;
    var lobby, s, updated := EvenLobby(maths), StateAt(500.0, 200.0, 150.0), Rating(500.0 + step, 200.0);
    FourthPlace(maths, s, step);
    SettledDelta(lobby, SeatOf(s), updated, 4);
    var r := PlayerResult(lobby, SeatOf(s), updated, 4);
    FactsAreDecided(lobby, DEFAULT_CAPS, SeatOf(s), r.preCapCrDelta, 4);
    DefaultCurves(4, 6, r.cap.value.compositeWin);
    ProbeIsSound(lobby, SeatOf(s), updated, 4);
    ProbeStage(lobby, SeatOf(s), updated, 4);
  }
}
