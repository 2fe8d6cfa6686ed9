/** The modifier pipeline and the season soft reset, backend/arena/rating/modifiers.py. */
module Modifiers {
  import opened Wrappers
  import opened Caps
  import opened Params
  import opened RatingTypes

  function PlacementWeight(placement: int, teamCount: int, p: RatingParams): real {
    if teamCount !in p.placementWeights then 1.0
    else
      match Entry(p.placementWeights[teamCount], placement)
      case Some(w) => w
      case None => 1.0
  }

  function PlacementAmp(s: PlayerState, p: RatingParams): real {
    if s.placementMatchesRemaining > 0 then p.placementAmp else 1.0
  }

  /** How much of the full bonus a streak of n earns. */
  function StreakShare(n: int, thr: int): real
    requires thr != 0
  {
    (if n <= thr then n else thr) as real / thr as real
  }

  /** Win bonus on a win streak, loss dampener on a loss streak. */
  function StreakMultiplier(streak: int, deltaSign: real, p: RatingParams): real
    requires p.streakThreshold != 0
  {
    var thr := p.streakThreshold;
    if deltaSign > 0.0 && streak > 0 then
      Min(p.streakWinCeil, 1.0 + StreakShare(streak, thr) * (p.streakWinCeil - 1.0))
    else if deltaSign < 0.0 && streak < 0 then
      Max(p.streakLossFloor, 1.0 - StreakShare(-streak, thr) * (1.0 - p.streakLossFloor))
    else 1.0
  }

  function NextStreak(streak: int, isWin: bool): int {
    if isWin then (if streak >= 0 then streak + 1 else 1)
    else if streak <= 0 then streak - 1
    else -1
  }

  /** Diminishing returns above the soft cap, for gains only. */
  function SoftCapFactor(cr: real, deltaMu: real, p: RatingParams): real
    requires p.softCapScale > 0.0
  {
    if deltaMu > 0.0 && cr > p.softCapThreshold then
      var excess := (cr - p.softCapThreshold) / p.softCapScale;
      assert excess > 0.0;
      1.0 / (1.0 + excess)
    else 1.0
  }

  /** The penalty of a flagged booster, and of a premade party: gains only. */
  function GainPenalty(deltaMu: real, factor: real): real {
    if deltaMu > 0.0 then 1.0 - Clamp(factor, 0.0, 1.0) else 1.0
  }

  /** The largest step the dispersion cap allows at this sigma. */
  function DispersionLimit(sigmaBefore: real, p: RatingParams): real
    requires p.dispersionSigmaRef > 0.0
  {
    p.maxDeltaMu * Max(1.0, sigmaBefore / p.dispersionSigmaRef)
  }

  function DispersionCap(deltaMu: real, sigmaBefore: real, p: RatingParams): (real, bool)
    requires p.dispersionSigmaRef > 0.0
  {
    var effective := DispersionLimit(sigmaBefore, p);
    (Clamp(deltaMu, -effective, effective), Abs(deltaMu) > effective)
  }

  function SoftReset(s: PlayerState, p: RatingParams): PlayerState {
    var mu := p.resetAnchor + (s.mu - p.resetAnchor) * p.resetFactor;
    var sigma := Min(s.sigma * p.sigmaResetMult, p.sigmaResetCap);
    var cr := p.ToCr(mu, sigma);
    PlayerState(s.playerId, mu, sigma, cr, 0, 0, p.placementMatchCount, cr)
  }

  lemma ShareIsProper(n: int, thr: int)
    requires n > 0 && thr != 0
    ensures 0.0 < StreakShare(n, thr) <= 1.0
  {
  }

  lemma PartOf(share: real, whole: real)
    requires 0.0 < share <= 1.0 && whole >= 0.0
    ensures 0.0 <= share * whole <= whole
  {
    assert (1.0 - share) * whole >= 0.0;
  }

  lemma StreakIsBounded(streak: int, delta: real, p: RatingParams)
    requires p.streakLossFloor <= 1.0 <= p.streakWinCeil && p.streakThreshold != 0
    ensures p.streakLossFloor <= StreakMultiplier(streak, delta, p) <= p.streakWinCeil
    ensures StreakMultiplier(streak, delta, p) > 1.0 ==> delta > 0.0 && streak > 0
  {
    hide StreakShare;
    if streak != 0 {
      var share := StreakShare(if streak > 0 then streak else -streak, p.streakThreshold);
      ShareIsProper(if streak > 0 then streak else -streak, p.streakThreshold);
      PartOf(share, p.streakWinCeil - 1.0);
      PartOf(share, 1.0 - p.streakLossFloor);
    }
  }

  /** Every validated multiplier is a bonus or a dampener of bounded size, on the side it is meant for. */
  lemma MultipliersAreBounded(streak: int, cr: real, delta: real, factor: real, p: RatingParams)
    requires p.Validated() && p.streakThreshold != 0
    ensures p.streakLossFloor <= StreakMultiplier(streak, delta, p) <= p.streakWinCeil
    ensures StreakMultiplier(streak, delta, p) > 1.0 ==> delta > 0.0 && streak > 0
    ensures 0.0 < SoftCapFactor(cr, delta, p) <= 1.0
    ensures 0.0 <= GainPenalty(delta, factor) <= 1.0
    ensures delta <= 0.0 ==> SoftCapFactor(cr, delta, p) == GainPenalty(delta, factor) == 1.0
  {
    hide StreakMultiplier;
    StreakIsBounded(streak, delta, p);
  }

  /** Each win adds the same part of the full bonus, and each loss of the full dampener, up to the threshold. */
  lemma StreakGrowsEvenly(n: int, p: RatingParams)
    requires p.Validated() && 0 < n <= p.streakThreshold
    ensures (StreakMultiplier(n, 1.0, p) - 1.0) * p.streakThreshold as real == n as real * (p.streakWinCeil - 1.0)
    ensures (1.0 - StreakMultiplier(-n, -1.0, p)) * p.streakThreshold as real == n as real * (1.0 - p.streakLossFloor)
  {
    var share := StreakShare(n, p.streakThreshold);
    ShareIsProper(n, p.streakThreshold);
    PartOf(share, p.streakWinCeil - 1.0);
    PartOf(share, 1.0 - p.streakLossFloor);
    ShareOfWhole(n, p.streakThreshold, p.streakWinCeil - 1.0);
    ShareOfWhole(n, p.streakThreshold, 1.0 - p.streakLossFloor);
    hide StreakShare;
  }

  lemma ShareOfWhole(n: int, thr: int, whole: real)
    requires 0 < n <= thr
    ensures StreakShare(n, thr) * whole * thr as real == n as real * whole
  {
    assert StreakShare(n, thr) * thr as real == n as real;
  }

  /** The streak after a list of results, oldest first. */
  function StreakAfter(wins: seq<bool>): int {
    if wins == [] then 0 else NextStreak(StreakAfter(wins[..|wins| - 1]), wins[|wins| - 1])
  }

  /** The streak is the length of the run of equal results at the end, negative for losses. */
  lemma {:induction false} StreakCountsTheLastRun(wins: seq<bool>)
    requires wins != []
    ensures var n, k := |wins|, StreakAfter(wins);
            var last := wins[n - 1];
            && (if last then 0 < k <= n else 0 < -k <= n)
            && (forall i :: n - (if last then k else -k) <= i < n ==> wins[i] == last)
            && (n > (if last then k else -k) ==> wins[n - (if last then k else -k) - 1] != last)
  {
    if |wins| > 1 { StreakCountsTheLastRun(wins[..|wins| - 1]); }
  }
}
