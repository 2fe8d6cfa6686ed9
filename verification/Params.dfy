/** The rating parameters and their validation, backend/arena/rating/params.py. */
module Params {
  import opened Wrappers
  import opened Caps

  datatype RatingParams = RatingParams(
    mu0: real,
    sigma0: real,
    beta: real,
    tau: real,
    kappa: real,
    scaleFactor: real,
    baseOffset: real,
    placementWeights: Curves,
    placementAmp: real,
    placementMatchCount: int,
    streakLossFloor: real,
    streakWinCeil: real,
    streakThreshold: int,
    softCapThreshold: real,
    softCapScale: real,
    maxDeltaMu: real,
    dispersionSigmaRef: real,
    resetAnchor: real,
    resetFactor: real,
    sigmaResetMult: real,
    sigmaResetCap: real,
    caps: Option<CapParams>)
  {
    /** `validate_params`, on numbers that are finite to begin with. */
    predicate Validated() {
      && sigma0 > 0.0 && beta > 0.0
      && 0.0 < kappa < 1.0
      && dispersionSigmaRef > 0.0 && softCapScale > 0.0
      && streakLossFloor <= 1.0 <= streakWinCeil
      && placementWeights != map[]
      && forall teamCount <- placementWeights :: |placementWeights[teamCount]| == teamCount
    }

    /** What validation leaves open and the engine divides by or indexes with. */
    predicate WellFormed() {
      scaleFactor != 0.0 && streakThreshold != 0 && (caps.Some? ==> caps.value.WellFormed())
    }

    /** Display points before the floor at zero. */
    function RawCr(mu: real, sigma: real): real {
      (mu - 3.0 * sigma) * scaleFactor + baseOffset
    }

    /** `to_cr`: the displayed points. */
    function ToCr(mu: real, sigma: real): real {
      Max(0.0, RawCr(mu, sigma))
    }

    /** The mean that displays as `cr` at this sigma. */
    function MuFor(cr: real, sigma: real): real
      requires scaleFactor != 0.0
    {
      (cr - baseOffset) / scaleFactor + 3.0 * sigma
    }
  }

  function Sum(xs: seq<real>): real {
    if xs == [] then 0.0 else Sum(xs[..|xs| - 1]) + xs[|xs| - 1]
  }

  /** `_renorm`: scale a weight curve to mean 1; an empty curve or one that sums to zero is an error. */
  function Renorm(weights: seq<real>): seq<real>
    requires Sum(weights) != 0.0
  {
    var mean := Sum(weights) / |weights| as real;
    seq(|weights|, i requires 0 <= i < |weights| => weights[i] / mean)
  }

  lemma {:induction false} SumDivides(xs: seq<real>, ys: seq<real>, k: real)
    requires k != 0.0 && |xs| == |ys| && forall i :: 0 <= i < |xs| ==> ys[i] == xs[i] / k
    ensures Sum(ys) == Sum(xs) / k
  {
    if xs != [] {
      var n := |xs| - 1;
      SumDivides(xs[..n], ys[..n], k);
      assert (Sum(xs[..n]) + xs[n]) / k == Sum(xs[..n]) / k + xs[n] / k;
    }
  }

  /** A renormalised curve has mean 1, so the weights of a whole lobby add nothing on balance. */
  lemma RenormHasMeanOne(weights: seq<real>)
    requires Sum(weights) != 0.0
    ensures |Renorm(weights)| == |weights| && Sum(Renorm(weights)) == |weights| as real
  {
    SumDivides(weights, Renorm(weights), Sum(weights) / |weights| as real);
  }

  lemma {:induction false} SumIsPositive(xs: seq<real>)
    requires xs != [] && forall i :: 0 <= i < |xs| ==> xs[i] > 0.0
    ensures Sum(xs) > 0.0
  {
    if |xs| > 1 { SumIsPositive(xs[..|xs| - 1]); }
  }

  const RAW_WEIGHTS_8: seq<real> := [1.20, 1.12, 1.06, 1.01, 1.01, 1.06, 1.12, 1.20]
  const RAW_WEIGHTS_6: seq<real> := [1.18, 1.08, 1.02, 1.02, 1.08, 1.18]

  const DEFAULT_CAPS := CapParams(
    SYMMETRIC_CAPS_6 + CAPS_8, 100.0, 0.5, 0.25, 1.25, 150.0, 5, 1380.0, 120.0, 0.40, 0.5, 1.25,
    Some(68.0), Some(LOSS_CAPS_6 + LOSS_CAPS_8), Some(MIN_GAIN_6 + MIN_GAIN_8))

  function DefaultWeights(): (weights: Curves)
    ensures weights.Keys == {6, 8} && |weights[6]| == 6 && |weights[8]| == 8
  {
    SumIsPositive(RAW_WEIGHTS_6);
    SumIsPositive(RAW_WEIGHTS_8);
    map[8 := Renorm(RAW_WEIGHTS_8), 6 := Renorm(RAW_WEIGHTS_6)]
  }

  const DEFAULT_PARAMS := RatingParams(
    1000.0, 200.0, 100.0, 1.5, 0.0001, 1.0, 250.0, DefaultWeights(), 1.0, 10, 0.5, 1.35, 3, 5000.0, 1000.0,
    80.0, 200.0, 1000.0, 0.5, 1.5, 200.0, Some(DEFAULT_CAPS))

  /** The shipped parameters pass the guard, and a new player starts at 650 points. */
  lemma DefaultsAreSound()
    ensures DEFAULT_PARAMS.Validated() && DEFAULT_PARAMS.WellFormed() && DEFAULT_CAPS.NonNegativeGains()
    ensures DEFAULT_PARAMS.RawCr(DEFAULT_PARAMS.mu0, DEFAULT_PARAMS.sigma0) == 650.0
  {
    assert 6 in DEFAULT_PARAMS.placementWeights;
  }
}
