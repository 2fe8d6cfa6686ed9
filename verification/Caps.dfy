/**
 The CR-space cap layer of backend/arena/rating/caps.py. The infinite bounds of a placement without a curve are
 the case `Unbounded`; the logistic function is a parameter with values in (0, 1).
 */
module Caps {
  import opened Wrappers

  /** Curves are keyed by team count and indexed by placement, first place first. */
  type Curves = map<int, seq<real>>

  datatype CapParams = CapParams(
    baseCapByPlacement: Curves,
    mismatchBeta: real,
    mismatchThreshold: real,
    mismatchSlope: real,
    mismatchMaxMult: real,
    mismatchSigmaGate: real,
    mismatchGamesGate: int,
    highCrMidpoint: real,
    highCrSteepness: real,
    highCrMaxReduction: real,
    compositeFloor: real,
    compositeCeil: real,
    lossClamp: Option<real>,
    lossCapByPlacement: Option<Curves>,
    minGainByPlacement: Option<Curves>)
  {
    /** Nothing is divided by zero and a curve has as many entries as teams; the source raises otherwise. */
    predicate WellFormed() {
      && mismatchBeta != 0.0
      && highCrSteepness != 0.0
      && forall teamCount <- baseCapByPlacement :: |baseCapByPlacement[teamCount]| == teamCount
    }

    /** No gain cap is negative. */
    predicate NonNegativeGains() {
      && 0.0 <= compositeFloor <= compositeCeil
      && forall teamCount <- baseCapByPlacement :: forall c <- baseCapByPlacement[teamCount] :: c >= 0.0
    }
  }

  const SYMMETRIC_CAPS_6: Curves := map[6 := [40.0, 34.0, 26.0, 26.0, 34.0, 40.0]]
  const CAPS_8: Curves := map[8 := [40.0, 35.0, 28.0, 22.0, 22.0, 28.0, 35.0, 40.0]]
  const LOSS_CAPS_6: Curves := map[6 := [30.0, 30.0, 30.0, 30.0, 45.0, 68.0]]
  const LOSS_CAPS_8: Curves := map[8 := [30.0, 30.0, 30.0, 30.0, 30.0, 42.0, 55.0, 68.0]]
  const MIN_GAIN_6: Curves := map[6 := [15.0, 10.0, 5.0, 0.0, 0.0, 0.0]]
  const MIN_GAIN_8: Curves := map[8 := [15.0, 11.0, 7.0, 4.0, 0.0, 0.0, 0.0, 0.0]]

  datatype CapBound = NoBound | GainCap | LossCap | MinGainFloor

  datatype Bounds = Unbounded | Bounded(lo: real, hi: real)

  datatype CapDecision = CapDecision(value: real, changed: bool, bounds: Bounds, floor: real, bound: CapBound)

  ghost predicate IsSigmoid(sigmoid: real -> real) {
    forall x :: 0.0 < sigmoid(x) < 1.0
  }

  function Clamp(x: real, lo: real, hi: real): real {
    if x < lo then lo else if x > hi then hi else x
  }

  function Entry(curve: seq<real>, placement: int): Option<real> {
    if 1 <= placement <= |curve| then Some(curve[placement - 1]) else None
  }

  function MismatchOverride(mu: real, lobbyMean: real, sigma: real, games: int, cp: CapParams): real
    requires cp.WellFormed()
  {
    if !(sigma < cp.mismatchSigmaGate || games >= cp.mismatchGamesGate) then 1.0
    else
      var z := (mu - lobbyMean) / cp.mismatchBeta;
      Clamp(1.0 + cp.mismatchSlope * Max(0.0, z - cp.mismatchThreshold), 1.0, cp.mismatchMaxMult)
  }

  function HighCrScale(crBefore: real, cp: CapParams, sigmoid: real -> real): real
    requires cp.WellFormed()
  {
    1.0 - cp.highCrMaxReduction * sigmoid((crBefore - cp.highCrMidpoint) / cp.highCrSteepness)
  }

  function CompositeWinMult(ovr: real, hcs: real, partyMult: real, cp: CapParams): real {
    Clamp(ovr * hcs * partyMult, cp.compositeFloor, cp.compositeCeil)
  }

  /** The magnitude of a placement's loss cap: its own curve, else the flat clamp, else the mirrored gain curve. */
  function LossMagnitude(placement: int, teamCount: int, cp: CapParams): real
    requires cp.WellFormed() && teamCount in cp.baseCapByPlacement
    requires 1 <= placement <= |cp.baseCapByPlacement[teamCount]|
  {
    var base := cp.baseCapByPlacement[teamCount];
    if cp.lossCapByPlacement.Some? && teamCount in cp.lossCapByPlacement.value
       && |cp.lossCapByPlacement.value[teamCount]| == |base|
    then cp.lossCapByPlacement.value[teamCount][placement - 1]
    else if cp.lossClamp.Some? then cp.lossClamp.value
    else base[teamCount - placement]
  }

  function CapBounds(placement: int, teamCount: int, compositeWin: real, compositeLoss: real, cp: CapParams): Bounds
    requires cp.WellFormed()
  {
    if teamCount !in cp.baseCapByPlacement || !(1 <= placement <= |cp.baseCapByPlacement[teamCount]|) then Unbounded
    else Bounded(-LossMagnitude(placement, teamCount, cp) * compositeLoss,
                 cp.baseCapByPlacement[teamCount][placement - 1] * compositeWin)
  }

  function MinGain(placement: int, teamCount: int, cp: CapParams): real {
    if cp.minGainByPlacement.None? || teamCount !in cp.minGainByPlacement.value then 0.0
    else
      match Entry(cp.minGainByPlacement.value[teamCount], placement)
      case Some(v) => v
      case None => 0.0
  }

  /** The part of the minimum gain that is left for a flagged booster. */
  function GainFloor(placement: int, teamCount: int, mult: real, cp: CapParams): real {
    MinGain(placement, teamCount, cp) * Clamp(mult, 0.0, 1.0)
  }

  function ClampWithin(x: real, bounds: Bounds): real {
    if bounds.Unbounded? then x else Clamp(x, bounds.lo, bounds.hi)
  }

  /** A floor never exceeds the gain cap. */
  function FloorWithin(floor: real, bounds: Bounds): real {
    if bounds.Unbounded? then floor else Min(floor, bounds.hi)
  }

  /** Clamp the raw delta to the bounds, then lift it to the floor; the label is the last rule that moved it. */
  function Decide(raw: real, bounds: Bounds, floor: real): CapDecision {
    var clamped := ClampWithin(raw, bounds);
    var moved := if clamped > raw then LossCap else if clamped < raw then GainCap else NoBound;
    var lifted := if floor > 0.0 then Max(clamped, FloorWithin(floor, bounds)) else clamped;
    CapDecision(lifted, lifted != raw, bounds, floor, if lifted != clamped then MinGainFloor else moved)
  }

  function DecidePdlCap(
      raw: real, placement: int, teamCount: int, compositeWin: real, compositeLoss: real, cp: CapParams,
      gainFloorMult: real): CapDecision
    requires cp.WellFormed()
  {
    Decide(raw, CapBounds(placement, teamCount, compositeWin, compositeLoss, cp),
           GainFloor(placement, teamCount, gainFloorMult, cp))
  }

  lemma DecisionCarriesLimits(raw: real, bounds: Bounds, floor: real)
    ensures Decide(raw, bounds, floor).bounds == bounds && Decide(raw, bounds, floor).floor == floor
  {
  }

  /**
   The decision is the raw delta or one of the three candidates, the label names which, and the label is "none"
   exactly when nothing moved.
   */
  lemma DecisionIsCandidate(raw: real, bounds: Bounds, floor: real)
    ensures var d := Decide(raw, bounds, floor);
            match d.bound
            case NoBound => d.value == raw
            case LossCap => bounds.Bounded? && d.value == bounds.lo > raw
            case GainCap => bounds.Bounded? && d.value == bounds.hi < raw
            case MinGainFloor => floor > 0.0 && d.value == FloorWithin(floor, bounds) > ClampWithin(raw, bounds)
    ensures Decide(raw, bounds, floor).changed <==> Decide(raw, bounds, floor).bound != NoBound
  {
  }

  /** Between ordered bounds the decision stays within them, whatever the floor. */
  lemma DecisionIsWithin(raw: real, bounds: Bounds, floor: real)
    requires bounds.Bounded? && bounds.lo <= bounds.hi
    ensures bounds.lo <= Decide(raw, bounds, floor).value <= bounds.hi
    ensures floor > 0.0 ==> Decide(raw, bounds, floor).value >= Min(floor, bounds.hi)
  {
  }

  /** Deciding twice changes nothing, and a larger raw delta never gets less. */
  lemma DecisionIsMonotoneProjection(raw: real, more: real, bounds: Bounds, floor: real)
    requires raw <= more && (bounds.Bounded? ==> bounds.lo <= bounds.hi)
    ensures Decide(raw, bounds, floor).value <= Decide(more, bounds, floor).value
    ensures !Decide(Decide(raw, bounds, floor).value, bounds, floor).changed
  {
  }

  /** The win-side multiplier is as near as the composite floor and ceiling allow to the product it is made of. */
  lemma CompositeIsNearest(ovr: real, hcs: real, cp: CapParams, x: real)
    requires cp.compositeFloor <= x <= cp.compositeCeil
    ensures Abs(CompositeWinMult(ovr, hcs, 1.0, cp) - ovr * hcs) <= Abs(x - ovr * hcs)
  {
    var product := ovr * hcs;
    assert product * 1.0 == product;
  }

  /** So it stays between them. */
  lemma CompositeIsBounded(ovr: real, hcs: real, cp: CapParams)
    requires cp.compositeFloor <= cp.compositeCeil
    ensures cp.compositeFloor <= CompositeWinMult(ovr, hcs, 1.0, cp) <= cp.compositeCeil
  {
  }

  /**
   Where a loss cap comes from: the loss curve of that many teams; without one the flat clamp; and without that too the
   gain curve upside down, so that the last loses at most what the first can gain.
   */
  lemma LossCapsMirrorGains(placement: int, teamCount: int, cp: CapParams)
    requires cp.WellFormed() && teamCount in cp.baseCapByPlacement && 1 <= placement <= teamCount
    ensures var bounds := CapBounds(placement, teamCount, 1.0, 1.0, cp);
            var mirrored := CapBounds(teamCount + 1 - placement, teamCount, 1.0, 1.0, cp);
            var curved := cp.lossCapByPlacement.Some? && teamCount in cp.lossCapByPlacement.value
                          && |cp.lossCapByPlacement.value[teamCount]| == teamCount;
            && bounds.Bounded? && mirrored.Bounded?
            && (curved ==> bounds.lo == -cp.lossCapByPlacement.value[teamCount][placement - 1])
            && (!curved && cp.lossClamp.Some? ==> bounds.lo == mirrored.lo == -cp.lossClamp.value)
            && (!curved && cp.lossClamp.None? ==> bounds.lo == -mirrored.hi && mirrored.lo == -bounds.hi)
  {
  }

  lemma ScalesOrder(x: real, y: real, k: real)
    requires k > 0.0
    ensures x < y <==> x * k < y * k
  {
    var d := y - x;
    assert d * k == y * k - x * k;
    if d > 0.0 { assert d * k > 0.0; } else { assert -d * k >= 0.0; }
  }

  /**
   The mismatch override only ever raises the gain cap, and only for an estimate that can be trusted of a player
   above the threshold.
   */
  lemma OverrideOnlyRaises(mu: real, lobbyMean: real, sigma: real, games: int, cp: CapParams)
    requires cp.WellFormed() && cp.mismatchMaxMult >= 1.0 && cp.mismatchBeta > 0.0
    ensures var ovr := MismatchOverride(mu, lobbyMean, sigma, games, cp);
            && 1.0 <= ovr <= cp.mismatchMaxMult
            && (ovr > 1.0 ==>
                 && (sigma < cp.mismatchSigmaGate || games >= cp.mismatchGamesGate)
                 && mu - lobbyMean > cp.mismatchThreshold * cp.mismatchBeta)
  {
    var z := (mu - lobbyMean) / cp.mismatchBeta;
    assert z * cp.mismatchBeta == mu - lobbyMean;
    ScalesOrder(cp.mismatchThreshold, z, cp.mismatchBeta);
    assert z <= cp.mismatchThreshold ==> cp.mismatchSlope * Max(0.0, z - cp.mismatchThreshold) == 0.0;
  }

  /**
   What raises the override: nothing up to the threshold; above it, for an estimate that can be trusted because sigma is
   small or enough games were played, each spread of the mean over the lobby adds the slope, up to the maximum.
   */
  lemma OverrideRises(mu: real, lobbyMean: real, sigma: real, games: int, cp: CapParams)
    requires cp.WellFormed() && cp.mismatchBeta > 0.0 && cp.mismatchSlope >= 0.0 && cp.mismatchMaxMult >= 1.0
    requires sigma < cp.mismatchSigmaGate || games >= cp.mismatchGamesGate
    ensures mu - lobbyMean <= cp.mismatchThreshold * cp.mismatchBeta ==>
              MismatchOverride(mu, lobbyMean, sigma, games, cp) == 1.0
    ensures mu - lobbyMean >= cp.mismatchThreshold * cp.mismatchBeta ==>
              MismatchOverride(mu + cp.mismatchBeta, lobbyMean, sigma, games, cp)
              == Min(cp.mismatchMaxMult, MismatchOverride(mu, lobbyMean, sigma, games, cp) + cp.mismatchSlope)
  {
    var x := mu - lobbyMean;
    var z := x / cp.mismatchBeta;
    assert z * cp.mismatchBeta == x;
    ScalesOrder(cp.mismatchThreshold, z, cp.mismatchBeta);
    ScalesOrder(z, cp.mismatchThreshold, cp.mismatchBeta);
    OneSpreadMore(x, cp.mismatchBeta);
    assert (x + cp.mismatchBeta) / cp.mismatchBeta - cp.mismatchThreshold == z - cp.mismatchThreshold + 1.0;
    assert mu + cp.mismatchBeta - lobbyMean == x + cp.mismatchBeta;
    SlopeClamps(cp.mismatchSlope, z - cp.mismatchThreshold, cp.mismatchMaxMult);
  }

  lemma SlopeClamps(slope: real, over: real, most: real)
    requires slope >= 0.0 && most >= 1.0
    ensures over <= 0.0 ==> Clamp(1.0 + slope * Max(0.0, over), 1.0, most) == 1.0
    ensures over >= 0.0 ==> Clamp(1.0 + slope * Max(0.0, over + 1.0), 1.0, most)
                            == Min(most, Clamp(1.0 + slope * Max(0.0, over), 1.0, most) + slope)
  {
    var rise := slope * over;
    assert slope * (over + 1.0) == rise + slope;
    assert slope * 0.0 == 0.0;
    if over >= 0.0 {
      assert rise >= 0.0;
      assert Max(0.0, over) == over && Max(0.0, over + 1.0) == over + 1.0;
    } else {
      assert Max(0.0, over) == 0.0;
    }
  }

  lemma OneSpreadMore(x: real, beta: real)
    requires beta != 0.0
    ensures (x + beta) / beta == x / beta + 1.0
  {
    var z, w := x / beta, (x + beta) / beta;
    assert z * beta == x;
    assert w * beta == x + beta;
    var d := w - z - 1.0;
    assert d * beta == 0.0 by { assert d * beta == w * beta - z * beta - beta; }
  }

  /** More points never mean a larger gain cap: with a rising curve the high-CR scale falls. */
  lemma HighCrFalls(cr: real, more: real, cp: CapParams, sigmoid: real -> real)
    requires cp.WellFormed() && cp.highCrSteepness > 0.0 && cp.highCrMaxReduction >= 0.0 && cr <= more
    requires forall x, y :: x <= y ==> sigmoid(x) <= sigmoid(y)
    ensures HighCrScale(more, cp, sigmoid) <= HighCrScale(cr, cp, sigmoid)
    ensures HighCrScale(cp.highCrMidpoint, cp, sigmoid) == 1.0 - cp.highCrMaxReduction * sigmoid(0.0)
  {
    var x, y := (cr - cp.highCrMidpoint) / cp.highCrSteepness, (more - cp.highCrMidpoint) / cp.highCrSteepness;
    assert x * cp.highCrSteepness == cr - cp.highCrMidpoint && y * cp.highCrSteepness == more - cp.highCrMidpoint;
    ScalesOrder(y, x, cp.highCrSteepness);
    assert cp.highCrMaxReduction * (sigmoid(y) - sigmoid(x)) >= 0.0;
    assert (cp.highCrMidpoint - cp.highCrMidpoint) / cp.highCrSteepness == 0.0;
  }

  /** The high-CR scale takes a share of its maximum reduction off, never none and never all of it. */
  lemma HighCrTakesAShare(cr: real, cp: CapParams, sigmoid: real -> real) returns (share: real)
    requires cp.WellFormed() && IsSigmoid(sigmoid)
    ensures 0.0 < share < 1.0 && HighCrScale(cr, cp, sigmoid) == 1.0 - cp.highCrMaxReduction * share
  {
    share := sigmoid((cr - cp.highCrMidpoint) / cp.highCrSteepness);
  }
}
