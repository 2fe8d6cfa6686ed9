/**
 The match rating engine of backend/arena/rating/engine.py. The Plackett-Luce update of the openskill library and
 the logistic function are parameters; everything around them is modelled branch by branch over the reals.
 */
module Engine {
  import opened Wrappers
  import opened Caps
  import opened Params
  import opened RatingTypes
  import opened Modifiers
  import Sorting

  datatype Rating = Rating(mu: real, sigma: real)

  predicate SameShape(a: seq<seq<Rating>>, b: seq<seq<Rating>>) {
    |a| == |b| && forall i :: 0 <= i < |a| ==> |a[i]| == |b[i]|
  }

  predicate PositiveSigmas(teams: seq<seq<Rating>>) {
    forall i, j :: 0 <= i < |teams| && 0 <= j < |teams[i]| ==> teams[i][j].sigma > 0.0
  }

  /** The foreign functions: one logistic curve, and one update of all teams by their ranks. */
  datatype Maths = Maths(
    sigmoid: real -> real,
    plackettLuce: (RatingParams, seq<seq<Rating>>, seq<int>) -> seq<seq<Rating>>)
  {
    /** All that is known of them. */
    ghost predicate Sound() {
      && IsSigmoid(sigmoid)
      && (forall p, teams, ranks :: |teams| == |ranks| ==> SameShape(plackettLuce(p, teams, ranks), teams))
      && (forall p, teams, ranks :: |teams| == |ranks| && PositiveSigmas(teams) ==>
           PositiveSigmas(plackettLuce(p, teams, ranks)))
    }
  }

  /** What is the same for every player of one match. */
  datatype Lobby = Lobby(params: RatingParams, maths: Maths, teamCount: nat, sumMu: real, headcount: nat) {
    predicate Valid() {
      params.Validated() && params.WellFormed()
    }

    predicate IsWin(placement: int) {
      placement <= teamCount / 2
    }

    /** The mean over everybody else. */
    function MeanWithout(mu: real): real {
      if headcount > 1 then (sumMu - mu) / (headcount - 1) as real else mu
    }
  }

  // ---- One player ----

  const IDENTITY := AppliedModifiers(0.0, 1.0, 1.0, 1.0, 1.0, 1.0, 1.0, false, 0.0)

  function Frozen(pt: ParticipantInput, isWin: bool, teamCount: nat): PlayerRatingResult {
    var s := pt.state;
    PlayerRatingResult(pt.playerId, s.mu, s.mu, s.sigma, s.sigma, s.cr, s.cr, 0.0, false, isWin, s.currentStreak,
                       IDENTITY, None, 0.0, 0.0, teamCount)
  }

  function Sign(x: real): real {
    if x > 0.0 then 1.0 else if x < 0.0 then -1.0 else 0.0
  }

  /** The modifier chain on the Plackett-Luce step, closed by the dispersion cap. */
  function Chain(p: RatingParams, pt: ParticipantInput, base: real, placement: int, teamCount: nat): AppliedModifiers
    requires p.Validated() && p.WellFormed()
  {
    var s := pt.state;
    var pw, pa := PlacementWeight(placement, teamCount, p), PlacementAmp(s, p);
    var sm, scf := StreakMultiplier(s.currentStreak, Sign(base), p), SoftCapFactor(s.cr, base, p);
    var bf, df := GainPenalty(base, pt.boostingPenaltyFactor), GainPenalty(base, pt.partyPenaltyFactor);
    var (final, clamped) := DispersionCap(base * pw * pa * sm * scf * bf * df, s.sigma, p);
    AppliedModifiers(base, pw, pa, sm, scf, bf, df, clamped, final)
  }

  /** The new sigma; a boosting flag freezes its share of the shrinkage. */
  function SigmaAfter(sigma: real, updated: real, boosting: real): real {
    var f := Clamp(boosting, 0.0, 1.0);
    if f > 0.0 then sigma - (1.0 - f) * (sigma - updated) else updated
  }

  /** The facts of the cap layer for one raw delta. */
  function CapFacts(lobby: Lobby, cp: CapParams, pt: ParticipantInput, raw: real, placement: int): CapExplanation
    requires lobby.Valid() && cp.WellFormed()
  {
    var s := pt.state;
    var lobbyMean := lobby.MeanWithout(s.mu);
    var ovr := MismatchOverride(s.mu, lobbyMean, s.sigma, s.matchesPlayed, cp);
    var hcs := HighCrScale(s.cr, cp, lobby.maths.sigmoid);
    var composite := CompositeWinMult(ovr, hcs, 1.0, cp);
    var floorMult := 1.0 - Clamp(pt.boostingPenaltyFactor, 0.0, 1.0);
    var d := DecidePdlCap(raw, placement, lobby.teamCount, composite, 1.0, cp, floorMult);
    CapExplanation(d.bound, raw, d.value, d.bounds, d.floor, ovr, hcs, composite, 1.0, floorMult,
                   lobby.teamCount, lobbyMean)
  }

  /** Points and mean after the cap layer and the floor at zero. */
  function Settle(
      p: RatingParams, cap: Option<CapExplanation>, crBefore: real, cr: real, mu: real, sigma: real): (real, real)
    requires p.WellFormed()
  {
    var (cr', mu') :=
      if cap.Some? && cap.value.cappedCrDelta != cr - crBefore
      then (crBefore + cap.value.cappedCrDelta, p.MuFor(crBefore + cap.value.cappedCrDelta, sigma))
      else (cr, mu);
    if cr' < 0.0 then (0.0, p.MuFor(0.0, sigma)) else (cr', mu')
  }

  function PlayerResult(lobby: Lobby, pt: ParticipantInput, updated: Rating, placement: int): PlayerRatingResult
    requires lobby.Valid()
  {
    var p, s := lobby.params, pt.state;
    if !pt.eligibleForProgression then Frozen(pt, lobby.IsWin(placement), lobby.teamCount)
    else
      var chain := Chain(p, pt, updated.mu - s.mu, placement, lobby.teamCount);
      var sigma := SigmaAfter(s.sigma, updated.sigma, pt.boostingPenaltyFactor);
      var mu := s.mu + chain.finalDeltaMu;
      var raw := p.ToCr(mu, sigma) - s.cr;
      var cap := if p.caps.Some? then Some(CapFacts(lobby, p.caps.value, pt, raw, placement)) else None;
      var (crAfter, muAfter) := Settle(p, cap, s.cr, p.ToCr(mu, sigma), mu, sigma);
      PlayerRatingResult(
        pt.playerId, s.mu, muAfter, s.sigma, sigma, s.cr, crAfter, crAfter - s.cr, true, lobby.IsWin(placement),
        NextStreak(s.currentStreak, lobby.IsWin(placement)), chain, cap, -3.0 * (sigma - s.sigma) * p.scaleFactor,
        raw, lobby.teamCount)
  }

  /** The body of the engine's inner loop, with the points and the mean reassigned as it goes. */
  method RatePlayer(lobby: Lobby, pt: ParticipantInput, updated: Rating, placement: int)
    returns (r: PlayerRatingResult)
    requires lobby.Valid()
    ensures r == PlayerResult(lobby, pt, updated, placement)
  {
    hide MismatchOverride, HighCrScale, CompositeWinMult, DecidePdlCap, StreakMultiplier, SoftCapFactor,
         GainPenalty, DispersionCap, PlacementWeight, PlacementAmp, SigmaAfter, Chain, CapFacts;
    var p, s := lobby.params, pt.state;
    var isWin := lobby.IsWin(placement);
    if !pt.eligibleForProgression {
      return Frozen(pt, isWin, lobby.teamCount);
    }
    var chain := Chain(p, pt, updated.mu - s.mu, placement, lobby.teamCount);
    var muAfter := s.mu + chain.finalDeltaMu;
    var sigmaAfter := SigmaAfter(s.sigma, updated.sigma, pt.boostingPenaltyFactor);
    var crAfter := p.ToCr(muAfter, sigmaAfter);
    var confidence := -3.0 * (sigmaAfter - s.sigma) * p.scaleFactor;
    var raw := crAfter - s.cr;
    var cap: Option<CapExplanation> := None;
    if p.caps.Some? {
      cap := Some(CapFacts(lobby, p.caps.value, pt, raw, placement));
      if cap.value.cappedCrDelta != raw {
        crAfter := s.cr + cap.value.cappedCrDelta;
        muAfter := p.MuFor(crAfter, sigmaAfter);
      }
    }
    if crAfter < 0.0 {
      crAfter := 0.0;
      muAfter := p.MuFor(crAfter, sigmaAfter);
    }
    r := PlayerRatingResult(
      pt.playerId, s.mu, muAfter, s.sigma, sigmaAfter, s.cr, crAfter, crAfter - s.cr, true, isWin,
      NextStreak(s.currentStreak, isWin), chain, cap, confidence, raw, lobby.teamCount);
  }

  // ---- The whole match ----

  predicate TeamLeq(a: TeamInput, b: TeamInput) {
    a.placement < b.placement || (a.placement == b.placement && a.teamId <= b.teamId)
  }

  predicate PlayerLeq(a: ParticipantInput, b: ParticipantInput) {
    Sorting.StringLeq(a.playerId, b.playerId)
  }

  /** A team with its players by id. */
  function Lined(t: TeamInput): TeamInput {
    t.(participants := Sorting.Sorted(t.participants, PlayerLeq))
  }

  /** The engine's order: teams by placement and id, players by id. */
  function Canonical(teams: seq<TeamInput>): seq<TeamInput> {
    var sorted := Sorting.Sorted(teams, TeamLeq);
    seq(|sorted|, i requires 0 <= i < |sorted| => Lined(sorted[i]))
  }

  predicate AnyEligible(teams: seq<TeamInput>) {
    exists t <- teams :: exists pt <- t.participants :: pt.eligibleForProgression
  }

  predicate AnyEmpty(teams: seq<TeamInput>) {
    exists t <- teams :: t.participants == []
  }

  function Flatten<T>(parts: seq<seq<T>>): seq<T> {
    if parts == [] then [] else Flatten(parts[..|parts| - 1]) + parts[|parts| - 1]
  }

  function Mus(teams: seq<TeamInput>): seq<real> {
    Flatten(seq(|teams|, i requires 0 <= i < |teams| =>
      seq(|teams[i].participants|, j requires 0 <= j < |teams[i].participants| => teams[i].participants[j].state.mu)))
  }

  function Ratings(teams: seq<TeamInput>): seq<seq<Rating>> {
    seq(|teams|, i requires 0 <= i < |teams| =>
      seq(|teams[i].participants|, j requires 0 <= j < |teams[i].participants| =>
        Rating(teams[i].participants[j].state.mu, teams[i].participants[j].state.sigma)))
  }

  function Ranks(teams: seq<TeamInput>): seq<int> {
    seq(|teams|, i requires 0 <= i < |teams| => teams[i].placement)
  }

  function LobbyOf(p: RatingParams, maths: Maths, ordered: seq<TeamInput>): Lobby {
    var mus := Mus(ordered);
    Lobby(p, maths, |ordered|, Sum(mus), |mus|)
  }

  function TeamResults(lobby: Lobby, t: TeamInput, updated: seq<Rating>): seq<PlayerRatingResult>
    requires lobby.Valid() && |updated| == |t.participants|
  {
    seq(|t.participants|, i requires 0 <= i < |t.participants| =>
      PlayerResult(lobby, t.participants[i], updated[i], t.placement))
  }

  function FrozenTeam(lobby: Lobby, t: TeamInput): seq<PlayerRatingResult> {
    seq(|t.participants|, i requires 0 <= i < |t.participants| =>
      Frozen(t.participants[i], lobby.IsWin(t.placement), lobby.teamCount))
  }

  /** The results of a lobby already in the engine's order. */
  function Results(lobby: Lobby, ordered: seq<TeamInput>): seq<PlayerRatingResult>
    requires lobby.Valid() && lobby.maths.Sound()
  {
    var updated := lobby.maths.plackettLuce(lobby.params, Ratings(ordered), Ranks(ordered));
    Flatten(seq(|ordered|, i requires 0 <= i < |ordered| => TeamResults(lobby, ordered[i], updated[i])))
  }

  /** What `rate` returns, or the error it raises. */
  function Rated(m: MatchInput, maths: Maths): Result<RatingResult, RatingError>
    requires maths.Sound() && m.params.WellFormed()
  {
    if !m.params.Validated() then Err(InvalidParams)
    else if |m.teams| < 2 then Err(TooFewTeams)
    else if AnyEmpty(m.teams) then Err(EmptyTeam)
    else
      var ordered := Canonical(m.teams);
      var lobby := LobbyOf(m.params, maths, ordered);
      if AnyEligible(m.teams) then Ok(RatingResult(m.matchId, false, Results(lobby, ordered)))
      else
        Ok(RatingResult(m.matchId, true,
                        Flatten(seq(|ordered|, i requires 0 <= i < |ordered| => FrozenTeam(lobby, ordered[i])))))
  }

  method Rate(m: MatchInput, maths: Maths) returns (r: Result<RatingResult, RatingError>)
    requires maths.Sound() && m.params.WellFormed()
    ensures r == Rated(m, maths)
  {
    hide PlayerResult, Sum, Canonical, Ratings, Mus, Frozen, Maths.Sound;
    if !m.params.Validated() { return Err(InvalidParams); }
    if |m.teams| < 2 { return Err(TooFewTeams); }
    if AnyEmpty(m.teams) { return Err(EmptyTeam); }
    var ordered := Canonical(m.teams);
    var lobby := LobbyOf(m.params, maths, ordered);
    var results: seq<PlayerRatingResult> := [];
    if !AnyEligible(m.teams) {
      ghost var all := seq(|ordered|, i requires 0 <= i < |ordered| => FrozenTeam(lobby, ordered[i]));
      for i := 0 to |ordered|
        invariant results == Flatten(all[..i])
      {
        for j := 0 to |ordered[i].participants|
          invariant results == Flatten(all[..i]) + all[i][..j]
        {
          results := results + [Frozen(ordered[i].participants[j], lobby.IsWin(ordered[i].placement), |ordered|)];
        }
        assert all[..i + 1][..i] == all[..i] && all[i][..|all[i]|] == all[i];
      }
      assert all[..|all|] == all;
      return Ok(RatingResult(m.matchId, true, results));
    }
    ShapeKept(maths, m.params, ordered);
    var updated := maths.plackettLuce(m.params, Ratings(ordered), Ranks(ordered));
    ghost var all := seq(|ordered|, i requires 0 <= i < |ordered| => TeamResults(lobby, ordered[i], updated[i]));
    for i := 0 to |ordered|
      invariant results == Flatten(all[..i])
    {
      for j := 0 to |ordered[i].participants|
        invariant results == Flatten(all[..i]) + all[i][..j]
      {
        var one := RatePlayer(lobby, ordered[i].participants[j], updated[i][j], ordered[i].placement);
        results := results + [one];
      }
      assert all[..i + 1][..i] == all[..i] && all[i][..|all[i]|] == all[i];
    }
    assert all[..|all|] == all;
    r := Ok(RatingResult(m.matchId, false, results));
  }

  lemma ShapeKept(maths: Maths, p: RatingParams, ordered: seq<TeamInput>)
    requires maths.Sound()
    ensures var updated := maths.plackettLuce(p, Ratings(ordered), Ranks(ordered));
            |updated| == |ordered| && forall i :: 0 <= i < |ordered| ==> |updated[i]| == |ordered[i].participants|
  {
    assert SameShape(maths.plackettLuce(p, Ratings(ordered), Ranks(ordered)), Ratings(ordered));
  }
}
