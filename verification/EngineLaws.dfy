/** What the rating engine keeps: the points identity, the cap guarantees, and indifference to listing order. */
module EngineLaws {
  import opened Wrappers
  import opened Caps
  import opened Params
  import opened RatingTypes
  import opened Modifiers
  import opened Engine
  import Sorting

  // ---- Points and mean belong together ----

  lemma MuForInverts(p: RatingParams, cr: real, sigma: real)
    requires p.scaleFactor != 0.0
    ensures p.RawCr(p.MuFor(cr, sigma), sigma) == cr
  {
    assert (cr - p.baseOffset) / p.scaleFactor * p.scaleFactor == cr - p.baseOffset;
  }

  lemma SettleKeepsIdentity(p: RatingParams, cap: Option<CapExplanation>, crBefore: real, mu: real, sigma: real)
    requires p.WellFormed()
    ensures var (cr', mu') := Settle(p, cap, crBefore, p.ToCr(mu, sigma), mu, sigma);
            cr' == p.ToCr(mu', sigma) >= 0.0
  {
    hide RatingParams.RawCr, RatingParams.MuFor;
    MuForInverts(p, 0.0, sigma);
    if cap.Some? { MuForInverts(p, crBefore + cap.value.cappedCrDelta, sigma); }
  }

  /**
   Through the dispersion clamp, the sigma freeze, the cap's back-solved mean and both floors at zero, the points
   after a match are those of the new mean and sigma. No property of the state before is needed.
   */
  lemma PointsMatchMean(lobby: Lobby, pt: ParticipantInput, updated: Rating, placement: int)
    requires lobby.Valid() && pt.eligibleForProgression
    ensures var r := PlayerResult(lobby, pt, updated, placement);
            r.crAfter == lobby.params.ToCr(r.muAfter, r.sigmaAfter) >= 0.0
  {
    hide RatingParams.ToCr, Settle, Chain, CapFacts;
    var p, s := lobby.params, pt.state;
    var chain := Chain(p, pt, updated.mu - s.mu, placement, lobby.teamCount);
    var sigma := SigmaAfter(s.sigma, updated.sigma, pt.boostingPenaltyFactor);
    var mu := s.mu + chain.finalDeltaMu;
    var raw := p.ToCr(mu, sigma) - s.cr;
    var cap := if p.caps.Some? then Some(CapFacts(lobby, p.caps.value, pt, raw, placement)) else None;
    SettleKeepsIdentity(p, cap, s.cr, mu, sigma);
  }

  lemma ShareIsPart(f: real, x: real)
    requires 0.0 <= f <= 1.0 && x >= 0.0
    ensures 0.0 <= f * x <= x
  {
    assert (1.0 - f) * x >= 0.0;
  }

  /** The points of the uncapped state after the match, before the floor at zero. */
  function RawPreCap(lobby: Lobby, pt: ParticipantInput, updated: Rating, placement: int): real
    requires lobby.Valid()
  {
    var step := Chain(lobby.params, pt, updated.mu - pt.state.mu, placement, lobby.teamCount).finalDeltaMu;
    lobby.params.RawCr(pt.state.mu + step, SigmaAfter(pt.state.sigma, updated.sigma, pt.boostingPenaltyFactor))
  }

  /** Settling leaves the unfloored identity whole exactly when the points were not floored or were moved. */
  lemma SettleKeepsRawIff(p: RatingParams, cap: Option<CapExplanation>, crBefore: real, mu: real, sigma: real)
    requires p.WellFormed()
    ensures var (cr', mu') := Settle(p, cap, crBefore, p.ToCr(mu, sigma), mu, sigma);
            cr' == p.RawCr(mu', sigma)
            <==> || p.RawCr(mu, sigma) >= 0.0
                 || (cap.Some? && cap.value.cappedCrDelta != p.ToCr(mu, sigma) - crBefore)
  {
    hide RatingParams.RawCr, RatingParams.MuFor;
    MuForInverts(p, 0.0, sigma);
    if cap.Some? { MuForInverts(p, crBefore + cap.value.cappedCrDelta, sigma); }
  }

  lemma ResultParts(lobby: Lobby, pt: ParticipantInput, updated: Rating, placement: int)
    requires lobby.Valid() && pt.eligibleForProgression
    ensures var r, p := PlayerResult(lobby, pt, updated, placement), lobby.params;
            var mu := pt.state.mu + Chain(p, pt, updated.mu - pt.state.mu, placement, lobby.teamCount).finalDeltaMu;
            && (r.crAfter, r.muAfter) == Settle(p, r.cap, pt.state.cr, p.ToCr(mu, r.sigmaAfter), mu, r.sigmaAfter)
            && r.sigmaAfter == SigmaAfter(pt.state.sigma, updated.sigma, pt.boostingPenaltyFactor)
            && r.preCapCrDelta == p.ToCr(mu, r.sigmaAfter) - pt.state.cr
            && (r.cap.Some? <==> p.caps.Some?)
            && (r.cap.Some? ==> r.cap.value == CapFacts(lobby, p.caps.value, pt, r.preCapCrDelta, placement))
  {
    hide CapFacts, Chain, SigmaAfter, Settle, RatingParams.ToCr;
  }

  /**
   The documented identity, points being those of the mean and sigma without a floor, survives a match if and only
   if the uncapped result was not below zero, or the cap layer moved it and so derived the mean anew.
   */
  lemma IdentityHoldsIff(lobby: Lobby, pt: ParticipantInput, updated: Rating, placement: int)
    requires lobby.Valid() && pt.eligibleForProgression
    ensures var r := PlayerResult(lobby, pt, updated, placement);
            r.crAfter == lobby.params.RawCr(r.muAfter, r.sigmaAfter)
            <==> || RawPreCap(lobby, pt, updated, placement) >= 0.0
                 || (r.cap.Some? && r.cap.value.bound != NoBound)
  {
    hide CapFacts, Chain, SigmaAfter, Settle, PlayerResult, RatingParams.RawCr, Decide;
    var r, p := PlayerResult(lobby, pt, updated, placement), lobby.params;
    var mu := pt.state.mu + Chain(p, pt, updated.mu - pt.state.mu, placement, lobby.teamCount).finalDeltaMu;
    ResultParts(lobby, pt, updated, placement);
    SettleKeepsRawIff(p, r.cap, pt.state.cr, mu, r.sigmaAfter);
    if r.cap.Some? {
      FactsAreDecided(lobby, p.caps.value, pt, r.preCapCrDelta, placement);
      DecisionIsCandidate(r.preCapCrDelta, r.cap.value.bounds, r.cap.value.minGain);
      LabelSaysChanged(r.preCapCrDelta, r.cap.value.bounds, r.cap.value.minGain);
    }
  }

  lemma LabelSaysChanged(raw: real, bounds: Bounds, floor: real)
    ensures Decide(raw, bounds, floor).value != raw <==> Decide(raw, bounds, floor).bound != NoBound
  {
  }

  /** A boosting flag freezes sigma between where it was and where Plackett-Luce moves it, all of it at factor 1. */
  lemma FreezeInterpolates(sigma: real, updated: real, boosting: real)
    ensures Min(sigma, updated) <= SigmaAfter(sigma, updated, boosting) <= Max(sigma, updated)
    ensures boosting <= 0.0 ==> SigmaAfter(sigma, updated, boosting) == updated
    ensures boosting >= 1.0 ==> SigmaAfter(sigma, updated, boosting) == sigma
  {
    var left, move := 1.0 - Clamp(boosting, 0.0, 1.0), sigma - updated;
    ShareIsPart(left, Abs(move));
    assert left * -move == -(left * move);
  }

  lemma SigmaStaysPositive(sigma: real, updated: real, boosting: real)
    requires sigma > 0.0 && updated > 0.0
    ensures SigmaAfter(sigma, updated, boosting) > 0.0
  {
    var f := Clamp(boosting, 0.0, 1.0);
    assert sigma - (1.0 - f) * (sigma - updated) == f * sigma + (1.0 - f) * updated;
    if 0.0 < f < 1.0 {
      assert f * sigma > 0.0 && (1.0 - f) * updated > 0.0;
    }
  }

  /** Whatever the multipliers, no step is longer than the dispersion limit. */
  lemma StepIsLimited(p: RatingParams, pt: ParticipantInput, base: real, placement: int, teamCount: nat)
    requires p.Validated() && p.WellFormed() && p.maxDeltaMu >= 0.0
    ensures Abs(Chain(p, pt, base, placement, teamCount).finalDeltaMu) <= DispersionLimit(pt.state.sigma, p)
  {
    hide PlacementWeight, PlacementAmp, StreakMultiplier, SoftCapFactor, GainPenalty;
    assert p.maxDeltaMu * Max(1.0, pt.state.sigma / p.dispersionSigmaRef) >= 0.0;
    hide DispersionLimit;
  }

  /** A step is flagged as cut exactly when it is not the product of its multipliers, for any parameters. */
  lemma CutIsFlagged(p: RatingParams, pt: ParticipantInput, base: real, placement: int, teamCount: nat)
    requires p.Validated() && p.WellFormed()
    ensures var chain := Chain(p, pt, base, placement, teamCount);
            var product := base * chain.placementWeight * chain.placementAmp * chain.streakMult * chain.softCapFactor
                           * chain.boostingFactor * chain.partyFactor;
            && chain.plBaseDeltaMu == base && chain.softCapFactor == SoftCapFactor(pt.state.cr, base, p)
            && (chain.dispersionClamped <==> chain.finalDeltaMu != product)
  {
    hide PlacementWeight, PlacementAmp, StreakMultiplier, SoftCapFactor, GainPenalty, DispersionLimit;
  }

  /**
   The multipliers of a step are the player's own: the weight of its placement, the amplifier while placement matches
   remain, the streak's bonus on a gain and dampener on a loss, full from the threshold on, half a gain one scale above
   the soft cap, and the boosting and party penalties each on its own factor, on gains only.
   */
  lemma FactorsAreThePlayers(p: RatingParams, pt: ParticipantInput, base: real, placement: int, teamCount: nat)
    requires p.Validated() && p.WellFormed() && p.streakThreshold > 0
    ensures var s, chain := pt.state, Chain(p, pt, base, placement, teamCount);
            && (teamCount in p.placementWeights && 1 <= placement <= teamCount ==>
                 chain.placementWeight == p.placementWeights[teamCount][placement - 1])
            && (teamCount !in p.placementWeights ==> chain.placementWeight == 1.0)
            && chain.placementAmp == (if s.placementMatchesRemaining >= 1 then p.placementAmp else 1.0)
            && (chain.streakMult != 1.0 ==>
                 if s.currentStreak > 0 then base > 0.0 else s.currentStreak < 0 && base < 0.0)
            && (base > 0.0 && s.currentStreak >= p.streakThreshold ==> chain.streakMult == p.streakWinCeil)
            && (base < 0.0 && s.currentStreak <= -p.streakThreshold ==> chain.streakMult == p.streakLossFloor)
            && (base <= 0.0 || s.cr <= p.softCapThreshold ==> chain.softCapFactor == 1.0)
            && (base > 0.0 && s.cr == p.softCapThreshold + p.softCapScale ==> chain.softCapFactor == 0.5)
            && chain.boostingFactor == (if base > 0.0 then 1.0 - Clamp(pt.boostingPenaltyFactor, 0.0, 1.0) else 1.0)
            && chain.partyFactor == (if base > 0.0 then 1.0 - Clamp(pt.partyPenaltyFactor, 0.0, 1.0) else 1.0)
  {
    hide StreakMultiplier, SoftCapFactor, DispersionCap;
    var s := pt.state;
    FullStreak(s.currentStreak, base, p);
    HalfAboveCap(s.cr, base, p);
  }

  lemma FullStreak(streak: int, base: real, p: RatingParams)
    requires p.Validated() && p.streakThreshold > 0
    ensures var mult := StreakMultiplier(streak, Sign(base), p);
            && (mult != 1.0 ==> if streak > 0 then base > 0.0 else streak < 0 && base < 0.0)
            && (base > 0.0 && streak >= p.streakThreshold ==> mult == p.streakWinCeil)
            && (base < 0.0 && streak <= -p.streakThreshold ==> mult == p.streakLossFloor)
  {
  }

  lemma HalfAboveCap(cr: real, base: real, p: RatingParams)
    requires p.softCapScale > 0.0
    ensures base <= 0.0 || cr <= p.softCapThreshold ==> SoftCapFactor(cr, base, p) == 1.0
    ensures base > 0.0 && cr == p.softCapThreshold + p.softCapScale ==> SoftCapFactor(cr, base, p) == 0.5
  {
    assert p.softCapScale / p.softCapScale == 1.0;
  }

  lemma {:induction false} SumSplits(xs: seq<real>, ys: seq<real>)
    ensures Sum(xs + ys) == Sum(xs) + Sum(ys)
  {
    if ys == [] {
      assert xs + ys == xs;
    } else {
      SumSplits(xs, ys[..|ys| - 1]);
      assert (xs + ys)[..|xs + ys| - 1] == xs + ys[..|ys| - 1];
    }
  }

  /** The lobby strength a player is measured against is the mean over everybody else. */
  lemma MeanLeavesOutSelf(p: RatingParams, maths: Maths, ordered: seq<TeamInput>, k: nat)
    requires k < |Mus(ordered)| && |Mus(ordered)| > 1
    ensures var mus := Mus(ordered);
            LobbyOf(p, maths, ordered).MeanWithout(mus[k]) == Sum(mus[..k] + mus[k + 1..]) / (|mus| - 1) as real
  {
    hide Mus;
    var mus := Mus(ordered);
    assert mus == mus[..k] + [mus[k]] + mus[k + 1..];
    SumSplits(mus[..k] + [mus[k]], mus[k + 1..]);
    SumSplits(mus[..k], mus[k + 1..]);
    assert (mus[..k] + [mus[k]])[..k] == mus[..k];
  }

  // ---- What a match can pay out ----

  /** The points of a capped result move by the decided delta, cut off where the display reaches zero. */
  lemma SettledDelta(lobby: Lobby, pt: ParticipantInput, updated: Rating, placement: int)
    requires lobby.Valid() && pt.eligibleForProgression && lobby.params.caps.Some?
    ensures var r := PlayerResult(lobby, pt, updated, placement);
            && r.cap.Some?
            && r.cap.value == CapFacts(lobby, lobby.params.caps.value, pt, r.preCapCrDelta, placement)
            && r.crDelta == Max(r.cap.value.cappedCrDelta, -pt.state.cr)
            && r.crAfter == pt.state.cr + r.crDelta
            && r.preCapCrDelta >= -pt.state.cr
  {
    hide CapFacts, Chain, SigmaAfter, RatingParams.RawCr, RatingParams.MuFor;
  }

  /** The cap facts record one decision, on the floor a flagged booster forfeits. */
  lemma FactsAreDecided(lobby: Lobby, cp: CapParams, pt: ParticipantInput, raw: real, placement: int)
    requires lobby.Valid() && cp.WellFormed()
    ensures var facts := CapFacts(lobby, cp, pt, raw, placement);
            var d := Decide(raw, facts.bounds, facts.minGain);
            && facts.bounds == CapBounds(placement, lobby.teamCount, facts.compositeWin, 1.0, cp)
            && facts.rawCrDelta == raw && facts.cappedCrDelta == d.value && facts.bound == d.bound
            && facts.minGain
               == (1.0 - Clamp(pt.boostingPenaltyFactor, 0.0, 1.0)) * MinGain(placement, lobby.teamCount, cp)
            && (pt.boostingPenaltyFactor <= 0.0 ==> facts.minGain == MinGain(placement, lobby.teamCount, cp))
            && (pt.boostingPenaltyFactor >= 1.0 ==> facts.minGain == 0.0)
            && (cp.compositeFloor <= cp.compositeCeil ==>
                 cp.compositeFloor <= facts.compositeWin <= cp.compositeCeil)
  {
    if cp.compositeFloor <= cp.compositeCeil {
      var facts := CapFacts(lobby, cp, pt, raw, placement);
      CompositeIsBounded(facts.mismatchOverride, facts.highCrScale, cp);
    }
    hide CapBounds, MinGain, MismatchOverride, HighCrScale, CompositeWinMult, Lobby.MeanWithout;
  }

  /**
   Whatever the Plackett-Luce step, streak and lobby: a player with points to show for the match loses at most
   the loss cap and gains at most the gain cap of the placement; and unless flagged as a booster, at least the
   placement's floor, up to that gain cap.
   */
  lemma DeltaWithinCaps(lobby: Lobby, pt: ParticipantInput, updated: Rating, placement: int)
    requires lobby.Valid() && pt.eligibleForProgression && pt.state.cr >= 0.0 && lobby.params.caps.Some?
    ensures var r, cp := PlayerResult(lobby, pt, updated, placement), lobby.params.caps.value;
            var floor := MinGain(placement, lobby.teamCount, cp);
            r.cap.Some? && var bounds := r.cap.value.bounds;
            && bounds == CapBounds(placement, lobby.teamCount, r.cap.value.compositeWin, 1.0, cp)
            && (bounds.Bounded? && bounds.lo <= 0.0 <= bounds.hi ==>
                 && bounds.lo <= r.crDelta <= bounds.hi
                 && (pt.boostingPenaltyFactor <= 0.0 && floor > 0.0 ==> r.crDelta >= Min(floor, bounds.hi)))
  {
    hide CapBounds, MinGain, Decide, PlayerResult, CapFacts;
    SettledDelta(lobby, pt, updated, placement);
    var r, cp := PlayerResult(lobby, pt, updated, placement), lobby.params.caps.value;
    FactsAreDecided(lobby, cp, pt, r.preCapCrDelta, placement);
    var bounds := r.cap.value.bounds;
    if bounds.Bounded? && bounds.lo <= 0.0 <= bounds.hi {
      DecisionIsWithin(r.preCapCrDelta, bounds, r.cap.value.minGain);
    }
  }

  /** The shipped curve for 6 or 8 teams at one placement. */
  function At(six: Curves, eight: Curves, teamCount: int, placement: int): real
    requires 6 in six && |six[6]| == 6 && 8 in eight && |eight[8]| == 8
    requires teamCount in {6, 8} && 1 <= placement <= teamCount
  {
    if teamCount == 6 then six[6][placement - 1] else eight[8][placement - 1]
  }

  /**
   Between the negated loss cap and 1.25 times the gain cap of the placement, so never below -68 nor above 50; a
   top-half finisher who is not flagged as a booster gains at least the placement's floor.
   */
  ghost predicate PaidFairly(crDelta: real, placement: int, teamCount: int, boosting: real)
    requires teamCount in {6, 8} && 1 <= placement <= teamCount
  {
    && -68.0 <= -At(LOSS_CAPS_6, LOSS_CAPS_8, teamCount, placement) <= crDelta
    && crDelta <= 1.25 * At(SYMMETRIC_CAPS_6, CAPS_8, teamCount, placement) <= 50.0
    && (placement <= teamCount / 2 && boosting <= 0.0 ==>
         crDelta >= At(MIN_GAIN_6, MIN_GAIN_8, teamCount, placement) > 0.0)
  }

  /** What the cap layer reads off the shipped curves. */
  lemma DefaultCurves(placement: int, teamCount: int, composite: real)
    requires teamCount in {6, 8} && 1 <= placement <= teamCount && 0.5 <= composite <= 1.25
    ensures var gain := At(SYMMETRIC_CAPS_6, CAPS_8, teamCount, placement);
            var loss := At(LOSS_CAPS_6, LOSS_CAPS_8, teamCount, placement);
            var floor := At(MIN_GAIN_6, MIN_GAIN_8, teamCount, placement);
            && CapBounds(placement, teamCount, composite, 1.0, DEFAULT_CAPS) == Bounded(-loss, gain * composite)
            && MinGain(placement, teamCount, DEFAULT_CAPS) == floor
            && 0.0 < gain * composite <= 1.25 * gain <= 50.0 && 30.0 <= loss <= 68.0
            && (placement <= teamCount / 2 <==> floor > 0.0) && floor <= gain * composite
  {
  }

  /** With the shipped caps every rated player with points to show is paid fairly. */
  lemma DefaultsPayFairly(lobby: Lobby, pt: ParticipantInput, updated: Rating, placement: int)
    requires lobby.Valid() && lobby.params.caps == Some(DEFAULT_CAPS) && lobby.teamCount in {6, 8}
    requires 1 <= placement <= lobby.teamCount
    requires pt.eligibleForProgression && pt.state.cr >= 0.0
    ensures PaidFairly(PlayerResult(lobby, pt, updated, placement).crDelta, placement, lobby.teamCount,
                       pt.boostingPenaltyFactor)
  {
    hide CapBounds, MinGain, PlayerResult, CapFacts;
    var r := PlayerResult(lobby, pt, updated, placement);
    DeltaWithinCaps(lobby, pt, updated, placement);
    SettledDelta(lobby, pt, updated, placement);
    FactsAreDecided(lobby, DEFAULT_CAPS, pt, r.preCapCrDelta, placement);
    DefaultCurves(placement, lobby.teamCount, r.cap.value.compositeWin);
  }

  // ---- Listing order ----

  /** The same match with its teams, and each team's players, listed in another order. */
  ghost predicate Relisted(a: seq<TeamInput>, b: seq<TeamInput>) {
    exists mid: seq<TeamInput> :: multiset(mid) == multiset(a) && SameTeams(mid, b)
  }

  ghost predicate SameTeams(a: seq<TeamInput>, b: seq<TeamInput>) {
    |a| == |b| && forall i :: 0 <= i < |a| ==> SameTeam(a[i], b[i])
  }

  ghost predicate SameTeam(a: TeamInput, b: TeamInput) {
    a.teamId == b.teamId && a.placement == b.placement && multiset(a.participants) == multiset(b.participants)
  }

  /** No two teams share an id, and no two players of a team do. */
  ghost predicate DistinctIds(teams: seq<TeamInput>) {
    && (forall a, b :: a in teams && b in teams && a.teamId == b.teamId ==> a == b)
    && (forall t <- teams :: forall x, y ::
          x in t.participants && y in t.participants && x.playerId == y.playerId ==> x == y)
  }

  lemma LinedIsUnique(a: TeamInput, b: TeamInput)
    requires SameTeam(a, b)
    requires forall x, y :: x in a.participants && y in a.participants && x.playerId == y.playerId ==> x == y
    ensures Lined(a) == Lined(b)
  {
    PlayerLeqOrders();
    forall x, y | x in a.participants && y in a.participants && PlayerLeq(x, y) && PlayerLeq(y, x) ensures x == y {
      Sorting.StringLeqTotal(x.playerId, y.playerId);
    }
    Sorting.SortForgetsOrder(a.participants, b.participants, PlayerLeq);
  }

  lemma PlayerLeqOrders()
    ensures Sorting.TotalPreorder(PlayerLeq)
  {
    forall x, y ensures PlayerLeq(x, y) || PlayerLeq(y, x) { Sorting.StringLeqTotal(x.playerId, y.playerId); }
    forall x, y, z | PlayerLeq(x, y) && PlayerLeq(y, z) ensures PlayerLeq(x, z) {
      Sorting.StringLeqTransitive(x.playerId, y.playerId, z.playerId);
    }
  }

  /** Sorting only looks at the keys, so teams that agree on theirs end up in the same places. */
  lemma {:induction false} InsertSameTeam(a: seq<TeamInput>, b: seq<TeamInput>, x: TeamInput, y: TeamInput)
    requires SameTeams(a, b) && SameTeam(x, y)
    ensures SameTeams(Sorting.Insert(a, x, TeamLeq), Sorting.Insert(b, y, TeamLeq))
  {
    if a != [] && !TeamLeq(a[|a| - 1], x) { InsertSameTeam(a[..|a| - 1], b[..|b| - 1], x, y); }
  }

  lemma {:induction false} SortSameTeams(a: seq<TeamInput>, b: seq<TeamInput>)
    requires SameTeams(a, b)
    ensures SameTeams(Sorting.Sorted(a, TeamLeq), Sorting.Sorted(b, TeamLeq))
  {
    if a != [] {
      var n := |a| - 1;
      SortSameTeams(a[..n], b[..n]);
      InsertSameTeam(Sorting.Sorted(a[..n], TeamLeq), Sorting.Sorted(b[..n], TeamLeq), a[n], b[n]);
    }
  }

  lemma TeamLeqOrders(teams: seq<TeamInput>)
    requires DistinctIds(teams)
    ensures Sorting.TotalPreorder(TeamLeq) && Sorting.NoTies(teams, TeamLeq)
  {
  }

  lemma SameMembers<T>(a: seq<T>, b: seq<T>)
    requires multiset(a) == multiset(b)
    ensures forall x :: x in a <==> x in b
  {
    forall x ensures x in a <==> x in b { assert x in a <==> x in multiset(a); }
  }

  lemma LinedAlike(a: seq<TeamInput>, b: seq<TeamInput>)
    requires SameTeams(a, b) && DistinctIds(a)
    ensures forall i :: 0 <= i < |a| ==> Lined(a[i]) == Lined(b[i])
  {
    forall i | 0 <= i < |a| ensures Lined(a[i]) == Lined(b[i]) {
      assert a[i] in a;
      LinedIsUnique(a[i], b[i]);
    }
  }

  lemma CanonicalForgetsOrder(a: seq<TeamInput>, b: seq<TeamInput>)
    requires Relisted(a, b) && DistinctIds(a)
    ensures Canonical(a) == Canonical(b)
  {
    hide Lined, TeamLeq, Sorting.TotalPreorder, Sorting.NoTies, Sorting.Sorted;
    var mid: seq<TeamInput> :| multiset(mid) == multiset(a) && SameTeams(mid, b);
    TeamLeqOrders(a);
    Sorting.SortForgetsOrder(a, mid, TeamLeq);
    Sorting.SortPermutes(a, TeamLeq);
    SortSameTeams(mid, b);
    LinedAlike(Sorting.Sorted(a, TeamLeq), Sorting.Sorted(b, TeamLeq));
  }

  lemma SameTeamsSameGuards(a: seq<TeamInput>, b: seq<TeamInput>)
    requires SameTeams(a, b)
    ensures AnyEligible(a) ==> AnyEligible(b)
    ensures AnyEmpty(a) ==> AnyEmpty(b)
  {
    if AnyEligible(a) {
      var t :| t in a && exists pt <- t.participants :: pt.eligibleForProgression;
      var pt :| pt in t.participants && pt.eligibleForProgression;
      var i :| 0 <= i < |a| && a[i] == t;
      SameMembers(t.participants, b[i].participants);
      assert b[i] in b;
    }
    if AnyEmpty(a) {
      var t :| t in a && t.participants == [];
      var i :| 0 <= i < |a| && a[i] == t;
      assert |multiset(b[i].participants)| == 0;
      assert b[i] in b;
    }
  }

  lemma GuardsForgetOrder(a: seq<TeamInput>, b: seq<TeamInput>)
    requires Relisted(a, b)
    ensures |a| == |b| && (AnyEligible(a) <==> AnyEligible(b)) && (AnyEmpty(a) <==> AnyEmpty(b))
  {
    var mid: seq<TeamInput> :| multiset(mid) == multiset(a) && SameTeams(mid, b);
    assert |multiset(mid)| == |multiset(a)|;
    assert SameTeams(b, mid);
    SameTeamsSameGuards(mid, b);
    SameTeamsSameGuards(b, mid);
    SameMembers(a, mid);
    assert AnyEligible(a) <==> AnyEligible(mid);
    assert AnyEmpty(a) <==> AnyEmpty(mid);
  }

  /** The engine's answer, result by result, does not depend on the order teams and players are listed in. */
  lemma ListingOrderIsIrrelevant(m: MatchInput, relisted: seq<TeamInput>, maths: Maths)
    requires maths.Sound() && m.params.WellFormed()
    requires Relisted(m.teams, relisted) && DistinctIds(m.teams)
    ensures Rated(m, maths) == Rated(m.(teams := relisted), maths)
  {
    hide Canonical, AnyEligible, AnyEmpty, Results, FrozenTeam;
    CanonicalForgetsOrder(m.teams, relisted);
    GuardsForgetOrder(m.teams, relisted);
  }

  // ---- What Plackett-Luce is asked, and what becomes of its answer ----

  /** Teams by placement, ties by team id, and the players of each team by id. */
  ghost predicate InPlacementOrder(ordered: seq<TeamInput>) {
    && (forall i, j :: 0 <= i < j < |ordered| ==>
         || ordered[i].placement < ordered[j].placement
         || (ordered[i].placement == ordered[j].placement && ordered[i].teamId <= ordered[j].teamId))
    && (forall i, k, l :: 0 <= i < |ordered| && 0 <= k < l < |ordered[i].participants| ==>
         Sorting.StringLeq(ordered[i].participants[k].playerId, ordered[i].participants[l].playerId))
  }

  /** Every team asked about under its own placement, every player with its own mean and sigma. */
  ghost predicate Asked(ordered: seq<TeamInput>, ratings: seq<seq<Rating>>, ranks: seq<int>) {
    && |ratings| == |ranks| == |ordered|
    && (forall i :: 0 <= i < |ordered| ==> ranks[i] == ordered[i].placement)
    && (forall i :: 0 <= i < |ordered| ==> |ratings[i]| == |ordered[i].participants|)
    && (forall i, j :: 0 <= i < |ordered| && 0 <= j < |ratings[i]| ==>
         && ratings[i][j].mu == ordered[i].participants[j].state.mu
         && ratings[i][j].sigma == ordered[i].participants[j].state.sigma)
  }

  /** How many players the first i teams have. */
  function SeatsBefore(teams: seq<TeamInput>, i: nat): nat
    requires i <= |teams|
  {
    if i == 0 then 0 else SeatsBefore(teams, i - 1) + |teams[i - 1].participants|
  }

  /**
   The result of a player of a team: the base step is the update's mean less the player's own, a win is a placement in
   the upper half and makes the streak positive, and an ineligible player keeps everything.
   */
  ghost predicate ResultOf(r: PlayerRatingResult, t: TeamInput, pt: ParticipantInput, updated: Rating, teamCount: nat) {
    && r.playerId == pt.playerId && r.eligible == pt.eligibleForProgression && r.teamCount == teamCount
    && r.muBefore == pt.state.mu && r.sigmaBefore == pt.state.sigma && r.crBefore == pt.state.cr
    && (r.isWin <==> 2 * t.placement <= teamCount)
    && (if r.eligible then
          && r.modifiers.plBaseDeltaMu == updated.mu - pt.state.mu
          && (r.isWin <==> r.newStreak > 0) && (!r.isWin <==> r.newStreak < 0)
        else
          && r.muAfter == r.muBefore && r.sigmaAfter == r.sigmaBefore && r.crAfter == r.crBefore && r.crDelta == 0.0
          && r.newStreak == pt.state.currentStreak)
  }

  /** The j-th player of the i-th team has the result of that seat, in the order of teams and players. */
  ghost predicate SeatAnswered(players: seq<PlayerRatingResult>, ordered: seq<TeamInput>, updated: seq<seq<Rating>>,
                               i: nat, j: nat)
    requires |updated| == |ordered| && i < |ordered| && j < |updated[i]| == |ordered[i].participants|
  {
    && SeatsBefore(ordered, i) + j < |players|
    && ResultOf(players[SeatsBefore(ordered, i) + j], ordered[i], ordered[i].participants[j], updated[i][j], |ordered|)
  }

  /** Seat by seat, the results of a match are those of the update's answer. */
  ghost predicate Answered(players: seq<PlayerRatingResult>, ordered: seq<TeamInput>, updated: seq<seq<Rating>>)
    requires |updated| == |ordered|
    requires forall i :: 0 <= i < |ordered| ==> |updated[i]| == |ordered[i].participants|
  {
    && |players| == SeatsBefore(ordered, |ordered|)
    && (forall i: nat, j: nat :: i < |ordered| && j < |ordered[i].participants| ==>
         SeatAnswered(players, ordered, updated, i, j))
  }

  /** A match was rated by one update, asked about this listing of its teams. */
  ghost predicate RatedBy(m: MatchInput, maths: Maths, ordered: seq<TeamInput>, ratings: seq<seq<Rating>>,
                          ranks: seq<int>)
    requires maths.Sound() && m.params.WellFormed()
  {
    && Rated(m, maths).Ok? && !Rated(m, maths).value.voided
    && Relisted(m.teams, ordered) && InPlacementOrder(ordered) && Asked(ordered, ratings, ranks)
    && (var updated := maths.plackettLuce(m.params, ratings, ranks);
        && SameShape(updated, ratings)
        && Answered(Rated(m, maths).value.players, ordered, updated))
  }

  lemma CanonicalOrder(teams: seq<TeamInput>)
    ensures Relisted(teams, Canonical(teams)) && InPlacementOrder(Canonical(teams))
  {
    var sorted, ordered := Sorting.Sorted(teams, TeamLeq), Canonical(teams);
    Sorting.SortPermutes(teams, TeamLeq);
    TeamLeqIsOrder();
    Sorting.SortOrders(teams, TeamLeq);
    PlayerLeqOrders();
    forall i | 0 <= i < |sorted|
      ensures SameTeam(sorted[i], ordered[i]) && Sorting.Ordered(ordered[i].participants, PlayerLeq)
    {
      Sorting.SortPermutes(sorted[i].participants, PlayerLeq);
      Sorting.SortOrders(sorted[i].participants, PlayerLeq);
    }
    assert SameTeams(sorted, ordered);
    forall i, j | 0 <= i < j < |ordered| ensures TeamLeq(ordered[i], ordered[j]) {
      assert TeamLeq(sorted[i], sorted[j]);
    }
    forall i, k, l | 0 <= i < |ordered| && 0 <= k < l < |ordered[i].participants|
      ensures Sorting.StringLeq(ordered[i].participants[k].playerId, ordered[i].participants[l].playerId)
    {
      assert PlayerLeq(ordered[i].participants[k], ordered[i].participants[l]);
    }
  }

  lemma TeamLeqIsOrder()
    ensures Sorting.TotalPreorder(TeamLeq)
  {
  }

  lemma {:induction false} FlattenCounts<T>(parts: seq<seq<T>>, teams: seq<TeamInput>, n: nat)
    requires |parts| == |teams| && n <= |teams|
    requires forall i :: 0 <= i < |teams| ==> |parts[i]| == |teams[i].participants|
    ensures |Flatten(parts[..n])| == SeatsBefore(teams, n)
  {
    if n > 0 {
      FlattenCounts(parts, teams, n - 1);
      assert parts[..n][..n - 1] == parts[..n - 1];
    }
  }

  lemma {:induction false} FlattenSeat<T>(parts: seq<seq<T>>, teams: seq<TeamInput>, n: nat, i: nat, j: nat)
    requires |parts| == |teams| && i < n <= |teams| && j < |parts[i]|
    requires forall i :: 0 <= i < |teams| ==> |parts[i]| == |teams[i].participants|
    ensures SeatsBefore(teams, i) + j < |Flatten(parts[..n])|
    ensures Flatten(parts[..n])[SeatsBefore(teams, i) + j] == parts[i][j]
  {
    FlattenCounts(parts, teams, n - 1);
    assert parts[..n][..n - 1] == parts[..n - 1];
    if i < n - 1 { FlattenSeat(parts, teams, n - 1, i, j); }
  }

  lemma SeatResult(lobby: Lobby, t: TeamInput, pt: ParticipantInput, updated: Rating)
    requires lobby.Valid()
    ensures ResultOf(PlayerResult(lobby, pt, updated, t.placement), t, pt, updated, lobby.teamCount)
  {
    hide CapFacts, SigmaAfter, Settle, PlacementWeight, PlacementAmp, StreakMultiplier, SoftCapFactor, GainPenalty,
         DispersionCap;
  }

  lemma TableAnswers(lobby: Lobby, ordered: seq<TeamInput>)
    requires lobby.Valid() && lobby.maths.Sound() && lobby.teamCount == |ordered|
    ensures var updated := lobby.maths.plackettLuce(lobby.params, Ratings(ordered), Ranks(ordered));
            && SameShape(updated, Ratings(ordered))
            && Answered(Results(lobby, ordered), ordered, updated)
  {
    hide PlayerResult, ResultOf, PositiveSigmas, Answered;
    var updated := lobby.maths.plackettLuce(lobby.params, Ratings(ordered), Ranks(ordered));
    ShapeKept(lobby.maths, lobby.params, ordered);
    assert SameShape(updated, Ratings(ordered));
    var all := seq(|ordered|, i requires 0 <= i < |ordered| => TeamResults(lobby, ordered[i], updated[i]));
    assert Results(lobby, ordered) == Flatten(all);
    assert all[..|ordered|] == all;
    PartsAnswer(lobby, ordered, updated, all);
  }

  lemma PartsAnswer(lobby: Lobby, ordered: seq<TeamInput>, updated: seq<seq<Rating>>,
                    all: seq<seq<PlayerRatingResult>>)
    requires lobby.Valid() && lobby.teamCount == |ordered| == |updated| == |all|
    requires forall i :: 0 <= i < |ordered| ==>
               |updated[i]| == |ordered[i].participants| && all[i] == TeamResults(lobby, ordered[i], updated[i])
    ensures Answered(Flatten(all[..|ordered|]), ordered, updated)
  {
    hide PlayerResult, ResultOf;
    FlattenCounts(all, ordered, |ordered|);
    forall i: nat, j: nat | i < |ordered| && j < |ordered[i].participants|
      ensures SeatAnswered(Flatten(all[..|ordered|]), ordered, updated, i, j)
    {
      FlattenSeat(all, ordered, |ordered|, i, j);
      SeatResult(lobby, ordered[i], ordered[i].participants[j], updated[i][j]);
    }
  }

  /**
   A match with anybody eligible is rated by one update: asked about its teams in order of placement, each team under
   its own placement and each player with its own mean and sigma, and every result is that seat's own answer.
   */
  lemma RatedByPlacement(m: MatchInput, maths: Maths)
    returns (ordered: seq<TeamInput>, ratings: seq<seq<Rating>>, ranks: seq<int>)
    requires maths.Sound() && m.params.WellFormed() && Rated(m, maths).Ok?
    requires exists t, pt :: t in m.teams && pt in t.participants && pt.eligibleForProgression
    ensures RatedBy(m, maths, ordered, ratings, ranks)
  {
    hide Results, Answered, InPlacementOrder, Relisted, Canonical, AnyEmpty, LobbyOf, Mus, Maths.Sound;
    ordered := Canonical(m.teams);
    ratings, ranks := Ratings(ordered), Ranks(ordered);
    CanonicalOrder(m.teams);
    assert AnyEligible(m.teams);
    LobbyFacts(m.params, maths, ordered);
    TableAnswers(LobbyOf(m.params, maths, ordered), ordered);
  }

  /**
   Which matches are rated at all: valid parameters, two teams or more and nobody's team empty; otherwise the first of
   these that fails is the error. A match in which nobody is eligible is voided.
   */
  lemma RatedIff(m: MatchInput, maths: Maths)
    requires maths.Sound() && m.params.WellFormed()
    ensures Rated(m, maths).Ok?
       <==> m.params.Validated() && |m.teams| >= 2 && forall t <- m.teams :: |t.participants| >= 1
    ensures Rated(m, maths).Err? ==>
              match Rated(m, maths).error
              case InvalidParams => !m.params.Validated()
              case TooFewTeams => m.params.Validated() && |m.teams| <= 1
              case EmptyTeam =>
                m.params.Validated() && |m.teams| >= 2 && exists t :: t in m.teams && t.participants == []
    ensures Rated(m, maths).Ok? ==>
              (Rated(m, maths).value.voided
               <==> forall t, pt :: t in m.teams && pt in t.participants ==> !pt.eligibleForProgression)
  {
    hide Results, Canonical, LobbyOf, RatingParams.Validated, Frozen;
  }

  lemma LobbyFacts(p: RatingParams, maths: Maths, ordered: seq<TeamInput>)
    ensures var lobby := LobbyOf(p, maths, ordered);
            lobby.params == p && lobby.maths == maths && lobby.teamCount == |ordered|
  {
  }

  /** Of two teams rated alike, a player of the worse ranked one is never moved further up than its equal. */
  ghost predicate FavoursNoWorse(teams: seq<seq<Rating>>, ranks: seq<int>, updated: seq<seq<Rating>>)
    requires |teams| == |ranks| && SameShape(updated, teams)
  {
    forall i, j, k, l ::
      && 0 <= i < |teams| && 0 <= j < |teams| && ranks[i] < ranks[j] && multiset(teams[i]) == multiset(teams[j])
      && 0 <= k < |teams[i]| && 0 <= l < |teams[j]| && teams[i][k] == teams[j][l]
      ==> updated[i][k].mu >= updated[j][l].mu
  }

  /** An update that does so for no match. */
  ghost predicate NeverFavoursWorse(maths: Maths) {
    forall p, teams, ranks ::
      |teams| == |ranks| && SameShape(maths.plackettLuce(p, teams, ranks), teams) ==>
        FavoursNoWorse(teams, ranks, maths.plackettLuce(p, teams, ranks))
  }

  /** The base step of an eligible seat is the update's mean less the mean it was asked with. */
  lemma SeatBase(m: MatchInput, maths: Maths, ordered: seq<TeamInput>, ratings: seq<seq<Rating>>, ranks: seq<int>,
                 i: nat, k: nat)
    requires maths.Sound() && m.params.WellFormed() && RatedBy(m, maths, ordered, ratings, ranks)
    requires i < |ordered| && k < |ratings[i]| && ordered[i].participants[k].eligibleForProgression
    ensures SameShape(maths.plackettLuce(m.params, ratings, ranks), ratings)
    ensures SeatsBefore(ordered, i) + k < |Rated(m, maths).value.players|
    ensures Rated(m, maths).value.players[SeatsBefore(ordered, i) + k].modifiers.plBaseDeltaMu
         == maths.plackettLuce(m.params, ratings, ranks)[i][k].mu - ratings[i][k].mu
  {
    hide Rated, Relisted, InPlacementOrder, Maths.Sound;
    assert SeatAnswered(Rated(m, maths).value.players, ordered, maths.plackettLuce(m.params, ratings, ranks), i, k);
  }

  /** The result in the a-th place has no smaller base step than that in the b-th. */
  predicate NoSmallerBase(players: seq<PlayerRatingResult>, a: nat, b: nat) {
    a < |players| && b < |players| && players[a].modifiers.plBaseDeltaMu >= players[b].modifiers.plBaseDeltaMu
  }

  /** Then of two players of equal ratings in teams rated alike, the better placed never gets the smaller base step. */
  lemma BetterPlacedGainsNoLess(m: MatchInput, maths: Maths, ordered: seq<TeamInput>, ratings: seq<seq<Rating>>,
                                ranks: seq<int>, i: nat, j: nat, k: nat, l: nat)
    requires maths.Sound() && m.params.WellFormed() && NeverFavoursWorse(maths)
    requires RatedBy(m, maths, ordered, ratings, ranks)
    requires i < |ordered| && j < |ordered| && ordered[i].placement < ordered[j].placement
    requires k < |ratings[i]| && l < |ratings[j]| && ratings[i][k] == ratings[j][l]
    requires multiset(ratings[i]) == multiset(ratings[j])
    requires ordered[i].participants[k].eligibleForProgression && ordered[j].participants[l].eligibleForProgression
    ensures NoSmallerBase(Rated(m, maths).value.players, SeatsBefore(ordered, i) + k, SeatsBefore(ordered, j) + l)
  {
    hide *;
    SeatBase(m, maths, ordered, ratings, ranks, i, k);
    SeatBase(m, maths, ordered, ratings, ranks, j, l);
    WasAsked(m, maths, ordered, ratings, ranks, i, j);
    FavoursSeat(maths, m.params, ratings, ranks, i, j, k, l);
    AtLeast(Rated(m, maths).value.players, SeatsBefore(ordered, i) + k, SeatsBefore(ordered, j) + l);
  }

  lemma WasAsked(m: MatchInput, maths: Maths, ordered: seq<TeamInput>, ratings: seq<seq<Rating>>, ranks: seq<int>,
                 i: nat, j: nat)
    requires maths.Sound() && m.params.WellFormed() && RatedBy(m, maths, ordered, ratings, ranks)
    requires i < |ordered| && j < |ordered|
    ensures |ratings| == |ranks| == |ordered| && Rated(m, maths).Ok?
    ensures ranks[i] == ordered[i].placement && ranks[j] == ordered[j].placement
  {
    hide Rated, Relisted, InPlacementOrder, Maths.Sound, Answered;
  }

  lemma FavoursSeat(maths: Maths, p: RatingParams, teams: seq<seq<Rating>>, ranks: seq<int>, i: nat, j: nat, k: nat,
                    l: nat)
    requires NeverFavoursWorse(maths) && |teams| == |ranks| && SameShape(maths.plackettLuce(p, teams, ranks), teams)
    requires i < |teams| && j < |teams| && ranks[i] < ranks[j] && multiset(teams[i]) == multiset(teams[j])
    requires k < |teams[i]| && l < |teams[j]| && teams[i][k] == teams[j][l]
    ensures maths.plackettLuce(p, teams, ranks)[i][k].mu >= maths.plackettLuce(p, teams, ranks)[j][l].mu
  {
    assert FavoursNoWorse(teams, ranks, maths.plackettLuce(p, teams, ranks));
  }

  lemma AtLeast(players: seq<PlayerRatingResult>, a: nat, b: nat)
    requires a < |players| && b < |players|
    requires players[a].modifiers.plBaseDeltaMu >= players[b].modifiers.plBaseDeltaMu
    ensures NoSmallerBase(players, a, b)
  {
  }
}
