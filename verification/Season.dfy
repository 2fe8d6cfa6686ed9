/**
 A season of matches and soft resets: rows created at the engine's defaults, rated, and updated as
 backend/arena/services/rating_service.py persists them.
 */
module Season {
  import opened Wrappers
  import opened Params
  import opened RatingTypes
  import opened Modifiers
  import opened Engine
  import opened EngineLaws
  import Sorting

  type Rows = map<string, PlayerState>

  datatype Seat = Seat(playerId: string, eligible: bool, boosting: real, party: real)

  datatype LobbyTeam = LobbyTeam(teamId: int, placement: int, seats: seq<Seat>)

  datatype Event = Match(lobby: seq<LobbyTeam>) | Reset

  /** A player's row before the first match: the points are not floored at zero. */
  function FreshRow(id: string, p: RatingParams): PlayerState {
    var cr := p.RawCr(p.mu0, p.sigma0);
    PlayerState(id, p.mu0, p.sigma0, cr, 0, 0, p.placementMatchCount, cr)
  }

  function Players(lobby: seq<LobbyTeam>): set<string> {
    set t <- lobby, s <- t.seats :: s.playerId
  }

  function Enrolled(rows: Rows, ids: set<string>, p: RatingParams): Rows {
    map id <- rows.Keys + ids :: if id in rows then rows[id] else FreshRow(id, p)
  }

  function Participant(rows: Rows, s: Seat): ParticipantInput
    requires s.playerId in rows
  {
    ParticipantInput(s.playerId, rows[s.playerId], 0, s.eligible, false, None, s.boosting, s.party)
  }

  function Team(rows: Rows, t: LobbyTeam): TeamInput
    requires forall s <- t.seats :: s.playerId in rows
  {
    TeamInput(t.teamId, t.placement,
              seq(|t.seats|, i requires 0 <= i < |t.seats| =>
                assert t.seats[i] in t.seats; Participant(rows, t.seats[i])))
  }

  function Input(rows: Rows, lobby: seq<LobbyTeam>, p: RatingParams): MatchInput
    requires forall t <- lobby :: forall s <- t.seats :: s.playerId in rows
  {
    MatchInput("", "", seq(|lobby|, i requires 0 <= i < |lobby| => assert lobby[i] in lobby; Team(rows, lobby[i])), p)
  }

  /** A row after one rated match. */
  function Updated(s: PlayerState, r: PlayerRatingResult): PlayerState {
    s.(mu := r.muAfter, sigma := r.sigmaAfter, cr := r.crAfter, currentStreak := r.newStreak,
       matchesPlayed := s.matchesPlayed + 1,
       placementMatchesRemaining :=
         if s.placementMatchesRemaining > 0 then s.placementMatchesRemaining - 1 else s.placementMatchesRemaining,
       peakCr := Max(s.peakCr, r.crAfter))
  }

  function Persisted(rows: Rows, results: seq<PlayerRatingResult>): Rows {
    if results == [] then rows
    else
      var before, r := Persisted(rows, results[..|results| - 1]), results[|results| - 1];
      if r.eligible && r.playerId in before then before[r.playerId := Updated(before[r.playerId], r)] else before
  }

  /** The soft reset carries whoever has played into the new season; the others start afresh. */
  function Carried(rows: Rows, p: RatingParams): Rows {
    map id <- rows | rows[id].matchesPlayed > 0 :: SoftReset(rows[id], p)
  }

  /** One event; a match the engine rejects is rolled back. */
  function Step(p: RatingParams, maths: Maths, rows: Rows, e: Event): Rows
    requires maths.Sound() && p.WellFormed()
  {
    match e
    case Match(lobby) =>
      var enrolled := Enrolled(rows, Players(lobby), p);
      (match Rated(Input(enrolled, lobby, p), maths)
       case Err(_) => rows
       case Ok(result) => if result.voided then enrolled else Persisted(enrolled, result.players))
    case Reset => Carried(rows, p)
  }

  function After(p: RatingParams, maths: Maths, events: seq<Event>): Rows
    requires maths.Sound() && p.WellFormed()
  {
    if events == [] then map[] else Step(p, maths, After(p, maths, events[..|events| - 1]), events[|events| - 1])
  }

  // ---- Points ----

  ghost predicate PointsSound(p: RatingParams, rows: Rows) {
    forall id <- rows :: var s := rows[id];
      s.cr == p.ToCr(s.mu, s.sigma) >= 0.0 && s.peakCr >= s.cr
  }

  lemma {:induction false} InFlatten<T>(parts: seq<seq<T>>, x: T)
    requires x in Flatten(parts)
    ensures exists i :: 0 <= i < |parts| && x in parts[i]
  {
    if parts != [] {
      if x !in parts[|parts| - 1] {
        InFlatten(parts[..|parts| - 1], x);
        var i :| 0 <= i < |parts| - 1 && x in parts[..|parts| - 1][i];
        assert x in parts[i];
      }
    }
  }

  /** Every player result of a rated match comes from a seat of the canonical order. */
  lemma ResultHasSeat(lobby: Lobby, ordered: seq<TeamInput>, r: PlayerRatingResult) returns (i: nat, j: nat)
    requires lobby.Valid() && lobby.maths.Sound() && r in Results(lobby, ordered)
    ensures i < |ordered| && j < |ordered[i].participants|
    ensures var updated := lobby.maths.plackettLuce(lobby.params, Ratings(ordered), Ranks(ordered));
            && SameShape(updated, Ratings(ordered))
            && r == PlayerResult(lobby, ordered[i].participants[j], updated[i][j], ordered[i].placement)
  {
    hide PlayerResult, PositiveSigmas;
    var updated := lobby.maths.plackettLuce(lobby.params, Ratings(ordered), Ranks(ordered));
    ShapeKept(lobby.maths, lobby.params, ordered);
    var all := seq(|ordered|, k requires 0 <= k < |ordered| => TeamResults(lobby, ordered[k], updated[k]));
    InFlatten(all, r);
    i :| 0 <= i < |all| && r in all[i];
    j :| 0 <= j < |all[i]| && r == all[i][j];
  }

  lemma {:induction false} PersistedKeepsPoints(p: RatingParams, rows: Rows, results: seq<PlayerRatingResult>)
    requires PointsSound(p, rows)
    requires forall r <- results :: r.eligible ==> r.crAfter == p.ToCr(r.muAfter, r.sigmaAfter) >= 0.0
    ensures PointsSound(p, Persisted(rows, results))
  {
    hide RatingParams.ToCr;
    if results != [] {
      assert results[|results| - 1] in results;
      PersistedKeepsPoints(p, rows, results[..|results| - 1]);
    }
  }

  lemma EnrolledKeepsPoints(p: RatingParams, rows: Rows, ids: set<string>)
    requires PointsSound(p, rows) && p.RawCr(p.mu0, p.sigma0) >= 0.0
    ensures PointsSound(p, Enrolled(rows, ids, p))
  {
  }

  lemma RatedKeepsIdentity(m: MatchInput, maths: Maths)
    requires maths.Sound() && m.params.WellFormed() && Rated(m, maths).Ok? && !Rated(m, maths).value.voided
    ensures forall r <- Rated(m, maths).value.players ::
              r.eligible ==> r.crAfter == m.params.ToCr(r.muAfter, r.sigmaAfter) >= 0.0
  {
    hide PlayerResult, Results, Canonical, RatingParams.ToCr, AnyEligible, AnyEmpty;
    var ordered := Canonical(m.teams);
    var lobby := LobbyOf(m.params, maths, ordered);
    forall r | r in Results(lobby, ordered) && r.eligible
      ensures r.crAfter == m.params.ToCr(r.muAfter, r.sigmaAfter) >= 0.0
    {
      var i, j := ResultHasSeat(lobby, ordered, r);
      var updated := maths.plackettLuce(m.params, Ratings(ordered), Ranks(ordered));
      EligibleSeat(lobby, ordered[i].participants[j], updated[i][j], ordered[i].placement);
      PointsMatchMean(lobby, ordered[i].participants[j], updated[i][j], ordered[i].placement);
    }
  }

  lemma EligibleSeat(lobby: Lobby, pt: ParticipantInput, updated: Rating, placement: int)
    requires lobby.Valid()
    ensures PlayerResult(lobby, pt, updated, placement).eligible == pt.eligibleForProgression
    ensures PlayerResult(lobby, pt, updated, placement).playerId == pt.playerId
  {
    hide Chain, CapFacts, SigmaAfter, Settle;
  }

  lemma StepKeepsPoints(p: RatingParams, maths: Maths, rows: Rows, e: Event)
    requires maths.Sound() && p.WellFormed() && PointsSound(p, rows) && p.RawCr(p.mu0, p.sigma0) >= 0.0
    ensures PointsSound(p, Step(p, maths, rows, e))
  {
    hide Rated, RatingParams.RawCr, PointsSound;
    match e
    case Match(lobby) =>
      var enrolled := Enrolled(rows, Players(lobby), p);
      EnrolledKeepsPoints(p, rows, Players(lobby));
      var m := Input(enrolled, lobby, p);
      if Rated(m, maths).Ok? && !Rated(m, maths).value.voided {
        RatedKeepsIdentity(m, maths);
        PersistedKeepsPoints(p, enrolled, Rated(m, maths).value.players);
      }
    case Reset => ResetKeepsPoints(p, rows);
  }

  lemma ResetKeepsPoints(p: RatingParams, rows: Rows)
    ensures PointsSound(p, Carried(rows, p))
  {
  }

  lemma {:induction false} RunKeepsPoints(p: RatingParams, maths: Maths, events: seq<Event>)
    requires maths.Sound() && p.WellFormed() && p.RawCr(p.mu0, p.sigma0) >= 0.0
    ensures PointsSound(p, After(p, maths, events))
  {
    hide Step, PointsSound;
    if events == [] {
      NoRowsAreSound(p);
    } else {
      RunKeepsPoints(p, maths, events[..|events| - 1]);
      StepKeepsPoints(p, maths, After(p, maths, events[..|events| - 1]), events[|events| - 1]);
    }
  }

  lemma NoRowsAreSound(p: RatingParams)
    ensures PointsSound(p, map[])
  {
  }

  /** Two players, both ineligible. */
  const VOID_LOBBY := [
    LobbyTeam(1, 1, [Seat("a", false, 0.0, 0.0)]), LobbyTeam(2, 2, [Seat("b", false, 0.0, 0.0)])
  ]

  /** A voided match still creates rows, with the unfloored start. */
  lemma VoidLobbyEnrols(p: RatingParams, maths: Maths)
    requires maths.Sound() && p.WellFormed() && p.Validated()
    ensures After(p, maths, [Match(VOID_LOBBY)]) == Enrolled(map[], Players(VOID_LOBBY), p)
    ensures "a" in Players(VOID_LOBBY)
  {
    hide Results, Canonical, FrozenTeam;
    assert VOID_LOBBY[0] in VOID_LOBBY && VOID_LOBBY[0].seats[0] in VOID_LOBBY[0].seats;
    assert [Match(VOID_LOBBY)][..0] == [];
    assert After(p, maths, []) == map[];
    var enrolled := Enrolled(map[], Players(VOID_LOBBY), p);
    var m := Input(enrolled, VOID_LOBBY, p);
    assert |m.teams| == 2;
    assert !AnyEmpty(m.teams) && !AnyEligible(m.teams);
    assert Rated(m, maths).Ok? && Rated(m, maths).value.voided;
  }

  /**
   Over every run of matches and resets each player keeps cr == to_cr(mu, sigma) >= 0 and a peak that is no lower,
   exactly when a new row starts at or above zero points.
   */
  lemma PointsSoundIff(p: RatingParams, maths: Maths)
    requires maths.Sound() && p.WellFormed() && p.Validated()
    ensures (forall events :: PointsSound(p, After(p, maths, events))) <==> p.RawCr(p.mu0, p.sigma0) >= 0.0
  {
    hide Enrolled, Players, After, RatingParams.RawCr, PointsSound;
    if p.RawCr(p.mu0, p.sigma0) >= 0.0 {
      forall events ensures PointsSound(p, After(p, maths, events)) { RunKeepsPoints(p, maths, events); }
    } else {
      VoidLobbyEnrols(p, maths);
      FreshRowUnsound(p, Players(VOID_LOBBY), "a");
      assert !PointsSound(p, After(p, maths, [Match(VOID_LOBBY)]));
    }
  }

  lemma FreshRowUnsound(p: RatingParams, ids: set<string>, id: string)
    requires p.RawCr(p.mu0, p.sigma0) < 0.0 && id in ids
    ensures !PointsSound(p, Enrolled(map[], ids, p))
  {
    assert Enrolled(map[], ids, p)[id] == FreshRow(id, p);
  }

  // ---- Sigma ----

  ghost predicate SigmasPositive(rows: Rows) {
    forall id <- rows :: rows[id].sigma > 0.0
  }

  ghost predicate SeatsPositive(teams: seq<TeamInput>) {
    forall t <- teams :: forall pt <- t.participants :: pt.state.sigma > 0.0
  }

  lemma CanonicalKeepsSeats(teams: seq<TeamInput>)
    requires SeatsPositive(teams)
    ensures PositiveSigmas(Ratings(Canonical(teams)))
  {
    var sorted := Sorting.Sorted(teams, TeamLeq);
    Sorting.SortPermutes(teams, TeamLeq);
    forall i, j | 0 <= i < |sorted| && 0 <= j < |Ratings(Canonical(teams))[i]|
      ensures Ratings(Canonical(teams))[i][j].sigma > 0.0
    {
      var t := sorted[i];
      assert t in sorted;
      Sorting.SortPermutes(t.participants, PlayerLeq);
      assert Lined(t).participants[j] in Lined(t).participants;
    }
  }

  lemma RatedKeepsSigmas(m: MatchInput, maths: Maths)
    requires maths.Sound() && m.params.WellFormed() && Rated(m, maths).Ok? && !Rated(m, maths).value.voided
    requires SeatsPositive(m.teams)
    ensures forall r <- Rated(m, maths).value.players :: r.eligible ==> r.sigmaAfter > 0.0
  {
    hide PlayerResult, Results, Canonical, AnyEligible, AnyEmpty;
    var ordered := Canonical(m.teams);
    var lobby := LobbyOf(m.params, maths, ordered);
    CanonicalKeepsSeats(m.teams);
    var updated: seq<seq<Rating>> := maths.plackettLuce(m.params, Ratings(ordered), Ranks(ordered));
    forall r | r in Results(lobby, ordered) && r.eligible ensures r.sigmaAfter > 0.0 {
      var i, j := ResultHasSeat(lobby, ordered, r);
      assert Ratings(ordered)[i][j].sigma > 0.0 && updated[i][j].sigma > 0.0;
      SeatSigma(lobby, ordered[i].participants[j], updated[i][j], ordered[i].placement);
    }
  }

  lemma SeatSigma(lobby: Lobby, pt: ParticipantInput, updated: Rating, placement: int)
    requires lobby.Valid() && pt.state.sigma > 0.0 && updated.sigma > 0.0
    ensures PlayerResult(lobby, pt, updated, placement).sigmaAfter > 0.0
  {
    hide Chain, CapFacts, SigmaAfter, Settle;
    SigmaStaysPositive(pt.state.sigma, updated.sigma, pt.boostingPenaltyFactor);
  }

  lemma {:induction false} PersistedKeepsSigmas(rows: Rows, results: seq<PlayerRatingResult>)
    requires SigmasPositive(rows) && forall r <- results :: r.eligible ==> r.sigmaAfter > 0.0
    ensures SigmasPositive(Persisted(rows, results))
  {
    if results != [] {
      assert results[|results| - 1] in results;
      PersistedKeepsSigmas(rows, results[..|results| - 1]);
    }
  }

  lemma InputSeats(rows: Rows, lobby: seq<LobbyTeam>, p: RatingParams)
    requires SigmasPositive(rows) && forall t <- lobby :: forall s <- t.seats :: s.playerId in rows
    ensures SeatsPositive(Input(rows, lobby, p).teams)
  {
  }

  lemma EnrolledKeepsSigmas(m: MatchInput, maths: Maths, rows: Rows, ids: set<string>)
    requires maths.Sound() && m.params.WellFormed() && Rated(m, maths).Ok? && SigmasPositive(rows)
    ensures SigmasPositive(Enrolled(rows, ids, m.params))
  {
    hide Results, Canonical, AnyEligible, AnyEmpty;
  }

  lemma ResetKeepsSigmas(p: RatingParams, rows: Rows)
    requires SigmasPositive(rows) && p.sigmaResetMult > 0.0 && p.sigmaResetCap > 0.0
    ensures SigmasPositive(Carried(rows, p))
  {
    forall id | id in rows ensures SoftReset(rows[id], p).sigma > 0.0 {
      assert rows[id].sigma * p.sigmaResetMult > 0.0;
    }
  }

  lemma StepKeepsSigmas(p: RatingParams, maths: Maths, rows: Rows, e: Event)
    requires maths.Sound() && p.WellFormed() && SigmasPositive(rows)
    requires p.sigmaResetMult > 0.0 && p.sigmaResetCap > 0.0
    ensures SigmasPositive(Step(p, maths, rows, e))
  {
    hide SigmasPositive, SeatsPositive, Rated, Persisted, SoftReset, Maths.Sound, RatingParams.WellFormed;
    match e
    case Match(lobby) =>
      var enrolled := Enrolled(rows, Players(lobby), p);
      var m := Input(enrolled, lobby, p);
      if Rated(m, maths).Ok? {
        EnrolledKeepsSigmas(m, maths, rows, Players(lobby));
        InputSeats(enrolled, lobby, p);
        if !Rated(m, maths).value.voided {
          RatedKeepsSigmas(m, maths);
          PersistedKeepsSigmas(enrolled, Rated(m, maths).value.players);
        }
      }
    case Reset => ResetKeepsSigmas(p, rows);
  }

  /** The engine never hands Plackett-Luce a sigma that is not positive, over any run of matches and resets. */
  lemma {:induction false} RunKeepsSigmas(p: RatingParams, maths: Maths, events: seq<Event>)
    requires maths.Sound() && p.WellFormed() && p.sigmaResetMult > 0.0 && p.sigmaResetCap > 0.0
    ensures SigmasPositive(After(p, maths, events))
  {
    hide Step;
    if events != [] {
      RunKeepsSigmas(p, maths, events[..|events| - 1]);
      StepKeepsSigmas(p, maths, After(p, maths, events[..|events| - 1]), events[|events| - 1]);
    }
  }

  // ---- What a season's match pays ----

  lemma CanonicalSeat(teams: seq<TeamInput>, i: nat, j: nat) returns (k: nat, l: nat)
    requires i < |Canonical(teams)| && j < |Canonical(teams)[i].participants|
    ensures k < |teams| && l < |teams[k].participants|
    ensures teams[k].participants[l] == Canonical(teams)[i].participants[j]
    ensures teams[k].placement == Canonical(teams)[i].placement
  {
    Sorting.SortPermutes(teams, TeamLeq);
    var t := Sorting.Sorted(teams, TeamLeq)[i];
    assert t in Sorting.Sorted(teams, TeamLeq);
    Sorting.SortPermutes(t.participants, PlayerLeq);
    assert Lined(t).participants[j] in Lined(t).participants;
    k :| 0 <= k < |teams| && teams[k] == t;
    l :| 0 <= l < |t.participants| && t.participants[l] == Lined(t).participants[j];
  }

  /** The payout of a result belongs to a seat of the lobby. */
  ghost predicate PaidAtSeat(r: PlayerRatingResult, lobby: seq<LobbyTeam>)
    requires |lobby| in {6, 8} && forall t <- lobby :: 1 <= t.placement <= |lobby|
  {
    exists k, l :: && 0 <= k < |lobby| && 0 <= l < |lobby[k].seats|
                   && (var seat := lobby[k].seats[l];
                       && r.playerId == seat.playerId && seat.eligible
                       && lobby[k] in lobby
                       && PaidFairly(r.crDelta, lobby[k].placement, |lobby|, seat.boosting))
  }

  lemma RatedSeatIsPaid(rows: Rows, lobby: seq<LobbyTeam>, m: MatchInput, maths: Maths, r: PlayerRatingResult)
    requires maths.Sound() && DEFAULT_PARAMS.WellFormed() && DEFAULT_PARAMS.Validated()
    requires PointsSound(DEFAULT_PARAMS, rows)
    requires |lobby| in {6, 8} && forall t <- lobby :: 1 <= t.placement <= |lobby|
    requires forall t <- lobby :: forall s <- t.seats :: s.playerId in rows
    requires m == Input(rows, lobby, DEFAULT_PARAMS)
    requires r in Results(LobbyOf(DEFAULT_PARAMS, maths, Canonical(m.teams)), Canonical(m.teams)) && r.eligible
    ensures PaidAtSeat(r, lobby)
  {
    hide PlayerResult, Results, Canonical, PaidFairly, PointsSound, Maths.Sound, Mus, Ratings, Ranks;
    var ordered := Canonical(m.teams);
    CanonicalLength(m.teams);
    var all := LobbyOf(DEFAULT_PARAMS, maths, ordered);
    var updated: seq<seq<Rating>> := maths.plackettLuce(DEFAULT_PARAMS, Ratings(ordered), Ranks(ordered));
    var i, j := ResultHasSeat(all, ordered, r);
    var k, l := CanonicalSeat(m.teams, i, j);
    ShapeKept(maths, DEFAULT_PARAMS, ordered);
    EligibleSeat(all, ordered[i].participants[j], updated[i][j], ordered[i].placement);
    SoundRow(DEFAULT_PARAMS, rows, m.teams[k].participants[l].playerId);
    assert lobby[k] in lobby;
    DefaultsPayFairly(all, ordered[i].participants[j], updated[i][j], ordered[i].placement);
  }

  /** With the shipped parameters, after any season whatever, every rated player of the next match is paid fairly. */
  lemma SeasonPaysFairly(maths: Maths, events: seq<Event>, lobby: seq<LobbyTeam>, m: MatchInput)
    requires maths.Sound() && DEFAULT_PARAMS.WellFormed()
    requires |lobby| in {6, 8} && forall t <- lobby :: 1 <= t.placement <= |lobby|
    requires var rows := Enrolled(After(DEFAULT_PARAMS, maths, events), Players(lobby), DEFAULT_PARAMS);
             m == Input(rows, lobby, DEFAULT_PARAMS)
    requires Rated(m, maths).Ok?
    ensures forall r <- Rated(m, maths).value.players :: r.eligible ==> PaidAtSeat(r, lobby)
  {
    hide Results, Canonical, AnyEligible, AnyEmpty, After, PaidAtSeat, PointsSound, LobbyOf, Maths.Sound;
    DefaultsAreSound();
    RunKeepsPoints(DEFAULT_PARAMS, maths, events);
    var rows := Enrolled(After(DEFAULT_PARAMS, maths, events), Players(lobby), DEFAULT_PARAMS);
    EnrolledKeepsPoints(DEFAULT_PARAMS, After(DEFAULT_PARAMS, maths, events), Players(lobby));
    forall r | r in Rated(m, maths).value.players && r.eligible ensures PaidAtSeat(r, lobby) {
      if Rated(m, maths).value.voided {
        VoidIsFrozen(m, maths, r);
      } else {
        RatedSeatIsPaid(rows, lobby, m, maths, r);
      }
    }
  }

  lemma SoundRow(p: RatingParams, rows: Rows, id: string)
    requires PointsSound(p, rows) && id in rows
    ensures rows[id].cr >= 0.0
  {
  }

  lemma CanonicalLength(teams: seq<TeamInput>)
    ensures |Canonical(teams)| == |teams|
  {
    Sorting.SortPermutes(teams, TeamLeq);
  }

  lemma VoidIsFrozen(m: MatchInput, maths: Maths, r: PlayerRatingResult)
    requires maths.Sound() && m.params.WellFormed() && Rated(m, maths).Ok? && Rated(m, maths).value.voided
    requires r in Rated(m, maths).value.players
    ensures !r.eligible && r.crDelta == 0.0
  {
    hide Results, Canonical, AnyEligible, AnyEmpty;
    var ordered := Canonical(m.teams);
    var lobby := LobbyOf(m.params, maths, ordered);
    var all := seq(|ordered|, i requires 0 <= i < |ordered| => FrozenTeam(lobby, ordered[i]));
    InFlatten(all, r);
  }

  // ---- Placement matches ----

  /** Everybody has as many placement matches left as are missing from the number of matches that takes. */
  ghost predicate PlacementsCount(p: RatingParams, rows: Rows) {
    forall id <- rows :: var s := rows[id];
      && s.matchesPlayed >= 0
      && s.placementMatchesRemaining ==
         if s.matchesPlayed < p.placementMatchCount then p.placementMatchCount - s.matchesPlayed else 0
  }

  lemma {:induction false} PersistedCounts(p: RatingParams, rows: Rows, results: seq<PlayerRatingResult>)
    requires PlacementsCount(p, rows)
    ensures PlacementsCount(p, Persisted(rows, results))
  {
    if results != [] { PersistedCounts(p, rows, results[..|results| - 1]); }
  }

  lemma StepCountsPlacements(p: RatingParams, maths: Maths, rows: Rows, e: Event)
    requires maths.Sound() && p.WellFormed() && p.placementMatchCount >= 0 && PlacementsCount(p, rows)
    ensures PlacementsCount(p, Step(p, maths, rows, e))
  {
    hide Rated, RatingParams.ToCr, RatingParams.RawCr, Maths.Sound;
    match e
    case Match(lobby) =>
      var enrolled := Enrolled(rows, Players(lobby), p);
      assert PlacementsCount(p, enrolled);
      var m := Input(enrolled, lobby, p);
      if Rated(m, maths).Ok? { PersistedCounts(p, enrolled, Rated(m, maths).value.players); }
    case Reset =>
  }

  /** Over every run of matches and resets placement matches count down one by one with the matches of the season. */
  lemma {:induction false} RunCountsPlacements(p: RatingParams, maths: Maths, events: seq<Event>)
    requires maths.Sound() && p.WellFormed() && p.placementMatchCount >= 0
    ensures PlacementsCount(p, After(p, maths, events))
  {
    hide Step;
    if events != [] {
      RunCountsPlacements(p, maths, events[..|events| - 1]);
      StepCountsPlacements(p, maths, After(p, maths, events[..|events| - 1]), events[|events| - 1]);
    }
  }

  // ---- What a soft reset does ----

  lemma Between(x: real, f: real)
    requires 0.0 <= f <= 1.0
    ensures x >= 0.0 ==> 0.0 <= f * x <= x
    ensures x <= 0.0 ==> x <= f * x <= 0.0
  {
    ShareIsPart(f, Abs(x));
    assert f * -x == -(f * x);
  }

  /**
   A mean keeps the reset factor's share of its distance to the anchor, so for a factor between 0 and 1 it ends up
   between the two; sigma grows by its multiplier up to the cap; and streak, matches and placement matches start over,
   with the peak at the new points.
   */
  ghost predicate PulledToAnchor(p: RatingParams, s: PlayerState, s': PlayerState) {
    && s'.playerId == s.playerId
    && s'.mu - p.resetAnchor == p.resetFactor * (s.mu - p.resetAnchor)
    && (0.0 <= p.resetFactor <= 1.0 ==> Min(s.mu, p.resetAnchor) <= s'.mu <= Max(s.mu, p.resetAnchor))
    && s'.sigma <= s.sigma * p.sigmaResetMult && s'.sigma <= p.sigmaResetCap
    && (s'.sigma == s.sigma * p.sigmaResetMult || s'.sigma == p.sigmaResetCap)
    && s'.currentStreak == s'.matchesPlayed == 0 && s'.placementMatchesRemaining == p.placementMatchCount
    && s'.peakCr == s'.cr == p.ToCr(s'.mu, s'.sigma)
  }

  lemma StateIsPulled(p: RatingParams, s: PlayerState)
    ensures PulledToAnchor(p, s, SoftReset(s, p))
  {
    hide RatingParams.ToCr;
    var anchor, f := p.resetAnchor, p.resetFactor;
    var x := s.mu - anchor;
    assert SoftReset(s, p).mu - anchor == f * x by { assert x * f == f * x; }
    if 0.0 <= f <= 1.0 { Between(x, f); }
  }

  /** The soft reset carries exactly those who have played, each pulled to the anchor. */
  lemma ResetPullsToAnchor(p: RatingParams, rows: Rows, id: string)
    ensures id in Carried(rows, p) <==> id in rows && rows[id].matchesPlayed > 0
    ensures id in Carried(rows, p) ==> PulledToAnchor(p, rows[id], Carried(rows, p)[id])
  {
    hide SoftReset, PulledToAnchor;
    if id in rows { StateIsPulled(p, rows[id]); }
  }

  lemma PulledAlike(a: real, b: real, anchor: real, f: real, a': real, b': real)
    requires a' - anchor == f * (a - anchor) && b' - anchor == f * (b - anchor)
    ensures a' - b' == f * (a - b)
    ensures f > 0.0 ==> (a' < b' <==> a < b)
  {
    var x, y := a - anchor, b - anchor;
    var d := x - y;
    assert a' - b' == f * d by { assert f * x - f * y == f * (x - y); }
    if f > 0.0 {
      if d >= 0.0 { assert f * d >= 0.0; } else { assert f * -d > 0.0 && f * -d == -(f * d); }
    }
  }

  /** Between two carried players the reset keeps the factor's share of the gap, so for a positive factor the order. */
  lemma ResetKeepsOrder(p: RatingParams, rows: Rows, id: string, other: string)
    requires id in Carried(rows, p) && other in Carried(rows, p)
    ensures id in rows && other in rows
    ensures var after := Carried(rows, p);
            && after[id].mu - after[other].mu == p.resetFactor * (rows[id].mu - rows[other].mu)
            && (p.resetFactor > 0.0 ==> (after[id].mu < after[other].mu <==> rows[id].mu < rows[other].mu))
  {
    hide RatingParams.ToCr, Carried, SoftReset;
    ResetPullsToAnchor(p, rows, id);
    ResetPullsToAnchor(p, rows, other);
    var after := Carried(rows, p);
    PulledAlike(rows[id].mu, rows[other].mu, p.resetAnchor, p.resetFactor, after[id].mu, after[other].mu);
  }

  // ---- Who is touched ----

  /** How often a player was rated in a list of results. */
  function TimesRated(results: seq<PlayerRatingResult>, id: string): nat {
    if results == [] then 0
    else
      TimesRated(results[..|results| - 1], id)
      + (if results[|results| - 1].eligible && results[|results| - 1].playerId == id then 1 else 0)
  }

  /** Persisting counts one match per rated result and leaves everybody else's row alone. */
  lemma {:induction false} PersistedTouchesRated(rows: Rows, results: seq<PlayerRatingResult>, id: string)
    requires id in rows
    ensures id in Persisted(rows, results)
    ensures Persisted(rows, results)[id].matchesPlayed == rows[id].matchesPlayed + TimesRated(results, id)
    ensures TimesRated(results, id) == 0 ==> Persisted(rows, results)[id] == rows[id]
  {
    if results != [] { PersistedTouchesRated(rows, results[..|results| - 1], id); }
  }
}
