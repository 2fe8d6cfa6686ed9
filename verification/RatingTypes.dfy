/** The engine's contracts, backend/arena/rating/types.py. */
module RatingTypes {
  import opened Wrappers
  import opened Caps
  import opened Params

  /** One player in one season. */
  datatype PlayerState = PlayerState(
    playerId: string,
    mu: real,
    sigma: real,
    cr: real,
    currentStreak: int,
    matchesPlayed: int,
    placementMatchesRemaining: int,
    peakCr: real)

  datatype ParticipantInput = ParticipantInput(
    playerId: string,
    state: PlayerState,
    championId: int,
    eligibleForProgression: bool,
    isPremade: bool,
    partyId: Option<string>,
    boostingPenaltyFactor: real,
    partyPenaltyFactor: real)

  datatype TeamInput = TeamInput(teamId: int, placement: int, participants: seq<ParticipantInput>)

  datatype MatchInput = MatchInput(matchId: string, mode: string, teams: seq<TeamInput>, params: RatingParams)

  datatype AppliedModifiers = AppliedModifiers(
    plBaseDeltaMu: real,
    placementWeight: real,
    placementAmp: real,
    streakMult: real,
    softCapFactor: real,
    boostingFactor: real,
    partyFactor: real,
    dispersionClamped: bool,
    finalDeltaMu: real)

  datatype CapExplanation = CapExplanation(
    bound: CapBound,
    rawCrDelta: real,
    cappedCrDelta: real,
    bounds: Bounds,
    minGain: real,
    mismatchOverride: real,
    highCrScale: real,
    compositeWin: real,
    compositeLoss: real,
    gainFloorMult: real,
    teamCount: int,
    lobbyMeanMu: real)

  datatype PlayerRatingResult = PlayerRatingResult(
    playerId: string,
    muBefore: real,
    muAfter: real,
    sigmaBefore: real,
    sigmaAfter: real,
    crBefore: real,
    crAfter: real,
    crDelta: real,
    eligible: bool,
    isWin: bool,
    newStreak: int,
    modifiers: AppliedModifiers,
    cap: Option<CapExplanation>,
    confidenceCr: real,
    preCapCrDelta: real,
    teamCount: int)

  datatype RatingResult = RatingResult(matchId: string, voided: bool, players: seq<PlayerRatingResult>)

  datatype RatingError = InvalidParams | TooFewTeams | EmptyTeam
}
