/**
 Replaying crawled matches in play order, backend/arena/ingest/replay.py. What the rating service does with a match
 is a parameter; a start time of zero stands for the clock at replay.
 */
module Replay {
  import opened Wrappers
  import opened Arena
  import Sorting

  /** One participant as handed to the service; the counters of `played` are passed through field by field. */
  datatype RawParticipant = RawParticipant(playerId: string, teamId: int, placement: int, played: ParsedParticipant)

  datatype RawMatch = RawMatch(
    riotMatchId: string,
    mode: ArenaMode,
    queueId: int,
    playedAtMs: Option<int>,
    durationSeconds: int,
    participants: seq<RawParticipant>)

  /** Rate one match, given who in it is ineligible. */
  type Process<!S> = (S, set<string>, RawMatch) -> S

  predicate StartsBefore(a: ParsedArenaMatch, b: ParsedArenaMatch) {
    a.startedAtMs <= b.startedAtMs
  }

  /** Every participant has a puuid, and a player for it. */
  predicate AllKnown(m: ParsedArenaMatch, idMap: map<string, string>) {
    forall t <- m.subteams :: forall p <- t.participants :: p.puuid != "" && p.puuid in idMap
  }

  function Ineligible(m: ParsedArenaMatch, idMap: map<string, string>): set<string>
    requires AllKnown(m, idMap)
  {
    set t <- m.subteams, p <- t.participants | !p.eligibleForProgression :: idMap[p.puuid]
  }

  function RawOf(t: ParsedSubteam, idMap: map<string, string>): seq<RawParticipant>
    requires forall p <- t.participants :: p.puuid in idMap
  {
    seq(|t.participants|, i requires 0 <= i < |t.participants| =>
      assert t.participants[i] in t.participants;
      RawParticipant(idMap[t.participants[i].puuid], t.subteamId, t.placement, t.participants[i]))
  }

  function RawOfAll(teams: seq<ParsedSubteam>, idMap: map<string, string>): seq<RawParticipant>
    requires forall t <- teams :: forall p <- t.participants :: p.puuid in idMap
  {
    if teams == [] then []
    else
      assert teams[|teams| - 1] in teams;
      RawOfAll(teams[..|teams| - 1], idMap) + RawOf(teams[|teams| - 1], idMap)
  }

  function Raw(m: ParsedArenaMatch, idMap: map<string, string>): RawMatch
    requires AllKnown(m, idMap)
  {
    RawMatch(m.matchId, m.mode, m.queueId, if m.startedAtMs != 0 then Some(m.startedAtMs) else None, m.gameDuration,
             RawOfAll(m.subteams, idMap))
  }

  /** The state after the given matches in the given order, and how many were rated. */
  function Played<S>(s: S, ms: seq<ParsedArenaMatch>, idMap: map<string, string>, process: Process<S>): (S, nat) {
    if ms == [] then (s, 0)
    else
      var (before, n) := Played(s, ms[..|ms| - 1], idMap, process);
      var m := ms[|ms| - 1];
      if AllKnown(m, idMap) then (process(before, Ineligible(m, idMap), Raw(m, idMap)), n + 1) else (before, n)
  }

  function Replayed<S>(s: S, ms: seq<ParsedArenaMatch>, idMap: map<string, string>, process: Process<S>): (S, nat) {
    Played(s, Sorting.Sorted(ms, StartsBefore), idMap, process)
  }

  /** The service the replay drives: its integrity check is swapped before every match. */
  class RatingService<S> {
    var integrity: set<string>
    var state: S
    const process: Process<S>

    constructor (state: S, process: Process<S>)
      ensures this.state == state && this.process == process
    {
      this.state, this.process, this.integrity := state, process, {};
    }

    method ProcessMatch(m: RawMatch)
      modifies this`state
      ensures state == process(old(state), integrity, m)
    {
      state := process(state, integrity, m);
    }
  }

  method ReplayChronological<S>(service: RatingService<S>, ms: seq<ParsedArenaMatch>, idMap: map<string, string>)
    returns (processed: nat)
    modifies service
    ensures (service.state, processed) == Replayed(old(service.state), ms, idMap, service.process)
  {
    hide Ineligible, Raw, AllKnown;
    var ordered := Sorting.Sorted(ms, StartsBefore);
    processed := 0;
    for i := 0 to |ordered|
      invariant (service.state, processed) == Played(old(service.state), ordered[..i], idMap, service.process)
    {
      assert ordered[..i + 1][..i] == ordered[..i];
      var m := ordered[i];
      if AllKnown(m, idMap) {
        var ineligible, raw := Prepare(m, idMap);
        service.integrity := ineligible;
        service.ProcessMatch(raw);
        processed := processed + 1;
      }
    }
    assert ordered[..|ordered|] == ordered;
  }

  /** The two loops over one match. */
  method Prepare(m: ParsedArenaMatch, idMap: map<string, string>) returns (ineligible: set<string>, raw: RawMatch)
    requires AllKnown(m, idMap)
    ensures ineligible == Ineligible(m, idMap) && raw == Raw(m, idMap)
  {
    var parts: seq<RawParticipant> := [];
    var teams := m.subteams;
    ineligible := {};
    for j := 0 to |teams|
      invariant ineligible == IneligibleAmong(teams[..j], idMap)
      invariant parts == RawOfAll(teams[..j], idMap)
    {
      IneligibleAdds(teams, j, idMap);
      ineligible, parts := AddTeam(ineligible, parts, teams[j], idMap);
      RawAdds(teams, j, idMap);
    }
    assert teams[..|teams|] == teams;
    raw := RawMatch(m.matchId, m.mode, m.queueId, if m.startedAtMs != 0 then Some(m.startedAtMs) else None,
                    m.gameDuration, parts);
  }

  lemma RawAdds(teams: seq<ParsedSubteam>, j: nat, idMap: map<string, string>)
    requires j < |teams| && forall t <- teams :: forall p <- t.participants :: p.puuid in idMap
    ensures teams[j] in teams
    ensures RawOfAll(teams[..j + 1], idMap) == RawOfAll(teams[..j], idMap) + RawOf(teams[j], idMap)
  {
    assert teams[..j + 1][..j] == teams[..j];
  }

  function IneligibleAmong(teams: seq<ParsedSubteam>, idMap: map<string, string>): set<string>
    requires forall t <- teams :: forall p <- t.participants :: p.puuid in idMap
  {
    set t <- teams, p <- t.participants | !p.eligibleForProgression :: idMap[p.puuid]
  }

  lemma IneligibleAdds(teams: seq<ParsedSubteam>, j: nat, idMap: map<string, string>)
    requires j < |teams| && forall t <- teams :: forall p <- t.participants :: p.puuid in idMap
    ensures teams[j] in teams
    ensures IneligibleAmong(teams[..j + 1], idMap)
         == IneligibleAmong(teams[..j], idMap) + IneligibleAmong([teams[j]], idMap)
  {
    assert teams[..j + 1] == teams[..j] + [teams[j]];
  }

  /** The inner loop over one team. */
  method AddTeam(ineligible: set<string>, parts: seq<RawParticipant>, t: ParsedSubteam, idMap: map<string, string>)
    returns (ineligible': set<string>, parts': seq<RawParticipant>)
    requires forall p <- t.participants :: p.puuid in idMap
    ensures ineligible' == ineligible + IneligibleAmong([t], idMap)
    ensures parts' == parts + RawOf(t, idMap)
  {
    ineligible', parts' := ineligible, parts;
    for k := 0 to |t.participants|
      invariant ineligible' == ineligible + set p <- t.participants[..k] | !p.eligibleForProgression :: idMap[p.puuid]
      invariant parts' == parts + RawOf(t, idMap)[..k]
    {
      var p := t.participants[k];
      assert p in t.participants;
      assert t.participants[..k + 1] == t.participants[..k] + [p];
      if !p.eligibleForProgression {
        ineligible' := ineligible' + {idMap[p.puuid]};
      }
      parts' := parts' + [RawParticipant(idMap[p.puuid], t.subteamId, t.placement, p)];
    }
    assert t.participants[..|t.participants|] == t.participants;
    assert RawOf(t, idMap)[..|t.participants|] == RawOf(t, idMap);
  }

  // ---- What the service is told about a match ----

  lemma {:induction false} RawCounted(teams: seq<ParsedSubteam>, idMap: map<string, string>)
    requires forall t <- teams :: forall p <- t.participants :: p.puuid in idMap
    ensures |RawOfAll(teams, idMap)| == TeamStart(teams, |teams|)
  {
    if teams != [] {
      var n := |teams| - 1;
      RawCounted(teams[..n], idMap);
      NextTeamStart(teams, n);
      assert teams[..n][..n] == teams[..n];
    }
  }

  lemma {:induction false} RawSeat(teams: seq<ParsedSubteam>, idMap: map<string, string>, i: nat, j: nat)
    requires forall t <- teams :: forall p <- t.participants :: p.puuid in idMap
    requires i < |teams| && j < |teams[i].participants|
    ensures TeamStart(teams, i) + j < |RawOfAll(teams, idMap)|
    ensures teams[i] in teams && teams[i].participants[j] in teams[i].participants
    ensures RawOfAll(teams, idMap)[TeamStart(teams, i) + j]
         == RawParticipant(idMap[teams[i].participants[j].puuid], teams[i].subteamId, teams[i].placement,
                           teams[i].participants[j])
  {
    var n := |teams| - 1;
    RawCounted(teams, idMap);
    RawCounted(teams[..n], idMap);
    NextTeamStart(teams, n);
    assert teams[..n][..i] == teams[..i] && teams[..n][..n] == teams[..n];
    if i < n { RawSeat(teams[..n], idMap, i, j); }
  }

  /**
   What the service is told, participant by participant: the player behind the puuid, under the team's id and the
   team's placement, team by team in the order of the match and nobody else; and ineligible are exactly the players of
   participants the match does not count for.
   */
  lemma ToldOneByOne(m: ParsedArenaMatch, idMap: map<string, string>, i: nat, j: nat)
    requires AllKnown(m, idMap) && i < |m.subteams| && j < |m.subteams[i].participants|
    ensures var t, raw := m.subteams[i], Raw(m, idMap);
            var p := t.participants[j];
            && raw.riotMatchId == m.matchId && raw.mode == m.mode && raw.queueId == m.queueId
            && raw.durationSeconds == m.gameDuration
            && (raw.playedAtMs == None <==> m.startedAtMs == 0)
            && (raw.playedAtMs.Some? ==> raw.playedAtMs.value == m.startedAtMs)
            && |raw.participants| == Headcount(m.subteams) && TeamStart(m.subteams, i) + j < |raw.participants|
            && p.puuid in idMap
            && (var told := raw.participants[TeamStart(m.subteams, i) + j];
                && told.playerId == idMap[p.puuid] && told.played == p
                && told.teamId == t.subteamId && told.placement == t.placement)
            && (!p.eligibleForProgression ==> idMap[p.puuid] in Ineligible(m, idMap))
    ensures forall id <- Ineligible(m, idMap) :: exists t, p ::
              t in m.subteams && p in t.participants && !p.eligibleForProgression && idMap[p.puuid] == id
  {
    RawSeat(m.subteams, idMap, i, j);
    RawCounted(m.subteams, idMap);
    assert m.subteams[..|m.subteams|] == m.subteams;
  }

  // ---- What the replay depends on ----

  /** The matches that can be rated, in the order they are listed. */
  function Known(ms: seq<ParsedArenaMatch>, idMap: map<string, string>): seq<ParsedArenaMatch> {
    Sorting.Filter(ms, (m: ParsedArenaMatch) => AllKnown(m, idMap))
  }

  /** Rating the known matches one after the other. */
  function Fold<S>(s: S, known: seq<ParsedArenaMatch>, idMap: map<string, string>, process: Process<S>): S
    requires forall m <- known :: AllKnown(m, idMap)
  {
    if known == [] then s
    else
      var m := known[|known| - 1];
      assert m in known;
      process(Fold(s, known[..|known| - 1], idMap, process), Ineligible(m, idMap), Raw(m, idMap))
  }

  lemma {:induction false} PlayedIsFold<S>(
      s: S, ms: seq<ParsedArenaMatch>, idMap: map<string, string>, process: Process<S>)
    ensures forall m <- Known(ms, idMap) :: AllKnown(m, idMap)
    ensures Played(s, ms, idMap, process) == (Fold(s, Known(ms, idMap), idMap, process), |Known(ms, idMap)|)
  {
    hide AllKnown, Ineligible, Raw;
    Sorting.FilterMembers(ms, (m: ParsedArenaMatch) => AllKnown(m, idMap));
    if ms != [] {
      var front, last := ms[..|ms| - 1], ms[|ms| - 1];
      PlayedIsFold(s, front, idMap, process);
      if AllKnown(last, idMap) {
        assert Known(ms, idMap) == Known(front, idMap) + [last];
        assert Known(ms, idMap)[..|Known(ms, idMap)| - 1] == Known(front, idMap);
      } else {
        assert Known(ms, idMap) == Known(front, idMap);
      }
    }
  }

  lemma StartOrder()
    ensures Sorting.TotalPreorder(StartsBefore)
  {
  }

  /**
   The replay rates exactly the matches whose participants are all known, oldest first and those that start together
   in the order listed, and counts them; a match with an unknown participant is as good as not listed.
   */
  lemma ReplayRatesTheKnown<S>(s: S, ms: seq<ParsedArenaMatch>, idMap: map<string, string>, process: Process<S>)
    ensures var known := Sorting.Sorted(Known(ms, idMap), StartsBefore);
            && (forall m <- known :: AllKnown(m, idMap)) && OldestFirst(known)
            && (forall m :: m in known <==> m in ms && EverybodyKnown(m, idMap))
            && multiset(known) == multiset(Known(ms, idMap))
            && Replayed(s, ms, idMap, process) == (Fold(s, known, idMap, process), |Known(ms, idMap)|)
            && Replayed(s, Known(ms, idMap), idMap, process) == Replayed(s, ms, idMap, process)
  {
    hide AllKnown, Ineligible, Raw, Fold, Played, Sorting.Sorted, Sorting.Ordered, Sorting.TotalPreorder;
    var all := (m: ParsedArenaMatch) => AllKnown(m, idMap);
    StartOrder();
    PlayedIsFold(s, Sorting.Sorted(ms, StartsBefore), idMap, process);
    Sorting.FilterSorted(ms, StartsBefore, all);
    var known := Sorting.Sorted(Known(ms, idMap), StartsBefore);
    Sorting.SortOrders(Known(ms, idMap), StartsBefore);
    Sorting.SortPermutes(Known(ms, idMap), StartsBefore);
    PlayedIsFold(s, known, idMap, process);
    Sorting.FilterSorted(Known(ms, idMap), StartsBefore, all);
    KnownTwice(ms, idMap);
    OrderedIsOldestFirst(known);
    forall m ensures m in known <==> m in ms && EverybodyKnown(m, idMap) {
      KnownMembers(ms, idMap, m);
    }
  }

  /** No participant without a puuid or without a player. */
  ghost predicate EverybodyKnown(m: ParsedArenaMatch, idMap: map<string, string>) {
    !exists t, p :: t in m.subteams && p in t.participants && (p.puuid == "" || p.puuid !in idMap.Keys)
  }

  ghost predicate OldestFirst(ms: seq<ParsedArenaMatch>) {
    forall i, j :: 0 <= i < j < |ms| ==> ms[i].startedAtMs <= ms[j].startedAtMs
  }

  lemma OrderedIsOldestFirst(ms: seq<ParsedArenaMatch>)
    requires Sorting.Ordered(ms, StartsBefore)
    ensures OldestFirst(ms)
  {
    forall i, j | 0 <= i < j < |ms| ensures ms[i].startedAtMs <= ms[j].startedAtMs {
      assert StartsBefore(ms[i], ms[j]);
    }
  }

  lemma {:induction false} KnownMembers(ms: seq<ParsedArenaMatch>, idMap: map<string, string>, m: ParsedArenaMatch)
    ensures m in Known(ms, idMap) <==> m in ms && EverybodyKnown(m, idMap)
  {
    if ms != [] {
      var front, last := ms[..|ms| - 1], ms[|ms| - 1];
      KnownMembers(front, idMap, m);
      assert ms == front + [last];
      KnownIsEverybody(last, idMap);
    }
  }

  lemma KnownIsEverybody(m: ParsedArenaMatch, idMap: map<string, string>)
    ensures AllKnown(m, idMap) <==> EverybodyKnown(m, idMap)
  {
  }

  /** Matches that start together are rated in the order they were listed in. */
  lemma TiesAsListed(ms: seq<ParsedArenaMatch>, idMap: map<string, string>, at: int)
    ensures var together := (m: ParsedArenaMatch) => m.startedAtMs == at;
            Sorting.Filter(Sorting.Sorted(Known(ms, idMap), StartsBefore), together)
            == Sorting.Filter(Known(ms, idMap), together)
  {
    Sorting.SortIsStable(Known(ms, idMap), StartsBefore, (m: ParsedArenaMatch) => m.startedAtMs == at);
  }

  lemma {:induction false} KnownTwice(ms: seq<ParsedArenaMatch>, idMap: map<string, string>)
    ensures Known(Known(ms, idMap), idMap) == Known(ms, idMap)
  {
    hide AllKnown;
    if ms != [] {
      var front, last := ms[..|ms| - 1], ms[|ms| - 1];
      KnownTwice(front, idMap);
      if AllKnown(last, idMap) {
        assert Known(ms, idMap) == Known(front, idMap) + [last];
        Sorting.FilterAppends(Known(front, idMap), last, (m: ParsedArenaMatch) => AllKnown(m, idMap));
      } else {
        assert Known(ms, idMap) == Known(front, idMap);
      }
    }
  }

  /** With distinct start times the order the crawl found the matches in does not matter. */
  lemma DiscoveryOrderIsIrrelevant<S>(
      s: S, a: seq<ParsedArenaMatch>, b: seq<ParsedArenaMatch>, idMap: map<string, string>, process: Process<S>)
    requires multiset(a) == multiset(b)
    requires forall x, y :: x in a && y in a && x.startedAtMs == y.startedAtMs ==> x == y
    ensures Replayed(s, a, idMap, process) == Replayed(s, b, idMap, process)
  {
    Sorting.SortForgetsOrder(a, b, StartsBefore);
  }
}
