/**
 The Arena match parser and the backlog codec of backend/arena/riot/arena.py.
 */
module Arena {
  import opened Wrappers
  import opened Json
  import Sorting

  datatype ArenaMode = DUOS | TRIOS

  datatype ParsedParticipant = ParsedParticipant(
    puuid: string,
    riotIdGameName: string,
    riotIdTagline: string,
    championId: int,
    placement: int,
    subteamId: int,
    eligibleForProgression: bool,
    profileIcon: int,
    timePlayed: int,
    gameEndedInEarlySurrender: bool,
    augments: seq<int>,
    items: seq<int>,
    kills: int,
    deaths: int,
    assists: int,
    damageToChampions: int,
    goldEarned: int,
    championLevel: int,
    damageTaken: int,
    totalHeal: int,
    damageSelfMitigated: int,
    largestMultiKill: int,
    killingSprees: int,
    timeSpentDead: int)

  datatype ParsedSubteam = ParsedSubteam(subteamId: int, placement: int, participants: seq<ParsedParticipant>)

  datatype ParsedArenaMatch = ParsedArenaMatch(
    matchId: string,
    queueId: int,
    mode: ArenaMode,
    gameDuration: int,
    startedAtMs: int,
    subteams: seq<ParsedSubteam>)
  {
    /** `is_complete`: team count and team sizes match the mode. */
    predicate IsComplete() {
      |subteams| == Teams(mode) && forall t <- subteams :: |t.participants| == TeamSize(mode)
    }
  }

  datatype ParseError = NotAnArenaMatch | Malformed

  const MIN_PLAYED_SECONDS := 90
  const ARENA_GAME_MODE := "CHERRY"
  const EXCLUDED_ITEM_ID := 3348

  function Teams(mode: ArenaMode): nat {
    if mode.DUOS? then 8 else 6
  }

  function TeamSize(mode: ArenaMode): nat {
    if mode.DUOS? then 2 else 3
  }

  function ModeForQueue(queueId: int): Option<ArenaMode> {
    if queueId == 1700 || queueId == 1710 then Some(DUOS)
    else if queueId == 1750 || queueId == 1740 then Some(TRIOS)
    else None
  }

  // ---- One participant ----

  /** The positive picks among the slots `prefix + n`, in slot order; unreadable slots are skipped. */
  function PickedInts(p: map<string, Json>, prefix: string, lo: nat, hi: nat): seq<int>
    requires lo <= hi
  {
    if lo == hi then []
    else PickedInts(p, prefix, lo, hi - 1) + Picked(p, prefix + Digits(hi - 1))
  }

  function Picked(p: map<string, Json>, slot: string): seq<int> {
    match IntOrZero(p, slot)
    case Some(v) => if v > 0 then [v] else []
    case None => []
  }

  /** `p.get("subteamPlacement", p.get("placement"))` with the given last resort. */
  function PlacementField(p: map<string, Json>, default: Json): Json {
    Get(p, "subteamPlacement", Get(p, "placement", default))
  }

  predicate DeriveEligibility(p: map<string, Json>, gameDuration: int) {
    && gameDuration >= MIN_PLAYED_SECONDS
    && !Truthy(Get(p, "gameEndedInEarlySurrender", JNull))
    && (var placement := PlacementField(p, JNull);
        IsInt(placement) && Int(placement).value >= 1)
    && (var played := Get(p, "timePlayed", JNull);
        IsInt(played) ==> Int(played).value >= MIN_PLAYED_SECONDS)
  }

  /** The fields read with `int(p.get(name, 0) or 0)`, in source order. */
  const COUNTERS: seq<string> := [
    "profileIcon", "timePlayed", "kills", "deaths", "assists", "totalDamageDealtToChampions", "goldEarned",
    "champLevel", "totalDamageTaken", "totalHeal", "damageSelfMitigated", "largestMultiKill", "killingSprees",
    "totalTimeSpentDead"
  ]

  function Counters(p: map<string, Json>, names: seq<string>): (r: Option<seq<int>>)
    ensures r.Some? ==> |r.value| == |names|
  {
    if names == [] then Some([])
    else
      var head, tail := IntOrZero(p, names[0]), Counters(p, names[1..]);
      if head.Some? && tail.Some? then Some([head.value] + tail.value) else None
  }

  function ParseParticipant(v: Json, gameDuration: int): Option<ParsedParticipant> {
    if !v.JObj? then None
    else
      var p := v.fields;
      var subteamId := Int(Get(p, "playerSubteamId", JInt(0)));
      var placing := PlacementField(p, JInt(0));
      var placement := if Truthy(placing) then Int(placing) else Some(0);
      var championId := Int(Get(p, "championId", JInt(0)));
      var counters := Counters(p, COUNTERS);
      if subteamId.None? || placement.None? || championId.None? || counters.None? then None
      else
        var c := counters.value;
        var items := PickedInts(p, "item", 0, 7);
        Some(ParsedParticipant(
               Str(Get(p, "puuid", JStr(""))), Str(Get(p, "riotIdGameName", JStr(""))),
               Str(Get(p, "riotIdTagline", JStr(""))), championId.value, placement.value, subteamId.value,
               DeriveEligibility(p, gameDuration), c[0], c[1],
               Truthy(Get(p, "gameEndedInEarlySurrender", JBool(false))),
               PickedInts(p, "playerAugment", 1, 7), Sorting.Filter(items, (i: int) => i != EXCLUDED_ITEM_ID),
               c[2], c[3], c[4], c[5], c[6], c[7], c[8], c[9], c[10], c[11], c[12], c[13]))
  }

  // ---- Grouping ----

  /** Add a participant to the team with its id, or open that team behind the others. */
  function Absorb(teams: seq<ParsedSubteam>, p: ParsedParticipant): seq<ParsedSubteam> {
    if teams == [] then [ParsedSubteam(p.subteamId, p.placement, [p])]
    else if teams[0].subteamId == p.subteamId then
      var t := teams[0];
      [ParsedSubteam(t.subteamId, if t.placement < 1 <= p.placement then p.placement else t.placement,
                     t.participants + [p])] + teams[1..]
    else [teams[0]] + Absorb(teams[1..], p)
  }

  function Group(ps: seq<ParsedParticipant>): seq<ParsedSubteam> {
    if ps == [] then [] else Absorb(Group(ps[..|ps| - 1]), ps[|ps| - 1])
  }

  /** The sort key `(placement <= 0, placement)`: placed teams by placement, then the unplaced ones. */
  predicate PlacedBefore(a: ParsedSubteam, b: ParsedSubteam) {
    if (a.placement <= 0) == (b.placement <= 0) then a.placement <= b.placement else b.placement <= 0
  }

  function Subteams(ps: seq<ParsedParticipant>): seq<ParsedSubteam> {
    Sorting.Sorted(Group(ps), PlacedBefore)
  }

  /** The members of one subteam in the order of the payload. */
  function Members(ps: seq<ParsedParticipant>, id: int): seq<ParsedParticipant> {
    Sorting.Filter(ps, (p: ParsedParticipant) => p.subteamId == id)
  }

  /** The first positive placement among the members, or the first member's when there is none. */
  ghost predicate IsTeamPlacement(members: seq<ParsedParticipant>, placement: int) {
    || (exists i :: 0 <= i < |members| && members[i].placement == placement && placement >= 1
                    && forall j :: 0 <= j < i ==> members[j].placement < 1)
    || (members != [] && placement == members[0].placement && forall m <- members :: m.placement < 1)
  }

  /** Every subteam holds exactly its own members in payload order, and no id has two subteams. */
  ghost predicate Partitions(teams: seq<ParsedSubteam>, ps: seq<ParsedParticipant>) {
    && (forall i, j :: 0 <= i < j < |teams| ==> teams[i].subteamId != teams[j].subteamId)
    && (forall t <- teams :: && t.participants == Members(ps, t.subteamId) != []
                             && IsTeamPlacement(t.participants, t.placement))
    && (forall p <- ps :: exists t :: t in teams && t.subteamId == p.subteamId)
  }

  function Headcount(teams: seq<ParsedSubteam>): nat {
    if teams == [] then 0 else |teams[0].participants| + Headcount(teams[1..])
  }

  lemma MembersAppend(ps: seq<ParsedParticipant>, p: ParsedParticipant, id: int)
    ensures Members(ps + [p], id) == if p.subteamId == id then Members(ps, id) + [p] else Members(ps, id)
  {
    Sorting.FilterAppends(ps, p, (q: ParsedParticipant) => q.subteamId == id);
    assert Members(ps, id) + [] == Members(ps, id);
  }

  lemma TeamPlacementAppends(members: seq<ParsedParticipant>, placement: int, p: ParsedParticipant)
    requires IsTeamPlacement(members, placement) && members != []
    ensures IsTeamPlacement(members + [p], if placement < 1 <= p.placement then p.placement else placement)
  {
    var more := members + [p];
    if placement >= 1 {
      var i :| 0 <= i < |members| && members[i].placement == placement
               && forall j :: 0 <= j < i ==> members[j].placement < 1;
      assert more[i].placement == placement && forall j :: 0 <= j < i ==> more[j].placement < 1;
    } else if p.placement >= 1 {
      assert more[|members|].placement == p.placement;
      assert forall j :: 0 <= j < |members| ==> more[j] in members;
    } else {
      assert forall m <- more :: m in members || m == p;
      assert more[0] == members[0];
    }
  }

  /** What Absorb does to each team, and where the newcomer ends up. */
  lemma {:induction false} AbsorbEffect(teams: seq<ParsedSubteam>, p: ParsedParticipant)
    requires forall i, j :: 0 <= i < j < |teams| ==> teams[i].subteamId != teams[j].subteamId
    ensures var after := Absorb(teams, p);
            && |teams| <= |after|
            && (forall i :: 0 <= i < |teams| ==>
                 && after[i].subteamId == teams[i].subteamId
                 && after[i] == if teams[i].subteamId != p.subteamId then teams[i]
                    else ParsedSubteam(p.subteamId,
                                       if teams[i].placement < 1 <= p.placement then p.placement
                                       else teams[i].placement,
                                       teams[i].participants + [p]))
            && (if exists i :: 0 <= i < |teams| && teams[i].subteamId == p.subteamId then |after| == |teams|
                else after == teams + [ParsedSubteam(p.subteamId, p.placement, [p])])
    ensures Headcount(Absorb(teams, p)) == Headcount(teams) + 1
  {
    if teams != [] && teams[0].subteamId != p.subteamId {
      AbsorbEffect(teams[1..], p);
      assert forall i :: 1 <= i < |teams| ==> teams[i] == teams[1..][i - 1];
      assert Absorb(teams, p)[1..] == Absorb(teams[1..], p);
      if i :| 0 <= i < |teams| && teams[i].subteamId == p.subteamId {
        assert teams[1..][i - 1].subteamId == p.subteamId;
      } else {
        assert teams == [teams[0]] + teams[1..];
      }
    } else if teams != [] {
      assert Absorb(teams, p)[1..] == teams[1..];
    } else {
      assert Absorb(teams, p)[1..] == [];
    }
  }

  lemma {:induction false} GroupPartitions(ps: seq<ParsedParticipant>)
    ensures Partitions(Group(ps), ps) && Headcount(Group(ps)) == |ps|
  {
    hide Absorb, Members, IsTeamPlacement;
    if ps != [] {
      var front, p := ps[..|ps| - 1], ps[|ps| - 1];
      GroupPartitions(front);
      assert ps == front + [p];
      assert Headcount(Group(ps)) == |ps| by { AbsorbEffect(Group(front), p); }
      AbsorbDistinct(Group(front), p);
      AbsorbCovers(Group(front), front, p);
      forall t | t in Group(ps)
        ensures t.participants == Members(ps, t.subteamId) != [] && IsTeamPlacement(t.participants, t.placement)
      {
        AbsorbKeepsTeam(Group(front), front, p, t);
      }
      var after := Group(ps);
      assert after == Absorb(Group(front), p);
      assert forall i, j :: 0 <= i < j < |after| ==> after[i].subteamId != after[j].subteamId;
      assert forall q <- ps :: exists t :: t in after && t.subteamId == q.subteamId;
    }
  }

  lemma AbsorbDistinct(teams: seq<ParsedSubteam>, p: ParsedParticipant)
    requires forall i, j :: 0 <= i < j < |teams| ==> teams[i].subteamId != teams[j].subteamId
    ensures var after := Absorb(teams, p);
            forall i, j :: 0 <= i < j < |after| ==> after[i].subteamId != after[j].subteamId
  {
    hide Absorb;
    AbsorbEffect(teams, p);
  }

  lemma AbsorbCovers(teams: seq<ParsedSubteam>, ps: seq<ParsedParticipant>, p: ParsedParticipant)
    requires Partitions(teams, ps)
    ensures forall q <- ps + [p] :: exists t :: t in Absorb(teams, p) && t.subteamId == q.subteamId
  {
    hide Absorb, Members, IsTeamPlacement;
    AbsorbEffect(teams, p);
    var after := Absorb(teams, p);
    forall q | q in ps + [p] ensures exists t :: t in after && t.subteamId == q.subteamId {
      if q in ps {
        var t :| t in teams && t.subteamId == q.subteamId;
        var i :| 0 <= i < |teams| && teams[i] == t;
        assert after[i] in after;
      } else if i :| 0 <= i < |teams| && teams[i].subteamId == p.subteamId {
        assert after[i] in after;
      } else {
        assert after[|teams|] in after;
      }
    }
  }

  lemma AbsorbKeepsTeam(teams: seq<ParsedSubteam>, ps: seq<ParsedParticipant>, p: ParsedParticipant, t: ParsedSubteam)
    requires Partitions(teams, ps) && t in Absorb(teams, p)
    ensures t.participants == Members(ps + [p], t.subteamId) != [] && IsTeamPlacement(t.participants, t.placement)
  {
    hide Absorb, Members, IsTeamPlacement;
    AbsorbEffect(teams, p);
    MembersAppend(ps, p, t.subteamId);
    var i :| 0 <= i < |Absorb(teams, p)| && Absorb(teams, p)[i] == t;
    if i < |teams| {
      assert teams[i] in teams;
      TeamPlacementAppends(teams[i].participants, teams[i].placement, p);
    } else {
      NoMembers(ps, p.subteamId, teams);
      SinglePlacement(p);
      assert [] + [p] == [p];
    }
  }

  lemma SinglePlacement(p: ParsedParticipant)
    ensures IsTeamPlacement([p], p.placement)
  {
    assert [p][0].placement == p.placement;
  }

  lemma {:induction false} NoMembers(ps: seq<ParsedParticipant>, id: int, teams: seq<ParsedSubteam>)
    requires forall p <- ps :: exists t :: t in teams && t.subteamId == p.subteamId
    requires forall t <- teams :: t.subteamId != id
    ensures Members(ps, id) == []
  {
    if ps != [] {
      assert ps[|ps| - 1] in ps;
      NoMembers(ps[..|ps| - 1], id, teams);
    }
  }

  lemma {:induction false} HeadcountAdds(a: seq<ParsedSubteam>, b: seq<ParsedSubteam>)
    ensures Headcount(a + b) == Headcount(a) + Headcount(b)
  {
    if a == [] {
      assert a + b == b;
    } else {
      assert (a + b)[1..] == a[1..] + b;
      HeadcountAdds(a[1..], b);
    }
  }

  /** Where the participants of the i-th team begin, all teams before it counted. */
  function TeamStart(teams: seq<ParsedSubteam>, i: nat): nat
    requires i <= |teams|
  {
    Headcount(teams[..i])
  }

  lemma NextTeamStart(teams: seq<ParsedSubteam>, i: nat)
    requires i < |teams|
    ensures TeamStart(teams, i + 1) == TeamStart(teams, i) + |teams[i].participants|
  {
    assert teams[..i + 1] == teams[..i] + [teams[i]];
    HeadcountAdds(teams[..i], [teams[i]]);
    assert [teams[i]][1..] == [];
  }

  lemma {:induction false} HeadcountInsert(teams: seq<ParsedSubteam>, t: ParsedSubteam)
    ensures Headcount(Sorting.Insert(teams, t, PlacedBefore)) == Headcount(teams) + |t.participants|
  {
    if teams == [] || PlacedBefore(teams[|teams| - 1], t) {
      HeadcountAdds(teams, [t]);
      assert [t][1..] == [] && [] + [t] == [t];
    } else {
      var front, last := teams[..|teams| - 1], teams[|teams| - 1];
      HeadcountInsert(front, t);
      HeadcountAdds(Sorting.Insert(front, t, PlacedBefore), [last]);
      HeadcountAdds(front, [last]);
      assert front + [last] == teams && [last][1..] == [];
    }
  }

  lemma {:induction false} HeadcountSorted(teams: seq<ParsedSubteam>)
    ensures Headcount(Sorting.Sorted(teams, PlacedBefore)) == Headcount(teams)
  {
    if teams != [] {
      var front, last := teams[..|teams| - 1], teams[|teams| - 1];
      HeadcountSorted(front);
      HeadcountInsert(Sorting.Sorted(front, PlacedBefore), last);
      HeadcountAdds(front, [last]);
      assert front + [last] == teams && [last][1..] == [];
    }
  }

  /** The teams at one placement, in order. */
  function PlacedAt(teams: seq<ParsedSubteam>, placement: int): seq<ParsedSubteam> {
    Sorting.Filter(teams, (t: ParsedSubteam) => t.placement == placement)
  }

  /** Placed teams come first, the best placement first, and teams without a placement behind them all. */
  ghost predicate BestFirst(teams: seq<ParsedSubteam>) {
    forall i, j :: 0 <= i < j < |teams| && teams[j].placement >= 1 ==> 1 <= teams[i].placement <= teams[j].placement
  }

  /**
   Grouping is a partition: each participant is in exactly one subteam, the one with its id, in payload
   order; no id occurs twice; a team is placed where its first placed member is. Teams come out placed
   ones first, by placement, and teams that tie come in the order they first appeared in.
   */
  lemma SubteamsPartition(ps: seq<ParsedParticipant>)
    ensures Partitions(Subteams(ps), ps)
    ensures Sorting.Ordered(Subteams(ps), PlacedBefore) && BestFirst(Subteams(ps))
    ensures forall placement :: PlacedAt(Subteams(ps), placement) == PlacedAt(Group(ps), placement)
    ensures Headcount(Subteams(ps)) == |ps|
  {
    var teams, sorted := Group(ps), Subteams(ps);
    GroupPartitions(ps);
    HeadcountSorted(teams);
    Sorting.SortPermutes(teams, PlacedBefore);
    Sorting.SortOrders(teams, PlacedBefore);
    PermutedIds(teams, sorted);
    forall placement ensures PlacedAt(sorted, placement) == PlacedAt(teams, placement) {
      Sorting.SortIsStable(teams, PlacedBefore, (t: ParsedSubteam) => t.placement == placement);
    }
    forall p | p in ps ensures exists t :: t in sorted && t.subteamId == p.subteamId {
      var t :| t in teams && t.subteamId == p.subteamId;
      assert t in sorted;
    }
  }

  /** A permutation of teams with distinct ids has distinct ids. */
  lemma PermutedIds(a: seq<ParsedSubteam>, b: seq<ParsedSubteam>)
    requires multiset(a) == multiset(b)
    requires forall i, j :: 0 <= i < j < |a| ==> a[i].subteamId != a[j].subteamId
    ensures forall i, j :: 0 <= i < j < |b| ==> b[i].subteamId != b[j].subteamId
  {
    forall i, j | 0 <= i < j < |b| ensures b[i].subteamId != b[j].subteamId {
      if b[i].subteamId == b[j].subteamId {
        assert b[i] in multiset(a) && b[j] in multiset(a);
        var k :| 0 <= k < |a| && a[k] == b[i];
        assert a[k] == b[j];
        Once(a, k);
        Twice(b, i, j);
      }
    }
  }

  lemma Once(a: seq<ParsedSubteam>, k: nat)
    requires k < |a|
    requires forall i, j :: 0 <= i < j < |a| ==> a[i].subteamId != a[j].subteamId
    ensures multiset(a)[a[k]] == 1
  {
    assert a == a[..k] + [a[k]] + a[k + 1..];
    assert a[k] !in a[..k] && a[k] !in a[k + 1..];
  }

  lemma Twice(b: seq<ParsedSubteam>, i: nat, j: nat)
    requires i < j < |b| && b[i] == b[j]
    ensures multiset(b)[b[i]] >= 2
  {
    assert b == b[..i] + [b[i]] + b[i + 1..j] + [b[j]] + b[j + 1..];
  }

  lemma {:induction false} EvenHeadcount(teams: seq<ParsedSubteam>, size: nat)
    requires forall t <- teams :: |t.participants| == size
    ensures Headcount(teams) == |teams| * size
  {
    if teams != [] {
      EvenHeadcount(teams[1..], size);
      assert |teams| * size == (|teams| - 1) * size + size;
    }
  }

  /** A complete match has the 16 or 18 participants of its mode. */
  lemma CompleteHeadcount(m: ParsedArenaMatch, ps: seq<ParsedParticipant>)
    requires m.subteams == Subteams(ps) && m.IsComplete()
    ensures |ps| == if m.mode.DUOS? then 16 else 18
  {
    hide Subteams, Partitions, Sorting.Ordered, PlacedAt;
    SubteamsPartition(ps);
    EvenHeadcount(m.subteams, TeamSize(m.mode));
  }

  // ---- The mode of a match ----

  /** A counter in order of first appearance. */
  function Tally(xs: seq<int>): seq<(int, nat)> {
    if xs == [] then [] else Bump(Tally(xs[..|xs| - 1]), xs[|xs| - 1])
  }

  function Bump(counts: seq<(int, nat)>, x: int): seq<(int, nat)> {
    if counts == [] then [(x, 1)]
    else if counts[0].0 == x then [(x, counts[0].1 + 1)] + counts[1..]
    else [counts[0]] + Bump(counts[1..], x)
  }

  /** `most_common(1)`: the first entry no other entry exceeds. */
  function MostCommon(counts: seq<(int, nat)>): (int, nat)
    requires counts != []
  {
    if |counts| == 1 then counts[0]
    else
      var rest := MostCommon(counts[1..]);
      if counts[0].1 >= rest.1 then counts[0] else rest
  }

  function Sizes(counts: seq<(int, nat)>): seq<int> {
    seq(|counts|, i requires 0 <= i < |counts| => counts[i].1)
  }

  /** The subteam ids of the participants, as the mode inference reads them. */
  function SubteamIds(participants: seq<Json>): Option<seq<int>> {
    Sequence(seq(|participants|, i requires 0 <= i < |participants| =>
      if participants[i].JObj? then Int(Get(participants[i].fields, "playerSubteamId", JInt(0))) else None))
  }

  function Upper(s: string): string {
    seq(|s|, i requires 0 <= i < |s| => if 'a' <= s[i] <= 'z' then (s[i] as int - 32) as char else s[i])
  }

  function ModeForSize(size: int): Result<ArenaMode, ParseError> {
    if size == 2 then Ok(DUOS) else if size == 3 then Ok(TRIOS) else Err(NotAnArenaMatch)
  }

  /** A listed queue id decides; an unlisted one is accepted for Arena's game mode by its dominant team size. */
  function ResolveMode(info: map<string, Json>): Result<ArenaMode, ParseError> {
    var queueId := Int(Get(info, "queueId", JInt(-1)));
    if queueId.None? then Err(Malformed)
    else if ModeForQueue(queueId.value).Some? then Ok(ModeForQueue(queueId.value).value)
    else if Upper(Str(Get(info, "gameMode", JStr("")))) != ARENA_GAME_MODE then Err(NotAnArenaMatch)
    else
      var participants := Get(info, "participants", JArr([]));
      if !participants.JArr? then Err(Malformed)
      else
        var ids := SubteamIds(participants.items);
        if ids.None? then Err(Malformed)
        else if Tally(ids.value) == [] then Err(NotAnArenaMatch)
        else
          assert Sizes(Tally(ids.value)) != [];
          TallyIsEmpty(Sizes(Tally(ids.value)));
          ModeForSize(MostCommon(Tally(Sizes(Tally(ids.value)))).0)
  }

  lemma TallyIsEmpty(xs: seq<int>)
    ensures Tally(xs) == [] <==> xs == []
  {
  }

  /** A counter lists every value once with its number of occurrences. */
  ghost predicate Counts(counts: seq<(int, nat)>, xs: multiset<int>) {
    && (forall i, j :: 0 <= i < j < |counts| ==> counts[i].0 != counts[j].0)
    && (forall c <- counts :: xs[c.0] == c.1 > 0)
    && (forall x <- xs :: exists c :: c in counts && c.0 == x)
  }

  lemma {:induction false} BumpEffect(counts: seq<(int, nat)>, x: int)
    requires forall i, j :: 0 <= i < j < |counts| ==> counts[i].0 != counts[j].0
    ensures var after := Bump(counts, x);
            && |counts| <= |after|
            && (forall i :: 0 <= i < |counts| ==>
                 after[i] == (counts[i].0, if counts[i].0 == x then counts[i].1 + 1 else counts[i].1))
            && (if exists i :: 0 <= i < |counts| && counts[i].0 == x then |after| == |counts|
                else after == counts + [(x, 1)])
  {
    if counts != [] && counts[0].0 != x {
      BumpEffect(counts[1..], x);
      assert forall i :: 1 <= i < |counts| ==> counts[i] == counts[1..][i - 1];
      if i :| 0 <= i < |counts| && counts[i].0 == x {
        assert counts[1..][i - 1].0 == x;
      } else {
        assert counts == [counts[0]] + counts[1..];
      }
    } else if counts != [] {
      assert Bump(counts, x)[1..] == counts[1..];
    }
  }

  lemma BumpCovers(counts: seq<(int, nat)>, xs: multiset<int>, x: int)
    requires Counts(counts, xs)
    ensures forall y <- xs + multiset{x} :: exists c :: c in Bump(counts, x) && c.0 == y
  {
    hide Bump;
    BumpEffect(counts, x);
    var after := Bump(counts, x);
    forall y | y in xs + multiset{x} ensures exists c :: c in after && c.0 == y {
      if y in xs {
        var c :| c in counts && c.0 == y;
        var i :| 0 <= i < |counts| && counts[i] == c;
        assert after[i] in after;
      } else {
        assert after[|counts|] in after;
      }
    }
  }

  lemma BumpCounts(counts: seq<(int, nat)>, xs: multiset<int>, x: int)
    requires Counts(counts, xs)
    ensures Counts(Bump(counts, x), xs + multiset{x})
  {
    BumpCovers(counts, xs, x);
    BumpEffect(counts, x);
    hide Bump;
    var after := Bump(counts, x);
    forall c | c in after ensures (xs + multiset{x})[c.0] == c.1 > 0 {
      var i :| 0 <= i < |after| && after[i] == c;
      if i < |counts| { assert counts[i] in counts; }
    }
  }

  lemma {:induction false} TallyCounts(xs: seq<int>)
    ensures Counts(Tally(xs), multiset(xs))
  {
    if xs != [] {
      TallyCounts(xs[..|xs| - 1]);
      BumpCounts(Tally(xs[..|xs| - 1]), multiset(xs[..|xs| - 1]), xs[|xs| - 1]);
      assert xs == xs[..|xs| - 1] + [xs[|xs| - 1]];
    }
  }

  lemma {:induction false} MostCommonIsGreatest(counts: seq<(int, nat)>) returns (i: nat)
    requires counts != []
    ensures i < |counts| && counts[i] == MostCommon(counts)
    ensures forall j :: 0 <= j < i ==> counts[j].1 < counts[i].1
    ensures forall j :: i <= j < |counts| ==> counts[j].1 <= counts[i].1
  {
    if |counts| == 1 {
      i := 0;
    } else {
      var rest := MostCommonIsGreatest(counts[1..]);
      i := if counts[0].1 >= MostCommon(counts[1..]).1 then 0 else rest + 1;
      assert forall j :: 1 <= j < |counts| ==> counts[j] == counts[1..][j - 1];
    }
  }

  lemma FirstAtAppends(xs: seq<int>, x: int, y: int)
    ensures y in xs <==> Sorting.FirstAt(xs, y) < |xs|
    ensures y in xs ==> Sorting.FirstAt(xs + [x], y) == Sorting.FirstAt(xs, y)
    ensures x !in xs ==> Sorting.FirstAt(xs + [x], x) == |xs|
  {
    assert (xs + [x])[..|xs|] == xs;
    assert xs[..|xs|] == xs;
  }

  /** A counter lists values of the list in the order they first appear in. */
  ghost predicate InOrder(counts: seq<(int, nat)>, xs: seq<int>) {
    && (forall c <- counts :: c.0 in xs)
    && forall i, j :: 0 <= i < j < |counts| ==> Sorting.FirstAt(xs, counts[i].0) < Sorting.FirstAt(xs, counts[j].0)
  }

  lemma BumpInOrder(counts: seq<(int, nat)>, xs: seq<int>, x: int)
    requires Counts(counts, multiset(xs)) && InOrder(counts, xs)
    ensures InOrder(Bump(counts, x), xs + [x])
  {
    hide Bump, Sorting.FirstAt;
    var after, more := Bump(counts, x), xs + [x];
    BumpEffect(counts, x);
    forall i | 0 <= i < |counts|
      ensures after[i].0 in more && Sorting.FirstAt(more, after[i].0) == Sorting.FirstAt(xs, after[i].0) < |xs|
    {
      assert counts[i] in counts;
      FirstAtAppends(xs, x, after[i].0);
    }
    if |after| > |counts| {
      assert after[|counts|] == (x, 1);
      assert x !in xs by { assert x in xs <==> x in multiset(xs); }
      FirstAtAppends(xs, x, x);
    }
  }

  lemma {:induction false} TallyInOrder(xs: seq<int>)
    ensures InOrder(Tally(xs), xs)
  {
    hide Bump, Counts, InOrder;
    if xs == [] {
      NothingInOrder();
    } else {
      var front := xs[..|xs| - 1];
      TallyInOrder(front);
      TallyCounts(front);
      BumpInOrder(Tally(front), front, xs[|xs| - 1]);
      assert front + [xs[|xs| - 1]] == xs;
    }
  }

  lemma NothingInOrder()
    ensures InOrder([], [])
  {
  }

  /** No other size occurs more often, and none that comes first as often. */
  ghost predicate Dominant(size: int, sizes: seq<int>) {
    && size in sizes
    && forall s <- sizes ::
         && multiset(sizes)[s] <= multiset(sizes)[size]
         && (multiset(sizes)[s] == multiset(sizes)[size] ==> Sorting.FirstAt(sizes, size) <= Sorting.FirstAt(sizes, s))
  }

  lemma MostCommonDominates(sizes: seq<int>)
    requires sizes != []
    ensures Tally(sizes) != [] && Dominant(MostCommon(Tally(sizes)).0, sizes)
  {
    hide Tally, MostCommon, Sorting.FirstAt;
    TallyCounts(sizes);
    TallyIsEmpty(sizes);
    TallyInOrder(sizes);
    var counts := Tally(sizes);
    var i := MostCommonIsGreatest(counts);
    var best := counts[i];
    assert best.0 in multiset(sizes);
    forall s | s in sizes
      ensures multiset(sizes)[s] <= best.1
      ensures multiset(sizes)[s] == best.1 ==> Sorting.FirstAt(sizes, best.0) <= Sorting.FirstAt(sizes, s)
    {
      assert s in multiset(sizes);
      var c :| c in counts && c.0 == s;
      var j :| 0 <= j < |counts| && counts[j] == c;
    }
  }

  /**
   The mode of an unlisted queue in Arena's game mode: the sizes compared are the headcounts of the subteams, the
   mode found is that of the size that occurs most often, the one seen first among those that tie, and a match is
   refused only when it has no participants or that size is none of a mode.
   */
  lemma UnlistedQueueMode(info: map<string, Json>)
    requires Int(Get(info, "queueId", JInt(-1))).Some? && ModeForQueue(Int(Get(info, "queueId", JInt(-1))).value).None?
    requires Upper(Str(Get(info, "gameMode", JStr("")))) == ARENA_GAME_MODE
    requires Get(info, "participants", JArr([])).JArr? && SubteamIds(Get(info, "participants", JArr([])).items).Some?
    ensures var ids := SubteamIds(Get(info, "participants", JArr([])).items).value;
            var teams := Tally(ids);
            && Counts(teams, multiset(ids))
            && match ResolveMode(info)
               case Ok(mode) => Dominant(TeamSize(mode), Sizes(teams))
               case Err(e) =>
                 e == NotAnArenaMatch && (ids == [] || exists s :: s !in {2, 3} && Dominant(s, Sizes(teams)))
  {
    hide Tally, MostCommon, Upper, SubteamIds, Counts, Dominant, ModeForQueue;
    var ids := SubteamIds(Get(info, "participants", JArr([])).items).value;
    TallyCounts(ids);
    TallyIsEmpty(ids);
    if ids != [] {
      assert |Sizes(Tally(ids))| > 0;
      MostCommonDominates(Sizes(Tally(ids)));
    }
  }

  // ---- The parser ----

  /** The real start: start stamp, else creation stamp, else end stamp less the duration, else 0. */
  function StartedAtMs(info: map<string, Json>, gameDuration: int): Option<int> {
    var start, creation := Get(info, "gameStartTimestamp", JNull), Get(info, "gameCreation", JNull);
    var stamp := if Truthy(start) then Int(start) else if Truthy(creation) then Int(creation) else Some(0);
    if stamp.None? || stamp.value != 0 then stamp
    else
      var end := IntOrZero(info, "gameEndTimestamp");
      if end.None? || end.value == 0 then end else Some(end.value - gameDuration * 1000)
  }

  /** Everything `parse_arena_match` reads before it comes to the participants. */
  function ParseHeader(payload: Json): Result<(ParsedArenaMatch, seq<Json>), ParseError> {
    if !payload.JObj? then Err(Malformed)
    else
      var infoField := Get(payload.fields, "info", JObj(map[]));
      var metaField := Get(payload.fields, "metadata", JObj(map[]));
      if !infoField.JObj? || !metaField.JObj? then Err(Malformed)
      else
        var info, metadata := infoField.fields, metaField.fields;
        match ResolveMode(info)
        case Err(e) => Err(e)
        case Ok(mode) =>
          var matchId := Str(Get(metadata, "matchId", Get(info, "gameId", JStr(""))));
          var duration := Int(Get(info, "gameDuration", JInt(0)));
          var participants := Get(info, "participants", JArr([]));
          if duration.None? || !participants.JArr? then Err(Malformed)
          else
            var started := StartedAtMs(info, duration.value);
            if started.None? then Err(Malformed)
            else
              var queueId := Int(Get(info, "queueId", JInt(-1)));
              var m := ParsedArenaMatch(matchId, queueId.value, mode, duration.value, started.value, []);
              Ok((m, participants.items))
  }

  function ParseParticipants(items: seq<Json>, gameDuration: int): Option<seq<ParsedParticipant>> {
    Sequence(seq(|items|, i requires 0 <= i < |items| => ParseParticipant(items[i], gameDuration)))
  }

  /** What the parser returns. */
  function Parsed(payload: Json): Result<ParsedArenaMatch, ParseError> {
    match ParseHeader(payload)
    case Err(e) => Err(e)
    case Ok((header, items)) =>
      match ParseParticipants(items, header.gameDuration)
      case None => Err(Malformed)
      case Some(ps) => Ok(header.(subteams := Subteams(ps)))
  }

  /** Absorbing goes to the first team with the participant's id, or behind them all. */
  lemma {:induction false} AbsorbAt(teams: seq<ParsedSubteam>, p: ParsedParticipant, i: nat)
    requires i <= |teams| && forall j :: 0 <= j < i ==> teams[j].subteamId != p.subteamId
    requires i < |teams| ==> teams[i].subteamId == p.subteamId
    ensures Absorb(teams, p) ==
            if i == |teams| then teams + [ParsedSubteam(p.subteamId, p.placement, [p])]
            else
              var t := teams[i];
              teams[i := ParsedSubteam(t.subteamId, if t.placement < 1 <= p.placement then p.placement else t.placement,
                                       t.participants + [p])]
  {
    if i > 0 {
      AbsorbAt(teams[1..], p, i - 1);
      assert teams == [teams[0]] + teams[1..];
    }
  }

  /** Put one participant into its team, as the parser's dictionary does. */
  method AddToTeam(teams: seq<ParsedSubteam>, p: ParsedParticipant) returns (after: seq<ParsedSubteam>)
    ensures after == Absorb(teams, p)
  {
    hide Absorb;
    var i := 0;
    while i < |teams| && teams[i].subteamId != p.subteamId
      invariant i <= |teams| && forall j :: 0 <= j < i ==> teams[j].subteamId != p.subteamId
    {
      i := i + 1;
    }
    AbsorbAt(teams, p, i);
    after := if i == |teams| then teams + [ParsedSubteam(p.subteamId, p.placement, [])] else teams;
    var t := after[i];
    t := t.(participants := t.participants + [p]);
    if t.placement < 1 && p.placement >= 1 {
      t := t.(placement := p.placement);
    }
    after := after[i := t];
    assert [] + [p] == [p];
  }

  method ParseArenaMatch(payload: Json) returns (r: Result<ParsedArenaMatch, ParseError>)
    ensures r == Parsed(payload)
  {
    hide ParseParticipant, Absorb, ResolveMode, StartedAtMs;
    var header := ParseHeader(payload);
    if header.Err? { return Err(header.error); }
    var (m, items) := header.value;
    var teams: seq<ParsedSubteam> := [];
    ghost var ps: seq<ParsedParticipant> := [];
    var all := seq(|items|, i requires 0 <= i < |items| => ParseParticipant(items[i], m.gameDuration));
    for i := 0 to |items|
      invariant Sequence(all[..i]) == Some(ps) && teams == Group(ps)
    {
      assert all[..i + 1][..i] == all[..i];
      var p := ParseParticipant(items[i], m.gameDuration);
      if p.None? {
        SequenceFails(all, i);
        return Err(Malformed);
      }
      teams := AddToTeam(teams, p.value);
      assert (ps + [p.value])[..|ps|] == ps;
      ps := ps + [p.value];
    }
    assert all[..|items|] == all;
    r := Ok(m.(subteams := Sorting.Sorted(teams, PlacedBefore)));
  }

  lemma {:induction false} SequenceFails<T>(s: seq<Option<T>>, i: nat)
    requires i < |s| && s[i].None?
    ensures Sequence(s).None?
  {
    if i < |s| - 1 { SequenceFails(s[..|s| - 1], i); }
  }

  /** A parsed match that is complete came from a payload with exactly 16 or 18 participants. */
  lemma CompleteParse(payload: Json)
    requires Parsed(payload).Ok? && Parsed(payload).value.IsComplete()
    ensures |ParseHeader(payload).value.1| == if Parsed(payload).value.mode.DUOS? then 16 else 18
  {
    var items := ParseHeader(payload).value.1;
    var duration := ParseHeader(payload).value.0.gameDuration;
    var all := seq(|items|, i requires 0 <= i < |items| => ParseParticipant(items[i], duration));
    SequenceLength(all);
    CompleteHeadcount(Parsed(payload).value, ParseParticipants(items, duration).value);
  }

  /**
   Whom a match counts for: a participant is eligible if and only if the match ran for 90 seconds without an early
   surrender, it was placed, and it played 90 seconds itself where the payload gives its time.
   */
  lemma EligibleIff(v: Json, gameDuration: int)
    requires ParseParticipant(v, gameDuration).Some?
    ensures v.JObj?
    ensures var p := ParseParticipant(v, gameDuration).value;
            p.eligibleForProgression
            <==> && gameDuration >= 90 && !p.gameEndedInEarlySurrender && p.placement >= 1
                 && (IsInt(Get(v.fields, "timePlayed", JNull)) ==> p.timePlayed >= 90)
  {
    hide PickedInts, Str, Sorting.Filter;
    CountersAt(v.fields, COUNTERS, 1);
  }

  lemma {:induction false} CountersAt(p: map<string, Json>, names: seq<string>, i: nat)
    requires i < |names| && Counters(p, names).Some?
    ensures IntOrZero(p, names[i]) == Some(Counters(p, names).value[i])
  {
    if i > 0 { CountersAt(p, names[1..], i - 1); }
  }

  /** So in a parsed match nobody is eligible who was not placed or surrendered early, nor if it was too short. */
  lemma EligibleInMatch(payload: Json, t: ParsedSubteam, p: ParsedParticipant)
    requires Parsed(payload).Ok? && t in Parsed(payload).value.subteams && p in t.participants
    requires p.eligibleForProgression
    ensures Parsed(payload).value.gameDuration >= 90 && p.placement >= 1 && !p.gameEndedInEarlySurrender
    ensures t.placement >= 1
  {
    hide ParseParticipant, Subteams, ParseHeader, Sorting.Ordered, IsTeamPlacement;
    var (header, items) := ParseHeader(payload).value;
    var all := seq(|items|, i requires 0 <= i < |items| => ParseParticipant(items[i], header.gameDuration));
    SequenceLength(all);
    var ps := ParseParticipants(items, header.gameDuration).value;
    SubteamsPartition(ps);
    Sorting.FilterMembers(ps, (q: ParsedParticipant) => q.subteamId == t.subteamId);
    var i :| 0 <= i < |ps| && ps[i] == p;
    assert all[i] == Some(p);
    EligibleIff(items[i], header.gameDuration);
    PlacedMemberPlaces(t.participants, t.placement, p);
  }

  lemma PlacedMemberPlaces(members: seq<ParsedParticipant>, placement: int, p: ParsedParticipant)
    requires IsTeamPlacement(members, placement) && p in members && p.placement >= 1
    ensures placement >= 1
  {
  }

  lemma {:induction false} SequenceLength<T>(s: seq<Option<T>>)
    requires Sequence(s).Some?
    ensures |Sequence(s).value| == |s| && forall i :: 0 <= i < |s| ==> s[i] == Some(Sequence(s).value[i])
  {
    if s != [] { SequenceLength(s[..|s| - 1]); }
  }
}
