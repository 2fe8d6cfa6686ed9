/**
 The backlog codec of backend/arena/riot/arena.py: a parsed match goes into a JSON column and comes back.
 */
module Codec {
  import opened Wrappers
  import opened Json
  import opened Arena

  function Ints(s: seq<int>): Json {
    JArr(seq(|s|, i requires 0 <= i < |s| => JInt(s[i])))
  }

  function ParticipantToJson(p: ParsedParticipant): Json {
    JObj(map[
      "puuid" := JStr(p.puuid),
      "gameName" := JStr(p.riotIdGameName),
      "tagLine" := JStr(p.riotIdTagline),
      "championId" := JInt(p.championId),
      "placement" := JInt(p.placement),
      "subteamId" := JInt(p.subteamId),
      "eligible" := JBool(p.eligibleForProgression),
      "profileIcon" := JInt(p.profileIcon),
      "timePlayed" := JInt(p.timePlayed),
      "earlySurrender" := JBool(p.gameEndedInEarlySurrender),
      "augments" := Ints(p.augments),
      "items" := Ints(p.items),
      "kills" := JInt(p.kills),
      "deaths" := JInt(p.deaths),
      "assists" := JInt(p.assists),
      "damageToChampions" := JInt(p.damageToChampions),
      "goldEarned" := JInt(p.goldEarned),
      "championLevel" := JInt(p.championLevel),
      "damageTaken" := JInt(p.damageTaken),
      "totalHeal" := JInt(p.totalHeal),
      "damageSelfMitigated" := JInt(p.damageSelfMitigated),
      "largestMultiKill" := JInt(p.largestMultiKill),
      "killingSprees" := JInt(p.killingSprees),
      "timeSpentDead" := JInt(p.timeSpentDead)
    ])
  }

  function SubteamToJson(t: ParsedSubteam): Json {
    JObj(map[
      "subteamId" := JInt(t.subteamId),
      "placement" := JInt(t.placement),
      "participants" := JArr(seq(|t.participants|, i requires 0 <= i < |t.participants| =>
                                   ParticipantToJson(t.participants[i])))
    ])
  }

  /** `parsed_to_json` */
  function ToJson(m: ParsedArenaMatch): Json {
    JObj(map[
      "matchId" := JStr(m.matchId),
      "queueId" := JInt(m.queueId),
      "mode" := JStr(if m.mode.DUOS? then "DUOS" else "TRIOS"),
      "gameDuration" := JInt(m.gameDuration),
      "startedAtMs" := JInt(m.startedAtMs),
      "subteams" := JArr(seq(|m.subteams|, i requires 0 <= i < |m.subteams| => SubteamToJson(m.subteams[i])))
    ])
  }

  /** `o[name]`; None where Python raises. */
  function Field(o: map<string, Json>, name: string): Option<Json> {
    if name in o then Some(o[name]) else None
  }

  function IntField(o: map<string, Json>, name: string): Option<int> {
    var v :- Field(o, name);
    Int(v)
  }

  function IntOr(o: map<string, Json>, name: string): Option<int> {
    Int(Get(o, name, JInt(0)))
  }

  function IntsOr(o: map<string, Json>, name: string): Option<seq<int>> {
    var v := Get(o, name, JArr([]));
    if v.JArr? then Sequence(seq(|v.items|, i requires 0 <= i < |v.items| => Int(v.items[i]))) else None
  }

  function ParticipantFromJson(v: Json): Option<ParsedParticipant> {
    if !v.JObj? then None
    else
      var o := v.fields;
      var puuid :- Field(o, "puuid");
      var championId :- IntField(o, "championId");
      var placement :- IntField(o, "placement");
      var subteamId :- IntField(o, "subteamId");
      var eligibleForProgression :- Field(o, "eligible");
      var profileIcon :- IntOr(o, "profileIcon");
      var timePlayed :- IntOr(o, "timePlayed");
      var augments :- IntsOr(o, "augments");
      var items :- IntsOr(o, "items");
      var kills :- IntOr(o, "kills");
      var deaths :- IntOr(o, "deaths");
      var assists :- IntOr(o, "assists");
      var damageToChampions :- IntOr(o, "damageToChampions");
      var goldEarned :- IntOr(o, "goldEarned");
      var championLevel :- IntOr(o, "championLevel");
      var damageTaken :- IntOr(o, "damageTaken");
      var totalHeal :- IntOr(o, "totalHeal");
      var damageSelfMitigated :- IntOr(o, "damageSelfMitigated");
      var largestMultiKill :- IntOr(o, "largestMultiKill");
      var killingSprees :- IntOr(o, "killingSprees");
      var timeSpentDead :- IntOr(o, "timeSpentDead");
      Some(ParsedParticipant(
             Str(puuid), Str(Get(o, "gameName", JStr(""))), Str(Get(o, "tagLine", JStr(""))),
             championId, placement, subteamId, Truthy(eligibleForProgression), profileIcon,
             timePlayed, Truthy(Get(o, "earlySurrender", JBool(false))), augments, items, kills,
             deaths, assists, damageToChampions, goldEarned, championLevel, damageTaken, totalHeal,
             damageSelfMitigated, largestMultiKill, killingSprees, timeSpentDead))
  }

  function SubteamFromJson(v: Json): Option<ParsedSubteam> {
    if !v.JObj? then None
    else
      var subteamId :- IntField(v.fields, "subteamId");
      var placement :- IntField(v.fields, "placement");
      var listed :- Field(v.fields, "participants");
      if !listed.JArr? then None
      else
        var participants :- Sequence(seq(|listed.items|, i requires 0 <= i < |listed.items| =>
                                         ParticipantFromJson(listed.items[i])));
        Some(ParsedSubteam(subteamId, placement, participants))
  }

  function ModeFromJson(v: Json): Option<ArenaMode> {
    if v == JStr("DUOS") then Some(DUOS) else if v == JStr("TRIOS") then Some(TRIOS) else None
  }

  /** `parsed_from_json` */
  function FromJson(v: Json): Option<ParsedArenaMatch> {
    if !v.JObj? then None
    else
      var matchId :- Field(v.fields, "matchId");
      var queueId :- IntField(v.fields, "queueId");
      var modeField :- Field(v.fields, "mode");
      var mode :- ModeFromJson(modeField);
      var gameDuration :- IntField(v.fields, "gameDuration");
      var startedAtMs :- IntOr(v.fields, "startedAtMs");
      var listed :- Field(v.fields, "subteams");
      if !listed.JArr? then None
      else
        var subteams :- Sequence(seq(|listed.items|, i requires 0 <= i < |listed.items| =>
                                     SubteamFromJson(listed.items[i])));
        Some(ParsedArenaMatch(Str(matchId), queueId, mode, gameDuration, startedAtMs, subteams))
  }

  /** Decoding element by element what was encoded element by element. */
  lemma {:induction false} SequenceOfSome<T>(s: seq<Option<T>>, t: seq<T>)
    requires |s| == |t| && forall i :: 0 <= i < |s| ==> s[i] == Some(t[i])
    ensures Sequence(s) == Some(t)
  {
    if s != [] {
      SequenceOfSome(s[..|s| - 1], t[..|t| - 1]);
      assert t == t[..|t| - 1] + [t[|t| - 1]];
    }
  }

  lemma IntsRoundTrip(o: map<string, Json>, name: string, s: seq<int>)
    requires name in o && o[name] == Ints(s)
    ensures IntsOr(o, name) == Some(s)
  {
    SequenceOfSome(seq(|s|, i requires 0 <= i < |s| => Int(o[name].items[i])), s);
    assert seq(|o[name].items|, i requires 0 <= i < |o[name].items| => Int(o[name].items[i]))
        == seq(|s|, i requires 0 <= i < |s| => Int(o[name].items[i]));
  }

  ghost predicate HasName(o: map<string, Json>, p: ParsedParticipant) {
    && "puuid" in o && o["puuid"] == JStr(p.puuid)
    && "gameName" in o && o["gameName"] == JStr(p.riotIdGameName)
  }

  lemma EncodesName(p: ParsedParticipant)
    ensures ParticipantToJson(p).JObj? && HasName(ParticipantToJson(p).fields, p)
  {
  }

  ghost predicate HasTag(o: map<string, Json>, p: ParsedParticipant) {
    && "tagLine" in o && o["tagLine"] == JStr(p.riotIdTagline)
    && "championId" in o && o["championId"] == JInt(p.championId)
  }

  lemma EncodesTag(p: ParsedParticipant)
    ensures ParticipantToJson(p).JObj? && HasTag(ParticipantToJson(p).fields, p)
  {
  }

  ghost predicate HasStanding(o: map<string, Json>, p: ParsedParticipant) {
    && "placement" in o && o["placement"] == JInt(p.placement)
    && "subteamId" in o && o["subteamId"] == JInt(p.subteamId)
  }

  lemma EncodesStanding(p: ParsedParticipant)
    ensures ParticipantToJson(p).JObj? && HasStanding(ParticipantToJson(p).fields, p)
  {
  }

  ghost predicate HasEligibility(o: map<string, Json>, p: ParsedParticipant) {
    && "eligible" in o && o["eligible"] == JBool(p.eligibleForProgression)
    && "earlySurrender" in o && o["earlySurrender"] == JBool(p.gameEndedInEarlySurrender)
  }

  lemma EncodesEligibility(p: ParsedParticipant)
    ensures ParticipantToJson(p).JObj? && HasEligibility(ParticipantToJson(p).fields, p)
  {
  }

  ghost predicate HasSession(o: map<string, Json>, p: ParsedParticipant) {
    && "profileIcon" in o && o["profileIcon"] == JInt(p.profileIcon)
    && "timePlayed" in o && o["timePlayed"] == JInt(p.timePlayed)
  }

  lemma EncodesSession(p: ParsedParticipant)
    ensures ParticipantToJson(p).JObj? && HasSession(ParticipantToJson(p).fields, p)
  {
  }

  ghost predicate HasPicks(o: map<string, Json>, p: ParsedParticipant) {
    && "augments" in o && o["augments"] == Ints(p.augments)
    && "items" in o && o["items"] == Ints(p.items)
    && "kills" in o && o["kills"] == JInt(p.kills)
    && "deaths" in o && o["deaths"] == JInt(p.deaths)
  }

  lemma EncodesPicks(p: ParsedParticipant)
    ensures ParticipantToJson(p).JObj? && HasPicks(ParticipantToJson(p).fields, p)
  {
  }

  ghost predicate HasCombat(o: map<string, Json>, p: ParsedParticipant) {
    && "assists" in o && o["assists"] == JInt(p.assists)
    && "damageToChampions" in o && o["damageToChampions"] == JInt(p.damageToChampions)
    && "goldEarned" in o && o["goldEarned"] == JInt(p.goldEarned)
    && "championLevel" in o && o["championLevel"] == JInt(p.championLevel)
    && "damageTaken" in o && o["damageTaken"] == JInt(p.damageTaken)
  }

  lemma EncodesCombat(p: ParsedParticipant)
    ensures ParticipantToJson(p).JObj? && HasCombat(ParticipantToJson(p).fields, p)
  {
  }

  ghost predicate HasDamage(o: map<string, Json>, p: ParsedParticipant) {
    && "totalHeal" in o && o["totalHeal"] == JInt(p.totalHeal)
    && "damageSelfMitigated" in o && o["damageSelfMitigated"] == JInt(p.damageSelfMitigated)
    && "largestMultiKill" in o && o["largestMultiKill"] == JInt(p.largestMultiKill)
    && "killingSprees" in o && o["killingSprees"] == JInt(p.killingSprees)
    && "timeSpentDead" in o && o["timeSpentDead"] == JInt(p.timeSpentDead)
  }

  lemma EncodesDamage(p: ParsedParticipant)
    ensures ParticipantToJson(p).JObj? && HasDamage(ParticipantToJson(p).fields, p)
  {
  }

  lemma ParticipantRoundTrip(p: ParsedParticipant)
    ensures ParticipantFromJson(ParticipantToJson(p)) == Some(p)
  {
    hide ParticipantToJson;
    EncodesName(p);
    EncodesTag(p);
    EncodesStanding(p);
    EncodesEligibility(p);
    EncodesSession(p);
    EncodesPicks(p);
    EncodesCombat(p);
    EncodesDamage(p);
    var o := ParticipantToJson(p).fields;
    IntsRoundTrip(o, "augments", p.augments);
    IntsRoundTrip(o, "items", p.items);
  }

  lemma SubteamRoundTrip(t: ParsedSubteam)
    ensures SubteamFromJson(SubteamToJson(t)) == Some(t)
  {
    hide ParticipantFromJson, ParticipantToJson;
    var items := SubteamToJson(t).fields["participants"].items;
    var decoded := seq(|items|, i requires 0 <= i < |items| => ParticipantFromJson(items[i]));
    forall i | 0 <= i < |items| ensures decoded[i] == Some(t.participants[i]) {
      ParticipantRoundTrip(t.participants[i]);
    }
    SequenceOfSome(decoded, t.participants);
  }

  /** The codec is exact on every match: order of teams and members, repeated augments, item order and all. */
  lemma RoundTrip(m: ParsedArenaMatch)
    ensures FromJson(ToJson(m)) == Some(m)
  {
    hide SubteamFromJson, SubteamToJson;
    var items := ToJson(m).fields["subteams"].items;
    var decoded := seq(|items|, i requires 0 <= i < |items| => SubteamFromJson(items[i]));
    forall i | 0 <= i < |items| ensures decoded[i] == Some(m.subteams[i]) {
      SubteamRoundTrip(m.subteams[i]);
    }
    SequenceOfSome(decoded, m.subteams);
  }
}
