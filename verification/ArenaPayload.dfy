/**
 What of a match payload ends up where in the parsed match of backend/arena/riot/arena.py: the fields and picks of a
 participant, the start of the match, and the mode of its queue.
 */
module ArenaPayload {
  import opened Wrappers
  import opened Json
  import opened Arena
  import Sorting

  // ---- The fields of a participant ----

  /** The payload gives this number under this name; nothing, null or another empty value is zero. */
  predicate Reads(fields: map<string, Json>, name: string, value: int) {
    match Get(fields, name, JNull)
    case JInt(n) => value == n
    case JBool(flag) => value == if flag then 1 else 0
    case JNull => value == 0
    case JStr(text) => text == "" && value == 0
    case JArr(items) => items == [] && value == 0
    case JObj(o) => o == map[] && value == 0
  }

  lemma IntOrZeroReads(fields: map<string, Json>, name: string)
    requires IntOrZero(fields, name).Some?
    ensures Reads(fields, name, IntOrZero(fields, name).value)
  {
  }

  /** Each counter of a parsed participant is the one its Riot name stands for. */
  ghost predicate CountersOf(fields: map<string, Json>, p: ParsedParticipant) {
    && Reads(fields, "kills", p.kills) && Reads(fields, "deaths", p.deaths) && Reads(fields, "assists", p.assists)
    && Reads(fields, "totalDamageDealtToChampions", p.damageToChampions)
    && Reads(fields, "goldEarned", p.goldEarned) && Reads(fields, "champLevel", p.championLevel)
    && Reads(fields, "totalDamageTaken", p.damageTaken) && Reads(fields, "totalHeal", p.totalHeal)
    && Reads(fields, "damageSelfMitigated", p.damageSelfMitigated)
    && Reads(fields, "largestMultiKill", p.largestMultiKill) && Reads(fields, "killingSprees", p.killingSprees)
    && Reads(fields, "totalTimeSpentDead", p.timeSpentDead)
    && Reads(fields, "profileIcon", p.profileIcon) && Reads(fields, "timePlayed", p.timePlayed)
  }

  lemma CounterIs(fields: map<string, Json>, i: nat)
    requires i < |COUNTERS| && Counters(fields, COUNTERS).Some?
    ensures Reads(fields, COUNTERS[i], Counters(fields, COUNTERS).value[i])
  {
    CountersAt(fields, COUNTERS, i);
    IntOrZeroReads(fields, COUNTERS[i]);
  }

  lemma ParsedCounters(v: Json, gameDuration: int)
    requires ParseParticipant(v, gameDuration).Some?
    ensures v.JObj? && CountersOf(v.fields, ParseParticipant(v, gameDuration).value)
  {
    hide Counters, Reads, PickedInts, Str, Sorting.Filter, DeriveEligibility;
    forall i: nat | i < |COUNTERS| ensures Reads(v.fields, COUNTERS[i], Counters(v.fields, COUNTERS).value[i]) {
      CounterIs(v.fields, i);
    }
    var c := Counters(v.fields, COUNTERS).value;
    assert forall i: nat :: i < 14 ==> Reads(v.fields, COUNTERS[i], c[i]);
    assert COUNTERS[0] == "profileIcon" && COUNTERS[1] == "timePlayed" && COUNTERS[2] == "kills";
    assert COUNTERS[3] == "deaths" && COUNTERS[4] == "assists" && COUNTERS[5] == "totalDamageDealtToChampions";
    assert COUNTERS[6] == "goldEarned" && COUNTERS[7] == "champLevel" && COUNTERS[8] == "totalDamageTaken";
    assert COUNTERS[9] == "totalHeal" && COUNTERS[10] == "damageSelfMitigated" && COUNTERS[11] == "largestMultiKill";
    assert COUNTERS[12] == "killingSprees" && COUNTERS[13] == "totalTimeSpentDead";
  }

  /**
   Who a participant is and where it came: texts and numbers under their own names, the subteam's placement before the
   participant's, and no placement as zero.
   */
  lemma ParsedStanding(v: Json, gameDuration: int)
    requires ParseParticipant(v, gameDuration).Some?
    ensures v.JObj?
    ensures var o, p := v.fields, ParseParticipant(v, gameDuration).value;
            && ("puuid" in o && o["puuid"].JStr? ==> p.puuid == o["puuid"].text)
            && ("puuid" !in o ==> p.puuid == "")
            && ("riotIdGameName" in o && o["riotIdGameName"].JStr? ==> p.riotIdGameName == o["riotIdGameName"].text)
            && ("riotIdTagline" in o && o["riotIdTagline"].JStr? ==> p.riotIdTagline == o["riotIdTagline"].text)
            && Int(Get(o, "championId", JInt(0))) == Some(p.championId)
            && Int(Get(o, "playerSubteamId", JInt(0))) == Some(p.subteamId)
            && ("subteamPlacement" in o ==> Reads(o, "subteamPlacement", p.placement))
            && ("subteamPlacement" !in o ==> Reads(o, "placement", p.placement))
            && (p.gameEndedInEarlySurrender <==> Truthy(Get(o, "gameEndedInEarlySurrender", JNull)))
  {
    hide Counters, PickedInts, Sorting.Filter, DeriveEligibility;
  }

  /** A number, or nothing to speak of. */
  predicate Countable(v: Json) {
    v.JInt? || v.JBool? || v in [JNull, JStr(""), JArr([]), JObj(map[])]
  }

  /** All numbers a participant is read from are numbers, or where that may be are left empty. */
  ghost predicate Readable(o: map<string, Json>) {
    && (forall name <- COUNTERS :: Countable(Get(o, name, JNull)))
    && Countable(if "subteamPlacement" in o then o["subteamPlacement"] else Get(o, "placement", JNull))
    && IsInt(Get(o, "championId", JInt(0))) && IsInt(Get(o, "playerSubteamId", JInt(0)))
  }

  lemma CountableIff(o: map<string, Json>, name: string)
    ensures IntOrZero(o, name).Some? <==> Countable(Get(o, name, JNull))
  {
  }

  lemma {:induction false} CountersReadable(o: map<string, Json>, names: seq<string>)
    ensures Counters(o, names).Some? <==> forall name <- names :: Countable(Get(o, name, JNull))
  {
    hide IntOrZero, Countable;
    if names != [] {
      CountableIff(o, names[0]);
      CountersReadable(o, names[1..]);
      assert forall name :: name in names <==> name == names[0] || name in names[1..];
    }
  }

  /** The parser reads a participant, and so accepts its match, exactly when its numbers are readable. */
  lemma ReadableIff(v: Json, gameDuration: int)
    ensures ParseParticipant(v, gameDuration).Some? <==> v.JObj? && Readable(v.fields)
  {
    hide Counters, PickedInts, Str, Sorting.Filter, DeriveEligibility;
    if v.JObj? { CountersReadable(v.fields, COUNTERS); }
  }

  // ---- Augments and items ----

  /** A slot holds a positive number. */
  predicate HoldsPick(fields: map<string, Json>, prefix: string, slot: nat) {
    var v := IntOrZero(fields, prefix + Digits(slot));
    v.Some? && v.value > 0
  }

  /** `at` are the slots from lo to below hi that hold a positive number, in order, and `picks` those numbers. */
  ghost predicate ListsPicks(fields: map<string, Json>, prefix: string, lo: nat, hi: nat, at: seq<nat>, picks: seq<int>)
  {
    && |picks| == |at| && (forall i, j :: 0 <= i < j < |at| ==> at[i] < at[j])
    && (forall i :: 0 <= i < |at| ==>
         lo <= at[i] < hi && picks[i] > 0 && IntOrZero(fields, prefix + Digits(at[i])) == Some(picks[i]))
    && (forall k: nat :: lo <= k < hi && HoldsPick(fields, prefix, k) ==> k in at)
  }

  lemma {:induction false} PicksInSlotOrder(fields: map<string, Json>, prefix: string, lo: nat, hi: nat)
    returns (at: seq<nat>)
    requires lo <= hi
    ensures ListsPicks(fields, prefix, lo, hi, at, PickedInts(fields, prefix, lo, hi))
  {
    if lo == hi {
      at := [];
    } else {
      at := PicksInSlotOrder(fields, prefix, lo, hi - 1);
      hide Digits, IntOrZero;
      var front, more := PickedInts(fields, prefix, lo, hi - 1), Picked(fields, prefix + Digits(hi - 1));
      if more == [] {
        assert front + more == front;
      } else {
        var longer := at + [hi - 1];
        assert longer[|at|] == hi - 1;
        forall k: nat | lo <= k < hi && HoldsPick(fields, prefix, k) ensures k in longer {
          if k < hi - 1 { assert k in at; }
        }
        at := longer;
      }
    }
  }

  /** An item list without the trinket everybody carries. */
  ghost predicate WithoutTrinket(all: seq<int>, items: seq<int>) {
    3348 !in items && multiset(items) == multiset(all)[3348 := 0]
  }

  lemma {:induction false} TrinketDropped(all: seq<int>)
    ensures WithoutTrinket(all, Sorting.Filter(all, (i: int) => i != EXCLUDED_ITEM_ID))
  {
    if all != [] {
      var front, last := all[..|all| - 1], all[|all| - 1];
      TrinketDropped(front);
      assert all == front + [last];
    }
  }

  /**
   The picks of a participant: augments are the positive numbers of slots 1 to 6 and items those of slots 0 to 6, both
   in slot order with repeats, items without the trinket.
   */
  lemma ParsedPicks(v: Json, gameDuration: int) returns (augmentSlots: seq<nat>, itemSlots: seq<nat>, all: seq<int>)
    requires ParseParticipant(v, gameDuration).Some?
    ensures v.JObj?
    ensures var p := ParseParticipant(v, gameDuration).value;
            && ListsPicks(v.fields, "playerAugment", 1, 7, augmentSlots, p.augments)
            && ListsPicks(v.fields, "item", 0, 7, itemSlots, all)
            && WithoutTrinket(all, p.items) && IsSubsequence(p.items, all)
  {
    hide Counters, PickedInts, Str, Sorting.Filter, DeriveEligibility, ListsPicks, WithoutTrinket;
    augmentSlots := PicksInSlotOrder(v.fields, "playerAugment", 1, 7);
    itemSlots := PicksInSlotOrder(v.fields, "item", 0, 7);
    all := PickedInts(v.fields, "item", 0, 7);
    TrinketDropped(all);
    FilterIsSubsequence(all, (i: int) => i != EXCLUDED_ITEM_ID);
  }

  /** What is left of a list when some elements are struck out. */
  ghost predicate IsSubsequence(part: seq<int>, whole: seq<int>) {
    if part == [] then true
    else if whole == [] then false
    else
      var n, k := |whole| - 1, |part| - 1;
      IsSubsequence(part, whole[..n]) || (part[k] == whole[n] && IsSubsequence(part[..k], whole[..n]))
  }

  lemma {:induction false} FilterIsSubsequence(whole: seq<int>, keep: int -> bool)
    ensures IsSubsequence(Sorting.Filter(whole, keep), whole)
  {
    if whole != [] {
      var n := |whole| - 1;
      FilterIsSubsequence(whole[..n], keep);
      var front := Sorting.Filter(whole[..n], keep);
      if keep(whole[n]) {
        assert (front + [whole[n]])[..|front|] == front;
      } else {
        assert front + [] == front;
      }
    }
  }

  // ---- The match ----

  /** A stamp that is there and not empty. */
  predicate Stamped(info: map<string, Json>, name: string) {
    name in info && Truthy(info[name])
  }

  /** The fields of the match itself. */
  ghost predicate HeaderOf(info: map<string, Json>, metadata: map<string, Json>, m: ParsedArenaMatch) {
    && Int(Get(info, "gameDuration", JInt(0))) == Some(m.gameDuration)
    && Int(Get(info, "queueId", JInt(-1))) == Some(m.queueId)
    && ("matchId" in metadata ==> m.matchId == Str(metadata["matchId"]))
    && ("matchId" !in metadata && "gameId" in info ==> m.matchId == Str(info["gameId"]))
  }

  /** A match starts at its start stamp, else at its creation, else its length before its end, else nobody knows. */
  ghost predicate StartOf(info: map<string, Json>, startedAtMs: int, gameDuration: int) {
    if Stamped(info, "gameStartTimestamp") then Int(info["gameStartTimestamp"]) == Some(startedAtMs)
    else if Stamped(info, "gameCreation") then Int(info["gameCreation"]) == Some(startedAtMs)
    else if Stamped(info, "gameEndTimestamp") then
      Int(info["gameEndTimestamp"]) == Some(startedAtMs + 1000 * gameDuration)
    else startedAtMs == 0
  }

  /** A listed queue has its own mode; an unlisted one needs Arena's game mode. */
  ghost predicate ModeOf(info: map<string, Json>, m: ParsedArenaMatch) {
    && (m.queueId in {1700, 1710} ==> m.mode == DUOS)
    && (m.queueId in {1740, 1750} ==> m.mode == TRIOS)
    && (m.queueId !in {1700, 1710, 1740, 1750} ==> Upper(Str(Get(info, "gameMode", JStr("")))) == "CHERRY")
  }

  /** What a parsed match says of itself is what its payload says. */
  lemma ParsedHeader(payload: Json)
    requires Parsed(payload).Ok?
    ensures payload.JObj?
    ensures var infoField := Get(payload.fields, "info", JObj(map[]));
            var metaField := Get(payload.fields, "metadata", JObj(map[]));
            var m := Parsed(payload).value;
            infoField.JObj? && metaField.JObj? && HeaderOf(infoField.fields, metaField.fields, m)
            && StartOf(infoField.fields, m.startedAtMs, m.gameDuration) && ModeOf(infoField.fields, m)
  {
    hide ParseParticipants, Subteams, Str, Upper, SubteamIds, Tally, MostCommon;
    var info := Get(payload.fields, "info", JObj(map[])).fields;
    StartIsFirstStamp(info, Parsed(payload).value.gameDuration);
    ModeIsListed(info);
  }

  lemma StartIsFirstStamp(info: map<string, Json>, gameDuration: int)
    requires StartedAtMs(info, gameDuration).Some?
    ensures StartOf(info, StartedAtMs(info, gameDuration).value, gameDuration)
  {
  }

  lemma ModeIsListed(info: map<string, Json>)
    requires ResolveMode(info).Ok?
    ensures var queueId := Int(Get(info, "queueId", JInt(-1)));
            && queueId.Some?
            && (queueId.value in {1700, 1710} ==> ResolveMode(info).value == DUOS)
            && (queueId.value in {1740, 1750} ==> ResolveMode(info).value == TRIOS)
            && (queueId.value !in {1700, 1710, 1740, 1750} ==>
                 Upper(Str(Get(info, "gameMode", JStr("")))) == "CHERRY")
  {
    hide Str, Upper, SubteamIds, Tally, MostCommon, Sizes;
  }
}
