/**
 The rolling counters of backend/arena/integrity/fingerprint.py: sorted sets in Redis that are trimmed to a
 window and expire, against the plain history of observations. Time is seconds since the epoch on one clock.
 */
module Fingerprint {
  import opened Wrappers
  import Sorting

  /** A sorted set with its expiry: match ids scored by the second they were last observed in. */
  datatype Entry = Entry(scores: map<string, int>, expiresAt: real)

  type Store = map<string, Entry>

  function Live(store: Store, key: string, at: real): map<string, int> {
    if key in store && at <= store[key].expiresAt then store[key].scores else map[]
  }

  /** `ZREMRANGEBYSCORE key 0 cutoff` */
  function Trimmed(scores: map<string, int>, cutoff: int): map<string, int> {
    map m | m in scores && !(0 <= scores[m] <= cutoff) :: scores[m]
  }

  /** The four commands of one observation, and the count the third returns. */
  function Observe(store: Store, key: string, matchId: string, window: nat, at: real): (Store, nat) {
    var now := at.Floor;
    var scores := Trimmed(Live(store, key, at), now - window)[matchId := now];
    (store[key := Entry(scores, at + window as real)], |scores|)
  }

  // ---- History ----

  datatype Observation = Observation(key: string, matchId: string, at: real)

  function After(history: seq<Observation>, window: nat): Store {
    if history == [] then map[]
    else
      var o := history[|history| - 1];
      Observe(After(history[..|history| - 1], window), o.key, o.matchId, window, o.at).0
  }

  /** Per match id, the second of its latest observation under a key. */
  function LastSeen(history: seq<Observation>, key: string): map<string, int> {
    if history == [] then map[]
    else
      var o, before := history[|history| - 1], LastSeen(history[..|history| - 1], key);
      if o.key == key then before[o.matchId := o.at.Floor] else before
  }

  /** The match ids last observed after `lo`. */
  function Recent(seen: map<string, int>, lo: int): map<string, int> {
    map m | m in seen && seen[m] > lo :: seen[m]
  }

  /** Time does not run backwards, and starts at the epoch. */
  ghost predicate Ordered(history: seq<Observation>) {
    && (forall i, j :: 0 <= i < j < |history| ==> history[i].at <= history[j].at)
    && (forall o <- history :: o.at >= 0.0)
  }

  function LastTime(history: seq<Observation>): real {
    if history == [] then 0.0 else history[|history| - 1].at
  }

  /** What is still live inside the window is what the history says, and nothing is dated later than the last time. */
  ghost predicate Faithful(store: Store, seen: map<string, int>, key: string, window: nat, last: real) {
    && (forall at :: at >= last ==>
         Recent(Live(store, key, at), at.Floor - window) == Recent(seen, at.Floor - window))
    && (key in store ==> forall m <- store[key].scores :: 0 <= store[key].scores[m] <= last.Floor)
    && (forall m <- seen :: 0 <= seen[m] <= last.Floor)
  }

  lemma FloorMonotone(x: real, y: real)
    requires x <= y
    ensures x.Floor <= y.Floor
  {
  }

  lemma FloorShift(x: real, n: nat, y: real)
    requires x + n as real < y
    ensures x.Floor + n <= y.Floor
  {
  }

  /** Trimming to the window is taking the recent ones. */
  lemma TrimmedIsRecent(scores: map<string, int>, cutoff: int)
    requires forall m <- scores :: 0 <= scores[m]
    ensures Trimmed(scores, cutoff) == Recent(scores, cutoff)
  {
  }

  lemma RecentAdds(seen: map<string, int>, m: string, now: int, lo: int)
    requires lo < now
    ensures Recent(seen, lo)[m := now] == Recent(seen[m := now], lo)
  {
  }

  lemma RecentNarrows(seen: map<string, int>, lo: int, higher: int)
    requires lo <= higher
    ensures Recent(Recent(seen, lo), higher) == Recent(seen, higher)
  {
  }

  lemma NothingRecent(seen: map<string, int>, lo: int)
    requires forall m <- seen :: seen[m] <= lo
    ensures Recent(seen, lo) == map[] == Recent(map[], lo)
  {
  }

  /** The set an observation leaves holds exactly the recent part of the history. */
  lemma ObservedIsRecent(store: Store, seen: map<string, int>, key: string, matchId: string, window: nat,
                         last: real, at: real)
    requires Faithful(store, seen, key, window, last) && 0.0 <= last <= at && window >= 1
    ensures Trimmed(Live(store, key, at), at.Floor - window)[matchId := at.Floor]
         == Recent(seen[matchId := at.Floor], at.Floor - window)
    ensures var scores := Trimmed(Live(store, key, at), at.Floor - window)[matchId := at.Floor];
            forall m <- scores :: 0 <= scores[m] <= at.Floor
  {
    var live, cutoff := Live(store, key, at), at.Floor - window;
    FloorMonotone(last, at);
    assert Recent(live, cutoff) == Recent(seen, cutoff);
    assert forall m <- live :: 0 <= live[m] <= at.Floor;
    hide Faithful, Live, Recent, Trimmed;
    TrimmedIsRecent(live, cutoff);
    TrimmedKeeps(live, cutoff);
    RecentAdds(seen, matchId, at.Floor, cutoff);
  }

  lemma TrimmedKeeps(scores: map<string, int>, cutoff: int)
    ensures forall m <- Trimmed(scores, cutoff) :: m in scores && Trimmed(scores, cutoff)[m] == scores[m]
  {
  }

  lemma ObservedStaysFaithful(store: Store, seen: map<string, int>, key: string, matchId: string, window: nat,
                              last: real, at: real)
    requires Faithful(store, seen, key, window, last) && 0.0 <= last <= at && window >= 1
    ensures var (store', count) := Observe(store, key, matchId, window, at);
            var seen' := seen[matchId := at.Floor];
            && Faithful(store', seen', key, window, at)
            && count == |Recent(seen', at.Floor - window)|
  {
    hide Recent, Trimmed;
    var now, seen' := at.Floor, seen[matchId := at.Floor];
    var (store', count) := Observe(store, key, matchId, window, at);
    FloorMonotone(last, at);
    ObservedIsRecent(store, seen, key, matchId, window, last, at);
    assert forall m <- seen' :: 0 <= seen'[m] <= now;
    forall later | later >= at
      ensures Recent(Live(store', key, later), later.Floor - window) == Recent(seen', later.Floor - window)
    {
      FloorMonotone(at, later);
      if later > at + window as real {
        FloorShift(at, window, later);
        NothingRecent(seen', later.Floor - window);
      } else {
        RecentNarrows(seen', now - window, later.Floor - window);
      }
    }
  }

  lemma OthersStayFaithful(store: Store, seen: map<string, int>, key: string, other: string, matchId: string,
                           window: nat, last: real, at: real)
    requires Faithful(store, seen, key, window, last) && last <= at && key != other
    ensures Faithful(Observe(store, other, matchId, window, at).0, seen, key, window, at)
  {
    FloorMonotone(last, at);
    var store' := Observe(store, other, matchId, window, at).0;
    forall later | later >= at
      ensures Recent(Live(store', key, later), later.Floor - window) == Recent(seen, later.Floor - window)
    {
      assert Live(store', key, later) == Live(store, key, later);
    }
  }

  lemma {:induction false} RunFaithful(history: seq<Observation>, key: string, window: nat)
    requires Ordered(history) && window >= 1
    ensures Faithful(After(history, window), LastSeen(history, key), key, window, LastTime(history))
  {
    hide Observe, Faithful;
    if history == [] {
      EmptyFaithful(key, window);
    } else {
      var front, o := history[..|history| - 1], history[|history| - 1];
      RunFaithful(front, key, window);
      assert o in history && LastTime(front) <= o.at && 0.0 <= LastTime(front);
      if o.key == key {
        ObservedStaysFaithful(After(front, window), LastSeen(front, key), key, o.matchId, window, LastTime(front),
                              o.at);
      } else {
        OthersStayFaithful(After(front, window), LastSeen(front, key), key, o.key, o.matchId, window,
                           LastTime(front), o.at);
      }
    }
  }

  lemma EmptyFaithful(key: string, window: nat)
    ensures Faithful(map[], map[], key, window, 0.0)
  {
  }

  /** How many match ids were last observed under the key inside the window, counting one more observation. */
  function CountWith(history: seq<Observation>, o: Observation, window: nat): nat {
    |Recent(LastSeen(history + [o], o.key), o.at.Floor - window)|
  }

  lemma OrderedFront(history: seq<Observation>, o: Observation)
    requires Ordered(history + [o])
    ensures Ordered(history) && 0.0 <= LastTime(history) <= o.at
  {
    var all := history + [o];
    assert o in all && all[|history|] == o;
    forall i, j | 0 <= i < j < |history| ensures history[i].at <= history[j].at {
      assert all[i].at <= all[j].at;
    }
    forall i | 0 <= i < |history| ensures history[i].at >= 0.0 && history[i].at <= o.at {
      assert all[i] in all && all[i].at <= all[|history|].at;
    }
  }

  /**
   The count an observation returns is the number of distinct match ids whose latest observation of that key,
   this one included, lies inside the window: trimming and expiry cannot be observed, and observing a match
   again does not count twice.
   */
  lemma CountIsHistory(history: seq<Observation>, o: Observation, window: nat)
    requires Ordered(history + [o]) && window >= 1
    ensures Observe(After(history, window), o.key, o.matchId, window, o.at).1 == CountWith(history, o, window)
  {
    hide Observe, Recent, Faithful, After;
    OrderedFront(history, o);
    RunFaithful(history, o.key, window);
    ObservedStaysFaithful(After(history, window), LastSeen(history, o.key), o.key, o.matchId, window,
                          LastTime(history), o.at);
    assert (history + [o])[..|history|] == history;
  }

  // ---- The stores ----

  /** `list(dict.fromkeys(keys))` */
  function Dedupe(keys: seq<string>): seq<string> {
    if keys == [] then []
    else
      var front, last := Dedupe(keys[..|keys| - 1]), keys[|keys| - 1];
      if last in front then front else front + [last]
  }

  /** One match observed under each of these keys at the same time. */
  function Observations(keys: seq<string>, matchId: string, at: real): seq<Observation> {
    seq(|keys|, i requires 0 <= i < |keys| => Observation(keys[i], matchId, at))
  }

  class RedisStore {
    var sets: Store

    constructor ()
      ensures sets == map[]
    {
      sets := map[];
    }

    /** One pipelined observation: the replies of its four commands. */
    method Pipeline(key: string, matchId: string, window: nat, at: real) returns (replies: seq<int>)
      modifies this
      ensures sets == Observe(old(sets), key, matchId, window, at).0
      ensures |replies| == 4 && replies[2] == Observe(old(sets), key, matchId, window, at).1
    {
      var now := at.Floor;
      var scores := Live(sets, key, at);
      var kept := Trimmed(scores, now - window);
      var removed := |scores| - |kept|;
      var added := if matchId in kept then 0 else 1;
      kept := kept[matchId := now];
      sets := sets[key := Entry(kept, at + window as real)];
      replies := [removed, added, |kept|, 1];
    }

    /** RedisLobbyFingerprintStore.observe */
    method ObserveLobby(fingerprint: string, matchId: string, window: nat, at: real) returns (count: int)
      modifies this
      ensures sets == Observe(old(sets), fingerprint, matchId, window, at).0
      ensures count == Observe(old(sets), fingerprint, matchId, window, at).1
    {
      var replies := Pipeline(fingerprint, matchId, window, at);
      count := replies[2];
    }

    /** One pipeline of four commands per key; the third reply of each group is that key's own count. */
    method PipelineAll(keys: seq<string>, matchId: string, window: nat, at: real, ghost history: seq<Observation>)
      returns (replies: seq<int>)
      requires forall i, j :: 0 <= i < j < |keys| ==> keys[i] != keys[j]
      requires window >= 1 && Ordered(history) && LastTime(history) <= at && 0.0 <= at
      requires sets == After(history, window)
      modifies this
      ensures sets == After(history + Observations(keys, matchId, at), window)
      ensures |replies| == 4 * |keys|
      ensures forall j :: 0 <= j < |keys| ==>
        replies[4 * j + 2] == CountWith(history, Observation(keys[j], matchId, at), window)
    {
      hide Observe, After, CountWith, Ordered, Observations;
      replies := [];
      NoKeys(history, matchId, at);
      for i := 0 to |keys|
        invariant sets == After(history + Observations(keys[..i], matchId, at), window)
        invariant |replies| == 4 * i
        invariant forall j :: 0 <= j < i ==>
          replies[4 * j + 2] == CountWith(history, Observation(keys[j], matchId, at), window)
      {
        NextKey(history, keys, i, matchId, window, at);
        var more := Pipeline(keys[i], matchId, window, at);
        replies := replies + more;
      }
      assert keys[..|keys|] == keys;
    }

    /**
     RedisPartyCooccurrenceStore.observe, on a store with the given history: every distinct key gets its own
     count, and the store then has the history with one observation per distinct key.
     */
    method ObservePairs(pairKeys: seq<string>, matchId: string, window: nat, at: real, ghost history: seq<Observation>)
      returns (counts: map<string, int>)
      requires window >= 1 && Ordered(history) && LastTime(history) <= at && 0.0 <= at
      requires sets == After(history, window)
      modifies this
      ensures sets == After(history + Observations(Dedupe(pairKeys), matchId, at), window)
      ensures counts.Keys == set k | k in pairKeys
      ensures forall k <- counts :: counts[k] == CountWith(history, Observation(k, matchId, at), window)
    {
      hide After, CountWith, Dedupe, Ordered;
      var keys := Dedupe(pairKeys);
      DedupeKeeps(pairKeys);
      var replies := PipelineAll(keys, matchId, window, at, history);
      counts := map[];
      for i := 0 to |keys|
        invariant forall k :: k in counts <==> k in keys[..i]
        invariant forall k <- counts :: counts[k] == CountWith(history, Observation(k, matchId, at), window)
      {
        assert keys[..i + 1] == keys[..i] + [keys[i]];
        counts := counts[keys[i] := replies[i * 4 + 2]];
      }
      assert keys[..|keys|] == keys;
    }
  }

  lemma NoKeys(history: seq<Observation>, matchId: string, at: real)
    ensures history + Observations([], matchId, at) == history
  {
  }

  /** Observing the next key of a pipeline extends the history by it and returns that key's own count. */
  lemma NextKey(history: seq<Observation>, keys: seq<string>, i: nat, matchId: string, window: nat, at: real)
    requires i < |keys| && forall j, k :: 0 <= j < k < |keys| ==> keys[j] != keys[k]
    requires window >= 1 && Ordered(history) && LastTime(history) <= at && 0.0 <= at
    ensures var before := After(history + Observations(keys[..i], matchId, at), window);
            var (after, count) := Observe(before, keys[i], matchId, window, at);
            && after == After(history + Observations(keys[..i + 1], matchId, at), window)
            && count == CountWith(history, Observation(keys[i], matchId, at), window)
  {
    hide Observe, LastSeen, Recent, CountWith, Ordered;
    var before, o := history + Observations(keys[..i], matchId, at), Observation(keys[i], matchId, at);
    assert history + Observations(keys[..i + 1], matchId, at) == before + [o];
    assert (before + [o])[..|before|] == before;
    SameTimeOrdered(history, keys[..i + 1], matchId, at);
    CountIsHistory(before, o, window);
    OtherKeysUnseen(history, keys[..i], keys[i], matchId, at);
  }

  lemma {:induction false} DedupeKeeps(keys: seq<string>)
    ensures forall k :: k in Dedupe(keys) <==> k in keys
    ensures forall i, j :: 0 <= i < j < |Dedupe(keys)| ==> Dedupe(keys)[i] != Dedupe(keys)[j]
  {
    if keys != [] {
      DedupeKeeps(keys[..|keys| - 1]);
      assert keys == keys[..|keys| - 1] + [keys[|keys| - 1]];
    }
  }

  lemma SameTimeOrdered(history: seq<Observation>, keys: seq<string>, matchId: string, at: real)
    requires Ordered(history) && LastTime(history) <= at && 0.0 <= at
    ensures Ordered(history + Observations(keys, matchId, at))
  {
    var all := history + Observations(keys, matchId, at);
    forall i, j | 0 <= i < j < |all| ensures all[i].at <= all[j].at {
      if i < |history| { assert history[i].at <= LastTime(history); }
    }
    forall i | 0 <= i < |all| ensures all[i].at >= 0.0 {
      if i < |history| { assert history[i] in history; }
    }
  }

  /** Observations of other keys do not change when a key was last seen. */
  lemma {:induction false} OtherKeysUnseen(history: seq<Observation>, keys: seq<string>, key: string,
                                           matchId: string, at: real)
    requires key !in keys
    ensures LastSeen(history + Observations(keys, matchId, at), key) == LastSeen(history, key)
    ensures var o := Observation(key, matchId, at);
            forall window ::
              CountWith(history + Observations(keys, matchId, at), o, window) == CountWith(history, o, window)
  {
    var all, o := history + Observations(keys, matchId, at), Observation(key, matchId, at);
    assert (all + [o])[..|all|] == all && (history + [o])[..|history|] == history;
    if keys == [] {
      assert all == history;
    } else {
      OtherKeysUnseen(history, keys[..|keys| - 1], key, matchId, at);
      assert all[..|all| - 1] == history + Observations(keys[..|keys| - 1], matchId, at);
      assert keys[|keys| - 1] in keys;
    }
  }

  // ---- Pair keys ----

  function PairKey(hash: string -> string, a: string, b: string): string {
    if Sorting.StringLeq(a, b) then hash(a + "," + b) else hash(b + "," + a)
  }

  /** The keys of member i with everyone after it, for the first `i` members. */
  function KeysOf(hash: string -> string, members: seq<string>, i: nat, j: nat): seq<string>
    requires i < |members| && i < j <= |members|
  {
    if j == i + 1 then [] else KeysOf(hash, members, i, j - 1) + [PairKey(hash, members[i], members[j - 1])]
  }

  function AllKeys(hash: string -> string, members: seq<string>, i: nat): seq<string>
    requires i <= |members|
  {
    if i == 0 then [] else AllKeys(hash, members, i - 1) + KeysOf(hash, members, i - 1, |members|)
  }

  /** `sorted(set(ids))` */
  function Members(ids: seq<string>): seq<string> {
    Sorting.Sorted(Dedupe(ids), Sorting.StringLeq)
  }

  method SubteamPairKeys(hash: string -> string, ids: seq<string>) returns (keys: seq<string>)
    ensures keys == AllKeys(hash, Members(ids), |Members(ids)|)
  {
    hide PairKey, Members;
    keys := [];
    var members := Members(ids);
    for i := 0 to |members|
      invariant keys == AllKeys(hash, members, i)
    {
      ghost var before := keys;
      for j := i + 1 to |members|
        invariant keys == before + KeysOf(hash, members, i, j)
      {
        keys := keys + [PairKey(hash, members[i], members[j])];
      }
    }
  }

  /** The pair of two members is among the keys. */
  lemma {:induction false} PairIsKeyed(hash: string -> string, members: seq<string>, i: nat, j: nat, upTo: nat)
    requires i < j < |members| && i < upTo <= |members|
    ensures PairKey(hash, members[i], members[j]) in AllKeys(hash, members, upTo)
    decreases upTo
  {
    if upTo > i + 1 {
      PairIsKeyed(hash, members, i, j, upTo - 1);
    } else {
      LaterMemberKeyed(hash, members, i, j, |members|);
    }
  }

  lemma {:induction false} LaterMemberKeyed(hash: string -> string, members: seq<string>, i: nat, j: nat, upTo: nat)
    requires i < j < upTo <= |members|
    ensures PairKey(hash, members[i], members[j]) in KeysOf(hash, members, i, upTo)
    decreases upTo
  {
    if upTo > j + 1 {
      LaterMemberKeyed(hash, members, i, j, upTo - 1);
      assert KeysOf(hash, members, i, upTo - 1) <= KeysOf(hash, members, i, upTo);
    } else {
      var keys := KeysOf(hash, members, i, upTo);
      assert keys[|keys| - 1] == PairKey(hash, members[i], members[j]);
    }
  }

  lemma StringOrderIsTotal()
    ensures Sorting.TotalPreorder(Sorting.StringLeq)
    ensures forall a, b :: Sorting.StringLeq(a, b) && Sorting.StringLeq(b, a) ==> a == b
  {
    forall a, b
      ensures Sorting.StringLeq(a, b) || Sorting.StringLeq(b, a)
      ensures Sorting.StringLeq(a, b) && Sorting.StringLeq(b, a) ==> a == b
    {
      Sorting.StringLeqTotal(a, b);
    }
    forall a, b, c | Sorting.StringLeq(a, b) && Sorting.StringLeq(b, c) ensures Sorting.StringLeq(a, c) {
      Sorting.StringLeqTransitive(a, b, c);
    }
  }

  lemma {:induction false} DistinctMultiset(s: seq<string>)
    requires forall i, j :: 0 <= i < j < |s| ==> s[i] != s[j]
    ensures multiset(s) == multiset(set x | x in s)
  {
    if s != [] {
      var front, last := s[..|s| - 1], s[|s| - 1];
      DistinctMultiset(front);
      assert s == front + [last];
      assert last !in front;
      assert (set x | x in s) == (set x | x in front) + {last};
    }
  }

  /** The keys of a subteam depend only on who is in it: not on the order, and not on repetitions. */
  lemma PairKeysForgetOrder(a: seq<string>, b: seq<string>)
    requires (set x | x in a) == (set x | x in b)
    ensures Members(a) == Members(b)
  {
    DedupeKeeps(a);
    DedupeKeeps(b);
    DistinctMultiset(Dedupe(a));
    DistinctMultiset(Dedupe(b));
    assert (set x | x in Dedupe(a)) == (set x | x in a) && (set x | x in Dedupe(b)) == (set x | x in b);
    StringOrderIsTotal();
    Sorting.SortForgetsOrder(Dedupe(a), Dedupe(b), Sorting.StringLeq);
  }

  /** Any two different players of a subteam have a key, and it is the same whichever is named first. */
  lemma EveryPairIsKeyed(hash: string -> string, ids: seq<string>, a: string, b: string)
    requires a in ids && b in ids && a != b
    ensures PairKey(hash, a, b) == PairKey(hash, b, a)
    ensures PairKey(hash, a, b) in AllKeys(hash, Members(ids), |Members(ids)|)
  {
    var members := Members(ids);
    StringOrderIsTotal();
    DedupeKeeps(ids);
    Sorting.SortPermutes(Dedupe(ids), Sorting.StringLeq);
    assert a in members && b in members;
    var i :| 0 <= i < |members| && members[i] == a;
    var j :| 0 <= j < |members| && members[j] == b;
    if i < j {
      PairIsKeyed(hash, members, i, j, |members|);
    } else {
      PairIsKeyed(hash, members, j, i, |members|);
    }
  }

  lemma FirstComma(a: string, b: string)
    requires ',' !in a
    ensures (a + "," + b)[|a|] == ',' && forall k :: 0 <= k < |a| ==> (a + "," + b)[k] != ','
  {
    assert forall k :: 0 <= k < |a| ==> (a + "," + b)[k] == a[k];
  }

  /** Two ids without a comma can be read back from what stands for their pair. */
  lemma CommaSeparates(a: string, b: string, c: string, d: string)
    requires ',' !in a && ',' !in c && a + "," + b == c + "," + d
    ensures a == c && b == d
  {
    var ab, cd := a + "," + b, c + "," + d;
    FirstComma(a, b);
    FirstComma(c, d);
    assert |a| == |c|;
    assert a == ab[..|a|] && c == cd[..|c|] && b == ab[|a| + 1..] && d == cd[|c| + 1..];
  }

  /** With a hash that has no collisions and ids without commas, a key belongs to one pair of players only. */
  lemma KeyNamesItsPair(hash: string -> string, a: string, b: string, c: string, d: string)
    requires forall x, y :: hash(x) == hash(y) ==> x == y
    requires forall id <- [a, b, c, d] :: ',' !in id
    ensures PairKey(hash, a, b) == PairKey(hash, c, d) <==> {a, b} == {c, d}
  {
    assert [a, b, c, d][0] == a && [a, b, c, d][1] == b && [a, b, c, d][2] == c && [a, b, c, d][3] == d;
    var (x, y) := if Sorting.StringLeq(a, b) then (a, b) else (b, a);
    var (z, w) := if Sorting.StringLeq(c, d) then (c, d) else (d, c);
    Sorting.StringLeqTotal(a, b);
    Sorting.StringLeqTotal(c, d);
    assert {a, b} == {x, y} && {c, d} == {z, w};
    if PairKey(hash, a, b) == PairKey(hash, c, d) {
      CommaSeparates(x, y, z, w);
    }
    if {x, y} == {z, w} {
      assert x in {z, w} && y in {z, w} && z in {x, y} && w in {x, y};
    }
  }

  /** Then a subteam's keys are those of its pairs and no others. */
  lemma OnlyPairsAreKeyed(hash: string -> string, ids: seq<string>, a: string, b: string)
    requires forall x, y :: hash(x) == hash(y) ==> x == y
    requires ',' !in a && ',' !in b && forall id <- ids :: ',' !in id
    ensures PairKey(hash, a, b) in AllKeys(hash, Members(ids), |Members(ids)|) <==> a in ids && b in ids && a != b
  {
    var members := Members(ids);
    MembersAreTheIds(ids);
    if a in ids && b in ids && a != b { EveryPairIsKeyed(hash, ids, a, b); }
    if PairKey(hash, a, b) in AllKeys(hash, members, |members|) {
      var i, j := KeyHasPair(hash, members, |members|, PairKey(hash, a, b));
      assert members[i] in members && members[j] in members;
      KeyNamesItsPair(hash, a, b, members[i], members[j]);
      var pair := {members[i], members[j]};
      assert a in pair && b in pair && members[i] in {a, b} && members[j] in {a, b};
    }
  }

  lemma RepeatCounts(s: seq<string>, i: nat, j: nat)
    requires i < j < |s| && s[i] == s[j]
    ensures multiset(s)[s[i]] >= 2
  {
    assert s == s[..i] + [s[i]] + s[i + 1..j] + [s[j]] + s[j + 1..];
  }

  lemma MembersAreTheIds(ids: seq<string>)
    ensures forall id :: id in Members(ids) <==> id in ids
    ensures forall i, j :: 0 <= i < j < |Members(ids)| ==> Members(ids)[i] != Members(ids)[j]
  {
    hide Dedupe, Sorting.Sorted;
    DedupeKeeps(ids);
    Sorting.SortPermutes(Dedupe(ids), Sorting.StringLeq);
    DistinctMultiset(Dedupe(ids));
    var members := Members(ids);
    forall i, j | 0 <= i < j < |members| ensures members[i] != members[j] {
      if members[i] == members[j] { RepeatCounts(members, i, j); }
    }
  }

  lemma {:induction false} KeyHasPair(hash: string -> string, members: seq<string>, upTo: nat, key: string)
    returns (i: nat, j: nat)
    requires upTo <= |members| && key in AllKeys(hash, members, upTo)
    ensures i < j < |members| && key == PairKey(hash, members[i], members[j])
    decreases upTo
  {
    if key in KeysOf(hash, members, upTo - 1, |members|) {
      i := upTo - 1;
      j := LaterOfPair(hash, members, i, |members|, key);
    } else {
      i, j := KeyHasPair(hash, members, upTo - 1, key);
    }
  }

  lemma {:induction false} LaterOfPair(hash: string -> string, members: seq<string>, i: nat, upTo: nat, key: string)
    returns (j: nat)
    requires i < upTo <= |members| && key in KeysOf(hash, members, i, upTo)
    ensures i < j < |members| && key == PairKey(hash, members[i], members[j])
    decreases upTo
  {
    if key == PairKey(hash, members[i], members[upTo - 1]) && upTo > i + 1 {
      j := upTo - 1;
    } else {
      j := LaterOfPair(hash, members, i, upTo - 1, key);
    }
  }
}
