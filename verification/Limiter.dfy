/**
 The limiter around the bucket scripts (backend/arena/riot/rate_limit.py, RedisTokenBucketLimiter):
 an acquire takes one pass after another over all its buckets until a pass is granted everywhere.
 The Redis database and the server clock are fields; `lag(i)` is how long the i-th script call takes
 to reach the server.
 */
module Limiter {
  import opened Wrappers
  import opened RateLimit

  /** The Redis hashes, the clock, and how many scripts have run. */
  datatype World = World(keys: map<string, Hash>, now: real, calls: nat)

  const KEY_PREFIX := "riot:ratelimit"

  function Suffix(apiKey: string): string {
    if apiKey == "" then "anon" else if |apiKey| > 8 then apiKey[|apiKey| - 8..] else apiKey
  }

  function KeyName(apiKey: string, bucket: string): string {
    KEY_PREFIX + ":" + Suffix(apiKey) + ":" + bucket
  }

  /** Two API keys that share their buckets: they are the same or end in the same eight characters. */
  ghost predicate SameOwner(a: string, b: string) {
    || a == b
    || (|a| >= 8 && |b| >= 8 && a[|a| - 8..] == b[|b| - 8..])
    || {a, b} == {"", "anon"}
  }

  lemma FirstColon(a: string, x: string)
    requires ':' !in a
    ensures (a + ":" + x)[|a|] == ':' && forall k :: 0 <= k < |a| ==> (a + ":" + x)[k] != ':'
  {
    assert forall k :: 0 <= k < |a| ==> (a + ":" + x)[k] == a[k];
  }

  lemma ColonSeparates(a: string, x: string, b: string, y: string)
    requires ':' !in a && ':' !in b && a + ":" + x == b + ":" + y
    ensures a == b && x == y
  {
    var ax, bx := a + ":" + x, b + ":" + y;
    FirstColon(a, x);
    FirstColon(b, y);
    assert |a| == |b|;
    assert a == ax[..|a|] && b == bx[..|b|] && x == ax[|a| + 1..] && y == bx[|b| + 1..];
  }

  lemma SuffixIsOwner(a: string, b: string)
    ensures Suffix(a) == Suffix(b) <==> SameOwner(a, b)
  {
    assert |"anon"| == 4;
    if {a, b} == {"", "anon"} { assert a in {"", "anon"} && b in {"", "anon"}; }
    if Suffix(a) == Suffix(b) && a != b && |a| <= 8 && |b| <= 8 { assert a in {"", "anon"} && b in {"", "anon"}; }
  }

  lemma PrefixCancels(front: string, s: string, t: string)
    requires front + s == front + t
    ensures s == t
  {
    assert (front + s)[|front|..] == s && (front + t)[|front|..] == t;
  }

  /** Each bucket of each owner has a key of its own, as long as API keys contain no colon. */
  lemma KeysAreOwn(a: string, x: string, b: string, y: string)
    requires ':' !in a && ':' !in b
    ensures KeyName(a, x) == KeyName(b, y) <==> SameOwner(a, b) && x == y
  {
    SuffixIsOwner(a, b);
    NoColon(a);
    NoColon(b);
    if KeyName(a, x) == KeyName(b, y) {
      hide Suffix, SameOwner;
      var front, s, t := KEY_PREFIX + ":", Suffix(a) + ":" + x, Suffix(b) + ":" + y;
      assert KeyName(a, x) == front + s && KeyName(b, y) == front + t;
      PrefixCancels(front, s, t);
      ColonSeparates(Suffix(a), x, Suffix(b), y);
    }
  }

  lemma NoColon(apiKey: string)
    requires ':' !in apiKey
    ensures ':' !in Suffix(apiKey)
  {
  }

  function Lookup(keys: map<string, Hash>, name: string): Key {
    if name in keys then Some(keys[name]) else None
  }

  /** Configured buckets among the named ones; the rest are ignored. */
  function Applicable(buckets: map<string, TokenBucketConfig>, names: seq<string>): seq<TokenBucketConfig> {
    if names == [] then []
    else (if names[0] in buckets then [buckets[names[0]]] else []) + Applicable(buckets, names[1..])
  }

  ghost predicate AllValid(cfgs: seq<TokenBucketConfig>) {
    forall c <- cfgs :: c.Valid()
  }

  /** `at` are the places from `lo` on at which a list of names has configured buckets, and `cfgs` those buckets. */
  ghost predicate ListsConfigured(buckets: map<string, TokenBucketConfig>, names: seq<string>, lo: nat, at: seq<nat>,
                                  cfgs: seq<TokenBucketConfig>)
  {
    && |cfgs| == |at| && (forall i, j :: 0 <= i < j < |at| ==> at[i] < at[j])
    && (forall i :: 0 <= i < |at| ==>
         lo <= at[i] < |names| && names[at[i]] in buckets && cfgs[i] == buckets[names[at[i]]])
    && (forall k: nat :: lo <= k < |names| && names[k] in buckets ==> k in at)
  }

  lemma OneMoreListed(buckets: map<string, TokenBucketConfig>, names: seq<string>, lo: nat, at: seq<nat>,
                      cfgs: seq<TokenBucketConfig>)
    requires lo < |names| && ListsConfigured(buckets, names, lo + 1, at, cfgs)
    ensures if names[lo] in buckets then ListsConfigured(buckets, names, lo, [lo] + at, [buckets[names[lo]]] + cfgs)
            else ListsConfigured(buckets, names, lo, at, cfgs)
  {
    forall k: nat | lo <= k < |names| && names[k] in buckets ensures k in [lo] + at {
      if k == lo { assert ([lo] + at)[0] == k; } else { assert k in at; }
    }
  }

  lemma {:induction false} ApplicableFrom(buckets: map<string, TokenBucketConfig>, names: seq<string>, lo: nat)
    returns (at: seq<nat>)
    requires lo <= |names|
    ensures ListsConfigured(buckets, names, lo, at, Applicable(buckets, names[lo..]))
    decreases |names| - lo
  {
    if lo == |names| {
      at := [];
    } else {
      hide ListsConfigured;
      at := ApplicableFrom(buckets, names, lo + 1);
      OneMoreListed(buckets, names, lo, at, Applicable(buckets, names[lo + 1..]));
      assert names[lo..][1..] == names[lo + 1..];
      if names[lo] in buckets {
        at := [lo] + at;
      } else {
        assert [] + Applicable(buckets, names[lo + 1..]) == Applicable(buckets, names[lo + 1..]);
      }
    }
  }

  /** An acquire is for every configured bucket it names, as often as it names it and in that order, and no other. */
  lemma ApplicableIsConfigured(buckets: map<string, TokenBucketConfig>, names: seq<string>) returns (at: seq<nat>)
    ensures ListsConfigured(buckets, names, 0, at, Applicable(buckets, names))
  {
    at := ApplicableFrom(buckets, names, 0);
    assert names[0..] == names;
  }

  /** So every named configured bucket is among them. */
  lemma NamedIsApplicable(buckets: map<string, TokenBucketConfig>, names: seq<string>, name: string)
    ensures name in names && name in buckets ==> buckets[name] in Applicable(buckets, names)
    ensures forall c <- Applicable(buckets, names) ::
              exists name :: name in names && name in buckets && c == buckets[name]
  {
    hide Applicable;
    var at := ApplicableIsConfigured(buckets, names);
    var cfgs := Applicable(buckets, names);
    if name in names && name in buckets {
      var k: nat :| k < |names| && names[k] == name;
      assert k in at;
      var i :| 0 <= i < |at| && at[i] == k;
      assert cfgs[i] == buckets[name];
    }
    forall c | c in cfgs ensures exists name :: name in names && name in buckets && c == buckets[name] {
      var i :| 0 <= i < |cfgs| && cfgs[i] == c;
      assert names[at[i]] in names;
    }
  }

  /** One acquire script call, `lag` after the caller sends it. */
  function TryBucket(w: World, cfg: TokenBucketConfig, keyTtl: nat, apiKey: string, n: nat, lag: real): (World, Reply)
    requires cfg.Valid()
  {
    var name, at := KeyName(apiKey, cfg.name), w.now + lag;
    var (k, reply) := TryScript(cfg.Args(), keyTtl, Lookup(w.keys, name), at, n);
    (World(w.keys[name := k.value], at, w.calls + 1), reply)
  }

  /** One pass over the buckets in order, with every reply. */
  function Pass(w: World, cfgs: seq<TokenBucketConfig>, keyTtl: nat, apiKey: string, n: nat, lag: nat -> real)
    : (r: (World, seq<Reply>))
    requires AllValid(cfgs)
    ensures |r.1| == |cfgs|
    decreases |cfgs|
  {
    if cfgs == [] then (w, [])
    else
      var (w1, reply) := TryBucket(w, cfgs[0], keyTtl, apiKey, n, lag(w.calls));
      var (w2, replies) := Pass(w1, cfgs[1..], keyTtl, apiKey, n, lag);
      (w2, [reply] + replies)
  }

  /** The seconds a reply asks its caller to wait. */
  function Wait(reply: Reply): real {
    if reply.available then 0.0 else reply.waitMs as real / 1000.0
  }

  function Longest(replies: seq<Reply>): real {
    if replies == [] then 0.0
    else if |replies| == 1 then Wait(replies[0])
    else Max(Wait(replies[0]), Longest(replies[1..]))
  }

  /** At most `passes` passes of the acquire loop, and whether it has returned by then. */
  function AcquireLoop(w: World, cfgs: seq<TokenBucketConfig>, keyTtl: nat, maxWait: real, apiKey: string,
                       n: nat, lag: nat -> real, passes: nat): (World, bool)
    requires AllValid(cfgs)
    decreases passes
  {
    if passes == 0 then (w, false)
    else
      var (w1, replies) := Pass(w, cfgs, keyTtl, apiKey, n, lag);
      if Longest(replies) <= 0.0 then (w1, true)
      else AcquireLoop(w1.(now := w1.now + Min(Longest(replies), maxWait)), cfgs, keyTtl, maxWait, apiKey,
                       n, lag, passes - 1)
  }

  /** The penalty script on each bucket in turn, with the longest penalty left. */
  function PenalizeAll(w: World, cfgs: seq<TokenBucketConfig>, keyTtl: nat, apiKey: string, seconds: real,
                       lag: nat -> real): (World, real)
    requires seconds > 0.0
  {
    if cfgs == [] then (w, 0.0)
    else
      var front := PenalizeAll(w, cfgs[..|cfgs| - 1], keyTtl, apiKey, seconds, lag);
      var name, at := KeyName(apiKey, cfgs[|cfgs| - 1].name), front.0.now + lag(front.0.calls);
      var (k, ms) := PenalizeScript(PenaltyTtl(keyTtl, seconds), Lookup(front.0.keys, name), at, seconds);
      (World(front.0.keys[name := k.value], at, front.0.calls + 1), Max(front.1, ms as real / 1000.0))
  }

  class RedisTokenBucketLimiter {
    const buckets: map<string, TokenBucketConfig>
    const keyTtl: nat
    const maxWait: real
    var keys: map<string, Hash>
    var now: real
    var calls: nat

    ghost predicate Valid() {
      forall name <- buckets :: buckets[name].Valid()
    }

    function State(): World
      reads this
    {
      World(keys, now, calls)
    }

    constructor (buckets: map<string, TokenBucketConfig>, keyTtl: nat, maxWait: real, now: real)
      requires forall name <- buckets :: buckets[name].Valid()
      ensures Valid() && this.buckets == buckets && this.keyTtl == keyTtl && this.maxWait == maxWait
      ensures State() == World(map[], now, 0)
    {
      this.buckets, this.keyTtl, this.maxWait := buckets, keyTtl, maxWait;
      this.keys, this.now, this.calls := map[], now, 0;
    }

    method FindApplicable(names: seq<string>) returns (cfgs: seq<TokenBucketConfig>)
      requires Valid()
      ensures cfgs == Applicable(buckets, names) && AllValid(cfgs)
    {
      cfgs := [];
      for i := 0 to |names|
        invariant AllValid(cfgs)
        invariant cfgs + Applicable(buckets, names[i..]) == Applicable(buckets, names)
      {
        assert names[i..][1..] == names[i + 1..];
        if names[i] in buckets { cfgs := cfgs + [buckets[names[i]]]; }
      }
    }

    /** `_try_bucket`: 0.0 when consumed, else the seconds to wait. */
    method TryOne(apiKey: string, cfg: TokenBucketConfig, n: nat, lag: real) returns (wait: real)
      requires cfg.Valid()
      modifies this
      ensures (State(), wait) == (TryBucket(old(State()), cfg, keyTtl, apiKey, n, lag).0,
                                  Wait(TryBucket(old(State()), cfg, keyTtl, apiKey, n, lag).1))
    {
      var name := KeyName(apiKey, cfg.name);
      now := now + lag;
      var (k, reply) := TryScript(cfg.Args(), keyTtl, Lookup(keys, name), now, n);
      keys := keys[name := k.value];
      calls := calls + 1;
      wait := if reply.available then 0.0 else reply.waitMs as real / 1000.0;
    }

    /** One pass of the acquire loop; the longest wait any bucket asks for. */
    method OnePass(apiKey: string, cfgs: seq<TokenBucketConfig>, n: nat, lag: nat -> real) returns (longest: real)
      requires AllValid(cfgs)
      modifies this
      ensures State() == Pass(old(State()), cfgs, keyTtl, apiKey, n, lag).0
      ensures longest == Longest(Pass(old(State()), cfgs, keyTtl, apiKey, n, lag).1)
    {
      hide TryBucket;
      longest := 0.0;
      ghost var replies: seq<Reply> := [];
      ghost var whole := Pass(State(), cfgs, keyTtl, apiKey, n, lag);
      var i := 0;
      while i < |cfgs|
        invariant i <= |cfgs| && |replies| == i && longest == Longest(replies)
        invariant whole.0 == Pass(State(), cfgs[i..], keyTtl, apiKey, n, lag).0
        invariant whole.1 == replies + Pass(State(), cfgs[i..], keyTtl, apiKey, n, lag).1
      {
        PassUnfolds(State(), cfgs, i, keyTtl, apiKey, n, lag);
        ghost var reply := TryBucket(State(), cfgs[i], keyTtl, apiKey, n, lag(calls)).1;
        var wait := TryOne(apiKey, cfgs[i], n, lag(calls));
        longest := if i == 0 then wait else Max(longest, wait);
        LongestAppends(replies, reply);
        replies := replies + [reply];
        i := i + 1;
      }
      assert cfgs[i..] == [] && replies + [] == replies;
    }

    /** The acquire loop, cut off after `passes` passes because it need not end. */
    method Acquire(apiKey: string, names: seq<string>, n: nat, lag: nat -> real, passes: nat) returns (done: bool)
      requires Valid()
      modifies this
      ensures AllValid(Applicable(buckets, names))
      ensures (State(), done) == if Applicable(buckets, names) == [] then (old(State()), true)
        else AcquireLoop(old(State()), Applicable(buckets, names), keyTtl, maxWait, apiKey, n, lag, passes)
    {
      var cfgs := FindApplicable(names);
      if cfgs == [] { return true; }
      var left := passes;
      while left > 0
        invariant AcquireLoop(State(), cfgs, keyTtl, maxWait, apiKey, n, lag, left)
               == AcquireLoop(old(State()), cfgs, keyTtl, maxWait, apiKey, n, lag, passes)
      {
        var longest := OnePass(apiKey, cfgs, n, lag);
        if longest <= 0.0 { return true; }
        now := now + Min(longest, maxWait);
        left := left - 1;
      }
      done := false;
    }

    /** The penalty on every named bucket; nothing happens for an empty penalty. */
    method Penalize(apiKey: string, names: seq<string>, seconds: real, lag: nat -> real) returns (longest: real)
      requires Valid()
      modifies this
      ensures (State(), longest) == if Applicable(buckets, names) == [] || seconds <= 0.0 then (old(State()), 0.0)
        else PenalizeAll(old(State()), Applicable(buckets, names), keyTtl, apiKey, seconds, lag)
    {
      hide KeyName, PenaltyTtl, PenalizeScript, Applicable;
      var cfgs := FindApplicable(names);
      longest := 0.0;
      if cfgs == [] || seconds <= 0.0 { return; }
      var ttl := PenaltyTtl(keyTtl, seconds);
      for i := 0 to |cfgs|
        invariant (State(), longest) == PenalizeAll(old(State()), cfgs[..i], keyTtl, apiKey, seconds, lag)
      {
        assert cfgs[..i + 1][..i] == cfgs[..i];
        var name := KeyName(apiKey, cfgs[i].name);
        now := now + lag(calls);
        var (k, ms) := PenalizeScript(ttl, Lookup(keys, name), now, seconds);
        keys := keys[name := k.value];
        calls := calls + 1;
        longest := Max(longest, ms as real / 1000.0);
      }
      assert cfgs[..|cfgs|] == cfgs;
    }
  }

  lemma PassUnfolds(w: World, cfgs: seq<TokenBucketConfig>, i: nat, keyTtl: nat, apiKey: string, n: nat,
                    lag: nat -> real)
    requires AllValid(cfgs) && i < |cfgs|
    ensures var (w1, reply) := TryBucket(w, cfgs[i], keyTtl, apiKey, n, lag(w.calls));
            var rest := Pass(w1, cfgs[i + 1..], keyTtl, apiKey, n, lag);
            Pass(w, cfgs[i..], keyTtl, apiKey, n, lag) == (rest.0, [reply] + rest.1)
  {
    assert cfgs[i..][1..] == cfgs[i + 1..];
  }

  lemma {:induction false} LongestAppends(replies: seq<Reply>, reply: Reply)
    ensures Longest(replies + [reply]) == if replies == [] then Wait(reply) else Max(Longest(replies), Wait(reply))
  {
    if |replies| > 0 {
      assert (replies + [reply])[1..] == replies[1..] + [reply];
      LongestAppends(replies[1..], reply);
    }
  }

  // ---- What a penalty leaves ----

  /** A bucket is empty and does not refill before `until`, and its key lives up to `expires`. */
  ghost predicate EmptyUntil(k: Key, until: real, expires: real) {
    k.Some? && k.value.tokens == 0.0 && k.value.ts >= until && k.value.expiresAt >= expires
  }

  /** The refill clock of a bucket, no earlier than a given time. */
  function ReleaseFrom(k: Key, time: real): real {
    if k.Some? then Max(k.value.ts, time) else time
  }

  lemma PenaltyEmpties(ttl: nat, k: Key, at: real, seconds: real)
    requires seconds > 0.0
    ensures var (k', ms) := PenalizeScript(ttl, k, at, seconds);
            && EmptyUntil(k', at + seconds, at + ttl as real)
            && k'.value.ts <= ReleaseFrom(k, at + seconds)
            && k'.value.ts - at <= ms as real / 1000.0 < k'.value.ts - at + 0.001
            && (Live(k, at).Some? ==> k'.value.ts >= k.value.ts)
  {
  }

  /** What a penalty does to the hash of one bucket: k before, k' after, between w and w'. */
  ghost predicate FrozenKey(w: World, w': World, k: Key, k': Key, ttl: nat, seconds: real, longest: real) {
    && EmptyUntil(k', w.now + seconds, w.now + ttl as real)
    && k'.value.ts - w'.now <= longest
    && k'.value.ts <= ReleaseFrom(k, w'.now + seconds)
    && (Live(k, w'.now).Some? && ttl as real >= w'.now - w.now ==> k'.value.ts >= k.value.ts)
  }

  /** The reply is no more than what is left for some bucket, rounded up to the millisecond. */
  ghost predicate LeftSomewhere(w: World, cfgs: seq<TokenBucketConfig>, apiKey: string, seconds: real, longest: real) {
    if cfgs == [] then longest == 0.0
    else
      exists c :: && c in cfgs
                  && longest < ReleaseFrom(Lookup(w.keys, KeyName(apiKey, c.name)), w.now + seconds) - w.now + 0.001
  }

  /** Every bucket is frozen, other keys are as they were, and the reply is the longest time left. */
  ghost predicate Punished(w: World, w': World, cfgs: seq<TokenBucketConfig>, apiKey: string, ttl: nat, seconds: real,
                           longest: real)
  {
    && w.now <= w'.now && longest >= 0.0 && LeftSomewhere(w, cfgs, apiKey, seconds, longest)
    && (forall c <- cfgs :: var name := KeyName(apiKey, c.name);
         FrozenKey(w, w', Lookup(w.keys, name), Lookup(w'.keys, name), ttl, seconds, longest))
    && (forall name :: (forall c <- cfgs :: KeyName(apiKey, c.name) != name) ==>
         Lookup(w'.keys, name) == Lookup(w.keys, name))
  }

  /** One more script call, on a key that was untouched or frozen before. */
  lemma FreezeOne(w: World, w1: World, k0: Key, k1: Key, ttl: nat, seconds: real, longest: real, at: real)
    requires seconds > 0.0 && w.now <= w1.now <= at
    requires k1 == k0 || FrozenKey(w, w1, k0, k1, ttl, seconds, longest)
    ensures var (k2, ms) := PenalizeScript(ttl, k1, at, seconds);
            && FrozenKey(w, w1.(now := at), k0, k2, ttl, seconds, ms as real / 1000.0)
            && 0.0 < ms as real / 1000.0 < ReleaseFrom(k0, w.now + seconds) - w.now + 0.001
  {
    hide PenalizeScript;
    PenaltyEmpties(ttl, k1, at, seconds);
  }

  lemma LeftMore(w: World, cfgs: seq<TokenBucketConfig>, c: TokenBucketConfig, apiKey: string, seconds: real,
                 longest: real, more: real)
    requires LeftSomewhere(w, cfgs, apiKey, seconds, longest)
    requires 0.0 < more < ReleaseFrom(Lookup(w.keys, KeyName(apiKey, c.name)), w.now + seconds) - w.now + 0.001
    ensures LeftSomewhere(w, cfgs + [c], apiKey, seconds, Max(longest, more))
  {
    hide KeyName, ReleaseFrom;
    assert c in cfgs + [c];
    if cfgs != [] && longest > more {
      var d :| && d in cfgs
               && longest < ReleaseFrom(Lookup(w.keys, KeyName(apiKey, d.name)), w.now + seconds) - w.now + 0.001;
      assert d in cfgs + [c];
    }
  }

  lemma PunishOneMore(w: World, w1: World, cfgs: seq<TokenBucketConfig>, c: TokenBucketConfig, apiKey: string,
                      ttl: nat, seconds: real, longest: real, lag: real)
    requires Punished(w, w1, cfgs, apiKey, ttl, seconds, longest) && seconds > 0.0 && lag >= 0.0
    ensures var name, at := KeyName(apiKey, c.name), w1.now + lag;
            var (k, ms) := PenalizeScript(ttl, Lookup(w1.keys, name), at, seconds);
            Punished(w, World(w1.keys[name := k.value], at, w1.calls + 1), cfgs + [c], apiKey, ttl, seconds,
                     Max(longest, ms as real / 1000.0))
  {
    hide PenalizeScript, KeyName, ReleaseFrom, EmptyUntil, LeftSomewhere;
    var name, at := KeyName(apiKey, c.name), w1.now + lag;
    var (k, ms) := PenalizeScript(ttl, Lookup(w1.keys, name), at, seconds);
    var w' := World(w1.keys[name := k.value], at, w1.calls + 1);
    FreezeOne(w, w1, Lookup(w.keys, name), Lookup(w1.keys, name), ttl, seconds, longest, at);
    LeftMore(w, cfgs, c, apiKey, seconds, longest, ms as real / 1000.0);
    var most, more := Max(longest, ms as real / 1000.0), cfgs + [c];
    assert Lookup(w'.keys, name) == k;
    assert c in more && forall d <- cfgs :: d in more;
    forall d | d in more
      ensures var other := KeyName(apiKey, d.name);
              FrozenKey(w, w', Lookup(w.keys, other), Lookup(w'.keys, other), ttl, seconds, most)
    {
      var other := KeyName(apiKey, d.name);
      if other != name {
        assert d in cfgs && Lookup(w'.keys, other) == Lookup(w1.keys, other);
        StaysFrozen(w, w1, w', Lookup(w.keys, other), Lookup(w1.keys, other), ttl, seconds, longest, most);
      }
    }
    forall other | forall d <- more :: KeyName(apiKey, d.name) != other
      ensures Lookup(w'.keys, other) == Lookup(w.keys, other)
    {
      assert Lookup(w'.keys, other) == Lookup(w1.keys, other);
    }
  }

  lemma StaysFrozen(w: World, w1: World, w2: World, k: Key, k': Key, ttl: nat, seconds: real, longest: real, more: real)
    requires FrozenKey(w, w1, k, k', ttl, seconds, longest) && w1.now <= w2.now && longest <= more
    ensures FrozenKey(w, w2, k, k', ttl, seconds, more)
  {
  }

  lemma {:induction false} PenaltyPunishes(w: World, cfgs: seq<TokenBucketConfig>, keyTtl: nat, apiKey: string,
                                           seconds: real, lag: nat -> real)
    requires seconds > 0.0 && forall i :: lag(i) >= 0.0
    ensures var (w', longest) := PenalizeAll(w, cfgs, keyTtl, apiKey, seconds, lag);
            Punished(w, w', cfgs, apiKey, PenaltyTtl(keyTtl, seconds), seconds, longest)
  {
    hide Punished, PenalizeScript, KeyName, PenaltyTtl;
    if cfgs == [] {
      NobodyPunished(w, apiKey, PenaltyTtl(keyTtl, seconds), seconds);
    } else {
      var front, c := cfgs[..|cfgs| - 1], cfgs[|cfgs| - 1];
      PenaltyPunishes(w, front, keyTtl, apiKey, seconds, lag);
      var (w1, longest) := PenalizeAll(w, front, keyTtl, apiKey, seconds, lag);
      PunishOneMore(w, w1, front, c, apiKey, PenaltyTtl(keyTtl, seconds), seconds, longest, lag(w1.calls));
      assert front + [c] == cfgs;
    }
  }

  lemma NobodyPunished(w: World, apiKey: string, ttl: nat, seconds: real)
    ensures Punished(w, w, [], apiKey, ttl, seconds, 0.0)
  {
  }

  /**
   A penalty on some names freezes exactly the keys an acquire with the same API key reads for them: until `seconds`
   from the call on, and for as long as a standing penalty that is live, each of these buckets holds no token. The
   reply covers what is left of each of them, and is less than a millisecond more than what was left for some.
   */
  lemma PenaltyReachesNamed(w: World, buckets: map<string, TokenBucketConfig>, names: seq<string>, name: string,
                            keyTtl: nat, apiKey: string, seconds: real, lag: nat -> real, t: real)
    requires seconds > 0.0 && forall i :: lag(i) >= 0.0
    requires name in names && name in buckets && buckets[name].Valid()
    ensures var (w', longest) := PenalizeAll(w, Applicable(buckets, names), keyTtl, apiKey, seconds, lag);
            var key := KeyName(apiKey, buckets[name].name);
            var k, k' := Lookup(w.keys, key), Lookup(w'.keys, key);
            && k'.Some? && k'.value.ts - w'.now <= longest
            && (t <= w.now + seconds ==> Avail(buckets[name].Args(), k', t) == 0.0)
            && (Live(k, w'.now).Some? && w'.now <= w.now + 2.0 * seconds && t <= k.value.ts && Live(k', t).Some? ==>
                 Avail(buckets[name].Args(), k', t) == 0.0)
            && (forall other :: (forall c <- Applicable(buckets, names) :: KeyName(apiKey, c.name) != other) ==>
                 Lookup(w'.keys, other) == Lookup(w.keys, other))
            && exists c :: && c in Applicable(buckets, names)
                           && longest < ReleaseFrom(Lookup(w.keys, KeyName(apiKey, c.name)), w.now + seconds)
                                        - w.now + 0.001
  {
    hide Applicable, PenalizeAll, KeyName;
    PenaltyPunishes(w, Applicable(buckets, names), keyTtl, apiKey, seconds, lag);
    NamedIsApplicable(buckets, names, name);
  }

  // ---- What a finished acquire means, and when one finishes ----

  ghost predicate KeysInRange(w: World, cfgs: seq<TokenBucketConfig>, apiKey: string)
    requires AllValid(cfgs)
  {
    forall c <- cfgs :: InRange(c.Args(), Lookup(w.keys, KeyName(apiKey, c.name)))
  }

  lemma {:induction false} LongestIsZero(replies: seq<Reply>)
    requires forall r <- replies :: !r.available ==> r.waitMs > 0
    ensures Longest(replies) <= 0.0 <==> forall r <- replies :: r.available
  {
    if |replies| > 1 {
      LongestIsZero(replies[1..]);
      assert forall r <- replies :: r == replies[0] || r in replies[1..];
    }
  }

  /** When a lone caller's request on one bucket can be served at the latest. */
  function Due(w: World, c: TokenBucketConfig, apiKey: string, n: nat): real
    requires c.Valid()
  {
    ServedFrom(c.Args(), Lookup(w.keys, KeyName(apiKey, c.name)), n, w.now)
  }

  /** Waiting does not move the due time: a denied request leaves it where it was. */
  lemma DeniedKeepsDue(cfg: Bucket, keyTtl: nat, k: Key, now: real, at: real, n: nat)
    requires cfg.Valid() && InRange(cfg, k) && n <= cfg.capacity && now <= at
    requires !Consume(cfg, keyTtl, k, at, n).1
    ensures at < ServedFrom(cfg, k, n, now)
    ensures ServedFrom(cfg, Consume(cfg, keyTtl, k, at, n).0, n, at) == ServedFrom(cfg, k, n, now)
  {
    ServedExactly(cfg, k, n, now, at);
    var h := k.value;
    if at > h.ts {
      var gained := cfg.Earned(at - h.ts);
      assert (n as real - h.tokens - gained) / cfg.rate == (n as real - h.tokens) / cfg.rate - (at - h.ts);
    }
  }

  lemma OneBucketPass(w: World, c: TokenBucketConfig, keyTtl: nat, apiKey: string, n: nat, lag: nat -> real)
    requires c.Valid()
    ensures var (w1, reply) := TryBucket(w, c, keyTtl, apiKey, n, lag(w.calls));
            Pass(w, [c], keyTtl, apiKey, n, lag) == (w1, [reply])
  {
    var w1 := TryBucket(w, c, keyTtl, apiKey, n, lag(w.calls)).0;
    assert [c][1..] == [] && Pass(w1, [], keyTtl, apiKey, n, lag) == (w1, []);
    assert forall r: Reply :: [r] + [] == [r];
  }

  /** m sleeps of the longest kind. */
  function Sleeps(m: nat, maxWait: real): real {
    m as real * maxWait
  }

  lemma OneMoreSleep(m: nat, maxWait: real)
    requires maxWait > 0.0
    ensures Sleeps(m + 1, maxWait) == Sleeps(m, maxWait) + maxWait && Sleeps(m, maxWait) >= 0.0 == Sleeps(0, maxWait)
  {
  }

  /** Some number of sleeps outlasts any time. */
  lemma SleepsCover(time: real, maxWait: real) returns (m: nat)
    requires maxWait > 0.0
    ensures time <= Sleeps(m, maxWait)
  {
    var q := time / maxWait;
    m := if q <= 0.0 then 0 else Ceil(q);
    assert q * maxWait == time;
    assert (m as real - q) * maxWait >= 0.0;
    assert m as real * maxWait == q * maxWait + (m as real - q) * maxWait;
  }

  /** A refused lone caller sleeps until its due time, or for as long as it sleeps at most. */
  lemma RefusedSleeps(w: World, c: TokenBucketConfig, keyTtl: nat, maxWait: real, apiKey: string, n: nat, lag: real)
    returns (w2: World)
    requires c.Valid() && KeysInRange(w, [c], apiKey) && n <= c.capacity && lag >= 0.0
    requires !TryBucket(w, c, keyTtl, apiKey, n, lag).1.available
    ensures var (w1, reply) := TryBucket(w, c, keyTtl, apiKey, n, lag);
            reply.waitMs > 0 && w2 == w1.(now := w1.now + Min(Wait(reply), maxWait))
    ensures KeysInRange(w2, [c], apiKey)
    ensures w.now < Due(w, c, apiKey, n)
    ensures || Due(w2, c, apiKey, n) <= w2.now
            || (Due(w2, c, apiKey, n) == Due(w, c, apiKey, n) && w2.now >= w.now + maxWait)
  {
    hide Bucket.Earned;
    var name, at := KeyName(apiKey, c.name), w.now + lag;
    var k := Lookup(w.keys, name);
    var k1 := Consume(c.Args(), keyTtl, k, at, n).0;
    var (w1, reply) := TryBucket(w, c, keyTtl, apiKey, n, lag);
    DeniedKeepsDue(c.Args(), keyTtl, k, w.now, at, n);
    AvailInRange(c.Args(), k, at);
    WaitCoversNeed(c.Args(), k1, n, at);
    w2 := w1.(now := w1.now + Min(Wait(reply), maxWait));
    assert Lookup(w2.keys, name) == k1;
  }

  /** With nobody else on its bucket, an acquire is through within `m + 1` passes of a due time `m` sleeps away. */
  lemma {:induction false} LoneCallerFinishesBy(w: World, c: TokenBucketConfig, keyTtl: nat, maxWait: real,
                                                apiKey: string, n: nat, lag: nat -> real, m: nat)
    requires c.Valid() && KeysInRange(w, [c], apiKey) && n <= c.capacity
    requires maxWait > 0.0 && forall i :: lag(i) >= 0.0
    requires Due(w, c, apiKey, n) <= w.now + Sleeps(m, maxWait)
    ensures AcquireLoop(w, [c], keyTtl, maxWait, apiKey, n, lag, m + 1).1
    decreases m
  {
    hide Bucket.Earned, TryBucket, Due, Sleeps, Pass, KeysInRange;
    OneMoreSleep(0, maxWait);
    OneBucketPass(w, c, keyTtl, apiKey, n, lag);
    if !TryBucket(w, c, keyTtl, apiKey, n, lag(w.calls)).1.available {
      var w2 := RefusedSleeps(w, c, keyTtl, maxWait, apiKey, n, lag(w.calls));
      assert m > 0;
      OneMoreSleep(m - 1, maxWait);
      LoneCallerFinishesBy(w2, c, keyTtl, maxWait, apiKey, n, lag, m - 1);
    }
  }

  lemma {:induction false} DeniedMustWait(w: World, cfgs: seq<TokenBucketConfig>, keyTtl: nat, apiKey: string,
                                          n: nat, lag: nat -> real)
    requires AllValid(cfgs)
    ensures forall r <- Pass(w, cfgs, keyTtl, apiKey, n, lag).1 :: !r.available ==> r.waitMs > 0
    decreases |cfgs|
  {
    if cfgs != [] {
      var (w1, reply) := TryBucket(w, cfgs[0], keyTtl, apiKey, n, lag(w.calls));
      var k := Lookup(w.keys, KeyName(apiKey, cfgs[0].name));
      var k1 := Consume(cfgs[0].Args(), keyTtl, k, w1.now, n).0;
      if !reply.available { WaitCoversNeed(cfgs[0].Args(), k1, n, w1.now); }
      DeniedMustWait(w1, cfgs[1..], keyTtl, apiKey, n, lag);
    }
  }

  lemma FinishedMeansAllAvailable(w: World, cfgs: seq<TokenBucketConfig>, keyTtl: nat, maxWait: real,
                                  apiKey: string, n: nat, lag: nat -> real)
    requires AllValid(cfgs)
    ensures AcquireLoop(w, cfgs, keyTtl, maxWait, apiKey, n, lag, 1).1
            <==> forall r <- Pass(w, cfgs, keyTtl, apiKey, n, lag).1 :: r.available
  {
    DeniedMustWait(w, cfgs, keyTtl, apiKey, n, lag);
    LongestIsZero(Pass(w, cfgs, keyTtl, apiKey, n, lag).1);
  }

  /** The pass called the script of a bucket, and each time it granted. */
  ghost predicate GrantedBy(cfgs: seq<TokenBucketConfig>, replies: seq<Reply>, c: TokenBucketConfig) {
    |replies| == |cfgs| && c in cfgs && forall i :: 0 <= i < |cfgs| && cfgs[i] == c ==> replies[i].available
  }

  /**
   The loop returns after a pass exactly when that one pass took its tokens from every bucket the acquire names and
   the limiter has.
   */
  lemma FinishedMeansGrantedByAll(w: World, buckets: map<string, TokenBucketConfig>, names: seq<string>, keyTtl: nat,
                                  maxWait: real, apiKey: string, n: nat, lag: nat -> real)
    requires AllValid(Applicable(buckets, names))
    ensures var cfgs := Applicable(buckets, names);
            AcquireLoop(w, cfgs, keyTtl, maxWait, apiKey, n, lag, 1).1
            <==> forall name :: name in names && name in buckets ==>
                   GrantedBy(cfgs, Pass(w, cfgs, keyTtl, apiKey, n, lag).1, buckets[name])
  {
    hide Applicable, Pass, AcquireLoop;
    var cfgs := Applicable(buckets, names);
    var replies := Pass(w, cfgs, keyTtl, apiKey, n, lag).1;
    FinishedMeansAllAvailable(w, cfgs, keyTtl, maxWait, apiKey, n, lag);
    forall name | name in names && name in buckets ensures buckets[name] in cfgs {
      NamedIsApplicable(buckets, names, name);
    }
    NamedIsApplicable(buckets, names, "");
    assert forall i :: 0 <= i < |replies| ==> replies[i] in replies && cfgs[i] in cfgs;
  }

  /** A request larger than the bucket is never granted. */
  lemma {:induction false} TooLargeNeverFinishes(w: World, c: TokenBucketConfig, keyTtl: nat, maxWait: real,
                                                 apiKey: string, n: nat, lag: nat -> real, passes: nat)
    requires c.Valid() && KeysInRange(w, [c], apiKey) && n > c.capacity
    ensures !AcquireLoop(w, [c], keyTtl, maxWait, apiKey, n, lag, passes).1
    decreases passes
  {
    if passes > 0 {
      var name, at := KeyName(apiKey, c.name), w.now + lag(w.calls);
      var k := Lookup(w.keys, name);
      var (w1, reply) := TryBucket(w, c, keyTtl, apiKey, n, lag(w.calls));
      AvailInRange(c.Args(), k, at);
      OneBucketPass(w, c, keyTtl, apiKey, n, lag);
      WaitCoversNeed(c.Args(), Consume(c.Args(), keyTtl, k, at, n).0, n, at);
      TooLargeNeverFinishes(w1.(now := w1.now + Min(Wait(reply), maxWait)), c, keyTtl, maxWait, apiKey, n, lag,
                            passes - 1);
    }
  }

  /** A lone caller on one bucket gets through in finitely many passes exactly when its request fits the bucket. */
  lemma LoneCallerFinishesIff(w: World, c: TokenBucketConfig, keyTtl: nat, maxWait: real, apiKey: string, n: nat,
                              lag: nat -> real)
    requires c.Valid() && KeysInRange(w, [c], apiKey)
    requires maxWait > 0.0 && forall i :: lag(i) >= 0.0
    ensures (exists passes :: AcquireLoop(w, [c], keyTtl, maxWait, apiKey, n, lag, passes).1) <==> n <= c.capacity
  {
    if n <= c.capacity {
      hide Sleeps, Due;
      var m := SleepsCover(Due(w, c, apiKey, n) - w.now, maxWait);
      LoneCallerFinishesBy(w, c, keyTtl, maxWait, apiKey, n, lag, m);
    } else {
      forall passes ensures !AcquireLoop(w, [c], keyTtl, maxWait, apiKey, n, lag, passes).1 {
        TooLargeNeverFinishes(w, c, keyTtl, maxWait, apiKey, n, lag, passes);
      }
    }
  }

  // ---- With two buckets it need not ----

  const SLOW_A := TokenBucketConfig("A", 1, 10.0)
  const SLOW_B := TokenBucketConfig("B", 1, 10.0)
  const NAME_A := KeyName("", "A")
  const NAME_B := KeyName("", "B")

  /** A bucket with exactly one token, its refill clock at the present. */
  ghost predicate Ready(k: Key, now: real) {
    Avail(SLOW_A.Args(), k, now) == 1.0 && RefillTs(k, now) == now
  }

  /** A bucket that was emptied five seconds ago. */
  ghost predicate Behind(k: Key, now: real) {
    Live(k, now).Some? && k.value.tokens == 0.0 && k.value.ts == now - 5.0
  }

  lemma ReadyTry(keyTtl: nat, k: Key, now: real)
    requires keyTtl >= 10 && Ready(k, now)
    ensures var (k', reply) := TryScript(SLOW_A.Args(), keyTtl, k, now, 1);
            k'.Some? && reply.available && Behind(k', now + 5.0)
  {
  }

  lemma BehindTry(keyTtl: nat, k: Key, now: real)
    requires keyTtl >= 10 && Behind(k, now)
    ensures var (k', reply) := TryScript(SLOW_A.Args(), keyTtl, k, now, 1);
            k'.Some? && reply == Reply(false, 5000) && Ready(k', now + 5.0)
  {
    assert Avail(SLOW_A.Args(), k, now) == 0.5;
  }

  /** One bucket is ready and the other behind. */
  ghost predicate OutOfStep(w: World, ready: string, behind: string) {
    ready != behind && Ready(Lookup(w.keys, ready), w.now) && Behind(Lookup(w.keys, behind), w.now)
  }

  lemma NamesDiffer()
    ensures NAME_A != NAME_B
  {
    assert NAME_A[|NAME_A| - 1] == 'A' && NAME_B[|NAME_B| - 1] == 'B';
  }

  /** One pass takes the ready token, is refused by the other bucket, and leaves the two out of step again. */
  lemma OutOfStepPass(w: World, keyTtl: nat, aReady: bool) returns (w': World)
    requires keyTtl >= 10
    requires OutOfStep(w, if aReady then NAME_A else NAME_B, if aReady then NAME_B else NAME_A)
    ensures w' == (var (w1, replies) := Pass(w, [SLOW_A, SLOW_B], keyTtl, "", 1, (i: nat) => 0.0);
                   w1.(now := w1.now + Min(Longest(replies), 30.0)))
    ensures Longest(Pass(w, [SLOW_A, SLOW_B], keyTtl, "", 1, (i: nat) => 0.0).1) > 0.0
    ensures OutOfStep(w', if aReady then NAME_B else NAME_A, if aReady then NAME_A else NAME_B)
  {
    hide TryScript, Ready, Behind, Bucket.Earned;
    var lag := (i: nat) => 0.0;
    NamesDiffer();
    ReadyTry(keyTtl, Lookup(w.keys, if aReady then NAME_A else NAME_B), w.now);
    BehindTry(keyTtl, Lookup(w.keys, if aReady then NAME_B else NAME_A), w.now);
    assert SLOW_A.Args() == SLOW_B.Args();
    var (w1, a) := TryBucket(w, SLOW_A, keyTtl, "", 1, 0.0);
    var (w2, b) := TryBucket(w1, SLOW_B, keyTtl, "", 1, 0.0);
    assert [SLOW_A, SLOW_B][1..] == [SLOW_B];
    OneBucketPass(w1, SLOW_B, keyTtl, "", 1, lag);
    assert Pass(w, [SLOW_A, SLOW_B], keyTtl, "", 1, lag) == (w2, [a, b]) by { assert [a] + [b] == [a, b]; }
    assert [a, b][1..] == [b];
    assert Lookup(w1.keys, NAME_B) == Lookup(w.keys, NAME_B);
    assert Lookup(w2.keys, NAME_A) == Lookup(w1.keys, NAME_A);
    assert Longest([a, b]) == Max(Wait(a), Wait(b)) == 5.0;
    w' := w2.(now := w2.now + Min(Longest([a, b]), 30.0));
    assert w'.now == w.now + 5.0;
  }

  /** From there a lone caller of both buckets never finishes, and every pass spends a token. */
  lemma {:induction false} LoneCallerCanLivelock(w: World, keyTtl: nat, aReady: bool, passes: nat)
    requires keyTtl >= 10
    requires OutOfStep(w, if aReady then NAME_A else NAME_B, if aReady then NAME_B else NAME_A)
    ensures !AcquireLoop(w, [SLOW_A, SLOW_B], keyTtl, 30.0, "", 1, (i: nat) => 0.0, passes).1
    decreases passes
  {
    if passes > 0 {
      var w' := OutOfStepPass(w, keyTtl, aReady);
      LoneCallerCanLivelock(w', keyTtl, !aReady, passes - 1);
    }
  }

  /** One earlier request on B alone is enough to get there. */
  lemma LivelockIsReachable(keyTtl: nat)
    requires keyTtl >= 10
    ensures var (w, reply) := TryBucket(World(map[], 0.0, 0), SLOW_B, keyTtl, "", 1, 0.0);
            reply.available && OutOfStep(w.(now := 5.0), NAME_A, NAME_B)
  {
    NamesDiffer();
  }
}
