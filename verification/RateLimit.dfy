/**
 The distributed token bucket of backend/arena/riot/rate_limit.py.

 Each Lua script is one atomic step on a Redis hash. A hash carries an expiry; once it has passed
 the key reads as absent, and an absent hash is a full bucket. Time is a real number of seconds read
 from the server clock.
 */
module RateLimit {
  import opened Wrappers

  /** One bucket as the scripts see it: at most `capacity` tokens, `rate` new ones a second. */
  datatype Bucket = Bucket(capacity: int, rate: real) {
    predicate Valid() {
      capacity >= 1 && rate > 0.0
    }

    /** Tokens that `seconds` of refill bring. */
    function Earned(seconds: real): real {
      rate * seconds
    }
  }

  datatype Hash = Hash(tokens: real, ts: real, expiresAt: real)

  type Key = Option<Hash>

  /** What the two scripts answer. */
  datatype Reply = Reply(available: bool, waitMs: int)

  /** The hash as a script at time `now` finds it. */
  function Live(k: Key, now: real): Key {
    if k.Some? && now <= k.value.expiresAt then k else None
  }

  /** Tokens after the lazy refill at time `now`; a refill clock in the future is a penalty. */
  function Avail(cfg: Bucket, k: Key, now: real): real
    requires cfg.Valid()
  {
    if Live(k, now).None? then cfg.capacity as real
    else if now > k.value.ts then
      Min(cfg.capacity as real, k.value.tokens + cfg.Earned(now - k.value.ts))
    else k.value.tokens
  }

  /** The refill clock after that refill. */
  function RefillTs(k: Key, now: real): real {
    if Live(k, now).Some? && now <= k.value.ts then k.value.ts else now
  }

  /** What the acquire script writes, and whether it grants. */
  function Consume(cfg: Bucket, keyTtl: nat, k: Key, now: real, n: nat): (Key, bool)
    requires cfg.Valid()
  {
    var tokens := Avail(cfg, k, now);
    var granted := tokens >= n as real;
    (Some(Hash(if granted then tokens - n as real else tokens, RefillTs(k, now), now + keyTtl as real)),
     granted)
  }

  /** The wait it reports when it does not. */
  function WaitMs(cfg: Bucket, tokens: real, ts: real, now: real, n: nat): int
    requires cfg.Valid()
  {
    var wait := Ceil((n as real - tokens) / cfg.rate * 1000.0);
    if ts > now then wait + Ceil((ts - now) * 1000.0) else wait
  }

  /** The acquire script. */
  function TryScript(cfg: Bucket, keyTtl: nat, k: Key, now: real, n: nat): (Key, Reply)
    requires cfg.Valid()
  {
    var (k', granted) := Consume(cfg, keyTtl, k, now, n);
    (k', Reply(granted, if granted then 0 else WaitMs(cfg, k'.value.tokens, k'.value.ts, now, n)))
  }

  /** The penalty script; the reply is the penalty left, in milliseconds. */
  function PenalizeScript(ttl: nat, k: Key, now: real, penalty: real): (r: (Key, int))
    ensures r.0.Some?
  {
    var until := match Live(k, now)
      case None => now + penalty
      case Some(h) => if h.ts > now + penalty then h.ts else now + penalty;
    (Some(Hash(0.0, until, now + ttl as real)), Ceil((until - now) * 1000.0))
  }

  /** `max(key_ttl, int(seconds * 2) + 1)`, only ever computed for a positive penalty. */
  function PenaltyTtl(keyTtl: nat, seconds: real): nat
    requires seconds > 0.0
  {
    var doubled := (seconds * 2.0).Floor + 1;
    if keyTtl >= doubled then keyTtl else doubled
  }

  // ---- Runs: what all workers do to one bucket, in the order Redis executes it ----

  datatype Event = Try(at: real, n: nat) | Penalize(at: real, seconds: real)

  /** One script call by any worker, with the tokens it hands out. */
  function Step(cfg: Bucket, keyTtl: nat, k: Key, e: Event): (Key, nat)
    requires cfg.Valid()
  {
    match e
    case Try(at, n) =>
      var (k', granted) := Consume(cfg, keyTtl, k, at, n);
      (k', if granted then n else 0)
    case Penalize(at, seconds) =>
      if seconds <= 0.0 then (k, 0)
      else (PenalizeScript(PenaltyTtl(keyTtl, seconds), k, at, seconds).0, 0)
  }

  function After(cfg: Bucket, keyTtl: nat, k: Key, run: seq<Event>): Key
    requires cfg.Valid()
  {
    if run == [] then k
    else Step(cfg, keyTtl, After(cfg, keyTtl, k, run[..|run| - 1]), run[|run| - 1]).0
  }

  /** Tokens the last event of a run hands out. */
  function LastGrant(cfg: Bucket, keyTtl: nat, k: Key, run: seq<Event>): nat
    requires cfg.Valid() && run != []
  {
    Step(cfg, keyTtl, After(cfg, keyTtl, k, run[..|run| - 1]), run[|run| - 1]).1
  }

  /** Tokens handed out at times in the closed interval from a to b. */
  function Granted(cfg: Bucket, keyTtl: nat, k: Key, run: seq<Event>, a: real, b: real): nat
    requires cfg.Valid()
  {
    if run == [] then 0
    else
      Granted(cfg, keyTtl, k, run[..|run| - 1], a, b)
      + (if a <= run[|run| - 1].at <= b then LastGrant(cfg, keyTtl, k, run) else 0)
  }

  /** The server clock never runs backwards. */
  ghost predicate Ordered(run: seq<Event>) {
    forall i, j :: 0 <= i < j < |run| ==> run[i].at <= run[j].at
  }

  /** Token counts stay within the bucket. */
  ghost predicate InRange(cfg: Bucket, k: Key) {
    k.Some? ==> 0.0 <= k.value.tokens <= cfg.capacity as real
  }

  lemma EarnedAdds(cfg: Bucket, x: real, y: real, z: real)
    requires z == x + y
    ensures cfg.Earned(z) == cfg.Earned(x) + cfg.Earned(y)
  {
  }

  lemma EarnedSign(cfg: Bucket, x: real)
    requires cfg.Valid()
    ensures cfg.Earned(x) >= 0.0 <==> x >= 0.0
    ensures cfg.Earned(x) > 0.0 <==> x > 0.0
  {
    if x > 0.0 { assert cfg.rate * x > 0.0; } else if x < 0.0 { assert cfg.rate * -x > 0.0; }
  }

  lemma EarnedMonotone(cfg: Bucket, x: real, y: real)
    requires cfg.Valid()
    ensures cfg.Earned(x) <= cfg.Earned(y) <==> x <= y
  {
    EarnedAdds(cfg, x, y - x, y);
    EarnedSign(cfg, y - x);
  }

  lemma EarnedFor(cfg: Bucket, tokens: real)
    requires cfg.Valid()
    ensures cfg.Earned(tokens / cfg.rate) == tokens
  {
  }

  lemma AvailInRange(cfg: Bucket, k: Key, t: real)
    requires cfg.Valid() && InRange(cfg, k)
    ensures 0.0 <= Avail(cfg, k, t) <= cfg.capacity as real
  {
    hide Bucket.Earned;
    if k.Some? && t > k.value.ts { EarnedSign(cfg, t - k.value.ts); }
  }

  lemma StepInRange(cfg: Bucket, keyTtl: nat, k: Key, e: Event)
    requires cfg.Valid() && InRange(cfg, k)
    ensures InRange(cfg, Step(cfg, keyTtl, k, e).0)
  {
    AvailInRange(cfg, k, e.at);
  }

  lemma {:induction false} AfterInRange(cfg: Bucket, keyTtl: nat, k: Key, run: seq<Event>)
    requires cfg.Valid() && InRange(cfg, k)
    ensures InRange(cfg, After(cfg, keyTtl, k, run))
  {
    if run != [] {
      AfterInRange(cfg, keyTtl, k, run[..|run| - 1]);
      StepInRange(cfg, keyTtl, After(cfg, keyTtl, k, run[..|run| - 1]), run[|run| - 1]);
    }
  }

  /** Left alone, a live hash gains at most `rate` tokens a second. */
  lemma AvailGrows(cfg: Bucket, k: Key, t: real, u: real)
    requires cfg.Valid() && t <= u
    requires k.Some? && u <= k.value.expiresAt
    ensures Avail(cfg, k, u) <= Avail(cfg, k, t) + cfg.Earned(u - t)
  {
    hide Bucket.Earned;
    EarnedAdds(cfg, t - k.value.ts, u - t, u - k.value.ts);
    EarnedSign(cfg, u - t);
    EarnedSign(cfg, t - k.value.ts);
    EarnedMonotone(cfg, u - k.value.ts, u - t);
  }

  /**
   What the ceiling proof carries along a run, `g` tokens having been granted since `a`: what is granted
   and what is left stay within the allowance, and the key does not expire before the allowance that
   accrued by then covers everything granted.
   */
  ghost predicate Budgeted(cfg: Bucket, k: Key, g: nat, a: real, now: real)
    requires cfg.Valid()
  {
    && g as real + Avail(cfg, k, now) <= cfg.capacity as real + cfg.Earned(now - a)
    && (g > 0 ==> k.Some? && g as real <= cfg.Earned(k.value.expiresAt - a))
  }

  lemma BudgetOverTime(cfg: Bucket, k: Key, g: nat, a: real, now: real, later: real)
    requires cfg.Valid() && InRange(cfg, k)
    requires a <= now <= later && Budgeted(cfg, k, g, a, now)
    ensures Budgeted(cfg, k, g, a, later)
  {
    hide Bucket.Earned;
    EarnedAdds(cfg, now - a, later - now, later - a);
    EarnedSign(cfg, later - now);
    EarnedSign(cfg, now - a);
    AvailInRange(cfg, k, later);
    if k.Some? && later <= k.value.expiresAt {
      AvailGrows(cfg, k, now, later);
    } else if g > 0 {
      EarnedMonotone(cfg, k.value.expiresAt - a, later - a);
    }
  }

  lemma BudgetStep(cfg: Bucket, keyTtl: nat, k: Key, g: nat, a: real, e: Event)
    requires cfg.Valid() && InRange(cfg, k)
    requires cfg.Earned(keyTtl as real) >= cfg.capacity as real
    requires a <= e.at && Budgeted(cfg, k, g, a, e.at)
    ensures Budgeted(cfg, Step(cfg, keyTtl, k, e).0, g + Step(cfg, keyTtl, k, e).1, a, e.at)
  {
    hide Bucket.Earned;
    var (k', n) := Step(cfg, keyTtl, k, e);
    AvailInRange(cfg, k, e.at);
    if e.Try? || e.seconds > 0.0 {
      GrantIsPaidFor(cfg, keyTtl, k, e);
      StepInRange(cfg, keyTtl, k, e);
      AvailInRange(cfg, k', e.at);
      ExpiryIsLate(cfg, keyTtl, g + n, a, e.at, k'.value.expiresAt);
    }
  }

  /** A script leaves at most what was there, less what it hands out, and a key that lives for the TTL. */
  lemma GrantIsPaidFor(cfg: Bucket, keyTtl: nat, k: Key, e: Event)
    requires cfg.Valid() && InRange(cfg, k)
    requires e.Try? || e.seconds > 0.0
    ensures var (k', n) := Step(cfg, keyTtl, k, e);
            && k'.Some? && k'.value.expiresAt >= e.at + keyTtl as real
            && Avail(cfg, k', e.at) + n as real <= Avail(cfg, k, e.at)
  {
    hide Bucket.Earned;
    AvailInRange(cfg, k, e.at);
    var (k', n) := Step(cfg, keyTtl, k, e);
    assert k'.value.ts >= e.at;
  }

  lemma ExpiryIsLate(cfg: Bucket, keyTtl: nat, g: nat, a: real, now: real, expiresAt: real)
    requires cfg.Valid() && cfg.Earned(keyTtl as real) >= cfg.capacity as real
    requires expiresAt >= now + keyTtl as real
    requires g as real <= cfg.capacity as real + cfg.Earned(now - a)
    ensures g as real <= cfg.Earned(expiresAt - a)
  {
    hide Bucket.Earned;
    EarnedMonotone(cfg, keyTtl as real, expiresAt - now);
    EarnedAdds(cfg, now - a, expiresAt - now, expiresAt - a);
  }

  lemma {:induction false} RunBudgeted(cfg: Bucket, keyTtl: nat, run: seq<Event>, a: real, b: real, now: real)
    requires cfg.Valid() && cfg.Earned(keyTtl as real) >= cfg.capacity as real
    requires Ordered(run) && a <= now <= b && (run != [] ==> run[|run| - 1].at <= now)
    ensures Budgeted(cfg, After(cfg, keyTtl, None, run), Granted(cfg, keyTtl, None, run, a, b), a, now)
  {
    var k := After(cfg, keyTtl, None, run);
    AfterInRange(cfg, keyTtl, None, run);
    AvailInRange(cfg, k, now);
    hide Bucket.Earned;
    EarnedSign(cfg, now - a);
    if run != [] {
      var front, e := run[..|run| - 1], run[|run| - 1];
      AfterInRange(cfg, keyTtl, None, front);
      if e.at < a {
        NothingGrantedBefore(cfg, keyTtl, run, a, b);
      } else {
        RunBudgeted(cfg, keyTtl, front, a, b, e.at);
        BudgetStep(cfg, keyTtl, After(cfg, keyTtl, None, front), Granted(cfg, keyTtl, None, front, a, b), a, e);
        BudgetOverTime(cfg, k, Granted(cfg, keyTtl, None, run, a, b), a, e.at, now);
      }
    }
  }

  lemma {:induction false} NothingGrantedBefore(cfg: Bucket, keyTtl: nat, run: seq<Event>, a: real, b: real)
    requires cfg.Valid() && Ordered(run) && (run != [] ==> run[|run| - 1].at < a)
    ensures Granted(cfg, keyTtl, None, run, a, b) == 0
  {
    if |run| > 1 {
      NothingGrantedBefore(cfg, keyTtl, run[..|run| - 1], a, b);
    }
  }

  /** The ceiling on one window of one run. */
  ghost predicate WithinCeiling(cfg: Bucket, keyTtl: nat, run: seq<Event>, a: real, b: real)
    requires cfg.Valid()
  {
    Granted(cfg, keyTtl, None, run, a, b) as real <= cfg.capacity as real + cfg.Earned(b - a)
  }

  /** Whatever acquires, penalties and expiries interleave, no window gets more than a burst plus its refill. */
  lemma {:induction false} CeilingHolds(cfg: Bucket, keyTtl: nat, run: seq<Event>, a: real, b: real)
    requires cfg.Valid() && cfg.Earned(keyTtl as real) >= cfg.capacity as real
    requires Ordered(run) && a <= b
    ensures WithinCeiling(cfg, keyTtl, run, a, b)
  {
    if run != [] && run[|run| - 1].at > b {
      CeilingHolds(cfg, keyTtl, run[..|run| - 1], a, b);
    } else {
      RunBudgeted(cfg, keyTtl, run, a, b, b);
      AfterInRange(cfg, keyTtl, None, run);
      AvailInRange(cfg, After(cfg, keyTtl, None, run), b);
    }
  }

  /** A key TTL below the refill window breaks it: let a drained bucket expire and drain it again. */
  lemma CeilingBroken(cfg: Bucket, keyTtl: nat) returns (run: seq<Event>, b: real)
    requires cfg.Valid() && cfg.Earned(keyTtl as real) < cfg.capacity as real
    ensures Ordered(run) && 0.0 <= b && !WithinCeiling(cfg, keyTtl, run, 0.0, b)
  {
    var full := cfg.capacity as real / cfg.rate;
    hide Bucket.Earned;
    EarnedFor(cfg, cfg.capacity as real);
    EarnedMonotone(cfg, full, keyTtl as real);
    b := (keyTtl as real + full) / 2.0;
    var first, second := Try(0.0, cfg.capacity), Try(b, cfg.capacity);
    run := [first, second];
    EarnedMonotone(cfg, full, b);
    assert run[..1] == [first] && [first][..0] == [];
    var k := After(cfg, keyTtl, None, [first]);
    assert k.value.expiresAt == keyTtl as real;
    assert LastGrant(cfg, keyTtl, None, [first]) == cfg.capacity;
    assert Granted(cfg, keyTtl, None, [first], 0.0, b) == cfg.capacity;
    assert LastGrant(cfg, keyTtl, None, run) == cfg.capacity;
    assert Granted(cfg, keyTtl, None, run, 0.0, b) == 2 * cfg.capacity;
  }

  /** A configured bucket: `capacity` tokens refilling over `refillSeconds`. */
  datatype TokenBucketConfig = TokenBucketConfig(name: string, capacity: int, refillSeconds: real) {
    predicate Valid() {
      capacity >= 1 && refillSeconds > 0.0
    }

    function Args(): (b: Bucket)
      requires Valid()
      ensures b.Valid() && b.Earned(refillSeconds) == capacity as real
    {
      Bucket(capacity, capacity as real / refillSeconds)
    }
  }

  /** The limiter is a rate limiter exactly when its keys live at least one refill window. */
  lemma CeilingIff(cfg: TokenBucketConfig, keyTtl: nat)
    requires cfg.Valid()
    ensures (forall run, a, b :: Ordered(run) && a <= b ==> WithinCeiling(cfg.Args(), keyTtl, run, a, b))
            <==> keyTtl as real >= cfg.refillSeconds
  {
    var bucket := cfg.Args();
    EarnedMonotone(bucket, cfg.refillSeconds, keyTtl as real);
    if keyTtl as real >= cfg.refillSeconds {
      forall run, a, b | Ordered(run) && a <= b ensures WithinCeiling(bucket, keyTtl, run, a, b) {
        CeilingHolds(bucket, keyTtl, run, a, b);
      }
    } else {
      var run, b := CeilingBroken(bucket, keyTtl);
    }
  }

  // ---- Penalties ----

  /** A run that starts no earlier than t0. */
  ghost predicate Follows(run: seq<Event>, t0: real) {
    Ordered(run) && (run != [] ==> t0 <= run[0].at)
  }

  /** All tokens handed out along a run. */
  function Total(cfg: Bucket, keyTtl: nat, k: Key, run: seq<Event>): nat
    requires cfg.Valid()
  {
    if run == [] then 0 else Total(cfg, keyTtl, k, run[..|run| - 1]) + LastGrant(cfg, keyTtl, k, run)
  }

  /** A bucket penalised at t0 whose refill starts no earlier than `release`, after `g` more tokens. */
  ghost predicate Frozen(cfg: Bucket, keyTtl: nat, k: Key, t0: real, release: real, g: nat, now: real)
    requires cfg.Valid()
  {
    && k.Some? && t0 + keyTtl as real <= k.value.expiresAt
    && release <= k.value.ts && 0.0 <= k.value.tokens
    && (k.value.tokens > 0.0 ==> k.value.ts <= now)
    && g as real + k.value.tokens <= cfg.Earned(k.value.ts - release)
    && g as real <= cfg.Earned(Max(0.0, now - release))
  }

  lemma FrozenStep(cfg: Bucket, keyTtl: nat, k: Key, t0: real, release: real, g: nat, now: real, e: Event)
    requires cfg.Valid() && Frozen(cfg, keyTtl, k, t0, release, g, now)
    requires t0 <= now <= e.at <= t0 + keyTtl as real
    ensures var (k', n) := Step(cfg, keyTtl, k, e);
            && Frozen(cfg, keyTtl, k', t0, release, g + n, e.at)
            && k'.value.ts >= k.value.ts
  {
    hide Bucket.Earned;
    var h := k.value;
    EarnedMonotone(cfg, Max(0.0, now - release), Max(0.0, e.at - release));
    match e {
      case Penalize(at, seconds) =>
        EarnedMonotone(cfg, h.ts - release, at + seconds - release);
      case Try(at, n) =>
        EarnedAdds(cfg, h.ts - release, at - h.ts, at - release);
        EarnedSign(cfg, at - h.ts);
    }
  }

  lemma {:induction false} FrozenRun(cfg: Bucket, keyTtl: nat, k: Key, t0: real, release: real, run: seq<Event>)
    requires cfg.Valid() && Frozen(cfg, keyTtl, k, t0, release, 0, t0)
    requires Follows(run, t0) && (run != [] ==> run[|run| - 1].at <= t0 + keyTtl as real)
    ensures Frozen(cfg, keyTtl, After(cfg, keyTtl, k, run), t0, release, Total(cfg, keyTtl, k, run),
                   if run == [] then t0 else run[|run| - 1].at)
  {
    if run != [] {
      var front := run[..|run| - 1];
      FrozenRun(cfg, keyTtl, k, t0, release, front);
      FrozenStep(cfg, keyTtl, After(cfg, keyTtl, k, front), t0, release, Total(cfg, keyTtl, k, front),
                 if front == [] then t0 else front[|front| - 1].at, run[|run| - 1]);
    }
  }

  /** The hash a penalty of `seconds` at t0 leaves. */
  function Penalized(keyTtl: nat, k: Key, t0: real, seconds: real): Key
    requires seconds > 0.0
  {
    PenalizeScript(PenaltyTtl(keyTtl, seconds), k, t0, seconds).0
  }

  lemma PenaltyIsFrozen(cfg: Bucket, keyTtl: nat, k: Key, t0: real, seconds: real)
    requires cfg.Valid() && seconds > 0.0
    ensures var k1 := Penalized(keyTtl, k, t0, seconds);
            k1.Some? && k1.value.ts >= t0 + seconds && Frozen(cfg, keyTtl, k1, t0, k1.value.ts, 0, t0)
  {
    EarnedSign(cfg, 0.0);
  }

  /**
   After a penalty everyone together gets no more than what accrues once it is over, for as long as the
   key TTL from the penalty on, whatever acquires and further penalties follow. And no event in that
   time brings the release forward.
   */
  lemma PenaltyFreezes(cfg: Bucket, keyTtl: nat, k: Key, t0: real, seconds: real, run: seq<Event>)
    requires cfg.Valid() && seconds > 0.0
    requires Follows(run, t0) && run != [] && run[|run| - 1].at <= t0 + keyTtl as real
    ensures var k1 := Penalized(keyTtl, k, t0, seconds);
            && k1.value.ts >= t0 + seconds
            && Total(cfg, keyTtl, k1, run) as real
               <= cfg.Earned(Max(0.0, run[|run| - 1].at - k1.value.ts))
            && After(cfg, keyTtl, k1, run).Some? && After(cfg, keyTtl, k1, run[..|run| - 1]).Some?
            && After(cfg, keyTtl, k1, run).value.ts >= After(cfg, keyTtl, k1, run[..|run| - 1]).value.ts
  {
    hide Step, Bucket.Earned, Total;
    var k1 := Penalized(keyTtl, k, t0, seconds);
    var front := run[..|run| - 1];
    PenaltyIsFrozen(cfg, keyTtl, k, t0, seconds);
    FrozenRun(cfg, keyTtl, k1, t0, k1.value.ts, run);
    FrozenRun(cfg, keyTtl, k1, t0, k1.value.ts, front);
    FrozenStep(cfg, keyTtl, After(cfg, keyTtl, k1, front), t0, k1.value.ts, Total(cfg, keyTtl, k1, front),
               if front == [] then t0 else front[|front| - 1].at, run[|run| - 1]);
  }

  /** The last event of a run takes n tokens before the penalty is over and n tokens have accrued. */
  ghost predicate Jumps(cfg: Bucket, keyTtl: nat, k1: Key, over: real, n: nat, run: seq<Event>)
    requires cfg.Valid()
  {
    && run != [] && run[|run| - 1].Try? && run[|run| - 1].n == n
    && LastGrant(cfg, keyTtl, k1, run) == n
    && run[|run| - 1].at < over + n as real / cfg.rate
  }

  /**
   Refill starts at the release: when the penalty ends, or when a longer standing one does. Every continuation
   waits for the release and the refill of n tokens after it exactly when the key TTL reaches that far. The TTL
   the penalty itself sets (twice the penalty) does not help: a denied acquire resets it to the key TTL.
   */
  lemma PenaltyHonouredIff(cfg: Bucket, keyTtl: nat, k: Key, t0: real, seconds: real, n: nat)
    requires cfg.Valid() && seconds > 0.0 && 1 <= n <= cfg.capacity
    ensures var k1 := Penalized(keyTtl, k, t0, seconds);
            var release := k1.value.ts;
            && release == (if Live(k, t0).Some? then Max(k.value.ts, t0 + seconds) else t0 + seconds)
            && ((forall run :: Follows(run, t0) ==> !Jumps(cfg, keyTtl, k1, release, n, run))
                <==> release - t0 + n as real / cfg.rate <= keyTtl as real)
  {
    var k1 := Penalized(keyTtl, k, t0, seconds);
    var release := k1.value.ts;
    assert n as real / cfg.rate * cfg.rate == n as real;
    if release - t0 + n as real / cfg.rate <= keyTtl as real {
      forall run: seq<Event> | Follows(run, t0) ensures !Jumps(cfg, keyTtl, k1, release, n, run) {
        if Jumps(cfg, keyTtl, k1, release, n, run) {
          PenaltyFreezes(cfg, keyTtl, k, t0, seconds, run);
          var t := run[|run| - 1].at;
          assert n as real <= cfg.Earned(Max(0.0, t - release));
          AccruedBelow(cfg, Max(0.0, t - release), n);
        }
      }
    } else {
      var run := PenaltyLost(cfg, keyTtl, k, t0, seconds, n);
    }
  }

  lemma AccruedBelow(cfg: Bucket, x: real, n: nat)
    requires cfg.Valid() && 0.0 <= x && n as real <= cfg.Earned(x)
    ensures n as real / cfg.rate <= x
  {
    var over := (n as real - cfg.Earned(x)) / cfg.rate;
    assert n as real / cfg.rate == x + over;
  }

  /** The run that loses a penalty: a denied acquire resets the TTL, the key expires, the bucket is full. */
  lemma PenaltyLost(cfg: Bucket, keyTtl: nat, k: Key, t0: real, seconds: real, n: nat) returns (run: seq<Event>)
    requires cfg.Valid() && seconds > 0.0 && 1 <= n <= cfg.capacity
    requires Penalized(keyTtl, k, t0, seconds).value.ts - t0 + n as real / cfg.rate > keyTtl as real
    ensures Follows(run, t0)
    ensures var k1 := Penalized(keyTtl, k, t0, seconds); Jumps(cfg, keyTtl, k1, k1.value.ts, n, run)
  {
    var k1 := Penalized(keyTtl, k, t0, seconds);
    var t := (t0 + keyTtl as real + (k1.value.ts + n as real / cfg.rate)) / 2.0;
    var first, second := Try(t0, 1), Try(t, n);
    run := [first, second];
    assert run[..1] == [first] && [first][..0] == [];
    assert After(cfg, keyTtl, k1, [first]).value.expiresAt == t0 + keyTtl as real;
  }

  // ---- The wait a denied acquire reports ----

  /** When a request for n tokens is served if nobody else touches the hash. */
  function ServedFrom(cfg: Bucket, k: Key, n: nat, now: real): real
    requires cfg.Valid()
  {
    match Live(k, now)
    case None => now
    case Some(h) =>
      if h.tokens >= n as real then now else h.ts + (n as real - h.tokens) / cfg.rate
  }

  /** Within the key's life, n tokens are there exactly from the time ServedFrom names. */
  lemma ServedExactly(cfg: Bucket, k: Key, n: nat, now: real, t: real)
    requires cfg.Valid() && InRange(cfg, k) && n <= cfg.capacity
    requires now <= t && Live(k, t).Some?
    ensures Avail(cfg, k, t) >= n as real <==> t >= ServedFrom(cfg, k, n, now)
  {
    hide Bucket.Earned;
    var h := k.value;
    if h.tokens < n as real {
      var need := (n as real - h.tokens) / cfg.rate;
      EarnedFor(cfg, n as real - h.tokens);
      EarnedMonotone(cfg, need, t - h.ts);
      EarnedSign(cfg, need);
    } else {
      EarnedSign(cfg, t - h.ts);
    }
  }

  /** A denied request leaves everyone else's tokens as they were, for as long as the old key would live. */
  lemma DeniedTakesNothing(cfg: Bucket, keyTtl: nat, k: Key, now: real, n: nat, t: real)
    requires cfg.Valid() && InRange(cfg, k) && now <= t
    requires Live(k, t).Some? && t <= now + keyTtl as real
    requires !Consume(cfg, keyTtl, k, now, n).1
    ensures Avail(cfg, Consume(cfg, keyTtl, k, now, n).0, t) == Avail(cfg, k, t)
  {
    hide Bucket.Earned;
    EarnedAdds(cfg, now - k.value.ts, t - now, t - k.value.ts);
    EarnedSign(cfg, t - now);
  }

  /**
   The reported wait is honest: a request for n tokens, with nobody in between, is served at every time
   from the wait on, and while the key lives at no time more than two milliseconds before it.
   */
  lemma WaitIsHonest(cfg: Bucket, keyTtl: nat, k: Key, now: real, n: nat, t: real)
    requires cfg.Valid() && InRange(cfg, k) && n <= cfg.capacity && now <= t
    requires !TryScript(cfg, keyTtl, k, now, n).1.available
    ensures var (k', reply) := TryScript(cfg, keyTtl, k, now, n);
            && reply.waitMs > 0
            && (t >= now + reply.waitMs as real / 1000.0 ==> TryScript(cfg, keyTtl, k', t, n).1.available)
            && (t <= now + keyTtl as real && t < now + reply.waitMs as real / 1000.0 - 0.002
                ==> !TryScript(cfg, keyTtl, k', t, n).1.available)
  {
    hide Bucket.Earned;
    var (k', reply) := TryScript(cfg, keyTtl, k, now, n);
    AvailInRange(cfg, k, now);
    WaitCoversNeed(cfg, k', n, now);
    if Live(k', t).Some? { ServedExactly(cfg, k', n, now, t); }
  }

  /** The wait in milliseconds rounds the time to ServedFrom up, by less than two milliseconds. */
  lemma WaitCoversNeed(cfg: Bucket, k: Key, n: nat, now: real)
    requires cfg.Valid() && Live(k, now).Some? && k.value.tokens < n as real && now <= k.value.ts
    ensures var wait := WaitMs(cfg, k.value.tokens, k.value.ts, now, n) as real / 1000.0;
            now < ServedFrom(cfg, k, n, now) <= now + wait < ServedFrom(cfg, k, n, now) + 0.002
    ensures WaitMs(cfg, k.value.tokens, k.value.ts, now, n) > 0
  {
    hide Bucket.Earned;
    var need := (n as real - k.value.tokens) / cfg.rate;
    EarnedFor(cfg, n as real - k.value.tokens);
    EarnedSign(cfg, need);
  }
}
