/**
 An acquire over several buckets (backend/arena/riot/rate_limit.py, RedisTokenBucketLimiter.acquire): what one pass
 does to each bucket, when the pass after a refused one is granted everywhere, and when the caller holds tokens of one
 bucket while it waits for another.
 */
module LimiterPasses {
  import opened Wrappers
  import opened RateLimit
  import opened Limiter

  /** What a lone caller asks for, with the limiter's settings and the time each script call takes to arrive. */
  datatype Request = Request(
    cfgs: seq<TokenBucketConfig>,
    keyTtl: nat,
    maxWait: real,
    apiKey: string,
    n: nat,
    lag: nat -> real)
  {
    /** The buckets are configured and none is named twice. */
    ghost predicate Distinct() {
      AllValid(cfgs) && forall i, j :: 0 <= i < j < |cfgs| ==> cfgs[i].name != cfgs[j].name
    }

    /** Every bucket can hold what is asked for, and calls do not arrive before they are sent. */
    ghost predicate Fits() {
      Distinct() && (forall c <- cfgs :: n <= c.capacity) && forall k :: lag(k) >= 0.0
    }

    function Pass(w: World): (World, seq<Reply>)
      requires AllValid(cfgs)
    {
      Limiter.Pass(w, cfgs, keyTtl, apiKey, n, lag)
    }

    /** The longest wait a pass asks for. */
    function Longest(w: World): real
      requires AllValid(cfgs)
    {
      Limiter.Longest(Pass(w).1)
    }

    /** Whether `acquire` is through within some passes. */
    function Finishes(w: World, passes: nat): bool
      requires AllValid(cfgs)
    {
      AcquireLoop(w, cfgs, keyTtl, maxWait, apiKey, n, lag, passes).1
    }

    /** The world when the pass after a refused one begins. */
    function Resumed(w: World): World
      requires AllValid(cfgs)
    {
      var w' := Pass(w).0;
      w'.(now := w'.now + Min(Longest(w), maxWait))
    }

    /** The hash of one of the buckets. */
    function KeyOf(w: World, i: nat): Key
      requires i < |cfgs|
    {
      Lookup(w.keys, KeyName(apiKey, cfgs[i].name))
    }

    /** When a pass comes to the i-th bucket. */
    function TryTime(w: World, i: nat): real {
      TryAt(w.now, w.calls, lag, i)
    }

    /** What the acquire script does to the i-th bucket in a pass over all of them. */
    function BucketTry(w: World, i: nat): (Key, Reply)
      requires AllValid(cfgs) && i < |cfgs|
    {
      TryScript(cfgs[i].Args(), keyTtl, KeyOf(w, i), TryTime(w, i), n)
    }

    /** What the i-th bucket holds when a pass comes to it. */
    function Held(w: World, i: nat): real
      requires AllValid(cfgs) && i < |cfgs|
    {
      Avail(cfgs[i].Args(), KeyOf(w, i), TryTime(w, i))
    }

    /** A pass finds n tokens in every bucket. */
    predicate AllHold(w: World)
      requires AllValid(cfgs)
    {
      forall i :: 0 <= i < |cfgs| ==> Held(w, i) >= n as real
    }

    /** A pass takes tokens of one bucket and is refused by another. */
    predicate Mixed(w: World)
      requires AllValid(cfgs)
    {
      exists i, j :: 0 <= i < |cfgs| && 0 <= j < |cfgs| && Held(w, i) >= n as real > Held(w, j)
    }
  }

  /** When the i-th script call from now on runs. */
  function TryAt(now: real, calls: nat, lag: nat -> real, i: nat): real {
    if i == 0 then now + lag(calls) else TryAt(now, calls, lag, i - 1) + lag(calls + i)
  }

  lemma KeyNamesDiffer(apiKey: string, a: string, b: string)
    requires a != b
    ensures KeyName(apiKey, a) != KeyName(apiKey, b)
  {
    var front := KeyName(apiKey, "");
    assert KeyName(apiKey, a) == front + a && KeyName(apiKey, b) == front + b;
    assert (front + a)[|front|..] == a && (front + b)[|front|..] == b;
  }

  lemma {:induction false} TryAtShifts(now: real, calls: nat, lag: nat -> real, i: nat)
    ensures TryAt(now + lag(calls), calls + 1, lag, i) == TryAt(now, calls, lag, i + 1)
  {
    if i > 0 { TryAtShifts(now, calls, lag, i - 1); }
  }

  lemma {:induction false} TryAtGrows(now: real, calls: nat, lag: nat -> real, i: nat, j: nat)
    requires i <= j && forall k :: lag(k) >= 0.0
    ensures now <= TryAt(now, calls, lag, i) <= TryAt(now, calls, lag, j)
    decreases j
  {
    if i < j {
      TryAtGrows(now, calls, lag, i, j - 1);
    } else if j > 0 {
      TryAtGrows(now, calls, lag, i - 1, j - 1);
    }
  }

  // ---- One pass ----

  /** The request for all buckets but the first. */
  function Rest(q: Request): Request
    requires q.cfgs != []
  {
    q.(cfgs := q.cfgs[1..])
  }

  /** The world after the first call of a pass. */
  function First(w: World, q: Request): World
    requires AllValid(q.cfgs) && q.cfgs != []
  {
    TryBucket(w, q.cfgs[0], q.keyTtl, q.apiKey, q.n, q.lag(w.calls)).0
  }

  lemma {:induction false} PassLeavesOthers(w: World, q: Request, name: string)
    requires AllValid(q.cfgs) && forall c <- q.cfgs :: KeyName(q.apiKey, c.name) != name
    ensures Lookup(q.Pass(w).0.keys, name) == Lookup(w.keys, name)
    decreases |q.cfgs|
  {
    hide TryScript, KeyName;
    if q.cfgs != [] { PassLeavesOthers(First(w, q), Rest(q), name); }
  }

  lemma TryWrites(cfg: Bucket, keyTtl: nat, k: Key, now: real, n: nat)
    requires cfg.Valid()
    ensures TryScript(cfg, keyTtl, k, now, n).0.Some?
  {
  }

  /** A pass over distinct buckets is one script call on each, at its own time. */
  lemma {:induction false} PassTriesEach(w: World, q: Request, i: nat)
    requires q.Distinct() && i < |q.cfgs|
    ensures var (w', replies) := q.Pass(w);
            |replies| == |q.cfgs| && (q.KeyOf(w', i), replies[i]) == q.BucketTry(w, i)
    decreases |q.cfgs|
  {
    hide TryScript, KeyName;
    var w1 := First(w, q);
    if i == 0 {
      TryWrites(q.cfgs[0].Args(), q.keyTtl, q.KeyOf(w, 0), w1.now, q.n);
      forall c | c in q.cfgs[1..] ensures KeyName(q.apiKey, c.name) != KeyName(q.apiKey, q.cfgs[0].name) {
        KeyNamesDiffer(q.apiKey, c.name, q.cfgs[0].name);
      }
      PassLeavesOthers(w1, Rest(q), KeyName(q.apiKey, q.cfgs[0].name));
    } else {
      KeyNamesDiffer(q.apiKey, q.cfgs[i].name, q.cfgs[0].name);
      TryAtShifts(w.now, w.calls, q.lag, i - 1);
      PassTriesEach(w1, Rest(q), i - 1);
    }
  }

  lemma {:induction false} PassTime(w: World, q: Request)
    requires AllValid(q.cfgs) && q.cfgs != []
    ensures q.Pass(w).0.now == q.TryTime(w, |q.cfgs| - 1) && q.Pass(w).0.calls == w.calls + |q.cfgs|
    decreases |q.cfgs|
  {
    hide TryScript, KeyName;
    if |q.cfgs| > 1 {
      PassTime(First(w, q), Rest(q));
      TryAtShifts(w.now, w.calls, q.lag, |q.cfgs| - 2);
    } else {
      assert Rest(q).Pass(First(w, q)).0 == First(w, q);
    }
  }

  lemma {:induction false} LongestCovers(replies: seq<Reply>, i: nat)
    requires i < |replies|
    ensures Wait(replies[i]) <= Longest(replies)
  {
    if i > 0 { LongestCovers(replies[1..], i - 1); }
  }

  /** A bucket grants exactly what it holds. */
  lemma GrantsWhatIsHeld(w: World, q: Request, i: nat)
    requires AllValid(q.cfgs) && i < |q.cfgs|
    ensures q.BucketTry(w, i).1.available <==> q.Held(w, i) >= q.n as real
  {
    hide Avail, WaitMs, RefillTs, KeyName;
  }

  /** A pass is granted everywhere exactly when it finds n tokens in every bucket. */
  lemma GrantedEverywhere(w: World, q: Request)
    requires q.Distinct()
    ensures q.Longest(w) <= 0.0 <==> q.AllHold(w)
  {
    hide Request.BucketTry, Request.Held, Limiter.Pass;
    var replies := q.Pass(w).1;
    DeniedMustWait(w, q.cfgs, q.keyTtl, q.apiKey, q.n, q.lag);
    LongestIsZero(replies);
    forall i | 0 <= i < |q.cfgs| ensures replies[i].available <==> q.Held(w, i) >= q.n as real {
      PassTriesEach(w, q, i);
      GrantsWhatIsHeld(w, q, i);
    }
    assert forall r <- replies :: exists i :: 0 <= i < |replies| && replies[i] == r;
    assert forall i :: 0 <= i < |q.cfgs| ==> replies[i] in replies;
  }

  /** The token ranges every run keeps, a pass keeps too: what holds of a first pass holds of every later one. */
  lemma PassKeepsRange(w: World, q: Request)
    requires q.Distinct() && KeysInRange(w, q.cfgs, q.apiKey)
    ensures KeysInRange(q.Resumed(w), q.cfgs, q.apiKey)
  {
    hide Limiter.Pass, KeyName, WaitMs, Avail;
    forall c | c in q.cfgs ensures InRange(c.Args(), Lookup(q.Resumed(w).keys, KeyName(q.apiKey, c.name))) {
      var i :| 0 <= i < |q.cfgs| && q.cfgs[i] == c;
      PassTriesEach(w, q, i);
      StepInRange(c.Args(), q.keyTtl, q.KeyOf(w, i), Try(q.TryTime(w, i), q.n));
    }
  }

  // ---- The pass after a refused one ----

  /** When the next pass comes to the i-th bucket the wait it asked for is over, unless the sleep was cut short. */
  lemma NextTryIsLater(w: World, q: Request, i: nat)
    requires q.Fits() && i < |q.cfgs| && q.Longest(w) <= q.maxWait
    ensures q.TryTime(q.Resumed(w), i) >= q.TryTime(w, i) + Wait(q.BucketTry(w, i).1)
  {
    hide TryScript, Request.BucketTry, Limiter.Pass;
    var w2 := q.Resumed(w);
    PassTime(w, q);
    PassTriesEach(w, q, i);
    LongestCovers(q.Pass(w).1, i);
    TryAtGrows(w.now, w.calls, q.lag, i, |q.cfgs| - 1);
    TryAtGrows(w2.now, w2.calls, q.lag, 0, i);
  }

  lemma WaitNotNegative(cfg: Bucket, keyTtl: nat, k: Key, now: real, n: nat)
    requires cfg.Valid() && !TryScript(cfg, keyTtl, k, now, n).1.available
    ensures TryScript(cfg, keyTtl, k, now, n).1.waitMs > 0
  {
    WaitCoversNeed(cfg, Consume(cfg, keyTtl, k, now, n).0, n, now);
  }

  /** A bucket that refused holds n tokens when the next pass comes to it, unless the sleep was cut short. */
  lemma RefuserRecovers(w: World, q: Request, i: nat)
    requires q.Fits() && i < |q.cfgs| && KeysInRange(w, q.cfgs, q.apiKey) && q.Longest(w) <= q.maxWait
    requires q.Held(w, i) < q.n as real
    ensures q.Held(q.Resumed(w), i) >= q.n as real
  {
    hide WaitMs, Limiter.Pass, Avail, RefillTs, Bucket.Earned, KeyName;
    var c, at, later := q.cfgs[i], q.TryTime(w, i), q.TryTime(q.Resumed(w), i);
    assert c in q.cfgs;
    PassTriesEach(w, q, i);
    NextTryIsLater(w, q, i);
    WaitNotNegative(c.Args(), q.keyTtl, q.KeyOf(w, i), at, q.n);
    WaitIsHonest(c.Args(), q.keyTtl, q.KeyOf(w, i), at, q.n, later);
  }

  /**
   After a refused pass, whether the first or a later one, a lone caller is through with the next if and only if
   every bucket that granted in it holds n tokens again when the next pass comes to it; and where the sleep was cut
   short at its maximum, every bucket that refused does. The tokens it has taken are gone.
   */
  lemma NextPassFinishesIff(w: World, q: Request)
    requires q.Fits() && KeysInRange(w, q.cfgs, q.apiKey) && q.Longest(w) > 0.0
    ensures q.Finishes(w, 2)
       <==> forall i :: 0 <= i < |q.cfgs| && (q.Held(w, i) >= q.n as real || q.Longest(w) > q.maxWait)
                        ==> q.Held(q.Resumed(w), i) >= q.n as real
  {
    hide Limiter.Pass, Request.Held;
    var w2 := q.Resumed(w);
    GrantedEverywhere(w2, q);
    assert q.Finishes(w, 2) == q.Finishes(w2, 1);
    forall i | 0 <= i < |q.cfgs| && q.Held(w, i) < q.n as real && q.Longest(w) <= q.maxWait
      ensures q.Held(w2, i) >= q.n as real
    {
      RefuserRecovers(w, q, i);
    }
  }

  // ---- When an acquire ends ----

  /** The world when the k-th pass begins, counting from 0. */
  function WorldAt(w: World, q: Request, k: nat): World
    requires AllValid(q.cfgs)
  {
    if k == 0 then w else q.Resumed(WorldAt(w, q, k - 1))
  }

  lemma {:induction false} WorldAtShifts(w: World, q: Request, k: nat)
    requires AllValid(q.cfgs)
    ensures WorldAt(q.Resumed(w), q, k) == WorldAt(w, q, k + 1)
  {
    hide Request.Resumed;
    if k > 0 {
      WorldAtShifts(w, q, k - 1);
    } else {
      assert WorldAt(w, q, 0) == w;
    }
  }

  lemma {:induction false} RangeAt(w: World, q: Request, k: nat)
    requires q.Distinct() && KeysInRange(w, q.cfgs, q.apiKey)
    ensures KeysInRange(WorldAt(w, q, k), q.cfgs, q.apiKey)
  {
    hide Request.Resumed, KeysInRange;
    if k > 0 {
      RangeAt(w, q, k - 1);
      PassKeepsRange(WorldAt(w, q, k - 1), q);
    }
  }

  /** The k-th pass is granted everywhere. */
  predicate GrantsAt(w: World, q: Request, k: nat)
    requires AllValid(q.cfgs)
  {
    q.Longest(WorldAt(w, q, k)) <= 0.0
  }

  ghost predicate GrantsBefore(w: World, q: Request, passes: nat)
    requires AllValid(q.cfgs)
  {
    exists k: nat :: k < passes && GrantsAt(w, q, k)
  }

  lemma GrantLater(w: World, q: Request, passes: nat)
    requires AllValid(q.cfgs) && passes > 0 && q.Longest(w) > 0.0
    ensures GrantsBefore(w, q, passes) <==> GrantsBefore(q.Resumed(w), q, passes - 1)
  {
    hide Request.Longest, Request.Resumed;
    assert WorldAt(w, q, 0) == w;
    if k: nat :| k < passes && GrantsAt(w, q, k) {
      WorldAtShifts(w, q, k - 1);
      assert GrantsAt(q.Resumed(w), q, k - 1);
    }
    if k: nat :| k < passes - 1 && GrantsAt(q.Resumed(w), q, k) {
      WorldAtShifts(w, q, k);
      assert GrantsAt(w, q, k + 1);
    }
  }

  lemma FirstPass(w: World, q: Request, passes: nat)
    requires AllValid(q.cfgs) && passes > 0 && q.Longest(w) <= 0.0
    ensures q.Finishes(w, passes) && GrantsBefore(w, q, passes)
  {
    hide Limiter.Pass, Limiter.Longest;
    assert WorldAt(w, q, 0) == w;
    assert GrantsAt(w, q, 0);
  }

  /** The loop is through within some passes exactly when one of them is granted everywhere. */
  lemma {:induction false} LoopFinishes(w: World, q: Request, passes: nat)
    requires AllValid(q.cfgs)
    ensures q.Finishes(w, passes) <==> GrantsBefore(w, q, passes)
    decreases passes
  {
    hide Limiter.Pass, Limiter.Longest;
    if passes > 0 {
      if q.Longest(w) <= 0.0 {
        FirstPass(w, q, passes);
      } else {
        GrantLater(w, q, passes);
        LoopFinishes(q.Resumed(w), q, passes - 1);
        assert q.Finishes(w, passes) == q.Finishes(q.Resumed(w), passes - 1);
      }
    }
  }

  /** After the k-th pass, which is refused, every bucket recovers in time for the next. */
  ghost predicate RecoversAt(w: World, q: Request, k: nat)
    requires AllValid(q.cfgs)
  {
    var w' := WorldAt(w, q, k);
    && !GrantsAt(w, q, k)
    && forall i :: 0 <= i < |q.cfgs| && (q.Held(w', i) >= q.n as real || q.Longest(w') > q.maxWait)
                   ==> q.Held(q.Resumed(w'), i) >= q.n as real
  }

  lemma NextPassGrantsIff(w: World, q: Request, k: nat)
    requires q.Fits() && KeysInRange(w, q.cfgs, q.apiKey) && !GrantsAt(w, q, k)
    ensures GrantsAt(w, q, k + 1) <==> RecoversAt(w, q, k)
  {
    hide Limiter.Pass, Request.Held, Limiter.Longest;
    var w' := WorldAt(w, q, k);
    RangeAt(w, q, k);
    NextPassFinishesIff(w', q);
    assert q.Finishes(w', 2) == q.Finishes(q.Resumed(w'), 1);
  }

  lemma {:induction false} FirstGrant(w: World, q: Request, k: nat) returns (first: nat)
    requires AllValid(q.cfgs) && GrantsAt(w, q, k)
    ensures first <= k && GrantsAt(w, q, first) && forall j: nat :: j < first ==> !GrantsAt(w, q, j)
    decreases k
  {
    hide GrantsAt;
    if j: nat :| j < k && GrantsAt(w, q, j) {
      first := FirstGrant(w, q, j);
    } else {
      first := k;
    }
  }

  /**
   When an acquire over several buckets ends, for a lone caller: it does if and only if its first pass is granted
   everywhere, or after some refused pass all buckets recover in time: those that granted in it hold n tokens again,
   and where the sleep was cut short those that refused hold them too.
   */
  lemma AcquireFinishesIff(w: World, q: Request)
    requires q.Fits() && KeysInRange(w, q.cfgs, q.apiKey)
    ensures (exists passes: nat :: q.Finishes(w, passes)) <==> q.AllHold(w) || exists k: nat :: RecoversAt(w, q, k)
  {
    hide GrantsAt, RecoversAt, Request.Finishes, Request.AllHold, KeysInRange, Request.Longest;
    FirstPassGrants(w, q);
    if passes: nat :| q.Finishes(w, passes) {
      LoopFinishes(w, q, passes);
      var k: nat :| k < passes && GrantsAt(w, q, k);
      var first := FirstGrant(w, q, k);
      if first > 0 { NextPassGrantsIff(w, q, first - 1); }
    }
    if GrantsAt(w, q, 0) { GrantEnds(w, q, 0); }
    if k: nat :| RecoversAt(w, q, k) {
      RecoveryIsRefused(w, q, k);
      NextPassGrantsIff(w, q, k);
      GrantEnds(w, q, k + 1);
    }
  }

  lemma FirstPassGrants(w: World, q: Request)
    requires q.Distinct()
    ensures GrantsAt(w, q, 0) <==> q.AllHold(w)
  {
    GrantedEverywhere(w, q);
  }

  lemma GrantEnds(w: World, q: Request, k: nat)
    requires AllValid(q.cfgs) && GrantsAt(w, q, k)
    ensures q.Finishes(w, k + 1)
  {
    hide GrantsAt, Request.Finishes;
    LoopFinishes(w, q, k + 1);
  }

  lemma RecoveryIsRefused(w: World, q: Request, k: nat)
    requires AllValid(q.cfgs) && RecoversAt(w, q, k)
    ensures !GrantsAt(w, q, k)
  {
    hide GrantsAt, Request.Held;
  }

  // ---- Holding one bucket's tokens while waiting for another ----

  /** The loop comes to its k-th pass. */
  ghost predicate Reaches(w: World, q: Request, k: nat)
    requires AllValid(q.cfgs)
  {
    forall j: nat :: j < k ==> !GrantsAt(w, q, j)
  }

  /** Some pass takes tokens of one bucket, is refused by another, and the caller goes to sleep on it. */
  ghost predicate HoldsWhileWaiting(w: World, q: Request)
    requires AllValid(q.cfgs)
  {
    exists k: nat :: Reaches(w, q, k) && q.Mixed(WorldAt(w, q, k))
  }

  /** All passes before the k-th are refused by every bucket. */
  ghost predicate NothingTaken(w: World, q: Request, k: nat)
    requires AllValid(q.cfgs)
  {
    forall j: nat, i: nat :: j < k && i < |q.cfgs| ==> q.Held(WorldAt(w, q, j), i) < q.n as real
  }

  lemma MixedIsRefused(w: World, q: Request)
    requires q.Distinct() && q.Longest(w) > 0.0 && !q.Mixed(w)
    ensures forall i :: 0 <= i < |q.cfgs| ==> q.Held(w, i) < q.n as real
  {
    hide Request.Held, Request.Longest;
    GrantedEverywhere(w, q);
    var j :| 0 <= j < |q.cfgs| && q.Held(w, j) < q.n as real;
  }

  lemma {:induction false} FirstMixed(w: World, q: Request, k: nat) returns (first: nat)
    requires AllValid(q.cfgs) && q.Mixed(WorldAt(w, q, k))
    ensures first <= k && q.Mixed(WorldAt(w, q, first))
    ensures forall j: nat :: j < first ==> !q.Mixed(WorldAt(w, q, j))
    decreases k
  {
    hide Request.Mixed, WorldAt;
    if j: nat :| j < k && q.Mixed(WorldAt(w, q, j)) {
      first := FirstMixed(w, q, j);
    } else {
      first := k;
    }
  }

  /** The first tokens that are taken decide: the caller waits on them if and only if that pass is refused. */
  lemma HoldsFromFirstGrant(w: World, q: Request)
    requires q.Distinct()
    ensures HoldsWhileWaiting(w, q) <==> exists k: nat :: NothingTaken(w, q, k) && q.Mixed(WorldAt(w, q, k))
  {
    hide Request.Mixed, Request.Held, WorldAt, Request.Longest;
    if k: nat :| Reaches(w, q, k) && q.Mixed(WorldAt(w, q, k)) {
      var first := FirstMixed(w, q, k);
      forall j: nat, i: nat | j < first && i < |q.cfgs| ensures q.Held(WorldAt(w, q, j), i) < q.n as real {
        assert !GrantsAt(w, q, j);
        MixedIsRefused(WorldAt(w, q, j), q);
      }
      assert NothingTaken(w, q, first);
    }
    if k: nat :| NothingTaken(w, q, k) && q.Mixed(WorldAt(w, q, k)) {
      forall j: nat | j < k ensures !GrantsAt(w, q, j) {
        RefusedByAll(WorldAt(w, q, j), q, WorldAt(w, q, k));
      }
      assert Reaches(w, q, k);
    }
  }

  lemma RefusedByAll(w: World, q: Request, later: World)
    requires q.Distinct() && q.Mixed(later)
    requires forall i: nat :: i < |q.cfgs| ==> q.Held(w, i) < q.n as real
    ensures q.Longest(w) > 0.0
  {
    hide Request.Held, Request.Longest;
    GrantedEverywhere(w, q);
    var i, j :| 0 <= i < |q.cfgs| && 0 <= j < |q.cfgs| && q.Held(later, i) >= q.n as real > q.Held(later, j);
    assert q.Held(w, i) < q.n as real;
  }

  /**
   The documented "never holds a token of one bucket while waiting on another". As long as the caller may sleep for
   what its first pass asks, it does so if and only if in that pass some bucket holds n tokens and some holds less,
   which can be looked up before the call.
   */
  lemma HoldsWhileWaitingIff(w: World, q: Request)
    requires q.Fits() && KeysInRange(w, q.cfgs, q.apiKey)
    ensures q.Mixed(w) ==> HoldsWhileWaiting(w, q)
    ensures q.Longest(w) <= q.maxWait ==> (HoldsWhileWaiting(w, q) <==> q.Mixed(w))
  {
    hide Request.Mixed, Request.Held, Request.Longest, KeysInRange;
    assert WorldAt(w, q, 0) == w;
    if q.Mixed(w) {
      assert Reaches(w, q, 0);
    } else if q.Longest(w) <= q.maxWait && HoldsWhileWaiting(w, q) {
      HoldsFromFirstGrant(w, q);
      var k: nat :| NothingTaken(w, q, k) && q.Mixed(WorldAt(w, q, k));
      SecondPassGrants(w, q, k);
    }
  }

  /** What nobody granted in a first pass everybody grants in the second. */
  lemma SecondPassGrants(w: World, q: Request, k: nat)
    requires q.Fits() && KeysInRange(w, q.cfgs, q.apiKey) && q.Longest(w) <= q.maxWait
    requires NothingTaken(w, q, k) && q.Mixed(WorldAt(w, q, k))
    ensures k == 0
  {
    hide Request.Held, Request.Longest, Request.Resumed, KeysInRange;
    if k > 0 {
      assert WorldAt(w, q, 0) == w && WorldAt(w, q, 1) == q.Resumed(w);
      forall i: nat | i < |q.cfgs| ensures q.Held(q.Resumed(w), i) >= q.n as real {
        assert q.Held(WorldAt(w, q, 0), i) < q.n as real;
        RefuserRecovers(w, q, i);
      }
      var i, j :| 0 <= i < |q.cfgs| && 0 <= j < |q.cfgs|
                  && q.Held(WorldAt(w, q, k), i) >= q.n as real > q.Held(WorldAt(w, q, k), j);
      if k > 1 {
        assert q.Held(WorldAt(w, q, 1), i) < q.n as real;
      }
    }
  }

  // ---- Two passes ----

  /** What is left after a grant is still there later. */
  lemma LeftoverStays(cfg: Bucket, keyTtl: nat, k: Key, t: real, n: nat, later: real)
    requires cfg.Valid() && InRange(cfg, k) && n <= cfg.capacity && t <= later
    requires Avail(cfg, k, t) >= 2.0 * n as real
    ensures Avail(cfg, TryScript(cfg, keyTtl, k, t, n).0, later) >= n as real
  {
    hide Bucket.Earned;
    var k' := TryScript(cfg, keyTtl, k, t, n).0;
    EarnedSign(cfg, later - k'.value.ts);
  }

  /** Every bucket holds less than n tokens or at least 2n when a pass comes to it. */
  predicate AllOrNothing(w: World, q: Request)
    requires AllValid(q.cfgs)
  {
    forall i :: 0 <= i < |q.cfgs| ==> q.Held(w, i) < q.n as real || q.Held(w, i) >= 2.0 * q.n as real
  }

  lemma GranterHoldsAgain(w: World, q: Request, i: nat)
    requires q.Fits() && i < |q.cfgs| && KeysInRange(w, q.cfgs, q.apiKey) && q.Longest(w) <= q.maxWait
    requires q.Held(w, i) >= 2.0 * q.n as real
    ensures q.Held(q.Resumed(w), i) >= q.n as real
  {
    hide Limiter.Pass, Avail, KeyName, WaitMs, RefillTs;
    var c := q.cfgs[i];
    assert c in q.cfgs;
    PassTriesEach(w, q, i);
    NextTryIsLater(w, q, i);
    LeftoverStays(c.Args(), q.keyTtl, q.KeyOf(w, i), q.TryTime(w, i), q.n, q.TryTime(q.Resumed(w), i));
  }

  /**
   A lone caller whose buckets each hold either less than n tokens or at least 2n when its first pass comes to them
   is through in two passes: what grants once can grant again.
   */
  lemma TwoPassesSuffice(w: World, q: Request)
    requires q.Fits() && KeysInRange(w, q.cfgs, q.apiKey) && AllOrNothing(w, q) && q.Longest(w) <= q.maxWait
    ensures q.Finishes(w, 2)
  {
    hide Limiter.Pass, Request.Held, Limiter.Longest;
    if q.Longest(w) > 0.0 {
      forall i | 0 <= i < |q.cfgs| && q.Held(w, i) >= q.n as real ensures q.Held(q.Resumed(w), i) >= q.n as real {
        GranterHoldsAgain(w, q, i);
      }
      NextPassFinishesIff(w, q);
    } else {
      FirstPass(w, q, 2);
    }
  }

  lemma {:induction false} NoLag(now: real, calls: nat, i: nat)
    ensures TryAt(now, calls, (k: nat) => 0.0, i) == now
  {
    if i > 0 { NoLag(now, calls, i - 1); }
  }

  /** Without lag what a pass finds is what the caller can look up beforehand. */
  lemma LookedUpBeforehand(w: World, q: Request, i: nat)
    requires AllValid(q.cfgs) && i < |q.cfgs| && q.lag == ((k: nat) => 0.0)
    ensures q.Held(w, i) == Avail(q.cfgs[i].Args(), q.KeyOf(w, i), w.now)
  {
    hide Avail;
    NoLag(w.now, w.calls, i);
  }
}
