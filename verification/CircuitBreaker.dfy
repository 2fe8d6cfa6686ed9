/**
 The circuit breaker of backend/arena/riot/circuit_breaker.py. Each locked section is one step; calls that
 overlap interleave these steps in any order.
 */
module CircuitBreaker {
  import opened Wrappers

  datatype CircuitState = CLOSED | OPEN | HALF_OPEN

  /** Trip after `failureThreshold` failures within `windowSeconds`; stay open for `cooldownSeconds`. */
  datatype CircuitConfig = CircuitConfig(failureThreshold: int, windowSeconds: real, cooldownSeconds: real) {
    predicate Valid() {
      failureThreshold >= 1 && windowSeconds >= 0.0 && cooldownSeconds > 0.0
    }
  }

  datatype Internals = Internals(state: CircuitState, failures: seq<real>, openedAt: real)

  const INITIAL := Internals(CLOSED, [], 0.0)

  // ---- The locked sections as functions ----

  function Pruned(failures: seq<real>, cutoff: real): seq<real> {
    if failures != [] && failures[0] < cutoff then Pruned(failures[1..], cutoff) else failures
  }

  /** Whether a call is let through at `now`, and the state after the gate. */
  function Before(cfg: CircuitConfig, s: Internals, now: real): (Internals, bool) {
    if s.state.OPEN? then
      if now - s.openedAt >= cfg.cooldownSeconds then (s.(state := HALF_OPEN), true) else (s, false)
    else (s, true)
  }

  function OnSuccess(s: Internals): Internals {
    s.(state := CLOSED, failures := [])
  }

  function OnFailure(cfg: CircuitConfig, s: Internals, now: real): Internals {
    if s.state.HALF_OPEN? then s.(state := OPEN, openedAt := now)
    else
      var kept := Pruned(s.failures + [now], now - cfg.windowSeconds);
      if |kept| >= cfg.failureThreshold then Internals(OPEN, [], now) else s.(failures := kept)
  }

  class CircuitBreaker {
    const cfg: CircuitConfig
    var state: CircuitState
    var failures: seq<real>
    var openedAt: real

    function Fields(): Internals
      reads this
    {
      Internals(state, failures, openedAt)
    }

    constructor (cfg: CircuitConfig)
      ensures this.cfg == cfg && Fields() == INITIAL
    {
      this.cfg := cfg;
      state, failures, openedAt := CLOSED, [], 0.0;
    }

    method Prune(now: real)
      modifies this`failures
      ensures failures == Pruned(old(failures), now - cfg.windowSeconds)
    {
      var cutoff := now - cfg.windowSeconds;
      while failures != [] && failures[0] < cutoff
        invariant Pruned(failures, cutoff) == Pruned(old(failures), cutoff)
        decreases |failures|
      {
        failures := failures[1..];
      }
    }

    /** `_before_call`: false where the source raises CircuitOpenError. */
    method BeforeCall(now: real) returns (admitted: bool)
      modifies this`state
      ensures (Fields(), admitted) == Before(cfg, old(Fields()), now)
    {
      if state == OPEN {
        var elapsed := now - openedAt;
        if elapsed >= cfg.cooldownSeconds {
          state := HALF_OPEN;
          return true;
        }
        return false;
      }
      admitted := true;
    }

    method Succeed()
      modifies this
      ensures Fields() == OnSuccess(old(Fields()))
    {
      failures := [];
      state := CLOSED;
    }

    method Fail(now: real)
      modifies this
      ensures Fields() == OnFailure(cfg, old(Fields()), now)
    {
      if state == HALF_OPEN {
        state := OPEN;
        openedAt := now;
        return;
      }
      failures := failures + [now];
      Prune(now);
      if |failures| >= cfg.failureThreshold {
        state := OPEN;
        openedAt := now;
        failures := [];
      }
    }
  }

  // ---- Runs of overlapping calls ----

  datatype Event = Gate(at: real) | Success(at: real) | Failure(at: real)

  function Step(cfg: CircuitConfig, s: Internals, e: Event): Internals {
    match e
    case Gate(at) => Before(cfg, s, at).0
    case Success(_) => OnSuccess(s)
    case Failure(at) => OnFailure(cfg, s, at)
  }

  function After(cfg: CircuitConfig, run: seq<Event>): Internals {
    if run == [] then INITIAL else Step(cfg, After(cfg, run[..|run| - 1]), run[|run| - 1])
  }

  ghost predicate Ordered(run: seq<Event>) {
    forall i, j :: 0 <= i < j < |run| ==> run[i].at <= run[j].at
  }

  /** How many failures since the last success are no older than `cutoff`. */
  function RecentFailures(run: seq<Event>, cutoff: real): nat {
    if run == [] || run[|run| - 1].Success? then 0
    else
      RecentFailures(run[..|run| - 1], cutoff)
      + (if run[|run| - 1].Failure? && run[|run| - 1].at >= cutoff then 1 else 0)
  }

  ghost predicate Ascending(failures: seq<real>) {
    forall i, j :: 0 <= i < j < |failures| ==> failures[i] <= failures[j]
  }

  function CountFrom(failures: seq<real>, cutoff: real): nat {
    if failures == [] then 0
    else CountFrom(failures[..|failures| - 1], cutoff) + (if failures[|failures| - 1] >= cutoff then 1 else 0)
  }

  /** Popping stale failures off the front of an ordered deque leaves exactly those inside the window. */
  lemma {:induction false} PrunedCounts(failures: seq<real>, cutoff: real, later: real)
    requires Ascending(failures) && cutoff <= later
    ensures |Pruned(failures, cutoff)| == CountFrom(failures, cutoff)
    ensures CountFrom(Pruned(failures, cutoff), later) == CountFrom(failures, later)
    ensures Ascending(Pruned(failures, cutoff)) && forall f <- Pruned(failures, cutoff) :: f in failures
  {
    if failures != [] && failures[0] < cutoff {
      PrunedCounts(failures[1..], cutoff, later);
      CountFromFront(failures, cutoff);
      CountFromFront(failures, later);
    } else {
      AllCount(failures, cutoff);
    }
  }

  lemma {:induction false} CountFromFront(failures: seq<real>, cutoff: real)
    requires failures != []
    ensures CountFrom(failures, cutoff) == (if failures[0] >= cutoff then 1 else 0) + CountFrom(failures[1..], cutoff)
  {
    if |failures| > 1 {
      CountFromFront(failures[..|failures| - 1], cutoff);
      assert failures[..|failures| - 1][1..] == failures[1..][..|failures| - 2];
    }
  }

  lemma {:induction false} AllCount(failures: seq<real>, cutoff: real)
    requires forall i :: 0 <= i < |failures| ==> failures[i] >= cutoff
    ensures CountFrom(failures, cutoff) == |failures|
  {
    if failures != [] { AllCount(failures[..|failures| - 1], cutoff); }
  }

  /** While the breaker is closed its deque knows every failure since the last success that can still count. */
  lemma {:induction false} ClosedRemembers(cfg: CircuitConfig, run: seq<Event>, now: real)
    requires cfg.Valid() && Ordered(run) && (run != [] ==> run[|run| - 1].at <= now)
    ensures var s := After(cfg, run);
            && Ascending(s.failures) && (forall f <- s.failures :: f <= now)
            && (s.state.CLOSED? ==> forall cutoff :: cutoff >= now - cfg.windowSeconds ==>
                 CountFrom(s.failures, cutoff) == RecentFailures(run, cutoff))
  {
    if run != [] {
      var front, e := run[..|run| - 1], run[|run| - 1];
      ClosedRemembers(cfg, front, e.at);
      var s := After(cfg, front);
      if e.Failure? && !s.state.HALF_OPEN? {
        FailureRemembered(cfg, s, run, now);
      }
    }
  }

  /** The deque after a failure has been appended and stale ones popped counts what it counted, and the failure. */
  lemma FailureCounted(failures: seq<real>, at: real, start: real, cutoff: real)
    requires Ascending(failures) && (forall f <- failures :: f <= at) && start <= cutoff
    ensures var kept := Pruned(failures + [at], start);
            && Ascending(kept) && (forall f <- kept :: f <= at)
            && |kept| == CountFrom(failures, start) + (if at >= start then 1 else 0)
            && CountFrom(kept, cutoff) == CountFrom(failures, cutoff) + (if at >= cutoff then 1 else 0)
  {
    var more := failures + [at];
    assert more[..|failures|] == failures;
    assert Ascending(more) by {
      forall i, j | 0 <= i < j < |more| ensures more[i] <= more[j] { assert more[i] in failures; }
    }
    PrunedCounts(more, start, cutoff);
  }

  lemma FailureRemembered(cfg: CircuitConfig, s: Internals, run: seq<Event>, now: real)
    requires cfg.Valid() && run != [] && run[|run| - 1].Failure? && run[|run| - 1].at <= now
    requires !s.state.HALF_OPEN? && Ascending(s.failures) && forall f <- s.failures :: f <= run[|run| - 1].at
    requires s.state.CLOSED? ==> forall cutoff :: cutoff >= run[|run| - 1].at - cfg.windowSeconds ==>
               CountFrom(s.failures, cutoff) == RecentFailures(run[..|run| - 1], cutoff)
    ensures var at := run[|run| - 1].at;
            var s' := OnFailure(cfg, s, at);
            && Ascending(s'.failures) && (forall f <- s'.failures :: f <= now)
            && (s.state.CLOSED? ==>
                 (s'.state.OPEN? <==> RecentFailures(run, at - cfg.windowSeconds) >= cfg.failureThreshold))
            && (s'.state.CLOSED? ==> forall cutoff :: cutoff >= now - cfg.windowSeconds ==>
                 CountFrom(s'.failures, cutoff) == RecentFailures(run, cutoff))
  {
    hide Pruned, CountFrom, Ascending;
    var at := run[|run| - 1].at;
    var start := at - cfg.windowSeconds;
    FailureCounted(s.failures, at, start, start);
    forall cutoff | cutoff >= start && s.state.CLOSED?
      ensures CountFrom(Pruned(s.failures + [at], start), cutoff) == RecentFailures(run, cutoff)
    {
      FailureCounted(s.failures, at, start, cutoff);
    }
    NothingLeft();
  }

  lemma NothingLeft()
    ensures Ascending([])
  {
  }

  /**
   However calls overlap, a failure trips a closed breaker exactly when, with this one, at least the threshold
   of failures since the last success lie within the window; otherwise the breaker stays closed.
   */
  lemma TripsExactly(cfg: CircuitConfig, run: seq<Event>, at: real)
    requires cfg.Valid() && Ordered(run + [Failure(at)])
    requires After(cfg, run).state.CLOSED?
    ensures var s' := After(cfg, run + [Failure(at)]);
            && (s'.state.OPEN? <==> RecentFailures(run + [Failure(at)], at - cfg.windowSeconds) >= cfg.failureThreshold)
            && (!s'.state.OPEN? ==> s'.state.CLOSED?)
  {
    var all := run + [Failure(at)];
    assert all[..|run|] == run && all[|run|] == Failure(at);
    forall i, j | 0 <= i < j < |run| ensures run[i].at <= run[j].at { assert all[i].at <= all[j].at; }
    if run != [] { assert all[|run| - 1].at <= all[|run|].at; }
    ClosedRemembers(cfg, run, at);
    FailureRemembered(cfg, After(cfg, run), all, at);
  }

  // ---- Calls one after another ----

  /** One call of the breaker: when it starts, when the upstream call ends, and whether that succeeds. */
  datatype Call = Call(start: real, end: real, ok: bool)

  ghost predicate Sequential(calls: seq<Call>) {
    && (forall c <- calls :: c.start <= c.end)
    && (forall i, j :: 0 <= i < j < |calls| ==> calls[i].end <= calls[j].start)
  }

  /** The breaker after one whole call, and whether it went upstream. */
  function Run(cfg: CircuitConfig, s: Internals, call: Call): (Internals, bool) {
    var (gated, admitted) := Before(cfg, s, call.start);
    if !admitted then (gated, false)
    else (if call.ok then OnSuccess(gated) else OnFailure(cfg, gated, call.end), true)
  }

  function AfterCalls(cfg: CircuitConfig, calls: seq<Call>): Internals {
    if calls == [] then INITIAL else Run(cfg, AfterCalls(cfg, calls[..|calls| - 1]), calls[|calls| - 1]).0
  }

  predicate Admitted(cfg: CircuitConfig, calls: seq<Call>, i: nat)
    requires i < |calls|
  {
    Run(cfg, AfterCalls(cfg, calls[..i]), calls[i]).1
  }

  /** How many of the calls numbered from `lo` to below `hi` go upstream. */
  function Upstream(cfg: CircuitConfig, calls: seq<Call>, lo: nat, hi: nat): nat
    requires lo <= hi <= |calls|
  {
    if lo == hi then 0 else Upstream(cfg, calls, lo, hi - 1) + (if Admitted(cfg, calls, hi - 1) then 1 else 0)
  }

  /** k cooldowns. */
  function Cooldowns(cfg: CircuitConfig, k: nat): real {
    k as real * cfg.cooldownSeconds
  }

  lemma OneMoreCooldown(cfg: CircuitConfig, k: nat)
    ensures Cooldowns(cfg, k + 1) == Cooldowns(cfg, k) + cfg.cooldownSeconds && Cooldowns(cfg, 0) == 0.0
  {
  }

  /** Between calls that do not overlap the breaker is never half open. */
  lemma {:induction false} NeverHalfOpenBetween(cfg: CircuitConfig, calls: seq<Call>)
    ensures !AfterCalls(cfg, calls).state.HALF_OPEN?
  {
    if calls != [] { NeverHalfOpenBetween(cfg, calls[..|calls| - 1]); }
  }

  lemma TripIsAtTheEnd(cfg: CircuitConfig, s: Internals, call: Call)
    requires Run(cfg, s, call).1 && !call.ok && Run(cfg, s, call).0.state.OPEN?
    ensures Run(cfg, s, call).0.openedAt == call.end
  {
  }

  lemma AfterOneMore(cfg: CircuitConfig, calls: seq<Call>, j: nat)
    requires j < |calls|
    ensures AfterCalls(cfg, calls[..j + 1]) == Run(cfg, AfterCalls(cfg, calls[..j]), calls[j]).0
  {
    assert calls[..j + 1][..j] == calls[..j];
  }

  /** An open breaker lets a call through only after the cooldown, and opens anew when that call fails. */
  lemma OpenTakesCall(cfg: CircuitConfig, s: Internals, call: Call)
    requires s.state.OPEN?
    ensures var (s', upstream) := Run(cfg, s, call);
            if upstream then
              call.start >= s.openedAt + cfg.cooldownSeconds && (!call.ok ==> s'.state.OPEN? && s'.openedAt == call.end)
            else s' == s
  {
  }

  /**
   Once tripped by call i, and until a call succeeds, the breaker stays open between calls, and its opening is
   at least one cooldown later for every call that went upstream in between.
   */
  lemma {:induction false} StaysOpen(cfg: CircuitConfig, calls: seq<Call>, i: nat, j: nat)
    requires cfg.Valid() && Sequential(calls) && i < j <= |calls|
    requires Admitted(cfg, calls, i) && !calls[i].ok && AfterCalls(cfg, calls[..i + 1]).state.OPEN?
    requires forall m :: i < m < j && Admitted(cfg, calls, m) ==> !calls[m].ok
    ensures var s := AfterCalls(cfg, calls[..j]);
            s.state.OPEN? && s.openedAt >= calls[i].end + Cooldowns(cfg, Upstream(cfg, calls, i + 1, j))
    decreases j
  {
    hide Cooldowns, Run, AfterCalls;
    AfterOneMore(cfg, calls, j - 1);
    if j == i + 1 {
      TripIsAtTheEnd(cfg, AfterCalls(cfg, calls[..i]), calls[i]);
      OneMoreCooldown(cfg, 0);
    } else {
      StaysOpen(cfg, calls, i, j - 1);
      OpenTakesCall(cfg, AfterCalls(cfg, calls[..j - 1]), calls[j - 1]);
      OneMoreCooldown(cfg, Upstream(cfg, calls, i + 1, j - 1));
      assert calls[j - 1] in calls;
    }
  }

  /** The k-th upstream call after a trip starts no earlier than k cooldowns after it, until one succeeds. */
  lemma RetriesAreSpaced(cfg: CircuitConfig, calls: seq<Call>, i: nat, j: nat)
    requires cfg.Valid() && Sequential(calls) && i < j < |calls|
    requires Admitted(cfg, calls, i) && !calls[i].ok && AfterCalls(cfg, calls[..i + 1]).state.OPEN?
    requires forall m :: i < m < j && Admitted(cfg, calls, m) ==> !calls[m].ok
    requires Admitted(cfg, calls, j)
    ensures calls[j].start >= calls[i].end + Cooldowns(cfg, Upstream(cfg, calls, i + 1, j + 1))
  {
    hide Cooldowns, Run, AfterCalls;
    StaysOpen(cfg, calls, i, j);
    OpenTakesCall(cfg, AfterCalls(cfg, calls[..j]), calls[j]);
    OneMoreCooldown(cfg, Upstream(cfg, calls, i + 1, j));
  }

  // ---- When overlapping calls get through ----

  /** The breaker just before the i-th event. */
  function At(cfg: CircuitConfig, run: seq<Event>, i: nat): Internals
    requires i <= |run|
  {
    After(cfg, run[..i])
  }

  lemma AtNext(cfg: CircuitConfig, run: seq<Event>, i: nat)
    requires i < |run|
    ensures At(cfg, run, i + 1) == Step(cfg, At(cfg, run, i), run[i])
  {
    assert run[..i + 1][..i] == run[..i];
  }

  /** The i-th event is a failure that opens the breaker, or opens it anew. */
  predicate Trips(cfg: CircuitConfig, run: seq<Event>, i: nat)
    requires i < |run|
  {
    && run[i].Failure?
    && (var s := At(cfg, run, i);
        || s.state.HALF_OPEN?
        || |Pruned(s.failures + [run[i].at], run[i].at - cfg.windowSeconds)| >= cfg.failureThreshold)
  }

  /** The i-th event is a gate that lets its call through. */
  predicate LetsThrough(cfg: CircuitConfig, run: seq<Event>, i: nat)
    requires i < |run|
  {
    run[i].Gate? && Before(cfg, At(cfg, run, i), run[i].at).1
  }

  /** No success is recorded from event lo to before event hi. */
  ghost predicate NoSuccess(run: seq<Event>, lo: nat, hi: nat)
    requires hi <= |run|
  {
    forall m :: lo <= m < hi ==> !run[m].Success?
  }

  /** The breaker does not trip from event lo to before event hi. */
  ghost predicate NoTrip(cfg: CircuitConfig, run: seq<Event>, lo: nat, hi: nat)
    requires hi <= |run|
  {
    forall m :: lo <= m < hi ==> !Trips(cfg, run, m)
  }

  lemma TripOpens(cfg: CircuitConfig, run: seq<Event>, i: nat)
    requires i < |run| && Trips(cfg, run, i)
    ensures At(cfg, run, i + 1).state.OPEN? && At(cfg, run, i + 1).openedAt == run[i].at
  {
    hide After, Pruned;
    AtNext(cfg, run, i);
  }

  /** Before its cooldown is over an open breaker changes only by a success, or to open anew. */
  lemma OpenStep(cfg: CircuitConfig, run: seq<Event>, i: nat)
    requires i < |run| && !run[i].Success? && At(cfg, run, i).state.OPEN?
    requires run[i].at < At(cfg, run, i).openedAt + cfg.cooldownSeconds
    ensures !LetsThrough(cfg, run, i) && At(cfg, run, i + 1).state.OPEN?
    ensures At(cfg, run, i + 1).openedAt == (if Trips(cfg, run, i) then run[i].at else At(cfg, run, i).openedAt)
  {
    hide After, Pruned;
    AtNext(cfg, run, i);
  }

  /** Without a success in between, a trip keeps the breaker open for at least one cooldown. */
  lemma {:induction false} TripHolds(cfg: CircuitConfig, run: seq<Event>, i: nat, j: nat)
    requires Ordered(run) && i < j < |run| && Trips(cfg, run, i) && NoSuccess(run, i + 1, j)
    requires run[j].at < run[i].at + cfg.cooldownSeconds
    ensures At(cfg, run, j).state.OPEN? && run[i].at <= At(cfg, run, j).openedAt
    decreases j
  {
    hide After, Trips, LetsThrough;
    if j == i + 1 {
      TripOpens(cfg, run, i);
    } else {
      TripHolds(cfg, run, i, j - 1);
      OpenStep(cfg, run, j - 1);
    }
  }

  /** From a success on, and until the breaker trips, it stays closed. */
  lemma {:induction false} SuccessHolds(cfg: CircuitConfig, run: seq<Event>, k: nat, j: nat)
    requires k < j <= |run| && run[k].Success? && NoTrip(cfg, run, k, j)
    ensures At(cfg, run, j).state.CLOSED?
    decreases j
  {
    hide After, Pruned;
    AtNext(cfg, run, j - 1);
    if j > k + 1 {
      SuccessHolds(cfg, run, k, j - 1);
      assert !Trips(cfg, run, j - 1);
    }
  }

  lemma {:induction false} LastTrip(cfg: CircuitConfig, run: seq<Event>, lo: nat, hi: nat) returns (i: nat)
    requires lo < hi <= |run| && !NoTrip(cfg, run, lo, hi)
    ensures lo <= i < hi && Trips(cfg, run, i) && NoTrip(cfg, run, i + 1, hi)
    decreases hi
  {
    if Trips(cfg, run, hi - 1) { i := hi - 1; } else { i := LastTrip(cfg, run, lo, hi - 1); }
  }

  /**
   Within one cooldown of a trip a gate lets its call through if and only if a success has been recorded since
   and the breaker has not tripped again after it. Otherwise the breaker is open to nobody, as documented.
   */
  lemma CooldownIsKeptIff(cfg: CircuitConfig, run: seq<Event>, i: nat, j: nat)
    requires Ordered(run) && i < j < |run| && Trips(cfg, run, i)
    requires run[j].Gate? && run[j].at < run[i].at + cfg.cooldownSeconds
    ensures LetsThrough(cfg, run, j)
       <==> exists k :: i < k < j && run[k].Success? && NoTrip(cfg, run, k, j)
  {
    hide After, Trips;
    if k :| i < k < j && run[k].Success? && NoTrip(cfg, run, k, j) {
      SuccessHolds(cfg, run, k, j);
    } else {
      var last := LastTrip(cfg, run, i, j);
      forall m | last + 1 <= m < j ensures !run[m].Success? {
        assert NoTrip(cfg, run, m, j);
      }
      TripHolds(cfg, run, last, j);
    }
  }

  /**
   How many failures no older than `cutoff` a breaker still holds against its upstream, whatever its state: those since
   the last success or the last trip by count, leaving out the ones that only reopened it.
   */
  ghost function Held(cfg: CircuitConfig, run: seq<Event>, cutoff: real): nat {
    if run == [] then 0
    else
      var n := |run| - 1;
      var before := Held(cfg, run[..n], cutoff);
      match run[n]
      case Gate(_) => before
      case Success(_) => 0
      case Failure(at) =>
        if After(cfg, run[..n]).state.HALF_OPEN? then before
        else if After(cfg, run) == Internals(OPEN, [], at) then 0
        else before + (if at >= cutoff then 1 else 0)
  }

  /** In every state the deque is exactly what is held. */
  lemma {:induction false} DequeIsHeld(cfg: CircuitConfig, run: seq<Event>, now: real)
    requires cfg.Valid() && Ordered(run) && (run != [] ==> run[|run| - 1].at <= now)
    ensures var s := After(cfg, run);
            && Ascending(s.failures) && (forall f <- s.failures :: f <= now)
            && forall cutoff :: cutoff >= now - cfg.windowSeconds ==>
                 CountFrom(s.failures, cutoff) == Held(cfg, run, cutoff)
  {
    if run != [] {
      var front, e := run[..|run| - 1], run[|run| - 1];
      DequeIsHeld(cfg, front, e.at);
      if e.Failure? && !After(cfg, front).state.HALF_OPEN? {
        FailureHeld(cfg, front, e.at, now);
        assert front + [e] == run;
      }
    }
  }

  lemma FailureHeld(cfg: CircuitConfig, front: seq<Event>, at: real, now: real)
    requires cfg.Valid() && at <= now && !After(cfg, front).state.HALF_OPEN?
    requires var s := After(cfg, front);
             && Ascending(s.failures) && (forall f <- s.failures :: f <= at)
             && forall cutoff :: cutoff >= at - cfg.windowSeconds ==>
                  CountFrom(s.failures, cutoff) == Held(cfg, front, cutoff)
    ensures var run := front + [Failure(at)];
            var s' := After(cfg, run);
            && Ascending(s'.failures) && (forall f <- s'.failures :: f <= now)
            && forall cutoff :: cutoff >= now - cfg.windowSeconds ==>
                 CountFrom(s'.failures, cutoff) == Held(cfg, run, cutoff)
  {
    var run, start := front + [Failure(at)], at - cfg.windowSeconds;
    assert run[..|front|] == front && run[|front|] == Failure(at);
    var s, s' := After(cfg, front), After(cfg, run);
    assert s' == OnFailure(cfg, s, at);
    hide Pruned, CountFrom, Ascending, After;
    FailureCounted(s.failures, at, start, start);
    NothingLeft();
    assert s'.failures == [] || s' != Internals(OPEN, [], at);
    forall cutoff | cutoff >= now - cfg.windowSeconds ensures CountFrom(s'.failures, cutoff) == Held(cfg, run, cutoff) {
      FailureCounted(s.failures, at, start, cutoff);
      NothingCounts(cutoff);
    }
  }

  lemma NothingCounts(cutoff: real)
    ensures CountFrom([], cutoff) == 0
  {
  }

  /** So a failure trips a breaker, closed or open, exactly when with this one the threshold is held in the window. */
  lemma TripsIff(cfg: CircuitConfig, run: seq<Event>, i: nat)
    requires cfg.Valid() && Ordered(run) && i < |run| && run[i].Failure?
    ensures Trips(cfg, run, i)
       <==> || At(cfg, run, i).state.HALF_OPEN?
            || Held(cfg, run[..i], run[i].at - cfg.windowSeconds) + 1 >= cfg.failureThreshold
  {
    hide After, Pruned, Held, CountFrom, Ascending;
    var at := run[i].at;
    DequeIsHeld(cfg, run[..i], at);
    FailureCounted(At(cfg, run, i).failures, at, at - cfg.windowSeconds, at - cfg.windowSeconds);
  }

  /** No gate of a run from event lo to before event hi comes at `due` or later. */
  ghost predicate NoGateFrom(run: seq<Event>, lo: nat, hi: nat, due: real)
    requires hi <= |run|
  {
    forall m :: lo <= m < hi && run[m].Gate? ==> run[m].at < due
  }

  /** After its last trip, with no success since and no gate past the cooldown, the breaker is as that trip left it. */
  lemma {:induction false} LastTripStands(cfg: CircuitConfig, run: seq<Event>, i: nat, j: nat)
    requires i < j <= |run| && Trips(cfg, run, i) && NoTrip(cfg, run, i + 1, j) && NoSuccess(run, i + 1, j)
    requires NoGateFrom(run, i + 1, j, run[i].at + cfg.cooldownSeconds)
    ensures At(cfg, run, j).state.OPEN? && At(cfg, run, j).openedAt == run[i].at
    decreases j
  {
    hide After, Pruned;
    if j == i + 1 {
      TripOpens(cfg, run, i);
    } else {
      LastTripStands(cfg, run, i, j - 1);
      AtNext(cfg, run, j - 1);
      assert !Trips(cfg, run, j - 1);
    }
  }

  /**
   The cooldown ends when it is over: with event i the last trip before gate j, no success since and no gate past the
   cooldown in between, the gate lets its call through if and only if a full cooldown has gone by, and then it is the
   one that turns the breaker half open.
   */
  lemma CooldownEndsIff(cfg: CircuitConfig, run: seq<Event>, i: nat, j: nat)
    requires i < j < |run| && run[j].Gate?
    requires Trips(cfg, run, i) && NoTrip(cfg, run, i + 1, j) && NoSuccess(run, i + 1, j)
    requires NoGateFrom(run, i + 1, j, run[i].at + cfg.cooldownSeconds)
    ensures LetsThrough(cfg, run, j) <==> run[j].at >= run[i].at + cfg.cooldownSeconds
    ensures LetsThrough(cfg, run, j) ==> At(cfg, run, j + 1).state.HALF_OPEN?
    ensures !LetsThrough(cfg, run, j) ==> At(cfg, run, j + 1) == At(cfg, run, j)
  {
    hide After, Trips;
    LastTripStands(cfg, run, i, j);
    AtNext(cfg, run, j);
  }

  /** An open breaker has a last trip, and neither a success since nor a gate past its cooldown. */
  lemma {:induction false} OpenHasTrip(cfg: CircuitConfig, run: seq<Event>, j: nat) returns (i: nat)
    requires j <= |run| && At(cfg, run, j).state.OPEN?
    ensures i < j && Trips(cfg, run, i) && NoTrip(cfg, run, i + 1, j) && NoSuccess(run, i + 1, j)
    ensures At(cfg, run, j).openedAt == run[i].at
    ensures NoGateFrom(run, i + 1, j, run[i].at + cfg.cooldownSeconds)
    decreases j
  {
    hide After, Pruned;
    StartsClosed(cfg, run);
    AtNext(cfg, run, j - 1);
    if Trips(cfg, run, j - 1) {
      TripOpens(cfg, run, j - 1);
      i := j - 1;
    } else {
      i := OpenHasTrip(cfg, run, j - 1);
    }
  }

  lemma StartsClosed(cfg: CircuitConfig, run: seq<Event>)
    ensures At(cfg, run, 0) == INITIAL
  {
  }

  /**
   Which gates are refused, over every ordered interleaving: exactly those that come less than one cooldown after the
   last trip before them, with no success in between.
   */
  lemma RefusedIff(cfg: CircuitConfig, run: seq<Event>, j: nat)
    requires Ordered(run) && j < |run| && run[j].Gate?
    ensures !LetsThrough(cfg, run, j)
       <==> exists i :: && 0 <= i < j && Trips(cfg, run, i) && NoTrip(cfg, run, i + 1, j) && NoSuccess(run, i + 1, j)
                        && run[j].at < run[i].at + cfg.cooldownSeconds
  {
    hide After, Trips;
    if !LetsThrough(cfg, run, j) {
      var i := OpenHasTrip(cfg, run, j);
    }
    if i :| && 0 <= i < j && Trips(cfg, run, i) && NoTrip(cfg, run, i + 1, j) && NoSuccess(run, i + 1, j)
            && run[j].at < run[i].at + cfg.cooldownSeconds
    {
      LastTripStands(cfg, run, i, j);
    }
  }

  // ---- The trial of a half-open breaker ----

  /** The i-th event is the gate that turns the breaker half open. */
  predicate TurnsHalfOpen(cfg: CircuitConfig, run: seq<Event>, i: nat)
    requires i < |run|
  {
    run[i].Gate? && At(cfg, run, i).state.OPEN? && At(cfg, run, i + 1).state.HALF_OPEN?
  }

  /** No call's outcome is recorded from event lo to before event hi. */
  ghost predicate NoOutcome(run: seq<Event>, lo: nat, hi: nat)
    requires hi <= |run|
  {
    forall m :: lo <= m < hi ==> run[m].Gate?
  }

  /** How many calls are let through from event lo to before event hi. */
  function Through(cfg: CircuitConfig, run: seq<Event>, lo: nat, hi: nat): nat
    requires lo <= hi <= |run|
  {
    if lo == hi then 0 else Through(cfg, run, lo, hi - 1) + (if LetsThrough(cfg, run, hi - 1) then 1 else 0)
  }

  /** Until the next outcome a half-open breaker stays half open and lets every call through. */
  lemma {:induction false} HalfOpenHolds(cfg: CircuitConfig, run: seq<Event>, i: nat, j: nat)
    requires i < j <= |run| && TurnsHalfOpen(cfg, run, i) && NoOutcome(run, i, j)
    ensures At(cfg, run, j).state.HALF_OPEN? && Through(cfg, run, i, j) == j - i
    decreases j
  {
    hide After;
    AtNext(cfg, run, j - 1);
    if j == i + 1 {
      assert Through(cfg, run, i, i) == 0;
    } else {
      HalfOpenHolds(cfg, run, i, j - 1);
    }
  }

  /**
   From the gate that turns the breaker half open up to the next outcome, recorded as event j, every gate lets
   its call through; so the documented single trial is what happens if and only if no other gate comes before
   that outcome.
   */
  lemma HalfOpenAdmitsAll(cfg: CircuitConfig, run: seq<Event>, i: nat, j: nat)
    requires i < j < |run| && TurnsHalfOpen(cfg, run, i) && NoOutcome(run, i, j) && !run[j].Gate?
    ensures forall m :: i <= m < j ==> LetsThrough(cfg, run, m)
    ensures Through(cfg, run, i, j) == 1 <==> forall m :: i < m < j ==> !run[m].Gate?
  {
    hide After, Through;
    forall m | i <= m < j ensures LetsThrough(cfg, run, m) {
      AtNext(cfg, run, m);
      if m > i { HalfOpenHolds(cfg, run, i, m); }
    }
    HalfOpenHolds(cfg, run, i, j);
    if j > i + 1 { assert run[i + 1].Gate?; }
  }

  // ---- Both departures from the documentation are reached ----

  /** How many calls have been let through and have not ended after i events. */
  function Pending(cfg: CircuitConfig, run: seq<Event>, i: nat): int
    requires i <= |run|
  {
    if i == 0 then 0
    else
      Pending(cfg, run, i - 1)
      + (if LetsThrough(cfg, run, i - 1) then 1 else if run[i - 1].Gate? then 0 else -1)
  }

  /** Time does not run backwards, and every outcome belongs to a call that was let through before. */
  ghost predicate Genuine(cfg: CircuitConfig, run: seq<Event>) {
    Ordered(run) && forall i :: 0 <= i <= |run| ==> Pending(cfg, run, i) >= 0
  }

  /** A run of calls, with the breaker it leaves and the calls still upstream. */
  ghost predicate Reaches(cfg: CircuitConfig, run: seq<Event>, s: Internals, pending: nat, at: real) {
    && Genuine(cfg, run) && At(cfg, run, |run|) == s && Pending(cfg, run, |run|) == pending
    && (run != [] ==> run[|run| - 1].at <= at)
  }

  lemma NothingYet(cfg: CircuitConfig)
    ensures Reaches(cfg, [], INITIAL, 0, 0.0)
  {
  }

  lemma {:induction false} PendingOfPrefix(cfg: CircuitConfig, run: seq<Event>, e: Event, i: nat)
    requires i <= |run|
    ensures Pending(cfg, run + [e], i) == Pending(cfg, run, i)
  {
    if i > 0 {
      PendingOfPrefix(cfg, run, e, i - 1);
      assert (run + [e])[..i - 1] == run[..i - 1];
    }
  }

  lemma GenuineGrows(cfg: CircuitConfig, run: seq<Event>, e: Event)
    requires Genuine(cfg, run) && (run != [] ==> run[|run| - 1].at <= e.at)
    requires Pending(cfg, run + [e], |run| + 1) >= 0
    ensures Genuine(cfg, run + [e])
  {
    hide Pending;
    forall i | 0 <= i <= |run| ensures Pending(cfg, run + [e], i) >= 0 {
      PendingOfPrefix(cfg, run, e, i);
    }
    assert Ordered(run + [e]);
  }

  lemma AtOfPrefix(cfg: CircuitConfig, run: seq<Event>, e: Event)
    ensures At(cfg, run + [e], |run|) == At(cfg, run, |run|)
    ensures At(cfg, run + [e], |run| + 1) == Step(cfg, At(cfg, run, |run|), e)
  {
    hide After;
    assert (run + [e])[..|run|] == run[..|run|];
    AtNext(cfg, run + [e], |run|);
  }

  /** One more event; an outcome needs a call upstream. */
  lemma OneMore(cfg: CircuitConfig, run: seq<Event>, s: Internals, pending: nat, at: real, e: Event)
    returns (run': seq<Event>)
    requires Reaches(cfg, run, s, pending, at) && at <= e.at && (e.Gate? || pending > 0)
    ensures run' == run + [e] && At(cfg, run', |run|) == s
    ensures var more := if !e.Gate? then pending - 1 else if Before(cfg, s, e.at).1 then pending + 1 else pending;
            Reaches(cfg, run', Step(cfg, s, e), more, e.at)
  {
    hide At, Step, Before, Genuine;
    run' := run + [e];
    AtOfPrefix(cfg, run, e);
    PendingOfPrefix(cfg, run, e, |run|);
    GenuineGrows(cfg, run, e);
  }

  /** Any number of calls let through at time 0. */
  lemma {:induction false} CallsStart(cfg: CircuitConfig, n: nat) returns (run: seq<Event>)
    ensures Reaches(cfg, run, INITIAL, n, 0.0)
  {
    hide Reaches;
    if n == 0 {
      NothingYet(cfg);
      run := [];
    } else {
      run := CallsStart(cfg, n - 1);
      run := OneMore(cfg, run, INITIAL, n - 1, 0.0, Gate(0.0));
    }
  }

  function Zeros(n: nat): seq<real> {
    seq(n, i requires 0 <= i < n => 0.0)
  }

  lemma ZerosKept(n: nat, cutoff: real)
    requires cutoff <= 0.0
    ensures Pruned(Zeros(n) + [0.0], cutoff) == Zeros(n + 1)
  {
  }

  /** Of more calls than the threshold, all but `left` of them fail at time 0 without tripping yet. */
  lemma {:induction false} CallsFail(cfg: CircuitConfig, n: nat, left: nat) returns (run: seq<Event>)
    requires cfg.Valid() && n < cfg.failureThreshold
    ensures Reaches(cfg, run, Internals(CLOSED, Zeros(n), 0.0), left, 0.0)
    decreases n
  {
    hide Reaches, Pruned;
    if n == 0 {
      run := CallsStart(cfg, left);
      assert Zeros(0) == [];
    } else {
      run := CallsFail(cfg, n - 1, left + 1);
      ZerosKept(n - 1, 0.0 - cfg.windowSeconds);
      run := OneMore(cfg, run, Internals(CLOSED, Zeros(n - 1), 0.0), left + 1, 0.0, Failure(0.0));
    }
  }

  /** A breaker that trips at time 0 while `left` further calls are upstream. */
  lemma TripReached(cfg: CircuitConfig, left: nat) returns (run: seq<Event>)
    requires cfg.Valid()
    ensures run != [] && Trips(cfg, run, |run| - 1) && run[|run| - 1].at == 0.0
    ensures Reaches(cfg, run, Internals(OPEN, [], 0.0), left, 0.0)
  {
    hide Reaches, Pruned, After;
    var n := cfg.failureThreshold - 1;
    var before := CallsFail(cfg, n, left + 1);
    ZerosKept(n, 0.0 - cfg.windowSeconds);
    run := OneMore(cfg, before, Internals(CLOSED, Zeros(n), 0.0), left + 1, 0.0, Failure(0.0));
  }

  /**
   For every configuration a late success closes the breaker it did not open: a call that was upstream before the
   trip succeeds after it, and the next call goes upstream less than one cooldown after the trip.
   */
  lemma LateSuccessCloses(cfg: CircuitConfig) returns (run: seq<Event>, i: nat)
    requires cfg.Valid()
    ensures Genuine(cfg, run) && i < |run| - 1
    ensures Trips(cfg, run, i) && LetsThrough(cfg, run, |run| - 1)
    ensures run[|run| - 1].at < run[i].at + cfg.cooldownSeconds
  {
    hide After, Pruned;
    var tripped := TripReached(cfg, 1);
    i := |tripped| - 1;
    var closed := OneMore(cfg, tripped, Internals(OPEN, [], 0.0), 1, 0.0, Success(0.0));
    run := OneMore(cfg, closed, INITIAL, 0, 0.0, Gate(0.0));
    assert run[..i] == tripped[..i] && run[i] == tripped[i];
  }

  /** For every configuration two trials go through one half-open breaker. */
  lemma TwoTrialsHappen(cfg: CircuitConfig) returns (run: seq<Event>, i: nat)
    requires cfg.Valid()
    ensures Genuine(cfg, run) && i + 2 < |run| && TurnsHalfOpen(cfg, run, i)
    ensures NoOutcome(run, i, i + 2) && !run[i + 2].Gate? && Through(cfg, run, i, i + 2) == 2
  {
    hide After, Pruned;
    var t := cfg.cooldownSeconds;
    var tripped := TripReached(cfg, 0);
    i := |tripped|;
    var first := OneMore(cfg, tripped, Internals(OPEN, [], 0.0), 0, 0.0, Gate(t));
    var second := OneMore(cfg, first, Internals(HALF_OPEN, [], 0.0), 1, t, Gate(t));
    run := OneMore(cfg, second, Internals(HALF_OPEN, [], 0.0), 2, t, Failure(t));
    assert run[..i] == tripped && run[..i + 1] == first;
    assert first[..|first|] == first && tripped[..|tripped|] == tripped;
    HalfOpenHolds(cfg, run, i, i + 2);
  }
}
