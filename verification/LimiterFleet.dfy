/**
 The limiter shared by a fleet (backend/arena/riot/rate_limit.py): the script calls of all workers on all buckets in
 the order Redis executes them, and acquires that take their passes with each other's calls in between.
 */
module LimiterFleet {
  import opened Wrappers
  import opened RateLimit
  import opened Limiter

  // ---- All workers on all buckets ----

  /** One script call of any worker on any bucket: that of an acquire, or a penalty. */
  datatype Call = Call(apiKey: string, cfg: TokenBucketConfig, event: Event, acquire: Option<nat>) {
    function Name(): string {
      KeyName(apiKey, cfg.name)
    }
  }

  /** Calls that use the same key configure the same bucket. */
  ghost predicate Consistent(calls: seq<Call>, name: string, cfg: TokenBucketConfig) {
    && AllCallsValid(calls)
    && forall c <- calls :: c.Name() == name ==> c.cfg == cfg
  }

  ghost predicate AllCallsValid(calls: seq<Call>) {
    && (forall c <- calls :: c.cfg.Valid())
    && (forall i, j :: 0 <= i < j < |calls| ==> calls[i].event.at <= calls[j].event.at)
  }

  /** The database after one call, and the tokens it hands out. */
  function Execute(keys: map<string, Hash>, keyTtl: nat, c: Call): (map<string, Hash>, nat)
    requires c.cfg.Valid()
  {
    var (k, granted) := Step(c.cfg.Args(), keyTtl, Lookup(keys, c.Name()), c.event);
    (if k.Some? then keys[c.Name() := k.value] else keys, granted)
  }

  function Database(keyTtl: nat, calls: seq<Call>): map<string, Hash>
    requires forall c <- calls :: c.cfg.Valid()
  {
    if calls == [] then map[]
    else
      assert calls[|calls| - 1] in calls;
      Execute(Database(keyTtl, calls[..|calls| - 1]), keyTtl, calls[|calls| - 1]).0
  }

  /** Tokens of one key handed out at times in the closed interval from a to b. */
  function GrantedOn(keyTtl: nat, calls: seq<Call>, name: string, a: real, b: real): nat
    requires forall c <- calls :: c.cfg.Valid()
  {
    if calls == [] then 0
    else
      var front, last := calls[..|calls| - 1], calls[|calls| - 1];
      assert last in calls;
      GrantedOn(keyTtl, front, name, a, b)
      + (if last.Name() == name && a <= last.event.at <= b
         then Execute(Database(keyTtl, front), keyTtl, last).1 else 0)
  }

  /** What happens to one key. */
  function EventsOn(calls: seq<Call>, name: string): seq<Event> {
    if calls == [] then []
    else
      var last := calls[|calls| - 1];
      EventsOn(calls[..|calls| - 1], name) + (if last.Name() == name then [last.event] else [])
  }

  lemma ConsistentFront(calls: seq<Call>, name: string, cfg: TokenBucketConfig)
    requires calls != [] && Consistent(calls, name, cfg)
    ensures Consistent(calls[..|calls| - 1], name, cfg)
    ensures calls[|calls| - 1].cfg.Valid()
    ensures calls[|calls| - 1].Name() == name ==> calls[|calls| - 1].cfg == cfg
  {
    assert calls[|calls| - 1] in calls;
    forall c | c in calls[..|calls| - 1] ensures c in calls {}
  }

  lemma OrderedAppends(run: seq<Event>, e: Event)
    requires Ordered(run) && (run != [] ==> run[|run| - 1].at <= e.at)
    ensures Ordered(run + [e])
  {
  }

  /** A key's events come in the order of the calls. */
  lemma {:induction false} EventsOrdered(calls: seq<Call>, name: string)
    requires AllCallsValid(calls)
    ensures Ordered(EventsOn(calls, name))
    ensures EventsOn(calls, name) != [] ==>
              calls != [] && EventsOn(calls, name)[|EventsOn(calls, name)| - 1].at <= calls[|calls| - 1].event.at
  {
    hide Ordered, KeyName;
    if calls == [] {
      NoEvents();
    } else {
      var front, last := calls[..|calls| - 1], calls[|calls| - 1];
      forall c | c in front ensures c.cfg.Valid() { assert c in calls; }
      EventsOrdered(front, name);
      if last.Name() == name {
        OrderedAppends(EventsOn(front, name), last.event);
      } else {
        assert EventsOn(calls, name) == EventsOn(front, name);
      }
    }
  }

  lemma NoEvents()
    ensures Ordered([])
  {
  }

  /** However the calls of all workers interleave, each key goes through a run of its own bucket. */
  lemma {:induction false} EachKeyRunsItsBucket(
      keyTtl: nat, calls: seq<Call>, name: string, cfg: TokenBucketConfig, a: real, b: real)
    requires cfg.Valid() && Consistent(calls, name, cfg)
    ensures Lookup(Database(keyTtl, calls), name) == After(cfg.Args(), keyTtl, None, EventsOn(calls, name))
    ensures GrantedOn(keyTtl, calls, name, a, b) == Granted(cfg.Args(), keyTtl, None, EventsOn(calls, name), a, b)
  {
    hide RateLimit.Step, KeyName;
    if calls != [] {
      var front, last := calls[..|calls| - 1], calls[|calls| - 1];
      ConsistentFront(calls, name, cfg);
      EachKeyRunsItsBucket(keyTtl, front, name, cfg, a, b);
      if last.Name() == name {
        var run := EventsOn(calls, name);
        assert run[..|run| - 1] == EventsOn(front, name) && run[|run| - 1] == last.event;
        StepNeverDeletes(cfg.Args(), keyTtl, Lookup(Database(keyTtl, front), name), last.event);
      } else {
        assert EventsOn(calls, name) == EventsOn(front, name);
      }
    }
  }

  lemma StepNeverDeletes(cfg: Bucket, keyTtl: nat, k: Key, e: Event)
    requires cfg.Valid()
    ensures Step(cfg, keyTtl, k, e).0.None? ==> k.None?
  {
  }

  /** Whatever acquires, penalties and expiries interleave, the grants on one key obey its bucket's ceiling. */
  lemma FleetCeiling(keyTtl: nat, calls: seq<Call>, name: string, cfg: TokenBucketConfig, a: real, b: real)
    requires cfg.Valid() && Consistent(calls, name, cfg) && a <= b
    requires keyTtl as real >= cfg.refillSeconds
    ensures GrantedOn(keyTtl, calls, name, a, b) as real <= cfg.capacity as real + cfg.Args().Earned(b - a)
  {
    EachKeyRunsItsBucket(keyTtl, calls, name, cfg, a, b);
    EventsOrdered(calls, name);
    CeilingIff(cfg, keyTtl);
    assert WithinCeiling(cfg.Args(), keyTtl, EventsOn(calls, name), a, b);
  }

  // ---- A penalty and the whole fleet ----

  lemma {:induction false} EventsJoin(a: seq<Call>, b: seq<Call>, name: string)
    ensures EventsOn(a + b, name) == EventsOn(a, name) + EventsOn(b, name)
  {
    hide KeyName;
    if b == [] {
      assert a + b == a;
    } else {
      var front, last := b[..|b| - 1], b[|b| - 1];
      EventsJoin(a, front, name);
      assert (a + b)[..|a + b| - 1] == a + front && (a + b)[|a + b| - 1] == last;
    }
  }

  lemma {:induction false} AfterJoins(cfg: Bucket, keyTtl: nat, k: Key, a: seq<Event>, b: seq<Event>)
    requires cfg.Valid()
    ensures After(cfg, keyTtl, k, a + b) == After(cfg, keyTtl, After(cfg, keyTtl, k, a), b)
  {
    hide RateLimit.Step;
    if b == [] {
      assert a + b == a;
    } else {
      AfterJoins(cfg, keyTtl, k, a, b[..|b| - 1]);
      assert (a + b)[..|a + b| - 1] == a + b[..|b| - 1];
    }
  }

  /** The hash that call l' finds, by the penalty of call l on the same key and what came in between. */
  lemma HashAfterPenalty(keyTtl: nat, calls: seq<Call>, name: string, cfg: TokenBucketConfig, l: nat, l': nat)
    requires cfg.Valid() && Consistent(calls, name, cfg) && l < l' <= |calls|
    requires calls[l].Name() == name && calls[l].event.Penalize? && calls[l].event.seconds > 0.0
    ensures forall c <- calls[..l'] :: c.cfg.Valid()
    ensures var k := After(cfg.Args(), keyTtl, None, EventsOn(calls[..l], name));
            Lookup(Database(keyTtl, calls[..l']), name)
            == After(cfg.Args(), keyTtl, Penalized(keyTtl, k, calls[l].event.at, calls[l].event.seconds),
                     EventsOn(calls[l + 1..l'], name))
  {
    assert forall c <- calls[..l'] :: c in calls;
    EachKeyRunsItsBucket(keyTtl, calls[..l'], name, cfg, 0.0, 0.0);
    SplitAt(calls, name, l, l');
    hide *;
    var front, mid, p := EventsOn(calls[..l], name), EventsOn(calls[l + 1..l'], name), calls[l].event;
    AfterJoins(cfg.Args(), keyTtl, None, front + [p], mid);
    AfterJoins(cfg.Args(), keyTtl, None, front, [p]);
    OnePenalty(cfg.Args(), keyTtl, After(cfg.Args(), keyTtl, None, front), p);
  }

  lemma SplitAt(calls: seq<Call>, name: string, l: nat, l': nat)
    requires l < l' <= |calls| && calls[l].Name() == name
    ensures EventsOn(calls[..l'], name)
         == EventsOn(calls[..l], name) + [calls[l].event] + EventsOn(calls[l + 1..l'], name)
  {
    hide KeyName;
    var front, mid := calls[..l], calls[l + 1..l'];
    assert calls[..l'] == front + [calls[l]] + mid;
    EventsJoin(front + [calls[l]], mid, name);
    EventsJoin(front, [calls[l]], name);
    assert [calls[l]][..0] == [];
  }

  lemma OnePenalty(cfg: Bucket, keyTtl: nat, k: Key, p: Event)
    requires cfg.Valid() && p.Penalize? && p.seconds > 0.0
    ensures After(cfg, keyTtl, k, [p]) == Penalized(keyTtl, k, p.at, p.seconds)
  {
    assert [p][..0] == [];
  }

  /**
   Every worker on the key backs off: after a penalty, for as long as the key TTL, no call of anybody on that key is
   handed a token before the penalty is over.
   */
  lemma FleetBacksOff(keyTtl: nat, calls: seq<Call>, name: string, cfg: TokenBucketConfig, l: nat, l': nat)
    requires cfg.Valid() && Consistent(calls, name, cfg) && l < l' < |calls|
    requires calls[l].Name() == name == calls[l'].Name()
    requires calls[l].event.Penalize? && calls[l].event.seconds > 0.0
    requires calls[l'].event.at < calls[l].event.at + calls[l].event.seconds
    requires calls[l'].event.at <= calls[l].event.at + keyTtl as real
    ensures forall c <- calls[..l'] :: c.cfg.Valid()
    ensures Execute(Database(keyTtl, calls[..l']), keyTtl, calls[l']).1 == 0
  {
    var p, e := calls[l].event, calls[l'].event;
    ghost var mid := EventsOn(calls[l + 1..l'], name);
    assert calls[l'].cfg == cfg by { assert calls[l'] in calls; }
    LastEvent(calls, name, l, l');
    TailFollows(calls, name, l, l' + 1);
    HashAfterPenalty(keyTtl, calls, name, cfg, l, l');
    hide *;
    var k := After(cfg.Args(), keyTtl, None, EventsOn(calls[..l], name));
    NothingBeforeRelease(cfg.Args(), keyTtl, k, p.at, p.seconds, mid, e);
    HandedOut(keyTtl, calls, l', cfg, After(cfg.Args(), keyTtl, Penalized(keyTtl, k, p.at, p.seconds), mid));
  }

  lemma NothingBeforeRelease(cfg: Bucket, keyTtl: nat, k: Key, t0: real, seconds: real, mid: seq<Event>, e: Event)
    requires cfg.Valid() && seconds > 0.0 && Follows(mid + [e], t0)
    requires e.at < t0 + seconds && e.at <= t0 + keyTtl as real
    ensures RateLimit.Step(cfg, keyTtl, After(cfg, keyTtl, Penalized(keyTtl, k, t0, seconds), mid), e).1 == 0
  {
    hide RateLimit.Step, Bucket.Earned, Penalized, Follows, After, RateLimit.Total;
    var run := mid + [e];
    assert run[..|run| - 1] == mid && run[|run| - 1] == e;
    PenaltyFreezes(cfg, keyTtl, k, t0, seconds, run);
    EarnedSign(cfg, 0.0);
    TotalCoversLast(cfg, keyTtl, Penalized(keyTtl, k, t0, seconds), run);
  }

  lemma LastEvent(calls: seq<Call>, name: string, l: nat, l': nat)
    requires l < l' < |calls| && calls[l'].Name() == name
    ensures EventsOn(calls[l + 1..l' + 1], name) == EventsOn(calls[l + 1..l'], name) + [calls[l'].event]
  {
    var later := calls[l + 1..l' + 1];
    assert later[..|later| - 1] == calls[l + 1..l'] && later[|later| - 1] == calls[l'];
  }

  lemma HandedOut(keyTtl: nat, calls: seq<Call>, l: nat, cfg: TokenBucketConfig, k: Key)
    requires l < |calls| && cfg.Valid() && calls[l].cfg == cfg && forall c <- calls[..l] :: c.cfg.Valid()
    requires Lookup(Database(keyTtl, calls[..l]), calls[l].Name()) == k
    ensures Execute(Database(keyTtl, calls[..l]), keyTtl, calls[l]).1
         == RateLimit.Step(cfg.Args(), keyTtl, k, calls[l].event).1
  {
    hide Database, KeyName, RateLimit.Step;
  }

  lemma TailFollows(calls: seq<Call>, name: string, l: nat, hi: nat)
    requires AllCallsValid(calls) && l < hi <= |calls|
    ensures Follows(EventsOn(calls[l + 1..hi], name), calls[l].event.at)
  {
    hide KeyName, Ordered;
    var tail := calls[l + 1..hi];
    assert forall c <- tail :: c in calls;
    EventsOrdered(tail, name);
    EventsAreLater(tail, name, calls[l].event.at);
  }

  lemma {:induction false} EventsAreLater(calls: seq<Call>, name: string, at: real)
    requires forall c <- calls :: at <= c.event.at
    ensures forall e <- EventsOn(calls, name) :: at <= e.at
  {
    hide KeyName;
    if calls != [] {
      assert calls[|calls| - 1] in calls;
      EventsAreLater(calls[..|calls| - 1], name, at);
    }
  }

  lemma TotalCoversLast(cfg: Bucket, keyTtl: nat, k: Key, run: seq<Event>)
    requires cfg.Valid() && run != []
    ensures RateLimit.Step(cfg, keyTtl, After(cfg, keyTtl, k, run[..|run| - 1]), run[|run| - 1]).1
         <= RateLimit.Total(cfg, keyTtl, k, run)
  {
    hide RateLimit.Step;
  }

  // ---- Acquires with each other in between ----

  datatype FleetConfig = FleetConfig(buckets: map<string, TokenBucketConfig>, keyTtl: nat, maxWait: real) {
    ghost predicate Valid() {
      forall name <- buckets :: buckets[name].Valid()
    }
  }

  /**
   One acquire between two of its script calls: the names it was called with and their buckets, the replies of the
   pass it is in, with the times they were given at, and when it may go on.
   */
  datatype Acquire = Acquire(
    apiKey: string,
    names: seq<string>,
    cfgs: seq<TokenBucketConfig>,
    n: nat,
    replies: seq<Reply>,
    times: seq<real>,
    wake: real,
    finished: bool)

  /** All acquires of all workers, every script call so far, and the time of the last one. */
  datatype Fleet = Fleet(acquires: map<nat, Acquire>, log: seq<Call>, now: real)

  datatype FleetStep =
    | Begin(id: nat, apiKey: string, names: seq<string>, n: nat)
    | Act(id: nat, at: real)                                       // an acquire's next script call
    | Punish(apiKey: string, name: string, at: real, seconds: real)

  ghost predicate Usable(s: Fleet) {
    && (forall id <- s.acquires :: AllValid(s.acquires[id].cfgs))
    && (forall c <- s.log :: c.cfg.Valid())
  }

  lemma {:induction false} ApplicableValid(cfg: FleetConfig, names: seq<string>)
    requires cfg.Valid()
    ensures AllValid(Applicable(cfg.buckets, names))
  {
    if names != [] { ApplicableValid(cfg, names[1..]); }
  }

  /** The end of a pass: return when it was granted everywhere, else sleep and start over. */
  function EndOfPass(cfg: FleetConfig, a: Acquire, at: real): Acquire {
    if |a.replies| < |a.cfgs| then a
    else if Longest(a.replies) <= 0.0 then a.(finished := true)
    else a.(replies := [], times := [], wake := at + Min(Longest(a.replies), cfg.maxWait))
  }

  /** The next script call of an acquire, and its reply. */
  ghost function NextCall(cfg: FleetConfig, s: Fleet, id: nat, at: real): (Call, Reply)
    requires Usable(s) && id in s.acquires && |s.acquires[id].replies| < |s.acquires[id].cfgs|
  {
    var a := s.acquires[id];
    var c := a.cfgs[|a.replies|];
    var k := Lookup(Database(cfg.keyTtl, s.log), KeyName(a.apiKey, c.name));
    (Call(a.apiKey, c, Try(at, a.n), Some(id)), TryScript(c.Args(), cfg.keyTtl, k, at, a.n).1)
  }

  ghost predicate MayAct(s: Fleet, id: nat, at: real) {
    && id in s.acquires && !s.acquires[id].finished && |s.acquires[id].replies| < |s.acquires[id].cfgs|
    && s.acquires[id].wake <= at && s.now <= at
  }

  /** One step of the fleet; a step that is not possible changes nothing. */
  ghost function Next(cfg: FleetConfig, s: Fleet, step: FleetStep): (s': Fleet)
    requires cfg.Valid() && Usable(s)
    ensures Usable(s')
  {
    match step
    case Begin(id, apiKey, names, n) =>
      if id in s.acquires then s
      else
        ApplicableValid(cfg, names);
        var cfgs := Applicable(cfg.buckets, names);
        s.(acquires := s.acquires[id := Acquire(apiKey, names, cfgs, n, [], [], s.now, cfgs == [])])
    case Act(id, at) =>
      if !MayAct(s, id, at) then s
      else
        var (call, reply) := NextCall(cfg, s, id, at);
        var a := s.acquires[id];
        var a' := EndOfPass(cfg, a.(replies := a.replies + [reply], times := a.times + [at]), at);
        Fleet(s.acquires[id := a'], s.log + [call], at)
    case Punish(apiKey, name, at, seconds) =>
      if name !in cfg.buckets || at < s.now then s
      else s.(log := s.log + [Call(apiKey, cfg.buckets[name], Penalize(at, seconds), None)], now := at)
  }

  ghost function FleetAfter(cfg: FleetConfig, run: seq<FleetStep>): (s: Fleet)
    requires cfg.Valid()
    ensures Usable(s)
  {
    if run == [] then Fleet(map[], [], 0.0) else Next(cfg, FleetAfter(cfg, run[..|run| - 1]), run[|run| - 1])
  }

  /** The tokens the i-th call of a log was handed. */
  function GrantAt(keyTtl: nat, log: seq<Call>, i: nat): nat
    requires i < |log| && forall c <- log :: c.cfg.Valid()
  {
    assert log[i] in log;
    Execute(Database(keyTtl, log[..i]), keyTtl, log[i]).1
  }

  /** The log shows the call of acquire `id` at this time, and its grant when it was granted. */
  ghost predicate Logged(cfg: FleetConfig, log: seq<Call>, call: Call, granted: bool)
    requires forall c <- log :: c.cfg.Valid()
  {
    exists l: nat :: && l < |log| && log[l] == call
                     && (granted && call.event.Try? ==> GrantAt(cfg.keyTtl, log, l) == call.event.n)
  }

  /** The call behind the i-th reply of an acquire's pass. */
  function CallOf(a: Acquire, id: nat, i: nat): Call
    requires i < |a.cfgs| && i < |a.times|
  {
    Call(a.apiKey, a.cfgs[i], Try(a.times[i], a.n), Some(id))
  }

  /** The pass an acquire is in is in the log, and a finished acquire's last pass was granted everywhere. */
  ghost predicate PassLogged(cfg: FleetConfig, log: seq<Call>, a: Acquire, id: nat)
    requires forall c <- log :: c.cfg.Valid()
  {
    && |a.times| == |a.replies| <= |a.cfgs|
    && (forall i :: 0 <= i < |a.replies| ==> Logged(cfg, log, CallOf(a, id, i), a.replies[i].available))
    && (forall r <- a.replies :: !r.available ==> r.waitMs > 0)
    && (a.finished ==> |a.replies| == |a.cfgs| && forall r <- a.replies :: r.available)
  }

  ghost predicate FleetInv(cfg: FleetConfig, s: Fleet) {
    && Usable(s) && AllCallsValid(s.log) && (forall c <- s.log :: c.event.at <= s.now)
    && (forall id <- s.acquires :: PassLogged(cfg, s.log, s.acquires[id], id))
  }

  lemma LoggedStays(cfg: FleetConfig, log: seq<Call>, more: Call, call: Call, granted: bool)
    requires (forall c <- log :: c.cfg.Valid()) && more.cfg.Valid() && Logged(cfg, log, call, granted)
    ensures (forall c <- log + [more] :: c.cfg.Valid()) && Logged(cfg, log + [more], call, granted)
  {
    hide Execute, Database;
    var l: nat :| && l < |log| && log[l] == call
                  && (granted && call.event.Try? ==> GrantAt(cfg.keyTtl, log, l) == call.event.n);
    assert (log + [more])[l] == call && (log + [more])[..l] == log[..l];
  }

  lemma PassStaysLogged(cfg: FleetConfig, log: seq<Call>, more: Call, a: Acquire, id: nat)
    requires (forall c <- log :: c.cfg.Valid()) && more.cfg.Valid() && PassLogged(cfg, log, a, id)
    ensures (forall c <- log + [more] :: c.cfg.Valid()) && PassLogged(cfg, log + [more], a, id)
  {
    hide Logged;
    assert forall c <- log + [more] :: c.cfg.Valid();
    forall i | 0 <= i < |a.replies| ensures Logged(cfg, log + [more], CallOf(a, id, i), a.replies[i].available) {
      LoggedStays(cfg, log, more, CallOf(a, id, i), a.replies[i].available);
    }
  }

  /** What an acquire's script call answers is what it hands out. */
  lemma ReplyIsGrant(cfg: FleetConfig, s: Fleet, id: nat, at: real)
    requires cfg.Valid() && Usable(s) && id in s.acquires && |s.acquires[id].replies| < |s.acquires[id].cfgs|
    ensures var (call, reply) := NextCall(cfg, s, id, at);
            && (forall c <- s.log + [call] :: c.cfg.Valid())
            && Logged(cfg, s.log + [call], call, reply.available)
            && (!reply.available ==> reply.waitMs > 0)
  {
    hide Database, KeyName, WaitMs;
    var (call, reply) := NextCall(cfg, s, id, at);
    var a := s.acquires[id];
    var k := Lookup(Database(cfg.keyTtl, s.log), KeyName(a.apiKey, call.cfg.name));
    assert call.cfg in a.cfgs;
    var log := s.log + [call];
    assert log[..|s.log|] == s.log && log[|s.log|] == call;
    if !reply.available {
      WaitCoversNeed(call.cfg.Args(), Consume(call.cfg.Args(), cfg.keyTtl, k, at, a.n).0, a.n, at);
    }
    assert reply.available ==> GrantAt(cfg.keyTtl, log, |s.log|) == a.n;
  }

  lemma ActKeeps(cfg: FleetConfig, s: Fleet, id: nat, at: real)
    requires cfg.Valid() && FleetInv(cfg, s) && MayAct(s, id, at)
    ensures FleetInv(cfg, Next(cfg, s, Act(id, at)))
  {
    hide Logged, Execute, Database, Longest;
    var (call, reply) := NextCall(cfg, s, id, at);
    var a := s.acquires[id];
    var log := s.log + [call];
    ReplyIsGrant(cfg, s, id, at);
    var longer := a.(replies := a.replies + [reply], times := a.times + [at]);
    PassStaysLogged(cfg, s.log, call, a, id);
    forall i | 0 <= i < |longer.replies| ensures Logged(cfg, log, CallOf(longer, id, i), longer.replies[i].available) {
      if i < |a.replies| { assert CallOf(longer, id, i) == CallOf(a, id, i); }
    }
    LongestIsZero(longer.replies);
    var s' := Next(cfg, s, Act(id, at));
    assert PassLogged(cfg, log, s'.acquires[id], id);
    forall other | other in s.acquires && other != id ensures PassLogged(cfg, log, s'.acquires[other], other) {
      PassStaysLogged(cfg, s.log, call, s.acquires[other], other);
    }
    assert AllCallsValid(log) by {
      forall i | 0 <= i < |s.log| ensures s.log[i].event.at <= at { assert s.log[i] in s.log; }
    }
  }

  lemma PunishKeeps(cfg: FleetConfig, s: Fleet, apiKey: string, name: string, at: real, seconds: real)
    requires cfg.Valid() && FleetInv(cfg, s)
    ensures FleetInv(cfg, Next(cfg, s, Punish(apiKey, name, at, seconds)))
  {
    hide PassLogged;
    if name in cfg.buckets && s.now <= at {
      var call := Call(apiKey, cfg.buckets[name], Penalize(at, seconds), None);
      assert forall c <- s.log + [call] :: c.cfg.Valid();
      forall id | id in s.acquires ensures PassLogged(cfg, s.log + [call], s.acquires[id], id) {
        PassStaysLogged(cfg, s.log, call, s.acquires[id], id);
      }
      assert AllCallsValid(s.log + [call]) by {
        forall i | 0 <= i < |s.log| ensures s.log[i].event.at <= at { assert s.log[i] in s.log; }
      }
    }
  }

  lemma BeginKeeps(cfg: FleetConfig, s: Fleet, id: nat, apiKey: string, names: seq<string>, n: nat)
    requires cfg.Valid() && FleetInv(cfg, s)
    ensures FleetInv(cfg, Next(cfg, s, Begin(id, apiKey, names, n)))
  {
    hide Logged;
    ApplicableValid(cfg, names);
  }

  lemma {:induction false} FleetKeeps(cfg: FleetConfig, run: seq<FleetStep>)
    requires cfg.Valid()
    ensures FleetInv(cfg, FleetAfter(cfg, run))
  {
    hide FleetInv, Next;
    if run == [] {
      NothingLogged(cfg);
    } else {
      var s := FleetAfter(cfg, run[..|run| - 1]);
      FleetKeeps(cfg, run[..|run| - 1]);
      match run[|run| - 1]
      case Begin(id, apiKey, names, n) => BeginKeeps(cfg, s, id, apiKey, names, n);
      case Act(id, at) => if MayAct(s, id, at) { ActKeeps(cfg, s, id, at); } else { IdleKeeps(cfg, s, id, at); }
      case Punish(apiKey, name, at, seconds) => PunishKeeps(cfg, s, apiKey, name, at, seconds);
    }
  }

  lemma NothingLogged(cfg: FleetConfig)
    ensures FleetInv(cfg, Fleet(map[], [], 0.0))
  {
  }

  lemma IdleKeeps(cfg: FleetConfig, s: Fleet, id: nat, at: real)
    requires cfg.Valid() && FleetInv(cfg, s) && !MayAct(s, id, at)
    ensures FleetInv(cfg, Next(cfg, s, Act(id, at)))
  {
  }

  // ---- Between two passes ----

  /** No acquire is stuck: one that has not finished may make its next call at any time from its wake on. */
  ghost predicate CanGoOn(s: Fleet) {
    forall id <- s.acquires :: !s.acquires[id].finished ==> |s.acquires[id].replies| < |s.acquires[id].cfgs|
  }

  lemma {:induction false} NobodyIsStuck(cfg: FleetConfig, run: seq<FleetStep>)
    requires cfg.Valid()
    ensures CanGoOn(FleetAfter(cfg, run))
    ensures var s := FleetAfter(cfg, run);
            forall id, at :: id in s.acquires && !s.acquires[id].finished && at >= s.now && at >= s.acquires[id].wake
                             ==> MayAct(s, id, at)
  {
    hide Database, Execute, Longest;
    if run != [] { NobodyIsStuck(cfg, run[..|run| - 1]); }
  }

  /** Acquire `id` makes no call before `due` from the l-th entry of the log on. */
  ghost predicate QuietUntil(s: Fleet, id: nat, l: nat, due: real) {
    && id in s.acquires && s.acquires[id].wake >= due
    && forall k :: l <= k < |s.log| && s.log[k].acquire == Some(id) ==> s.log[k].event.at >= due
  }

  lemma QuietStep(cfg: FleetConfig, s: Fleet, step: FleetStep, id: nat, l: nat, due: real)
    requires cfg.Valid() && cfg.maxWait >= 0.0 && Usable(s) && QuietUntil(s, id, l, due)
    ensures QuietUntil(Next(cfg, s, step), id, l, due)
  {
    hide Database, Execute, Longest, Applicable, TryScript;
  }

  /** The fleet some steps further on. */
  ghost function FleetFrom(cfg: FleetConfig, s: Fleet, more: seq<FleetStep>): (s': Fleet)
    requires cfg.Valid() && Usable(s)
    ensures Usable(s')
  {
    if more == [] then s else Next(cfg, FleetFrom(cfg, s, more[..|more| - 1]), more[|more| - 1])
  }

  lemma {:induction false} StaysQuiet(cfg: FleetConfig, s: Fleet, more: seq<FleetStep>, id: nat, l: nat, due: real)
    requires cfg.Valid() && cfg.maxWait >= 0.0 && Usable(s) && QuietUntil(s, id, l, due)
    ensures QuietUntil(FleetFrom(cfg, s, more), id, l, due)
  {
    hide Next, QuietUntil;
    if more != [] {
      var front := more[..|more| - 1];
      StaysQuiet(cfg, s, front, id, l, due);
      QuietStep(cfg, FleetFrom(cfg, s, front), more[|more| - 1], id, l, due);
    }
  }

  /**
   A refused pass is slept on: after the last call of a pass that some bucket refused, whatever the fleet does next, the
   acquire makes no call before the longest wait it was given, or the longest sleep, has gone by.
   */
  lemma RefusedPassSleeps(cfg: FleetConfig, s: Fleet, id: nat, at: real, more: seq<FleetStep>, k: nat)
    requires cfg.Valid() && cfg.maxWait >= 0.0 && Usable(s) && MayAct(s, id, at)
    requires var a := s.acquires[id];
             var replies := a.replies + [NextCall(cfg, s, id, at).1];
             |replies| == |a.cfgs| && Longest(replies) > 0.0
    ensures var s' := FleetFrom(cfg, Next(cfg, s, Act(id, at)), more);
            var wait := Longest(s.acquires[id].replies + [NextCall(cfg, s, id, at).1]);
            |s.log| < k < |s'.log| && s'.log[k].acquire == Some(id) ==>
              s'.log[k].event.at >= at + Min(wait, cfg.maxWait)
  {
    hide Longest, FleetFrom, Database, TryScript;
    var s1 := Next(cfg, s, Act(id, at));
    var wait := Longest(s.acquires[id].replies + [NextCall(cfg, s, id, at).1]);
    assert QuietUntil(s1, id, |s.log| + 1, at + Min(wait, cfg.maxWait));
    StaysQuiet(cfg, s1, more, id, |s.log| + 1, at + Min(wait, cfg.maxWait));
  }

  lemma {:induction false} LogGrows(cfg: FleetConfig, s: Fleet, more: seq<FleetStep>)
    requires cfg.Valid() && Usable(s)
    ensures s.log <= FleetFrom(cfg, s, more).log
  {
    hide Database, Execute, Longest, Applicable;
    if more != [] { LogGrows(cfg, s, more[..|more| - 1]); }
  }

  /**
   A penalty on a configured bucket reaches the whole fleet: whatever acquires are under way or begin, no script call
   after it hands out a token of that bucket's key before it is over, as long as the key TTL lasts.
   */
  lemma PenaltyStopsEverybody(cfg: FleetConfig, run: seq<FleetStep>, apiKey: string, bucket: string, at: real,
                              seconds: real, more: seq<FleetStep>, l: nat)
    requires cfg.Valid() && bucket in cfg.buckets && seconds > 0.0 && at >= FleetAfter(cfg, run).now
    requires var s := FleetAfter(cfg, run);
             var log := FleetFrom(cfg, Next(cfg, s, Punish(apiKey, bucket, at, seconds)), more).log;
             && Consistent(log, KeyName(apiKey, cfg.buckets[bucket].name), cfg.buckets[bucket])
             && |s.log| < l < |log| && log[l].Name() == KeyName(apiKey, cfg.buckets[bucket].name)
             && log[l].event.at < at + seconds && log[l].event.at <= at + cfg.keyTtl as real
    ensures var s := FleetAfter(cfg, run);
            var log := FleetFrom(cfg, Next(cfg, s, Punish(apiKey, bucket, at, seconds)), more).log;
            (forall c <- log :: c.cfg.Valid()) && GrantAt(cfg.keyTtl, log, l) == 0
  {
    hide Database, Execute, Longest, KeyName, FleetFrom;
    var s := FleetAfter(cfg, run);
    var s1 := Next(cfg, s, Punish(apiKey, bucket, at, seconds));
    var log := FleetFrom(cfg, s1, more).log;
    LogGrows(cfg, s1, more);
    assert log[|s.log|] == s1.log[|s.log|] == Call(apiKey, cfg.buckets[bucket], Penalize(at, seconds), None);
    FleetBacksOff(cfg.keyTtl, log, KeyName(apiKey, cfg.buckets[bucket].name), cfg.buckets[bucket], |s.log|, l);
  }

  /** A call of acquire `id` in the log takes at least n tokens of a key inside a window. */
  ghost predicate Takes(keyTtl: nat, log: seq<Call>, l: nat, id: nat, name: string, n: nat, a: real, b: real)
    requires forall c <- log :: c.cfg.Valid()
  {
    && l < |log| && log[l].acquire == Some(id) && log[l].Name() == name && a <= log[l].event.at <= b
    && GrantAt(keyTtl, log, l) >= n
  }

  ghost predicate TakesSome(keyTtl: nat, log: seq<Call>, id: nat, name: string, n: nat, a: real, b: real)
    requires forall c <- log :: c.cfg.Valid()
  {
    exists l: nat :: Takes(keyTtl, log, l, id, name, n, a, b)
  }

  /** The acquire of the last call takes its tokens with that call, and no other acquire does. */
  lemma LastTakes(keyTtl: nat, log: seq<Call>, id: nat, name: string, n: nat, a: real, b: real)
    requires log != [] && forall c <- log :: c.cfg.Valid()
    requires TakesSome(keyTtl, log, id, name, n, a, b)
    ensures forall c <- log[..|log| - 1] :: c.cfg.Valid()
    ensures || Takes(keyTtl, log, |log| - 1, id, name, n, a, b)
            || TakesSome(keyTtl, log[..|log| - 1], id, name, n, a, b)
  {
    hide Execute, Database, KeyName;
    var front := log[..|log| - 1];
    assert forall c <- front :: c in log;
    var l: nat :| Takes(keyTtl, log, l, id, name, n, a, b);
    if l < |front| {
      assert front[..l] == log[..l] && front[l] == log[l];
      assert Takes(keyTtl, front, l, id, name, n, a, b);
    }
  }

  lemma GrantedAdds(keyTtl: nat, log: seq<Call>, id: nat, name: string, n: nat, a: real, b: real)
    requires log != [] && forall c <- log :: c.cfg.Valid()
    ensures forall c <- log[..|log| - 1] :: c.cfg.Valid()
    ensures GrantedOn(keyTtl, log, name, a, b) >= GrantedOn(keyTtl, log[..|log| - 1], name, a, b)
    ensures Takes(keyTtl, log, |log| - 1, id, name, n, a, b) ==>
              GrantedOn(keyTtl, log, name, a, b) >= GrantedOn(keyTtl, log[..|log| - 1], name, a, b) + n
  {
    hide Execute, Database, KeyName;
    assert forall c <- log[..|log| - 1] :: c in log;
  }

  /** Acquires that each take n tokens of a key in a window take them all from what is granted there. */
  lemma {:induction false} EachTakesItsOwn(
      keyTtl: nat, log: seq<Call>, ids: set<nat>, name: string, n: nat, a: real, b: real)
    requires forall c <- log :: c.cfg.Valid()
    requires forall id <- ids :: TakesSome(keyTtl, log, id, name, n, a, b)
    ensures n * |ids| <= GrantedOn(keyTtl, log, name, a, b)
  {
    hide GrantedOn, GrantAt, KeyName;
    if log == [] {
      assert ids == {};
    } else {
      var last := if log[|log| - 1].acquire.Some? then log[|log| - 1].acquire.value else 0;
      GrantedAdds(keyTtl, log, last, name, n, a, b);
      var rest := if Takes(keyTtl, log, |log| - 1, last, name, n, a, b) then ids - {last} else ids;
      forall id | id in rest ensures TakesSome(keyTtl, log[..|log| - 1], id, name, n, a, b) {
        LastTakes(keyTtl, log, id, name, n, a, b);
      }
      EachTakesItsOwn(keyTtl, log[..|log| - 1], rest, name, n, a, b);
      OneFewer(ids, last, n);
    }
  }

  lemma OneFewer(ids: set<nat>, id: nat, n: nat)
    ensures n * |ids| <= n * |ids - {id}| + n
  {
    if id in ids {
      assert |ids| == |ids - {id}| + 1;
    } else {
      assert ids - {id} == ids;
    }
  }

  /** A finished acquire of at least n tokens whose granting pass took them of this key inside a window. */
  ghost predicate TookFrom(s: Fleet, id: nat, name: string, n: nat, a: real, b: real) {
    && id in s.acquires && s.acquires[id].finished && s.acquires[id].n >= n
    && (var q := s.acquires[id];
        exists i: nat :: && i < |q.cfgs| && i < |q.times| && KeyName(q.apiKey, q.cfgs[i].name) == name
                         && a <= q.times[i] <= b)
  }

  lemma FinishedTakes(cfg: FleetConfig, s: Fleet, id: nat, name: string, n: nat, a: real, b: real)
    requires FleetInv(cfg, s) && TookFrom(s, id, name, n, a, b)
    ensures TakesSome(cfg.keyTtl, s.log, id, name, n, a, b)
  {
    hide GrantAt, KeyName;
    var q := s.acquires[id];
    assert PassLogged(cfg, s.log, q, id);
    var i: nat :| i < |q.cfgs| && i < |q.times| && KeyName(q.apiKey, q.cfgs[i].name) == name && a <= q.times[i] <= b;
    assert q.replies[i] in q.replies;
    assert Logged(cfg, s.log, CallOf(q, id, i), true);
    var l: nat :| l < |s.log| && s.log[l] == CallOf(q, id, i) && GrantAt(cfg.keyTtl, s.log, l) == q.n;
    assert Takes(cfg.keyTtl, s.log, l, id, name, n, a, b);
  }

  /** Every acquire is for the configured buckets it names. */
  ghost predicate ForNamed(cfg: FleetConfig, s: Fleet) {
    forall id <- s.acquires :: s.acquires[id].cfgs == Applicable(cfg.buckets, s.acquires[id].names)
  }

  lemma {:induction false} FleetIsForNamed(cfg: FleetConfig, run: seq<FleetStep>)
    requires cfg.Valid()
    ensures ForNamed(cfg, FleetAfter(cfg, run))
  {
    hide Applicable, Database, Execute, Longest;
    if run != [] { FleetIsForNamed(cfg, run[..|run| - 1]); }
  }

  /**
   A finished acquire of at least n tokens that names a bucket, that bucket's key being the given one, and that called
   its script inside a window in its granting pass.
   */
  ghost predicate FinishedNaming(cfg: FleetConfig, s: Fleet, id: nat, bucket: string, key: string, n: nat,
                                 a: real, b: real)
  {
    && id in s.acquires && s.acquires[id].finished && s.acquires[id].n >= n
    && (var q := s.acquires[id];
        && bucket in q.names && bucket in cfg.buckets && KeyName(q.apiKey, cfg.buckets[bucket].name) == key
        && forall i :: 0 <= i < |q.cfgs| && i < |q.times| && q.cfgs[i] == cfg.buckets[bucket] ==> a <= q.times[i] <= b)
  }

  lemma NamingTakes(cfg: FleetConfig, s: Fleet, id: nat, bucket: string, key: string, n: nat, a: real, b: real)
    requires FleetInv(cfg, s) && ForNamed(cfg, s) && FinishedNaming(cfg, s, id, bucket, key, n, a, b)
    ensures TookFrom(s, id, key, n, a, b)
  {
    hide Applicable, KeyName, Logged;
    var q := s.acquires[id];
    NamedIsApplicable(cfg.buckets, q.names, bucket);
    var i: nat :| i < |q.cfgs| && q.cfgs[i] == cfg.buckets[bucket];
    assert PassLogged(cfg, s.log, q, id);
  }

  /**
   Finished acquires obey the ceiling: in every interleaving of the script calls of all acquires and penalties, n times
   the number of finished acquires of n tokens that name a bucket and took it inside a window is at most a full bucket
   plus the window's refill, as long as keys live at least one refill window.
   */
  lemma FinishedAcquiresCeiling(cfg: FleetConfig, run: seq<FleetStep>, ids: set<nat>, bucket: string, key: string,
                                n: nat, a: real, b: real)
    requires cfg.Valid() && bucket in cfg.buckets && cfg.keyTtl as real >= cfg.buckets[bucket].refillSeconds && a <= b
    requires Consistent(FleetAfter(cfg, run).log, key, cfg.buckets[bucket])
    requires forall id <- ids :: FinishedNaming(cfg, FleetAfter(cfg, run), id, bucket, key, n, a, b)
    ensures var c := cfg.buckets[bucket];
            c.Valid() && (n * |ids|) as real <= c.capacity as real + c.Args().Earned(b - a)
  {
    hide FleetInv, ForNamed, TookFrom, TakesSome, GrantedOn, FleetAfter, FinishedNaming;
    var s := FleetAfter(cfg, run);
    FleetKeeps(cfg, run);
    FleetIsForNamed(cfg, run);
    forall id | id in ids ensures TakesSome(cfg.keyTtl, s.log, id, key, n, a, b) {
      NamingTakes(cfg, s, id, bucket, key, n, a, b);
      FinishedTakes(cfg, s, id, key, n, a, b);
    }
    EachTakesItsOwn(cfg.keyTtl, s.log, ids, key, n, a, b);
    FleetCeiling(cfg.keyTtl, s.log, key, cfg.buckets[bucket], a, b);
  }
}
