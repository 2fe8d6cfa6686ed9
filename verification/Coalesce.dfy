/**
 The request coalescer of backend/arena/riot/coalesce.py, for one key: an in-process registry of futures and
 a lease in Redis elect who loads. Every task is at one of the awaits of `fetch`; between awaits it runs as one
 step, and the steps of all tasks of all workers interleave freely with lease expiry, cache eviction and crashes.
 */
module Coalesce {
  import opened Wrappers

  /** The follower's poll interval and timeout, in seconds. */
  datatype Config = Config(poll: real, followerTimeout: real) {
    predicate Valid() {
      poll > 0.0
    }

    /** The most polls a follower makes. */
    function PollBudget(): nat
      requires Valid()
    {
      if followerTimeout <= 0.0 then 0 else Ceil(followerTimeout / poll)
    }
  }

  datatype Outcome = Got(value: string) | Raised

  /** Where a task is. */
  datatype Pc =
    | Reading                       // about to read the stored value
    | Claiming                      // nothing stored: about to claim the lease
    | Loading(leased: bool)         // in the loader, with or without the lease
    | Releasing(outcome: Outcome)   // loaded under the lease: about to delete it
    | Polling(polls: nat)           // asleep, after so many polls
    | Checking(polls: nat)          // polled in vain: about to look whether the lease is still there
    | Contending(polls: nat)        // it is not: about to claim it
    | Joined(owner: nat)            // awaiting the future of another task of the same worker
    | Returned(outcome: Outcome)

  /** What the next await brings: the stored value, whether a lease is held, and how the loader ends. */
  datatype Answer = Answer(stored: Option<string>, leaseHeld: bool, loaded: Outcome)

  /** The head of the follower's loop: sleep again, or give up waiting and load. */
  function Wait(cfg: Config, polls: nat): Pc {
    if polls as real * cfg.poll < cfg.followerTimeout then Polling(polls) else Loading(false)
  }

  /** One step of `_fetch_coordinated`. */
  function Advance(cfg: Config, pc: Pc, a: Answer): Pc {
    match pc
    case Reading => if a.stored.Some? then Returned(Got(a.stored.value)) else Claiming
    case Claiming => if a.leaseHeld then Wait(cfg, 0) else Loading(true)
    case Loading(leased) => if leased then Releasing(a.loaded) else Returned(a.loaded)
    case Releasing(outcome) => Returned(outcome)
    case Polling(polls) => if a.stored.Some? then Returned(Got(a.stored.value)) else Checking(polls + 1)
    case Checking(polls) => if a.leaseHeld then Wait(cfg, polls) else Contending(polls)
    case Contending(polls) => if a.leaseHeld then Wait(cfg, polls) else Loading(true)
    case Joined(_) => pc
    case Returned(_) => pc
  }

  function Trace(cfg: Config, env: nat -> Answer, n: nat): Pc {
    if n == 0 then Reading else Advance(cfg, Trace(cfg, env, n - 1), env(n - 1))
  }

  /** How many steps of its own a task can still take. */
  function Rank(cfg: Config, pc: Pc): nat
    requires cfg.Valid()
  {
    var left := (polls: nat) => if polls <= cfg.PollBudget() then 3 * (cfg.PollBudget() - polls) else 0;
    match pc
    case Reading => left(0) + 5
    case Claiming => left(0) + 4
    case Loading(_) => 2
    case Releasing(_) => 1
    case Polling(polls) => left(polls) + 3
    case Checking(polls) => left(polls) + 5
    case Contending(polls) => left(polls) + 4
    case Joined(_) => 1
    case Returned(_) => 0
  }

  /** A task never polls more often than its budget allows. */
  ghost predicate InBudget(cfg: Config, pc: Pc)
    requires cfg.Valid()
  {
    && (pc.Polling? ==> pc.polls < cfg.PollBudget())
    && (pc.Checking? || pc.Contending? ==> 1 <= pc.polls <= cfg.PollBudget())
  }

  lemma WaitInBudget(cfg: Config, polls: nat)
    requires cfg.Valid()
    ensures Wait(cfg, polls).Polling? <==> polls < cfg.PollBudget()
    ensures Wait(cfg, polls) == Polling(polls) || Wait(cfg, polls) == Loading(false)
  {
    var q := cfg.followerTimeout / cfg.poll;
    assert q * cfg.poll == cfg.followerTimeout;
    var d := polls as real - q;
    assert polls as real * cfg.poll - cfg.followerTimeout == d * cfg.poll;
    if d < 0.0 { assert d * cfg.poll < 0.0; } else { assert d * cfg.poll >= 0.0; }
    if cfg.followerTimeout <= 0.0 { assert polls as real * cfg.poll >= 0.0; } else { assert q > 0.0; }
  }

  /** Every step keeps the budget and uses up one of the steps left: no task waits for ever. */
  lemma AdvanceProgresses(cfg: Config, pc: Pc, a: Answer)
    requires cfg.Valid() && InBudget(cfg, pc) && !pc.Joined? && !pc.Returned?
    ensures InBudget(cfg, Advance(cfg, pc, a)) && Rank(cfg, Advance(cfg, pc, a)) < Rank(cfg, pc)
    ensures !Advance(cfg, pc, a).Joined?
  {
    hide Config.PollBudget, Wait;
    match pc
    case Claiming => WaitInBudget(cfg, 0);
    case Checking(polls) => WaitInBudget(cfg, polls);
    case Contending(polls) => WaitInBudget(cfg, polls);
    case _ =>
  }

  /**
   `_fetch_coordinated`, the environment answering each await in turn: it goes through exactly the steps of a
   task, and is through after at most `3 * budget + 5` awaits, whatever the environment answers.
   */
  method FetchCoordinated(cfg: Config, env: nat -> Answer) returns (outcome: Outcome, steps: nat)
    requires cfg.Valid()
    ensures Trace(cfg, env, steps) == Returned(outcome)
    ensures steps <= 3 * cfg.PollBudget() + 5
  {
    hide Config.PollBudget, Rank;
    if env(0).stored.Some? {
      StillRunning(cfg, env, 0);
      return Got(env(0).stored.value), 1;
    }
    steps := 2;
    assert Trace(cfg, env, 1) == Claiming;
    if !env(1).leaseHeld {
      assert Trace(cfg, env, 2) == Loading(true) && Trace(cfg, env, 3) == Releasing(env(2).loaded);
      StillRunning(cfg, env, 3);
      return env(2).loaded, 4;
    }
    var waited, polls := 0.0, 0;
    while waited < cfg.followerTimeout
      invariant waited == polls as real * cfg.poll
      invariant Trace(cfg, env, steps) == Wait(cfg, polls)
      decreases 3 * cfg.PollBudget() + 5 - steps
    {
      ghost var awake := steps;
      assert Trace(cfg, env, awake) == Polling(polls);
      waited := waited + cfg.poll;
      polls := polls + 1;
      StillRunning(cfg, env, awake);
      if env(steps).stored.Some? {
        return Got(env(steps).stored.value), steps + 1;
      }
      assert Trace(cfg, env, awake + 1) == Checking(polls);
      if env(steps + 1).leaseHeld {
        steps := steps + 2;
      } else if env(steps + 2).leaseHeld {
        assert Trace(cfg, env, awake + 2) == Contending(polls);
        steps := steps + 3;
      } else {
        assert Trace(cfg, env, awake + 2) == Contending(polls);
        assert Trace(cfg, env, awake + 3) == Loading(true);
        assert Trace(cfg, env, awake + 4).Releasing?;
        StillRunning(cfg, env, awake + 4);
        return env(steps + 3).loaded, steps + 5;
      }
    }
    assert Trace(cfg, env, steps) == Loading(false);
    StillRunning(cfg, env, steps);
    outcome, steps := env(steps).loaded, steps + 1;
  }

  lemma {:induction false} TraceIsBounded(cfg: Config, env: nat -> Answer, n: nat)
    requires cfg.Valid()
    ensures InBudget(cfg, Trace(cfg, env, n)) && !Trace(cfg, env, n).Joined?
    ensures Trace(cfg, env, n).Returned? || n + Rank(cfg, Trace(cfg, env, n)) <= 3 * cfg.PollBudget() + 5
  {
    hide Config.PollBudget;
    if n > 0 {
      TraceIsBounded(cfg, env, n - 1);
      if !Trace(cfg, env, n - 1).Returned? { AdvanceProgresses(cfg, Trace(cfg, env, n - 1), env(n - 1)); }
    }
  }

  /** A fetch that has not returned has taken fewer awaits than its bound. */
  lemma StillRunning(cfg: Config, env: nat -> Answer, n: nat)
    requires cfg.Valid() && !Trace(cfg, env, n).Returned?
    ensures n < 3 * cfg.PollBudget() + 5
  {
    hide Config.PollBudget;
    TraceIsBounded(cfg, env, n);
  }

  // ---- The fleet ----

  datatype Task = Task(worker: nat, joined: Option<nat>, pc: Pc)

  /**
   All tasks, each worker's registered task, the lease with its holder, the stored value; and what has happened
   so far: every value loaded or stored, whether a lease was lost under its holder, and whether a follower
   gave up waiting.
   */
  datatype Fleet = Fleet(
    tasks: map<nat, Task>,
    inflight: map<nat, nat>,
    lease: Option<nat>,
    stored: Option<string>,
    values: set<string>,
    leaseLost: bool,
    gaveUp: bool)

  datatype Step =
    | Call(task: nat, worker: nat)          // a new task calls fetch
    | Own(task: nat, loaded: Outcome)       // a task's await comes back; `loaded` is how a loader ends
    | ExpireLease
    | Evict
    | Crash(worker: nat)

  /** A task that is inside `_fetch_coordinated`. */
  predicate Active(t: Task) {
    !t.pc.Joined? && !t.pc.Returned?
  }

  /** A task that claimed the lease and has not deleted it yet. */
  predicate Holds(t: Task) {
    t.pc == Loading(true) || t.pc.Releasing?
  }

  ghost predicate LeaseInUse(s: Fleet) {
    exists t :: t in s.tasks && Holds(s.tasks[t])
  }

  function AnswerFor(s: Fleet, loaded: Outcome): Answer {
    Answer(s.stored, s.lease.Some?, loaded)
  }

  /** `fetch` up to its first await: join the registered future, or register one. */
  function CallFetch(s: Fleet, task: nat, worker: nat): Fleet {
    if worker in s.inflight then
      s.(tasks := s.tasks[task := Task(worker, Some(s.inflight[worker]), Joined(s.inflight[worker]))])
    else
      s.(tasks := s.tasks[task := Task(worker, None, Reading)], inflight := s.inflight[worker := task])
  }

  /** The next step of a task inside `_fetch_coordinated`. */
  function AdvanceTask(cfg: Config, s: Fleet, task: nat, loaded: Outcome): Fleet
    requires task in s.tasks && Active(s.tasks[task])
  {
    var t := s.tasks[task];
    var pc := Advance(cfg, t.pc, AnswerFor(s, loaded));
    var s1 := s.(tasks := s.tasks[task := t.(pc := pc)],
                 inflight := if pc.Returned? then s.inflight - {t.worker} else s.inflight,
                 gaveUp := s.gaveUp || pc == Loading(false));
    match t.pc
    case Claiming => if pc == Loading(true) then s1.(lease := Some(task)) else s1
    case Contending(_) => if pc == Loading(true) then s1.(lease := Some(task)) else s1
    case Loading(_) =>
      if loaded.Got? then s1.(stored := Some(loaded.value), values := s.values + {loaded.value}) else s1
    case Releasing(_) => s1.(lease := None)
    case _ => s1
  }

  /** A joiner wakes up with the outcome of the task whose future it awaits. */
  function WakeJoiner(s: Fleet, task: nat): Fleet
    requires task in s.tasks && s.tasks[task].pc.Joined?
  {
    var owner := s.tasks[task].pc.owner;
    if owner in s.tasks && s.tasks[owner].pc.Returned? then
      s.(tasks := s.tasks[task := s.tasks[task].(pc := s.tasks[owner].pc)])
    else s
  }

  ghost function Next(cfg: Config, s: Fleet, step: Step): Fleet {
    match step
    case Call(task, worker) => if task in s.tasks then s else CallFetch(s, task, worker)
    case Own(task, loaded) =>
      if task !in s.tasks || s.tasks[task].pc.Returned? then s
      else if s.tasks[task].pc.Joined? then WakeJoiner(s, task)
      else AdvanceTask(cfg, s, task, loaded)
    case ExpireLease => s.(lease := None, leaseLost := s.leaseLost || LeaseInUse(s))
    case Evict => s.(stored := None)
    case Crash(worker) =>
      s.(tasks := map t | t in s.tasks && s.tasks[t].worker != worker :: s.tasks[t], inflight := s.inflight - {worker})
  }

  /** Nobody is fetching; a value may be stored from before. */
  function Initial(stored: Option<string>): Fleet {
    Fleet(map[], map[], None, stored, if stored.Some? then {stored.value} else {}, false, false)
  }

  ghost function After(cfg: Config, stored: Option<string>, run: seq<Step>): Fleet {
    if run == [] then Initial(stored) else Next(cfg, After(cfg, stored, run[..|run| - 1]), run[|run| - 1])
  }

  /** Each worker's registered task is its only active one, and joiners await a task of their own worker. */
  ghost predicate RegistryOk(s: Fleet) {
    && (forall w <- s.inflight :: && s.inflight[w] in s.tasks && s.tasks[s.inflight[w]].worker == w
                                  && Active(s.tasks[s.inflight[w]]))
    && (forall t <- s.tasks :: Active(s.tasks[t]) ==>
         s.tasks[t].worker in s.inflight && s.inflight[s.tasks[t].worker] == t)
    && (forall t <- s.tasks :: s.tasks[t].pc.Joined? ==> s.tasks[t].joined == Some(s.tasks[t].pc.owner))
    && (forall t <- s.tasks :: s.tasks[t].joined.Some? ==> !Active(s.tasks[t]))
  }

  /** A task that joined another one's fetch either still waits for it or has returned what it returned. */
  ghost predicate JoinersOk(s: Fleet) {
    forall t <- s.tasks :: s.tasks[t].joined.Some? ==>
      var owner := s.tasks[t].joined.value;
      && owner in s.tasks && s.tasks[owner].worker == s.tasks[t].worker && s.tasks[owner].joined.None?
      && (s.tasks[t].pc.Returned? ==> s.tasks[owner].pc == s.tasks[t].pc)
  }

  /** While no lease has been lost, whoever claimed it still has it. */
  ghost predicate LeaseOk(s: Fleet) {
    && (!s.leaseLost ==> forall t <- s.tasks :: Holds(s.tasks[t]) ==> s.lease == Some(t))
    && (!s.gaveUp ==> forall t <- s.tasks :: s.tasks[t].pc != Loading(false))
  }

  ghost predicate Valued(s: Fleet, pc: Pc) {
    && (pc.Returned? && pc.outcome.Got? ==> pc.outcome.value in s.values)
    && (pc.Releasing? && pc.outcome.Got? ==> pc.outcome.value in s.values)
  }

  ghost predicate ValuesOk(cfg: Config, s: Fleet)
    requires cfg.Valid()
  {
    && (s.stored.Some? ==> s.stored.value in s.values)
    && (forall t <- s.tasks :: Valued(s, s.tasks[t].pc) && InBudget(cfg, s.tasks[t].pc))
  }

  ghost predicate Inv(cfg: Config, s: Fleet)
    requires cfg.Valid()
  {
    RegistryOk(s) && JoinersOk(s) && LeaseOk(s) && ValuesOk(cfg, s)
  }

  /** What every step of a task inside a fetch does to the tasks and the registry. */
  ghost predicate Moved(s: Fleet, s': Fleet, task: nat, pc: Pc)
    requires task in s.tasks
  {
    && s'.tasks == s.tasks[task := s.tasks[task].(pc := pc)]
    && s'.inflight == (if pc.Returned? then s.inflight - {s.tasks[task].worker} else s.inflight)
  }

  lemma MovedKeepsRegistry(s: Fleet, s': Fleet, task: nat, pc: Pc)
    requires RegistryOk(s) && JoinersOk(s) && task in s.tasks && Active(s.tasks[task])
    requires Moved(s, s', task, pc) && !pc.Joined?
    ensures RegistryOk(s') && JoinersOk(s')
  {
  }

  lemma AdvanceKeepsLease(cfg: Config, s: Fleet, task: nat, loaded: Outcome)
    requires LeaseOk(s) && task in s.tasks && Active(s.tasks[task])
    ensures LeaseOk(AdvanceTask(cfg, s, task, loaded))
  {
  }

  lemma AdvanceKeepsValues(cfg: Config, s: Fleet, task: nat, loaded: Outcome)
    requires cfg.Valid() && ValuesOk(cfg, s) && task in s.tasks && Active(s.tasks[task])
    ensures ValuesOk(cfg, AdvanceTask(cfg, s, task, loaded))
  {
    hide InBudget, Rank;
    AdvanceProgresses(cfg, s.tasks[task].pc, AnswerFor(s, loaded));
  }

  lemma OwnStepKeeps(cfg: Config, s: Fleet, task: nat, loaded: Outcome)
    requires cfg.Valid() && Inv(cfg, s) && task in s.tasks && Active(s.tasks[task])
    ensures Inv(cfg, AdvanceTask(cfg, s, task, loaded))
  {
    hide RegistryOk, JoinersOk, LeaseOk, ValuesOk, Rank, Advance, Wait, InBudget;
    var pc := Advance(cfg, s.tasks[task].pc, AnswerFor(s, loaded));
    AdvanceProgressesIn(cfg, s, task, loaded);
    MovedKeepsRegistry(s, AdvanceTask(cfg, s, task, loaded), task, pc);
    AdvanceKeepsLease(cfg, s, task, loaded);
    AdvanceKeepsValues(cfg, s, task, loaded);
  }

  lemma AdvanceProgressesIn(cfg: Config, s: Fleet, task: nat, loaded: Outcome)
    requires cfg.Valid() && ValuesOk(cfg, s) && task in s.tasks && Active(s.tasks[task])
    ensures !Advance(cfg, s.tasks[task].pc, AnswerFor(s, loaded)).Joined?
  {
    AdvanceProgresses(cfg, s.tasks[task].pc, AnswerFor(s, loaded));
  }

  lemma JoinKeepsRegistry(s: Fleet, task: nat, worker: nat)
    requires RegistryOk(s) && JoinersOk(s) && task !in s.tasks && worker in s.inflight
    ensures RegistryOk(CallFetch(s, task, worker)) && JoinersOk(CallFetch(s, task, worker))
  {
    var s', owner := CallFetch(s, task, worker), s.inflight[worker];
    assert owner in s.tasks && s.tasks[owner].joined.None? && owner != task;
    assert s'.tasks[task] == Task(worker, Some(owner), Joined(owner));
    assert RegistryOk(s');
    forall t | t in s'.tasks && s'.tasks[t].joined.Some?
      ensures var o := s'.tasks[t].joined.value;
              && o in s'.tasks && s'.tasks[o].worker == s'.tasks[t].worker && s'.tasks[o].joined.None?
              && (s'.tasks[t].pc.Returned? ==> s'.tasks[o].pc == s'.tasks[t].pc)
    {
      if t != task { assert t in s.tasks && s.tasks[t].joined.value in s.tasks; }
    }
  }

  lemma RegisterKeepsRegistry(s: Fleet, task: nat, worker: nat)
    requires RegistryOk(s) && JoinersOk(s) && task !in s.tasks && worker !in s.inflight
    ensures RegistryOk(CallFetch(s, task, worker)) && JoinersOk(CallFetch(s, task, worker))
  {
    var s' := CallFetch(s, task, worker);
    assert RegistryOk(s');
    forall t | t in s'.tasks && s'.tasks[t].joined.Some?
      ensures var o := s'.tasks[t].joined.value;
              && o in s'.tasks && s'.tasks[o].worker == s'.tasks[t].worker && s'.tasks[o].joined.None?
              && (s'.tasks[t].pc.Returned? ==> s'.tasks[o].pc == s'.tasks[t].pc)
    {
      assert t in s.tasks && s.tasks[t].joined.value in s.tasks;
    }
  }

  lemma CallKeepsValues(cfg: Config, s: Fleet, task: nat, worker: nat)
    requires cfg.Valid() && LeaseOk(s) && ValuesOk(cfg, s) && task !in s.tasks
    ensures LeaseOk(CallFetch(s, task, worker)) && ValuesOk(cfg, CallFetch(s, task, worker))
  {
    hide Config.PollBudget;
  }

  lemma CallKeeps(cfg: Config, s: Fleet, task: nat, worker: nat)
    requires cfg.Valid() && Inv(cfg, s) && task !in s.tasks
    ensures Inv(cfg, CallFetch(s, task, worker))
  {
    hide RegistryOk, JoinersOk, LeaseOk, ValuesOk, CallFetch;
    if worker in s.inflight { JoinKeepsRegistry(s, task, worker); } else { RegisterKeepsRegistry(s, task, worker); }
    CallKeepsValues(cfg, s, task, worker);
  }

  lemma WakeKeepsRegistry(cfg: Config, s: Fleet, task: nat)
    requires RegistryOk(s) && JoinersOk(s) && task in s.tasks && s.tasks[task].pc.Joined?
    ensures RegistryOk(WakeJoiner(s, task)) && JoinersOk(WakeJoiner(s, task))
  {
  }

  lemma WakeKeepsValues(cfg: Config, s: Fleet, task: nat)
    requires cfg.Valid() && LeaseOk(s) && ValuesOk(cfg, s) && task in s.tasks && s.tasks[task].pc.Joined?
    ensures LeaseOk(WakeJoiner(s, task)) && ValuesOk(cfg, WakeJoiner(s, task))
  {
    hide Config.PollBudget;
  }

  lemma WakeKeeps(cfg: Config, s: Fleet, task: nat)
    requires cfg.Valid() && Inv(cfg, s) && task in s.tasks && s.tasks[task].pc.Joined?
    ensures Inv(cfg, WakeJoiner(s, task))
  {
    hide WakeJoiner, RegistryOk, JoinersOk, LeaseOk, ValuesOk;
    WakeKeepsRegistry(cfg, s, task);
    WakeKeepsValues(cfg, s, task);
  }

  lemma EnvironmentKeeps(cfg: Config, s: Fleet, step: Step)
    requires cfg.Valid() && Inv(cfg, s) && (step.ExpireLease? || step.Evict? || step.Crash?)
    ensures Inv(cfg, Next(cfg, s, step))
  {
    hide Config.PollBudget, Advance;
  }

  lemma StepKeeps(cfg: Config, s: Fleet, step: Step)
    requires cfg.Valid() && Inv(cfg, s)
    ensures Inv(cfg, Next(cfg, s, step))
  {
    hide Inv, AdvanceTask, CallFetch, WakeJoiner, Rank;
    match step
    case Call(task, worker) => if task !in s.tasks { CallKeeps(cfg, s, task, worker); }
    case Own(task, loaded) =>
      if task in s.tasks && Active(s.tasks[task]) {
        OwnStepKeeps(cfg, s, task, loaded);
      } else if task in s.tasks && s.tasks[task].pc.Joined? {
        WakeKeeps(cfg, s, task);
      }
    case _ => EnvironmentKeeps(cfg, s, step);
  }

  lemma {:induction false} RunKeeps(cfg: Config, stored: Option<string>, run: seq<Step>)
    requires cfg.Valid()
    ensures Inv(cfg, After(cfg, stored, run))
  {
    hide Next, Inv;
    if run == [] {
      InitialOk(cfg, stored);
    } else {
      RunKeeps(cfg, stored, run[..|run| - 1]);
      StepKeeps(cfg, After(cfg, stored, run[..|run| - 1]), run[|run| - 1]);
    }
  }

  lemma InitialOk(cfg: Config, stored: Option<string>)
    requires cfg.Valid()
    ensures Inv(cfg, Initial(stored))
  {
  }

  /** While no lease is lost under its holder and no follower gives up, at most one loader runs in the whole fleet. */
  lemma AtMostOneLoader(cfg: Config, stored: Option<string>, run: seq<Step>, t: nat, u: nat)
    requires cfg.Valid()
    requires var s := After(cfg, stored, run);
             && !s.leaseLost && !s.gaveUp
             && t in s.tasks && s.tasks[t].pc.Loading? && u in s.tasks && s.tasks[u].pc.Loading?
    ensures t == u
  {
    RunKeeps(cfg, stored, run);
  }

  /** Per worker at most one coordinated fetch is in flight, whatever happens to leases and followers. */
  lemma OneFetchPerWorker(cfg: Config, stored: Option<string>, run: seq<Step>, t: nat, u: nat)
    requires cfg.Valid()
    requires var s := After(cfg, stored, run);
             && t in s.tasks && Active(s.tasks[t]) && u in s.tasks && Active(s.tasks[u])
             && s.tasks[t].worker == s.tasks[u].worker
    ensures t == u
  {
    RunKeeps(cfg, stored, run);
  }

  /** A task that joined a fetch returns exactly the outcome of the task it joined, value or exception. */
  lemma JoinersGetTheOutcome(cfg: Config, stored: Option<string>, run: seq<Step>, t: nat)
    requires cfg.Valid()
    requires var s := After(cfg, stored, run);
             t in s.tasks && s.tasks[t].joined.Some? && s.tasks[t].pc.Returned?
    ensures var s := After(cfg, stored, run);
            var owner := s.tasks[t].joined.value;
            owner in s.tasks && s.tasks[owner].worker == s.tasks[t].worker && s.tasks[owner].pc == s.tasks[t].pc
  {
    RunKeeps(cfg, stored, run);
  }

  /** Whatever a task returns was stored from the start or loaded by somebody. */
  lemma OnlyLoadedValues(cfg: Config, stored: Option<string>, run: seq<Step>, t: nat)
    requires cfg.Valid()
    requires var s := After(cfg, stored, run);
             t in s.tasks && s.tasks[t].pc.Returned? && s.tasks[t].pc.outcome.Got?
    ensures var s := After(cfg, stored, run);
            s.tasks[t].pc.outcome.value in s.values
  {
    RunKeeps(cfg, stored, run);
  }

  /** A task inside a fetch is never blocked: its next step is its own, and takes it nearer to the end. */
  lemma NobodyWaitsForEver(cfg: Config, stored: Option<string>, run: seq<Step>, t: nat, loaded: Outcome)
    requires cfg.Valid()
    requires var s := After(cfg, stored, run);
             t in s.tasks && Active(s.tasks[t])
    ensures var s := After(cfg, stored, run);
            var s' := Next(cfg, s, Own(t, loaded));
            t in s'.tasks && Rank(cfg, s'.tasks[t].pc) < Rank(cfg, s.tasks[t].pc) <= 3 * cfg.PollBudget() + 5
  {
    hide Config.PollBudget;
    RunKeeps(cfg, stored, run);
    AdvanceProgresses(cfg, After(cfg, stored, run).tasks[t].pc, AnswerFor(After(cfg, stored, run), loaded));
  }

  // ---- When a stored value is loaded again ----

  /** A task that has looked at the store and will load, or sleep, without looking again. */
  predicate PastRead(pc: Pc) {
    pc.Claiming? || pc.Checking? || pc.Contending?
  }

  /** The fleet some steps further on. */
  ghost function From(cfg: Config, s: Fleet, more: seq<Step>): Fleet {
    if more == [] then s else Next(cfg, From(cfg, s, more[..|more| - 1]), more[|more| - 1])
  }

  lemma {:induction false} FromContinues(cfg: Config, stored: Option<string>, run: seq<Step>, more: seq<Step>)
    ensures From(cfg, After(cfg, stored, run), more) == After(cfg, stored, run + more)
  {
    hide Next;
    if more == [] {
      assert run + more == run;
    } else {
      FromContinues(cfg, stored, run, more[..|more| - 1]);
      assert (run + more)[..|run + more| - 1] == run + more[..|more| - 1];
    }
  }

  lemma FromOneMore(cfg: Config, s: Fleet, more: seq<Step>, step: Step)
    ensures From(cfg, s, more + [step]) == Next(cfg, From(cfg, s, more), step)
  {
    hide Next;
    assert (more + [step])[..|more|] == more;
  }

  ghost predicate NoEvict(more: seq<Step>) {
    forall step <- more :: !step.Evict?
  }

  /** The last of some steps takes task t into the loader. */
  ghost predicate StartsLoad(cfg: Config, s: Fleet, more: seq<Step>, t: nat) {
    && more != []
    && (var before, after := From(cfg, s, more[..|more| - 1]), From(cfg, s, more);
        && t in before.tasks && !before.tasks[t].pc.Loading?
        && t in after.tasks && after.tasks[t].pc.Loading?)
  }

  /** A value is stored, and task t, if there is one, is not past its read. */
  ghost predicate Served(s: Fleet, t: nat) {
    s.stored.Some? && (t in s.tasks ==> !PastRead(s.tasks[t].pc))
  }

  /** A step of anybody and anything but task t and its worker crashing. */
  predicate OfOthers(step: Step, t: nat, worker: nat) {
    match step
    case Own(task, _) => task != t
    case Crash(w) => w != worker
    case _ => true
  }

  predicate SparesTask(step: Step, t: nat, worker: nat) {
    OfOthers(step, t, worker) && !step.Evict?
  }

  lemma OthersStep(cfg: Config, s: Fleet, step: Step, t: nat)
    requires t in s.tasks && OfOthers(step, t, s.tasks[t].worker)
    ensures var s' := Next(cfg, s, step);
            && t in s'.tasks && s'.tasks[t] == s.tasks[t]
            && (s.stored.Some? && !step.Evict? ==> s'.stored.Some?)
  {
    hide Advance;
  }

  lemma {:induction false} ReaderWaits(cfg: Config, s: Fleet, more: seq<Step>, t: nat)
    requires s.stored.Some? && t in s.tasks && forall step <- more :: SparesTask(step, t, s.tasks[t].worker)
    ensures var s' := From(cfg, s, more); s'.stored.Some? && t in s'.tasks && s'.tasks[t] == s.tasks[t]
  {
    hide Next, OfOthers;
    if more != [] {
      var front := more[..|more| - 1];
      assert forall step <- front :: step in more;
      ReaderWaits(cfg, s, front, t);
      assert more[|more| - 1] in more;
      OthersStep(cfg, From(cfg, s, front), more[|more| - 1], t);
    }
  }

  /**
   A task that is about to read, for the first time or as a poll, when a value is stored returns a stored value with
   its next step, however many steps of others come before it: the value stored by then.
   */
  lemma StoredIsReturned(cfg: Config, stored: Option<string>, run: seq<Step>, more: seq<Step>, t: nat, loaded: Outcome)
    requires var s := After(cfg, stored, run);
             && s.stored.Some? && t in s.tasks && (s.tasks[t].pc.Reading? || s.tasks[t].pc.Polling?)
             && forall step <- more :: SparesTask(step, t, s.tasks[t].worker)
    ensures var s := After(cfg, stored, run + more);
            var s' := Next(cfg, s, Own(t, loaded));
            s.stored.Some? && t in s'.tasks && s'.tasks[t].pc == Returned(Got(s.stored.value))
  {
    hide After, SparesTask;
    FromContinues(cfg, stored, run, more);
    ReaderWaits(cfg, After(cfg, stored, run), more, t);
  }

  lemma {:induction false} TaskWaits(cfg: Config, s: Fleet, more: seq<Step>, t: nat)
    requires t in s.tasks && forall step <- more :: OfOthers(step, t, s.tasks[t].worker)
    ensures var s' := From(cfg, s, more); t in s'.tasks && s'.tasks[t] == s.tasks[t]
  {
    hide Next, OfOthers;
    if more != [] {
      var front := more[..|more| - 1];
      assert forall step <- front :: step in more;
      TaskWaits(cfg, s, front, t);
      assert more[|more| - 1] in more;
      OthersStep(cfg, From(cfg, s, front), more[|more| - 1], t);
    }
  }

  /**
   What a task's own loader gives is what it returns, value or exception: at once without the lease, else with its next
   step, however many steps of others come before it. A value is stored, an exception leaves the store as it is.
   */
  lemma LoaderOutcomeIsReturned(cfg: Config, stored: Option<string>, run: seq<Step>, t: nat, loaded: Outcome,
                                more: seq<Step>, unused: Outcome)
    requires var s := After(cfg, stored, run);
             && t in s.tasks && s.tasks[t].pc.Loading?
             && forall step <- more :: OfOthers(step, t, s.tasks[t].worker)
    ensures var before, s := After(cfg, stored, run), After(cfg, stored, run + [Own(t, loaded)]);
            var later := After(cfg, stored, run + [Own(t, loaded)] + more);
            && s.stored == (if loaded.Got? then Some(loaded.value) else before.stored)
            && t in later.tasks
            && (if before.tasks[t].pc.leased then
                  && later.tasks[t].pc == Releasing(loaded)
                  && var after := Next(cfg, later, Own(t, unused));
                  t in after.tasks && after.tasks[t].pc == Returned(loaded)
                else later.tasks[t].pc == Returned(loaded))
  {
    var before, own := After(cfg, stored, run), Own(t, loaded);
    var s := After(cfg, stored, run + [own]);
    assert (run + [own])[..|run|] == run;
    LoaderStep(cfg, before, t, loaded);
    hide After, Next, OfOthers;
    FromContinues(cfg, stored, run + [own], more);
    TaskWaits(cfg, s, more, t);
    ReleaseStep(cfg, After(cfg, stored, run + [own] + more), t, unused);
  }

  lemma LoaderStep(cfg: Config, s: Fleet, t: nat, loaded: Outcome)
    requires t in s.tasks && s.tasks[t].pc.Loading?
    ensures var s' := Next(cfg, s, Own(t, loaded));
            && t in s'.tasks && s'.tasks[t].worker == s.tasks[t].worker
            && s'.tasks[t].pc == (if s.tasks[t].pc.leased then Releasing(loaded) else Returned(loaded))
            && s'.stored == (if loaded.Got? then Some(loaded.value) else s.stored)
  {
  }

  lemma ReleaseStep(cfg: Config, s: Fleet, t: nat, unused: Outcome)
    requires t in s.tasks
    ensures var s' := Next(cfg, s, Own(t, unused));
            s.tasks[t].pc.Releasing? ==> t in s'.tasks && s'.tasks[t].pc == Returned(s.tasks[t].pc.outcome)
  {
  }

  lemma ServedStep(cfg: Config, s: Fleet, step: Step, t: nat)
    requires Served(s, t) && !step.Evict?
    ensures Served(Next(cfg, s, step), t)
    ensures t in s.tasks && t in Next(cfg, s, step).tasks && Next(cfg, s, step).tasks[t].pc.Loading? ==>
              s.tasks[t].pc.Loading?
  {
    match step
    case Own(task, loaded) =>
    case _ =>
  }

  lemma {:induction false} StaysServed(cfg: Config, s: Fleet, more: seq<Step>, t: nat)
    requires Served(s, t) && NoEvict(more)
    ensures Served(From(cfg, s, more), t) && !StartsLoad(cfg, s, more, t)
  {
    hide Next, Served;
    if more != [] {
      var front := more[..|more| - 1];
      assert forall step <- front :: step in more;
      StaysServed(cfg, s, front, t);
      ServedStep(cfg, From(cfg, s, front), more[|more| - 1], t);
    }
  }

  lemma FromFirst(cfg: Config, s: Fleet, a: Step, b: Step)
    ensures From(cfg, s, []) == s && From(cfg, s, [a]) == Next(cfg, s, a)
    ensures From(cfg, s, [a, b]) == Next(cfg, Next(cfg, s, a), b)
  {
    hide Next;
    FromOneMore(cfg, s, [], a);
    FromOneMore(cfg, s, [a], b);
    assert [] + [a] == [a] && [a] + [b] == [a, b];
  }

  /** Nothing that matters to a waiting task t has changed, but the lease may have. */
  ghost predicate Undisturbed(s: Fleet, s': Fleet, t: nat) {
    && s'.leaseLost == s.leaseLost && s'.gaveUp == s.gaveUp && s'.stored == s.stored
    && t in s.tasks && t in s'.tasks && s'.tasks[t] == s.tasks[t]
  }

  /** A loader that fails deletes its lease with the step after. */
  lemma HolderSteps(cfg: Config, s: Fleet, u: nat, t: nat)
    requires u in s.tasks && Holds(s.tasks[u]) && t in s.tasks && t != u
    ensures var s' := Next(cfg, s, Own(u, Raised));
            && Undisturbed(s, s', t)
            && (if s.tasks[u].pc.Releasing? then s'.lease.None? else u in s'.tasks && s'.tasks[u].pc.Releasing?)
  {
  }

  /** Without eviction, a lost lease or a follower giving up, the lease can come free under a task past its read. */
  lemma LeaseComesFree(cfg: Config, s: Fleet, t: nat) returns (more: seq<Step>)
    requires s.stored.Some? && t in s.tasks && PastRead(s.tasks[t].pc)
    ensures NoEvict(more) && From(cfg, s, more).lease.None? && Undisturbed(s, From(cfg, s, more), t)
  {
    FromFirst(cfg, s, ExpireLease, ExpireLease);
    if s.lease.None? {
      more := [];
    } else if !LeaseInUse(s) || s.leaseLost {
      more := [ExpireLease];
    } else {
      hide Next, From;
      var u :| u in s.tasks && Holds(s.tasks[u]);
      var own := Own(u, Raised);
      FromFirst(cfg, s, own, own);
      HolderSteps(cfg, s, u, t);
      if s.tasks[u].pc.Releasing? {
        more := [own];
      } else {
        HolderSteps(cfg, Next(cfg, s, own), u, t);
        more := [own, own];
      }
    }
  }

  lemma {:induction false} FromJoins(cfg: Config, s: Fleet, a: seq<Step>, b: seq<Step>)
    ensures From(cfg, s, a + b) == From(cfg, From(cfg, s, a), b)
  {
    hide Next;
    if b == [] {
      assert a + b == a;
    } else {
      FromJoins(cfg, s, a, b[..|b| - 1]);
      assert (a + b)[..|a + b| - 1] == a + b[..|b| - 1];
    }
  }

  /** With the lease free a task that is past its read goes on to load, first claiming the lease. */
  lemma FreeLeaseStep(cfg: Config, s: Fleet, t: nat)
    requires s.lease.None? && t in s.tasks && PastRead(s.tasks[t].pc)
    ensures var s' := Next(cfg, s, Own(t, Raised));
            && t in s'.tasks && s'.lease.None? == s.tasks[t].pc.Checking?
            && (if s.tasks[t].pc.Checking? then s'.tasks[t].pc.Contending? else s'.tasks[t].pc == Loading(true))
            && s'.leaseLost == s.leaseLost && s'.gaveUp == s.gaveUp
  {
  }

  lemma PastReadLoads(cfg: Config, s: Fleet, t: nat) returns (more: seq<Step>)
    requires s.lease.None? && t in s.tasks && PastRead(s.tasks[t].pc)
    ensures NoEvict(more) && StartsLoad(cfg, s, more, t)
    ensures From(cfg, s, more).leaseLost == s.leaseLost && From(cfg, s, more).gaveUp == s.gaveUp
  {
    hide Next, From;
    var own := Own(t, Raised);
    FromFirst(cfg, s, own, own);
    FreeLeaseStep(cfg, s, t);
    assert [own, own][..1] == [own] && [own][..0] == [];
    if s.tasks[t].pc.Checking? {
      FreeLeaseStep(cfg, Next(cfg, s, own), t);
      more := [own, own];
    } else {
      more := [own];
    }
  }

  /** Some continuation takes t into the loader without eviction, a newly lost lease or a follower that gives up. */
  ghost predicate MayLoad(cfg: Config, s: Fleet, t: nat) {
    exists more :: && NoEvict(more) && StartsLoad(cfg, s, more, t)
                   && From(cfg, s, more).leaseLost == s.leaseLost && From(cfg, s, more).gaveUp == s.gaveUp
  }

  /**
   The documented "at most once" in sequence. While a value stays stored nobody starts loading but a task that had
   looked at the store before and is still Claiming, Checking or Contending: so a load that starts after a value
   was stored is that of a task already past its read at that moment, whatever leases and followers do.
   */
  lemma LoadsAgainOnlyPastRead(cfg: Config, stored: Option<string>, run: seq<Step>, more: seq<Step>, t: nat)
    requires After(cfg, stored, run).stored.Some? && NoEvict(more)
    requires StartsLoad(cfg, After(cfg, stored, run), more, t)
    ensures var s := After(cfg, stored, run); t in s.tasks && PastRead(s.tasks[t].pc)
  {
    var s := After(cfg, stored, run);
    if Served(s, t) { StaysServed(cfg, s, more, t); }
  }

  /** And each such task may load: with a value stored, who may still load is exactly who is past its read. */
  lemma LoadsAgainIff(cfg: Config, stored: Option<string>, run: seq<Step>, t: nat)
    requires After(cfg, stored, run).stored.Some?
    ensures var s := After(cfg, stored, run);
            MayLoad(cfg, s, t) <==> t in s.tasks && PastRead(s.tasks[t].pc)
  {
    hide After, Next, StartsLoad, PastRead, From;
    var s := After(cfg, stored, run);
    if MayLoad(cfg, s, t) {
      var more :| NoEvict(more) && StartsLoad(cfg, s, more, t);
      LoadsAgainOnlyPastRead(cfg, stored, run, more, t);
    }
    if t in s.tasks && PastRead(s.tasks[t].pc) {
      var free := LeaseComesFree(cfg, s, t);
      var load := PastReadLoads(cfg, From(cfg, s, free), t);
      JoinedStart(cfg, s, free, load, t);
      assert NoEvict(free + load);
    }
  }

  lemma JoinedStart(cfg: Config, s: Fleet, a: seq<Step>, b: seq<Step>, t: nat)
    requires StartsLoad(cfg, From(cfg, s, a), b, t)
    ensures StartsLoad(cfg, s, a + b, t) && From(cfg, s, a + b) == From(cfg, From(cfg, s, a), b)
  {
    hide Next;
    FromJoins(cfg, s, a, b);
    FromJoins(cfg, s, a, b[..|b| - 1]);
    assert (a + b)[..|a + b| - 1] == a + b[..|b| - 1];
  }

  // ---- What the docstring's "at most once across the fleet" does not cover ----

  /** Two tasks are in the loader at once. */
  ghost predicate TwoLoaders(s: Fleet) {
    exists t, u :: t != u && t in s.tasks && u in s.tasks && s.tasks[t].pc.Loading? && s.tasks[u].pc.Loading?
  }

  lemma Extend(cfg: Config, run: seq<Step>, s: Fleet, step: Step) returns (run': seq<Step>, s': Fleet)
    requires s == After(cfg, None, run)
    ensures s' == After(cfg, None, run') == Next(cfg, s, step)
    ensures s'.tasks.Keys == Next(cfg, s, step).tasks.Keys
  {
    run' := run + [step];
    assert run'[..|run|] == run;
    s' := Next(cfg, s, step);
  }

  /** The three steps of a worker that finds nothing stored and no lease. */
  lemma LoadingSteps(cfg: Config, s: Fleet, t: nat, worker: nat)
    requires t !in s.tasks && worker !in s.inflight && s.stored.None? && s.lease.None?
    ensures var s1 := Next(cfg, s, Call(t, worker));
            var s2 := Next(cfg, s1, Own(t, Raised));
            Next(cfg, s2, Own(t, Raised)) ==
            s.(tasks := s.tasks[t := Task(worker, None, Loading(true))], inflight := s.inflight[worker := t],
               lease := Some(t))
  {
    var s1 := Next(cfg, s, Call(t, worker));
    assert s1 == s.(tasks := s.tasks[t := Task(worker, None, Reading)], inflight := s.inflight[worker := t]);
    var s2 := Next(cfg, s1, Own(t, Raised));
    assert s2 == s1.(tasks := s.tasks[t := Task(worker, None, Claiming)]);
  }

  /** A worker that finds nothing stored and no lease starts loading. */
  lemma StartLoading(cfg: Config, run: seq<Step>, s: Fleet, t: nat, worker: nat)
    returns (run': seq<Step>, s': Fleet)
    requires s == After(cfg, None, run)
    requires t !in s.tasks && worker !in s.inflight && s.stored.None? && s.lease.None?
    ensures s' == After(cfg, None, run')
    ensures s' == s.(tasks := s.tasks[t := Task(worker, None, Loading(true))], inflight := s.inflight[worker := t],
                     lease := Some(t))
  {
    hide After, Next;
    LoadingSteps(cfg, s, t, worker);
    run', s' := Extend(cfg, run, s, Call(t, worker));
    run', s' := Extend(cfg, run', s', Own(t, Raised));
    run', s' := Extend(cfg, run', s', Own(t, Raised));
  }

  /** A lease that expires under its loader lets a second loader in. */
  lemma LostLeaseTwoLoaders(cfg: Config) returns (run: seq<Step>)
    ensures var s := After(cfg, None, run);
            TwoLoaders(s) && s.leaseLost && !s.gaveUp
  {
    hide After;
    var s := Initial(None);
    StartOfRun(cfg);
    run, s := StartLoading(cfg, [], s, 0, 0);
    assert Holds(s.tasks[0]);
    run, s := Extend(cfg, run, s, ExpireLease);
    run, s := StartLoading(cfg, run, s, 1, 1);
    assert s.tasks[0].pc.Loading? && s.tasks[1].pc.Loading?;
  }

  /** Task 0 loads under its lease, and task 1 has waited for it through some polls. */
  ghost predicate Following(cfg: Config, s: Fleet, polls: nat) {
    && s.lease.Some? && s.stored.None? && !s.leaseLost && 0 in s.tasks && s.tasks[0].pc == Loading(true)
    && 1 in s.tasks && s.tasks[1].pc == Wait(cfg, polls) && (s.gaveUp <==> Wait(cfg, polls) == Loading(false))
  }

  /** A poll in vain. */
  lemma PollOnce(cfg: Config, s: Fleet, polls: nat)
    requires Following(cfg, s, polls) && Wait(cfg, polls).Polling?
    ensures Following(cfg, Next(cfg, Next(cfg, s, Own(1, Raised)), Own(1, Raised)), polls + 1)
  {
    var s1 := Next(cfg, s, Own(1, Raised));
    assert s1 == s.(tasks := s.tasks[1 := s.tasks[1].(pc := Checking(polls + 1))]);
  }

  /** Polling in vain the follower gives up when its budget is used up. */
  lemma {:induction false} WaitOut(cfg: Config, run: seq<Step>, s: Fleet, polls: nat)
    returns (run': seq<Step>, s': Fleet)
    requires cfg.Valid() && s == After(cfg, None, run) && Following(cfg, s, polls) && polls <= cfg.PollBudget()
    ensures s' == After(cfg, None, run') && TwoLoaders(s') && !s'.leaseLost && s'.gaveUp
    decreases cfg.PollBudget() - polls
  {
    hide After, Next, Config.PollBudget;
    WaitInBudget(cfg, polls);
    if Wait(cfg, polls).Polling? {
      PollOnce(cfg, s, polls);
      run', s' := Extend(cfg, run, s, Own(1, Raised));
      run', s' := Extend(cfg, run', s', Own(1, Raised));
      run', s' := WaitOut(cfg, run', s', polls + 1);
    } else {
      run', s' := run, s;
      assert s.tasks[0].pc.Loading? && s.tasks[1].pc.Loading?;
    }
  }

  /** A second worker finds nothing stored and the lease taken. */
  lemma FollowerStarts(cfg: Config, s: Fleet)
    requires s.stored.None? && s.lease.Some? && !s.leaseLost && !s.gaveUp && 1 !in s.inflight
    requires s.tasks.Keys == {0} && s.tasks[0].pc == Loading(true)
    ensures Following(cfg, Next(cfg, Next(cfg, Next(cfg, s, Call(1, 1)), Own(1, Raised)), Own(1, Raised)), 0)
  {
    var s1 := Next(cfg, s, Call(1, 1));
    assert s1 == s.(tasks := s.tasks[1 := Task(1, None, Reading)], inflight := s.inflight[1 := 1]);
    var s2 := Next(cfg, s1, Own(1, Raised));
    assert s2 == s1.(tasks := s.tasks[1 := Task(1, None, Claiming)]);
  }

  /** A follower that gives up waiting loads beside the leader, for every poll interval and timeout. */
  lemma ImpatientFollowerTwoLoaders(cfg: Config) returns (run: seq<Step>)
    requires cfg.Valid()
    ensures var s := After(cfg, None, run);
            TwoLoaders(s) && !s.leaseLost && s.gaveUp
  {
    hide After, Next, Config.PollBudget;
    var s := Initial(None);
    StartOfRun(cfg);
    run, s := StartLoading(cfg, [], s, 0, 0);
    FollowerStarts(cfg, s);
    run, s := Extend(cfg, run, s, Call(1, 1));
    run, s := Extend(cfg, run, s, Own(1, Raised));
    run, s := Extend(cfg, run, s, Own(1, Raised));
    run, s := WaitOut(cfg, run, s, 0);
  }

  /** One worker after the other may load: the second looked at the store before the first had loaded. */
  lemma LoadedTwiceInSequence(cfg: Config) returns (run: seq<Step>)
    ensures var s := After(cfg, None, run);
            && !s.leaseLost && !s.gaveUp && s.stored == Some("v")
            && 0 in s.tasks && s.tasks[0].pc == Returned(Got("v")) && 1 in s.tasks && s.tasks[1].pc == Loading(true)
  {
    hide After;
    var s := Initial(None);
    StartOfRun(cfg);
    run, s := Extend(cfg, [], s, Call(1, 1));
    run, s := Extend(cfg, run, s, Own(1, Raised));
    assert s.tasks[1].pc == Claiming;
    run, s := StartLoading(cfg, run, s, 0, 0);
    run, s := Extend(cfg, run, s, Own(0, Got("v")));
    run, s := Extend(cfg, run, s, Own(0, Raised));
    run, s := Extend(cfg, run, s, Own(1, Raised));
  }

  lemma StartOfRun(cfg: Config)
    ensures After(cfg, None, []) == Initial(None)
  {
  }
}
