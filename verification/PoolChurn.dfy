/** The breaker inside the pool: every run of the machine drives its breaker
    through a well-timed history, so the whole-run results about histories are
    results about pools. */
module PoolChurn {
  import opened Prelude
  import opened Config
  import opened Pool
  import opened PoolMachine
  import B = Breaker
  import H = BreakerHistory
  import R = BreakerReference
  import A = PoolAccounting
  import D = DocumentedRules
  import S = SteadyState

  /** Spawn errors and spawner calls of the whole history. */
  function Errors(h: H.History): nat {
    if h.Start? then 0 else Errors(h.past) + Indicator(h.op.Failure? && h.op.spawn)
  }

  function Calls(h: H.History): nat {
    if h.Start? then 0 else Calls(h.past) + Indicator(h.op.Attempt?)
  }

  /** The history is the breaker's own, in time, and misses nothing the counters
      count: spawner calls, spawn errors, trips. */
  predicate InStep(cfg: PoolConfig, m: Machine) {
    var p := cfg.BreakerParams();
    && H.WellTimed(p, m.history)
    && H.Run(p, m.history) == m.pool.breaker
    && H.Clock(m.history) <= m.now
    && Errors(m.history) == m.counters.spawnErrors
    && Calls(m.history) == m.counters.spawns + m.counters.spawnErrors
    && |H.TripLog(p, m.history)| == m.counters.trips
  }

  lemma {:induction false} StartInStep(cfg: PoolConfig, m: Machine, want: int, spawns: seq<Spawn>)
    requires want <= |spawns| && Clocked(spawns, m.now)
    requires InStep(cfg, m) && !B.IsOpen(m.pool.breaker, m.now)
    ensures InStep(cfg, StartWorkers(cfg, m, want, spawns))
    decreases |spawns|
  {
    if want > 0 && spawns[0].ok {
      StartInStep(cfg, WorkerStarted(m, spawns[0].at), want - 1, spawns[1..]);
    }
  }

  lemma HintInStep(cfg: PoolConfig, m: Machine, n: int, spawns: seq<Spawn>)
    requires CanHint(cfg, m, n, spawns) && InStep(cfg, m)
    ensures InStep(cfg, AfterHint(cfg, m, n, spawns))
  {
    if Admits(m.pool, m.now) {
      var asked := Logged(m.(pool := Asked(cfg, m.pool, m.now)), H.Poll(m.now));
      StartInStep(cfg, asked, Want(cfg, m.pool, n), spawns);
    }
  }

  lemma RecordInStep(cfg: PoolConfig, m: Machine, i: nat)
    requires i < |m.workers| && m.workers[i].phase.Stamped? && InStep(cfg, m)
    ensures InStep(cfg, AfterRecord(cfg, m, i))
  {
  }

  lemma StepInStep(cfg: PoolConfig, m: Machine, step: Step)
    requires Can(cfg, m, step) && InStep(cfg, m)
    ensures InStep(cfg, Do(cfg, m, step))
  {
    match step
    case HintArrives(n, spawns) => HintInStep(cfg, m, n, spawns);
    case PokeHint(spawns) => HintInStep(cfg, m, cfg.pokeCount, spawns);
    case SelfHint(i, spawns) => HintInStep(cfg, SelfHinting(m, i), TasksOf(m.workers[i].phase), spawns);
    case RecordExit(i) => RecordInStep(cfg, m, i);
    case _ =>
  }

  lemma {:induction false} RunInStep(cfg: PoolConfig, m: Machine, steps: seq<Step>)
    requires Runs(cfg, m, steps) && InStep(cfg, m)
    ensures InStep(cfg, End(cfg, m, steps))
    decreases |steps|
  {
    if steps != [] {
      StepInStep(cfg, m, steps[0]);
      RunInStep(cfg, Do(cfg, m, steps[0]), steps[1..]);
    }
  }

  /** Every run of a pool drives its breaker through a well-timed history that
      agrees with the pool's counters. */
  lemma {:induction false} PoolHistory(cfg: PoolConfig, start: Time, steps: seq<Step>)
    requires Runs(cfg, PoolMachine.Start(start), steps)
    ensures InStep(cfg, End(cfg, PoolMachine.Start(start), steps))
  {
    RunInStep(cfg, PoolMachine.Start(start), steps);
  }

  /** The pool's breaker is the bounded, lazy one, and in every reachable state it
      answers like the reference breaker fed with the same failures and ok exits. */
  lemma {:induction false} PoolBreakerRefinesReference(cfg: PoolConfig, start: Time, steps: seq<Step>)
    requires Runs(cfg, PoolMachine.Start(start), steps)
    ensures var m, p := End(cfg, PoolMachine.Start(start), steps), cfg.BreakerParams();
            var r := R.ReferenceRun(p, m.history);
            && (B.IsOpen(m.pool.breaker, m.now) <==> m.now < r.openUntil)
            && (B.Trips(p, m.pool.breaker, m.now) <==> R.ReferenceTrips(p, r, m.now))
            && B.PauseAt(p, m.pool.breaker, m.now) == B.CooldownAt(p, R.LevelAt(p, r, m.now))
  {
    RunInStep(cfg, PoolMachine.Start(start), steps);
    var m := End(cfg, PoolMachine.Start(start), steps);
    R.SameAnswers(cfg.BreakerParams(), m.history, m.now);
  }

  /** Churn bound for pools: in every run, any interval no longer than the window
      holds fewer than threshold * (trips in it + 1) failures that find the
      breaker closed, spawn errors among them, and fewer than
      threshold * (window / cooldown + 2). */
  lemma {:induction false} PoolChurnBound(cfg: PoolConfig, start: Time, steps: seq<Step>, lo: Time, hi: Time)
    requires SoundPool(cfg) && cfg.BreakerParams().Enabled()
    requires Runs(cfg, PoolMachine.Start(start), steps) && lo <= hi <= lo + cfg.exitFailureWindow
    ensures var h, p := End(cfg, PoolMachine.Start(start), steps).history, cfg.BreakerParams();
            && H.ErrorsIn(h, lo, hi) <= H.ClosedIn(p, h, lo, hi) < p.threshold * (H.TripsIn(p, h, lo, hi) + 1)
            && H.ClosedIn(p, h, lo, hi) < p.threshold * (p.window / p.cooldown + 2)
  {
    RunInStep(cfg, PoolMachine.Start(start), steps);
    H.ChurnBound(cfg.BreakerParams(), End(cfg, PoolMachine.Start(start), steps).history, lo, hi);
  }

  /** A pool trips exactly when some `threshold` consecutive failures of its run
      span at most the window. */
  lemma {:induction false} PoolTripsExactlyOnBursts(cfg: PoolConfig, start: Time, steps: seq<Step>)
    requires cfg.BreakerParams().Enabled() && Runs(cfg, PoolMachine.Start(start), steps)
    ensures var m := End(cfg, PoolMachine.Start(start), steps);
            m.counters.trips == 0 <==> !D.HasBurst(cfg.BreakerParams(), D.FailureTimes(m.history))
  {
    RunInStep(cfg, PoolMachine.Start(start), steps);
    D.TripsExactlyOnBursts(cfg.BreakerParams(), End(cfg, PoolMachine.Start(start), steps).history);
  }

  /** In every run, in lock order: every spawn attempt comes after the pause of
      every trip before it, the instant of the trip included. */
  lemma {:induction false} PoolRespectsPauses(cfg: PoolConfig, start: Time, steps: seq<Step>)
    requires SoundPool(cfg) && Runs(cfg, PoolMachine.Start(start), steps)
    ensures H.PausesKept(cfg.BreakerParams(), End(cfg, PoolMachine.Start(start), steps).history)
  {
    RunInStep(cfg, PoolMachine.Start(start), steps);
    H.NoAttemptInsidePause(cfg.BreakerParams(), End(cfg, PoolMachine.Start(start), steps).history);
  }

  // ------------------------------------------------- failures during a pause

  /** Only workers held at the trip can fail during its pause.  The failure that
      tripped took one slot of the cap; the others that have failed since and the
      workers still running share the rest. */
  predicate PauseCapped(cfg: PoolConfig, m: Machine) {
    var p := cfg.BreakerParams();
    && H.Run(p, m.history) == m.pool.breaker
    && H.OpenCapped(p, m.history, cfg.concurrency - 1)
    && (B.IsOpen(m.pool.breaker, m.now) ==> H.OpenSince(p, m.history) + m.pool.running <= cfg.concurrency - 1)
  }

  lemma {:induction false} FailureKeepsPause(p: B.Params, s: B.State, at: Time)
    requires !B.Trips(p, s, at)
    ensures B.Failed(p, s, at).openUntil == s.openUntil
  {
  }

  /** One more failure at `at`, spawn error or exit, with `left` slots taken after it. */
  lemma {:induction false} FailureCapped(p: B.Params, h: H.History, at: Time, spawn: bool, cap: int, left: int)
    requires H.OpenCapped(p, h, cap) && 0 <= left <= cap
    requires B.IsOpen(H.Run(p, h), at) ==> H.OpenSince(p, h) + 1 + left <= cap
    ensures var h' := H.Then(h, H.Failure(at, spawn));
            && H.OpenCapped(p, h', cap)
            && (B.IsOpen(H.Run(p, h'), at) ==> H.OpenSince(p, h') + left <= cap)
  {
    if !B.Trips(p, H.Run(p, h), at) {
      FailureKeepsPause(p, H.Run(p, h), at);
    }
  }

  lemma {:induction false} StartCapped(cfg: PoolConfig, m: Machine, want: int, spawns: seq<Spawn>)
    requires want <= |spawns| && Clocked(spawns, m.now) && want <= cfg.concurrency - m.pool.running
    requires m.pool.running >= 0 && PauseCapped(cfg, m) && !B.IsOpen(m.pool.breaker, m.now)
    ensures PauseCapped(cfg, StartWorkers(cfg, m, want, spawns))
    decreases |spawns|
  {
    if want > 0 {
      var at, p := spawns[0].at, cfg.BreakerParams();
      var tried := H.Then(m.history, H.Attempt(at));
      assert H.OpenSince(p, tried) == H.OpenSince(p, m.history) && H.Run(p, tried) == m.pool.breaker;
      if spawns[0].ok {
        StartCapped(cfg, WorkerStarted(m, at), want - 1, spawns[1..]);
      } else {
        FailureCapped(p, tried, at, true, cfg.concurrency - 1, m.pool.running);
      }
    }
  }

  lemma {:induction false} HintCapped(cfg: PoolConfig, m: Machine, n: int, spawns: seq<Spawn>)
    requires CanHint(cfg, m, n, spawns) && m.pool.running >= 0 && PauseCapped(cfg, m)
    ensures PauseCapped(cfg, AfterHint(cfg, m, n, spawns))
  {
    if !m.pool.stopping {
      var asked := Logged(m.(pool := Asked(cfg, m.pool, m.now)), H.Poll(m.now));
      assert H.OpenSince(cfg.BreakerParams(), asked.history) == H.OpenSince(cfg.BreakerParams(), m.history);
      assert PauseCapped(cfg, asked);
      if Admits(m.pool, m.now) {
        StartCapped(cfg, asked, Want(cfg, m.pool, n), spawns);
      }
    }
  }

  lemma {:induction false} OkCapped(p: B.Params, h: H.History, at: Time, cap: int)
    requires H.OpenCapped(p, h, cap)
    ensures var h' := H.Then(h, H.Ok(at));
            && H.OpenCapped(p, h', cap) && H.OpenSince(p, h') == H.OpenSince(p, h)
            && H.Run(p, h').openUntil == H.Run(p, h).openUntil
  {
  }

  /** What recording an exit leaves of the state, as far as the breaker goes. */
  lemma {:induction false} RecordSteps(cfg: PoolConfig, m: Machine, i: nat)
    requires i < |m.workers| && m.workers[i].phase.Stamped? && H.Run(cfg.BreakerParams(), m.history) == m.pool.breaker
    ensures var m', w := AfterRecord(cfg, m, i), m.workers[i];
            && m'.now == m.now && m'.pool.running == m.pool.running - 1
            && H.Run(cfg.BreakerParams(), m'.history) == m'.pool.breaker
            && m'.history == match Classify(cfg, w.phase.exit, w.phase.killed.Some?)
                             case ResultFailure => H.Then(m.history, H.Failure(m.now, false))
                             case ResultOk => H.Then(m.history, H.Ok(w.phase.at))
                             case ResultKilled => m.history
  {
  }

  lemma {:induction false} RecordCapped(cfg: PoolConfig, m: Machine, i: nat)
    requires i < |m.workers| && m.workers[i].phase.Stamped? && A.Slots(cfg, m) && PauseCapped(cfg, m)
    ensures PauseCapped(cfg, AfterRecord(cfg, m, i))
  {
    var p, w, cap := cfg.BreakerParams(), m.workers[i], cfg.concurrency - 1;
    A.SumUpdate(m.workers, i, w, A.Holding);
    RecordSteps(cfg, m, i);
    match Classify(cfg, w.phase.exit, w.phase.killed.Some?)
    case ResultFailure => FailureCapped(p, m.history, m.now, false, cap, m.pool.running - 1);
    case ResultOk => OkCapped(p, m.history, w.phase.at, cap);
    case ResultKilled =>
  }

  lemma {:induction false} PollCapped(cfg: PoolConfig, m: Machine)
    requires PauseCapped(cfg, m)
    ensures PauseCapped(cfg, Do(cfg, m, Poll))
  {
    var p := cfg.BreakerParams();
    assert H.OpenSince(p, Do(cfg, m, Poll).history) == H.OpenSince(p, m.history);
  }

  lemma {:induction false} UntouchedCapped(cfg: PoolConfig, m: Machine, m': Machine)
    requires PauseCapped(cfg, m) && m.now <= m'.now
    requires m'.history == m.history && m'.pool.breaker == m.pool.breaker && m'.pool.running == m.pool.running
    ensures PauseCapped(cfg, m')
  {
  }

  lemma {:induction false} StepCapped(cfg: PoolConfig, m: Machine, step: Step)
    requires Can(cfg, m, step) && A.Slots(cfg, m) && PauseCapped(cfg, m)
    ensures PauseCapped(cfg, Do(cfg, m, step))
  {
    match step
    case HintArrives(n, spawns) => HintCapped(cfg, m, n, spawns);
    case PokeHint(spawns) => HintCapped(cfg, m, cfg.pokeCount, spawns);
    case SelfHint(i, spawns) => HintCapped(cfg, SelfHinting(m, i), TasksOf(m.workers[i].phase), spawns);
    case RecordExit(i) => RecordCapped(cfg, m, i);
    case Poll => PollCapped(cfg, m);
    case _ => UntouchedCapped(cfg, m, Do(cfg, m, step));
  }

  lemma {:induction false} RunCapped(cfg: PoolConfig, m: Machine, steps: seq<Step>)
    requires Runs(cfg, m, steps) && A.Slots(cfg, m) && A.Tallied(m) && PauseCapped(cfg, m)
    ensures PauseCapped(cfg, End(cfg, m, steps))
    decreases |steps|
  {
    if steps != [] {
      A.StepKeeps(cfg, m, steps[0]);
      StepCapped(cfg, m, steps[0]);
      RunCapped(cfg, Do(cfg, m, steps[0]), steps[1..]);
    }
  }

  /** The bound on all process churn, commands that start and then die included:
      any interval no longer than the window holds fewer than
      (threshold + concurrency - 1) * (trips in it + 1) failures of either kind. */
  lemma {:induction false} PoolFailureBound(cfg: PoolConfig, start: Time, steps: seq<Step>, lo: Time, hi: Time)
    requires SoundPool(cfg) && cfg.BreakerParams().Enabled()
    requires Runs(cfg, PoolMachine.Start(start), steps) && lo <= hi <= lo + cfg.exitFailureWindow
    ensures var h, p := End(cfg, PoolMachine.Start(start), steps).history, cfg.BreakerParams();
            && H.FailuresIn(h, lo, hi) < (p.threshold + cfg.concurrency - 1) * (H.TripsIn(p, h, lo, hi) + 1)
            && H.FailuresIn(h, lo, hi) < (p.threshold + cfg.concurrency - 1) * (p.window / p.cooldown + 2)
  {
    RunInStep(cfg, PoolMachine.Start(start), steps);
    RunCapped(cfg, PoolMachine.Start(start), steps);
    H.FailureBound(cfg.BreakerParams(), End(cfg, PoolMachine.Start(start), steps).history, cfg.concurrency - 1, lo, hi);
  }

  // ------------------------------------------------------------- steady state

  /** The command could not even be started, each time it failed. */
  predicate OnlySpawnErrors(h: H.History) {
    h.Start? || (OnlySpawnErrors(h.past) && (h.op.Failure? ==> h.op.spawn))
  }

  lemma {:induction false} SpawnErrorsFindClosed(p: B.Params, h: H.History)
    requires H.WellTimed(p, h) && OnlySpawnErrors(h)
    ensures S.AllClosed(p, h)
  {
    if h.Then? {
      SpawnErrorsFindClosed(p, h.past);
    }
  }

  /** A bad command, in every run of a pool: every threshold-th failed exec trips and
      no other does if and only if each full group of them spans at most the
      window; and then, once the pauses have reached the longest, an interval
      shorter than that pause holds at most `threshold` failed execs. */
  lemma {:induction false} PoolSteadyExecs(cfg: PoolConfig, start: Time, steps: seq<Step>, lo: Time, hi: Time)
    requires SoundPool(cfg) && cfg.BreakerParams().Enabled() && Runs(cfg, PoolMachine.Start(start), steps)
    requires OnlySpawnErrors(End(cfg, PoolMachine.Start(start), steps).history)
    requires lo <= hi < lo + cfg.exitCooldownMax
    ensures var h, p := End(cfg, PoolMachine.Start(start), steps).history, cfg.BreakerParams();
            && (S.TripsInGroups(p, h) <==> S.GroupsFit(p, D.FailureTimes(h)))
            && (S.TripsInGroups(p, h) && S.LongestPauses(p, h, lo, hi) ==> H.FailuresIn(h, lo, hi) <= p.threshold)
  {
    RunInStep(cfg, PoolMachine.Start(start), steps);
    var h, p := End(cfg, PoolMachine.Start(start), steps).history, cfg.BreakerParams();
    SpawnErrorsFindClosed(p, h);
    S.GroupsTripExactly(p, h);
    if S.TripsInGroups(p, h) && S.LongestPauses(p, h, lo, hi) {
      S.SteadyExecs(p, h, lo, hi);
    }
  }

  /** Workers that start and die, in every run of a pool: as long as no group of
      `threshold` failures since the breaker closed is slower than the window, and
      once the pauses have reached the longest, an interval shorter than that pause
      holds at most threshold + 2 * (concurrency - 1) failures, and at most
      threshold + concurrency - 1 if the breaker is closed when it starts. */
  lemma {:induction false} PoolSteadyProcesses(cfg: PoolConfig, start: Time, steps: seq<Step>, lo: Time, hi: Time)
    requires SoundPool(cfg) && cfg.BreakerParams().Enabled() && Runs(cfg, PoolMachine.Start(start), steps)
    requires lo <= hi < lo + cfg.exitCooldownMax
    requires S.NoSlowGroup(cfg.BreakerParams(), End(cfg, PoolMachine.Start(start), steps).history)
    requires S.LongestPauses(cfg.BreakerParams(), End(cfg, PoolMachine.Start(start), steps).history, lo, hi)
    ensures var h, p := End(cfg, PoolMachine.Start(start), steps).history, cfg.BreakerParams();
            && H.FailuresIn(h, lo, hi) <= p.threshold + 2 * (cfg.concurrency - 1)
            && (S.StartsClosed(p, h, lo) ==> H.FailuresIn(h, lo, hi) <= p.threshold + cfg.concurrency - 1)
  {
    RunInStep(cfg, PoolMachine.Start(start), steps);
    RunCapped(cfg, PoolMachine.Start(start), steps);
    var h := End(cfg, PoolMachine.Start(start), steps).history;
    S.SteadyProcesses(cfg.BreakerParams(), h, cfg.concurrency - 1, lo, hi);
  }

  /** A reaper that took its exit time before a failure or trip, and the lock after
      it, does not touch the breaker when it records its ok exit. */
  lemma {:induction false} StaleOkExitIsHarmless(cfg: PoolConfig, start: Time, steps: seq<Step>, i: nat)
    requires SoundPool(cfg) && Runs(cfg, PoolMachine.Start(start), steps)
    requires var m := End(cfg, PoolMachine.Start(start), steps);
             && i < |m.workers| && m.workers[i].phase.Stamped?
             && Classify(cfg, m.workers[i].phase.exit, m.workers[i].phase.killed.Some?) == ResultOk
             && H.LastFailure(m.history).Some? && m.workers[i].phase.at <= H.LastFailure(m.history).value
    ensures var m := End(cfg, PoolMachine.Start(start), steps);
            Do(cfg, m, RecordExit(i)).pool.breaker == m.pool.breaker
  {
    RunInStep(cfg, PoolMachine.Start(start), steps);
    var m := End(cfg, PoolMachine.Start(start), steps);
    H.StaleOkKeepsLevel(cfg.BreakerParams(), m.history, m.workers[i].phase.at);
  }

  /** In every run, trips without a level reset between them are at least the sum
      of their capped geometric pauses apart. */
  lemma {:induction false} PoolEscalates(cfg: PoolConfig, start: Time, steps: seq<Step>, i: nat, j: nat)
    requires SoundPool(cfg) && Runs(cfg, PoolMachine.Start(start), steps)
    requires var log := H.TripLog(cfg.BreakerParams(), End(cfg, PoolMachine.Start(start), steps).history);
             i <= j < |log| && forall m :: i < m <= j ==> log[m].level != 0
    ensures var log := H.TripLog(cfg.BreakerParams(), End(cfg, PoolMachine.Start(start), steps).history);
            && log[j].level == log[i].level + (j - i)
            && log[i].at + H.TotalPause(cfg.BreakerParams(), log[i].level, j - i) <= log[j].at
  {
    RunInStep(cfg, PoolMachine.Start(start), steps);
    H.EscalationSpacing(cfg.BreakerParams(), End(cfg, PoolMachine.Start(start), steps).history, i, j);
  }
}
