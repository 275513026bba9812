/** The whole pool as a step machine: the lock sections of Pool, one reaper per
    worker with a phase for each point where it can be interrupted, the poke
    ticker, polls, shutdown, and an environment that decides spawn outcomes,
    exits, signal delivery, the passing of time and every select. */
module PoolMachine {
  import opened Prelude
  import opened Config
  import opened Pool
  import opened LastLine
  import B = Breaker
  import H = BreakerHistory

  // ------------------------------------------------------------------- reapers

  /** What a reaper did to the outside world, newest last. */
  datatype Event =
    | KillCounted(reason: Reason, at: Time)
    | SignalSent(delivered: bool, at: Time)
    | GraceElapsed(at: Time)
    | GroupKilled(at: Time)
    | ExitRead(exit: Exit)
    | SlotReleased(result: Result)
    | ExitCounted(under: Label)
    | SelfHinted(count: nat)

  /** The labels of the exits counter. */
  datatype Label = Label(result: Result, code: string)

  datatype Trace = Born | After(past: Trace, event: Event)

  /** Where a reaper stands in reap, wait and Terminate. */
  datatype Phase =
    | Waiting                                                        // in wait's select
    | Chosen(reason: Reason)                                         // ttl or stop won the select
    | Signalling(reason: Reason)                                     // kill counted, signal not yet sent
    | Grace(reason: Reason, until: int)                              // in Terminate's select
    | Killing(reason: Reason)                                        // about to kill the group
    | Reaping(reason: Reason)                                        // group killed, waiting for Done
    | Exited(killed: Option<Reason>, exit: Exit)                     // exit read
    | Stamped(killed: Option<Reason>, exit: Exit, at: Time)          // exit time taken, no lock yet
    | Recorded(killed: Option<Reason>, exit: Exit, result: Result)   // slot released
    | Counted(killed: Option<Reason>, exit: Exit, result: Result)    // exit counted, maybe a hint to make
    | Leaving(killed: Option<Reason>, exit: Exit, result: Result)    // about to leave the wait group
    | Gone(killed: Option<Reason>, exit: Exit, result: Result)

  /** The process's Done channel: nothing yet, one exit, or closed and drained. */
  datatype Done = Pending | Ready(exit: Exit) | Drained

  /** `seen` is the reaper's own latest clock reading. */
  datatype Worker = Worker(phase: Phase, done: Done, started: Time, seen: Time, trace: Trace)

  /** What a reaper can see without the lock: the time, and since when the pool
      has been stopping. */
  datatype View = View(now: Time, stop: Option<Time>)

  /** A step of one reaper outside the lock. */
  datatype Act =
    | ReadExit
    | TtlFires
    | StopCloses
    | CountKill
    | Signal(delivered: bool)
    | GraceRunsOut
    | KillGroup
    | Stamp
    | CountExit
    | SkipHint
    | Leave

  /** What a receive from Done yields; a closed channel yields the zero Exit. */
  function Received(d: Done): Exit
    requires !d.Pending?
  {
    if d.Ready? then d.exit else Exit(0, None, false, "")
  }

  /** A reaper's step happens at a time of its own: no earlier than its step
      before, but maybe older than `now`, which can have moved on inside a lock
      section running at the same time. */
  predicate CanAct(cfg: PoolConfig, w: Worker, act: Act, at: Time, v: View) {
    && w.seen <= at <= v.now
    && match act
       case ReadExit => (w.phase.Waiting? || w.phase.Grace? || w.phase.Reaping?) && !w.done.Pending?
       case TtlFires => w.phase.Waiting? && cfg.ttl > 0 && at >= w.started + cfg.ttl
       case StopCloses => w.phase.Waiting? && v.stop.Some? && at >= v.stop.value
       case CountKill => w.phase.Chosen?
       case Signal(_) => w.phase.Signalling?
       case GraceRunsOut => w.phase.Grace? && at >= w.phase.until
       case KillGroup => w.phase.Killing?
       case Stamp => w.phase.Exited?
       case CountExit => w.phase.Recorded?
       case SkipHint => w.phase.Counted? && !HintDue(w.phase.exit, w.phase.result)
       case Leave => w.phase.Leaving?
  }

  /** The exit calls for a self-hint: ok, with a positive task count. */
  predicate HintDue(exit: Exit, result: Result) {
    result == ResultOk && ParseTasks(exit.result).Some? && ParseTasks(exit.result).value > 0
  }

  predicate HintsItself(phase: Phase) {
    phase.Counted? && HintDue(phase.exit, phase.result)
  }

  function TasksOf(phase: Phase): nat
    requires HintsItself(phase)
  {
    ParseTasks(phase.exit.result).value
  }

  function Acted(cfg: PoolConfig, w: Worker, act: Act, at: Time, v: View): Worker
    requires CanAct(cfg, w, act, at, v)
  {
    Moved(cfg, w, act, at, v).(seen := at)
  }

  function Moved(cfg: PoolConfig, w: Worker, act: Act, at: Time, v: View): Worker
    requires CanAct(cfg, w, act, at, v)
  {
    match act
    case ReadExit =>
      var killed := match w.phase case Grace(r, _) => Some(r) case Reaping(r) => Some(r) case _ => None;
      var exit := Received(w.done);
      w.(phase := Exited(killed, exit), done := Drained, trace := After(w.trace, ExitRead(exit)))
    case TtlFires => w.(phase := Chosen(KillTtl))
    case StopCloses => w.(phase := Chosen(KillShutdown))
    case CountKill =>
      w.(phase := Signalling(w.phase.reason), trace := After(w.trace, KillCounted(w.phase.reason, at)))
    case Signal(delivered) =>
      w.(phase := if delivered then Grace(w.phase.reason, at + cfg.graceShutdown) else Killing(w.phase.reason),
         trace := After(w.trace, SignalSent(delivered, at)))
    case GraceRunsOut => w.(phase := Killing(w.phase.reason), trace := After(w.trace, GraceElapsed(at)))
    case KillGroup => w.(phase := Reaping(w.phase.reason), trace := After(w.trace, GroupKilled(at)))
    case Stamp => w.(phase := Stamped(w.phase.killed, w.phase.exit, at))
    case CountExit =>
      w.(phase := Counted(w.phase.killed, w.phase.exit, w.phase.result),
         trace := After(w.trace, ExitCounted(LabelOf(w.phase))))
    case SkipHint => w.(phase := Leaving(w.phase.killed, w.phase.exit, w.phase.result))
    case Leave => w.(phase := Gone(w.phase.killed, w.phase.exit, w.phase.result))
  }

  function LabelOf(phase: Phase): Label
    requires phase.Recorded?
  {
    Label(phase.result, ExitCode(phase.exit, phase.killed))
  }

  // ------------------------------------------------------------------- machine

  datatype Poker = Ticking | Poking | Stopped

  datatype Counters = Counters(
    spawns: nat,
    spawnErrors: nat,
    trips: nat,
    exits: multiset<Label>,
    kills: multiset<Reason>)

  /** `wg` is the reapers wait group; `stopAt` is when stopping was set, if it
      was; `history` is what happened to the breaker. */
  datatype Machine = Machine(
    pool: State,
    workers: seq<Worker>,
    wg: int,
    now: Time,
    stopAt: Time,
    poker: Poker,
    counters: Counters,
    history: H.History)

  function Start(now: Time): Machine {
    Machine(FreshPool, [], 0, now, 0, Ticking, Counters(0, 0, 0, multiset{}, multiset{}), H.Start)
  }

  datatype Step =
    | Tick(t: Time)
    | HintArrives(n: int, spawns: seq<Spawn>)
    | PokeTick
    | PokeHint(spawns: seq<Spawn>)
    | PokeStop
    | Poll
    | BeginShutdown
    | ProcessEnds(i: nat, exit: Exit)
    | Reap(i: nat, act: Act, at: Time)
    | RecordExit(i: nat)
    | SelfHint(i: nat, spawns: seq<Spawn>)

  /** The clock is read after each spawner call and never goes back. */
  predicate Clocked(spawns: seq<Spawn>, from: Time) {
    spawns == [] || (from <= spawns[0].at && Clocked(spawns[1..], spawns[0].at))
  }

  predicate CanHint(cfg: PoolConfig, m: Machine, n: int, spawns: seq<Spawn>) {
    Answered(cfg, m.pool, m.now, n, spawns) && Clocked(spawns, m.now)
  }

  function ViewOf(m: Machine): View {
    View(m.now, if m.pool.stopping then Some(m.stopAt) else None)
  }

  predicate Can(cfg: PoolConfig, m: Machine, step: Step) {
    match step
    case Tick(t) => m.now <= t
    case HintArrives(n, spawns) => CanHint(cfg, m, n, spawns)
    case PokeTick => m.poker.Ticking? && cfg.poke > 0
    case PokeHint(spawns) => m.poker.Poking? && CanHint(cfg, m, cfg.pokeCount, spawns)
    case PokeStop => m.poker.Ticking?    // the pool stops or the caller's context ends
    case Poll => true
    case BeginShutdown => true
    case ProcessEnds(i, _) => i < |m.workers| && m.workers[i].done.Pending?
    case Reap(i, act, at) => i < |m.workers| && CanAct(cfg, m.workers[i], act, at, ViewOf(m))
    case RecordExit(i) => i < |m.workers| && m.workers[i].phase.Stamped?
    case SelfHint(i, spawns) =>
      i < |m.workers| && HintsItself(m.workers[i].phase) && CanHint(cfg, m, TasksOf(m.workers[i].phase), spawns)
  }

  function Logged(m: Machine, op: H.Op): Machine {
    m.(history := H.Then(m.history, op))
  }

  /** A worker started: its reaper joins the wait group in phase Waiting. */
  function WorkerStarted(m: Machine, at: Time): Machine {
    m.(pool := OneStarted(m.pool),
       workers := m.workers + [Worker(Waiting, Pending, at, at, Born)],
       wg := m.wg + 1,
       now := at,
       counters := m.counters.(spawns := m.counters.spawns + 1),
       history := H.Then(m.history, H.Attempt(at)))
  }

  /** The counters after a failure at `at`, which may trip the breaker. */
  function TripCounted(cfg: PoolConfig, m: Machine, at: Time): Counters {
    if B.Trips(cfg.BreakerParams(), m.pool.breaker, at) then m.counters.(trips := m.counters.trips + 1) else m.counters
  }

  function StartFailed(cfg: PoolConfig, m: Machine, at: Time): Machine {
    m.(pool := SpawnFailed(cfg, m.pool, at),
       now := at,
       counters := TripCounted(cfg, m, at).(spawnErrors := m.counters.spawnErrors + 1),
       history := H.Then(H.Then(m.history, H.Attempt(at)), H.Failure(at, true)))
  }

  function StartWorkers(cfg: PoolConfig, m: Machine, want: int, spawns: seq<Spawn>): Machine
    requires want <= |spawns|
    decreases |spawns|
  {
    if want <= 0 then m
    else if spawns[0].ok then StartWorkers(cfg, WorkerStarted(m, spawns[0].at), want - 1, spawns[1..])
    else StartFailed(cfg, m, spawns[0].at)
  }

  function AfterHint(cfg: PoolConfig, m: Machine, n: int, spawns: seq<Spawn>): Machine
    requires CanHint(cfg, m, n, spawns)
  {
    if m.pool.stopping then m
    else
      var asked := Logged(m.(pool := Asked(cfg, m.pool, m.now)), H.Poll(m.now));
      if B.IsOpen(m.pool.breaker, m.now) then asked
      else StartWorkers(cfg, asked, Want(cfg, m.pool, n), spawns)
  }

  /** The slot is released and the exit classified. */
  function Released(cfg: PoolConfig, w: Worker): Worker
    requires w.phase.Stamped?
  {
    var result := Classify(cfg, w.phase.exit, w.phase.killed.Some?);
    w.(phase := Recorded(w.phase.killed, w.phase.exit, result), trace := After(w.trace, SlotReleased(result)))
  }

  function AfterRecord(cfg: PoolConfig, m: Machine, i: nat): Machine
    requires i < |m.workers| && m.workers[i].phase.Stamped?
  {
    var Stamped(killed, exit, at) := m.workers[i].phase;
    var recorded := m.(
      pool := ExitRecorded(cfg, m.pool, killed, exit, at, m.now),
      workers := m.workers[i := Released(cfg, m.workers[i])]);
    match Classify(cfg, exit, killed.Some?)
    case ResultOk => Logged(recorded, H.Ok(at))
    case ResultFailure => Logged(recorded.(counters := TripCounted(cfg, m, m.now)), H.Failure(m.now, false))
    case ResultKilled => recorded
  }

  function AfterAct(cfg: PoolConfig, m: Machine, i: nat, act: Act, at: Time): Machine
    requires i < |m.workers| && CanAct(cfg, m.workers[i], act, at, ViewOf(m))
  {
    var w := m.workers[i];
    var moved := m.(workers := m.workers[i := Acted(cfg, w, act, at, ViewOf(m))]);
    if act.CountKill? then
      moved.(counters := m.counters.(kills := m.counters.kills + multiset{w.phase.reason}))
    else if act.CountExit? then
      moved.(counters := m.counters.(exits := m.counters.exits + multiset{LabelOf(w.phase)}))
    else if act.Leave? then moved.(wg := m.wg - 1)
    else moved
  }

  /** The reaper has made its hint and is about to leave. */
  function Rung(w: Worker): Worker
    requires HintsItself(w.phase)
  {
    w.(phase := Leaving(w.phase.killed, w.phase.exit, w.phase.result),
       trace := After(w.trace, SelfHinted(TasksOf(w.phase))))
  }

  function SelfHinting(m: Machine, i: nat): Machine
    requires i < |m.workers| && HintsItself(m.workers[i].phase)
  {
    m.(workers := m.workers[i := Rung(m.workers[i])])
  }

  function Do(cfg: PoolConfig, m: Machine, step: Step): Machine
    requires Can(cfg, m, step)
  {
    match step
    case Tick(t) => m.(now := t)
    case HintArrives(n, spawns) => AfterHint(cfg, m, n, spawns)
    case PokeTick => m.(poker := Poking)
    case PokeHint(spawns) => AfterHint(cfg, m, cfg.pokeCount, spawns).(poker := Ticking)
    case PokeStop => m.(poker := Stopped)
    case Poll => Logged(m.(pool := m.pool.(breaker := B.Decayed(cfg.BreakerParams(), m.pool.breaker, m.now))), H.Poll(m.now))
    case BeginShutdown => m.(pool := m.pool.(stopping := true), stopAt := if m.pool.stopping then m.stopAt else m.now)
    case ProcessEnds(i, exit) => m.(workers := m.workers[i := m.workers[i].(done := Ready(exit))])
    case Reap(i, act, at) => AfterAct(cfg, m, i, act, at)
    case RecordExit(i) => AfterRecord(cfg, m, i)
    case SelfHint(i, spawns) =>
      AfterHint(cfg, SelfHinting(m, i), TasksOf(m.workers[i].phase), spawns)
  }

  /** `steps` is a possible schedule from `m`. */
  predicate Runs(cfg: PoolConfig, m: Machine, steps: seq<Step>)
    decreases |steps|
  {
    steps == [] || (Can(cfg, m, steps[0]) && Runs(cfg, Do(cfg, m, steps[0]), steps[1..]))
  }

  function End(cfg: PoolConfig, m: Machine, steps: seq<Step>): Machine
    requires Runs(cfg, m, steps)
    decreases |steps|
  {
    if steps == [] then m else End(cfg, Do(cfg, m, steps[0]), steps[1..])
  }

  // ------------------------------------------------- the machine runs the pool

  lemma {:induction false} StartIsSpawnLoop(cfg: PoolConfig, m: Machine, want: int, spawns: seq<Spawn>)
    requires want <= |spawns|
    ensures var m' := StartWorkers(cfg, m, want, spawns);
            && m'.pool == SpawnLoop(cfg, m.pool, want, spawns)
            && |m'.workers| - |m.workers| == m'.pool.running - m.pool.running == m'.wg - m.wg
            && m.workers <= m'.workers
    decreases |spawns|
  {
    if want > 0 && spawns[0].ok {
      StartIsSpawnLoop(cfg, WorkerStarted(m, spawns[0].at), want - 1, spawns[1..]);
    }
  }

  /** A hint of the machine is a hint of the pool, and starts one reaper per
      slot it takes, never disturbing the reapers already there. */
  lemma HintIsPoolHint(cfg: PoolConfig, m: Machine, n: int, spawns: seq<Spawn>)
    requires CanHint(cfg, m, n, spawns)
    ensures var m' := AfterHint(cfg, m, n, spawns);
            && m'.pool == Hinted(cfg, m.pool, m.now, n, spawns)
            && |m'.workers| - |m.workers| == m'.pool.running - m.pool.running == m'.wg - m.wg
            && m.workers <= m'.workers
  {
    if Admits(m.pool, m.now) {
      var asked := Logged(m.(pool := Asked(cfg, m.pool, m.now)), H.Poll(m.now));
      StartIsSpawnLoop(cfg, asked, Want(cfg, m.pool, n), spawns);
    }
  }
}
