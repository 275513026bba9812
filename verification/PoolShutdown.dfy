/** Shutdown: nothing starts any more, the reapers can always finish and cannot
    go on forever, and when the last one has left no worker is unaccounted for. */
module PoolShutdown {
  import opened Prelude
  import opened Config
  import opened Pool
  import opened PoolMachine
  import opened PoolTraces
  import opened PoolAccounting
  import BreakerHistory

  /** A step of a worker process or of its reaper. */
  predicate IsWork(step: Step) {
    step.ProcessEnds? || step.Reap? || step.RecordExit? || step.SelfHint?
  }

  lemma ActUsesWork(cfg: PoolConfig, w: Worker, act: Act, at: Time, v: View)
    requires CanAct(cfg, w, act, at, v)
    ensures Weight(Acted(cfg, w, act, at, v), Work) < Weight(w, Work)
  {
  }

  /** The worker after its own step, in a stopping pool. */
  function WorkedOn(cfg: PoolConfig, m: Machine, step: Step): Worker
    requires m.pool.stopping && Can(cfg, m, step) && IsWork(step)
  {
    var w := m.workers[step.i];
    match step
    case ProcessEnds(_, exit) => w.(done := Ready(exit))
    case Reap(_, act, at) => Acted(cfg, w, act, at, ViewOf(m))
    case RecordExit(_) => Released(cfg, w)
    case SelfHint(_, _) => Rung(w)
  }

  lemma WorkMovesOneWorker(cfg: PoolConfig, m: Machine, step: Step)
    requires m.pool.stopping && Can(cfg, m, step) && IsWork(step)
    ensures Do(cfg, m, step).workers == m.workers[step.i := WorkedOn(cfg, m, step)]
    ensures Weight(WorkedOn(cfg, m, step), Work) < Weight(m.workers[step.i], Work)
  {
    if step.Reap? {
      ActUsesWork(cfg, m.workers[step.i], step.act, step.at, ViewOf(m));
    }
  }

  lemma WorkUsesWork(cfg: PoolConfig, m: Machine, step: Step)
    requires m.pool.stopping && Can(cfg, m, step) && IsWork(step)
    ensures |Do(cfg, m, step).workers| == |m.workers|
    ensures Sum(Do(cfg, m, step).workers, Work) < Sum(m.workers, Work)
  {
    WorkMovesOneWorker(cfg, m, step);
    SumUpdate(m.workers, step.i, WorkedOn(cfg, m, step), Work);
  }

  /** Once the pool is stopping it stays so and no step adds a worker; work uses
      up at least one unit of what is left, nothing adds to it. */
  lemma StoppingStep(cfg: PoolConfig, m: Machine, step: Step)
    requires m.pool.stopping && Can(cfg, m, step)
    ensures var m' := Do(cfg, m, step);
            && m'.pool.stopping
            && |m'.workers| == |m.workers|
            && m'.counters.spawns == m.counters.spawns
            && m'.pool.running <= m.pool.running
            && Sum(m'.workers, Work) + Indicator(IsWork(step)) <= Sum(m.workers, Work)
  {
    if IsWork(step) {
      WorkUsesWork(cfg, m, step);
    } else {
      assert Do(cfg, m, step).workers == m.workers;
    }
  }

  function WorkSteps(steps: seq<Step>): nat {
    if steps == [] then 0 else Indicator(IsWork(steps[0])) + WorkSteps(steps[1..])
  }

  /** After shutdown began, every schedule contains at most as many worker and
      reaper steps as were left at that moment: at most twelve per worker. */
  lemma {:induction false} ShutdownWorkIsBounded(cfg: PoolConfig, m: Machine, steps: seq<Step>)
    requires m.pool.stopping && Runs(cfg, m, steps)
    ensures var m' := End(cfg, m, steps);
            && m'.pool.stopping && |m'.workers| == |m.workers| && m'.counters.spawns == m.counters.spawns
            && WorkSteps(steps) + Sum(m'.workers, Work) <= Sum(m.workers, Work) <= 12 * |m.workers|
    decreases |steps|
  {
    WorkPerWorker(m.workers);
    if steps != [] {
      StoppingStep(cfg, m, steps[0]);
      ShutdownWorkIsBounded(cfg, Do(cfg, m, steps[0]), steps[1..]);
    }
  }

  lemma {:induction false} WorkPerWorker(ws: seq<Worker>)
    ensures Sum(ws, Work) <= 12 * |ws|
  {
    if ws != [] {
      WorkPerWorker(ws[..|ws| - 1]);
    }
  }

  lemma {:induction false} SomeoneLives(ws: seq<Worker>) returns (i: nat)
    requires Sum(ws, Live) > 0
    ensures i < |ws| && !ws[i].phase.Gone?
  {
    if ws[|ws| - 1].phase.Gone? {
      i := SomeoneLives(ws[..|ws| - 1]);
    } else {
      i := |ws| - 1;
    }
  }

  /** The next step of a reaper that has nothing to wait for. */
  function NextStep(m: Machine, i: nat): Step
    requires i < |m.workers| && !m.workers[i].phase.Gone?
  {
    var w := m.workers[i];
    match w.phase
    case Waiting => Reap(i, StopCloses, m.now)
    case Chosen(_) => Reap(i, CountKill, m.now)
    case Signalling(_) => Reap(i, Signal(true), m.now)
    case Grace(_, _) => Reap(i, GraceRunsOut, m.now)
    case Killing(_) => Reap(i, KillGroup, m.now)
    case Reaping(_) =>
      if w.done.Pending? then ProcessEnds(i, Exit(-1, Some("SIGKILL"), false, "")) else Reap(i, ReadExit, m.now)
    case Exited(_, _) => Reap(i, Stamp, m.now)
    case Stamped(_, _, _) => RecordExit(i)
    case Recorded(_, _, _) => Reap(i, CountExit, m.now)
    case Counted(_, _, _) => if HintsItself(w.phase) then SelfHint(i, []) else Reap(i, SkipHint, m.now)
    case Leaving(_, _, _) => Reap(i, Leave, m.now)
  }

  /** A live reaper is never stuck: at some time from now on it, or the process
      it is waiting for, can take a step. */
  lemma ReaperCanMove(cfg: PoolConfig, m: Machine, i: nat) returns (t: Time, step: Step)
    requires m.pool.stopping && i < |m.workers| && !m.workers[i].phase.Gone?
    ensures m.now <= t && IsWork(step) && Can(cfg, m.(now := t), step)
  {
    var w := m.workers[i];
    t := Max(m.now, Max(w.seen, m.stopAt));
    if w.phase.Grace? {
      t := Max(t, w.phase.until);
    }
    step := NextStep(m.(now := t), i);
  }

  lemma Prepend(cfg: PoolConfig, m: Machine, step: Step, rest: seq<Step>)
    requires Can(cfg, m, step) && Runs(cfg, Do(cfg, m, step), rest)
    ensures Runs(cfg, m, [step] + rest) && End(cfg, m, [step] + rest) == End(cfg, Do(cfg, m, step), rest)
  {
    assert ([step] + rest)[1..] == rest;
  }

  /** The poke ticker can stop too, in a running pool while it waits (the caller's
      context ends); in a stopping one a tick already taken hints in vain first. */
  lemma PokerCanStop(cfg: PoolConfig, m: Machine) returns (steps: seq<Step>)
    requires m.poker.Poking? ==> m.pool.stopping
    ensures Runs(cfg, m, steps) && End(cfg, m, steps) == m.(poker := Stopped)
  {
    match m.poker {
      case Stopped => return [];
      case Ticking =>
        Prepend(cfg, m, PokeStop, []);
        return [PokeStop] + [];
      case Poking =>
        var ticking := Do(cfg, m, PokeHint([]));
        Prepend(cfg, ticking, PokeStop, []);
        Prepend(cfg, m, PokeHint([]), [PokeStop] + []);
        return [PokeHint([])] + ([PokeStop] + []);
    }
  }

  /** From every stopping state some schedule takes out every reaper and the poke
      ticker, so Shutdown can return. */
  lemma {:induction false} ShutdownCanFinish(cfg: PoolConfig, m: Machine) returns (steps: seq<Step>)
    requires m.pool.stopping
    ensures Runs(cfg, m, steps)
    ensures Sum(End(cfg, m, steps).workers, Live) == 0 && End(cfg, m, steps).poker.Stopped?
    decreases Sum(m.workers, Work)
  {
    if Sum(m.workers, Live) == 0 {
      steps := PokerCanStop(cfg, m);
      return;
    }
    var i := SomeoneLives(m.workers);
    var t, step := ReaperCanMove(cfg, m, i);
    var later := m.(now := t);
    StoppingStep(cfg, later, step);
    var rest := ShutdownCanFinish(cfg, Do(cfg, later, step));
    Prepend(cfg, later, step, rest);
    Prepend(cfg, m, Tick(t), [step] + rest);
    return [Tick(t)] + ([step] + rest);
  }

  // -------------------------------------------------------- shutdown in time

  /** The worker has not been sent its signal. */
  predicate Unsignalled(w: Worker) {
    w.phase.Waiting? || w.phase.Chosen? || w.phase.Signalling?
  }

  /** Nobody is ahead of the clock, and every grace period ends by `t`. */
  predicate Punctual(w: Worker, now: Time, t: int) {
    w.seen <= now && (w.phase.Grace? ==> w.phase.until <= t)
  }

  predicate AllPunctual(m: Machine, t: int) {
    m.stopAt <= m.now <= t && forall i :: 0 <= i < |m.workers| ==> Punctual(m.workers[i], m.now, t)
  }

  predicate AllSignalled(m: Machine) {
    forall i :: 0 <= i < |m.workers| ==> !Unsignalled(m.workers[i])
  }

  /** That step is possible if no grace period is still running, and leaves
      everybody punctual as long as signals go out a grace period before `t`. */
  lemma {:induction false} NextStepInTime(cfg: PoolConfig, m: Machine, i: nat, t: int)
    requires m.pool.stopping && AllPunctual(m, t) && i < |m.workers| && !m.workers[i].phase.Gone?
    requires if Unsignalled(m.workers[i]) then m.now + cfg.graceShutdown <= t else m.now == t
    ensures var step := NextStep(m, i);
            && IsWork(step) && step.i == i && Can(cfg, m, step)
            && Punctual(WorkedOn(cfg, m, step), m.now, t)
            && (Unsignalled(WorkedOn(cfg, m, step)) ==> Unsignalled(m.workers[i]))
  {
  }

  lemma {:induction false} StepInTime(cfg: PoolConfig, m: Machine, i: nat, t: int) returns (m': Machine)
    requires m.pool.stopping && AllPunctual(m, t) && i < |m.workers| && !m.workers[i].phase.Gone?
    requires if Unsignalled(m.workers[i]) then m.now + cfg.graceShutdown <= t else m.now == t
    ensures Can(cfg, m, NextStep(m, i)) && m' == Do(cfg, m, NextStep(m, i))
    ensures m'.pool.stopping && m'.now == m.now && AllPunctual(m', t)
    ensures AllSignalled(m) ==> AllSignalled(m')
    ensures Sum(m'.workers, Work) < Sum(m.workers, Work)
  {
    NextStepInTime(cfg, m, i, t);
    var step := NextStep(m, i);
    m' := Do(cfg, m, step);
    WorkMovesOneWorker(cfg, m, step);
    WorkUsesWork(cfg, m, step);
    StoppingStep(cfg, m, step);
  }

  /** Signal everybody, wait once for everybody, then take everybody out. */
  lemma {:induction false} FinishBy(cfg: PoolConfig, m: Machine, t: Time) returns (steps: seq<Step>)
    requires m.pool.stopping && AllPunctual(m, t) && (AllSignalled(m) || m.now + cfg.graceShutdown <= t)
    ensures Runs(cfg, m, steps)
    ensures var m' := End(cfg, m, steps);
            Sum(m'.workers, Live) == 0 && m'.poker.Stopped? && m'.now <= t
    decreases Sum(m.workers, Work), t - m.now
  {
    if Sum(m.workers, Live) == 0 {
      steps := PokerCanStop(cfg, m);
    } else if AllSignalled(m) && m.now < t {
      var rest := FinishBy(cfg, m.(now := t), t);
      Prepend(cfg, m, Tick(t), rest);
      steps := [Tick(t)] + rest;
    } else {
      var i := SomeoneLives(m.workers);
      if !AllSignalled(m) {
        i :| 0 <= i < |m.workers| && Unsignalled(m.workers[i]);
      }
      var m' := StepInTime(cfg, m, i, t);
      var rest := FinishBy(cfg, m', t);
      Prepend(cfg, m, NextStep(m, i), rest);
      steps := [NextStep(m, i)] + rest;
    }
  }

  lemma {:induction false} StartMovesOn(cfg: PoolConfig, m: Machine, want: int, spawns: seq<Spawn>)
    requires want <= |spawns| && Clocked(spawns, m.now)
    ensures var m' := StartWorkers(cfg, m, want, spawns);
            m.now <= m'.now && m'.stopAt == m.stopAt
    decreases |spawns|
  {
    if want > 0 && spawns[0].ok {
      StartMovesOn(cfg, WorkerStarted(m, spawns[0].at), want - 1, spawns[1..]);
    }
  }

  lemma {:induction false} HintMovesOn(cfg: PoolConfig, m: Machine, n: int, spawns: seq<Spawn>)
    requires CanHint(cfg, m, n, spawns)
    ensures var m' := AfterHint(cfg, m, n, spawns);
            m.now <= m'.now && m'.stopAt == m.stopAt
  {
    if Admits(m.pool, m.now) {
      var asked := Logged(m.(pool := Asked(cfg, m.pool, m.now)), BreakerHistory.Poll(m.now));
      StartMovesOn(cfg, asked, Want(cfg, m.pool, n), spawns);
    }
  }

  lemma {:induction false} StopInThePast(cfg: PoolConfig, m: Machine, steps: seq<Step>)
    requires Runs(cfg, m, steps) && m.stopAt <= m.now
    ensures var m' := End(cfg, m, steps);
            m'.stopAt <= m'.now
    decreases |steps|
  {
    if steps != [] {
      match steps[0] {
        case HintArrives(n, spawns) => HintMovesOn(cfg, m, n, spawns);
        case PokeHint(spawns) => HintMovesOn(cfg, m, cfg.pokeCount, spawns);
        case SelfHint(i, spawns) => HintMovesOn(cfg, SelfHinting(m, i), TasksOf(m.workers[i].phase), spawns);
        case _ =>
      }
      StopInThePast(cfg, Do(cfg, m, steps[0]), steps[1..]);
    }
  }

  /** Shutdown takes the workers down concurrently: from every reachable stopping
      state, however many workers there are, some schedule has taken out every
      reaper and the poke ticker one grace period from now. */
  lemma {:induction false} ShutdownWithinGrace(cfg: PoolConfig, start: Time, steps: seq<Step>) returns (rest: seq<Step>)
    requires SoundPool(cfg) && Runs(cfg, PoolMachine.Start(start), steps)
    requires End(cfg, PoolMachine.Start(start), steps).pool.stopping
    ensures var m := End(cfg, PoolMachine.Start(start), steps);
            && Runs(cfg, m, rest)
            && var m' := End(cfg, m, rest);
               Sum(m'.workers, Live) == 0 && m'.poker.Stopped? && m'.now <= m.now + cfg.graceShutdown
  {
    var m := End(cfg, PoolMachine.Start(start), steps);
    StopInThePast(cfg, PoolMachine.Start(start), steps);
    RunKeepsLegal(cfg, PoolMachine.Start(start), steps);
    forall i | 0 <= i < |m.workers|
      ensures Punctual(m.workers[i], m.now, m.now + cfg.graceShutdown)
    {
      assert Legal(cfg, ViewOf(m), m.workers[i]);
    }
    rest := FinishBy(cfg, m, m.now + cfg.graceShutdown);
  }

  lemma {:induction false} AllGone(ws: seq<Worker>, i: nat)
    requires Sum(ws, Live) == 0 && i < |ws|
    ensures ws[i].phase.Gone? && Sum(ws, Holding) == 0
  {
    var n := |ws| - 1;
    if i < n {
      AllGone(ws[..n], i);
    } else if n > 0 {
      AllGone(ws[..n], 0);
    }
  }

  /** When the wait group is empty, which is when Shutdown returns: no slot is
      taken and the exit of every worker ever spawned has been consumed. */
  lemma {:induction false} EmptyGroupMeansDone(cfg: PoolConfig, start: Time, steps: seq<Step>)
    requires SoundPool(cfg) && Runs(cfg, PoolMachine.Start(start), steps)
    requires End(cfg, PoolMachine.Start(start), steps).wg == 0
    ensures var m := End(cfg, PoolMachine.Start(start), steps);
            && m.pool.running == 0
            && m.counters.spawns == |m.counters.exits|
            && (forall i :: 0 <= i < |m.workers| ==>
                  m.workers[i].phase.Gone? && m.workers[i].done == Drained && TallyOf(m.workers[i].trace).exitReads == 1)
  {
    Accounted(cfg, start, steps);
    var m := End(cfg, PoolMachine.Start(start), steps);
    SpawnsConserved(cfg, start, steps);
    forall i | 0 <= i < |m.workers|
      ensures m.workers[i].phase.Gone? && m.workers[i].done == Drained && TallyOf(m.workers[i].trace).exitReads == 1
    {
      AllGone(m.workers, i);
      EffectsByPhase(cfg, ViewOf(m), m.workers[i]);
    }
    NoneBetween(m.workers);
    if m.workers != [] {
      AllGone(m.workers, 0);
    }
  }

  lemma {:induction false} NoneBetween(ws: seq<Worker>)
    requires Sum(ws, Live) == 0
    ensures Sum(ws, Between) == 0
  {
    if ws != [] {
      NoneBetween(ws[..|ws| - 1]);
    }
  }

  function WithoutShutdowns(steps: seq<Step>): seq<Step> {
    if steps == [] then []
    else if steps[0].BeginShutdown? then WithoutShutdowns(steps[1..])
    else [steps[0]] + WithoutShutdowns(steps[1..])
  }

  /** Shutdown may be called again at any time: once the pool is stopping, the
      further calls of any schedule can be left out without a difference. */
  lemma {:induction false} MoreShutdownsAreSilent(cfg: PoolConfig, m: Machine, steps: seq<Step>)
    requires m.pool.stopping && Runs(cfg, m, steps)
    ensures Runs(cfg, m, WithoutShutdowns(steps))
    ensures End(cfg, m, WithoutShutdowns(steps)) == End(cfg, m, steps)
    decreases |steps|
  {
    if steps != [] {
      var next, rest := Do(cfg, m, steps[0]), WithoutShutdowns(steps[1..]);
      StoppingStep(cfg, m, steps[0]);
      MoreShutdownsAreSilent(cfg, next, steps[1..]);
      if steps[0].BeginShutdown? {
        assert next == m;
      } else {
        Prepend(cfg, m, steps[0], rest);
      }
    }
  }
}
