/** What the machine's steps do and what is always possible: every lock section
    is the pool's own, hints start the workers they should, and a reaper whose
    worker ends, outlives its ttl or is signalled gets through. */
module PoolProgress {
  import opened Prelude
  import opened Config
  import opened Pool
  import opened LastLine
  import opened PoolMachine
  import opened PoolTraces
  import opened PoolAccounting
  import opened PoolShutdown
  import B = Breaker
  import H = BreakerHistory

  // -------------------------------------------------------------- lock sections

  /** Every step of the machine does to the pool's state what the pool's own lock
      section does, and steps without the lock do nothing to it. */
  lemma StepIsLockSection(cfg: PoolConfig, m: Machine, step: Step)
    requires Can(cfg, m, step)
    ensures var pool := Do(cfg, m, step).pool;
            match step
            case HintArrives(n, spawns) => pool == Hinted(cfg, m.pool, m.now, n, spawns)
            case PokeHint(spawns) => pool == Hinted(cfg, m.pool, m.now, cfg.pokeCount, spawns)
            case SelfHint(i, spawns) =>
              forall k: nat :: Counts(m.workers[i].phase.exit.result, k) ==> pool == Hinted(cfg, m.pool, m.now, k, spawns)
            case RecordExit(i) =>
              var w := m.workers[i].phase;
              pool == ExitRecorded(cfg, m.pool, w.killed, w.exit, w.at, m.now)
            case BeginShutdown => pool == m.pool.(stopping := true)
            case Poll => pool == m.pool.(breaker := B.Decayed(cfg.BreakerParams(), m.pool.breaker, m.now))
            case _ => pool == m.pool
    ensures var m' := Do(cfg, m, step);
            && m'.stopAt == (if step.BeginShutdown? && !m.pool.stopping then m.now else m.stopAt)
            && (step.Tick? ==> m'.now == step.t)
            && (!step.Tick? && !step.HintArrives? && !step.PokeHint? && !step.SelfHint? ==> m'.now == m.now)
  {
    match step
    case HintArrives(n, spawns) =>
      HintIsPoolHint(cfg, m, n, spawns);
      HintMovesOn(cfg, m, n, spawns);
    case PokeHint(spawns) =>
      HintIsPoolHint(cfg, m, cfg.pokeCount, spawns);
      HintMovesOn(cfg, m, cfg.pokeCount, spawns);
    case SelfHint(i, spawns) =>
      HintIsPoolHint(cfg, SelfHinting(m, i), TasksOf(m.workers[i].phase), spawns);
      HintMovesOn(cfg, SelfHinting(m, i), TasksOf(m.workers[i].phase), spawns);
      ParseTasksExactly(m.workers[i].phase.exit.result);
    case _ =>
  }

  // --------------------------------------------------------------------- hints

  /** Spawn outcomes for a hint for `k`: one for each worker it may start, at times
      that do not go back. */
  predicate Offered(cfg: PoolConfig, m: Machine, k: int, spawns: seq<Spawn>) {
    && |spawns| >= Min(k, cfg.concurrency - m.pool.running)
    && (forall i :: 0 <= i < |spawns| ==> m.now <= spawns[i].at)
    && (forall i, j :: 0 <= i < j < |spawns| ==> spawns[i].at <= spawns[j].at)
  }

  lemma {:induction false} OfferedIsClocked(spawns: seq<Spawn>, from: Time)
    requires forall i :: 0 <= i < |spawns| ==> from <= spawns[i].at
    requires forall i, j :: 0 <= i < j < |spawns| ==> spawns[i].at <= spawns[j].at
    ensures Clocked(spawns, from)
  {
    if spawns != [] {
      var rest := spawns[1..];
      assert forall i :: 0 <= i < |rest| ==> rest[i] == spawns[i + 1];
      OfferedIsClocked(rest, spawns[0].at);
    }
  }

  function NewWorkers(spawns: seq<Spawn>, n: nat): seq<Worker>
    requires n <= |spawns|
  {
    if n == 0 then []
    else NewWorkers(spawns, n - 1) + [Worker(Waiting, Pending, spawns[n - 1].at, spawns[n - 1].at, Born)]
  }

  /** From the workers `ws`, exactly the successes before the first failed spawn
      are started, at most `want` of them, each with a fresh reaper. */
  predicate Starts(m: Machine, ws: seq<Worker>, want: int, spawns: seq<Spawn>, m': Machine) {
    var started := |m'.workers| - |ws|;
    && SuccessesFirst(started, want, spawns)
    && m'.workers == ws + NewWorkers(spawns, started)
    && m'.pool.running == m.pool.running + started && m'.wg == m.wg + started
    && m'.counters.spawns == m.counters.spawns + started
    && m'.counters.spawnErrors == m.counters.spawnErrors + Indicator(started < want)
    && m'.counters.exits == m.counters.exits && m'.counters.kills == m.counters.kills
    && m.now <= m'.now && (AllAt(spawns, m.now) ==> m'.now == m.now)
  }

  predicate SuccessesFirst(started: int, want: int, spawns: seq<Spawn>) {
    && 0 <= started <= |spawns| && started <= Max(0, want)
    && (forall i :: 0 <= i < started ==> spawns[i].ok)
    && (started < want ==> started < |spawns| && !spawns[started].ok)
  }

  predicate AllAt(spawns: seq<Spawn>, t: Time) {
    forall i :: 0 <= i < |spawns| ==> spawns[i].at == t
  }

  lemma {:induction false} NewWorkersCons(spawns: seq<Spawn>, n: nat)
    requires n < |spawns|
    ensures NewWorkers(spawns, n + 1)
            == [Worker(Waiting, Pending, spawns[0].at, spawns[0].at, Born)] + NewWorkers(spawns[1..], n)
  {
    if n > 0 {
      NewWorkersCons(spawns, n - 1);
      assert spawns[1..][n - 1] == spawns[n];
    }
  }

  lemma OneMoreSuccess(started: int, want: int, spawns: seq<Spawn>)
    requires want > 0 && spawns != [] && spawns[0].ok && SuccessesFirst(started, want - 1, spawns[1..])
    ensures SuccessesFirst(started + 1, want, spawns)
  {
    var rest := spawns[1..];
    assert forall i :: 0 < i < |spawns| ==> spawns[i] == rest[i - 1];
  }

  lemma {:induction false} WorkersJoin(ws: seq<Worker>, spawns: seq<Spawn>, n: nat)
    requires n < |spawns|
    ensures ws + [Worker(Waiting, Pending, spawns[0].at, spawns[0].at, Born)] + NewWorkers(spawns[1..], n)
            == ws + NewWorkers(spawns, n + 1)
  {
    NewWorkersCons(spawns, n);
  }

  lemma AllAtTail(spawns: seq<Spawn>, t: Time)
    requires spawns != [] && AllAt(spawns, t)
    ensures spawns[0].at == t && AllAt(spawns[1..], t)
  {
  }

  lemma {:induction false} OneMoreStarted(m: Machine, next: Machine, want: int, spawns: seq<Spawn>, m': Machine)
    requires want > 0 && spawns != [] && spawns[0].ok && m.now <= spawns[0].at
    requires next == WorkerStarted(m, spawns[0].at) && Starts(next, next.workers, want - 1, spawns[1..], m')
    ensures Starts(m, m.workers, want, spawns, m')
  {
    var n := |m'.workers| - |next.workers|;
    assert |next.workers| == |m.workers| + 1;
    OneMoreSuccess(n, want, spawns);
    WorkersJoin(m.workers, spawns, n);
    if AllAt(spawns, m.now) {
      AllAtTail(spawns, m.now);
    }
  }

  lemma {:induction false} StartsUntilFailure(cfg: PoolConfig, m: Machine, want: int, spawns: seq<Spawn>)
    requires want <= |spawns| && Clocked(spawns, m.now)
    ensures Starts(m, m.workers, want, spawns, StartWorkers(cfg, m, want, spawns))
    decreases |spawns|
  {
    if want > 0 && spawns[0].ok {
      StartsUntilFailure(cfg, WorkerStarted(m, spawns[0].at), want - 1, spawns[1..]);
      OneMoreStarted(m, WorkerStarted(m, spawns[0].at), want, spawns, StartWorkers(cfg, m, want, spawns));
    }
  }

  lemma {:induction false} HintStarts(cfg: PoolConfig, m: Machine, k: int, spawns: seq<Spawn>)
    requires !m.pool.stopping && m.now >= m.pool.breaker.openUntil && Offered(cfg, m, k, spawns)
    ensures CanHint(cfg, m, k, spawns)
    ensures Starts(m, m.workers, Min(k, cfg.concurrency - m.pool.running), spawns, AfterHint(cfg, m, k, spawns))
  {
    OfferedIsClocked(spawns, m.now);
    var asked := Logged(m.(pool := Asked(cfg, m.pool, m.now)), H.Poll(m.now));
    StartsUntilFailure(cfg, asked, Want(cfg, m.pool, k), spawns);
  }

  /** A hint for n arriving at an admitting pool: possible, and it starts them. */
  lemma HintArrivesStarts(cfg: PoolConfig, m: Machine, n: int, spawns: seq<Spawn>)
    requires !m.pool.stopping && m.now >= m.pool.breaker.openUntil && Offered(cfg, m, n, spawns)
    ensures Can(cfg, m, HintArrives(n, spawns))
    ensures Starts(m, m.workers, Min(n, cfg.concurrency - m.pool.running), spawns, Do(cfg, m, HintArrives(n, spawns)))
  {
    HintStarts(cfg, m, n, spawns);
  }

  /** The poke ticker of such a pool ticks, hints for poke_count, and ticks again. */
  lemma PokeStarts(cfg: PoolConfig, m: Machine, spawns: seq<Spawn>)
    requires m.poker == Ticking && cfg.poke > 0
    requires !m.pool.stopping && m.now >= m.pool.breaker.openUntil && Offered(cfg, m, cfg.pokeCount, spawns)
    ensures Runs(cfg, m, [PokeTick, PokeHint(spawns)])
    ensures var m' := End(cfg, m, [PokeTick, PokeHint(spawns)]);
            m'.poker == Ticking && Starts(m, m.workers, Min(cfg.pokeCount, cfg.concurrency - m.pool.running), spawns, m')
  {
    var poking := Do(cfg, m, PokeTick);
    HintStarts(cfg, poking, cfg.pokeCount, spawns);
    Prepend(cfg, poking, PokeHint(spawns), []);
    Prepend(cfg, m, PokeTick, [PokeHint(spawns)] + []);
    assert [PokeTick] + ([PokeHint(spawns)] + []) == [PokeTick, PokeHint(spawns)];
  }

  /** An ok exit that reported k > 0 tasks hints the pool for k. */
  lemma SelfHintStarts(cfg: PoolConfig, m: Machine, i: nat, k: nat, spawns: seq<Spawn>)
    requires i < |m.workers| && m.workers[i].phase.Counted? && m.workers[i].phase.result == ResultOk
    requires k > 0 && Counts(m.workers[i].phase.exit.result, k)
    requires !m.pool.stopping && m.now >= m.pool.breaker.openUntil && Offered(cfg, m, k, spawns)
    ensures Can(cfg, m, SelfHint(i, spawns))
    ensures var w := m.workers[i];
            var hinted := w.(phase := Leaving(w.phase.killed, w.phase.exit, w.phase.result),
                             trace := After(w.trace, SelfHinted(k)));
            Starts(m, m.workers[i := hinted], Min(k, cfg.concurrency - m.pool.running), spawns, Do(cfg, m, SelfHint(i, spawns)))
  {
    ParseTasksExactly(m.workers[i].phase.exit.result);
    HintStarts(cfg, SelfHinting(m, i), k, spawns);
  }

  /** The cap is reached: some run holds exactly `concurrency` workers, all of them
      running. */
  lemma {:induction false} CapReached(cfg: PoolConfig, start: Time) returns (steps: seq<Step>)
    requires SoundPool(cfg)
    ensures Runs(cfg, PoolMachine.Start(start), steps)
    ensures var m := End(cfg, PoolMachine.Start(start), steps);
            && |m.workers| == m.pool.running == cfg.concurrency
            && m.counters.spawns == cfg.concurrency && !m.pool.stopping
            && (forall i :: 0 <= i < |m.workers| ==> m.workers[i] == Worker(Waiting, Pending, start, start, Born))
  {
    var m := PoolMachine.Start(start);
    var spawns := seq(cfg.concurrency, _ => Spawn(true, start));
    var step := HintArrives(cfg.concurrency, spawns);
    HintArrivesStarts(cfg, m, cfg.concurrency, spawns);
    StepIsLockSection(cfg, m, step);
    HintRule(cfg, m.pool, m.now, cfg.concurrency, spawns);
    Prepend(cfg, m, step, []);
    steps := [step] + [];
    AllFresh(spawns, cfg.concurrency, start);
  }

  lemma {:induction false} AllFresh(spawns: seq<Spawn>, n: nat, at: Time)
    requires n <= |spawns| && forall i :: 0 <= i < |spawns| ==> spawns[i].at == at
    ensures |NewWorkers(spawns, n)| == n
    ensures forall i :: 0 <= i < n ==> NewWorkers(spawns, n)[i] == Worker(Waiting, Pending, at, at, Born)
  {
    if n > 0 {
      AllFresh(spawns, n - 1, at);
    }
  }

  // ------------------------------------------------------- a reaper to its end

  /** Whom a reaper in this phase is going to report as its killer. */
  function ReasonIn(phase: Phase): Option<Reason> {
    match phase
    case Waiting => None
    case Chosen(r) => Some(r)
    case Signalling(r) => Some(r)
    case Grace(r, _) => Some(r)
    case Killing(r) => Some(r)
    case Reaping(r) => Some(r)
    case Exited(killed, _) => killed
    case Stamped(killed, _, _) => killed
    case Recorded(killed, _, _) => killed
    case Counted(killed, _, _) => killed
    case Leaving(killed, _, _) => killed
    case Gone(killed, _, _) => killed
  }

  /** The kill it has chosen and not yet counted. */
  function KillsAhead(phase: Phase): multiset<Reason> {
    if phase.Chosen? then multiset{phase.reason} else multiset{}
  }

  /** Its exit has been read. */
  predicate HasExit(phase: Phase) {
    !BeforeExit(phase)
  }

  /** It will not kill the group any more. */
  predicate PastKill(phase: Phase) {
    HasExit(phase) || phase.Reaping?
  }

  function OkSpawns(cfg: PoolConfig, m: Machine, k: int): seq<Spawn> {
    seq(Max(0, Min(k, cfg.concurrency - m.pool.running)), _ => Spawn(true, m.now))
  }

  function StepNow(cfg: PoolConfig, m: Machine, i: nat): Step
    requires i < |m.workers| && !m.workers[i].phase.Gone?
  {
    var phase := m.workers[i].phase;
    if HintsItself(phase) then SelfHint(i, OkSpawns(cfg, m, TasksOf(phase))) else NextStep(m, i)
  }

  lemma {:induction false} HintAtOnce(cfg: PoolConfig, m: Machine, k: int)
    ensures var spawns := OkSpawns(cfg, m, k);
            && CanHint(cfg, m, k, spawns)
            && var m' := AfterHint(cfg, m, k, spawns);
               m'.now == m.now && m'.counters.kills == m.counters.kills && m.workers <= m'.workers
  {
    var spawns := OkSpawns(cfg, m, k);
    OfferedIsClocked(spawns, m.now);
    HintIsPoolHint(cfg, m, k, spawns);
    if Admits(m.pool, m.now) {
      HintStarts(cfg, m, k, spawns);
    }
  }

  /** Where one step at time `now` takes a reaper that need not wait. */
  predicate WorkerMoves(cfg: PoolConfig, now: Time, w: Worker, w': Worker) {
    && Weight(w', Work) < Weight(w, Work) && !w'.phase.Waiting? && w'.seen <= now
    && (w'.phase.Grace? ==> Unsignalled(w) && w'.phase.until == now + cfg.graceShutdown)
    && (Unsignalled(w') ==> Unsignalled(w))
    && ReasonIn(w'.phase) == ReasonIn(w.phase)
    && (HasExit(w.phase) ==> HasExit(w'.phase) && w'.phase.exit == w.phase.exit)
    && (PastKill(w.phase) ==> PastKill(w'.phase) && GroupKillOf(w'.trace) == GroupKillOf(w.trace))
  }

  predicate MovesOn(cfg: PoolConfig, m: Machine, i: nat, m': Machine) {
    && i < |m.workers| && i < |m'.workers| && m'.now == m.now
    && WorkerMoves(cfg, m.now, m.workers[i], m'.workers[i])
    && m'.counters.kills + KillsAhead(m'.workers[i].phase) == m.counters.kills + KillsAhead(m.workers[i].phase)
  }

  lemma {:induction false} SelfHintMovesOn(cfg: PoolConfig, m: Machine, i: nat)
    requires i < |m.workers| && HintsItself(m.workers[i].phase) && m.workers[i].seen <= m.now
    ensures Can(cfg, m, StepNow(cfg, m, i)) && MovesOn(cfg, m, i, Do(cfg, m, StepNow(cfg, m, i)))
  {
    var k := TasksOf(m.workers[i].phase);
    var mid := SelfHinting(m, i);
    HintAtOnce(cfg, mid, k);
    assert OkSpawns(cfg, mid, k) == OkSpawns(cfg, m, k);
    assert mid.workers[i] == Rung(m.workers[i]);
  }

  predicate ActsNext(w: Worker, act: Act) {
    match w.phase
    case Chosen(_) => act == CountKill
    case Signalling(_) => act == Signal(true)
    case Grace(_, _) => act == GraceRunsOut
    case Killing(_) => act == KillGroup
    case Reaping(_) => act == ReadExit
    case Exited(_, _) => act == Stamp
    case Recorded(_, _, _) => act == CountExit
    case Counted(_, _, _) => act == SkipHint
    case Leaving(_, _, _) => act == Leave
    case _ => false
  }

  lemma {:induction false} ActMoves(cfg: PoolConfig, w: Worker, act: Act, v: View)
    requires CanAct(cfg, w, act, v.now, v) && ActsNext(w, act)
    ensures WorkerMoves(cfg, v.now, w, Acted(cfg, w, act, v.now, v))
    ensures var ahead := KillsAhead(Acted(cfg, w, act, v.now, v).phase);
            if act.CountKill? then multiset{w.phase.reason} + ahead == KillsAhead(w.phase) else ahead == KillsAhead(w.phase)
  {
  }

  lemma {:induction false} ActMovesOn(cfg: PoolConfig, m: Machine, i: nat, act: Act)
    requires i < |m.workers| && CanAct(cfg, m.workers[i], act, m.now, ViewOf(m)) && ActsNext(m.workers[i], act)
    ensures MovesOn(cfg, m, i, Do(cfg, m, Reap(i, act, m.now)))
  {
    ActMoves(cfg, m.workers[i], act, ViewOf(m));
  }

  lemma {:induction false} OtherMovesOn(cfg: PoolConfig, m: Machine, i: nat)
    requires i < |m.workers| && m.workers[i].seen <= m.now
    requires m.workers[i].phase.Stamped? || (m.workers[i].phase.Reaping? && m.workers[i].done.Pending?)
    ensures Can(cfg, m, NextStep(m, i)) && MovesOn(cfg, m, i, Do(cfg, m, NextStep(m, i)))
  {
  }

  lemma {:induction false} ReapMovesOn(cfg: PoolConfig, m: Machine, i: nat)
    requires i < |m.workers| && m.workers[i].seen <= m.now && !HintsItself(m.workers[i].phase)
    requires !m.workers[i].phase.Waiting? && !m.workers[i].phase.Gone?
    requires m.workers[i].phase.Grace? ==> m.workers[i].phase.until <= m.now
    ensures Can(cfg, m, StepNow(cfg, m, i)) && MovesOn(cfg, m, i, Do(cfg, m, StepNow(cfg, m, i)))
  {
    var w := m.workers[i];
    if w.phase.Stamped? || (w.phase.Reaping? && w.done.Pending?) {
      OtherMovesOn(cfg, m, i);
    } else {
      var step := NextStep(m, i);
      assert step.Reap? && step.at == m.now && CanAct(cfg, w, step.act, m.now, ViewOf(m));
      ActMovesOn(cfg, m, i, step.act);
    }
  }

  /** A reaper past its select, and not ahead of the clock, gets to its end: by `t`
      if every grace period it still has to wait for ends by then. */
  lemma {:induction false} FinishOne(cfg: PoolConfig, m: Machine, i: nat, t: Time) returns (steps: seq<Step>)
    requires i < |m.workers| && m.now <= t && Punctual(m.workers[i], m.now, t) && !m.workers[i].phase.Waiting?
    requires Unsignalled(m.workers[i]) ==> m.now + cfg.graceShutdown <= t
    ensures Runs(cfg, m, steps)
    ensures var m' := End(cfg, m, steps);
            && i < |m'.workers| && m.now <= m'.now <= t
            && var w, w' := m.workers[i], m'.workers[i];
               && w'.phase.Gone? && w'.phase.killed == ReasonIn(w.phase)
               && m'.counters.kills == m.counters.kills + KillsAhead(w.phase)
               && (HasExit(w.phase) ==> w'.phase.exit == w.phase.exit)
               && (PastKill(w.phase) ==> GroupKillOf(w'.trace) == GroupKillOf(w.trace))
    decreases Weight(m.workers[i], Work), t - m.now
  {
    var w := m.workers[i];
    if w.phase.Gone? {
      steps := [];
    } else if w.phase.Grace? && m.now < w.phase.until {
      var later := m.(now := w.phase.until);
      var rest := FinishOne(cfg, later, i, t);
      Prepend(cfg, m, Tick(w.phase.until), rest);
      steps := [Tick(w.phase.until)] + rest;
    } else {
      if HintsItself(w.phase) {
        SelfHintMovesOn(cfg, m, i);
      } else {
        ReapMovesOn(cfg, m, i);
      }
      var step := StepNow(cfg, m, i);
      var rest := FinishOne(cfg, Do(cfg, m, step), i, t);
      Prepend(cfg, m, step, rest);
      steps := [step] + rest;
    }
  }

  // ----------------------------------------------------------------- theorems

  /** In every reachable state, stopping or not, a worker that has outlived its ttl
      can be killed for it: some schedule counts one ttl kill and has the worker
      gone, as killed, no later than a grace period from now. */
  lemma {:induction false} TtlKillsInTime(cfg: PoolConfig, start: Time, before: seq<Step>, m: Machine, i: nat)
    returns (steps: seq<Step>)
    requires SoundPool(cfg) && Runs(cfg, PoolMachine.Start(start), before)
    requires m == End(cfg, PoolMachine.Start(start), before) && i < |m.workers|
    requires m.workers[i].phase == Waiting && cfg.ttl > 0 && m.workers[i].started + cfg.ttl <= m.now
    ensures Runs(cfg, m, steps)
    ensures var m' := End(cfg, m, steps);
            && m'.now <= m.now + cfg.graceShutdown
            && m'.counters.kills == m.counters.kills + multiset{KillTtl}
            && i < |m'.workers| && m'.workers[i].phase.Gone?
            && m'.workers[i].phase.killed == Some(KillTtl) && m'.workers[i].phase.result == ResultKilled
  {
    RunKeepsLegal(cfg, PoolMachine.Start(start), before);
    assert Legal(cfg, ViewOf(m), m.workers[i]);
    var step := Reap(i, TtlFires, m.now);
    var chosen := Do(cfg, m, step);
    StepKeepsLegal(cfg, m, step);
    var rest := FinishOne(cfg, chosen, i, m.now + cfg.graceShutdown);
    RunKeepsLegal(cfg, chosen, rest);
    FinishedResult(cfg, End(cfg, chosen, rest), i);
    Prepend(cfg, m, step, rest);
    steps := [step] + rest;
  }

  lemma {:induction false} FinishedResult(cfg: PoolConfig, m: Machine, i: nat)
    requires AllLegal(cfg, ViewOf(m), m.workers) && i < |m.workers| && m.workers[i].phase.Gone?
    ensures m.workers[i].phase.result == Classify(cfg, m.workers[i].phase.exit, m.workers[i].phase.killed.Some?)
  {
    assert Legal(cfg, ViewOf(m), m.workers[i]);
  }

  /** The process of worker i has ended with `exit`, or does so now. */
  predicate EndsWithExit(w: Worker, exit: Exit) {
    w.done == Pending || w.done == Ready(exit)
  }

  /** The reaper in a select reads the exit and gets to its end, all at once. */
  lemma {:induction false} ReadAndFinish(cfg: PoolConfig, m: Machine, i: nat, exit: Exit) returns (steps: seq<Step>)
    requires i < |m.workers| && AllLegal(cfg, ViewOf(m), m.workers)
    requires m.workers[i].phase.Waiting? || m.workers[i].phase.Grace?
    requires EndsWithExit(m.workers[i], exit)
    ensures Runs(cfg, m, steps)
    ensures var m' := End(cfg, m, steps);
            && m'.now == m.now && m'.counters.kills == m.counters.kills
            && i < |m'.workers|
            && var w, w' := m.workers[i], m'.workers[i];
               && w'.phase == Gone(ReasonIn(w.phase), exit, Classify(cfg, exit, ReasonIn(w.phase).Some?))
               && GroupKillOf(w'.trace) == GroupKillOf(w.trace)
    decreases m.workers[i].done.Pending?
  {
    if m.workers[i].done == Pending {
      var ended := Do(cfg, m, ProcessEnds(i, exit));
      StepKeepsLegal(cfg, m, ProcessEnds(i, exit));
      var rest := ReadAndFinish(cfg, ended, i, exit);
      Prepend(cfg, m, ProcessEnds(i, exit), rest);
      steps := [ProcessEnds(i, exit)] + rest;
    } else {
      assert Legal(cfg, ViewOf(m), m.workers[i]);
      var step := Reap(i, ReadExit, m.now);
      var read := Do(cfg, m, step);
      StepKeepsLegal(cfg, m, step);
      var rest := FinishOne(cfg, read, i, m.now);
      RunKeepsLegal(cfg, read, rest);
      FinishedResult(cfg, End(cfg, read, rest), i);
      Prepend(cfg, m, step, rest);
      steps := [step] + rest;
    }
  }

  /** In every reachable state a worker that ends by itself, with any exit, can be
      reaped at once: classified by its exit, without a kill. */
  lemma {:induction false} EndedWorkerIsReaped(cfg: PoolConfig, start: Time, before: seq<Step>, m: Machine, i: nat, exit: Exit)
    returns (steps: seq<Step>)
    requires Runs(cfg, PoolMachine.Start(start), before) && m == End(cfg, PoolMachine.Start(start), before)
    requires i < |m.workers| && m.workers[i].phase == Waiting && EndsWithExit(m.workers[i], exit)
    ensures Runs(cfg, m, steps)
    ensures var m' := End(cfg, m, steps);
            && m'.now == m.now && m'.counters.kills == m.counters.kills
            && i < |m'.workers| && m'.workers[i].phase == Gone(None, exit, Classify(cfg, exit, false))
            && GroupKillOf(m'.workers[i].trace) == None
  {
    RunKeepsLegal(cfg, PoolMachine.Start(start), before);
    assert Legal(cfg, ViewOf(m), m.workers[i]);
    steps := ReadAndFinish(cfg, m, i, exit);
  }

  /** A worker that ends during its grace period is reaped at once, as killed, and
      its group is not killed. */
  lemma {:induction false} GraceEndsEarly(cfg: PoolConfig, start: Time, before: seq<Step>, m: Machine, i: nat, exit: Exit)
    returns (steps: seq<Step>)
    requires Runs(cfg, PoolMachine.Start(start), before) && m == End(cfg, PoolMachine.Start(start), before)
    requires i < |m.workers| && m.workers[i].phase.Grace? && EndsWithExit(m.workers[i], exit)
    ensures Runs(cfg, m, steps)
    ensures var m' := End(cfg, m, steps);
            && m'.now == m.now && m'.counters.kills == m.counters.kills
            && i < |m'.workers| && m'.workers[i].phase == Gone(Some(m.workers[i].phase.reason), exit, ResultKilled)
            && GroupKillOf(m'.workers[i].trace) == None
  {
    RunKeepsLegal(cfg, PoolMachine.Start(start), before);
    assert Legal(cfg, ViewOf(m), m.workers[i]);
    assert GroupKillOf(m.workers[i].trace.past) == None;
    steps := ReadAndFinish(cfg, m, i, exit);
  }

  /** A worker whose signal cannot be delivered loses its group at once. */
  lemma {:induction false} UndeliveredKillsAtOnce(cfg: PoolConfig, start: Time, before: seq<Step>, m: Machine, i: nat)
    returns (steps: seq<Step>)
    requires Runs(cfg, PoolMachine.Start(start), before) && m == End(cfg, PoolMachine.Start(start), before)
    requires i < |m.workers| && m.workers[i].phase.Signalling?
    ensures Runs(cfg, m, steps)
    ensures var m' := End(cfg, m, steps);
            && m'.now == m.now
            && i < |m'.workers| && m'.workers[i].phase.Gone?
            && GroupKillOf(m'.workers[i].trace) == Some(GroupKill(m.now, Some(m.workers[i].phase.reason), false))
  {
    RunKeepsLegal(cfg, PoolMachine.Start(start), before);
    var w := m.workers[i];
    assert Legal(cfg, ViewOf(m), w);
    var missed := Do(cfg, m, Reap(i, Signal(false), m.now));
    var killed := Do(cfg, missed, Reap(i, KillGroup, m.now));
    assert killed.workers[i].trace == After(After(w.trace, SignalSent(false, m.now)), GroupKilled(m.now));
    assert CountedReason(w.trace) == Some(w.phase.reason) && !Delivered(w.trace);
    var rest := FinishOne(cfg, killed, i, m.now);
    Prepend(cfg, missed, Reap(i, KillGroup, m.now), rest);
    Prepend(cfg, m, Reap(i, Signal(false), m.now), [Reap(i, KillGroup, m.now)] + rest);
    steps := [Reap(i, Signal(false), m.now)] + ([Reap(i, KillGroup, m.now)] + rest);
  }
}
