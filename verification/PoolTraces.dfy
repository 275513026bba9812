/** What one reaper does between the spawn of its worker and its own end, on
    every path through wait and Terminate and in every interleaving. */
module PoolTraces {
  import opened Prelude
  import opened Config
  import opened Pool
  import opened LastLine
  import opened PoolMachine
  import BreakerHistory

  predicate KillStarted(t: Trace, r: Reason) {
    t.After? && t.past == Born && t.event.KillCounted? && t.event.reason == r
  }

  predicate InGrace(t: Trace, r: Reason) {
    t.After? && t.event.SignalSent? && t.event.delivered && KillStarted(t.past, r)
  }

  /** The signal failed, or it arrived and the grace period is over. */
  predicate MayKill(cfg: PoolConfig, t: Trace, r: Reason) {
    t.After? &&
    match t.event
    case SignalSent(delivered, _) => !delivered && KillStarted(t.past, r)
    case GraceElapsed(at) => InGrace(t.past, r) && at >= t.past.event.at + cfg.graceShutdown
    case _ => false
  }

  predicate GroupWasKilled(cfg: PoolConfig, t: Trace, r: Reason) {
    t.After? && t.event.GroupKilled? && MayKill(cfg, t.past, r)
  }

  predicate WasRead(cfg: PoolConfig, t: Trace, killed: Option<Reason>, exit: Exit) {
    t.After? && t.event == ExitRead(exit) &&
    match killed
    case None => t.past == Born
    case Some(r) => InGrace(t.past, r) || GroupWasKilled(cfg, t.past, r)
  }

  predicate WasReleased(cfg: PoolConfig, t: Trace, killed: Option<Reason>, exit: Exit, result: Result) {
    && t.After? && t.event == SlotReleased(result)
    && result == Classify(cfg, exit, killed.Some?)
    && WasRead(cfg, t.past, killed, exit)
  }

  predicate WasCounted(cfg: PoolConfig, t: Trace, killed: Option<Reason>, exit: Exit, result: Result) {
    && t.After? && t.event == ExitCounted(Label(result, ExitCode(exit, killed)))
    && WasReleased(cfg, t.past, killed, exit, result)
  }

  predicate WasFinished(cfg: PoolConfig, t: Trace, killed: Option<Reason>, exit: Exit, result: Result) {
    if HintDue(exit, result) then
      t.After? && t.event == SelfHinted(ParseTasks(exit.result).value) && WasCounted(cfg, t.past, killed, exit, result)
    else WasCounted(cfg, t, killed, exit, result)
  }

  /** Phase by phase: exactly what the reaper has done and what it has not. */
  predicate OnPath(cfg: PoolConfig, w: Worker) {
    && (w.done.Drained? <==> !BeforeExit(w.phase))
    && match w.phase
       case Waiting => w.trace == Born
       case Chosen(_) => w.trace == Born
       case Signalling(r) => KillStarted(w.trace, r)
       case Grace(r, until) => InGrace(w.trace, r) && until == w.trace.event.at + cfg.graceShutdown
       case Killing(r) => MayKill(cfg, w.trace, r)
       case Reaping(r) => GroupWasKilled(cfg, w.trace, r)
       case Exited(killed, exit) => WasRead(cfg, w.trace, killed, exit)
       case Stamped(killed, exit, _) => WasRead(cfg, w.trace, killed, exit)
       case Recorded(killed, exit, result) => WasReleased(cfg, w.trace, killed, exit, result)
       case Counted(killed, exit, result) => WasCounted(cfg, w.trace, killed, exit, result)
       case Leaving(killed, exit, result) => WasFinished(cfg, w.trace, killed, exit, result)
       case Gone(killed, exit, result) => WasFinished(cfg, w.trace, killed, exit, result)
  }

  predicate BeforeExit(phase: Phase) {
    phase.Waiting? || phase.Chosen? || phase.Signalling? || phase.Grace? || phase.Killing? || phase.Reaping?
  }

  // ---------------------------------------------------------------- timing

  /** When the cause for a kill is there: the ttl is over, or the pool stops. */
  predicate Caused(cfg: PoolConfig, started: Time, stop: Option<Time>, r: Reason, at: int) {
    match r
    case KillTtl => cfg.ttl > 0 && at >= started + cfg.ttl
    case KillShutdown => stop.Some? && at >= stop.value
  }

  /** The time of the last timed event, `from` if there is none. */
  function LastAt(t: Trace, from: Time): Time {
    if t.Born? then from
    else match t.event
      case KillCounted(_, at) => at
      case SignalSent(_, at) => at
      case GraceElapsed(at) => at
      case GroupKilled(at) => at
      case _ => LastAt(t.past, from)
  }

  /** The reaper's own times never go back, and no kill is counted before its
      cause is there. */
  predicate InOrder(cfg: PoolConfig, started: Time, stop: Option<Time>, t: Trace) {
    t.Born? ||
    (&& InOrder(cfg, started, stop, t.past)
     && LastAt(t.past, started) <= LastAt(t, started)
     && (t.event.KillCounted? ==> Caused(cfg, started, stop, t.event.reason, t.event.at)))
  }

  predicate Timed(cfg: PoolConfig, v: View, w: Worker) {
    && InOrder(cfg, w.started, v.stop, w.trace)
    && LastAt(w.trace, w.started) <= w.seen <= v.now
    && (w.phase.Chosen? ==> Caused(cfg, w.started, v.stop, w.phase.reason, w.seen))
    && (w.phase.Stamped? ==> w.phase.at == w.seen)
  }

  /** A reaper in step with the code: on its path, at its time. */
  predicate Legal(cfg: PoolConfig, v: View, w: Worker) {
    OnPath(cfg, w) && Timed(cfg, v, w)
  }

  predicate AllLegal(cfg: PoolConfig, v: View, ws: seq<Worker>) {
    forall i :: 0 <= i < |ws| ==> Legal(cfg, v, ws[i])
  }

  /** Time passes, or the pool starts stopping. */
  predicate Later(v: View, v': View) {
    v.now <= v'.now && (v.stop == v'.stop || v.stop.None?)
  }

  lemma {:induction false} InOrderLater(cfg: PoolConfig, started: Time, stop: Option<Time>, t: Trace)
    requires InOrder(cfg, started, None, t)
    ensures InOrder(cfg, started, stop, t)
  {
    if t.After? {
      InOrderLater(cfg, started, stop, t.past);
    }
  }

  lemma {:induction false} AllLegalLater(cfg: PoolConfig, v: View, v': View, ws: seq<Worker>)
    requires AllLegal(cfg, v, ws) && Later(v, v')
    ensures AllLegal(cfg, v', ws)
  {
    forall i | 0 <= i < |ws|
      ensures Legal(cfg, v', ws[i])
    {
      if v.stop != v'.stop {
        InOrderLater(cfg, ws[i].started, v'.stop, ws[i].trace);
      }
    }
  }

  // ------------------------------------------------------------------- steps

  lemma ActKeepsPath(cfg: PoolConfig, w: Worker, act: Act, at: Time, v: View)
    requires OnPath(cfg, w) && CanAct(cfg, w, act, at, v)
    ensures OnPath(cfg, Acted(cfg, w, act, at, v))
  {
  }

  lemma {:induction false} ActKeepsTime(cfg: PoolConfig, w: Worker, act: Act, at: Time, v: View)
    requires Timed(cfg, v, w) && CanAct(cfg, w, act, at, v)
    ensures Timed(cfg, v, Acted(cfg, w, act, at, v))
  {
  }

  lemma {:induction false} StartKeepsLegal(cfg: PoolConfig, m: Machine, want: int, spawns: seq<Spawn>)
    requires want <= |spawns| && Clocked(spawns, m.now) && AllLegal(cfg, ViewOf(m), m.workers)
    ensures var m' := StartWorkers(cfg, m, want, spawns);
            AllLegal(cfg, ViewOf(m'), m'.workers)
    decreases |spawns|
  {
    if want > 0 {
      var at := spawns[0].at;
      AllLegalLater(cfg, ViewOf(m), ViewOf(m.(now := at)), m.workers);
      if spawns[0].ok {
        StartKeepsLegal(cfg, WorkerStarted(m, at), want - 1, spawns[1..]);
      }
    }
  }

  lemma HintKeepsLegal(cfg: PoolConfig, m: Machine, n: int, spawns: seq<Spawn>)
    requires CanHint(cfg, m, n, spawns) && AllLegal(cfg, ViewOf(m), m.workers)
    ensures var m' := AfterHint(cfg, m, n, spawns);
            AllLegal(cfg, ViewOf(m'), m'.workers)
  {
    if Admits(m.pool, m.now) {
      var asked := Logged(m.(pool := Asked(cfg, m.pool, m.now)), BreakerHistory.Poll(m.now));
      StartKeepsLegal(cfg, asked, Want(cfg, m.pool, n), spawns);
    }
  }

  lemma {:induction false} ReleasedIsLegal(cfg: PoolConfig, v: View, w: Worker)
    requires Legal(cfg, v, w) && w.phase.Stamped?
    ensures Legal(cfg, v, Released(cfg, w))
  {
  }

  lemma {:induction false} RungIsLegal(cfg: PoolConfig, v: View, w: Worker)
    requires Legal(cfg, v, w) && HintsItself(w.phase)
    ensures Legal(cfg, v, Rung(w))
  {
  }

  lemma ReplacedIsLegal(cfg: PoolConfig, v: View, ws: seq<Worker>, i: nat, w: Worker)
    requires i < |ws| && AllLegal(cfg, v, ws) && Legal(cfg, v, w)
    ensures AllLegal(cfg, v, ws[i := w])
  {
  }

  lemma StepKeepsLegal(cfg: PoolConfig, m: Machine, step: Step)
    requires Can(cfg, m, step) && AllLegal(cfg, ViewOf(m), m.workers)
    ensures var m' := Do(cfg, m, step);
            AllLegal(cfg, ViewOf(m'), m'.workers)
  {
    var v := ViewOf(m);
    match step
    case Tick(_) => AllLegalLater(cfg, v, ViewOf(Do(cfg, m, step)), m.workers);
    case BeginShutdown => AllLegalLater(cfg, v, ViewOf(Do(cfg, m, step)), m.workers);
    case HintArrives(n, spawns) => HintKeepsLegal(cfg, m, n, spawns);
    case PokeHint(spawns) => HintKeepsLegal(cfg, m, cfg.pokeCount, spawns);
    case SelfHint(i, spawns) =>
      RungIsLegal(cfg, v, m.workers[i]);
      ReplacedIsLegal(cfg, v, m.workers, i, Rung(m.workers[i]));
      HintKeepsLegal(cfg, SelfHinting(m, i), TasksOf(m.workers[i].phase), spawns);
    case ProcessEnds(i, exit) =>
      ReplacedIsLegal(cfg, v, m.workers, i, m.workers[i].(done := Ready(exit)));
    case Reap(i, act, at) =>
      ActKeepsPath(cfg, m.workers[i], act, at, v);
      ActKeepsTime(cfg, m.workers[i], act, at, v);
      ReplacedIsLegal(cfg, v, m.workers, i, Acted(cfg, m.workers[i], act, at, v));
    case RecordExit(i) =>
      ReleasedIsLegal(cfg, v, m.workers[i]);
      ReplacedIsLegal(cfg, v, m.workers, i, Released(cfg, m.workers[i]));
    case _ =>
  }

  lemma {:induction false} RunKeepsLegal(cfg: PoolConfig, m: Machine, steps: seq<Step>)
    requires Runs(cfg, m, steps) && AllLegal(cfg, ViewOf(m), m.workers)
    ensures var m' := End(cfg, m, steps);
            AllLegal(cfg, ViewOf(m'), m'.workers)
    decreases |steps|
  {
    if steps != [] {
      StepKeepsLegal(cfg, m, steps[0]);
      RunKeepsLegal(cfg, Do(cfg, m, steps[0]), steps[1..]);
    }
  }

  // -------------------------------------------------------------- consequences

  /** How often each effect occurs in a trace. */
  datatype Tally = Tally(kills: nat, groupKills: nat, exitReads: nat, releases: nat, exits: nat, hints: nat)

  function TallyOf(t: Trace): Tally {
    if t.Born? then Tally(0, 0, 0, 0, 0, 0)
    else
      var n, e := TallyOf(t.past), t.event;
      Tally(n.kills + Indicator(e.KillCounted?),
            n.groupKills + Indicator(e.GroupKilled?),
            n.exitReads + Indicator(e.ExitRead?),
            n.releases + Indicator(e.SlotReleased?),
            n.exits + Indicator(e.ExitCounted?),
            n.hints + Indicator(e.SelfHinted?))
  }

  /** Every group kill in the trace comes right after a signal that could not be
      delivered, or after one that was and a full grace period. */
  ghost predicate KillsJustified(cfg: PoolConfig, t: Trace) {
    t.Born? ||
    (KillsJustified(cfg, t.past) && (t.event.GroupKilled? ==> exists r :: MayKill(cfg, t.past, r)))
  }

  function CountedReason(t: Trace): Option<Reason> {
    if t.Born? then None else if t.event.KillCounted? then Some(t.event.reason) else CountedReason(t.past)
  }

  predicate Delivered(t: Trace) {
    t.After? && ((t.event.SignalSent? && t.event.delivered) || Delivered(t.past))
  }

  /** The last group kill, what it was counted as, and whether the worker had its
      signal. */
  datatype GroupKill = GroupKill(at: Time, reason: Option<Reason>, delivered: bool)

  function GroupKillOf(t: Trace): Option<GroupKill> {
    if t.Born? then None
    else if t.event.GroupKilled? then Some(GroupKill(t.event.at, CountedReason(t.past), Delivered(t.past)))
    else GroupKillOf(t.past)
  }

  /** A kill waits for its cause, and a full grace period more if the worker had
      its signal. */
  predicate Waited(cfg: PoolConfig, started: Time, stop: Option<Time>, kill: GroupKill) {
    && kill.reason.Some?
    && Caused(cfg, started, stop, kill.reason.value, kill.at - if kill.delivered then cfg.graceShutdown else 0)
  }

  lemma {:induction false} KillWaits(cfg: PoolConfig, started: Time, stop: Option<Time>, t: Trace, r: Reason)
    requires t.After? && t.event.GroupKilled? && MayKill(cfg, t.past, r) && InOrder(cfg, started, stop, t)
    ensures Waited(cfg, started, stop, GroupKillOf(t).value)
  {
    var ready := t.past;
    assert InOrder(cfg, started, stop, ready) && InOrder(cfg, started, stop, ready.past);
    if ready.event.GraceElapsed? {
      var sent := ready.past;
      assert InOrder(cfg, started, stop, sent.past) && KillStarted(sent.past, r);
      assert Delivered(sent) && CountedReason(sent) == Some(r);
    } else {
      assert CountedReason(ready) == Some(r) && !Delivered(ready.past);
    }
  }

  lemma {:induction false} KillsWait(cfg: PoolConfig, started: Time, stop: Option<Time>, t: Trace)
    requires KillsJustified(cfg, t) && InOrder(cfg, started, stop, t)
    ensures GroupKillOf(t).Some? ==>
              Waited(cfg, started, stop, GroupKillOf(t).value) && GroupKillOf(t).value.at <= LastAt(t, started)
  {
    if t.After? {
      KillsWait(cfg, started, stop, t.past);
      if t.event.GroupKilled? {
        var r :| MayKill(cfg, t.past, r);
        KillWaits(cfg, started, stop, t, r);
      }
    }
  }

  lemma TallySignalled(cfg: PoolConfig, t: Trace, r: Reason)
    requires KillStarted(t, r) || InGrace(t, r) || MayKill(cfg, t, r)
    ensures TallyOf(t) == Tally(1, 0, 0, 0, 0, 0) && KillsJustified(cfg, t)
  {
    if !KillStarted(t, r) {
      TallySignalled(cfg, t.past, r);
    }
  }

  lemma TallyRead(cfg: PoolConfig, t: Trace, killed: Option<Reason>, exit: Exit)
    requires WasRead(cfg, t, killed, exit)
    ensures var n := TallyOf(t);
            n == Tally(Indicator(killed.Some?), n.groupKills, 1, 0, 0, 0) && n.groupKills <= Indicator(killed.Some?)
    ensures KillsJustified(cfg, t)
  {
    if killed.Some? {
      var r := killed.value;
      TallySignalled(cfg, if InGrace(t.past, r) then t.past else t.past.past, r);
    }
  }

  /** What the trace of a reaper must add up to in each phase. */
  function Expected(phase: Phase, groupKills: nat): Tally {
    match phase
    case Waiting => Tally(0, groupKills, 0, 0, 0, 0)
    case Chosen(_) => Tally(0, groupKills, 0, 0, 0, 0)
    case Signalling(_) => Tally(1, groupKills, 0, 0, 0, 0)
    case Grace(_, _) => Tally(1, groupKills, 0, 0, 0, 0)
    case Killing(_) => Tally(1, groupKills, 0, 0, 0, 0)
    case Reaping(_) => Tally(1, groupKills, 0, 0, 0, 0)
    case Exited(killed, _) => Tally(Indicator(killed.Some?), groupKills, 1, 0, 0, 0)
    case Stamped(killed, _, _) => Tally(Indicator(killed.Some?), groupKills, 1, 0, 0, 0)
    case Recorded(killed, _, _) => Tally(Indicator(killed.Some?), groupKills, 1, 1, 0, 0)
    case Counted(killed, _, _) => Tally(Indicator(killed.Some?), groupKills, 1, 1, 1, 0)
    case Leaving(killed, exit, result) => Tally(Indicator(killed.Some?), groupKills, 1, 1, 1, Indicator(HintDue(exit, result)))
    case Gone(killed, exit, result) => Tally(Indicator(killed.Some?), groupKills, 1, 1, 1, Indicator(HintDue(exit, result)))
  }

  lemma TallyReleased(cfg: PoolConfig, t: Trace, killed: Option<Reason>, exit: Exit, result: Result)
    requires WasReleased(cfg, t, killed, exit, result)
    ensures var n := TallyOf(t);
            n == Tally(Indicator(killed.Some?), n.groupKills, 1, 1, 0, 0) && n.groupKills <= Indicator(killed.Some?)
    ensures KillsJustified(cfg, t) && (killed.Some? <==> result == ResultKilled)
  {
    TallyRead(cfg, t.past, killed, exit);
  }

  lemma TallyFinished(cfg: PoolConfig, t: Trace, killed: Option<Reason>, exit: Exit, result: Result)
    requires WasFinished(cfg, t, killed, exit, result)
    ensures var n := TallyOf(t);
            && n == Tally(Indicator(killed.Some?), n.groupKills, 1, 1, 1, Indicator(HintDue(exit, result)))
            && n.groupKills <= Indicator(killed.Some?)
    ensures KillsJustified(cfg, t) && (killed.Some? <==> result == ResultKilled)
  {
    var counted := if HintDue(exit, result) then t.past else t;
    TallyReleased(cfg, counted.past, killed, exit, result);
  }

  lemma TallyCounted(cfg: PoolConfig, t: Trace, killed: Option<Reason>, exit: Exit, result: Result)
    requires WasCounted(cfg, t, killed, exit, result)
    ensures var n := TallyOf(t);
            n == Tally(Indicator(killed.Some?), n.groupKills, 1, 1, 1, 0) && n.groupKills <= Indicator(killed.Some?)
    ensures KillsJustified(cfg, t) && (killed.Some? <==> result == ResultKilled)
  {
    TallyReleased(cfg, t.past, killed, exit, result);
  }

  /** At any moment of any run a reaper's effects are exactly those its phase
      stands for: the exit is read once, never twice; a kill is counted once or
      not at all; and no group is killed without a failed signal or a full grace
      period before it, counted from a signal sent after the kill had its cause. */
  lemma EffectsByPhase(cfg: PoolConfig, v: View, w: Worker)
    requires Legal(cfg, v, w)
    ensures var n := TallyOf(w.trace);
            n == Expected(w.phase, n.groupKills) && n.groupKills <= n.kills
    ensures KillsJustified(cfg, w.trace)
    ensures GroupKillOf(w.trace).Some? ==>
              Waited(cfg, w.started, v.stop, GroupKillOf(w.trace).value) && GroupKillOf(w.trace).value.at <= v.now
  {
    EffectsOnPath(cfg, w);
    KillsWait(cfg, w.started, v.stop, w.trace);
  }

  lemma EffectsOnPath(cfg: PoolConfig, w: Worker)
    requires OnPath(cfg, w)
    ensures var n := TallyOf(w.trace);
            n == Expected(w.phase, n.groupKills) && n.groupKills <= n.kills
    ensures KillsJustified(cfg, w.trace)
  {
    match w.phase
    case Waiting =>
    case Chosen(_) =>
    case Signalling(r) => TallySignalled(cfg, w.trace, r);
    case Grace(r, _) => TallySignalled(cfg, w.trace, r);
    case Killing(r) => TallySignalled(cfg, w.trace, r);
    case Reaping(r) => TallySignalled(cfg, w.trace.past, r);
    case Exited(killed, exit) => TallyRead(cfg, w.trace, killed, exit);
    case Stamped(killed, exit, _) => TallyRead(cfg, w.trace, killed, exit);
    case Recorded(killed, exit, result) => TallyReleased(cfg, w.trace, killed, exit, result);
    case Counted(killed, exit, result) => TallyCounted(cfg, w.trace, killed, exit, result);
    case Leaving(killed, exit, result) => TallyFinished(cfg, w.trace, killed, exit, result);
    case Gone(killed, exit, result) => TallyFinished(cfg, w.trace, killed, exit, result);
  }

  /** In every run of a pool: a finished worker was classified killed exactly
      when one kill was counted for it, such a worker never hints the pool, and
      any other hints it once if it exited ok with a positive count and not
      otherwise; its exit was read, recorded and counted once each. */
  lemma {:induction false} ExactlyOnce(cfg: PoolConfig, start: Time, steps: seq<Step>, i: nat)
    requires Runs(cfg, PoolMachine.Start(start), steps)
    requires i < |End(cfg, PoolMachine.Start(start), steps).workers|
    ensures var w := End(cfg, PoolMachine.Start(start), steps).workers[i];
            var n := TallyOf(w.trace);
            && n.exitReads <= 1 && n.kills <= 1 && n.groupKills <= n.kills
            && KillsJustified(cfg, w.trace)
            && (w.phase.Gone? ==>
                  && n.exitReads == 1 && n.releases == 1 && n.exits == 1
                  && (w.phase.result == ResultKilled <==> n.kills == 1)
                  && (n.kills == 1 ==> n.hints == 0)
                  && n.hints <= 1
                  && (n.hints == 1 <==> w.phase.result == ResultOk && exists k: nat :: k > 0 && Counts(w.phase.exit.result, k))
                  && w.phase.result == Classify(cfg, w.phase.exit, n.kills == 1))
  {
    RunKeepsLegal(cfg, PoolMachine.Start(start), steps);
    var w := End(cfg, PoolMachine.Start(start), steps).workers[i];
    EffectsByPhase(cfg, ViewOf(End(cfg, PoolMachine.Start(start), steps)), w);
    if w.phase.Gone? {
      var t := w.trace;
      var Gone(killed, exit, result) := w.phase;
      TallyFinished(cfg, t, killed, exit, result);
      HintDueExactly(exit, result);
    }
  }

  /** A self-hint is due exactly after an ok exit that reported at least one task. */
  lemma HintDueExactly(exit: Exit, result: Result)
    ensures HintDue(exit, result) <==> result == ResultOk && exists k: nat :: k > 0 && Counts(exit.result, k)
  {
    ParseTasksExactly(exit.result);
  }

  function HintedFor(t: Trace): Option<nat> {
    if t.Born? then None else if t.event.SelfHinted? then Some(t.event.count) else HintedFor(t.past)
  }

  /** In every run, for every finished worker and whatever it printed: it hinted the
      pool for k exactly if it exited ok and its output reports k tasks, k > 0. */
  lemma {:induction false} SelfHintsByOutput(cfg: PoolConfig, start: Time, steps: seq<Step>, i: nat, chunks: seq<string>, k: nat)
    requires Runs(cfg, PoolMachine.Start(start), steps)
    requires var m := End(cfg, PoolMachine.Start(start), steps);
             i < |m.workers| && m.workers[i].phase.Gone? && m.workers[i].phase.exit.result == LineOf(chunks)
    ensures var w := End(cfg, PoolMachine.Start(start), steps).workers[i];
            HintedFor(w.trace) == Some(k) <==> w.phase.result == ResultOk && k > 0 && Reports(Flatten(chunks), k)
  {
    RunKeepsLegal(cfg, PoolMachine.Start(start), steps);
    var w := End(cfg, PoolMachine.Start(start), steps).workers[i];
    assert Legal(cfg, ViewOf(End(cfg, PoolMachine.Start(start), steps)), w);
    OutputCount(chunks);
    var Gone(killed, exit, result) := w.phase;
    NoHintYet(cfg, if HintDue(exit, result) then w.trace.past else w.trace, killed, exit, result);
  }

  lemma {:induction false} NoHintYet(cfg: PoolConfig, t: Trace, killed: Option<Reason>, exit: Exit, result: Result)
    requires WasCounted(cfg, t, killed, exit, result)
    ensures HintedFor(t) == None
  {
    var released := t.past;
    var read := released.past;
    if killed.Some? {
      NoHintSignalled(cfg, read.past, killed.value);
    }
    assert read.event.ExitRead? && HintedFor(read) == HintedFor(read.past) == None;
    assert released.event.SlotReleased? && HintedFor(released) == HintedFor(read);
  }

  lemma {:induction false} NoHintSignalled(cfg: PoolConfig, t: Trace, r: Reason)
    requires KillStarted(t, r) || InGrace(t, r) || MayKill(cfg, t, r) || GroupWasKilled(cfg, t, r)
    ensures HintedFor(t) == None
  {
    if !KillStarted(t, r) {
      NoHintSignalled(cfg, t.past, r);
    }
  }

  /** In every run, a worker that got its signal is group-killed no earlier than
      the end of its ttl, or the start of shutdown, plus the whole grace period;
      one that could not be signalled, no earlier than that cause. */
  lemma {:induction false} GroupKillWaits(cfg: PoolConfig, start: Time, steps: seq<Step>, i: nat)
    requires Runs(cfg, PoolMachine.Start(start), steps)
    requires i < |End(cfg, PoolMachine.Start(start), steps).workers|
    requires GroupKillOf(End(cfg, PoolMachine.Start(start), steps).workers[i].trace).Some?
    ensures var m := End(cfg, PoolMachine.Start(start), steps);
            var w := m.workers[i];
            var GroupKill(at, reason, delivered) := GroupKillOf(w.trace).value;
            var grace := if delivered then cfg.graceShutdown else 0;
            && at <= m.now && reason.Some?
            && match reason.value
               case KillTtl => cfg.ttl > 0 && at >= w.started + cfg.ttl + grace
               case KillShutdown => m.pool.stopping && at >= m.stopAt + grace
  {
    RunKeepsLegal(cfg, PoolMachine.Start(start), steps);
    var m := End(cfg, PoolMachine.Start(start), steps);
    EffectsByPhase(cfg, ViewOf(m), m.workers[i]);
  }
}
