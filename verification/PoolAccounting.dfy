/** The cap, the wait group and the counters: invariants of every reachable
    state under every interleaving. */
module PoolAccounting {
  import opened Prelude
  import opened Config
  import opened Pool
  import opened PoolMachine
  import opened PoolTraces
  import BreakerHistory

  /** Quantities summed over the workers. */
  datatype Quantity =
    | Holding            // exit not yet recorded: the worker occupies a slot
    | Live               // reaper still in the wait group
    | Between            // recorded but not yet counted
    | Finished           // exit counted
    | KillsFor(r: Reason)
    | ExitsAs(l: Label)
    | Work               // steps the worker and its reaper still have before them

  function KillsIn(t: Trace, r: Reason): nat {
    if t.Born? then 0 else KillsIn(t.past, r) + Indicator(t.event.KillCounted? && t.event.reason == r)
  }

  function ExitsIn(t: Trace, l: Label): nat {
    if t.Born? then 0 else ExitsIn(t.past, l) + Indicator(t.event == ExitCounted(l))
  }

  function Rank(phase: Phase): nat {
    match phase
    case Waiting => 11
    case Chosen(_) => 10
    case Signalling(_) => 9
    case Grace(_, _) => 8
    case Killing(_) => 7
    case Reaping(_) => 6
    case Exited(_, _) => 5
    case Stamped(_, _, _) => 4
    case Recorded(_, _, _) => 3
    case Counted(_, _, _) => 2
    case Leaving(_, _, _) => 1
    case Gone(_, _, _) => 0
  }

  function Weight(w: Worker, q: Quantity): nat {
    match q
    case Holding => Indicator(Rank(w.phase) >= 4)
    case Live => Indicator(!w.phase.Gone?)
    case Between => Indicator(w.phase.Recorded?)
    case Finished => Indicator(Rank(w.phase) <= 2)
    case KillsFor(r) => KillsIn(w.trace, r)
    case ExitsAs(l) => ExitsIn(w.trace, l)
    case Work => Rank(w.phase) + Indicator(w.done.Pending?)
  }

  function Sum(ws: seq<Worker>, q: Quantity): nat {
    if ws == [] then 0 else Sum(ws[..|ws| - 1], q) + Weight(ws[|ws| - 1], q)
  }

  lemma SumSnoc(ws: seq<Worker>, w: Worker, q: Quantity)
    ensures Sum(ws + [w], q) == Sum(ws, q) + Weight(w, q)
  {
    assert (ws + [w])[..|ws|] == ws;
  }

  lemma {:induction false} SumUpdate(ws: seq<Worker>, i: nat, w: Worker, q: Quantity)
    requires i < |ws|
    ensures Sum(ws[i := w], q) == Sum(ws, q) - Weight(ws[i], q) + Weight(w, q)
    ensures Weight(ws[i], q) <= Sum(ws, q)
  {
    var n := |ws| - 1;
    if i < n {
      SumUpdate(ws[..n], i, w, q);
      assert ws[i := w][..n] == ws[..n][i := w];
    } else {
      assert ws[i := w][..n] == ws[..n];
    }
  }

  /** The pool's slots and its wait group. */
  predicate Slots(cfg: PoolConfig, m: Machine) {
    && m.pool.running == Sum(m.workers, Holding)
    && m.pool.running <= cfg.concurrency
    && m.wg == Sum(m.workers, Live)
  }

  /** The counters, per label where they have labels. */
  ghost predicate Tallied(m: Machine) {
    && m.counters.spawns == |m.workers|
    && |m.counters.exits| == Sum(m.workers, Finished)
    && (forall r :: m.counters.kills[r] == Sum(m.workers, KillsFor(r)))
    && (forall l :: m.counters.exits[l] == Sum(m.workers, ExitsAs(l)))
  }

  lemma StartedKeeps(cfg: PoolConfig, m: Machine, at: Time)
    requires Slots(cfg, m) && Tallied(m) && m.pool.running < cfg.concurrency
    ensures Slots(cfg, WorkerStarted(m, at)) && Tallied(WorkerStarted(m, at))
  {
    var w := Worker(Waiting, Pending, at, at, Born);
    forall q: Quantity
      ensures Sum(m.workers + [w], q) == Sum(m.workers, q) + Weight(w, q)
    {
      SumSnoc(m.workers, w, q);
    }
  }

  lemma {:induction false} StartKeeps(cfg: PoolConfig, m: Machine, want: int, spawns: seq<Spawn>)
    requires want <= |spawns| && want <= cfg.concurrency - m.pool.running
    requires Slots(cfg, m) && Tallied(m)
    ensures Slots(cfg, StartWorkers(cfg, m, want, spawns)) && Tallied(StartWorkers(cfg, m, want, spawns))
    decreases |spawns|
  {
    if want > 0 && spawns[0].ok {
      StartedKeeps(cfg, m, spawns[0].at);
      StartKeeps(cfg, WorkerStarted(m, spawns[0].at), want - 1, spawns[1..]);
    }
  }

  lemma HintKeeps(cfg: PoolConfig, m: Machine, n: int, spawns: seq<Spawn>)
    requires CanHint(cfg, m, n, spawns) && Slots(cfg, m) && Tallied(m)
    ensures Slots(cfg, AfterHint(cfg, m, n, spawns)) && Tallied(AfterHint(cfg, m, n, spawns))
  {
    if Admits(m.pool, m.now) {
      var asked := Logged(m.(pool := Asked(cfg, m.pool, m.now)), BreakerHistory.Poll(m.now));
      StartKeeps(cfg, asked, Want(cfg, m.pool, n), spawns);
    }
  }

  /** Which weights a reaper's own step can move. */
  lemma ActWeights(cfg: PoolConfig, w: Worker, act: Act, at: Time, v: View, q: Quantity)
    requires CanAct(cfg, w, act, at, v) && !q.Work?
    ensures var w' := Acted(cfg, w, act, at, v);
            match q
            case KillsFor(r) => Weight(w', q) == Weight(w, q) + Indicator(act.CountKill? && r == w.phase.reason)
            case ExitsAs(l) => Weight(w', q) == Weight(w, q) + Indicator(act.CountExit? && l == LabelOf(w.phase))
            case Live => Weight(w', q) == Weight(w, q) - Indicator(act.Leave?)
            case Finished => Weight(w', q) == Weight(w, q) + Indicator(act.CountExit?)
            case Between => Weight(w', q) == Weight(w, q) - Indicator(act.CountExit?)
            case Holding => Weight(w', q) == Weight(w, q)
            case Work => true
  {
  }

  lemma ReapKeepsSlots(cfg: PoolConfig, m: Machine, i: nat, act: Act, at: Time)
    requires i < |m.workers| && CanAct(cfg, m.workers[i], act, at, ViewOf(m)) && Slots(cfg, m)
    ensures Slots(cfg, AfterAct(cfg, m, i, act, at))
  {
    var w' := Acted(cfg, m.workers[i], act, at, ViewOf(m));
    SumUpdate(m.workers, i, w', Holding);
    SumUpdate(m.workers, i, w', Live);
    ActWeights(cfg, m.workers[i], act, at, ViewOf(m), Holding);
    ActWeights(cfg, m.workers[i], act, at, ViewOf(m), Live);
  }

  lemma ReapKeepsTallied(cfg: PoolConfig, m: Machine, i: nat, act: Act, at: Time)
    requires i < |m.workers| && CanAct(cfg, m.workers[i], act, at, ViewOf(m)) && Tallied(m)
    ensures Tallied(AfterAct(cfg, m, i, act, at))
  {
    var w, m' := m.workers[i], AfterAct(cfg, m, i, act, at);
    var w' := Acted(cfg, w, act, at, ViewOf(m));
    SumUpdate(m.workers, i, w', Finished);
    ActWeights(cfg, w, act, at, ViewOf(m), Finished);
    forall r
      ensures m'.counters.kills[r] == Sum(m'.workers, KillsFor(r))
    {
      SumUpdate(m.workers, i, w', KillsFor(r));
      ActWeights(cfg, w, act, at, ViewOf(m), KillsFor(r));
    }
    forall l
      ensures m'.counters.exits[l] == Sum(m'.workers, ExitsAs(l))
    {
      SumUpdate(m.workers, i, w', ExitsAs(l));
      ActWeights(cfg, w, act, at, ViewOf(m), ExitsAs(l));
    }
  }

  /** A change of phase and trace that moves no sum but, maybe, Holding and Between. */
  lemma ReplacedKeepsTallied(m: Machine, i: nat, w: Worker)
    requires i < |m.workers| && Tallied(m)
    requires forall q: Quantity :: q.Finished? || q.KillsFor? || q.ExitsAs? ==> Weight(w, q) == Weight(m.workers[i], q)
    ensures Tallied(m.(workers := m.workers[i := w]))
  {
    SumUpdate(m.workers, i, w, Finished);
    forall r
      ensures Sum(m.workers[i := w], KillsFor(r)) == Sum(m.workers, KillsFor(r))
    {
      SumUpdate(m.workers, i, w, KillsFor(r));
    }
    forall l
      ensures Sum(m.workers[i := w], ExitsAs(l)) == Sum(m.workers, ExitsAs(l))
    {
      SumUpdate(m.workers, i, w, ExitsAs(l));
    }
  }

  lemma RecordKeeps(cfg: PoolConfig, m: Machine, i: nat)
    requires i < |m.workers| && m.workers[i].phase.Stamped?
    requires Slots(cfg, m) && Tallied(m)
    ensures Slots(cfg, AfterRecord(cfg, m, i)) && Tallied(AfterRecord(cfg, m, i))
  {
    var w' := Released(cfg, m.workers[i]);
    SumUpdate(m.workers, i, w', Holding);
    SumUpdate(m.workers, i, w', Live);
    ReplacedKeepsTallied(m, i, w');
  }

  lemma SelfHintingKeeps(cfg: PoolConfig, m: Machine, i: nat)
    requires i < |m.workers| && HintsItself(m.workers[i].phase)
    requires Slots(cfg, m) && Tallied(m)
    ensures Slots(cfg, SelfHinting(m, i)) && Tallied(SelfHinting(m, i))
  {
    var w' := Rung(m.workers[i]);
    SumUpdate(m.workers, i, w', Holding);
    SumUpdate(m.workers, i, w', Live);
    ReplacedKeepsTallied(m, i, w');
  }

  lemma EndKeeps(cfg: PoolConfig, m: Machine, i: nat, exit: Exit)
    requires i < |m.workers| && Slots(cfg, m) && Tallied(m) && m.workers[i].done.Pending?
    ensures Slots(cfg, Do(cfg, m, ProcessEnds(i, exit))) && Tallied(Do(cfg, m, ProcessEnds(i, exit)))
  {
    var w' := m.workers[i].(done := Ready(exit));
    SumUpdate(m.workers, i, w', Holding);
    SumUpdate(m.workers, i, w', Live);
    ReplacedKeepsTallied(m, i, w');
  }

  lemma StepKeeps(cfg: PoolConfig, m: Machine, step: Step)
    requires Can(cfg, m, step) && Slots(cfg, m) && Tallied(m)
    ensures Slots(cfg, Do(cfg, m, step)) && Tallied(Do(cfg, m, step))
  {
    match step
    case HintArrives(n, spawns) => HintKeeps(cfg, m, n, spawns);
    case PokeHint(spawns) => HintKeeps(cfg, m, cfg.pokeCount, spawns);
    case SelfHint(i, spawns) =>
      SelfHintingKeeps(cfg, m, i);
      HintKeeps(cfg, SelfHinting(m, i), TasksOf(m.workers[i].phase), spawns);
    case ProcessEnds(i, exit) => EndKeeps(cfg, m, i, exit);
    case Reap(i, act, at) =>
      ReapKeepsSlots(cfg, m, i, act, at);
      ReapKeepsTallied(cfg, m, i, act, at);
    case RecordExit(i) => RecordKeeps(cfg, m, i);
    case _ =>
  }

  lemma {:induction false} RunKeeps(cfg: PoolConfig, m: Machine, steps: seq<Step>)
    requires Runs(cfg, m, steps) && Slots(cfg, m) && Tallied(m)
    ensures Slots(cfg, End(cfg, m, steps)) && Tallied(End(cfg, m, steps))
    decreases |steps|
  {
    if steps != [] {
      StepKeeps(cfg, m, steps[0]);
      RunKeeps(cfg, Do(cfg, m, steps[0]), steps[1..]);
    }
  }

  // ------------------------------------------------------------------ theorems

  /** Every run of a pool with a valid configuration ends in an accounted state. */
  lemma {:induction false} Accounted(cfg: PoolConfig, start: Time, steps: seq<Step>)
    requires SoundPool(cfg) && Runs(cfg, PoolMachine.Start(start), steps)
    ensures var m := End(cfg, PoolMachine.Start(start), steps);
            Slots(cfg, m) && Tallied(m) && AllLegal(cfg, ViewOf(m), m.workers)
  {
    RunKeeps(cfg, PoolMachine.Start(start), steps);
    RunKeepsLegal(cfg, PoolMachine.Start(start), steps);
  }

  /** The exit of the worker has not been recorded under the lock. */
  predicate Unrecorded(w: Worker) {
    !w.phase.Recorded? && !w.phase.Counted? && !w.phase.Leaving? && !w.phase.Gone?
  }

  function Weighing(ws: seq<Worker>, q: Quantity): seq<bool> {
    if ws == [] then [] else Weighing(ws[..|ws| - 1], q) + [Weight(ws[|ws| - 1], q) == 1]
  }

  lemma {:induction false} SumIsCount(ws: seq<Worker>, q: Quantity)
    requires q.Holding? || q.Live? || q.Between?
    ensures Sum(ws, q) == |Trues(Weighing(ws, q))|
  {
    if ws != [] {
      var n := |ws| - 1;
      SumIsCount(ws[..n], q);
      TruesSnoc(Weighing(ws[..n], q), Weight(ws[n], q) == 1);
    }
  }

  lemma {:induction false} WeighingAt(ws: seq<Worker>, q: Quantity)
    ensures |Weighing(ws, q)| == |ws|
    ensures forall i :: 0 <= i < |ws| ==> (Weighing(ws, q)[i] <==> Weight(ws[i], q) == 1)
  {
    if ws != [] {
      WeighingAt(ws[..|ws| - 1], q);
    }
  }

  lemma {:induction false} SumsCount(ws: seq<Worker>)
    ensures Sum(ws, Holding) == |set i | 0 <= i < |ws| && Unrecorded(ws[i])|
    ensures Sum(ws, Live) == |set i | 0 <= i < |ws| && !ws[i].phase.Gone?|
    ensures Sum(ws, Between) == |set i | 0 <= i < |ws| && ws[i].phase.Recorded?|
  {
    SumIsCount(ws, Holding);
    SumIsCount(ws, Live);
    SumIsCount(ws, Between);
    WeighingAt(ws, Holding);
    WeighingAt(ws, Live);
    WeighingAt(ws, Between);
    assert Trues(Weighing(ws, Between)) == set i | 0 <= i < |ws| && ws[i].phase.Recorded?;
    assert Trues(Weighing(ws, Holding)) == set i | 0 <= i < |ws| && Unrecorded(ws[i]);
    assert Trues(Weighing(ws, Live)) == set i | 0 <= i < |ws| && !ws[i].phase.Gone?;
  }

  /** In every reachable state `running` is the number of workers whose exit is
      not yet recorded, it never exceeds the cap, and the wait group counts the
      live reapers. */
  lemma {:induction false} CapHolds(cfg: PoolConfig, start: Time, steps: seq<Step>)
    requires SoundPool(cfg) && Runs(cfg, PoolMachine.Start(start), steps)
    ensures var m := End(cfg, PoolMachine.Start(start), steps);
            && m.pool.running == |set i | 0 <= i < |m.workers| && Unrecorded(m.workers[i])|
            && 0 <= m.pool.running <= cfg.concurrency
            && m.wg == |set i | 0 <= i < |m.workers| && !m.workers[i].phase.Gone?|
  {
    Accounted(cfg, start, steps);
    SumsCount(End(cfg, PoolMachine.Start(start), steps).workers);
  }

  lemma {:induction false} EveryWorkerSomewhere(ws: seq<Worker>)
    ensures |ws| == Sum(ws, Holding) + Sum(ws, Between) + Sum(ws, Finished)
  {
    if ws != [] {
      EveryWorkerSomewhere(ws[..|ws| - 1]);
    }
  }

  /** Conservation: every worker ever started is still running, between its
      record and its count, or counted as one exit. */
  lemma {:induction false} SpawnsConserved(cfg: PoolConfig, start: Time, steps: seq<Step>)
    requires SoundPool(cfg) && Runs(cfg, PoolMachine.Start(start), steps)
    ensures var m := End(cfg, PoolMachine.Start(start), steps);
            m.counters.spawns == |m.counters.exits| + m.pool.running
                                 + |set i | 0 <= i < |m.workers| && m.workers[i].phase.Recorded?|
  {
    Accounted(cfg, start, steps);
    SumsCount(End(cfg, PoolMachine.Start(start), steps).workers);
    EveryWorkerSomewhere(End(cfg, PoolMachine.Start(start), steps).workers);
  }

  /** The label a kill for `r` ends up under. */
  function KilledAs(r: Reason): Label {
    Label(ResultKilled, ReasonName(r))
  }

  lemma NamesDiffer(r: Reason, r': Reason)
    ensures ReasonName(r) == ReasonName(r') <==> r == r'
  {
    assert "ttl"[0] == 't' && "shutdown"[0] == 's';
  }

  lemma KillsOfSignalled(cfg: PoolConfig, t: Trace, k: Reason, r: Reason)
    requires KillStarted(t, k) || InGrace(t, k) || MayKill(cfg, t, k) || GroupWasKilled(cfg, t, k)
    ensures KillsIn(t, r) == Indicator(k == r) && ExitsIn(t, KilledAs(r)) == 0
  {
    if !KillStarted(t, k) {
      KillsOfSignalled(cfg, t.past, k, r);
    }
  }

  lemma KillsOfRead(cfg: PoolConfig, t: Trace, killed: Option<Reason>, exit: Exit, r: Reason)
    requires WasRead(cfg, t, killed, exit)
    ensures KillsIn(t, r) == Indicator(killed == Some(r)) && ExitsIn(t, KilledAs(r)) == 0
  {
    if killed.Some? {
      KillsOfSignalled(cfg, t.past, killed.value, r);
    }
  }

  lemma KillsOfCounted(cfg: PoolConfig, t: Trace, killed: Option<Reason>, exit: Exit, result: Result, r: Reason)
    requires WasCounted(cfg, t, killed, exit, result)
    ensures KillsIn(t, r) == ExitsIn(t, KilledAs(r)) == Indicator(killed == Some(r))
  {
    KillsOfRead(cfg, t.past.past, killed, exit, r);
    if killed.Some? {
      NamesDiffer(killed.value, r);
    }
  }

  lemma KillsOfWorker(cfg: PoolConfig, w: Worker, r: Reason)
    requires OnPath(cfg, w) && w.phase.Gone?
    ensures KillsIn(w.trace, r) == ExitsIn(w.trace, KilledAs(r))
  {
    var Gone(killed, exit, result) := w.phase;
    KillsOfCounted(cfg, if HintDue(exit, result) then w.trace.past else w.trace, killed, exit, result, r);
  }

  lemma {:induction false} KillsMatch(cfg: PoolConfig, v: View, ws: seq<Worker>, r: Reason)
    requires AllLegal(cfg, v, ws) && Sum(ws, Live) == 0
    ensures Sum(ws, KillsFor(r)) == Sum(ws, ExitsAs(KilledAs(r)))
  {
    if ws != [] {
      KillsMatch(cfg, v, ws[..|ws| - 1], r);
      KillsOfWorker(cfg, ws[|ws| - 1], r);
    }
  }

  /** Whenever no reaper is in flight, the kills counted for a reason are exactly
      the exits counted as killed under that reason. */
  lemma {:induction false} KillsConserved(cfg: PoolConfig, start: Time, steps: seq<Step>)
    requires SoundPool(cfg) && Runs(cfg, PoolMachine.Start(start), steps)
    requires End(cfg, PoolMachine.Start(start), steps).wg == 0
    ensures var m := End(cfg, PoolMachine.Start(start), steps);
            && m.counters.kills[KillTtl] == m.counters.exits[Label(ResultKilled, "ttl")]
            && m.counters.kills[KillShutdown] == m.counters.exits[Label(ResultKilled, "shutdown")]
  {
    Accounted(cfg, start, steps);
    var m := End(cfg, PoolMachine.Start(start), steps);
    KillsMatch(cfg, ViewOf(m), m.workers, KillTtl);
    KillsMatch(cfg, ViewOf(m), m.workers, KillShutdown);
  }
}
