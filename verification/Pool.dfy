/** One pool of workers (internal/pool/pool.go): everything its mutex guards
    and the sections that run under it.  PoolMachine interleaves these sections
    with the reapers. */
module Pool {
  import opened Prelude
  import opened Config
  import opened LastLine
  import Text
  import B = Breaker

  // -------------------------------------------------------------------- exits

  /** How a process ended; `signal` is the name of the signal that ended it. */
  datatype Exit = Exit(code: int, signal: Option<string>, waitFailed: bool, result: string)

  datatype Reason = KillTtl | KillShutdown

  function ReasonName(r: Reason): string {
    match r case KillTtl => "ttl" case KillShutdown => "shutdown"
  }

  datatype Result = ResultOk | ResultFailure | ResultKilled

  function Classify(cfg: PoolConfig, exit: Exit, killed: bool): Result {
    if killed then ResultKilled
    else if exit.signal == None && !exit.waitFailed && exit.code in cfg.okExitCodes then ResultOk
    else ResultFailure
  }

  function ItoaSigned(n: int): string {
    if n < 0 then "-" + Text.Itoa(-n) else Text.Itoa(n)
  }

  /** The `code` label of an exit. */
  function ExitCode(exit: Exit, killed: Option<Reason>): string {
    match killed
    case Some(r) => ReasonName(r)
    case None => if exit.signal.Some? then exit.signal.value else ItoaSigned(exit.code)
  }

  // -------------------------------------------------------------------- state

  datatype State = State(
    running: int,
    breaker: B.State,
    lastHint: Option<Time>,
    lastExit: Option<Time>,
    lastExitCode: int,
    lastTasks: Option<nat>,
    stopping: bool)

  const FreshPool := State(0, B.Initial, None, None, 0, None, false)

  /** One call of the spawner: did it start a worker, and the clock right after. */
  datatype Spawn = Spawn(ok: bool, at: Time)

  /** How many workers a hint for `n` may start. */
  function Want(cfg: PoolConfig, s: State, n: int): int {
    Min(n, cfg.concurrency - s.running)
  }

  predicate Admits(s: State, now: Time) {
    !s.stopping && !B.IsOpen(s.breaker, now)
  }

  function OneStarted(s: State): State {
    s.(running := s.running + 1)
  }

  function SpawnFailed(cfg: PoolConfig, s: State, at: Time): State {
    s.(breaker := B.Failed(cfg.BreakerParams(), s.breaker, at))
  }

  /** Start up to `want` workers, stopping at the first spawn error. */
  function SpawnLoop(cfg: PoolConfig, s: State, want: int, spawns: seq<Spawn>): State
    requires want <= |spawns|
    decreases |spawns|
  {
    if want <= 0 then s
    else if spawns[0].ok then SpawnLoop(cfg, OneStarted(s), want - 1, spawns[1..])
    else SpawnFailed(cfg, s, spawns[0].at)
  }

  /** The state when a hint asks the breaker. */
  function Asked(cfg: PoolConfig, s: State, now: Time): State {
    s.(lastHint := Some(now), breaker := B.Decayed(cfg.BreakerParams(), s.breaker, now))
  }

  /** The environment answers every spawner call an admitted hint can make. */
  predicate Answered(cfg: PoolConfig, s: State, now: Time, n: int, spawns: seq<Spawn>) {
    Admits(s, now) ==> Min(n, cfg.concurrency - s.running) <= |spawns|
  }

  function Hinted(cfg: PoolConfig, s: State, now: Time, n: int, spawns: seq<Spawn>): State
    requires Answered(cfg, s, now, n, spawns)
  {
    if s.stopping then s
    else if B.IsOpen(s.breaker, now) then Asked(cfg, s, now)
    else SpawnLoop(cfg, Asked(cfg, s, now), Want(cfg, s, n), spawns)
  }

  /** `now` is read under the lock, `exitedAt` before it. */
  function ExitRecorded(cfg: PoolConfig, s: State, killed: Option<Reason>, exit: Exit, exitedAt: Time, now: Time): State {
    var p := cfg.BreakerParams();
    var tasks := ParseTasks(exit.result);
    s.(running := s.running - 1,
       lastExit := Some(exitedAt),
       lastExitCode := exit.code,
       lastTasks := if tasks.Some? then tasks else s.lastTasks,
       breaker := match Classify(cfg, exit, killed.Some?)
                  case ResultOk => B.Succeeded(p, s.breaker, exitedAt)
                  case ResultFailure => B.Failed(p, s.breaker, now)
                  case ResultKilled => s.breaker)
  }

  // ------------------------------------------------------------------- hinting

  /** Spawns go on until enough workers are started or one spawn fails: the
      number started is the number of successes before the first failure, which
      alone is reported to the breaker, at its own time. */
  predicate StartedUntilFailure(cfg: PoolConfig, s: State, t: State, want: int, spawns: seq<Spawn>)
    requires want <= |spawns|
  {
    var k := t.running - s.running;
    && 0 <= k <= Max(want, 0)
    && (forall i :: 0 <= i < k ==> spawns[i].ok)
    && (k < want ==> !spawns[k].ok)
    && t == s.(running := s.running + k,
               breaker := if k < want then B.Failed(cfg.BreakerParams(), s.breaker, spawns[k].at) else s.breaker)
  }

  lemma {:induction false} SpawnLoopBounds(cfg: PoolConfig, s: State, want: int, spawns: seq<Spawn>)
    requires want <= |spawns|
    ensures StartedUntilFailure(cfg, s, SpawnLoop(cfg, s, want, spawns), want, spawns)
    decreases |spawns|
  {
    if want > 0 && spawns[0].ok {
      SpawnLoopBounds(cfg, OneStarted(s), want - 1, spawns[1..]);
      var k := SpawnLoop(cfg, s, want, spawns).running - s.running;
      assert k < want ==> spawns[k] == spawns[1..][k - 1];
      assert forall i :: 0 < i < k ==> spawns[i] == spawns[1..][i - 1];
    }
  }

  /** What a hint promises: nothing once stopping or while the breaker is open,
      else exactly min(n, concurrency - running) workers unless a spawn fails,
      and then those before it; and never more than the cap. */
  lemma HintRule(cfg: PoolConfig, s: State, now: Time, n: int, spawns: seq<Spawn>)
    requires Answered(cfg, s, now, n, spawns)
    ensures var t, room := Hinted(cfg, s, now, n, spawns), cfg.concurrency - s.running;
            var started := t.running - s.running;
            && 0 <= started <= Max(n, 0) && started <= Max(room, 0)
            && (s.running <= cfg.concurrency ==> t.running <= cfg.concurrency)
            && (s.stopping ==> t == s)
            && (!s.stopping && now < s.breaker.openUntil ==> started == 0)
            && (!s.stopping && now >= s.breaker.openUntil ==>
                  && started <= |spawns| && (forall i :: 0 <= i < started ==> spawns[i].ok)
                  && (started < Min(n, room) ==> started < |spawns| && !spawns[started].ok)
                  && ((forall i :: 0 <= i < Min(n, room) ==> spawns[i].ok) ==> started == Max(0, Min(n, room))))
            && (!s.stopping ==>
                  var asked := B.Decayed(cfg.BreakerParams(), s.breaker, now);
                  t == s.(running := s.running + started,
                          lastHint := Some(now),
                          breaker := if now >= s.breaker.openUntil && started < Min(n, room)
                                     then B.Failed(cfg.BreakerParams(), asked, spawns[started].at) else asked))
  {
    if Admits(s, now) {
      SpawnLoopBounds(cfg, Asked(cfg, s, now), Want(cfg, s, n), spawns);
    }
  }

  /** What an exit means to the breaker: a kill by the pool is neutral; an ok exit
      can only bring the level to 0; any other exit, a death by an external signal
      included, is a failure at the time read under the lock, remembered last in
      the ring unless it trips. */
  lemma ExitRule(cfg: PoolConfig, s: State, killed: Option<Reason>, exit: Exit, exitedAt: Time, now: Time)
    ensures var t := ExitRecorded(cfg, s, killed, exit, exitedAt, now);
            && t.running == s.running - 1 && t.stopping == s.stopping && t.lastHint == s.lastHint
            && t.lastExit == Some(exitedAt) && t.lastExitCode == exit.code
            && (forall n: nat :: Counts(exit.result, n) ==> t.lastTasks == Some(n))
            && ((forall n: nat :: !Counts(exit.result, n)) ==> t.lastTasks == s.lastTasks)
            && (killed.Some? ==> t.breaker == s.breaker)
            && (killed.None? && exit.signal.None? && !exit.waitFailed && exit.code in cfg.okExitCodes ==>
                  && t.breaker == B.Succeeded(cfg.BreakerParams(), s.breaker, exitedAt)
                  && (t.breaker == s.breaker || t.breaker == s.breaker.(level := 0)))
            && (killed.None? && (exit.signal.Some? || exit.waitFailed || exit.code !in cfg.okExitCodes) ==>
                  && t.breaker == B.Failed(cfg.BreakerParams(), s.breaker, now)
                  && (cfg.BreakerParams().Enabled() ==>
                        || (t.breaker.failures == [] && t.breaker.level > 0 && !B.IsOpen(s.breaker, now))
                        || (t.breaker.failures != [] && t.breaker.failures[|t.breaker.failures| - 1] == now
                            && t.breaker.openUntil == s.breaker.openUntil)))
  {
    ParseTasksExactly(exit.result);
  }

  /** The two labels of an exit.  The result is killed exactly for a kill by the
      pool, and ok exactly for a listed exit code without signal or wait error.
      The code is the kill's reason, else the signal's name, else the exit code in
      decimal, which reads back. */
  lemma ExitLabels(cfg: PoolConfig, exit: Exit, killed: Option<Reason>)
    ensures var result := Classify(cfg, exit, killed.Some?);
            && (result == ResultKilled <==> killed.Some?)
            && (result == ResultOk <==>
                  killed.None? && exit.signal.None? && !exit.waitFailed && exit.code in cfg.okExitCodes)
    ensures var code := ExitCode(exit, killed);
            && (killed == Some(KillTtl) ==> code == "ttl")
            && (killed == Some(KillShutdown) ==> code == "shutdown")
            && (killed.None? && exit.signal.Some? ==> code == exit.signal.value)
            && (killed.None? && exit.signal.None? && -0x8000_0000 <= exit.code <= 0x7fff_ffff ==>
                  Text.Atoi(code) == Some(exit.code))
  {
    if exit.code >= 0 {
      Text.AtoiOfItoa(exit.code);
    } else {
      assert ("-" + Text.Itoa(-exit.code))[1..] == Text.Itoa(-exit.code);
    }
  }

  datatype Snapshot = Snapshot(
    running: int,
    concurrency: int,
    lastHint: Option<Time>,
    lastExit: Option<Time>,
    lastExitCode: int,
    lastTasks: Option<nat>,
    breakerOpenUntil: Option<int>,
    breakerLevel: nat)

  /** The fields under the mutex and the sections that hold it. */
  class Pool {
    const cfg: PoolConfig
    const breaker: B.Breaker
    var running: int
    var lastHint: Option<Time>
    var lastExit: Option<Time>
    var lastExitCode: int
    var lastTasks: Option<nat>
    var stopping: bool

    predicate Valid() {
      breaker.p == cfg.BreakerParams()
    }

    function Abs(): State
      reads this, breaker
    {
      State(running, breaker.Abs(), lastHint, lastExit, lastExitCode, lastTasks, stopping)
    }

    constructor (cfg: PoolConfig)
      ensures Valid() && this.cfg == cfg && fresh(breaker) && Abs() == FreshPool
    {
      this.cfg := cfg;
      breaker := new B.Breaker(cfg.BreakerParams());
      running, lastExitCode, stopping := 0, 0, false;
      lastHint, lastExit, lastTasks := None, None, None;
    }

    method SpawnLocked(spawn: Spawn) returns (ok: bool)
      requires Valid()
      modifies this`running, breaker
      ensures ok == spawn.ok
      ensures Abs() == if ok then OneStarted(old(Abs())) else SpawnFailed(cfg, old(Abs()), spawn.at)
    {
      if !spawn.ok {
        var _, _ := breaker.Failure(spawn.at);
        return false;
      }
      running := running + 1;
      return true;
    }

    method Hint(now: Time, n: int, spawns: seq<Spawn>) returns (spawned: nat)
      requires Valid() && Answered(cfg, Abs(), now, n, spawns)
      modifies this`running, this`lastHint, breaker
      ensures Abs() == Hinted(cfg, old(Abs()), now, n, spawns)
      ensures spawned == running - old(running)
      ensures old(stopping) || now < old(breaker.openUntil) ==> spawned == 0
      ensures !old(stopping) && now >= old(breaker.openUntil) ==>
                && spawned <= Max(0, Min(n, cfg.concurrency - old(running))) && spawned <= |spawns|
                && (forall i :: 0 <= i < spawned ==> spawns[i].ok)
                && (spawned < Min(n, cfg.concurrency - old(running)) ==> spawned < |spawns| && !spawns[spawned].ok)
    {
      HintRule(cfg, Abs(), now, n, spawns);
      if stopping {
        return 0;
      }
      lastHint := Some(now);
      var open := breaker.Open(now);
      if open {
        return 0;
      }
      var want := Min(n, cfg.concurrency - running);
      spawned := 0;
      while spawned < want
        invariant spawned == running - old(running)
        invariant 0 < spawned ==> spawned <= want
        invariant SpawnLoop(cfg, Abs(), want - spawned, if spawned <= |spawns| then spawns[spawned..] else [])
                  == Hinted(cfg, old(Abs()), now, n, spawns)
      {
        var ok := SpawnLocked(spawns[spawned]);
        if !ok {
          return spawned;
        }
        assert spawns[spawned..][1..] == spawns[spawned + 1..];
        spawned := spawned + 1;
      }
    }

    method RecordExit(killed: Option<Reason>, exit: Exit, exitedAt: Time, now: Time)
      returns (result: Result, left: int)
      requires Valid()
      modifies this, breaker
      ensures Abs() == ExitRecorded(cfg, old(Abs()), killed, exit, exitedAt, now)
      ensures result == Classify(cfg, exit, killed.Some?) && left == old(running) - 1
    {
      running := running - 1;
      lastExit := Some(exitedAt);
      lastExitCode := exit.code;
      var tasks := ParseTasks(exit.result);
      if tasks.Some? {
        lastTasks := tasks;
      }
      result := Classify(cfg, exit, killed.Some?);
      match result {
        case ResultOk => breaker.Ok(exitedAt);
        case ResultFailure => var _, _ := breaker.Failure(now);
        case ResultKilled =>
      }
      return result, running;
    }

    /** The locked part of Shutdown; `first` means it closed the stop channel. */
    method BeginShutdown() returns (first: bool)
      modifies this`stopping
      ensures Abs() == old(Abs()).(stopping := true)
      ensures first == !old(stopping)
    {
      first := !stopping;
      if !stopping {
        stopping := true;
      }
    }

    /** The level is copied before the breaker decays it, the rest after. */
    method Stats(now: Time) returns (s: Snapshot)
      requires Valid()
      modifies breaker
      ensures Abs() == old(Abs()).(breaker := B.Decayed(cfg.BreakerParams(), old(breaker.Abs()), now))
      ensures s == Snapshot(running, cfg.concurrency, lastHint, lastExit, lastExitCode, lastTasks,
                            if B.IsOpen(breaker.Abs(), now) then Some(breaker.openUntil) else None,
                            old(breaker.level))
    {
      var level := breaker.level;
      var open := breaker.Open(now);
      return Snapshot(running, cfg.concurrency, lastHint, lastExit, lastExitCode, lastTasks,
                      if open then Some(breaker.openUntil) else None, level);
    }
  }
}
