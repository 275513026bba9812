# doorbell-pm in Dafny

doorbell-pm starts worker processes when a hint arrives, never more than a
pool's concurrency, pauses a pool whose workers keep failing, and takes every
worker down on shutdown. This project models that behaviour and proves what it
promises over whole runs: every theorem is about all inputs, all schedules or
all reachable states.

`dafny verify dfyconfig.toml` checks everything.

## Layout

| file | part of the system |
|---|---|
| `Prelude.dfy`, `Arithmetic.dfy` | options, the integer clock, a few facts about products |
| `Text.dfy` | the pieces of `bytes`, `strings` and `strconv` in use |
| `Breaker.dfy` | the failure breaker, as a class proved against functions |
| `BreakerHistory.dfy` | whole breaker runs: churn, pauses, escalation, stale exits |
| `BreakerReference.dfy` | a breaker with full history and eager decay, refined by the real one |
| `DocumentedRules.dfy` | the documented breaker rules against the code: exact conditions and runs that differ |
| `SteadyState.dfy` | the documented steady states: when they hold and what they bound |
| `Config.dfy` | layered settings, resolution, validation |
| `LastLine.dfy` | the streaming last-line scanner and the count read from it |
| `Pool.dfy` | the lock sections of one pool, as a class proved against functions |
| `PoolMachine.dfy` | lock sections, reapers, poke ticker and environment as one step machine |
| `PoolTraces.dfy` | what a reaper does on every path, exactly once, and when |
| `PoolAccounting.dfy` | cap, wait group and counters in every reachable state |
| `PoolShutdown.dfy` | no start after shutdown, bounded work, no stuck reaper, done within a grace period |
| `PoolProgress.dfy` | what the machine's steps do and what is always possible: starts, kills, ends |
| `PoolChurn.dfy` | the breaker results carried over to every run of a pool |
| `FakeClock.dfy` | the discrete-event clock |
| `ClockTies.dfy` | the order in which that clock fires waiters due together |
| `Hints.dfy`, `RedisSource.dfy` | subscription pattern, messages, reconnect backoff |
| `Routing.dfy` | wiring, dispatcher and HTTP hints from a validated config |

## How it is modelled

- Time is an integer number of nanoseconds since Go's zero time, so an unset
  `openUntil` is 0.
- State the source changes in place is a class (`Breaker`, `Pool`, `LineWriter`,
  `FakeClock`) whose methods are proved equal to functions on the abstract
  state; the theorems are about those functions.
- A pool is a step machine. One step is one section under the mutex, or one step
  of a reaper between two points where it can be interrupted. The environment
  picks spawn outcomes, exits, signal delivery, the passing of time, every
  `select` and the order of everything. Failure times are read under the lock
  and are monotone. A reaper's own steps happen at times of its own, in program
  order, never ahead of the machine's clock but possibly behind it, since a lock
  section running meanwhile may have moved the clock on. Each reaper carries the
  timed trace of what it did to the outside world. The clock of the pool and the
  real time of `Terminate` are one clock here.
- `BreakerHistory.History` lists what a pool did to its breaker in lock order.
  `PoolChurn.PoolHistory` shows that every run of the machine produces a
  well-timed history that agrees with the pool's counters, so results about
  histories are results about pools.

Where code and documentation differ the code is followed, a witness shows the
difference and a theorem says exactly when the documented statement holds:

- An HTTP request is documented to be fully accepted or fully rejected. A request
  cancelled between two sends is answered 503 after some hints went out
  (`Routing.HalfForwarded`); a body in order is forwarded as a whole or not at
  all, whenever it is cancelled, exactly if it has one entry
  (`Routing.OneEntryIsAtomic`).
- The documented trip rule is that the last `threshold` failures fall inside the
  window. The code trips exactly when that is so, the breaker is closed and all
  of these failures came after the last trip (`DocumentedRules.TripRule`,
  `TripRuleDiffers`).
- "Three failed execs" per 5 minutes is documented as the steady state of a bad
  command under the defaults. A command hinted every six seconds fails fifty times
  in that time (`DocumentedRules.FiftyFailures`). The steady state is a trip at
  every `threshold`-th failure and at no other; a run whose failures all find the
  breaker closed, as spawn errors do, has it exactly when each full group of
  `threshold` failures spans at most the window
  (`SteadyState.GroupsTripExactly`). Then, once pauses have grown to
  `exit_cooldown_max`, any interval shorter than that holds at most `threshold`
  failures (`SteadyState.SteadyExecs`, `PoolChurn.PoolSteadyExecs`); under the
  defaults they have from the seventh trip in a row on
  (`SteadyState.BuiltInLongestPause`).
- "Four short processes" per 5 minutes is documented for workers that start and
  die. Workers held at a trip can die during its pause, and an interval can touch
  two pauses, so the bound is `threshold + 2 * (concurrency - 1)`, or
  `threshold + concurrency - 1` for an interval that starts while the breaker is
  closed (`PoolChurn.PoolSteadyProcesses`); both are attained
  (`SteadyState.TwoPausesTouched`). The condition is again that no group of
  `threshold` failures since the breaker closed is slower than the window
  (`SteadyState.TripsInTimeExactly`).
- How fast a command must fail to be paused at all is exact too: a run trips
  exactly when some `threshold` consecutive failures span at most the window
  (`DocumentedRules.TripsExactlyOnBursts`, `PoolChurn.PoolTripsExactlyOnBursts`).
- The documented cooldown formula has no rounding. The code applies it exactly
  when it is a whole number of nanoseconds, and less than one nanosecond less
  otherwise (`DocumentedRules.PauseIsRoundedDown`, `RoundingHappens`).
- A snapshot reports the level as it was before the same call decayed it. It is
  not the level in force exactly when the breaker has been closed for
  `exit_cooldown_max` and nobody has looked since (`DocumentedRules.SnapshotLevel`,
  `SnapshotLevelLags`).
- The fake clock is documented to fire waiters due together in insertion order.
  Two tickers with one period change places at every tick
  (`ClockTies.TickersSwap`, `SecondTickReversed`); the one inserted first goes
  first exactly when the other has never fired, or not since it did
  (`ClockTies.TiesFireByRecency`, `InsertionOrderKept`). Of two tickers that have
  both fired in the same advance the one with the shorter period goes first
  (`ClockTies.ShorterPeriodFirst`).

## Model

| member | source | states |
|---|---|---|
| PoolChurn.PoolChurnBound | internal/pool/breaker.go:48-65 | in every run of a pool with an enabled breaker, an interval no longer than the window holds fewer than threshold * (trips in it + 1) failures that find the breaker closed, all spawn errors among them, and fewer than threshold * (window / cooldown + 2) |
| PoolChurn.PoolFailureBound | README.md:190-219 | in every run of such a pool, an interval no longer than the window holds fewer than (threshold + concurrency - 1) * (trips in it + 1) failures of either kind, exits during a pause included, and fewer than (threshold + concurrency - 1) * (window / cooldown + 2) |
| PoolChurn.PoolSteadyExecs | README.md:216-217 | in every run of a pool whose failures are all spawn errors, every threshold-th one trips and no other does if and only if each full group of them spans at most the window; then an interval shorter than exit_cooldown_max in which every trip has that pause holds at most threshold failures |
| PoolChurn.PoolSteadyProcesses | README.md:218-219 | in every run in which no group of threshold failures since the breaker closed is slower than the window, such an interval holds at most threshold + 2 * (concurrency - 1) failures of either kind, and at most threshold + concurrency - 1 if it starts while the breaker is closed |
| PoolChurn.PoolTripsExactlyOnBursts | README.md:199-200 | a run of a pool with an enabled breaker has counted no trip if and only if no threshold consecutive failures of it span at most the window |
| PoolChurn.PoolHistory | internal/pool/pool.go:123-164 | every run drives the breaker through a history with monotone lock-time readings and spawner calls only while closed, matching the counters of spawner calls, spawn errors and trips |
| PoolChurn.PoolRespectsPauses | internal/pool/pool.go:131-144 | in every run, in lock order, every spawn attempt comes at or after the end of the pause of every trip before it, so none is made during a pause, its first instant included |
| PoolChurn.PoolEscalates | internal/pool/breaker.go:57-64 | in every run trips without a level reset between them are at least the sum of their capped geometric pauses apart |
| PoolChurn.StaleOkExitIsHarmless | internal/pool/pool.go:207-208 | an ok exit stamped before a failure or trip that took the lock first leaves the breaker untouched when it is recorded, in every interleaving |
| PoolChurn.PoolBreakerRefinesReference | internal/pool/breaker.go:10-14 | in every reachable state the pool's breaker answers open, trip and pause length like the reference breaker fed with the same failures and ok exits |
| PoolAccounting.CapHolds | internal/pool/pool.go:118-146 | in every reachable state running is the number of workers whose exit is not recorded, lies between 0 and concurrency, and the wait group counts the live reapers |
| PoolAccounting.SpawnsConserved | internal/pool/pool.go:158-163 | in every reachable state spawns equal exits counted plus running plus workers recorded but not yet counted |
| PoolAccounting.KillsConserved | internal/pool/pool.go:292-307 | whenever no reaper is in flight the ttl kills counted equal the exits counted under killed and ttl, and the shutdown kills those under killed and shutdown |
| PoolAccounting.Accounted | internal/pool/pool.go:201-222 | the slot, wait group, counter and trace invariants hold at the end of every run |
| PoolTraces.ExactlyOnce | internal/pool/pool.go:198-222 | in every run a worker's exit is read at most once, and once it is finished exactly once, recorded once and counted once; it is classified killed exactly when one kill was counted for it, and then makes no self-hint; otherwise it makes one exactly when it exited ok and its line is a positive count; every group kill follows a failed signal, or a delivered one and the full grace period after it |
| PoolTraces.SelfHintsByOutput | internal/pool/pool.go:219-221 | in every run a finished worker, whatever it printed in whatever writes, hinted the pool for k exactly if it exited ok and its output reports k > 0 tasks |
| PoolTraces.GroupKillWaits | internal/pool/pool.go:273-294 | in every run a worker that got its signal is group-killed no earlier than started + ttl + grace_shutdown for a ttl kill, or the start of shutdown + grace_shutdown; one that could not be signalled, no earlier than that cause |
| PoolTraces.EffectsByPhase | internal/proc/terminate.go:13-40 | phase by phase the effects a reaper has had, that a process group is killed only after a signal that failed or after a delivered one and the full grace period, and that this signal came after the kill had its cause |
| PoolTraces.StepKeepsLegal | internal/pool/pool.go:273-294 | every step of the machine keeps every reaper on a legal path through wait and Terminate, with its own times in program order and no kill before its cause |
| PoolShutdown.StoppingStep | internal/pool/pool.go:126-130 | once stopping the pool stays so, no step adds a worker or a spawn, and every reaper or process step uses up some of the remaining work |
| PoolShutdown.ShutdownWorkIsBounded | internal/pool/pool.go:323-344 | after shutdown began every schedule has at most twelve reaper and process steps per worker, and never a new worker |
| PoolShutdown.ReaperCanMove | internal/proc/terminate.go:20-40 | in a stopping pool no live reaper is ever stuck: it, or the process it waits for, can take a step now or after some time |
| PoolShutdown.ShutdownCanFinish | internal/pool/pool.go:332-343 | from every stopping state some schedule ends with every reaper and the poke ticker gone |
| PoolShutdown.ShutdownWithinGrace | internal/pool/pool.go:317-344 | from every reachable stopping state, with any number of workers, some schedule ends with every reaper and the poke ticker gone no later than grace_shutdown from now |
| PoolShutdown.PokerCanStop | internal/pool/poke.go:27-45 | the poke ticker can stop whenever it waits, stopping pool or not; a tick already taken in a stopping pool changes nothing first |
| PoolShutdown.EmptyGroupMeansDone | internal/pool/pool.go:332-340 | when the wait group is empty no slot is taken and every spawned worker's exit was consumed once and counted |
| PoolShutdown.MoreShutdownsAreSilent | internal/pool/pool.go:322-330 | once the pool is stopping, the further Shutdown calls of any schedule can be left out: the rest still runs and ends in the same state |
| PoolMachine.HintIsPoolHint | internal/pool/pool.go:138-145 | a hint step of the machine is the pool's Hint, starts one reaper per slot taken and leaves the other reapers alone |
| PoolProgress.StepIsLockSection | internal/pool/pool.go:98-146 | every step of the machine does to the pool's state what the pool's own lock section does, hints with the arriving, poke or reported count, and every other step nothing; the time of shutdown is the time of the first call |
| PoolProgress.HintArrivesStarts | internal/pool/pool.go:118-164 | a hint for n arriving at a pool that is neither stopping nor open can always happen and starts exactly the successes before the first failed spawn, at most min(n, concurrency - running), each with a fresh reaper and in the counters |
| PoolProgress.PokeStarts | internal/pool/poke.go:27-32 | the poke ticker ticks, does the same for poke_count and goes on ticking |
| PoolProgress.SelfHintStarts | internal/pool/pool.go:216-221 | the reaper of an ok exit that reported k > 0 tasks does the same for k |
| PoolProgress.CapReached | internal/pool/pool.go:138-145 | some run of every sound pool holds exactly concurrency workers, all running |
| PoolProgress.TtlKillsInTime | internal/pool/pool.go:166-174 | in every reachable state, stopping or not, a waiting worker with started + ttl <= now has a schedule that counts one ttl kill and has it gone, as killed, no later than now + grace_shutdown |
| PoolProgress.EndedWorkerIsReaped | internal/pool/pool.go:280-282 | in every reachable state a waiting worker that ends with any exit can be reaped at once, classified by that exit, without a kill |
| PoolProgress.GraceEndsEarly | internal/proc/terminate.go:20-22 | a worker that ends during its grace period can be reaped at once, as killed, without a group kill |
| PoolProgress.UndeliveredKillsAtOnce | internal/proc/terminate.go:17-19 | a worker whose signal cannot be delivered can lose its group and be gone at once |
| Pool.HintRule | internal/pool/pool.go:118-122 | a hint starts at most n and at most concurrency - running workers, none while stopping or open, else the successes before the first failed spawn, all min(n, concurrency - running) if none fails; it fixes the whole new state and never breaks the cap |
| Pool.SpawnLoopBounds | internal/pool/pool.go:138-145 | the spawn loop starts exactly the successes before the first failed spawn, at most what is wanted, and reports exactly that failure, at its own time, to the breaker |
| Pool.ExitRule | internal/pool/pool.go:226-244 | a kill is neutral to the breaker, a listed exit code without signal or wait error is an ok at the exit time, any other exit a failure at the lock time; slot, exit and reported count are remembered |
| Pool.ExitLabels | internal/pool/pool.go:296-307 | killed exactly for a kill, ok exactly for a listed code without signal or wait error; the code label is ttl or shutdown for a kill, else the signal name, else the exit code in decimal, which reads back |
| Pool.Pool.Hint | internal/pool/pool.go:123-146 | the loop over spawns computes the specified hint and returns how many workers it started: 0 while stopping or open, else the successes before the first failed spawn up to min(n, concurrency - running) |
| Pool.Pool.SpawnLocked | internal/pool/pool.go:150-164 | one more running worker, or one breaker failure at the time read under the lock |
| Pool.Pool.RecordExit | internal/pool/pool.go:226-244 | releases the slot, remembers exit and count, and feeds the breaker by classification |
| Pool.Pool.BeginShutdown | internal/pool/pool.go:324-330 | sets stopping, says whether it was the first to do so, changes nothing else |
| Pool.Pool.Stats | internal/pool/pool.go:99-116 | a snapshot whose level is the one before decay and whose open-until is set only while open |
| Pool.Pool.constructor | internal/pool/pool.go:53-69 | a pool without workers, hints or failures |
| Breaker.Breaker.Failure | internal/pool/breaker.go:48-65 | the new ring, pause and level, whether it tripped and for how long |
| Breaker.Breaker.Ok | internal/pool/breaker.go:69-80 | the loop resets the level exactly when closed and no ring entry lies in the window, or when it has decayed |
| Breaker.Breaker.Open | internal/pool/breaker.go:41-44 | answers from openUntil alone and only decays the level |
| Breaker.Breaker.Decay | internal/pool/breaker.go:83-87 | the level is gone once closed for maxCooldown |
| Breaker.Breaker.NextCooldown | internal/pool/breaker.go:89-95 | the product with a power equals the pause grown once per level, capped and truncated; between cooldown and maxCooldown when validated |
| Breaker.CooldownBounds | internal/pool/breaker.go:89-95 | pauses lie between cooldown and maxCooldown and never shrink with the level |
| BreakerHistory.ChurnBound | internal/pool/breaker.go:48-65 | the churn bound for every well-timed history: failures that find the breaker closed, spawn errors among them, number fewer than threshold * (trips + 1) in any interval no longer than the window |
| BreakerHistory.FailureBound | internal/pool/breaker.go:48-65 | if at most cap failures hit each pause, failures of either kind number fewer than (threshold + cap) * (trips + 1) in such an interval |
| BreakerHistory.TripsAreRare | internal/pool/breaker.go:57-64 | trips are at least cooldown apart, so n trips need (n - 1) * cooldown of time |
| BreakerHistory.RingShape | internal/pool/breaker.go:53-56 | the ring is sorted, no longer than the threshold and not ahead of the clock |
| BreakerHistory.TripLogShape | internal/pool/breaker.go:57-64 | every pause is the one its level calls for, a level is 0 or one above the previous trip's, and the next trip waits the pause out |
| BreakerHistory.EscalationSpacing | internal/pool/breaker.go:57-64 | between trips i and j without a reset lies at least the sum of the capped geometric pauses |
| BreakerHistory.OpenUntilNeverDecreases | internal/pool/breaker.go:60-62 | the end of the pause never moves back |
| BreakerHistory.NoAttemptInsidePause | internal/pool/breaker.go:41-44 | operation by operation, an attempt comes at or after the end of every pause applied before it, and a trip no earlier than any attempt before it |
| BreakerHistory.StaleOkKeepsLevel | internal/pool/breaker.go:67-87 | an ok exit no later than the latest recorded failure changes nothing, whatever came in between |
| BreakerReference.RingRefinesHistory | internal/pool/breaker.go:48-95 | the bounded ring with lazy decay simulates full history with eager decay in every history |
| BreakerReference.SameAnswers | internal/pool/breaker.go:41-95 | both breakers give the same open, trip, pause and level answers at every later time |
| BreakerReference.ObservationIsHarmless | internal/pool/breaker.go:41-44 | polls inserted anywhere into a well-timed run, with monotone readings, leave it well-timed and change no verdict on any failure and no later answer |
| DocumentedRules.TripRule | README.md:199-200 | a failure trips if and only if the last threshold failures, itself included, fall inside the window, the breaker is closed and these failures all came after the last trip |
| DocumentedRules.TripRuleDiffers | internal/pool/breaker.go:57-63 | a run after which the documented rule holds without a trip, once for each extra condition |
| DocumentedRules.TripsExactlyOnBursts | internal/pool/breaker.go:53-59 | a well-timed run of an enabled breaker has no trip if and only if no threshold consecutive failure times span at most the window |
| DocumentedRules.DisabledExactly | README.md:210-212 | under validated settings no run trips if and only if the threshold or the cooldown is 0 |
| DocumentedRules.SlowRetriesNeverPaused | README.md:214-219 | under the built-in settings a command that fails every six seconds, at the spawn or after it, is never paused however long it goes on |
| DocumentedRules.FiftyFailures | README.md:216-219 | fifty failures of either kind in five minutes under the built-in settings, without a trip |
| SteadyState.GroupsTripExactly | README.md:216-217 | in a well-timed run of an enabled breaker whose failures all find it closed, every threshold-th failure trips and no other does if and only if each full group of threshold consecutive failure times spans at most the window |
| SteadyState.SteadyExecs | README.md:216-217 | in such a run of a validated breaker an interval shorter than maxCooldown in which every trip has pause maxCooldown holds at most threshold failures |
| SteadyState.TripsInTimeExactly | internal/pool/breaker.go:53-64 | in any run of an enabled breaker it always trips by the threshold-th failure since it closed if and only if at each such failure the last threshold failures span at most the window |
| SteadyState.SteadyProcesses | README.md:218-219 | if moreover at most cap failures hit each pause, the interval holds at most threshold + 2 * cap failures, and threshold + cap if no earlier pause reaches into it |
| SteadyState.TwoPausesTouched | internal/pool/breaker.go:57-64 | a run that attains both of these bounds |
| SteadyState.BuiltInLongestPause | internal/config/resolve.go:42-46 | under the built-in settings a pause is the longest one if and only if its level is at least 6 |
| DocumentedRules.PauseIsRoundedDown | README.md:202-205 | the pause is the documented one if and only if that is a whole number of nanoseconds, else less by less than one |
| DocumentedRules.RoundingHappens | internal/pool/breaker.go:89-95 | a validated setting whose second pause is rounded |
| DocumentedRules.SnapshotLevel | internal/pool/pool.go:110-114 | in every run the reported level differs from the eager reference breaker's if and only if it is positive and maxCooldown has gone by since the last trip's pause ended |
| DocumentedRules.SnapshotLevelLags | internal/pool/pool.go:110-114 | a run of the built-in breaker and a time at which they differ |
| LastLine.ChunkIndependence | internal/proc/lastline.go:13-72 | however a stream is cut into writes, Line returns the fold over its lines (too long clears, blank keeps, else the trimmed line) and at most 64 bytes are held |
| LastLine.ParseTasksExactly | internal/pool/result.go:9-21 | a line is the count n if and only if it has at most 64 bytes and is digits of value n up to 2^63 - 1, with or without a plus sign, or zero with a minus sign; else there is no count |
| LastLine.OutputCount | internal/proc/lastline.go:9-72 | for every output and every chunking the count is n if and only if the last line that is not blank or too long, space cut off, is such a numeral; a blank output or a too long line there has none |
| LastLine.CountExamples | internal/pool/result.go:9-21 | 120, +7 and -0 are counts, the empty line, done, -5 and a bare sign are not |
| LastLine.TaskCountRoundTrip | internal/pool/result.go:9-21 | a count up to 2^63 - 1 printed, padded or not, as the last non-blank line of any output in any chunks is read back exactly |
| LastLine.PlainCountRoundTrip | internal/pool/result.go:9-21 | every count up to 2^63 - 1 printed alone as the last non-blank line of any output in any chunks is read back exactly, without a condition on its length |
| LastLine.WriteKeepsPlace | internal/proc/lastline.go:24-61 | one write in the middle of any stream moves the scanner to a position from which the rest yields the same line |
| LastLine.LineWriter.Write | internal/proc/lastline.go:24-39 | the loop over newlines computes the specified scanner, within the memory bound |
| LastLine.LineWriter.Take | internal/proc/lastline.go:41-51 | a partial line is held up to the limit, then dropped and marked |
| LastLine.LineWriter.EndLine | internal/proc/lastline.go:53-61 | an oversized line clears, a blank one keeps, another replaces the kept line |
| LastLine.LineWriter.Line | internal/proc/lastline.go:65-72 | a partial line counts as a line |
| Text.AtoiOfItoa | internal/pool/result.go:16-19 | printing and reading back is the identity up to the largest int and fails beyond it |
| Text.AtoiExactly | internal/pool/result.go:16-19 | a string reads as the natural number n if and only if it is a numeral of n in range |
| FakeClock.AdvanceComposes | internal/clock/fake.go:56-77 | Advance(a) then Advance(b) equals Advance(a + b) for b >= 0: same firings, waiters in the same order, channels and time |
| FakeClock.PlayOrdered | internal/clock/fake.go:9-10 | firings come in deadline order and none after the target |
| FakeClock.PlayComplete | internal/clock/fake.go:59-77 | there are exactly as many firings as were due, whoever stays armed is due later, and the slice is left sorted |
| FakeClock.PlayPerWaiter | internal/clock/fake.go:60-75 | among any other waiters each fires exactly when it would alone and ends where it would alone |
| FakeClock.TickerGrid | internal/clock/fake.go:60-73 | a ticker fires at exactly the times at + k * period up to the target and is left at the least such time after it |
| FakeClock.AdvancePerWaiter | internal/clock/fake.go:65-75 | a free slot takes the first deadline, a full one drops ticks, a fired timer is disarmed, a ticker moves by whole periods just past the new time |
| FakeClock.RescheduledDue | internal/clock/fake.go:70-74 | each firing takes exactly one off the number of firings due |
| FakeClock.SortStable | internal/clock/fake.go:94-101 | waiters due at the same time keep their slice order |
| FakeClock.FakeClock.Advance | internal/clock/fake.go:56-77 | the loop terminates and reaches the specified clock |
| FakeClock.FakeClock.FireHead | internal/clock/fake.go:65-74 | the head fires at its own deadline and is rescheduled or removed |
| FakeClock.FakeClock.Earliest | internal/clock/fake.go:95-101 | picks a waiter due no later than any other and, among those due together, the first in slice order; nothing if none is armed; leaves the slice stably sorted |
| FakeClock.FakeClock.Add | internal/clock/fake.go:86-92 | one more armed waiter with a fresh, empty channel |
| FakeClock.FakeClock.NewTicker | internal/clock/fake.go:46-53 | refuses a non-positive interval, else arms a ticker one interval away |
| FakeClock.FakeClock.Remove | internal/clock/fake.go:104-112 | takes out that waiter and says whether it was armed |
| FakeClock.FakeClock.Stop | internal/clock/fake.go:121-138 | afterwards nobody with that id is armed |
| FakeClock.FakeClock.Pending | internal/clock/fake.go:80-84 | the number of different timers and tickers armed |
| ClockTies.TiesFireByRecency | internal/clock/fake.go:94-101 | after any sequence of arming, disarming and advancing, of two waiters that an Advance fires at the same time the first is the one that fired more recently; among those that never fired insertion decides |
| ClockTies.InsertionOrderKept | internal/clock/fake.go:94 | of two waiters fired at the same time the one inserted first goes first if and only if the other never fired before, or not since it did |
| ClockTies.ShorterPeriodFirst | internal/clock/fake.go:70-71 | in every life of a clock, of two tickers that fire at the same time and have both fired earlier in the same Advance the first has a period no longer than the second; with equal periods they fired in the opposite order one period before |
| ClockTies.TickersSwap | internal/clock/fake.go:70-71 | two tickers due together with one period fire in the opposite order at the next tick |
| ClockTies.SecondTickReversed | internal/clock/fake.go:94-101 | a fresh clock with two tickers whose second tick reverses insertion order |
| ClockTies.LifeInTieOrder | internal/clock/fake.go:86-112 | every arming, disarming and advance keeps waiters due together ordered by how recently they fired |
| RedisSource.EscapeIsExact | internal/redisin/source.go:176-188 | under the glob rules the pattern of any prefix matches a channel if and only if the channel starts with it |
| RedisSource.Pattern | internal/redisin/source.go:178-188 | the loop builds a pattern with exactly that meaning |
| RedisSource.PublishedHintArrives | internal/redisin/source.go:131-159 | a count published in decimal on prefix + pool is delivered and becomes exactly that hint |
| RedisSource.DeliveredKeepsPrefix | internal/redisin/source.go:131-143 | a delivered message is dropped exactly when its payload, space cut off, is no numeral in range, and a forwarded one names the pool of its channel |
| RedisSource.ForwardedExactly | internal/redisin/source.go:129-160 | any message becomes the hint for n workers of a pool if and only if it came on prefix + pool and its payload is a numeral of n in range, and is dropped otherwise |
| RedisSource.Backoff | internal/redisin/source.go:67-86 | the first wait after a confirmed session is reconnect_min, each later one twice the one before up to reconnect_max, so the j-th is min(reconnect_min * 2^j, reconnect_max) |
| Config.ResolvedPools | internal/config/resolve.go:139-186 | every pool once, in name order, every setting of it from the layer it should come from |
| Config.ResolveLayers | internal/config/resolve.go:137-172 | setting by setting a resolved pool has its block's value, else the shared default, else the built-in value; the block's variables over the shared ones; its own channel or its name; signal 0 as SIGTERM |
| Config.LayersDecide | internal/config/resolve.go:137-172 | no other values satisfy this |
| Config.BeforeIsLexicographic | internal/config/resolve.go:180-180 | name order is decided at the first differing byte, a prefix coming first |
| Config.DefaultsAreShorthand | internal/config/resolve.go:137-172 | writing the shared defaults into every pool block, under what the block sets, and dropping them leaves the values every pool must have unchanged |
| Config.ShorthandResolves | internal/config/resolve.go:137-172 | and it resolves to the same pools |
| Config.MinimalPoolIsSound | internal/config/resolve.go:38-53 | a block with only a command validates on the built-in values, listens on its name and has the built-in breaker, which is on |
| Config.PoolErrorsExact | internal/config/resolve.go:364-435 | in whatever order the durations are walked, a pool has no error exactly when it obeys every rule, among them all the breaker results assume |
| Config.WalkOnlyReorders | internal/config/resolve.go:421-426 | the order in which the map of durations is walked changes the order of the errors and not which errors there are |
| Config.KeysNameTheRule | internal/config/resolve.go:364-435 | an error is reported under a key exactly when the rule of that key is broken |
| Config.ErrorsExplained | internal/config/resolve.go:334-345 | an error is among those collected exactly when some pool breaks that rule, or asks for a channel that the named owner was the last to ask for before it |
| Config.CollectErrors | internal/config/resolve.go:334-345 | the loop over the channel table collects the errors of each pool in order, a channel asked for again being blamed on the later pool and naming its latest owner |
| Config.ValidatePools | internal/config/resolve.go:334-349 | no error exactly when every pool is sound, channels are distinct and a pool is enabled; the errors are those of the pools in order, each with its own walk of the durations, followed by one more exactly when no pool is enabled |
| Config.EnabledPools | internal/config/resolve.go:351-359 | the number of enabled pools |
| Routing.NewPools | internal/app/app.go:97-108 | one pool per enabled config, under its name |
| Routing.EnabledChannels | internal/app/app.go:85-93 | the channels of the enabled pools |
| Routing.NewDispatcher | internal/app/dispatcher.go:48-64 | one route per claimed channel, that of its last claimant, with a target exactly if that pool was built |
| Routing.DispatchAgrees | internal/app/dispatcher.go:68-83 | in a valid config every channel leads to its own pool, live exactly when enabled, and no other channel leads anywhere |
| Routing.ParseHints | internal/httpapi/hint.go:52-83 | the loop over the body computes the parse that ParseRule describes |
| Routing.ParseRule | internal/httpapi/hint.go:51-83 | accepted exactly when non-empty with every entry in order, then one hint per entry; refused with 400 for bad JSON or an empty body, else for the first offending entry: 400 if its count is negative, 404 if its key is unknown |
| Routing.HandleHint | internal/httpapi/hint.go:20-37 | the sending loop computes the reply that ReplyRule describes |
| Routing.ReplyRule | internal/httpapi/hint.go:17-37 | 202 exactly when the body is in order and every send got through, and then every entry was forwarded; 503 when it is in order and the entries before the first failed send were forwarded; else 400 or 404 and nothing was |
| Routing.OneEntryIsAtomic | internal/httpapi/hint.go:17-37 | a body in order is forwarded as a whole or not at all under every cancellation if and only if it has exactly one entry |
| Routing.HalfForwarded | internal/httpapi/hint.go:28-34 | a valid request of two entries cancelled after the first: 503 with one hint forwarded |
| Routing.Wire | internal/app/app.go:49-82 | in an app from a valid config every hint on an accepted channel reaches the enabled pool listening there |
| Routing.HintOverHTTP | internal/httpapi/hint.go:17-37 | end to end: a 202 means every entry reached exactly one enabled pool, the one its key names, with its count; under any status whatever was forwarded did, and no pool was hinted twice |

## Left out

- Breaker.Breaker.NextCooldown: computes with exact reals; floating-point rounding, infinities and the 64-bit range of durations are not modelled.
- LastLine.ChunkIndependence: white space is ASCII and a char is one byte; Unicode spaces and invalid UTF-8 are not modelled.
- RedisSource.EscapeIsExact: redis's own matcher is not part of the repository; `Matches` is written from its documented glob rules.
- FakeClock.FakeClock.Advance: waiters are told apart by numbers instead of pointers, and receivers draining a channel during an advance are not modelled.
- `wait`, `reap`, `Terminate` and `pokeLoop` are phases of the step machine instead of methods, because what matters about them is how they interleave.
- Real processes, signals and process groups (`internal/proc/exec.go`): only the contract of a process is kept; that a killed group ends is an environment step.
- The redis session loop, client options, HTTP server and listener, JSON and YAML decoding, environment expansion, command line.
- Metrics export, logging and health JSON: of the metrics only the pool's counters are kept.
- The validation rules of the log, http, redis and metrics blocks, apart from the backoff bounds that `RedisSource.Backoff` assumes.
- Fairness: that a select with several ready cases does not starve one; `ShutdownCanFinish` and `ShutdownWorkIsBounded` say what holds without it.
