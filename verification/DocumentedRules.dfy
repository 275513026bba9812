/** Where the documented breaker rules and the code part ways: for each
    difference the exact condition, for all inputs, and a run that shows it. */
module DocumentedRules {
  import opened Prelude
  import opened BreakerHistory
  import B = Breaker
  import Config
  import R = BreakerReference

  /** Every failure time of the run, oldest first. */
  function FailureTimes(h: History): seq<Time> {
    if h.Start? then []
    else if h.op.Failure? then FailureTimes(h.past) + [h.op.t]
    else FailureTimes(h.past)
  }

  /** How many failures the run has seen since its last trip. */
  function SinceTrip(p: B.Params, h: History): nat {
    if h.Start? || TripsNow(p, h) then 0 else SinceTrip(p, h.past) + Indicator(h.op.Failure?)
  }

  function Suffix(s: seq<Time>, n: nat): seq<Time>
    requires n <= |s|
  {
    s[|s| - n..]
  }

  lemma {:induction false} RingStep(p: B.Params, h: History)
    requires p.Enabled() && h.Then?
    ensures Run(p, h).failures ==
              if TripsNow(p, h) then []
              else if h.op.Failure? then B.Pushed(p, Run(p, h.past).failures, h.op.t)
              else Run(p, h.past).failures
  {
    if h.op.Failure? {
      FailedRing(p, Run(p, h.past), h.op.t);
    }
  }

  /** The ring is the end of the list of all failures, as far back as the last
      trip and the threshold allow. */
  predicate EndOf(ring: seq<Time>, all: seq<Time>, since: nat, threshold: int) {
    since <= |all| && ring == R.LastOf(Suffix(all, since), threshold)
  }

  lemma {:induction false} PushedEnd(p: B.Params, ring: seq<Time>, all: seq<Time>, since: nat, t: Time)
    requires p.Enabled() && EndOf(ring, all, since, p.threshold)
    ensures EndOf(B.Pushed(p, ring, t), all + [t], since + 1, p.threshold)
  {
    R.PushedIsLast(p, Suffix(all, since), t);
    assert Suffix(all, since) + [t] == Suffix(all + [t], since + 1);
  }

  lemma {:induction false} RingIsSuffix(p: B.Params, h: History)
    requires p.Enabled()
    ensures EndOf(Run(p, h).failures, FailureTimes(h), SinceTrip(p, h), p.threshold)
  {
    if h.Then? {
      var ring, all, since := Run(p, h.past).failures, FailureTimes(h.past), SinceTrip(p, h.past);
      RingIsSuffix(p, h.past);
      RingStep(p, h);
      if h.op.Failure? {
        PushedEnd(p, ring, all, since, h.op.t);
      }
    }
  }

  // -------------------------------------------------------------- the trip rule

  /** The documented rule: the last `threshold` failures, this one included, all
      fall inside the window. */
  predicate DocumentedTrip(p: B.Params, times: seq<Time>, t: Time) {
    var all := times + [t];
    |all| >= p.threshold > 0 && t - all[|all| - p.threshold] <= p.window
  }

  lemma {:induction false} TripRuleOnRing(p: B.Params, s: B.State, times: seq<Time>, since: nat, t: Time)
    requires p.Enabled() && EndOf(s.failures, times, since, p.threshold)
    ensures B.Trips(p, s, t) <==> DocumentedTrip(p, times, t) && !B.IsOpen(s, t) && since + 1 >= p.threshold
  {
    PushedEnd(p, s.failures, times, since, t);
  }

  /** The code trips exactly when the documented rule says so, the breaker is
      closed, and those failures all came after the last trip. */
  lemma {:induction false} TripRule(p: B.Params, h: History, t: Time)
    requires p.Enabled()
    ensures B.Trips(p, Run(p, h), t) <==>
              && DocumentedTrip(p, FailureTimes(h), t)
              && !B.IsOpen(Run(p, h), t) && SinceTrip(p, h) + 1 >= p.threshold
  {
    RingIsSuffix(p, h);
    TripRuleOnRing(p, Run(p, h), FailureTimes(h), SinceTrip(p, h), t);
  }

  const BuiltIn := Config.BuiltInBreaker

  function Fail(h: History, t: Time): History {
    Then(h, Failure(t, false))
  }

  /** Three failures that trip the built-in breaker. */
  const Tripped := Fail(Fail(Fail(Start, 1), 2), 3)

  lemma {:induction false} TrippedState()
    ensures WellTimed(BuiltIn, Tripped)
    ensures Run(BuiltIn, Tripped) == B.State([], 5_000_000_003, 1) && SinceTrip(BuiltIn, Tripped) == 0
    ensures FailureTimes(Tripped) == [1, 2, 3]
  {
    var one, two := Fail(Start, 1), Fail(Fail(Start, 1), 2);
    assert Run(BuiltIn, Start) == B.State([], 0, 0);
    assert Run(BuiltIn, one) == B.State([1], 0, 0);
    assert Run(BuiltIn, two) == B.State([1, 2], 0, 0);
    QuickFailure(Start, 1);
    QuickFailure(one, 2);
    QuickFailure(two, 3);
    assert B.CooldownAt(BuiltIn, 0) == 5_000_000_000;
    assert FailureTimes(one) == [1] && FailureTimes(two) == [1, 2];
  }

  lemma {:induction false} QuickFailure(h: History, t: Time)
    requires WellTimed(BuiltIn, h) && Clock(h) <= t
    ensures WellTimed(BuiltIn, Fail(h, t)) && Clock(Fail(h, t)) == t
  {
  }

  /** Both extra conditions matter: right after a trip the rule is met but the
      breaker is open; right after the pause it is met by failures from before
      the trip.  Neither trips. */
  lemma TripRuleDiffers()
    ensures DocumentedTrip(BuiltIn, FailureTimes(Tripped), 4) && !B.Trips(BuiltIn, Run(BuiltIn, Tripped), 4)
    ensures DocumentedTrip(BuiltIn, FailureTimes(Tripped), 5_000_000_003) && !B.Trips(BuiltIn, Run(BuiltIn, Tripped), 5_000_000_003)
    ensures !B.IsOpen(Run(BuiltIn, Tripped), 5_000_000_003)
  {
    TrippedState();
    assert FailureTimes(Tripped) + [4] == [1, 2, 3, 4];
    assert FailureTimes(Tripped) + [5_000_000_003] == [1, 2, 3, 5_000_000_003];
  }

  // ------------------------------------------------------------- never tripping

  /** `threshold` consecutive failures starting with number i fit into a window. */
  predicate BurstAt(p: B.Params, times: seq<Time>, i: int)
    requires p.threshold > 0
  {
    0 <= i && i + p.threshold <= |times| && times[i + p.threshold - 1] - times[i] <= p.window
  }

  predicate HasBurst(p: B.Params, times: seq<Time>)
    requires p.threshold > 0
  {
    exists i :: 0 <= i < |times| && BurstAt(p, times, i)
  }

  lemma BurstInExtension(p: B.Params, times: seq<Time>, t: Time)
    requires p.threshold > 0
    ensures HasBurst(p, times + [t]) <==>
              HasBurst(p, times) || BurstAt(p, times + [t], |times| + 1 - p.threshold)
  {
    var all := times + [t];
    if HasBurst(p, times) {
      var i :| 0 <= i < |times| && BurstAt(p, times, i);
      assert BurstAt(p, all, i);
    }
    if HasBurst(p, all) && !BurstAt(p, all, |all| - p.threshold) {
      var i :| 0 <= i < |all| && BurstAt(p, all, i);
      assert BurstAt(p, times, i);
    }
  }

  lemma {:induction false} BurstAtEnd(p: B.Params, times: seq<Time>, t: Time)
    requires p.threshold > 0
    ensures DocumentedTrip(p, times, t) <==> BurstAt(p, times + [t], |times| + 1 - p.threshold)
  {
  }

  lemma {:induction false} ClosedBeforeTrips(p: B.Params, h: History, t: Time)
    requires WellTimed(p, h) && TripLog(p, h) == []
    ensures !B.IsOpen(Run(p, h), t)
  {
    TripLogShape(p, h);
  }

  /** The first trip of a run needs nothing but a burst. */
  lemma {:induction false} FirstTrip(p: B.Params, h: History, t: Time)
    requires p.Enabled() && WellTimed(p, h) && TripLog(p, h) == [] && SinceTrip(p, h) == |FailureTimes(h)|
    ensures B.Trips(p, Run(p, h), t) <==> BurstAt(p, FailureTimes(h) + [t], |FailureTimes(h)| + 1 - p.threshold)
  {
    ClosedBeforeTrips(p, h, t);
    BurstAtEnd(p, FailureTimes(h), t);
    TripRule(p, h, t);
  }

  /** A run trips exactly when some `threshold` consecutive failures of it span
      at most the window.  So whether a failing command is ever paused depends on
      how fast it is retried, and on nothing else. */
  lemma {:induction false} TripsExactlyOnBursts(p: B.Params, h: History)
    requires p.Enabled() && WellTimed(p, h)
    ensures TripLog(p, h) == [] <==> !HasBurst(p, FailureTimes(h))
    ensures TripLog(p, h) == [] ==> SinceTrip(p, h) == |FailureTimes(h)|
  {
    if h.Then? {
      TripsExactlyOnBursts(p, h.past);
      PauseStep(p, h);
      if h.op.Failure? {
        BurstInExtension(p, FailureTimes(h.past), h.op.t);
        if TripLog(p, h.past) == [] {
          FirstTrip(p, h.past, h.op.t);
        }
      }
    }
  }

  // ----------------------------------------------------------------- on or off

  lemma {:induction false} DisabledNeverTrips(p: B.Params, h: History)
    requires p.threshold <= 0 || p.cooldown <= 0
    ensures TripLog(p, h) == [] && Run(p, h).openUntil == 0
  {
    if h.Then? {
      DisabledNeverTrips(p, h.past);
    }
  }

  /** `n` failed exits at one moment. */
  function Burst(n: nat): History {
    if n == 0 then Start else Fail(Burst(n - 1), 1)
  }

  lemma {:induction false} BurstTimes(p: B.Params, n: nat)
    ensures WellTimed(p, Burst(n)) && Clock(Burst(n)) <= 1
    ensures |FailureTimes(Burst(n))| == n && forall i :: 0 <= i < n ==> FailureTimes(Burst(n))[i] == 1
  {
    if n > 0 {
      BurstTimes(p, n - 1);
    }
  }

  lemma {:induction false} EnabledCanTrip(p: B.Params)
    requires p.Validated() && p.threshold > 0 && p.cooldown > 0
    ensures WellTimed(p, Burst(p.threshold)) && TripLog(p, Burst(p.threshold)) != []
  {
    BurstTimes(p, p.threshold);
    assert BurstAt(p, FailureTimes(Burst(p.threshold)), 0);
    TripsExactlyOnBursts(p, Burst(p.threshold));
  }

  /** A threshold or a cooldown of 0 disables the breaker, and nothing else does:
      otherwise some run trips it. */
  lemma DisabledExactly(p: B.Params)
    requires p.Validated()
    ensures (forall h :: WellTimed(p, h) ==> TripLog(p, h) == []) <==> p.threshold == 0 || p.cooldown == 0
  {
    if p.threshold == 0 || p.cooldown == 0 {
      forall h
        ensures TripLog(p, h) == []
      {
        DisabledNeverTrips(p, h);
      }
    } else {
      EnabledCanTrip(p);
    }
  }

  // ------------------------------------------------------------- slow failures

  /** A bad command hinted every six seconds: each time it cannot be started, or
      starts and dies. */
  const Retry: nat := 6_000_000_000

  function SlowRetries(n: nat, spawn: bool): History {
    if n == 0 then Start else Then(SlowRetries(n - 1, spawn), Failure(Retry * n, spawn))
  }

  lemma {:induction false} SlowTimes(n: nat, spawn: bool)
    ensures |FailureTimes(SlowRetries(n, spawn))| == n && Clock(SlowRetries(n, spawn)) == Retry * n
    ensures forall i :: 0 <= i < n ==> FailureTimes(SlowRetries(n, spawn))[i] == Retry * (i + 1)
    ensures !HasBurst(BuiltIn, FailureTimes(SlowRetries(n, spawn)))
  {
    if n > 0 {
      SlowTimes(n - 1, spawn);
    }
  }

  lemma {:induction false} SlowFailures(n: nat, spawn: bool, hi: Time)
    requires Retry * n <= hi
    ensures FailuresIn(SlowRetries(n, spawn), 0, hi) == n
    ensures ErrorsIn(SlowRetries(n, spawn), 0, hi) == if spawn then n else 0
  {
    if n > 0 {
      SlowFailures(n - 1, spawn, hi);
    }
  }

  /** Under the built-in settings that command fails as often as it is hinted and
      is never paused. */
  lemma {:induction false} SlowRetriesNeverPaused(n: nat, spawn: bool)
    ensures WellTimed(BuiltIn, SlowRetries(n, spawn)) && TripLog(BuiltIn, SlowRetries(n, spawn)) == []
    ensures FailuresIn(SlowRetries(n, spawn), 0, Retry * n) == n
  {
    SlowTimes(n, spawn);
    SlowFailures(n, spawn, Retry * n);
    if n > 0 {
      SlowRetriesNeverPaused(n - 1, spawn);
      SlowTimes(n - 1, spawn);
      TripLogShape(BuiltIn, SlowRetries(n - 1, spawn));
    }
    TripsExactlyOnBursts(BuiltIn, SlowRetries(n, spawn));
  }

  /** The documented steady states, three failed execs or four short processes in
      five minutes, are not bounds: here are fifty of either. */
  lemma FiftyFailures(spawn: bool)
    ensures var h := SlowRetries(50, spawn);
            && WellTimed(BuiltIn, h) && TripLog(BuiltIn, h) == []
            && FailuresIn(h, 0, BuiltIn.maxCooldown) == 50
            && (spawn ==> ErrorsIn(h, 0, BuiltIn.maxCooldown) == 50)
  {
    SlowRetriesNeverPaused(50, spawn);
    assert Retry * 50 == BuiltIn.maxCooldown;
    SlowFailures(50, spawn, BuiltIn.maxCooldown);
  }

  // ---------------------------------------------------------- rounding, snapshot

  /** The documented pause, without rounding. */
  function DocumentedPause(p: B.Params, level: nat): real {
    if B.Geometric(p, level) > p.maxCooldown as real then p.maxCooldown as real else B.Geometric(p, level)
  }

  /** The code applies the documented pause exactly when that is a whole number
      of nanoseconds; otherwise less, by less than one. */
  lemma {:induction false} PauseIsRoundedDown(p: B.Params, level: nat)
    requires p.Validated()
    ensures B.CooldownAt(p, level) as real == DocumentedPause(p, level) <==>
              DocumentedPause(p, level).Floor as real == DocumentedPause(p, level)
    ensures DocumentedPause(p, level) - 1.0 < B.CooldownAt(p, level) as real <= DocumentedPause(p, level)
  {
    B.GeometricGrows(p, level);
  }

  lemma RoundingHappens()
    ensures var p := B.Params(1, 1, 1, 10, 1.5);
            p.Validated() && B.CooldownAt(p, 1) == 1 && DocumentedPause(p, 1) == 1.5
  {
    var p := B.Params(1, 1, 1, 10, 1.5);
    assert B.Geometric(p, 0) == 1.0;
    assert B.Geometric(p, 1) == 1.5 * B.Geometric(p, 0);
  }

  /** A snapshot reports the stored level.  In every run that is the level in
      force, as the eager reference breaker has it, except when it is positive and
      `maxCooldown` has gone by since the pause of the last trip ended. */
  lemma {:induction false} SnapshotLevel(p: B.Params, h: History, t: Time)
    requires WellTimed(p, h) && Clock(h) <= t
    ensures var stored, log := Run(p, h).level, TripLog(p, h);
            stored != R.LevelAt(p, R.ReferenceRun(p, h), t) <==>
              && stored > 0 && log != []
              && log[|log| - 1].at + log[|log| - 1].pause + p.maxCooldown <= t
  {
    R.SameAnswers(p, h, t);
    TripLogShape(p, h);
  }

  lemma SnapshotLevelLags()
    ensures WellTimed(BuiltIn, Tripped) && Clock(Tripped) <= 305_000_000_003
    ensures Run(BuiltIn, Tripped).level == 1
    ensures R.LevelAt(BuiltIn, R.ReferenceRun(BuiltIn, Tripped), 305_000_000_003) == 0
  {
    TrippedState();
    R.SameAnswers(BuiltIn, Tripped, 305_000_000_003);
  }
}
