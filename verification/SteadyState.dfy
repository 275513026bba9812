/** The documented steady state of a bad command: when every `threshold`-th
    failure trips, and how many failures an interval can then hold. */
module SteadyState {
  import opened Prelude
  import opened Arithmetic
  import opened BreakerHistory
  import opened DocumentedRules
  import B = Breaker

  // ------------------------------------------------- when each group trips

  /** No failure of the run finds the breaker open. */
  predicate AllClosed(p: B.Params, h: History) {
    h.Start? || (AllClosed(p, h.past) && !FailsOpen(p, h))
  }

  /** Every `threshold`-th failure trips and no other does. */
  predicate TripsInGroups(p: B.Params, h: History)
    requires p.threshold > 0
  {
    h.Start? ||
    (&& TripsInGroups(p, h.past)
     && (h.op.Failure? ==> (TripsNow(p, h) <==> |FailureTimes(h)| % p.threshold == 0)))
  }

  /** Each full group of `threshold` consecutive failures fits into a window. */
  predicate GroupsFit(p: B.Params, times: seq<Time>)
    requires p.threshold > 0
  {
    forall i :: 0 <= i <= |times| - p.threshold && i % p.threshold == 0 ==> BurstAt(p, times, i)
  }

  lemma {:induction false} GroupsFitExtended(p: B.Params, times: seq<Time>, t: Time)
    requires p.threshold > 0
    ensures var all := times + [t];
            GroupsFit(p, all) <==>
              GroupsFit(p, times) && (|all| % p.threshold == 0 ==> BurstAt(p, all, |all| - p.threshold))
  {
    var all := times + [t];
    var last := |all| - p.threshold;
    assert forall i :: 0 <= i < last ==> (BurstAt(p, all, i) <==> BurstAt(p, times, i));
    if last >= 0 {
      SameRemainder(|all|, p.threshold);
    } else {
      RemainderIs(|all|, p.threshold, 0, |all|);
    }
  }

  lemma SameRemainder(n: nat, th: nat)
    requires 0 < th <= n
    ensures (n - th) % th == n % th
  {
    var q, r := n / th, n % th;
    assert q > 0;
    TimesSucc(th, q - 1);
    RemainderIs(n - th, th, q - 1, r);
  }

  /** One more element in groups of `th`. */
  lemma NextInGroup(n: nat, th: nat)
    requires th > 0
    ensures if n % th + 1 == th then (n + 1) % th == 0 else (n + 1) % th == n % th + 1
  {
    var q, r := n / th, n % th;
    assert n + 1 == th * q + (r + 1);
    if r + 1 == th {
      TimesSucc(th, q);
      RemainderIs(n + 1, th, q + 1, 0);
    } else {
      RemainderIs(n + 1, th, q, r + 1);
    }
  }

  lemma RemainderIs(n: nat, th: nat, q: nat, r: nat)
    requires th > 0 && n == th * q + r && r < th
    ensures n % th == r
  {
    QuotientIs(n, th, q);
  }

  /** The exact condition, for runs whose failures all find the breaker closed:
      every `threshold`-th failure trips and no other does if and only if each
      full group of failures spans at most the window. */
  lemma {:induction false} GroupsTripExactly(p: B.Params, h: History)
    requires p.Enabled() && WellTimed(p, h) && AllClosed(p, h)
    ensures TripsInGroups(p, h) <==> GroupsFit(p, FailureTimes(h))
    ensures TripsInGroups(p, h) ==> SinceTrip(p, h) == |FailureTimes(h)| % p.threshold
  {
    if h.Then? {
      var past, times := h.past, FailureTimes(h.past);
      GroupsTripExactly(p, past);
      if h.op.Failure? {
        GroupsFitExtended(p, times, h.op.t);
        NextInGroup(|times|, p.threshold);
        TripRule(p, past, h.op.t);
      }
    }
  }

  // --------------------------------------------------- what a run can then hold

  /** Failures since the last trip that found the breaker closed. */
  function ClosedSince(p: B.Params, h: History): nat {
    if h.Start? || TripsNow(p, h) then 0
    else ClosedSince(p, h.past) + Indicator(h.op.Failure? && !FailsOpen(p, h))
  }

  /** Wherever the breaker is closed it trips by the `threshold`-th failure. */
  predicate TripsInTime(p: B.Params, h: History) {
    ClosedSince(p, h) < p.threshold && (h.Then? ==> TripsInTime(p, h.past))
  }

  /** The `threshold`-th failure since the breaker closed comes more than a window
      after the first of them. */
  predicate SlowGroup(p: B.Params, h: History)
    requires h.Then?
  {
    && h.op.Failure? && !FailsOpen(p, h)
    && ClosedSince(p, h.past) + 1 == p.threshold
    && !DocumentedTrip(p, FailureTimes(h.past), h.op.t)
  }

  predicate NoSlowGroup(p: B.Params, h: History) {
    h.Start? || (NoSlowGroup(p, h.past) && !SlowGroup(p, h))
  }

  lemma {:induction false} ClosedAmongSince(p: B.Params, h: History)
    ensures ClosedSince(p, h) <= SinceTrip(p, h)
  {
    if h.Then? {
      ClosedAmongSince(p, h.past);
    }
  }

  /** The exact condition for any run: it trips in time if and only if no group of
      `threshold` failures since the breaker closed is slow. */
  lemma {:induction false} TripsInTimeExactly(p: B.Params, h: History)
    requires p.Enabled()
    ensures TripsInTime(p, h) <==> NoSlowGroup(p, h)
  {
    if h.Then? {
      TripsInTimeExactly(p, h.past);
      if h.op.Failure? {
        ClosedAmongSince(p, h.past);
        TripRule(p, h.past, h.op.t);
      }
    }
  }

  lemma {:induction false} GroupsTripInTime(p: B.Params, h: History)
    requires p.Enabled() && AllClosed(p, h) && TripsInGroups(p, h)
    ensures TripsInTime(p, h) && ClosedSince(p, h) == |FailureTimes(h)| % p.threshold
  {
    if h.Then? {
      GroupsTripInTime(p, h.past);
      if h.op.Failure? {
        NextInGroup(|FailureTimes(h.past)|, p.threshold);
      }
    }
  }

  /** Every trip in the interval has reached the longest pause. */
  predicate LongestPauses(p: B.Params, h: History, lo: Time, hi: Time) {
    forall k :: 0 <= k < |TripLog(p, h)| && lo <= TripLog(p, h)[k].at <= hi ==>
      TripLog(p, h)[k].pause == p.maxCooldown
  }

  /** No pause of an earlier trip reaches beyond the start of the interval. */
  predicate StartsClosed(p: B.Params, h: History, lo: Time) {
    forall k :: 0 <= k < |TripLog(p, h)| && TripLog(p, h)[k].at < lo ==>
      TripLog(p, h)[k].at + TripLog(p, h)[k].pause <= lo
  }

  predicate SteadyBound(th: int, closed: nat, since: nat, trips: nat, inTime: bool, stillOpen: bool) {
    && trips <= 1
    && closed <= th
    && (trips == 0 ==> closed < th && (inTime ==> closed <= since))
    && (trips == 1 ==> stillOpen)
  }

  /** A failure inside the interval: during the pause of a trip in it, or one more
      of a group, or the trip of that group. */
  lemma {:induction false} SteadyFailure(p: B.Params, h: History, lo: Time, hi: Time)
    requires p.Enabled() && h.Then? && h.op.Failure? && WellTimed(p, h) && TripsInTime(p, h)
    requires lo <= h.op.t <= hi < lo + p.maxCooldown && LongestPauses(p, h, lo, hi)
    requires SteadyBound(p.threshold, ClosedIn(p, h.past, lo, hi), ClosedSince(p, h.past), TripsIn(p, h.past, lo, hi),
                         Clock(h.past) <= hi, Run(p, h.past).openUntil > hi)
    ensures SteadyBound(p.threshold, ClosedIn(p, h, lo, hi), ClosedSince(p, h), TripsIn(p, h, lo, hi),
                        Clock(h) <= hi, Run(p, h).openUntil > hi)
  {
    PauseStep(p, h);
    var closed, trips := ClosedIn(p, h.past, lo, hi), TripsIn(p, h.past, lo, hi);
    if FailsOpen(p, h) {
      assert ClosedIn(p, h, lo, hi) == closed && TripsIn(p, h, lo, hi) == trips;
    } else {
      assert trips == 0 && ClosedIn(p, h, lo, hi) == closed + 1;
      if TripsNow(p, h) {
        assert TripsIn(p, h, lo, hi) == 1;
      } else {
        assert TripsIn(p, h, lo, hi) == 0 && ClosedSince(p, h) == ClosedSince(p, h.past) + 1;
      }
    }
  }

  /** Nothing but a failure inside the interval is counted. */
  lemma {:induction false} SteadyOther(p: B.Params, h: History, lo: Time, hi: Time)
    requires p.Validated() && h.Then? && WellTimed(p, h) && !(h.op.Failure? && lo <= h.op.t <= hi)
    ensures ClosedIn(p, h, lo, hi) == ClosedIn(p, h.past, lo, hi) && TripsIn(p, h, lo, hi) == TripsIn(p, h.past, lo, hi)
    ensures Run(p, h.past).openUntil <= Run(p, h).openUntil
    ensures Clock(h.past) <= Clock(h)
    ensures h.op.Failure? || ClosedSince(p, h) == ClosedSince(p, h.past)
  {
    OpenUntilNeverDecreases(p, h);
  }

  lemma {:induction false} SteadyInvariant(p: B.Params, h: History, lo: Time, hi: Time)
    requires p.Enabled() && p.Validated() && WellTimed(p, h) && TripsInTime(p, h)
    requires lo <= hi < lo + p.maxCooldown && LongestPauses(p, h, lo, hi)
    ensures SteadyBound(p.threshold, ClosedIn(p, h, lo, hi), ClosedSince(p, h), TripsIn(p, h, lo, hi),
                        Clock(h) <= hi, Run(p, h).openUntil > hi)
  {
    if h.Then? {
      PauseStep(p, h);
      SteadyInvariant(p, h.past, lo, hi);
      if h.op.Failure? && lo <= h.op.t <= hi {
        SteadyFailure(p, h, lo, hi);
      } else {
        SteadyOther(p, h, lo, hi);
        if h.op.Failure? && h.op.t < lo {
          NothingAhead(p, h, lo, hi);
        }
      }
    }
  }

  lemma {:induction false} NoneOpen(p: B.Params, h: History, lo: Time, hi: Time)
    requires AllClosed(p, h)
    ensures OpenIn(p, h, lo, hi) == 0
  {
    if h.Then? {
      NoneOpen(p, h.past, lo, hi);
    }
  }

  /** The documented steady state, "three failed execs per five minutes": once the
      pauses have grown to `maxCooldown`, a command all of whose failures find the
      breaker closed and come in groups that fit the window fails at most
      `threshold` times in any interval shorter than `maxCooldown`. */
  lemma {:induction false} SteadyExecs(p: B.Params, h: History, lo: Time, hi: Time)
    requires p.Enabled() && p.Validated() && WellTimed(p, h)
    requires AllClosed(p, h) && GroupsFit(p, FailureTimes(h))
    requires lo <= hi < lo + p.maxCooldown && LongestPauses(p, h, lo, hi)
    ensures FailuresIn(h, lo, hi) <= p.threshold
  {
    GroupsTripExactly(p, h);
    GroupsTripInTime(p, h);
    SteadyInvariant(p, h, lo, hi);
    FailuresSplit(p, h, lo, hi);
    NoneOpen(p, h, lo, hi);
  }

  // ------------------------------------------------------ starts, then dies

  predicate OpenAfterTrips(cap: int, open: nat, trips: nat, since: nat, inTime: bool, openAtStart: bool) {
    && (trips == 0 ==> open == 0 && (inTime ==> !openAtStart))
    && (trips > 0 ==> open <= Allowance(cap, trips) && (inTime ==> open <= Allowance(cap, trips - 1) + since))
  }

  predicate OpenCounted(p: B.Params, h: History, cap: int, lo: Time, hi: Time) {
    OpenAfterTrips(cap, OpenIn(p, h, lo, hi), TripsIn(p, h, lo, hi), OpenSince(p, h), Clock(h) <= hi,
                   Run(p, h).openUntil > lo)
  }

  lemma {:induction false} OpenTrip(p: B.Params, h: History, cap: int, lo: Time, hi: Time)
    requires h.Then? && TripsNow(p, h) && WellTimed(p, h) && OpenCapped(p, h.past, cap) && OpenCounted(p, h.past, cap, lo, hi)
    requires lo <= h.op.t
    ensures OpenCounted(p, h, cap, lo, hi)
  {
    OpenStep(p, h, lo, hi);
  }

  lemma {:induction false} OpenNoTrip(p: B.Params, h: History, cap: int, lo: Time, hi: Time)
    requires h.Then? && !TripsNow(p, h) && WellTimed(p, h) && OpenCapped(p, h, cap) && OpenCounted(p, h.past, cap, lo, hi)
    requires h.op.Failure? ==> lo <= h.op.t
    ensures OpenCounted(p, h, cap, lo, hi)
  {
    PauseStep(p, h);
    OpenStep(p, h, lo, hi);
  }

  /** If no pause reaches into the interval, only its own trips can be followed by
      failures that find the breaker open. */
  lemma {:induction false} OpenAfterStart(p: B.Params, h: History, cap: int, lo: Time, hi: Time)
    requires WellTimed(p, h) && OpenCapped(p, h, cap) && lo <= hi && StartsClosed(p, h, lo)
    ensures OpenCounted(p, h, cap, lo, hi)
  {
    if h.Then? {
      PauseStep(p, h);
      OpenAfterStart(p, h.past, cap, lo, hi);
      if h.op.Failure? && h.op.t < lo {
        NothingAhead(p, h, lo, hi);
      } else if TripsNow(p, h) {
        OpenTrip(p, h, cap, lo, hi);
      } else {
        OpenNoTrip(p, h, cap, lo, hi);
      }
    }
  }

  /** The same for workers that start and die, if at most `cap` of them can die
      during one pause.  The interval may touch two pauses, the end of one and the
      start of the next; if it starts while the breaker is closed, only one. */
  lemma {:induction false} SteadyProcesses(p: B.Params, h: History, cap: nat, lo: Time, hi: Time)
    requires p.Enabled() && p.Validated() && WellTimed(p, h) && OpenCapped(p, h, cap)
    requires NoSlowGroup(p, h)
    requires lo <= hi < lo + p.maxCooldown && LongestPauses(p, h, lo, hi)
    ensures FailuresIn(h, lo, hi) <= p.threshold + 2 * cap
    ensures StartsClosed(p, h, lo) ==> FailuresIn(h, lo, hi) <= p.threshold + cap
  {
    TripsInTimeExactly(p, h);
    SteadyInvariant(p, h, lo, hi);
    FailuresSplit(p, h, lo, hi);
    OpenInvariant(p, h, cap, lo, hi);
    assert Allowance(cap, 0) == 0 && Allowance(cap, 1) == cap;
    if StartsClosed(p, h, lo) {
      OpenAfterStart(p, h, cap, lo, hi);
    }
  }

  /** Each failure trips for 10. */
  const Tens := B.Params(1, 1, 10, 10, 1.0)

  const One := Fail(Start, 1)
  const Two := Fail(One, 10)
  const Three := Fail(Two, 11)
  const Four := Fail(Three, 12)

  lemma {:induction false} TensPause(level: nat)
    ensures B.CooldownAt(Tens, level) == 10
  {
    B.CooldownBounds(Tens, level);
  }

  lemma {:induction false} FirstPause()
    ensures Run(Tens, One) == B.State([], 11, 1) && TripLog(Tens, One) == [Trip(1, 0, 10)]
    ensures Run(Tens, Two) == B.State([10], 11, 1) && TripLog(Tens, Two) == [Trip(1, 0, 10)]
    ensures TripsNow(Tens, One) && FailsOpen(Tens, Two)
  {
    TensPause(0);
    assert B.Trips(Tens, B.Initial, 1);
  }

  lemma {:induction false} SecondPause()
    ensures Run(Tens, Three) == B.State([], 21, 2) && TripLog(Tens, Three) == [Trip(1, 0, 10), Trip(11, 1, 10)]
    ensures Run(Tens, Four) == B.State([12], 21, 2) && TripLog(Tens, Four) == [Trip(1, 0, 10), Trip(11, 1, 10)]
    ensures TripsNow(Tens, Three) && FailsOpen(Tens, Four)
  {
    FirstPause();
    TensPause(1);
    assert B.Trips(Tens, Run(Tens, Two), 11);
  }

  /** Both bounds are attained.  Of two workers one trips at 1 and the other dies at
      the end of that pause, at 10; of the next two one trips at 11 and the other
      dies at 12. */
  lemma {:induction false} TwoPausesTouched()
    ensures Tens.Enabled() && Tens.Validated() && WellTimed(Tens, Four) && OpenCapped(Tens, Four, 1)
    ensures NoSlowGroup(Tens, Four) && LongestPauses(Tens, Four, 10, 12) && StartsClosed(Tens, Four, 11)
    ensures FailuresIn(Four, 10, 12) == Tens.threshold + 2 && FailuresIn(Four, 11, 12) == Tens.threshold + 1
  {
    FirstPause();
    SecondPause();
    assert WellTimed(Tens, One) && WellTimed(Tens, Two) && WellTimed(Tens, Three);
    assert OpenSince(Tens, One) == 0 && OpenSince(Tens, Two) == 1 && OpenSince(Tens, Three) == 0 && OpenSince(Tens, Four) == 1;
    assert OpenCapped(Tens, One, 1) && OpenCapped(Tens, Two, 1) && OpenCapped(Tens, Three, 1);
    NoSlowOnes();
    assert FailuresIn(One, 10, 12) == 0 && FailuresIn(Two, 10, 12) == 1 && FailuresIn(Three, 10, 12) == 2;
    assert FailuresIn(One, 11, 12) == 0 && FailuresIn(Two, 11, 12) == 0 && FailuresIn(Three, 11, 12) == 1;
  }

  lemma {:induction false} NoSlowOnes()
    ensures NoSlowGroup(Tens, Four)
  {
    FirstPause();
    SecondPause();
    assert TripsInTime(Tens, Start) && TripsInTime(Tens, One) && TripsInTime(Tens, Two) && TripsInTime(Tens, Three);
    TripsInTimeExactly(Tens, Four);
  }

  // ---------------------------------------------------------------- the defaults

  /** The built-in breaker reaches its longest pause, five minutes, at the seventh
      trip in a row and not before. */
  lemma {:induction false} BuiltInLongestPause(level: nat)
    ensures B.CooldownAt(BuiltIn, level) == BuiltIn.maxCooldown <==> level >= 6
  {
    if level > 6 {
      BuiltInLongestPause(level - 1);
      B.CooldownBounds(BuiltIn, level - 1);
      B.CooldownBounds(BuiltIn, level);
    } else {
      assert B.Geometric(BuiltIn, 1) == 2.0 * B.Geometric(BuiltIn, 0);
      assert B.Geometric(BuiltIn, 2) == 2.0 * B.Geometric(BuiltIn, 1);
      assert B.Geometric(BuiltIn, 3) == 2.0 * B.Geometric(BuiltIn, 2);
      assert B.Geometric(BuiltIn, 4) == 2.0 * B.Geometric(BuiltIn, 3);
      assert B.Geometric(BuiltIn, 5) == 2.0 * B.Geometric(BuiltIn, 4);
      assert B.Geometric(BuiltIn, 6) == 2.0 * B.Geometric(BuiltIn, 5);
    }
  }
}
