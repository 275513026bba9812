/** Whole runs of the breaker.  A history lists what the pool did to its
    breaker in lock order; the results below hold for every well-timed
    history, and PoolChurn shows that every run of a pool produces one. */
module BreakerHistory {
  import opened Prelude
  import opened Arithmetic
  import B = Breaker

  datatype Op =
    | Poll(t: Time)                 // a snapshot or a hint asks whether the breaker is open
    | Attempt(t: Time)              // a hint calls the spawner
    | Failure(t: Time, spawn: bool) // a spawn error or a failed exit
    | Ok(t: Time)                   // an ok exit, stamped before the lock was taken

  datatype History = Start | Then(past: History, op: Op)

  function Step(p: B.Params, s: B.State, op: Op): B.State {
    match op
    case Poll(t) => B.Decayed(p, s, t)
    case Attempt(_) => s
    case Failure(t, _) => B.Failed(p, s, t)
    case Ok(t) => B.Succeeded(p, s, t)
  }

  function Run(p: B.Params, h: History): B.State {
    if h.Start? then B.Initial else Step(p, Run(p, h.past), h.op)
  }

  /** The latest clock reading taken under the lock. */
  function Clock(h: History): Time {
    if h.Start? then 0 else if h.op.Ok? then Clock(h.past) else h.op.t
  }

  /** Readings taken under the lock never go back, and the pool calls the
      spawner only while the breaker is closed.  Ok stamps are unconstrained. */
  predicate WellTimed(p: B.Params, h: History) {
    h.Start? ||
    (&& WellTimed(p, h.past)
     && (!h.op.Ok? ==> Clock(h.past) <= h.op.t)
     && (h.op.Attempt? || (h.op.Failure? && h.op.spawn) ==> !B.IsOpen(Run(p, h.past), h.op.t)))
  }

  predicate Sorted(s: seq<Time>) {
    forall i, j :: 0 <= i < j < |s| ==> s[i] <= s[j]
  }

  /** The ring is sorted, bounded by the threshold and never ahead of the clock. */
  lemma {:induction false} RingShape(p: B.Params, h: History)
    requires WellTimed(p, h)
    ensures var ring := Run(p, h).failures;
            && Sorted(ring)
            && |ring| <= Max(p.threshold, 0)
            && (forall i :: 0 <= i < |ring| ==> ring[i] <= Clock(h))
  {
    if h.Then? {
      RingShape(p, h.past);
    }
  }

  // ------------------------------------------------------------------- churn

  predicate TripsNow(p: B.Params, h: History)
    requires h.Then?
  {
    h.op.Failure? && B.Trips(p, Run(p, h.past), h.op.t)
  }

  /** A failure that finds the breaker open: recorded, never a trip. */
  predicate FailsOpen(p: B.Params, h: History)
    requires h.Then?
  {
    h.op.Failure? && B.IsOpen(Run(p, h.past), h.op.t)
  }

  // Counts in the closed interval [lo, hi]: spawn errors, failures of either
  // kind, those that find the breaker closed, those that find it open, trips.

  function ErrorsIn(h: History, lo: Time, hi: Time): nat {
    if h.Start? then 0
    else ErrorsIn(h.past, lo, hi) + Indicator(h.op.Failure? && h.op.spawn && lo <= h.op.t <= hi)
  }

  function FailuresIn(h: History, lo: Time, hi: Time): nat {
    if h.Start? then 0
    else FailuresIn(h.past, lo, hi) + Indicator(h.op.Failure? && lo <= h.op.t <= hi)
  }

  function ClosedIn(p: B.Params, h: History, lo: Time, hi: Time): nat {
    if h.Start? then 0
    else ClosedIn(p, h.past, lo, hi) + Indicator(h.op.Failure? && !FailsOpen(p, h) && lo <= h.op.t <= hi)
  }

  function OpenIn(p: B.Params, h: History, lo: Time, hi: Time): nat {
    if h.Start? then 0
    else OpenIn(p, h.past, lo, hi) + Indicator(FailsOpen(p, h) && lo <= h.op.t <= hi)
  }

  function TripsIn(p: B.Params, h: History, lo: Time, hi: Time): nat {
    if h.Start? then 0
    else TripsIn(p, h.past, lo, hi) + Indicator(TripsNow(p, h) && lo <= h.op.t <= hi)
  }

  /** Every failure finds the breaker open or closed; a spawn error, closed. */
  lemma {:induction false} FailuresSplit(p: B.Params, h: History, lo: Time, hi: Time)
    requires WellTimed(p, h)
    ensures FailuresIn(h, lo, hi) == ClosedIn(p, h, lo, hi) + OpenIn(p, h, lo, hi)
    ensures ErrorsIn(h, lo, hi) <= ClosedIn(p, h, lo, hi)
  {
    if h.Then? {
      FailuresSplit(p, h.past, lo, hi);
    }
  }

  function CountFrom(s: seq<Time>, lo: Time): (n: nat)
    ensures n <= |s|
    ensures |s| > 0 && s[0] < lo ==> n < |s|
  {
    if s == [] then 0 else Indicator(s[0] >= lo) + CountFrom(s[1..], lo)
  }

  lemma {:induction false} CountFromSnoc(s: seq<Time>, t: Time, lo: Time)
    ensures CountFrom(s + [t], lo) == CountFrom(s, lo) + Indicator(t >= lo)
  {
    if s != [] {
      assert (s + [t])[1..] == s[1..] + [t];
      CountFromSnoc(s[1..], t, lo);
    }
  }

  /** What one more failure time does to the count of recent entries. */
  lemma {:induction false} PushedCount(p: B.Params, ring: seq<Time>, t: Time, lo: Time)
    requires p.Enabled() && |ring| <= p.threshold && t >= lo
    ensures var next := B.Pushed(p, ring, t);
            && CountFrom(ring, lo) <= CountFrom(next, lo) <= CountFrom(ring, lo) + 1
            && (|ring| < p.threshold || ring[0] < lo ==> CountFrom(next, lo) == CountFrom(ring, lo) + 1)
  {
    CountFromSnoc(ring, t, lo);
    if |ring| == p.threshold {
      assert B.Pushed(p, ring, t) == (ring + [t])[1..];
    }
  }

  /** Nothing has happened at or after a time ahead of the clock. */
  lemma {:induction false} NothingAhead(p: B.Params, h: History, lo: Time, hi: Time)
    requires WellTimed(p, h) && Clock(h) < lo
    ensures ClosedIn(p, h, lo, hi) == 0 && OpenIn(p, h, lo, hi) == 0 && TripsIn(p, h, lo, hi) == 0
  {
    if h.Then? {
      NothingAhead(p, h.past, lo, hi);
    }
  }

  /** What `trips` trips allow in failures, `each` per trip. */
  function Allowance(each: int, trips: nat): int {
    if trips == 0 then 0 else Allowance(each, trips - 1) + each
  }

  lemma {:induction false} AllowanceIsProduct(each: int, trips: nat)
    ensures Allowance(each, trips) == each * trips
  {
    if trips > 0 {
      AllowanceIsProduct(each, trips - 1);
      TimesSucc(each, trips - 1);
    }
  }

  predicate ChurnBounded(p: B.Params, h: History, lo: Time, hi: Time) {
    var closed, trips := ClosedIn(p, h, lo, hi), TripsIn(p, h, lo, hi);
    && closed <= Allowance(p.threshold, trips) + p.threshold - 1
    && (Clock(h) <= hi ==> closed <= Allowance(p.threshold, trips) + CountFrom(Run(p, h).failures, lo))
  }

  /** A failure inside the interval that does not trip is one more recent ring
      entry if the breaker is closed, and leaves room for another. */
  lemma {:induction false} RingAfterFailure(p: B.Params, ring: seq<Time>, t: Time, lo: Time, hi: Time)
    requires p.Enabled() && Sorted(ring) && |ring| <= p.threshold && lo <= t <= hi <= lo + p.window
    ensures var next := B.Pushed(p, ring, t);
            && CountFrom(ring, lo) <= CountFrom(next, lo)
            && (!(|next| >= p.threshold && t - next[0] <= p.window) ==>
                  CountFrom(next, lo) == CountFrom(ring, lo) + 1 <= p.threshold - 1)
  {
    PushedCount(p, ring, t, lo);
  }

  lemma {:induction false} FailedRing(p: B.Params, s: B.State, t: Time)
    requires p.Enabled()
    ensures B.Failed(p, s, t).failures == if B.Trips(p, s, t) then [] else B.Pushed(p, s.failures, t)
  {
  }

  /** The step of the churn argument for a failure inside the interval. */
  lemma {:induction false} ChurnFailure(p: B.Params, h: History, lo: Time, hi: Time)
    requires p.Enabled() && h.Then? && h.op.Failure? && WellTimed(p, h)
    requires lo <= h.op.t <= hi <= lo + p.window
    requires ChurnBounded(p, h.past, lo, hi)
    ensures ChurnBounded(p, h, lo, hi)
  {
    var s, t := Run(p, h.past), h.op.t;
    RingShape(p, h.past);
    FailedRing(p, s, t);
    RingAfterFailure(p, s.failures, t, lo, hi);
    var ring := Run(p, h).failures;
    var n := TripsIn(p, h.past, lo, hi);
    if TripsNow(p, h) {
      assert TripsIn(p, h, lo, hi) == n + 1 && ring == [];
    } else {
      assert TripsIn(p, h, lo, hi) == n && ring == B.Pushed(p, s.failures, t);
      assert !B.IsOpen(s, t) ==> CountFrom(ring, lo) == CountFrom(s.failures, lo) + 1 <= p.threshold - 1;
    }
  }

  lemma {:induction false} ChurnInvariant(p: B.Params, h: History, lo: Time, hi: Time)
    requires p.Enabled() && WellTimed(p, h) && lo <= hi <= lo + p.window
    ensures ChurnBounded(p, h, lo, hi)
  {
    if h.Then? {
      ChurnInvariant(p, h.past, lo, hi);
      if h.op.Failure? {
        if lo <= h.op.t <= hi {
          ChurnFailure(p, h, lo, hi);
        } else if h.op.t < lo {
          NothingAhead(p, h, lo, hi);
        }
      }
    }
  }

  /** `n` trips from `lo` on have kept the breaker open until `end`. */
  predicate Spread(c: int, n: nat, lo: Time, hi: Time, end: int) {
    n > 0 ==> Allowance(c, n - 1) <= hi - lo && lo + Allowance(c, n) <= end
  }

  lemma {:induction false} SpreadTrip(c: int, n: nat, lo: Time, hi: Time, end: int, t: Time, pause: Duration)
    requires Spread(c, n, lo, hi, end) && lo <= t <= hi && end <= t && c <= pause
    ensures Spread(c, n + 1, lo, hi, t + pause)
  {
  }

  /** The pause of a trip ends at least `cooldown` after it. */
  lemma {:induction false} TripPause(p: B.Params, h: History) returns (pause: Duration)
    requires p.Validated() && h.Then? && TripsNow(p, h)
    ensures p.cooldown <= pause && Run(p, h).openUntil == h.op.t + pause && Run(p, h.past).openUntil <= h.op.t
  {
    PauseStep(p, h);
    var log := TripLog(p, h);
    B.CooldownBounds(p, log[|log| - 1].level);
    pause := log[|log| - 1].pause;
  }

  lemma {:induction false} TripsSpread(p: B.Params, h: History, lo: Time, hi: Time)
    requires p.Validated() && WellTimed(p, h) && lo <= hi
    ensures Spread(p.cooldown, TripsIn(p, h, lo, hi), lo, hi, Run(p, h).openUntil)
  {
    if h.Then? {
      TripsSpread(p, h.past, lo, hi);
      var n, end := TripsIn(p, h.past, lo, hi), Run(p, h.past).openUntil;
      if TripsNow(p, h) && lo <= h.op.t <= hi {
        var pause := TripPause(p, h);
        SpreadTrip(p.cooldown, n, lo, hi, end, h.op.t, pause);
        assert TripsIn(p, h, lo, hi) == n + 1;
      } else {
        OpenUntilNeverDecreases(p, h);
        assert TripsIn(p, h, lo, hi) == n;
      }
    }
  }

  lemma {:induction false} SpreadAsProducts(c: int, n: nat, lo: Time, hi: Time, end: int)
    requires Spread(c, n, lo, hi, end)
    ensures n > 0 ==> (n - 1) * c <= hi - lo && lo + n * c <= end
  {
    if n > 0 {
      AllowanceIsProduct(c, n - 1);
      AllowanceIsProduct(c, n);
    }
  }

  /** Trips are at least `cooldown` apart, so they are few in any interval. */
  lemma {:induction false} TripsAreRare(p: B.Params, h: History, lo: Time, hi: Time)
    requires p.Enabled() && p.Validated() && WellTimed(p, h) && lo <= hi
    ensures var n := TripsIn(p, h, lo, hi);
            n > 0 ==> (n - 1) * p.cooldown <= hi - lo && lo + n * p.cooldown <= Run(p, h).openUntil
  {
    TripsSpread(p, h, lo, hi);
    SpreadAsProducts(p.cooldown, TripsIn(p, h, lo, hi), lo, hi, Run(p, h).openUntil);
  }

  lemma {:induction false} TripBound(p: B.Params, h: History, lo: Time, hi: Time)
    requires p.Enabled() && p.Validated() && WellTimed(p, h) && lo <= hi <= lo + p.window
    ensures TripsIn(p, h, lo, hi) <= p.window / p.cooldown + 1
  {
    TripsAreRare(p, h, lo, hi);
    var n := TripsIn(p, h, lo, hi);
    if n > 0 {
      DivisionBound(n, p.cooldown, p.window);
    }
  }

  /** The churn bound.  In every run, an interval no longer than `window` holds
      fewer than threshold * (trips in it + 1) failures that find the breaker
      closed, spawn errors among them, hence fewer than
      threshold * (window / cooldown + 2). */
  lemma {:induction false} ChurnBound(p: B.Params, h: History, lo: Time, hi: Time)
    requires p.Enabled() && p.Validated() && WellTimed(p, h) && lo <= hi <= lo + p.window
    ensures ErrorsIn(h, lo, hi) <= ClosedIn(p, h, lo, hi) < p.threshold * (TripsIn(p, h, lo, hi) + 1)
    ensures ClosedIn(p, h, lo, hi) < p.threshold * (p.window / p.cooldown + 2)
  {
    ChurnInvariant(p, h, lo, hi);
    FailuresSplit(p, h, lo, hi);
    TripBound(p, h, lo, hi);
    var n := TripsIn(p, h, lo, hi);
    AllowanceIsProduct(p.threshold, n);
    TimesSucc(p.threshold, n);
    TimesMonotone(p.threshold, n + 1, p.window / p.cooldown + 2);
  }

  /** Failures since the last trip that found the breaker open. */
  function OpenSince(p: B.Params, h: History): nat {
    if h.Start? || TripsNow(p, h) then 0 else OpenSince(p, h.past) + Indicator(FailsOpen(p, h))
  }

  /** At no time more than `cap` failures found the current pause running. */
  predicate OpenCapped(p: B.Params, h: History, cap: int) {
    OpenSince(p, h) <= cap && (h.Then? ==> OpenCapped(p, h.past, cap))
  }

  predicate OpenBounded(cap: int, open: nat, trips: nat, since: nat, inTime: bool) {
    && open <= Allowance(cap, trips) + cap
    && (inTime ==> open <= Allowance(cap, trips) + since)
  }

  /** One operation, counted: the failures that find a pause running. */
  lemma {:induction false} OpenStep(p: B.Params, h: History, lo: Time, hi: Time)
    requires h.Then? && (h.op.Failure? ==> lo <= h.op.t)
    ensures TripsNow(p, h) ==>
              && OpenIn(p, h, lo, hi) == OpenIn(p, h.past, lo, hi) && OpenSince(p, h) == 0
              && TripsIn(p, h, lo, hi) == TripsIn(p, h.past, lo, hi) + Indicator(h.op.t <= hi)
    ensures !TripsNow(p, h) ==>
              && OpenIn(p, h, lo, hi) == OpenIn(p, h.past, lo, hi) + Indicator(FailsOpen(p, h) && h.op.t <= hi)
              && OpenSince(p, h) == OpenSince(p, h.past) + Indicator(FailsOpen(p, h))
              && TripsIn(p, h, lo, hi) == TripsIn(p, h.past, lo, hi)
  {
  }

  lemma {:induction false} OpenInvariant(p: B.Params, h: History, cap: int, lo: Time, hi: Time)
    requires WellTimed(p, h) && OpenCapped(p, h, cap) && lo <= hi
    ensures OpenBounded(cap, OpenIn(p, h, lo, hi), TripsIn(p, h, lo, hi), OpenSince(p, h), Clock(h) <= hi)
  {
    if h.Then? {
      OpenInvariant(p, h.past, cap, lo, hi);
      if h.op.Failure? && h.op.t < lo {
        NothingAhead(p, h, lo, hi);
      } else {
        OpenStep(p, h, lo, hi);
      }
    }
  }

  /** The bound on all failures, exits included: if at most `cap` of them can hit
      each pause, an interval no longer than `window` holds fewer than
      (threshold + cap) * (trips in it + 1). */
  lemma {:induction false} FailureBound(p: B.Params, h: History, cap: nat, lo: Time, hi: Time)
    requires p.Enabled() && p.Validated() && WellTimed(p, h) && OpenCapped(p, h, cap)
    requires lo <= hi <= lo + p.window
    ensures FailuresIn(h, lo, hi) < (p.threshold + cap) * (TripsIn(p, h, lo, hi) + 1)
    ensures FailuresIn(h, lo, hi) < (p.threshold + cap) * (p.window / p.cooldown + 2)
  {
    FailuresSplit(p, h, lo, hi);
    ChurnBound(p, h, lo, hi);
    OpenInvariant(p, h, cap, lo, hi);
    TripBound(p, h, lo, hi);
    var n := TripsIn(p, h, lo, hi);
    AllowanceIsProduct(cap, n);
    TimesSucc(cap, n);
    TimesDistribute(p.threshold, cap, n + 1);
    TimesMonotone(p.threshold + cap, n + 1, p.window / p.cooldown + 2);
  }

  // ----------------------------------------------------------- pauses in runs

  datatype Trip = Trip(at: Time, level: nat, pause: Duration)

  /** Every trip of the run, oldest first. */
  function TripLog(p: B.Params, h: History): seq<Trip> {
    if h.Start? then []
    else if TripsNow(p, h) then
      var s := Run(p, h.past);
      TripLog(p, h.past) + [Trip(h.op.t, B.Decayed(p, s, h.op.t).level, B.PauseAt(p, s, h.op.t))]
    else TripLog(p, h.past)
  }

  /** Every spawn attempt of the run. */
  function Attempts(h: History): set<Time> {
    if h.Start? then {}
    else Attempts(h.past) + if h.op.Attempt? then {h.op.t} else {}
  }

  predicate Spaced(log: seq<Trip>) {
    forall k :: 0 < k < |log| ==> log[k - 1].at + log[k - 1].pause <= log[k].at
  }

  predicate Escalating(p: B.Params, log: seq<Trip>) {
    forall k :: 0 <= k < |log| ==>
      && log[k].pause == B.CooldownAt(p, log[k].level)
      && (log[k].level == 0 || (0 < k && log[k].level == log[k - 1].level + 1))
  }

  /** The breaker remembers the newest trip: its pause in `openUntil` and, unless
      reset since, its level. */
  predicate Remembers(log: seq<Trip>, s: B.State) {
    if log == [] then s.level == 0 && s.openUntil == 0
    else
      var last := log[|log| - 1];
      s.openUntil == last.at + last.pause && (s.level == 0 || s.level == last.level + 1)
  }

  lemma {:induction false} LogGrows(p: B.Params, log: seq<Trip>, s: B.State, trip: Trip)
    requires Spaced(log) && Escalating(p, log) && Remembers(log, s)
    requires !B.IsOpen(s, trip.at) && trip.pause == B.CooldownAt(p, trip.level)
    requires trip.level == 0 || trip.level == s.level
    ensures Spaced(log + [trip]) && Escalating(p, log + [trip])
  {
  }

  /** What one operation does to the end of the pause, the level and the log. */
  lemma {:induction false} PauseStep(p: B.Params, h: History)
    requires h.Then?
    ensures TripLog(p, h.past) <= TripLog(p, h)
    ensures !TripsNow(p, h) ==>
              && TripLog(p, h) == TripLog(p, h.past)
              && Run(p, h).openUntil == Run(p, h.past).openUntil
              && (Run(p, h).level == 0 || Run(p, h).level == Run(p, h.past).level)
    ensures TripsNow(p, h) ==>
              var log := TripLog(p, h);
              && log != [] && TripLog(p, h.past) == log[..|log| - 1]
              && var trip := log[|log| - 1];
                 && trip.at == h.op.t && trip.pause == B.CooldownAt(p, trip.level)
                 && (trip.level == 0 || trip.level == Run(p, h.past).level)
                 && Run(p, h).openUntil == trip.at + trip.pause && Run(p, h).level == trip.level + 1
  {
  }

  /** Shape of every trip log: each pause is the one its level calls for, a
      level is either reset or one above the previous trip's, and the next trip
      waits the pause out. */
  lemma {:induction false} TripLogShape(p: B.Params, h: History)
    requires WellTimed(p, h)
    ensures Spaced(TripLog(p, h)) && Escalating(p, TripLog(p, h)) && Remembers(TripLog(p, h), Run(p, h))
  {
    if h.Then? {
      TripLogShape(p, h.past);
      PauseStep(p, h);
      if TripsNow(p, h) {
        var log := TripLog(p, h);
        var trip := log[|log| - 1];
        LogGrows(p, TripLog(p, h.past), Run(p, h.past), trip);
        assert log == TripLog(p, h.past) + [trip];
      }
    }
  }

  /** The next pause ends no earlier than any earlier one. */
  lemma {:induction false} OpenUntilNeverDecreases(p: B.Params, h: History)
    requires p.Validated() && WellTimed(p, h) && h.Then?
    ensures Run(p, h.past).openUntil <= Run(p, h).openUntil
  {
    if TripsNow(p, h) {
      B.CooldownBounds(p, B.Decayed(p, Run(p, h.past), h.op.t).level);
    }
  }

  lemma {:induction false} AttemptsBeforeClock(p: B.Params, h: History)
    requires WellTimed(p, h)
    ensures forall a :: a in Attempts(h) ==> a <= Clock(h)
  {
    if h.Then? {
      AttemptsBeforeClock(p, h.past);
    }
  }

  lemma {:induction false} TripsBeforeOpenUntil(p: B.Params, h: History)
    requires p.Validated() && WellTimed(p, h)
    ensures forall k :: 0 <= k < |TripLog(p, h)| ==>
              TripLog(p, h)[k].at + TripLog(p, h)[k].pause <= Run(p, h).openUntil
  {
    if h.Then? {
      TripsBeforeOpenUntil(p, h.past);
      OpenUntilNeverDecreases(p, h);
    }
  }

  /** Operation by operation: an attempt comes after the end of every pause
      applied before it, and a trip comes no earlier than any attempt before it. */
  predicate PausesKept(p: B.Params, h: History) {
    h.Start? ||
    (&& PausesKept(p, h.past)
     && (h.op.Attempt? ==>
           forall k :: 0 <= k < |TripLog(p, h.past)| ==>
             TripLog(p, h.past)[k].at + TripLog(p, h.past)[k].pause <= h.op.t)
     && (TripsNow(p, h) ==> forall a :: a in Attempts(h.past) ==> a <= h.op.t))
  }

  /** No spawn attempt of the whole run is made during any trip's pause, its
      first instant included. */
  lemma {:induction false} NoAttemptInsidePause(p: B.Params, h: History)
    requires p.Validated() && WellTimed(p, h)
    ensures PausesKept(p, h)
  {
    if h.Then? {
      NoAttemptInsidePause(p, h.past);
      TripsBeforeOpenUntil(p, h.past);
      AttemptsBeforeClock(p, h.past);
    }
  }

  /** The first `n` pauses of an escalation that starts at level `from`. */
  function TotalPause(p: B.Params, from: nat, n: nat): Duration {
    if n == 0 then 0 else TotalPause(p, from, n - 1) + B.CooldownAt(p, from + n - 1)
  }

  lemma {:induction false} EscalationInLog(p: B.Params, log: seq<Trip>, i: nat, j: nat)
    requires Spaced(log) && Escalating(p, log)
    requires i <= j < |log|
    requires forall m :: i < m <= j ==> log[m].level != 0
    ensures log[j].level == log[i].level + (j - i)
    ensures log[i].at + TotalPause(p, log[i].level, j - i) <= log[j].at
    decreases j
  {
    if i < j {
      EscalationInLog(p, log, i, j - 1);
      assert log[j - 1].at + log[j - 1].pause <= log[j].at;
    }
  }

  /** In a stretch of trips without a level reset, trip j comes no sooner than
      the sum of the geometric, capped and truncated pauses since trip i. */
  lemma {:induction false} EscalationSpacing(p: B.Params, h: History, i: nat, j: nat)
    requires p.Validated() && WellTimed(p, h)
    requires i <= j < |TripLog(p, h)|
    requires forall m :: i < m <= j ==> TripLog(p, h)[m].level != 0
    ensures var log := TripLog(p, h);
            && log[j].level == log[i].level + (j - i)
            && log[i].at + TotalPause(p, log[i].level, j - i) <= log[j].at
  {
    TripLogShape(p, h);
    EscalationInLog(p, TripLog(p, h), i, j);
  }

  // --------------------------------------------------------------- stale exits

  function LastFailure(h: History): Option<Time> {
    if h.Start? then None else if h.op.Failure? then Some(h.op.t) else LastFailure(h.past)
  }

  /** Where the latest failure is remembered: last in the ring or, if it
      tripped, in an `openUntil` ahead of it. */
  predicate Remembered(p: B.Params, s: B.State, f: Time) {
    && (if s.failures == [] then f < s.openUntil else s.failures[|s.failures| - 1] == f)
    && (s.level > 0 ==> f < s.openUntil + p.maxCooldown)
  }

  lemma FailureIsRemembered(p: B.Params, s: B.State, t: Time)
    requires p.Validated() && p.Enabled()
    ensures Remembered(p, B.Failed(p, s, t), t)
  {
    B.CooldownBounds(p, B.Decayed(p, s, t).level);
  }

  lemma {:induction false} LastFailureKept(p: B.Params, h: History)
    requires p.Validated() && WellTimed(p, h)
    ensures Run(p, h).level > 0 ==> p.Enabled() && LastFailure(h).Some?
    ensures p.Enabled() && LastFailure(h).Some? ==> Remembered(p, Run(p, h), LastFailure(h).value)
  {
    if h.Then? {
      LastFailureKept(p, h.past);
      if h.op.Failure? && p.Enabled() {
        FailureIsRemembered(p, Run(p, h.past), h.op.t);
      }
    }
  }

  /** An ok exit stamped no later than a failure (or trip) that reached the lock
      first leaves the level alone, whatever happened in between. */
  lemma {:induction false} StaleOkKeepsLevel(p: B.Params, h: History, at: Time)
    requires p.Validated() && WellTimed(p, h)
    requires LastFailure(h).Some? && at <= LastFailure(h).value
    ensures B.Succeeded(p, Run(p, h), at) == Run(p, h)
  {
    LastFailureKept(p, h);
  }
}
