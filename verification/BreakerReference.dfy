/** A reference breaker without the tricks: it keeps every failure since the
    last trip and its level fades by itself as time passes.  The bounded,
    lazily decayed breaker makes the same decisions in every run. */
module BreakerReference {
  import opened Prelude
  import B = Breaker
  import opened BreakerHistory

  datatype Reference = Reference(failures: seq<Time>, openUntil: int, level: nat)

  /** The level in force at `now`: gone once the breaker has been closed for
      `maxCooldown`, with nobody having to look. */
  function LevelAt(p: B.Params, r: Reference, now: Time): nat {
    if now >= r.openUntil + p.maxCooldown then 0 else r.level
  }

  /** How many of the failures lie within `window` before `now`. */
  function Recent(failures: seq<Time>, now: Time, window: Duration): nat {
    if failures == [] then 0
    else
      var n := |failures| - 1;
      Recent(failures[..n], now, window) + Indicator(now - failures[n] <= window)
  }

  predicate ReferenceTrips(p: B.Params, r: Reference, now: Time) {
    p.Enabled() && now >= r.openUntil && Recent(r.failures + [now], now, p.window) >= p.threshold
  }

  function ReferenceFailed(p: B.Params, r: Reference, now: Time): Reference {
    if !p.Enabled() then r
    else if ReferenceTrips(p, r, now) then
      Reference([], now + B.CooldownAt(p, LevelAt(p, r, now)), LevelAt(p, r, now) + 1)
    else r.(failures := r.failures + [now])
  }

  predicate ReferenceResets(p: B.Params, r: Reference, at: Time) {
    || at >= r.openUntil + p.maxCooldown
    || (at >= r.openUntil && forall f :: f in r.failures ==> at - f > p.window)
  }

  /** Polls and attempts are invisible to the reference. */
  function ReferenceStep(p: B.Params, r: Reference, op: Op): Reference {
    match op
    case Poll(_) => r
    case Attempt(_) => r
    case Failure(t, _) => ReferenceFailed(p, r, t)
    case Ok(at) => if ReferenceResets(p, r, at) then r.(level := 0) else r
  }

  function ReferenceRun(p: B.Params, h: History): Reference {
    if h.Start? then Reference([], 0, 0) else ReferenceStep(p, ReferenceRun(p, h.past), h.op)
  }

  // -------------------------------------------------------------- refinement

  function LastOf(s: seq<Time>, n: int): seq<Time> {
    if |s| <= n || n < 0 then s else s[|s| - n..]
  }

  /** In a sorted history the recent failures are a suffix, so "at least k of
      them are recent" is decided by the k-th failure from the end. */
  lemma {:induction false} RecentByPosition(s: seq<Time>, k: int, now: Time, window: Duration)
    requires Sorted(s) && k >= 1
    ensures Recent(s, now, window) >= k <==> |s| >= k && now - s[|s| - k] <= window
  {
    if s != [] {
      var init := s[..|s| - 1];
      RecentByPosition(init, k, now, window);
      if k > 1 {
        RecentByPosition(init, k - 1, now, window);
      }
    }
  }

  predicate Refines(p: B.Params, s: B.State, r: Reference, now: Time) {
    && Sorted(r.failures)
    && (forall i :: 0 <= i < |r.failures| ==> r.failures[i] <= now)
    && (!p.Enabled() ==> r.failures == [])
    && s.failures == LastOf(r.failures, p.threshold)
    && s.openUntil == r.openUntil
    && (s.level == r.level || (s.level == 0 && now >= r.openUntil + p.maxCooldown))
  }

  lemma PushedIsLast(p: B.Params, all: seq<Time>, t: Time)
    requires p.Enabled()
    ensures B.Pushed(p, LastOf(all, p.threshold), t) == LastOf(all + [t], p.threshold)
  {
  }

  /** Related breakers take the same decision on a failure at `t`. */
  lemma SameDecision(p: B.Params, s: B.State, r: Reference, now: Time, t: Time)
    requires Refines(p, s, r, now) && now <= t
    ensures B.Trips(p, s, t) == ReferenceTrips(p, r, t)
    ensures B.PauseAt(p, s, t) == B.CooldownAt(p, LevelAt(p, r, t))
  {
    if p.Enabled() {
      PushedIsLast(p, r.failures, t);
      RecentByPosition(r.failures + [t], p.threshold, t, p.window);
    }
  }

  lemma SameQuiet(p: B.Params, s: B.State, r: Reference, now: Time, at: Time)
    requires Refines(p, s, r, now)
    ensures B.QuietAt(p, s, at) <==> forall f :: f in r.failures ==> at - f > p.window
  {
    if p.Enabled() && B.QuietAt(p, s, at) && r.failures != [] {
      assert s.failures[|s.failures| - 1] == r.failures[|r.failures| - 1];
    }
    if p.Enabled() && !B.QuietAt(p, s, at) {
      var i :| 0 <= i < |s.failures| && at - s.failures[i] <= p.window;
      assert s.failures[i] in r.failures;
    }
  }

  lemma FailureRefines(p: B.Params, s: B.State, r: Reference, now: Time, t: Time)
    requires Refines(p, s, r, now) && now <= t
    ensures Refines(p, B.Failed(p, s, t), ReferenceFailed(p, r, t), t)
  {
    SameDecision(p, s, r, now, t);
    if p.Enabled() && !B.Trips(p, s, t) {
      PushedIsLast(p, r.failures, t);
    }
  }

  lemma OkRefines(p: B.Params, s: B.State, r: Reference, now: Time, at: Time)
    requires Refines(p, s, r, now)
    ensures Refines(p, B.Succeeded(p, s, at), ReferenceStep(p, r, Ok(at)), now)
  {
    SameQuiet(p, s, r, now, at);
  }

  /** The bounded ring with lazy decay refines the full history with eager decay. */
  lemma {:induction false} RingRefinesHistory(p: B.Params, h: History)
    requires WellTimed(p, h)
    ensures Refines(p, Run(p, h), ReferenceRun(p, h), Clock(h))
  {
    if h.Then? {
      RingRefinesHistory(p, h.past);
      var s, r, now := Run(p, h.past), ReferenceRun(p, h.past), Clock(h.past);
      if h.op.Failure? {
        FailureRefines(p, s, r, now, h.op.t);
      } else if h.op.Ok? {
        OkRefines(p, s, r, now, h.op.t);
      }
    }
  }

  /** In every run and at every later time the two breakers answer alike: open
      or closed, trip or not, for how long, and at which level. */
  lemma SameAnswers(p: B.Params, h: History, t: Time)
    requires WellTimed(p, h) && Clock(h) <= t
    ensures var s, r := Run(p, h), ReferenceRun(p, h);
            && (B.IsOpen(s, t) <==> t < r.openUntil)
            && (B.Trips(p, s, t) <==> ReferenceTrips(p, r, t))
            && B.PauseAt(p, s, t) == B.CooldownAt(p, LevelAt(p, r, t))
            && B.Decayed(p, s, t).level == LevelAt(p, r, t)
  {
    RingRefinesHistory(p, h);
    SameDecision(p, Run(p, h), ReferenceRun(p, h), Clock(h), t);
  }

  // -------------------------------------------------------------- observation

  /** The same run with every poll left out. */
  function Unobserved(h: History): History {
    if h.Start? then Start
    else if h.op.Poll? then Unobserved(h.past)
    else Then(Unobserved(h.past), h.op)
  }

  lemma {:induction false} UnobservedWellTimed(p: B.Params, h: History)
    requires WellTimed(p, h)
    ensures WellTimed(p, Unobserved(h)) && Clock(Unobserved(h)) <= Clock(h)
    ensures ReferenceRun(p, Unobserved(h)) == ReferenceRun(p, h)
    ensures Run(p, Unobserved(h)).openUntil == Run(p, h).openUntil
  {
    if h.Then? {
      UnobservedWellTimed(p, h.past);
    }
    RingRefinesHistory(p, h);
    if h.Then? && !h.op.Poll? {
      assert WellTimed(p, Unobserved(h));
      RingRefinesHistory(p, Unobserved(h));
    }
  }

  /** Readings taken under the lock never go back, polls included. */
  predicate Monotone(h: History) {
    h.Start? || (Monotone(h.past) && (!h.op.Ok? ==> Clock(h.past) <= h.op.t))
  }

  lemma {:induction false} ObservedWellTimed(p: B.Params, h: History)
    requires Monotone(h) && WellTimed(p, Unobserved(h))
    ensures WellTimed(p, h)
  {
    if h.Then? {
      ObservedWellTimed(p, h.past);
      UnobservedWellTimed(p, h.past);
    }
  }

  /** The verdict on each failure of the run: no trip, or the pause applied. */
  function Verdicts(p: B.Params, h: History): seq<Option<Duration>> {
    if h.Start? then []
    else if !h.op.Failure? then Verdicts(p, h.past)
    else
      var s := Run(p, h.past);
      Verdicts(p, h.past) + [if B.Trips(p, s, h.op.t) then Some(B.PauseAt(p, s, h.op.t)) else None]
  }

  /** Polling is harmless: insert polls anywhere into a well-timed run and it is
      well-timed still, every failure gets the verdict it got without them, and
      every later question the same answer. */
  lemma {:induction false} ObservationIsHarmless(p: B.Params, h: History)
    requires Monotone(h) && WellTimed(p, Unobserved(h))
    ensures WellTimed(p, h)
    ensures Verdicts(p, Unobserved(h)) == Verdicts(p, h)
    ensures forall t: Time :: Clock(h) <= t ==>
              && B.IsOpen(Run(p, Unobserved(h)), t) == B.IsOpen(Run(p, h), t)
              && B.Trips(p, Run(p, Unobserved(h)), t) == B.Trips(p, Run(p, h), t)
              && B.PauseAt(p, Run(p, Unobserved(h)), t) == B.PauseAt(p, Run(p, h), t)
  {
    ObservedWellTimed(p, h);
    UnobservedWellTimed(p, h);
    if h.Then? {
      ObservationIsHarmless(p, h.past);
    }
    forall t: Time | Clock(h) <= t
      ensures && B.IsOpen(Run(p, Unobserved(h)), t) == B.IsOpen(Run(p, h), t)
              && B.Trips(p, Run(p, Unobserved(h)), t) == B.Trips(p, Run(p, h), t)
              && B.PauseAt(p, Run(p, Unobserved(h)), t) == B.PauseAt(p, Run(p, h), t)
    {
      SameAnswers(p, h, t);
      SameAnswers(p, Unobserved(h), t);
    }
  }
}
