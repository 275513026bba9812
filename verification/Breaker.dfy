/** The failure breaker of one pool (internal/pool/breaker.go): a ring of the
    last `threshold` failure times, a pause with geometric growth, and an
    escalation level that decays lazily. */
module Breaker {
  import opened Prelude

  datatype Params = Params(
    threshold: int,
    window: Duration,
    cooldown: Duration,
    maxCooldown: Duration,
    multiplier: real)
  {
    predicate Enabled() {
      threshold > 0 && cooldown > 0
    }

    /** The breaker and cooldown rules of a config without validation errors. */
    predicate Validated() {
      threshold >= 0 && window > 0 && 0 <= cooldown <= maxCooldown && multiplier >= 1.0
    }
  }

  datatype State = State(failures: seq<Time>, openUntil: int, level: nat)

  const Initial := State([], 0, 0)

  // ---------------------------------------------------------------- cooldown

  function Pow(x: real, n: nat): real {
    if n == 0 then 1.0 else x * Pow(x, n - 1)
  }

  /** Go's float-to-integer conversion: towards zero. */
  function Truncate(d: real): int {
    if d >= 0.0 then d.Floor else -((-d).Floor)
  }

  /** The uncapped pause: `cooldown`, multiplied once more per level. */
  function Geometric(p: Params, level: nat): real {
    if level == 0 then p.cooldown as real else p.multiplier * Geometric(p, level - 1)
  }

  lemma {:induction false} GeometricIsPower(p: Params, level: nat)
    ensures Geometric(p, level) == p.cooldown as real * Pow(p.multiplier, level)
  {
    if level > 0 {
      GeometricIsPower(p, level - 1);
      var c, m, q := p.cooldown as real, p.multiplier, Pow(p.multiplier, level - 1);
      assert m * (c * q) == c * (m * q);
    }
  }

  function Capped(d: real, limit: int): int {
    if d > limit as real then limit else Truncate(d)
  }

  function CooldownAt(p: Params, level: nat): Duration {
    Capped(Geometric(p, level), p.maxCooldown)
  }

  lemma ScalingUp(x: real, m: real)
    requires x >= 0.0 && m >= 1.0
    ensures m * x >= x
  {
    assert (m - 1.0) * x >= 0.0;
  }

  lemma {:induction false} GeometricGrows(p: Params, level: nat)
    requires p.Validated()
    ensures p.cooldown as real <= Geometric(p, level) <= Geometric(p, level + 1)
  {
    if level > 0 {
      GeometricGrows(p, level - 1);
    }
    ScalingUp(Geometric(p, level), p.multiplier);
  }

  /** Under a validated config every pause lies between `cooldown` and
      `maxCooldown` and never shrinks as the level grows. */
  lemma {:induction false} CooldownBounds(p: Params, level: nat)
    requires p.Validated()
    ensures p.cooldown <= CooldownAt(p, level) <= CooldownAt(p, level + 1) <= p.maxCooldown
  {
    GeometricGrows(p, level);
  }

  // -------------------------------------------------------------- operations

  function Decayed(p: Params, s: State, now: Time): State {
    if s.level > 0 && now >= s.openUntil + p.maxCooldown then s.(level := 0) else s
  }

  predicate IsOpen(s: State, now: Time) {
    now < s.openUntil
  }

  /** The ring after one more failure time: the last `threshold` of them. */
  function Pushed(p: Params, ring: seq<Time>, now: Time): seq<Time>
    requires p.Enabled()
  {
    var all := ring + [now];
    if |all| > p.threshold then all[|all| - p.threshold..] else all
  }

  /** Does a failure at `now` trip the breaker? */
  predicate Trips(p: Params, s: State, now: Time) {
    && p.Enabled()
    && !IsOpen(s, now)
    && var ring := Pushed(p, s.failures, now);
       |ring| >= p.threshold && now - ring[0] <= p.window
  }

  /** The pause a trip at `now` would apply. */
  function PauseAt(p: Params, s: State, now: Time): Duration {
    CooldownAt(p, Decayed(p, s, now).level)
  }

  function Failed(p: Params, s: State, now: Time): State {
    if !p.Enabled() then s
    else if Trips(p, s, now) then
      State([], now + PauseAt(p, s, now), Decayed(p, s, now).level + 1)
    else
      Decayed(p, s, now).(failures := Pushed(p, s.failures, now))
  }

  predicate QuietAt(p: Params, s: State, now: Time) {
    forall i :: 0 <= i < |s.failures| ==> now - s.failures[i] > p.window
  }

  function Succeeded(p: Params, s: State, now: Time): State {
    var d := Decayed(p, s, now);
    if !IsOpen(s, now) && QuietAt(p, s, now) then d.(level := 0) else d
  }

  /** The mutable breaker the pool mutex guards. */
  class Breaker {
    const p: Params
    var failures: seq<Time>
    var openUntil: int
    var level: nat

    function Abs(): State
      reads this
    {
      State(failures, openUntil, level)
    }

    constructor (p: Params)
      ensures this.p == p && Abs() == Initial
    {
      this.p := p;
      failures, openUntil, level := [], 0, 0;
    }

    method NextCooldown() returns (d: Duration)
      ensures d == CooldownAt(p, level)
      ensures p.Validated() ==> p.cooldown <= d <= p.maxCooldown
    {
      var f := p.cooldown as real * Pow(p.multiplier, level);
      GeometricIsPower(p, level);
      if p.Validated() {
        CooldownBounds(p, level);
      }
      if f > p.maxCooldown as real {
        return p.maxCooldown;
      }
      return Truncate(f);
    }

    method Decay(now: Time)
      modifies this`level
      ensures Abs() == Decayed(p, old(Abs()), now)
    {
      if level > 0 && !(now < openUntil + p.maxCooldown) {
        level := 0;
      }
    }

    method Open(now: Time) returns (open: bool)
      modifies this`level
      ensures Abs() == Decayed(p, old(Abs()), now)
      ensures open == IsOpen(old(Abs()), now)
    {
      Decay(now);
      return now < openUntil;
    }

    method Failure(now: Time) returns (d: Duration, tripped: bool)
      modifies this
      ensures Abs() == Failed(p, old(Abs()), now)
      ensures tripped == Trips(p, old(Abs()), now)
      ensures d == if tripped then PauseAt(p, old(Abs()), now) else 0
    {
      if !p.Enabled() {
        return 0, false;
      }
      Decay(now);
      failures := failures + [now];
      if |failures| > p.threshold {
        failures := failures[|failures| - p.threshold..];
      }
      if now < openUntil || |failures| < p.threshold || now - failures[0] > p.window {
        return 0, false;
      }
      d := NextCooldown();
      openUntil := now + d;
      level := level + 1;
      failures := [];
      return d, true;
    }

    method Ok(now: Time)
      modifies this`level
      ensures Abs() == Succeeded(p, old(Abs()), now)
    {
      Decay(now);
      if now < openUntil {
        return;
      }
      for i := 0 to |failures|
        invariant Abs() == Decayed(p, old(Abs()), now)
        invariant forall k :: 0 <= k < i ==> now - failures[k] > p.window
      {
        if now - failures[i] <= p.window {
          return;
        }
      }
      level := 0;
    }
  }
}
