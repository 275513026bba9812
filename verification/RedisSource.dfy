/** The redis hint source (internal/redisin/source.go): the subscription
    pattern, the messages it lets through and the reconnect backoff. */
module RedisSource {
  import opened Prelude
  import opened Text
  import opened Hints

  // -------------------------------------------------------------------- globs

  const Meta := {'*', '?', '[', ']', '\\'}

  /** One character against the inside of a bracket expression, up to its
      closing bracket: is it listed, and what follows the bracket? */
  function InClass(p: string, c: char): (r: (bool, string))
    ensures |r.1| <= |p|
    decreases |p|
  {
    if p == [] then (false, [])
    else if p[0] == '\\' && |p| >= 2 then
      var r := InClass(p[2..], c);
      (p[1] == c || r.0, r.1)
    else if p[0] == ']' then (false, p[1..])
    else if |p| >= 3 && p[1] == '-' then
      var r := InClass(p[3..], c);
      (p[0] <= c <= p[2] || p[2] <= c <= p[0] || r.0, r.1)
    else
      var r := InClass(p[1..], c);
      (p[0] == c || r.0, r.1)
  }

  /** The glob matching PSUBSCRIBE documents: `*` any text, `?` any one
      character, `[...]` and `[^...]` one of a class, backslash the next
      character literally. */
  predicate Matches(p: string, s: string)
    decreases |p|, |s|
  {
    if p == [] then s == []
    else if p[0] == '*' then Matches(p[1..], s) || (s != [] && Matches(p, s[1..]))
    else if s == [] then false
    else if p[0] == '?' then Matches(p[1..], s[1..])
    else if p[0] == '[' then
      var negated := |p| >= 2 && p[1] == '^';
      var r := InClass(if negated then p[2..] else p[1..], s[0]);
      r.0 != negated && Matches(r.1, s[1..])
    else if p[0] == '\\' && |p| >= 2 then p[1] == s[0] && Matches(p[2..], s[1..])
    else p[0] == s[0] && Matches(p[1..], s[1..])
  }

  // ------------------------------------------------------------------ pattern

  function EscapedChar(c: char): string {
    if c in Meta then ['\\', c] else [c]
  }

  function Escaped(prefix: string): string {
    if prefix == [] then [] else EscapedChar(prefix[0]) + Escaped(prefix[1..])
  }

  lemma {:induction false} EscapedSnoc(s: string, c: char)
    ensures Escaped(s + [c]) == Escaped(s) + EscapedChar(c)
  {
    if s == [] {
      assert Escaped([c]) == EscapedChar(c) + [];
    } else {
      assert (s + [c])[1..] == s[1..] + [c];
      EscapedSnoc(s[1..], c);
    }
  }

  method Pattern(prefix: string) returns (b: string)
    ensures b == Escaped(prefix) + "*"
    ensures forall channel :: Matches(b, channel) <==> prefix <= channel
  {
    b := "";
    for i := 0 to |prefix|
      invariant b == Escaped(prefix[..i])
    {
      EscapedSnoc(prefix[..i], prefix[i]);
      assert prefix[..i + 1] == prefix[..i] + [prefix[i]];
      if prefix[i] in Meta {
        b := b + ['\\'];
      }
      b := b + [prefix[i]];
    }
    assert prefix[..|prefix|] == prefix;
    b := b + "*";
    forall channel
      ensures Matches(b, channel) <==> prefix <= channel
    {
      EscapeIsExact(prefix, channel);
    }
  }

  lemma {:induction false} StarMatchesAll(s: string)
    ensures Matches("*", s)
  {
    if s != [] {
      StarMatchesAll(s[1..]);
    }
  }

  /** One escaped character matches exactly itself. */
  lemma EscapedCharMatches(c: char, rest: string, s: string)
    ensures Matches(EscapedChar(c) + rest, s) <==> s != [] && s[0] == c && Matches(rest, s[1..])
  {
    var p := EscapedChar(c) + rest;
    if c in Meta {
      assert p[2..] == rest;
    } else {
      assert p[1..] == rest;
    }
  }

  /** The pattern of a prefix matches a channel if and only if the channel
      starts with that prefix, whatever characters the prefix holds. */
  lemma {:induction false} EscapeIsExact(prefix: string, channel: string)
    ensures Matches(Escaped(prefix) + "*", channel) <==> prefix <= channel
  {
    if prefix == [] {
      assert [] + "*" == "*";
      StarMatchesAll(channel);
    } else {
      var rest := Escaped(prefix[1..]) + "*";
      assert Escaped(prefix) + "*" == EscapedChar(prefix[0]) + rest;
      EscapedCharMatches(prefix[0], rest, channel);
      if channel != [] {
        EscapeIsExact(prefix[1..], channel[1..]);
        PrefixStep(prefix, channel);
      }
    }
  }

  lemma PrefixStep(a: string, b: string)
    requires a != [] && b != []
    ensures a <= b <==> a[0] == b[0] && a[1..] <= b[1..]
  {
    if a[0] == b[0] && a[1..] <= b[1..] {
      assert a == [a[0]] + a[1..] && b == [b[0]] + b[1..];
    }
  }

  // ------------------------------------------------------------------ messages

  datatype Verdict = Forward(hint: Hint) | BadPayload

  function ParseCount(payload: string): Option<nat> {
    var n := Atoi(TrimSpace(payload));
    if n == None || n.value < 0 then None else Some(n.value)
  }

  function Forwarded(prefix: string, channel: string, payload: string): Verdict {
    match CutPrefix(channel, prefix)
    case None => BadPayload
    case Some(pool) =>
      match ParseCount(payload)
      case None => BadPayload
      case Some(n) => Forward(Hint(SourceRedis, pool, n))
  }

  /** Publish and receive: a count published in decimal on prefix + pool is
      delivered by the subscription and becomes exactly that hint. */
  lemma PublishedHintArrives(prefix: string, pool: string, n: nat, left: string, right: string)
    requires n <= MaxInt && Blank(left) && Blank(right)
    ensures Matches(Escaped(prefix) + "*", prefix + pool)
    ensures Forwarded(prefix, prefix + pool, left + Itoa(n) + right) == Forward(Hint("redis", pool, n))
  {
    EscapeIsExact(prefix, prefix + pool);
    var digits := Itoa(n);
    assert IsDigit(digits[0]) && IsDigit(digits[|digits| - 1]);
    TrimPadded(left, digits, right);
    AtoiOfItoa(n);
    assert (prefix + pool)[|prefix|..] == pool;
  }

  /** A payload is a count exactly if, without the space around it, it is a
      numeral in range. */
  lemma ParseCountExactly(payload: string)
    ensures forall n: nat ::
              ParseCount(payload) == Some(n) <==> n <= 9_223_372_036_854_775_807 && Numeral(TrimSpace(payload), n)
  {
    forall n: nat
      ensures Atoi(TrimSpace(payload)) == Some(n as int) <==>
                n <= 9_223_372_036_854_775_807 && Numeral(TrimSpace(payload), n)
    {
      AtoiExactly(TrimSpace(payload), n);
    }
  }

  /** What becomes of any message: it is forwarded as a hint for n workers of a
      pool exactly if it came on that pool's prefixed channel and its payload is a
      numeral for n, and dropped otherwise. */
  lemma {:induction false} ForwardedExactly(prefix: string, channel: string, payload: string)
    ensures forall pool: string, n: nat ::
              Forwarded(prefix, channel, payload) == Forward(Hint("redis", pool, n)) <==>
                prefix + pool == channel && n <= 9_223_372_036_854_775_807 && Numeral(TrimSpace(payload), n)
    ensures Forwarded(prefix, channel, payload) == BadPayload <==>
              !(prefix <= channel)
              || forall n: nat :: n <= 9_223_372_036_854_775_807 ==> !Numeral(TrimSpace(payload), n)
  {
    ParseCountExactly(payload);
    forall pool: string | prefix + pool == channel
      ensures CutPrefix(channel, prefix) == Some(pool)
    {
      assert (prefix + pool)[|prefix|..] == pool;
    }
    if prefix <= channel {
      assert prefix + channel[|prefix|..] == channel;
    }
  }

  /** Whatever the subscription delivers carries the prefix, so a delivered
      message is dropped only for its payload, and a forwarded one names the
      pool whose prefixed channel it came from. */
  lemma DeliveredKeepsPrefix(prefix: string, channel: string, payload: string)
    requires Matches(Escaped(prefix) + "*", channel)
    ensures Forwarded(prefix, channel, payload) == BadPayload <==>
              forall n: nat :: n <= 9_223_372_036_854_775_807 ==> !Numeral(TrimSpace(payload), n)
    ensures Forwarded(prefix, channel, payload).Forward? ==>
              prefix + Forwarded(prefix, channel, payload).hint.pool == channel
  {
    EscapeIsExact(prefix, channel);
    ForwardedExactly(prefix, channel, payload);
  }

  // ------------------------------------------------------------------- backoff

  function Pow2(j: nat): nat {
    if j == 0 then 1 else 2 * Pow2(j - 1)
  }

  /** How many sessions ago the last confirmed one (or the first) was. */
  function SinceConfirmed(sessions: seq<bool>, k: nat): nat
    requires k < |sessions|
  {
    if k == 0 || sessions[k] then 0 else 1 + SinceConfirmed(sessions, k - 1)
  }

  /** The wait before retry `j` after a confirmed session. */
  function WaitAt(min: Duration, max: Duration, j: nat): Duration {
    Min(min * Pow2(j), max)
  }

  lemma Doubling(min: Duration, max: Duration, j: nat)
    requires 0 < min <= max
    ensures Min(WaitAt(min, max, j) * 2, max) == WaitAt(min, max, j + 1)
  {
    assert min * Pow2(j + 1) == 2 * (min * Pow2(j));
  }

  /** The first wait after a confirmed session is `min`; each later one is twice
      the wait before it, at most `max`. */
  predicate Doubles(min: Duration, max: Duration, sessions: seq<bool>, waits: seq<Duration>)
    requires |waits| <= |sessions|
  {
    forall k :: 0 <= k < |waits| ==>
      && (k == 0 || sessions[k] ==> waits[k] == min)
      && (0 < k && !sessions[k] ==> waits[k] == Min(2 * waits[k - 1], max))
  }

  lemma OneMoreWait(min: Duration, max: Duration, sessions: seq<bool>, waits: seq<Duration>, next: Duration)
    requires |waits| < |sessions| && Doubles(min, max, sessions, waits)
    requires var k := |waits|;
             next == if k == 0 || sessions[k] then min else Min(2 * waits[k - 1], max)
    ensures Doubles(min, max, sessions, waits + [next])
  {
    var more := waits + [next];
    assert forall k :: 0 <= k < |waits| ==> more[k] == waits[k];
  }

  lemma {:induction false} DoublesClosedForm(min: Duration, max: Duration, sessions: seq<bool>, waits: seq<Duration>, k: nat)
    requires 0 < min <= max && k < |waits| <= |sessions| && Doubles(min, max, sessions, waits)
    ensures waits[k] == WaitAt(min, max, SinceConfirmed(sessions, k))
  {
    if k == 0 || sessions[k] {
      assert waits[k] == min && SinceConfirmed(sessions, k) == 0;
      assert min * Pow2(0) == min;
    } else {
      var j := SinceConfirmed(sessions, k - 1);
      assert waits[k] == Min(2 * waits[k - 1], max) && SinceConfirmed(sessions, k) == j + 1;
      DoublesClosedForm(min, max, sessions, waits, k - 1);
      Doubling(min, max, j);
    }
  }

  /** The retry loop of Run for the given session outcomes (was the subscription
      ever confirmed?), up to the end of ctx: the waits between sessions. */
  method Backoff(min: Duration, max: Duration, sessions: seq<bool>) returns (waits: seq<Duration>)
    requires 0 < min <= max
    ensures |waits| == |sessions| && Doubles(min, max, sessions, waits)
    ensures forall k :: 0 <= k < |sessions| ==> waits[k] == WaitAt(min, max, SinceConfirmed(sessions, k))
  {
    var backoff := min;
    waits := [];
    for k := 0 to |sessions|
      invariant |waits| == k && Doubles(min, max, sessions, waits)
      invariant backoff == if k == 0 then min else Min(2 * waits[k - 1], max)
    {
      if sessions[k] {
        backoff := min;
      }
      OneMoreWait(min, max, sessions, waits, backoff);
      waits := waits + [backoff];
      backoff := Min(backoff * 2, max);
    }
    forall k | 0 <= k < |sessions|
      ensures waits[k] == WaitAt(min, max, SinceConfirmed(sessions, k))
    {
      DoublesClosedForm(min, max, sessions, waits, k);
    }
  }
}
