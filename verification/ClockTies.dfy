/** In which order the fake clock fires waiters that are due together.  The
    source's comment says insertion order; the slice it sorts has a memory, and
    the exact rule is the one proved here for every history of a clock. */
module ClockTies {
  import opened Prelude
  import opened FakeClock

  /** The index of the last firing of `id`. */
  function LastFiring(fired: seq<Fired>, id: Id): (k: Option<nat>)
    ensures k.Some? ==> k.value < |fired|
  {
    if fired == [] then None
    else if fired[|fired| - 1].id == id then Some(|fired| - 1)
    else LastFiring(fired[..|fired| - 1], id)
  }

  /** How recently `id` fired: a later firing ranks higher, and whoever never fired
      ranks below, the longer armed the higher. */
  function Recency(fired: seq<Fired>, id: Id): (r: int)
    ensures -(id as int) <= r <= |fired|
  {
    match LastFiring(fired, id)
    case Some(k) => k + 1
    case None => -(id as int)
  }

  lemma RecencyGrows(fired: seq<Fired>, f: Fired, id: Id)
    ensures Recency(fired + [f], id) == if f.id == id then |fired| + 1 else Recency(fired, id)
  {
    assert (fired + [f])[..|fired|] == fired;
  }

  predicate MostRecentFirst(ws: seq<Waiter>, fired: seq<Fired>) {
    forall i, j :: 0 <= i < j < |ws| ==> Recency(fired, ws[i].id) > Recency(fired, ws[j].id)
  }

  /** Waiters due together stand in the slice by recency. */
  ghost predicate TiesByRecency(ws: seq<Waiter>, fired: seq<Fired>) {
    forall at: int :: MostRecentFirst(DueAt(ws, at), fired)
  }

  // ------------------------------------------------------------ one firing

  lemma {:induction false} DueAtMembers(ws: seq<Waiter>, at: int, w: Waiter)
    ensures w in DueAt(ws, at) <==> w in ws && w.at == at
  {
    if ws != [] {
      DueAtMembers(ws[1..], at, w);
      assert w in ws <==> w == ws[0] || w in ws[1..];
    }
  }

  lemma SortKeepsTies(ws: seq<Waiter>, fired: seq<Fired>)
    requires TiesByRecency(ws, fired)
    ensures TiesByRecency(StableSort(ws), fired)
  {
    forall at: int
      ensures MostRecentFirst(DueAt(StableSort(ws), at), fired)
    {
      SortStable(ws, at);
    }
  }

  /** Another id fires: nobody here moves. */
  lemma OthersKeepRecency(ws: seq<Waiter>, fired: seq<Fired>, f: Fired)
    requires MostRecentFirst(ws, fired) && forall w :: w in ws ==> w.id != f.id
    ensures MostRecentFirst(ws, fired + [f])
  {
    forall i | 0 <= i < |ws|
      ensures Recency(fired + [f], ws[i].id) == Recency(fired, ws[i].id)
    {
      RecencyGrows(fired, f, ws[i].id);
    }
  }

  /** The one that just fired may stand before any others. */
  lemma JustFiredFirst(ws: seq<Waiter>, fired: seq<Fired>, f: Fired, w: Waiter)
    requires MostRecentFirst(ws, fired + [f]) && w.id == f.id && forall x :: x in ws ==> x.id != f.id
    ensures MostRecentFirst([w] + ws, fired + [f])
  {
    RecencyGrows(fired, f, w.id);
    forall i | 0 <= i < |ws|
      ensures Recency(fired + [f], ws[i].id) <= |fired|
    {
      RecencyGrows(fired, f, ws[i].id);
    }
  }

  lemma HeadIsAlone(ws: seq<Waiter>)
    requires ws != [] && Distinct(ws)
    ensures forall x :: x in ws[1..] ==> x.id != ws[0].id
  {
    assert Ids(ws)[ws[0].id] <= 1;
    IdsOf(ws[1..], ws[0].id);
  }

  lemma FiringKeepsTies(ws: seq<Waiter>, fired: seq<Fired>)
    requires ws != [] && Distinct(ws) && TiesByRecency(ws, fired)
    ensures TiesByRecency(Rescheduled(ws), fired + [Fired(ws[0].id, ws[0].at)])
  {
    var w, rest, f := ws[0], ws[1..], Fired(ws[0].id, ws[0].at);
    HeadIsAlone(ws);
    forall at: int
      ensures MostRecentFirst(DueAt(Rescheduled(ws), at), fired + [f])
    {
      var others := DueAt(rest, at);
      assert MostRecentFirst(DueAt(ws, at), fired);
      assert w.at == at ==> DueAt(ws, at)[1..] == others;
      assert MostRecentFirst(others, fired);
      forall x | x in others
        ensures x.id != f.id
      {
        DueAtMembers(rest, at, x);
      }
      OthersKeepRecency(others, fired, f);
      if w.period > 0 {
        assert Rescheduled(ws)[1..] == rest;
        JustFiredFirst(others, fired, f, Next(w));
      }
    }
  }

  // ------------------------------------------------------------ one advance

  /** Of two firings at the same time the first is the one whose waiter had fired
      more recently when that time came. */
  predicate TieRule(log: seq<Fired>, before: seq<Fired>) {
    forall i, j :: 0 <= i < j < |log| && log[i].at == log[j].at ==>
      Recency(before + log[..i], log[i].id) > Recency(before + log[..i], log[j].id)
  }

  lemma {:induction false} ExpectedNotEarlier(w: Waiter, target: int)
    ensures forall t :: t in Expected(w, target) ==> w.at <= t
    decreases Due(w, target)
  {
    if w.at <= target && w.period > 0 {
      NextDue(w, target);
      ExpectedNotEarlier(Next(w), target);
    }
  }

  lemma {:induction false} FiringIsListed(log: seq<Fired>, j: nat)
    requires j < |log|
    ensures log[j].at in FiringsOf(log, log[j].id)
  {
    if j > 0 {
      FiringIsListed(log[1..], j - 1);
    }
  }

  /** Whoever fires later at the head's deadline was due then all along. */
  lemma TiedWasDue(sorted: seq<Waiter>, target: int, j: nat) returns (x: Waiter)
    requires sorted != [] && Sorted(sorted) && Distinct(sorted)
    requires j < |Play(Rescheduled(sorted), target).log|
    requires Play(Rescheduled(sorted), target).log[j].at == sorted[0].at
    ensures x in sorted[1..] && x.at == sorted[0].at && x.id == Play(Rescheduled(sorted), target).log[j].id
  {
    var next := Rescheduled(sorted);
    var log := Play(next, target).log;
    var id := log[j].id;
    FiringIsListed(log, j);
    IdsOf(next, id);
    if Ids(next)[id] == 0 {
      StrangerSilent(next, target, id);
    }
    x :| x in next && x.id == id;
    RescheduledDistinct(sorted);
    PlayPerWaiter(next, target, x);
    ExpectedNotEarlier(x, target);
  }

  lemma HeadRanksFirst(sorted: seq<Waiter>, fired: seq<Fired>, x: Waiter)
    requires sorted != [] && TiesByRecency(sorted, fired) && x in sorted[1..] && x.at == sorted[0].at
    ensures Recency(fired, sorted[0].id) > Recency(fired, x.id)
  {
    var at := sorted[0].at;
    DueAtMembers(sorted[1..], at, x);
    var due, later := DueAt(sorted, at), DueAt(sorted[1..], at);
    assert due == [sorted[0]] + later && MostRecentFirst(due, fired);
    var k :| 0 <= k < |later| && later[k] == x;
    assert due[0] == sorted[0] && due[k + 1] == x;
  }

  lemma HeadBeforeTied(sorted: seq<Waiter>, target: int, fired: seq<Fired>)
    requires sorted != [] && Sorted(sorted) && Distinct(sorted) && TiesByRecency(sorted, fired)
    ensures var later := Play(Rescheduled(sorted), target).log;
            forall j :: 0 <= j < |later| && later[j].at == sorted[0].at ==>
              Recency(fired, sorted[0].id) > Recency(fired, later[j].id)
  {
    var later := Play(Rescheduled(sorted), target).log;
    forall j | 0 <= j < |later| && later[j].at == sorted[0].at
      ensures Recency(fired, sorted[0].id) > Recency(fired, later[j].id)
    {
      var x := TiedWasDue(sorted, target, j);
      HeadRanksFirst(sorted, fired, x);
    }
  }

  lemma PrefixFromTail(log: seq<Fired>, before: seq<Fired>, i: nat)
    requires 0 < i <= |log|
    ensures before + [log[0]] + log[1..][..i - 1] == before + log[..i]
  {
    assert log[..i] == [log[0]] + log[1..][..i - 1];
  }

  lemma {:induction false} TieRuleCons(log: seq<Fired>, before: seq<Fired>)
    requires log != [] && TieRule(log[1..], before + [log[0]])
    requires forall j :: 0 <= j < |log[1..]| && log[1..][j].at == log[0].at ==>
               Recency(before, log[0].id) > Recency(before, log[1..][j].id)
    ensures TieRule(log, before)
  {
    forall i, j | 0 <= i < j < |log| && log[i].at == log[j].at
      ensures Recency(before + log[..i], log[i].id) > Recency(before + log[..i], log[j].id)
    {
      if i == 0 {
        assert before + log[..0] == before && log[1..][j - 1] == log[j];
      } else {
        PrefixFromTail(log, before, i);
        assert log[1..][i - 1] == log[i] && log[1..][j - 1] == log[j];
      }
    }
  }

  lemma {:induction false} PlayTies(ws: seq<Waiter>, target: int, before: seq<Fired>)
    requires Distinct(ws) && TiesByRecency(ws, before)
    ensures TieRule(Play(ws, target).log, before)
    ensures TiesByRecency(Play(ws, target).waiters, before + Play(ws, target).log)
    decreases TotalDue(ws, target)
  {
    var sorted := StableSort(ws);
    SortIds(ws);
    SortSorted(ws);
    SortKeepsTies(ws, before);
    if sorted == [] || sorted[0].at > target {
      assert before + [] == before;
    } else {
      var f, next := Fired(sorted[0].id, sorted[0].at), Rescheduled(sorted);
      var out, rest := Play(ws, target), Play(next, target);
      PlayUnfolds(ws, target);
      assert out.log[0] == f && out.log[1..] == rest.log && out.waiters == rest.waiters;
      RescheduledDistinct(sorted);
      FiringKeepsTies(sorted, before);
      PlayTies(next, target, before + [f]);
      HeadBeforeTied(sorted, target, before);
      TieRuleCons(out.log, before);
      PrefixFromTail(out.log, before, |out.log|);
      assert out.log[..|out.log|] == out.log && rest.log[..|rest.log|] == rest.log;
    }
  }

  // ------------------------------------------------------- the life of a clock

  datatype Move =
    | Arm(d: Duration, period: Duration)   // After, NewTimer and NewTicker
    | Disarm(id: Id)                       // Stop
    | Pass(d: Duration)                    // Advance

  /** A clock and everything it has fired, oldest first. */
  datatype Life = Life(clock: State, fired: seq<Fired>)

  function Lived(l: Life, move: Move): Life {
    var c := l.clock;
    match move
    case Arm(d, period) =>
      l.(clock := State(c.now, c.waiters + [Waiter(c.nextId, c.now + d, period)], c.chans[c.nextId := None], c.nextId + 1))
    case Disarm(id) => l.(clock := c.(waiters := Removed(c.waiters, id)))
    case Pass(d) => Life(Advanced(c, d), l.fired + Play(c.waiters, c.now + d).log)
  }

  function LifeOf(start: int, moves: seq<Move>): Life {
    if moves == [] then Life(State(start, [], map[], 0), [])
    else Lived(LifeOf(start, moves[..|moves| - 1]), moves[|moves| - 1])
  }

  /** What every move keeps. */
  ghost predicate InTieOrder(l: Life) {
    && WellFormed(l.clock)
    && TiesByRecency(l.clock.waiters, l.fired)
    && forall f :: f in l.fired ==> f.id < l.clock.nextId
  }

  lemma {:induction false} NeverFired(fired: seq<Fired>, id: Id)
    requires forall f :: f in fired ==> f.id < id
    ensures Recency(fired, id) == -(id as int)
  {
    if fired != [] {
      NeverFired(fired[..|fired| - 1], id);
    }
  }

  lemma {:induction false} DueAtAppend(ws: seq<Waiter>, w: Waiter, at: int)
    ensures DueAt(ws + [w], at) == DueAt(ws, at) + if w.at == at then [w] else []
  {
    if ws != [] {
      assert (ws + [w])[1..] == ws[1..] + [w];
      DueAtAppend(ws[1..], w, at);
    }
  }

  lemma ArmKeepsTies(l: Life, d: Duration, period: Duration)
    requires InTieOrder(l)
    ensures InTieOrder(Lived(l, Arm(d, period)))
  {
    var c := l.clock;
    var w := Waiter(c.nextId, c.now + d, period);
    AddWellFormed(c, w);
    NeverFired(l.fired, w.id);
    forall at: int
      ensures MostRecentFirst(DueAt(c.waiters + [w], at), l.fired)
    {
      DueAtAppend(c.waiters, w, at);
      assert MostRecentFirst(DueAt(c.waiters, at), l.fired);
      forall x | x in DueAt(c.waiters, at)
        ensures Recency(l.fired, x.id) > Recency(l.fired, w.id)
      {
        DueAtMembers(c.waiters, at, x);
      }
    }
  }

  lemma {:induction false} DueAtRemoved(ws: seq<Waiter>, id: Id, at: int)
    ensures DueAt(Removed(ws, id), at) == DueAt(ws, at) || DueAt(Removed(ws, id), at) == Removed(DueAt(ws, at), id)
  {
    if ws != [] {
      if ws[0].id == id {
        if ws[0].at == at {
          assert DueAt(ws, at)[1..] == DueAt(ws[1..], at);
        }
      } else {
        DueAtRemoved(ws[1..], id, at);
        assert ([ws[0]] + Removed(ws[1..], id))[1..] == Removed(ws[1..], id);
        if ws[0].at == at {
          assert DueAt(ws, at)[1..] == DueAt(ws[1..], at);
        }
      }
    }
  }

  lemma {:induction false} RemovedKeepsOrder(ws: seq<Waiter>, id: Id, fired: seq<Fired>)
    requires MostRecentFirst(ws, fired)
    ensures MostRecentFirst(Removed(ws, id), fired)
  {
    if ws != [] && ws[0].id != id {
      RemovedKeepsOrder(ws[1..], id, fired);
      forall x | x in Removed(ws[1..], id)
        ensures Recency(fired, ws[0].id) > Recency(fired, x.id)
      {
        RemovedKeeps(ws[1..], id, x);
      }
    }
  }

  lemma DisarmKeepsTies(l: Life, id: Id)
    requires InTieOrder(l)
    ensures InTieOrder(Lived(l, Disarm(id)))
  {
    var ws := l.clock.waiters;
    RemoveWellFormed(l.clock, id);
    forall at: int
      ensures MostRecentFirst(DueAt(Removed(ws, id), at), l.fired)
    {
      assert MostRecentFirst(DueAt(ws, at), l.fired);
      RemovedKeepsOrder(DueAt(ws, at), id, l.fired);
      DueAtRemoved(ws, id, at);
    }
  }

  lemma FiringWasArmed(ws: seq<Waiter>, target: int, f: Fired)
    requires f in Play(ws, target).log
    ensures exists w :: w in ws && w.id == f.id
  {
    var log := Play(ws, target).log;
    var j :| 0 <= j < |log| && log[j] == f;
    FiringIsListed(log, j);
    if Ids(ws)[f.id] == 0 {
      StrangerSilent(ws, target, f.id);
    }
    IdsOf(ws, f.id);
  }

  lemma PassKeepsTies(l: Life, d: Duration)
    requires InTieOrder(l)
    ensures InTieOrder(Lived(l, Pass(d)))
  {
    var c := l.clock;
    AdvanceWellFormed(c, d);
    PlayTies(c.waiters, c.now + d, l.fired);
    forall f | f in Play(c.waiters, c.now + d).log
      ensures f.id < c.nextId
    {
      FiringWasArmed(c.waiters, c.now + d, f);
    }
  }

  lemma {:induction false} LifeInTieOrder(start: int, moves: seq<Move>)
    ensures InTieOrder(LifeOf(start, moves))
  {
    if moves != [] {
      var l := LifeOf(start, moves[..|moves| - 1]);
      LifeInTieOrder(start, moves[..|moves| - 1]);
      match moves[|moves| - 1]
      case Arm(d, period) => ArmKeepsTies(l, d, period);
      case Disarm(id) => DisarmKeepsTies(l, id);
      case Pass(d) => PassKeepsTies(l, d);
    }
  }

  /** The exact rule, in every life of a clock and every advance: of two waiters
      that fire at the same time the first is the one that fired more recently,
      and only among those that never fired does insertion decide. */
  lemma {:induction false} TiesFireByRecency(start: int, moves: seq<Move>, d: Duration)
    ensures var Life(c, fired) := LifeOf(start, moves);
            TieRule(Play(c.waiters, c.now + d).log, fired)
  {
    LifeInTieOrder(start, moves);
    var Life(c, fired) := LifeOf(start, moves);
    PlayTies(c.waiters, c.now + d, fired);
  }

  /** So, of two waiters that fire at the same time, the one inserted first goes
      first exactly when the other has never fired before, or not since it did. */
  lemma {:induction false} InsertionOrderKept(log: seq<Fired>, before: seq<Fired>, i: nat, j: nat)
    requires TieRule(log, before) && i < j < |log| && log[i].at == log[j].at
    ensures var older, younger := Min(log[i].id, log[j].id), Max(log[i].id, log[j].id);
            var past := before + log[..i];
            log[i].id == older <==>
              match LastFiring(past, younger)
              case None => true
              case Some(k) => LastFiring(past, older).Some? && LastFiring(past, older).value > k
  {
  }

  // ------------------------------------------------------------------ tickers

  lemma {:induction false} FiringsConcat(a: seq<Fired>, b: seq<Fired>, id: Id)
    ensures FiringsOf(a + b, id) == FiringsOf(a, id) + FiringsOf(b, id)
  {
    if a == [] {
      assert a + b == b;
    } else {
      assert (a + b)[1..] == a[1..] + b;
      FiringsConcat(a[1..], b, id);
    }
  }

  /** The last firing is the last of the times an id fired at. */
  lemma {:induction false} LastFiringTime(fired: seq<Fired>, id: Id)
    ensures var times := FiringsOf(fired, id);
            match LastFiring(fired, id)
            case None => times == []
            case Some(k) => times != [] && fired[k] == Fired(id, times[|times| - 1])
  {
    if fired != [] {
      var n := |fired| - 1;
      LastFiringTime(fired[..n], id);
      FiringsConcat(fired[..n], [fired[n]], id);
      assert fired == fired[..n] + [fired[n]] && [fired[n]][1..] == [];
    }
  }

  lemma {:induction false} LastFiringSooner(fired: seq<Fired>, id: Id, n: nat)
    requires n <= |fired| && LastFiring(fired, id).Some? && LastFiring(fired, id).value < n
    ensures LastFiring(fired[..n], id) == LastFiring(fired, id)
  {
    if n == |fired| {
      assert fired[..n] == fired;
    } else {
      var init := fired[..|fired| - 1];
      LastFiringSooner(init, id, n);
      assert init[..n] == fired[..n];
    }
  }

  lemma {:induction false} LastFiringLater(before: seq<Fired>, fired: seq<Fired>, id: Id)
    requires LastFiring(fired, id).Some?
    ensures LastFiring(before + fired, id) == Some(|before| + LastFiring(fired, id).value)
  {
    var n := |fired| - 1;
    assert (before + fired)[..|before| + n] == before + fired[..n];
    if fired[n].id != id {
      LastFiringLater(before, fired[..n], id);
    }
  }

  /** A ticker that has fired before fired one period ago. */
  lemma {:induction false} PreviousTick(log: seq<Fired>, w: Waiter, target: int, i: nat) returns (k: nat)
    requires i < |log| && log[i].id == w.id && w.period > 0 && w.at < log[i].at
    requires FiringsOf(log, w.id) == Expected(w, target)
    ensures k < i && LastFiring(log[..i], w.id) == Some(k) && log[k] == Fired(w.id, log[i].at - w.period)
  {
    var past, times := FiringsOf(log[..i], w.id), Expected(w, target);
    assert log == log[..i] + ([log[i]] + log[i + 1..]);
    FiringsConcat(log[..i], [log[i]] + log[i + 1..], w.id);
    assert times == past + FiringsOf([log[i]] + log[i + 1..], w.id);
    var m := |past|;
    TickerGrid(w, target);
    assert times[m] == log[i].at == w.at + m * w.period;
    assert m > 0;
    assert past[m - 1] == times[m - 1] == w.at + (m - 1) * w.period;
    assert (m - 1) * w.period == m * w.period - w.period;
    LastFiringTime(log[..i], w.id);
    k := LastFiring(log[..i], w.id).value;
  }

  predicate FiresOnTime(log: seq<Fired>, w: Waiter, target: int) {
    FiringsOf(log, w.id) == Expected(w, target)
  }

  lemma {:induction false} OnTime(ws: seq<Waiter>, target: int, w: Waiter)
    requires Distinct(ws) && w in ws
    ensures FiresOnTime(Play(ws, target).log, w, target)
  {
    PlayPerWaiter(ws, target, w);
  }

  /** Tickers x and y fire at the same time, x first, and both have fired before. */
  predicate TiedAgain(log: seq<Fired>, x: Waiter, y: Waiter, i: int, j: int) {
    && x.period > 0 && y.period > 0
    && 0 <= i < j < |log| && log[i].id == x.id && log[j].id == y.id
    && log[i].at == log[j].at > Max(x.at, y.at)
  }

  /** Firings a and b are the ticks before, y first. */
  predicate TicksBefore(log: seq<Fired>, x: Waiter, y: Waiter, i: int, j: int, a: int, b: int)
    requires TiedAgain(log, x, y, i, j)
  {
    && 0 <= b < a < i
    && log[a] == Fired(x.id, log[i].at - x.period) && log[b] == Fired(y.id, log[j].at - y.period)
  }

  lemma {:induction false} TiedAgainInLog(log: seq<Fired>, before: seq<Fired>, target: int, x: Waiter, y: Waiter, i: nat, j: nat)
    returns (a: nat, b: nat)
    requires TieRule(log, before) && Ordered(log) && TiedAgain(log, x, y, i, j)
    requires FiresOnTime(log, x, target) && FiresOnTime(log, y, target)
    ensures TicksBefore(log, x, y, i, j, a, b) && x.period <= y.period
  {
    a := PreviousTick(log, x, target, i);
    b := PreviousTick(log, y, target, j);
    MoreRecentTick(log, before, i, j, a, b);
  }

  /** What a caller can tell before the call, in every life of a clock: of two
      tickers that fire at the same time and have both fired earlier in the same
      advance, the one with the shorter period goes first; with one period they
      fire in the opposite order of the tick before. */
  lemma {:induction false} ShorterPeriodFirst(l: Life, d: Duration, x: Waiter, y: Waiter, i: nat, j: nat)
    returns (a: nat, b: nat)
    requires InTieOrder(l) && x in l.clock.waiters && y in l.clock.waiters
    requires TiedAgain(Play(l.clock.waiters, l.clock.now + d).log, x, y, i, j)
    ensures x.period <= y.period
    ensures TicksBefore(Play(l.clock.waiters, l.clock.now + d).log, x, y, i, j, a, b)
  {
    var ws, target := l.clock.waiters, l.clock.now + d;
    OnTime(ws, target, x);
    OnTime(ws, target, y);
    PlayTies(ws, target, l.fired);
    LogOrdered(ws, target);
    a, b := TiedAgainInLog(Play(ws, target).log, l.fired, target, x, y, i, j);
  }

  lemma LogOrdered(ws: seq<Waiter>, target: int)
    ensures Ordered(Play(ws, target).log)
  {
    var low := LowerBound(ws);
    PlayOrdered(ws, target, low);
  }

  lemma {:induction false} LowerBound(ws: seq<Waiter>) returns (low: int)
    ensures NotBefore(ws, low)
  {
    low := 0;
    if ws != [] {
      low := LowerBound(ws[1..]);
      low := Min(low, ws[0].at);
    }
  }

  lemma {:induction false} MoreRecentTick(log: seq<Fired>, before: seq<Fired>, i: nat, j: nat, a: nat, b: nat)
    requires TieRule(log, before) && Ordered(log) && i < j < |log| && log[i].at == log[j].at
    requires a < i && LastFiring(log[..i], log[i].id) == Some(a)
    requires b < j && LastFiring(log[..j], log[j].id) == Some(b) && log[b].at < log[j].at
    ensures b < a && log[b].at <= log[a].at
  {
    assert b < i;
    LastFiringSooner(log[..j], log[j].id, i);
    assert log[..j][..i] == log[..i];
    LastFiringLater(before, log[..i], log[i].id);
    LastFiringLater(before, log[..i], log[j].id);
  }

  // ------------------------------------------------------------------ witness

  lemma SortPair(x: Waiter, y: Waiter)
    ensures StableSort([x, y]) == if x.at <= y.at then [x, y] else [y, x]
  {
    assert [x, y][1..] == [y] && [y][1..] == [];
    assert Insert(x, []) == [x] && StableSort([y]) == [y];
    assert Insert(x, [y]) == if x.at <= y.at then [x] + [y] else [y] + [x];
  }

  /** `log` is one firing of `w`, then `rest`. */
  predicate FiresFirst(w: Waiter, log: seq<Fired>, rest: seq<Fired>) {
    log == [Fired(w.id, w.at)] + rest
  }

  /** One firing of a slice of two tickers. */
  lemma {:induction false} OneOfTwo(x: Waiter, y: Waiter, target: int)
    requires x.period > 0 && y.period > 0 && Min(x.at, y.at) <= target
    ensures if x.at <= y.at then FiresFirst(x, Play([x, y], target).log, Play([Next(x), y], target).log)
            else FiresFirst(y, Play([x, y], target).log, Play([Next(y), x], target).log)
  {
    SortPair(x, y);
    PlayUnfolds([x, y], target);
    assert Rescheduled([x, y]) == [Next(x), y] && Rescheduled([y, x]) == [Next(y), x];
  }

  lemma FiresTwo(x: Waiter, y: Waiter, log: seq<Fired>, later: seq<Fired>, rest: seq<Fired>)
    requires FiresFirst(x, log, later) && FiresFirst(y, later, rest)
    ensures log == [Fired(x.id, x.at), Fired(y.id, y.at)] + rest
  {
  }

  /** Two tickers due together with one period change places every time. */
  lemma {:induction false} TickersSwap(x: Waiter, y: Waiter, target: int)
    requires x.at == y.at <= target && x.period == y.period > 0
    ensures Play([x, y], target).log
            == [Fired(x.id, x.at), Fired(y.id, y.at)] + Play([Next(y), Next(x)], target).log
  {
    OneOfTwo(x, y, target);
    OneOfTwo(Next(x), y, target);
    FiresTwo(x, y, Play([x, y], target).log, Play([Next(x), y], target).log, Play([Next(y), Next(x)], target).log);
  }

  lemma {:induction false} NothingDueYet(x: Waiter, y: Waiter, target: int)
    requires target < x.at && target < y.at
    ensures Play([x, y], target).log == []
  {
    SortPair(x, y);
  }

  lemma {:induction false} TwoArmed(d: Duration)
    ensures LifeOf(0, [Arm(d, d), Arm(d, d)]).clock.waiters == [Waiter(0, d, d), Waiter(1, d, d)]
  {
    var one, two := [Arm(d, d)], [Arm(d, d), Arm(d, d)];
    assert one[..0] == [] && two[..1] == one;
    assert LifeOf(0, one) == Lived(LifeOf(0, []), Arm(d, d));
    assert LifeOf(0, two) == Lived(LifeOf(0, one), Arm(d, d));
  }

  /** Hence insertion order is not kept: ticker 0, then 1, then 1, then 0. */
  lemma {:induction false} SecondTickReversed()
    ensures var c := LifeOf(0, [Arm(1, 1), Arm(1, 1)]).clock;
            Play(c.waiters, 2).log == [Fired(0, 1), Fired(1, 1), Fired(1, 2), Fired(0, 2)]
  {
    var a, b := Waiter(0, 1, 1), Waiter(1, 1, 1);
    TwoArmed(1);
    TickersSwap(a, b, 2);
    TickersSwap(Next(b), Next(a), 2);
    NothingDueYet(Next(Next(a)), Next(Next(b)), 2);
  }
}
