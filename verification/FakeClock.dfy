/** The discrete-event clock (internal/clock/fake.go): one-shot timers and
    tickers fired in deadline order by Advance.  A waiter is identified by a
    number; `chans` holds what sits in its one-slot channel, also after it was
    disarmed. */
module FakeClock {
  import opened Prelude
  import opened Arithmetic

  type Id = nat

  datatype Waiter = Waiter(id: Id, at: int, period: Duration)

  datatype Fired = Fired(id: Id, at: int)

  type Channels = map<Id, Option<int>>

  // ------------------------------------------------------------------ sorting

  /** Before the first waiter that is due no earlier. */
  function Insert(w: Waiter, ws: seq<Waiter>): seq<Waiter> {
    if ws == [] || w.at <= ws[0].at then [w] + ws else [ws[0]] + Insert(w, ws[1..])
  }

  /** sort.SliceStable by deadline. */
  function StableSort(ws: seq<Waiter>): seq<Waiter> {
    if ws == [] then [] else Insert(ws[0], StableSort(ws[1..]))
  }

  predicate Sorted(ws: seq<Waiter>) {
    forall i, j :: 0 <= i < j < |ws| ==> ws[i].at <= ws[j].at
  }

  /** The waiters due at `at`, in slice order. */
  function DueAt(ws: seq<Waiter>, at: int): seq<Waiter> {
    if ws == [] then []
    else if ws[0].at == at then [ws[0]] + DueAt(ws[1..], at)
    else DueAt(ws[1..], at)
  }

  lemma {:induction false} InsertPermutes(w: Waiter, ws: seq<Waiter>)
    ensures multiset(Insert(w, ws)) == multiset(ws) + multiset{w}
  {
    if !(ws == [] || w.at <= ws[0].at) {
      InsertPermutes(w, ws[1..]);
      assert ws == [ws[0]] + ws[1..];
    }
  }

  lemma {:induction false} SortPermutes(ws: seq<Waiter>)
    ensures multiset(StableSort(ws)) == multiset(ws)
  {
    if ws != [] {
      SortPermutes(ws[1..]);
      InsertPermutes(ws[0], StableSort(ws[1..]));
      assert ws == [ws[0]] + ws[1..];
    }
  }

  lemma SameMembers(a: seq<Waiter>, b: seq<Waiter>)
    requires multiset(a) == multiset(b)
    ensures forall x :: x in a <==> x in b
  {
    assert forall x :: x in a <==> x in multiset(a);
    assert forall x :: x in b <==> x in multiset(b);
  }

  lemma {:induction false} InsertNotBefore(w: Waiter, ws: seq<Waiter>, low: int)
    requires NotBefore(ws, low) && low <= w.at
    ensures NotBefore(Insert(w, ws), low)
  {
    if !(ws == [] || w.at <= ws[0].at) {
      InsertNotBefore(w, ws[1..], low);
    }
  }

  lemma SortedCons(w: Waiter, ws: seq<Waiter>)
    requires Sorted(ws) && NotBefore(ws, w.at)
    ensures Sorted([w] + ws)
  {
  }

  lemma {:induction false} InsertSorted(w: Waiter, ws: seq<Waiter>)
    requires Sorted(ws)
    ensures Sorted(Insert(w, ws))
  {
    if ws == [] || w.at <= ws[0].at {
      SortedCons(w, ws);
    } else {
      InsertSorted(w, ws[1..]);
      InsertNotBefore(w, ws[1..], ws[0].at);
      SortedCons(ws[0], Insert(w, ws[1..]));
    }
  }

  lemma {:induction false} SortSorted(ws: seq<Waiter>)
    ensures Sorted(StableSort(ws))
  {
    if ws != [] {
      SortSorted(ws[1..]);
      InsertSorted(ws[0], StableSort(ws[1..]));
    }
  }

  lemma {:induction false} InsertStable(w: Waiter, ws: seq<Waiter>, at: int)
    ensures DueAt(Insert(w, ws), at) == DueAt([w] + ws, at)
  {
    assert ([w] + ws)[1..] == ws;
    if !(ws == [] || w.at <= ws[0].at) {
      var tail := ws[1..];
      InsertStable(w, tail, at);
      assert ([w] + tail)[1..] == tail;
      assert ([ws[0]] + Insert(w, tail))[1..] == Insert(w, tail);
    }
  }

  /** The sort keeps the slice order of waiters due at the same time. */
  lemma {:induction false} SortStable(ws: seq<Waiter>, at: int)
    ensures DueAt(StableSort(ws), at) == DueAt(ws, at)
  {
    if ws != [] {
      var tail := ws[1..];
      SortStable(tail, at);
      InsertStable(ws[0], StableSort(tail), at);
      assert ([ws[0]] + StableSort(tail))[1..] == StableSort(tail);
    }
  }

  lemma {:induction false} SortOfSorted(ws: seq<Waiter>)
    requires Sorted(ws)
    ensures StableSort(ws) == ws
  {
    if ws != [] {
      SortOfSorted(ws[1..]);
    }
  }

  // --------------------------------------------------------------- simulation

  function Next(w: Waiter): Waiter {
    w.(at := w.at + w.period)
  }

  /** How often `w` still has to fire up to `target`. */
  function Due(w: Waiter, target: int): nat {
    if w.at > target then 0 else if w.period > 0 then (target - w.at) / w.period + 1 else 1
  }

  function TotalDue(ws: seq<Waiter>, target: int): nat {
    if ws == [] then 0 else Due(ws[0], target) + TotalDue(ws[1..], target)
  }

  lemma NextDue(w: Waiter, target: int)
    requires w.at <= target && w.period > 0
    ensures Due(Next(w), target) == Due(w, target) - 1
  {
    var d, p := target - w.at, w.period;
    var q := d / p;
    assert (q - 1) * p == q * p - p;
    QuotientIs(d - p, p, q - 1);
    if d < p {
      QuotientIs(d, p, 0);
    }
  }

  lemma {:induction false} InsertDue(w: Waiter, ws: seq<Waiter>, target: int)
    ensures TotalDue(Insert(w, ws), target) == Due(w, target) + TotalDue(ws, target)
  {
    if ws == [] || w.at <= ws[0].at {
      assert ([w] + ws)[1..] == ws;
    } else {
      InsertDue(w, ws[1..], target);
      assert ([ws[0]] + Insert(w, ws[1..]))[1..] == Insert(w, ws[1..]);
    }
  }

  lemma {:induction false} SortDue(ws: seq<Waiter>, target: int)
    ensures TotalDue(StableSort(ws), target) == TotalDue(ws, target)
  {
    if ws != [] {
      SortDue(ws[1..], target);
      InsertDue(ws[0], StableSort(ws[1..]), target);
    }
  }

  /** The slice after its head fired: a ticker moves on, a timer goes. */
  function Rescheduled(ws: seq<Waiter>): seq<Waiter>
    requires ws != []
  {
    if ws[0].period > 0 then [Next(ws[0])] + ws[1..] else ws[1..]
  }

  /** Every firing takes exactly one off the number of firings due. */
  lemma RescheduledDue(ws: seq<Waiter>, target: int)
    requires ws != [] && ws[0].at <= target
    ensures TotalDue(Rescheduled(ws), target) == TotalDue(ws, target) - 1
  {
    if ws[0].period > 0 {
      NextDue(ws[0], target);
      assert Rescheduled(ws)[1..] == ws[1..];
    }
  }

  datatype Outcome = Outcome(log: seq<Fired>, waiters: seq<Waiter>)

  /** Fire the earliest waiter, reschedule, repeat: what Advance does up to `target`. */
  function Play(ws: seq<Waiter>, target: int): Outcome
    decreases TotalDue(ws, target)
  {
    var sorted := StableSort(ws);
    if sorted == [] || sorted[0].at > target then Outcome([], sorted)
    else
      SortDue(ws, target);
      RescheduledDue(sorted, target);
      var rest := Play(Rescheduled(sorted), target);
      Outcome([Fired(sorted[0].id, sorted[0].at)] + rest.log, rest.waiters)
  }

  lemma PlayUnfolds(ws: seq<Waiter>, target: int)
    requires StableSort(ws) != [] && StableSort(ws)[0].at <= target
    ensures var sorted := StableSort(ws);
            var rest := Play(Rescheduled(sorted), target);
            && TotalDue(Rescheduled(sorted), target) < TotalDue(ws, target)
            && Play(ws, target).waiters == rest.waiters
            && Play(ws, target).log != []
            && Play(ws, target).log[0] == Fired(sorted[0].id, sorted[0].at)
            && Play(ws, target).log[1..] == rest.log
  {
    SortDue(ws, target);
    RescheduledDue(StableSort(ws), target);
  }

  /** A send into a one-slot channel; a full slot drops the tick. */
  function Sent(chans: Channels, f: Fired): Channels {
    if f.id in chans && chans[f.id] == None then chans[f.id := Some(f.at)] else chans
  }

  function Delivered(chans: Channels, log: seq<Fired>): Channels
    decreases |log|
  {
    if log == [] then chans else Delivered(Sent(chans, log[0]), log[1..])
  }

  // -------------------------------------------------------------- composition

  /** Playing a slice or its sorted form is the same. */
  lemma PlaySorted(ws: seq<Waiter>, target: int)
    ensures Play(StableSort(ws), target) == Play(ws, target)
  {
    SortSorted(ws);
    SortOfSorted(StableSort(ws));
  }

  /** `whole` is `a` followed by `b`. */
  predicate Joins(whole: Outcome, a: Outcome, b: Outcome) {
    whole.log == a.log + b.log && whole.waiters == b.waiters
  }

  lemma JoinsCons(whole: Outcome, whole': Outcome, a: Outcome, a': Outcome, b: Outcome)
    requires Joins(whole', a', b)
    requires whole.log != [] && a.log != [] && whole.log[0] == a.log[0]
    requires whole.log[1..] == whole'.log && a.log[1..] == a'.log && whole.waiters == whole'.waiters
    ensures Joins(whole, a, b)
  {
    assert whole.log == [whole.log[0]] + whole'.log && a.log == [a.log[0]] + a'.log;
    assert [a.log[0]] + (a'.log + b.log) == ([a.log[0]] + a'.log) + b.log;
  }

  lemma {:induction false} PlayComposes(ws: seq<Waiter>, t1: int, t2: int)
    requires t1 <= t2
    ensures Joins(Play(ws, t2), Play(ws, t1), Play(Play(ws, t1).waiters, t2))
    decreases TotalDue(ws, t1)
  {
    var sorted := StableSort(ws);
    if sorted == [] || sorted[0].at > t1 {
      PlaySorted(ws, t2);
      assert [] + Play(ws, t2).log == Play(ws, t2).log;
    } else {
      PlayUnfolds(ws, t1);
      PlayUnfolds(ws, t2);
      var rest := Rescheduled(sorted);
      PlayComposes(rest, t1, t2);
      JoinsCons(Play(ws, t2), Play(rest, t2), Play(ws, t1), Play(rest, t1), Play(Play(rest, t1).waiters, t2));
    }
  }

  lemma {:induction false} DeliveredConcat(chans: Channels, a: seq<Fired>, b: seq<Fired>)
    ensures Delivered(chans, a + b) == Delivered(Delivered(chans, a), b)
    decreases |a|
  {
    if a == [] {
      assert a + b == b;
    } else {
      assert (a + b)[1..] == a[1..] + b;
      DeliveredConcat(Sent(chans, a[0]), a[1..], b);
    }
  }

  // ------------------------------------------------------------ firing order

  predicate Ordered(log: seq<Fired>) {
    forall i, j :: 0 <= i < j < |log| ==> log[i].at <= log[j].at
  }

  predicate NotBefore(ws: seq<Waiter>, low: int) {
    forall w :: w in ws ==> low <= w.at
  }

  lemma SortedHeadFirst(ws: seq<Waiter>, low: int)
    requires NotBefore(ws, low)
    ensures var sorted := StableSort(ws);
            && NotBefore(sorted, low)
            && (sorted != [] ==> low <= sorted[0].at && NotBefore(sorted, sorted[0].at))
  {
    SortSorted(ws);
    SortPermutes(ws);
    SameMembers(ws, StableSort(ws));
  }

  lemma RescheduledNotBefore(ws: seq<Waiter>)
    requires ws != [] && NotBefore(ws, ws[0].at)
    ensures NotBefore(Rescheduled(ws), ws[0].at)
  {
  }

  /** Firings come in deadline order and none after the target. */
  lemma {:induction false} PlayOrdered(ws: seq<Waiter>, target: int, low: int)
    requires NotBefore(ws, low)
    ensures Ordered(Play(ws, target).log)
    ensures forall i :: 0 <= i < |Play(ws, target).log| ==> low <= Play(ws, target).log[i].at <= target
    decreases TotalDue(ws, target)
  {
    var sorted := StableSort(ws);
    SortedHeadFirst(ws, low);
    if !(sorted == [] || sorted[0].at > target) {
      PlayUnfolds(ws, target);
      RescheduledNotBefore(sorted);
      PlayOrdered(Rescheduled(sorted), target, sorted[0].at);
    }
  }

  /** There are exactly as many firings as were due, and whoever stays armed is
      due later; the slice is left sorted. */
  lemma {:induction false} PlayComplete(ws: seq<Waiter>, target: int)
    ensures var out := Play(ws, target);
            |out.log| == TotalDue(ws, target) && Sorted(out.waiters) && NotBefore(out.waiters, target + 1)
    decreases TotalDue(ws, target)
  {
    var sorted := StableSort(ws);
    SortDue(ws, target);
    SortSorted(ws);
    if sorted == [] || sorted[0].at > target {
      NothingDue(sorted, target);
    } else {
      PlayUnfolds(ws, target);
      RescheduledDue(sorted, target);
      PlayComplete(Rescheduled(sorted), target);
    }
  }

  lemma {:induction false} NothingDue(ws: seq<Waiter>, target: int)
    requires NotBefore(ws, target + 1)
    ensures TotalDue(ws, target) == 0
  {
    if ws != [] {
      NothingDue(ws[1..], target);
    }
  }

  // ------------------------------------------------------ each waiter by itself

  /** The deadlines `w` alone would meet up to `target`. */
  function Expected(w: Waiter, target: int): seq<int>
    decreases Due(w, target)
  {
    if w.at > target then []
    else if w.period > 0 then
      NextDue(w, target);
      [w.at] + Expected(Next(w), target)
    else [w.at]
  }

  /** Where `w` alone would stand after `target`, if still armed. */
  function Settled(w: Waiter, target: int): Option<Waiter>
    decreases Due(w, target)
  {
    if w.at > target then Some(w)
    else if w.period > 0 then
      NextDue(w, target);
      Settled(Next(w), target)
    else None
  }

  function FiringsOf(log: seq<Fired>, id: Id): seq<int> {
    if log == [] then []
    else if log[0].id == id then [log[0].at] + FiringsOf(log[1..], id)
    else FiringsOf(log[1..], id)
  }

  function Ids(ws: seq<Waiter>): multiset<Id> {
    if ws == [] then multiset{} else multiset{ws[0].id} + Ids(ws[1..])
  }

  ghost predicate Distinct(ws: seq<Waiter>) {
    forall id :: Ids(ws)[id] <= 1
  }

  lemma {:induction false} InsertIds(w: Waiter, ws: seq<Waiter>)
    ensures Ids(Insert(w, ws)) == multiset{w.id} + Ids(ws)
  {
    if ws == [] || w.at <= ws[0].at {
      assert ([w] + ws)[1..] == ws;
    } else {
      InsertIds(w, ws[1..]);
      assert ([ws[0]] + Insert(w, ws[1..]))[1..] == Insert(w, ws[1..]);
    }
  }

  lemma {:induction false} SortIds(ws: seq<Waiter>)
    ensures Ids(StableSort(ws)) == Ids(ws)
  {
    if ws != [] {
      SortIds(ws[1..]);
      InsertIds(ws[0], StableSort(ws[1..]));
    }
  }

  lemma {:induction false} IdsOf(ws: seq<Waiter>, id: Id)
    ensures Ids(ws)[id] > 0 <==> exists w :: w in ws && w.id == id
  {
    if ws != [] {
      IdsOf(ws[1..], id);
      assert forall w :: w in ws <==> w == ws[0] || w in ws[1..];
    }
  }

  lemma RescheduledIds(ws: seq<Waiter>)
    requires ws != []
    ensures Ids(Rescheduled(ws)) == if ws[0].period > 0 then Ids(ws) else Ids(ws) - multiset{ws[0].id}
  {
    if ws[0].period > 0 {
      assert Rescheduled(ws)[1..] == ws[1..];
    }
  }

  lemma HeadIsItself(ws: seq<Waiter>, w: Waiter)
    requires ws != [] && Distinct(ws) && w in ws && w.id == ws[0].id
    ensures w == ws[0]
  {
    assert Ids(ws)[w.id] == 1 + Ids(ws[1..])[w.id];
    IdsOf(ws[1..], w.id);
  }

  /** One firing, seen by one id. */
  lemma PlayStep(ws: seq<Waiter>, target: int, id: Id)
    requires ws != [] && StableSort(ws) != [] && StableSort(ws)[0].at <= target
    ensures var sorted := StableSort(ws);
            var next := Rescheduled(sorted);
            && TotalDue(next, target) < TotalDue(ws, target)
            && Play(ws, target).waiters == Play(next, target).waiters
            && FiringsOf(Play(ws, target).log, id)
               == (if sorted[0].id == id then [sorted[0].at] else []) + FiringsOf(Play(next, target).log, id)
  {
    PlayUnfolds(ws, target);
  }

  /** An id that is not armed never fires and stays away. */
  lemma {:induction false} StrangerSilent(ws: seq<Waiter>, target: int, id: Id)
    requires Ids(ws)[id] == 0
    ensures FiringsOf(Play(ws, target).log, id) == []
    ensures Ids(Play(ws, target).waiters)[id] == 0
    decreases TotalDue(ws, target)
  {
    var sorted := StableSort(ws);
    SortIds(ws);
    if !(sorted == [] || sorted[0].at > target) {
      PlayStep(ws, target, id);
      RescheduledIds(sorted);
      assert Ids(sorted)[sorted[0].id] > 0;
      StrangerSilent(Rescheduled(sorted), target, id);
    }
  }

  predicate PlaysAlone(out: Outcome, target: int, w: Waiter) {
    && FiringsOf(out.log, w.id) == Expected(w, target)
    && match Settled(w, target)
       case Some(x) => x in out.waiters
       case None => Ids(out.waiters)[w.id] == 0
  }

  lemma HeadStays(ws: seq<Waiter>, w: Waiter)
    requires ws != [] && w in ws && w.id != ws[0].id
    ensures w in Rescheduled(ws)
  {
    assert w in ws[1..];
  }

  lemma AloneFromNext(out: Outcome, rest: Outcome, target: int, head: Waiter, w: Waiter)
    requires out.waiters == rest.waiters && head.at <= target
    requires FiringsOf(out.log, w.id) == (if head.id == w.id then [head.at] else []) + FiringsOf(rest.log, w.id)
    requires if w.id != head.id then PlaysAlone(rest, target, w)
             else if w.period > 0 then w == head && PlaysAlone(rest, target, Next(w))
             else w == head && FiringsOf(rest.log, w.id) == [] && Ids(rest.waiters)[w.id] == 0
    ensures PlaysAlone(out, target, w)
  {
    if w.id != head.id {
      assert [] + FiringsOf(rest.log, w.id) == FiringsOf(rest.log, w.id);
    }
  }

  lemma SortedHas(ws: seq<Waiter>, w: Waiter)
    requires Distinct(ws) && w in ws
    ensures w in StableSort(ws) && StableSort(ws)[0].at <= w.at && Distinct(StableSort(ws))
  {
    SortIds(ws);
    SortPermutes(ws);
    SameMembers(ws, StableSort(ws));
    SortSorted(ws);
  }

  lemma RescheduledDistinct(ws: seq<Waiter>)
    requires ws != [] && Distinct(ws)
    ensures Distinct(Rescheduled(ws))
    ensures ws[0].period <= 0 ==> Ids(Rescheduled(ws))[ws[0].id] == 0
  {
    RescheduledIds(ws);
    assert Ids(ws)[ws[0].id] <= 1;
  }

  /** Among any other waiters each one fires exactly when it would alone and
      ends up where it would alone. */
  lemma {:induction false} PlayPerWaiter(ws: seq<Waiter>, target: int, w: Waiter)
    requires Distinct(ws) && w in ws
    ensures PlaysAlone(Play(ws, target), target, w)
    decreases TotalDue(ws, target)
  {
    var sorted := StableSort(ws);
    SortedHas(ws, w);
    if sorted[0].at <= target {
      PlayStep(ws, target, w.id);
      RescheduledDistinct(sorted);
      var next := Rescheduled(sorted);
      if w.id != sorted[0].id {
        HeadStays(sorted, w);
        PlayPerWaiter(next, target, w);
      } else {
        HeadIsItself(sorted, w);
        if w.period > 0 {
          assert next[0] == Next(w) && Next(w) in next;
          PlayPerWaiter(next, target, Next(w));
        } else {
          StrangerSilent(next, target, w.id);
        }
      }
      AloneFromNext(Play(ws, target), Play(next, target), target, sorted[0], w);
    }
  }

  lemma {:induction false} PlayDistinct(ws: seq<Waiter>, target: int)
    requires Distinct(ws)
    ensures Distinct(Play(ws, target).waiters)
    decreases TotalDue(ws, target)
  {
    var sorted := StableSort(ws);
    SortIds(ws);
    if !(sorted == [] || sorted[0].at > target) {
      PlayUnfolds(ws, target);
      RescheduledDistinct(sorted);
      PlayDistinct(Rescheduled(sorted), target);
    }
  }

  /** The k-th point of a ticker's period grid. */
  function GridPoint(w: Waiter, k: nat): int
    decreases k
  {
    if k == 0 then w.at else GridPoint(Next(w), k - 1)
  }

  lemma {:induction false} GridIsArithmetic(w: Waiter, k: nat)
    ensures GridPoint(w, k) == w.at + k * w.period
    decreases k
  {
    if k > 0 {
      GridIsArithmetic(Next(w), k - 1);
      TimesSucc(w.period, k - 1);
    }
  }

  lemma {:induction false} SettledOnGrid(w: Waiter, target: int)
    requires w.period > 0
    ensures Settled(w, target) == Some(w.(at := GridPoint(w, Due(w, target))))
    ensures target < GridPoint(w, Due(w, target))
    decreases Due(w, target)
  {
    if w.at <= target {
      NextDue(w, target);
      SettledOnGrid(Next(w), target);
    }
  }

  lemma {:induction false} ExpectedOnGrid(w: Waiter, target: int, k: nat)
    requires w.period > 0 && k < Due(w, target)
    ensures |Expected(w, target)| == Due(w, target)
    ensures Expected(w, target)[k] == GridPoint(w, k) <= target
    decreases Due(w, target)
  {
    NextDue(w, target);
    if k > 0 {
      ExpectedOnGrid(Next(w), target, k - 1);
    } else if Due(w, target) > 1 {
      ExpectedOnGrid(Next(w), target, 0);
    }
  }

  /** A ticker's firings are the points at + k * period up to the target, and it
      is left at the least such point after the target. */
  lemma {:induction false} TickerGrid(w: Waiter, target: int)
    requires w.period > 0
    ensures |Expected(w, target)| == Due(w, target)
    ensures forall k :: 0 <= k < Due(w, target) ==> Expected(w, target)[k] == w.at + k * w.period <= target
    ensures Settled(w, target) == Some(w.(at := w.at + Due(w, target) * w.period))
    ensures target < w.at + Due(w, target) * w.period
  {
    SettledOnGrid(w, target);
    GridIsArithmetic(w, Due(w, target));
    forall k | 0 <= k < Due(w, target)
      ensures |Expected(w, target)| == Due(w, target) && Expected(w, target)[k] == w.at + k * w.period <= target
    {
      ExpectedOnGrid(w, target, k);
      GridIsArithmetic(w, k);
    }
    if Due(w, target) > 0 {
      ExpectedOnGrid(w, target, 0);
    }
  }

  lemma {:induction false} DeliveredPerId(chans: Channels, log: seq<Fired>, id: Id)
    requires id in chans
    ensures id in Delivered(chans, log)
    ensures Delivered(chans, log)[id] ==
              if chans[id].Some? || FiringsOf(log, id) == [] then chans[id] else Some(FiringsOf(log, id)[0])
    decreases |log|
  {
    if log != [] {
      DeliveredPerId(Sent(chans, log[0]), log[1..], id);
    }
  }

  // -------------------------------------------------------------------- clock

  datatype State = State(now: int, waiters: seq<Waiter>, chans: Channels, nextId: Id)

  function Advanced(s: State, d: Duration): State {
    var out := Play(s.waiters, s.now + d);
    s.(now := s.now + d, waiters := out.waiters, chans := Delivered(s.chans, out.log))
  }

  /** Two advances in a row are one: same firings, same armed waiters in the same
      slice order, same channel contents, same time. */
  lemma AdvanceComposes(s: State, a: Duration, b: Duration)
    requires b >= 0
    ensures Advanced(Advanced(s, a), b) == Advanced(s, a + b)
    ensures Play(s.waiters, s.now + a).log + Play(Advanced(s, a).waiters, s.now + a + b).log
            == Play(s.waiters, s.now + a + b).log
  {
    PlayComposes(s.waiters, s.now + a, s.now + a + b);
    var one := Play(s.waiters, s.now + a);
    DeliveredConcat(s.chans, one.log, Play(one.waiters, s.now + a + b).log);
  }

  /** Ids are unique, below the counter and own a channel each. */
  ghost predicate WellFormed(s: State) {
    && Distinct(s.waiters)
    && (forall w :: w in s.waiters ==> w.id < s.nextId)
    && (forall id: Id :: id in s.chans <==> id < s.nextId)
  }

  lemma {:induction false} DeliveredKeys(chans: Channels, log: seq<Fired>)
    ensures Delivered(chans, log).Keys == chans.Keys
    decreases |log|
  {
    if log != [] {
      DeliveredKeys(Sent(chans, log[0]), log[1..]);
    }
  }

  lemma SurvivorWasArmed(ws: seq<Waiter>, target: int, x: Waiter)
    requires x in Play(ws, target).waiters
    ensures exists w :: w in ws && w.id == x.id
  {
    IdsOf(Play(ws, target).waiters, x.id);
    if Ids(ws)[x.id] == 0 {
      StrangerSilent(ws, target, x.id);
    }
    IdsOf(ws, x.id);
  }

  lemma AdvanceWellFormed(s: State, d: Duration)
    requires WellFormed(s)
    ensures WellFormed(Advanced(s, d))
  {
    var out := Play(s.waiters, s.now + d);
    PlayDistinct(s.waiters, s.now + d);
    DeliveredKeys(s.chans, out.log);
    forall x | x in out.waiters
      ensures x.id < s.nextId
    {
      SurvivorWasArmed(s.waiters, s.now + d, x);
    }
  }

  /** What one armed waiter sees of an Advance, independently of all others: its
      slot, if free, takes its first deadline up to the new time; a ticker moves
      on along its grid past the new time; a timer that fired is disarmed. */
  lemma AdvancePerWaiter(s: State, d: Duration, w: Waiter)
    requires WellFormed(s) && w in s.waiters
    ensures var end, target := Advanced(s, d), s.now + d;
            && end.now == target
            && w.id in end.chans
            && end.chans[w.id] == (if s.chans[w.id] == None && w.at <= target then Some(w.at) else s.chans[w.id])
            && (w.at > target ==> w in end.waiters)
            && (w.at <= target && w.period > 0 ==>
                  w.(at := w.at + Due(w, target) * w.period) in end.waiters)
            && (w.at <= target && w.period <= 0 ==> Ids(end.waiters)[w.id] == 0)
  {
    var target := s.now + d;
    var out := Play(s.waiters, target);
    PlayPerWaiter(s.waiters, target, w);
    DeliveredPerId(s.chans, out.log, w.id);
    if w.period > 0 {
      TickerGrid(w, target);
    }
  }

  /** The slice without the first waiter carrying `id`. */
  function Removed(ws: seq<Waiter>, id: Id): seq<Waiter> {
    if ws == [] then [] else if ws[0].id == id then ws[1..] else [ws[0]] + Removed(ws[1..], id)
  }

  lemma {:induction false} RemovedAt(ws: seq<Waiter>, i: nat, id: Id)
    requires i < |ws| && ws[i].id == id
    requires forall k :: 0 <= k < i ==> ws[k].id != id
    ensures Removed(ws, id) == ws[..i] + ws[i + 1..]
  {
    if i == 0 {
      assert ws[..0] + ws[1..] == ws[1..];
    } else {
      var head, tail := ws[0], ws[1..];
      assert tail[i - 1] == ws[i] && forall k :: 0 <= k < i - 1 ==> tail[k] == ws[k + 1];
      RemovedAt(tail, i - 1, id);
      WithoutElement(ws, i);
    }
  }

  lemma WithoutElement(ws: seq<Waiter>, i: nat)
    requires 0 < i < |ws|
    ensures [ws[0]] + (ws[1..][..i - 1] + ws[1..][i..]) == ws[..i] + ws[i + 1..]
  {
  }

  lemma {:induction false} RemovedAbsent(ws: seq<Waiter>, id: Id)
    requires forall k :: 0 <= k < |ws| ==> ws[k].id != id
    ensures Removed(ws, id) == ws
  {
    if ws != [] {
      RemovedAbsent(ws[1..], id);
    }
  }

  lemma {:induction false} RemovedIds(ws: seq<Waiter>, id: Id)
    ensures Ids(Removed(ws, id)) == Ids(ws) - multiset{id}
  {
    if ws != [] && ws[0].id != id {
      RemovedIds(ws[1..], id);
      assert ([ws[0]] + Removed(ws[1..], id))[1..] == Removed(ws[1..], id);
    }
  }

  /** Disarming takes out that waiter and nobody else. */
  lemma {:induction false} RemovedKeeps(ws: seq<Waiter>, id: Id, w: Waiter)
    ensures w in Removed(ws, id) ==> w in ws
    ensures w in ws && w.id != id ==> w in Removed(ws, id)
  {
    if ws != [] && ws[0].id != id {
      RemovedKeeps(ws[1..], id, w);
    }
  }

  /** Due first, and among those due together first in the slice. */
  predicate IsEarliest(w: Option<Waiter>, ws: seq<Waiter>) {
    match w
    case None => ws == []
    case Some(x) => x in ws && NotBefore(ws, x.at) && DueAt(ws, x.at) != [] && DueAt(ws, x.at)[0] == x
  }

  lemma {:induction false} EarliestIsHead(ws: seq<Waiter>)
    ensures var sorted := StableSort(ws);
            IsEarliest(if sorted == [] then None else Some(sorted[0]), ws)
  {
    var sorted := StableSort(ws);
    SortSorted(ws);
    SortPermutes(ws);
    SameMembers(ws, sorted);
    if sorted != [] {
      SortStable(ws, sorted[0].at);
    }
  }

  lemma {:induction false} ArmedCount(ws: seq<Waiter>)
    requires Distinct(ws)
    ensures |set w | w in ws :: w.id| == |ws|
  {
    if ws != [] {
      var head, rest := ws[0], ws[1..];
      assert Ids(ws) == multiset{head.id} + Ids(rest);
      forall id
        ensures Ids(rest)[id] <= 1
      {
        assert Ids(ws)[id] <= 1;
      }
      ArmedCount(rest);
      assert Ids(ws)[head.id] <= 1;
      IdsOf(rest, head.id);
      assert (set w | w in ws :: w.id) == (set w | w in rest :: w.id) + {head.id};
    }
  }

  /** Playing on from here up to `target` ends in the waiters and channels of `end`. */
  predicate LeadsTo(ws: seq<Waiter>, chans: Channels, target: int, end: State) {
    var out := Play(ws, target);
    out.waiters == end.waiters && Delivered(chans, out.log) == end.chans
  }

  lemma {:induction false} FiringLeadsOn(ws: seq<Waiter>, chans: Channels, target: int, end: State)
    requires LeadsTo(ws, chans, target, end)
    requires StableSort(ws) != [] && StableSort(ws)[0].at <= target
    ensures var sorted := StableSort(ws);
            && LeadsTo(Rescheduled(sorted), Sent(chans, Fired(sorted[0].id, sorted[0].at)), target, end)
            && TotalDue(Rescheduled(sorted), target) < TotalDue(ws, target)
  {
    PlayUnfolds(ws, target);
  }

  lemma {:induction false} NothingLeft(ws: seq<Waiter>, chans: Channels, target: int, end: State)
    requires LeadsTo(ws, chans, target, end)
    requires StableSort(ws) == [] || StableSort(ws)[0].at > target
    ensures StableSort(ws) == end.waiters && chans == end.chans
  {
  }

  class FakeClock {
    var now: int
    var waiters: seq<Waiter>
    var chans: Channels
    var nextId: Id

    function Abs(): State
      reads this
    {
      State(now, waiters, chans, nextId)
    }

    ghost predicate Valid()
      reads this
    {
      WellFormed(Abs())
    }

    constructor (start: int)
      ensures Valid() && Abs() == State(start, [], map[], 0)
    {
      now, waiters, chans, nextId := start, [], map[], 0;
    }

    /** How many different timers and tickers are armed. */
    method Pending() returns (n: nat)
      requires Valid()
      ensures n == |set w | w in waiters :: w.id|
    {
      ArmedCount(waiters);
      return |waiters|;
    }

    /** A ticker, or None where the source panics on a non-positive interval. */
    method NewTicker(d: Duration) returns (id: Option<Id>)
      requires Valid()
      modifies this
      ensures Valid()
      ensures id.Some? <==> d > 0
      ensures d <= 0 ==> Abs() == old(Abs())
      ensures d > 0 ==>
                && id.value == old(nextId)
                && Abs() == old(State(now, waiters + [Waiter(nextId, now + d, d)], chans[nextId := None], nextId + 1))
    {
      if d <= 0 {
        return None;
      }
      var fresh' := Add(d, d);
      return Some(fresh');
    }

    /** Arms a waiter: After and NewTimer with period 0, NewTicker with period d. */
    method Add(d: Duration, period: Duration) returns (id: Id)
      requires Valid()
      modifies this
      ensures Valid()
      ensures Abs() == old(State(now, waiters + [Waiter(nextId, now + d, period)], chans[nextId := None], nextId + 1))
      ensures id == old(nextId) && id !in old(chans)
    {
      id := nextId;
      AddWellFormed(Abs(), Waiter(id, now + d, period));
      waiters := waiters + [Waiter(id, now + d, period)];
      chans := chans[id := None];
      nextId := nextId + 1;
    }

    /** The waiter due first, and among those due together the one that came first
        in the slice.  Sorts the slice on the way. */
    method Earliest() returns (w: Option<Waiter>)
      modifies this`waiters
      ensures waiters == StableSort(old(waiters))
      ensures w == if waiters == [] then None else Some(waiters[0])
      ensures IsEarliest(w, old(waiters))
    {
      EarliestIsHead(waiters);
      waiters := StableSort(waiters);
      return if waiters == [] then None else Some(waiters[0]);
    }

    method Remove(id: Id) returns (armed: bool)
      modifies this`waiters
      ensures waiters == Removed(old(waiters), id)
      ensures armed <==> exists w :: w in old(waiters) && w.id == id
    {
      for i := 0 to |waiters|
        invariant waiters == old(waiters)
        invariant forall k :: 0 <= k < i ==> waiters[k].id != id
      {
        if waiters[i].id == id {
          RemovedAt(waiters, i, id);
          waiters := waiters[..i] + waiters[i + 1..];
          return true;
        }
      }
      RemovedAbsent(waiters, id);
      return false;
    }

    /** Timer.Stop and Ticker.Stop. */
    method Stop(id: Id) returns (armed: bool)
      requires Valid()
      modifies this`waiters
      ensures Valid() && waiters == Removed(old(waiters), id)
      ensures armed <==> exists w :: w in old(waiters) && w.id == id
      ensures forall w :: w in waiters ==> w.id != id
      ensures forall w :: w in old(waiters) && w.id != id ==> w in waiters
    {
      RemoveWellFormed(Abs(), id);
      forall w | w in waiters && w.id != id
        ensures w in Removed(waiters, id)
      {
        RemovedKeeps(waiters, id, w);
      }
      armed := Remove(id);
    }

    /** The body of the loop: the head of the sorted slice fires. */
    method FireHead()
      requires waiters != []
      modifies this`now, this`waiters, this`chans
      ensures now == old(waiters)[0].at
      ensures chans == Sent(old(chans), Fired(old(waiters)[0].id, now))
      ensures waiters == Rescheduled(old(waiters))
    {
      var w := waiters[0];
      now := w.at;
      if w.id in chans && chans[w.id] == None {
        chans := chans[w.id := Some(w.at)];
      }
      if w.period > 0 {
        waiters := waiters[0 := Next(w)];
      } else {
        var _ := Remove(w.id);
      }
    }

    /** One round of the loop: the earliest waiter fires unless it is due after
        `target`.  Every round stays on the way to the same end. */
    method FireNext(target: int, ghost end: State) returns (fired: bool)
      requires LeadsTo(waiters, chans, target, end)
      modifies this`now, this`waiters, this`chans
      ensures fired ==> LeadsTo(waiters, chans, target, end) && TotalDue(waiters, target) < old(TotalDue(waiters, target))
      ensures !fired ==> waiters == end.waiters && chans == end.chans
    {
      ghost var before := waiters;
      var w := Earliest();
      if w == None || w.value.at > target {
        NothingLeft(before, chans, target, end);
        return false;
      }
      FiringLeadsOn(before, chans, target, end);
      FireHead();
      return true;
    }

    method Advance(d: Duration)
      requires Valid()
      modifies this
      ensures Valid() && Abs() == Advanced(old(Abs()), d)
    {
      var target := now + d;
      ghost var end := Advanced(Abs(), d);
      var fired := true;
      while fired
        invariant fired ==> LeadsTo(waiters, chans, target, end)
        invariant !fired ==> waiters == end.waiters && chans == end.chans
        invariant nextId == old(nextId)
        decreases fired, TotalDue(waiters, target)
      {
        fired := FireNext(target, end);
      }
      now := target;
      AdvanceWellFormed(old(Abs()), d);
    }
  }

  lemma {:induction false} AddedIds(ws: seq<Waiter>, w: Waiter)
    ensures Ids(ws + [w]) == Ids(ws) + multiset{w.id}
  {
    if ws != [] {
      assert (ws + [w])[1..] == ws[1..] + [w];
      AddedIds(ws[1..], w);
    }
  }

  lemma AddWellFormed(s: State, w: Waiter)
    requires WellFormed(s) && w.id == s.nextId
    ensures WellFormed(State(s.now, s.waiters + [w], s.chans[w.id := None], s.nextId + 1))
  {
    AddedIds(s.waiters, w);
    IdsOf(s.waiters, w.id);
  }

  lemma RemoveWellFormed(s: State, id: Id)
    requires WellFormed(s)
    ensures WellFormed(s.(waiters := Removed(s.waiters, id)))
    ensures forall w :: w in Removed(s.waiters, id) ==> w.id != id
  {
    var ws := Removed(s.waiters, id);
    RemovedIds(s.waiters, id);
    assert Ids(s.waiters)[id] <= 1;
    IdsOf(ws, id);
    forall w | w in ws
      ensures w in s.waiters
    {
      RemovedKeeps(s.waiters, id, w);
    }
  }
}
