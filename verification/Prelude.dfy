/** Shared vocabulary: optional values and the integer clock of the model. */
module Prelude {

  datatype Option<+T> = None | Some(value: T)

  /** Nanoseconds since Go's zero time, so an unset time.Time is 0. */
  type Time = nat

  /** A time.Duration in nanoseconds; unbounded, may be negative. */
  type Duration = int

  function Min(a: int, b: int): int {
    if a <= b then a else b
  }

  function Max(a: int, b: int): int {
    if a <= b then b else a
  }

  /** 1 for true, 0 for false. */
  function Indicator(b: bool): nat {
    if b then 1 else 0
  }

  /** A sequence without repetitions has as many elements as its set. */
  lemma {:induction false} DistinctCount<T>(s: seq<T>)
    requires forall i, j :: 0 <= i < j < |s| ==> s[i] != s[j]
    ensures |set x | x in s| == |s|
  {
    if s != [] {
      var n := |s| - 1;
      DistinctCount(s[..n]);
      assert (set x | x in s) == (set x | x in s[..n]) + {s[n]};
    }
  }

  /** The positions that hold true. */
  function Trues(bs: seq<bool>): set<nat> {
    set i | 0 <= i < |bs| && bs[i]
  }

  lemma TruesSnoc(bs: seq<bool>, b: bool)
    ensures |Trues(bs + [b])| == |Trues(bs)| + Indicator(b)
  {
    assert Trues(bs + [b]) == Trues(bs) + if b then {|bs|} else {};
  }
}
