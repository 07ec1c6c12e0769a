/**
 * Sums of real weights over finite sets, as the aggregations add up the
 * values of a dict whose iteration order does not change the total.
 */
module Sums {

  /** The sum of `w(x)` over the elements `x` of `s`. */
  ghost function SumSet<T(!new)>(s: set<T>, w: T -> real): real
    decreases |s|
  {
    if s == {} then 0.0
    else
      var x :| x in s;
      w(x) + SumSet(s - {x}, w)
  }

  /** Any element can be taken out first. */
  lemma {:induction false} SumSetPick<T(!new)>(s: set<T>, w: T -> real, y: T)
    requires y in s
    ensures SumSet(s, w) == w(y) + SumSet(s - {y}, w)
    decreases |s|
  {
    var x :| x in s && SumSet(s, w) == w(x) + SumSet(s - {x}, w);
    if x != y {
      SumSetPick(s - {x}, w, y);
      SumSetPick(s - {y}, w, x);
      assert s - {x} - {y} == s - {y} - {x};
    }
  }

  /** Adding a new element adds its weight. */
  lemma SumSetAdd<T(!new)>(s: set<T>, w: T -> real, y: T)
    requires y !in s
    ensures SumSet(s + {y}, w) == SumSet(s, w) + w(y)
  {
    SumSetPick(s + {y}, w, y);
    assert s + {y} - {y} == s;
  }

  /** Only the weights of the members matter. */
  lemma {:induction false} SumSetCongruent<T(!new)>(s: set<T>, v: T -> real, w: T -> real)
    requires forall x :: x in s ==> v(x) == w(x)
    ensures SumSet(s, v) == SumSet(s, w)
    decreases |s|
  {
    if s != {} {
      var x :| x in s;
      SumSetPick(s, v, x);
      SumSetPick(s, w, x);
      SumSetCongruent(s - {x}, v, w);
    }
  }

  /** Weights that are zero everywhere sum to zero. */
  lemma {:induction false} SumSetZero<T(!new)>(s: set<T>, w: T -> real)
    requires forall x :: x in s ==> w(x) == 0.0
    ensures SumSet(s, w) == 0.0
    decreases |s|
  {
    if s != {} {
      var x :| x in s;
      SumSetPick(s, w, x);
      SumSetZero(s - {x}, w);
    }
  }
}
