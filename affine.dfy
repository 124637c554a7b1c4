/** The affine map between a real interval [lo, hi] and positions in [0, 1] that every
    continuous parameter uses, directly or in log space. The interval may be descending. */
module Affine {

  /** Position of `a` relative to lo (0) and hi (1): (a - lo) / (hi - lo). */
  function Position(a: real, lo: real, hi: real): real
    requires lo != hi
  {
    (a - lo) / (hi - lo)
  }

  /** Point at position `t` between lo and hi: t * (hi - lo) + lo. */
  function Point(t: real, lo: real, hi: real): real {
    t * (hi - lo) + lo
  }

  /** `Point` undoes `Position`. */
  lemma {:induction false} PointOfPosition(a: real, lo: real, hi: real)
    requires lo != hi
    ensures Point(Position(a, lo, hi), lo, hi) == a
  {
    var d := hi - lo;
    assert ((a - lo) / d) * d == a - lo;
  }

  /** `Position` undoes `Point`. */
  lemma {:induction false} PositionOfPoint(t: real, lo: real, hi: real)
    requires lo != hi
    ensures Position(Point(t, lo, hi), lo, hi) == t
  {
    var d := hi - lo;
    assert (t * d + lo) - lo == t * d;
  }

  /** The endpoints sit at positions 0 and 1, and positions 0 and 1 give back the endpoints. */
  lemma {:induction false} Endpoints(lo: real, hi: real)
    requires lo != hi
    ensures Position(lo, lo, hi) == 0.0 && Position(hi, lo, hi) == 1.0
    ensures Point(0.0, lo, hi) == lo && Point(1.0, lo, hi) == hi
  {
    var d := hi - lo;
    assert d / d == 1.0;
  }

  /** Dividing the value and both endpoints by the same non-zero factor leaves the position as it was. */
  lemma {:induction false} PositionScaled(a: real, lo: real, hi: real, c: real)
    requires lo != hi && c != 0.0
    ensures lo / c != hi / c
    ensures Position(a / c, lo / c, hi / c) == Position(a, lo, hi)
  {
    assert a / c - lo / c == (a - lo) / c;
    assert hi / c - lo / c == (hi - lo) / c;
    assert ((a - lo) / c) / ((hi - lo) / c) == (a - lo) / (hi - lo);
  }

  lemma NonNegativeProduct(x: real, y: real)
    requires x >= 0.0 && y >= 0.0
    ensures x * y >= 0.0
  {
  }

  /** On an ascending interval every position in [0, 1] gives a point within the interval. */
  lemma {:induction false} PointWithin(t: real, lo: real, hi: real)
    requires 0.0 <= t <= 1.0 && lo <= hi
    ensures lo <= Point(t, lo, hi) <= hi
  {
    var d := hi - lo;
    NonNegativeProduct(t, d);
    NonNegativeProduct(1.0 - t, d);
    assert (1.0 - t) * d == d - t * d;
  }

  /** On an ascending interval `Point` is non-decreasing in the position. */
  lemma {:induction false} PointMonotone(s: real, t: real, lo: real, hi: real)
    requires s <= t && lo <= hi
    ensures Point(s, lo, hi) <= Point(t, lo, hi)
  {
    var d := hi - lo;
    NonNegativeProduct(t - s, d);
    assert Point(t, lo, hi) - Point(s, lo, hi) == (t - s) * d;
  }

  /** `Position` is non-decreasing on an ascending interval and non-increasing on a descending one. */
  lemma {:induction false} PositionMonotone(a: real, b: real, lo: real, hi: real)
    requires lo != hi && a <= b
    ensures lo < hi ==> Position(a, lo, hi) <= Position(b, lo, hi)
    ensures lo > hi ==> Position(a, lo, hi) >= Position(b, lo, hi)
  {
    var d := hi - lo;
    assert Position(b, lo, hi) - Position(a, lo, hi) == (b - a) / d;
  }

  /** No clamping: on an ascending interval a value beyond an endpoint lies outside [0, 1]. */
  lemma {:induction false} PositionExtrapolates(a: real, lo: real, hi: real)
    requires lo < hi
    ensures a > hi ==> Position(a, lo, hi) > 1.0
    ensures a < lo ==> Position(a, lo, hi) < 0.0
  {
    var d := hi - lo;
    assert d / d == 1.0;
    assert Position(a, lo, hi) - 1.0 == (a - lo) / d - d / d == (a - hi) / d;
  }
}
