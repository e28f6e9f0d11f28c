/** The two numeric helpers of the renderer, instantiated at integers (and,
    for the interpolation weight, reals). */
module Utility {

  /** `clamp(lower, upper, value)`: the lower bound is tested first, so with
      inverted bounds a value below `lower` still yields `lower`. */
  function Clamp(lower: int, upper: int, value: int): (r: int)
    ensures value < lower ==> r == lower
    ensures lower <= value && value > upper ==> r == upper
    ensures lower <= value <= upper ==> r == value
  {
    if value < lower then lower
    else if value > upper then upper
    else value
  }

  /** With ordered bounds the result lies between them, is the point of the
      interval nearest to `value`, and clamping again changes nothing. */
  lemma ClampNearest(lower: int, upper: int, value: int)
    requires lower <= upper
    ensures var r := Clamp(lower, upper, value);
            && lower <= r <= upper
            && (forall y :: lower <= y <= upper ==> Dist(r, value) <= Dist(y, value))
            && Clamp(lower, upper, r) == r
  {
  }

  function Dist(a: int, b: int): nat {
    if a <= b then b - a else a - b
  }

  /** With inverted bounds the result is never `value`: it is `lower` below
      `lower` and `upper` otherwise. */
  lemma ClampInverted(lower: int, upper: int, value: int)
    requires upper < lower
    ensures Clamp(lower, upper, value) == if value < lower then lower else upper
    ensures Clamp(lower, upper, value) != value || value == lower
  {
  }

  lemma ScaleMonotone(d: real, a: real, b: real)
    requires 0.0 <= d && a <= b
    ensures d * a <= d * b
  {
    assert d * b - d * a == d * (b - a);
  }

  /** Scaling by a weight in [0, 1] lands between 0 and the scale. */
  lemma ScaleBetween(d: real, w: real)
    requires 0.0 <= d && 0.0 <= w <= 1.0
    ensures 0.0 <= d * w <= d
  {
    assert d - d * w == d * (1.0 - w);
  }

  /** `r` is `x` truncated toward zero. */
  predicate IsTrunc(x: real, r: int) {
    && (0.0 <= x ==> r as real <= x < r as real + 1.0)
    && (x < 0.0 ==> r as real - 1.0 < x <= r as real)
  }

  /** The conversion `(T) x` from a real to an integer: truncation toward zero. */
  ghost function Trunc(x: real): (r: int)
    ensures IsTrunc(x, r)
  {
    assert IsTrunc(x, if x >= 0.0 then x.Floor else -((-x).Floor));
    var r :| IsTrunc(x, r); r
  }

  lemma TruncMonotone(x: real, y: real)
    requires x <= y
    ensures Trunc(x) <= Trunc(y)
  {
  }

  /** A real between two integers truncates to a value between them. */
  lemma TruncBetween(x: real, lo: int, hi: int)
    requires lo as real <= x <= hi as real
    ensures lo <= Trunc(x) <= hi
  {
  }

  /** `(T)(span * where)`: the weighted span, truncated toward zero. */
  ghost function Scaled(span: int, where: real): (r: int)
    ensures IsTrunc(span as real * where, r)
  {
    Trunc(span as real * where)
  }

  /** A weight in [0, 1] keeps the scaled span between 0 and the span. */
  lemma ScaledBetween(span: int, where: real)
    requires 0.0 <= where <= 1.0
    ensures 0 <= span ==> 0 <= Scaled(span, where) <= span
    ensures span <= 0 ==> span <= Scaled(span, where) <= 0
  {
    if 0 <= span {
      ScaledBetweenUp(span, where);
    } else {
      ScaledBetweenUp(-span, where);
      ScaledNegate(span, where);
    }
  }

  lemma ScaledBetweenUp(span: nat, where: real)
    requires 0.0 <= where <= 1.0
    ensures 0 <= Scaled(span, where) <= span
  {
    var d := span as real;
    ScaleBetween(d, where);
    TruncBetween(d * where, 0, span);
  }

  /** Truncation toward zero is symmetric, so negating the span negates the
      scaled span. */
  lemma ScaledNegate(span: int, where: real)
    ensures Scaled(-span, where) == -Scaled(span, where)
  {
    var x := span as real * where;
    assert (-span) as real * where == -x;
    TruncNegate(x);
  }

  lemma TruncNegate(x: real)
    ensures Trunc(-x) == -Trunc(x)
  {
  }

  /** With a non-negative span the scaled span grows with the weight. */
  lemma ScaledMonotone(span: int, w1: real, w2: real)
    requires 0 <= span && w1 <= w2
    ensures Scaled(span, w1) <= Scaled(span, w2)
  {
    var d := span as real;
    ScaleMonotone(d, w1, w2);
    TruncMonotone(d * w1, d * w2);
  }

  /** `interpolate(lower, upper, where)`: `lower + (T)((upper - lower) * where)`. */
  ghost function Interpolate(lower: int, upper: int, where: real): (r: int)
    ensures IsTrunc((upper - lower) as real * where, r - lower)
  {
    lower + Scaled(upper - lower, where)
  }

  /** The end points are reproduced exactly, a weight in [0, 1] stays between
      the bounds (in either order), and with ordered bounds the result grows
      with the weight. */
  lemma InterpolateEnds(lower: int, upper: int)
    ensures Interpolate(lower, upper, 0.0) == lower
    ensures Interpolate(lower, upper, 1.0) == upper
  {
  }

  lemma InterpolateBetween(lower: int, upper: int, where: real)
    requires 0.0 <= where <= 1.0
    ensures lower <= upper ==> lower <= Interpolate(lower, upper, where) <= upper
    ensures upper <= lower ==> upper <= Interpolate(lower, upper, where) <= lower
  {
    ScaledBetween(upper - lower, where);
  }

  lemma InterpolateMonotone(lower: int, upper: int, w1: real, w2: real)
    requires lower <= upper && w1 <= w2
    ensures Interpolate(lower, upper, w1) <= Interpolate(lower, upper, w2)
  {
    ScaledMonotone(upper - lower, w1, w2);
  }
}
