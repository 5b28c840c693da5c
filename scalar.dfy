/** The scalar operations the primitives need from their number type `T`:
    `min`, `max`, `clamp` and `abs`, over the mathematical reals, together
    with the facts about squares that the magnitude law rests on.
    Floating-point rounding, NaN and infinities are not modelled. */
module Scalar {

  /** The smaller of two scalars. */
  function Min(a: real, b: real): (r: real)
    ensures r <= a && r <= b
    ensures r == a || r == b
  {
    if a <= b then a else b
  }

  /** The larger of two scalars. */
  function Max(a: real, b: real): (r: real)
    ensures a <= r && b <= r
    ensures r == a || r == b
  {
    if a <= b then b else a
  }

  /** `x.clamp(lo, hi)`, read as `max(lo, min(x, hi))`. */
  function Clamp(x: real, lo: real, hi: real): (r: real)
    ensures lo <= hi ==> lo <= r <= hi
    ensures lo <= x <= hi ==> r == x
    ensures x < lo ==> r == lo
    ensures lo <= hi < x ==> r == hi
  {
    Max(lo, Min(x, hi))
  }

  /** The absolute value of a scalar. */
  function Abs(x: real): (r: real)
    ensures 0.0 <= r
    ensures r == x || r == -x
  {
    if x < 0.0 then -x else x
  }

  /** The square of a scalar. */
  function Sq(x: real): real { x * x }

  // Products are multiplied out one step at a time below: each step is a
  // separate calculation line, so that the solver never has to combine
  // facts about squares on its own.

  lemma MulPositive(x: real, y: real)
    requires 0.0 < x && 0.0 < y
    ensures 0.0 < x * y
  {
  }

  lemma MulMonotone(c: real, x: real, y: real)
    requires 0.0 <= c && x <= y
    ensures c * x <= c * y
  {
  }

  lemma MulStrictMonotone(c: real, x: real, y: real)
    requires 0.0 < c && x < y
    ensures c * x < c * y
  {
  }

  lemma DivOfMul(b: real, c: real, t: real)
    requires c != 0.0 && b == t * c
    ensures b / c == t
  {
  }

  /** A square is never negative, and is positive exactly off zero. */
  lemma SqPositive(a: real)
    ensures 0.0 <= Sq(a)
    ensures a != 0.0 <==> 0.0 < Sq(a)
  {
    if 0.0 < a {
      calc { Sq(a); a * a; > { MulPositive(a, a); } 0.0; }
    } else if a < 0.0 {
      calc { Sq(a); (-a) * (-a); > { MulPositive(-a, -a); } 0.0; }
    } else {
      calc { Sq(a); 0.0 * 0.0; 0.0; }
    }
  }

  lemma SqAbs(a: real)
    ensures Sq(Abs(a)) == Sq(a)
  {
  }

  /** A non-negative factor comes out of an absolute value. */
  lemma AbsScale(a: real, m: real)
    requires 0.0 <= m
    ensures Abs(a) * m == Abs(a * m)
  {
    if a < 0.0 {
      MulMonotone(m, a, 0.0);
    } else {
      MulMonotone(m, 0.0, a);
    }
  }

  /** The square of a product is the product of the squares. */
  lemma SqProduct(a: real, b: real)
    ensures Sq(a) * Sq(b) == Sq(a * b)
  {
  }

  /** The square of a difference, multiplied out. */
  lemma SqDiff(a: real, b: real)
    ensures Sq(a - b) == Sq(a) - 2.0 * (a * b) + Sq(b)
  {
  }

  /** Squaring is strictly increasing on the non-negative scalars. */
  lemma SqStrictMonotone(a: real, b: real)
    requires 0.0 <= a < b
    ensures Sq(a) < Sq(b)
  {
    calc {
      Sq(a);
      a * a;
    <= { MulMonotone(a, a, b); }
      a * b;
    < { MulStrictMonotone(b, a, b); }
      b * b;
      Sq(b);
    }
  }

  /** For non-negative scalars, comparing squares compares the scalars; in
      particular a non-negative square root is unique. */
  lemma SqMonotone(a: real, b: real)
    requires 0.0 <= a && 0.0 <= b
    ensures a <= b <==> Sq(a) <= Sq(b)
    ensures a < b <==> Sq(a) < Sq(b)
    ensures a == b <==> Sq(a) == Sq(b)
  {
    if a < b {
      SqStrictMonotone(a, b);
    } else if b < a {
      SqStrictMonotone(b, a);
    }
  }

  /** The clamped minimiser of a convex quadratic: for `C > 0`, the function
      `f(s) = A - 2 s B + s^2 C` takes its least value over [0, 1] at
      `clamp(B / C, 0, 1)`. This is the scalar core of the capsule distance. */
  lemma ClampMinimisesQuadratic(A: real, B: real, C: real, s: real)
    requires 0.0 < C
    requires 0.0 <= s <= 1.0
    ensures var h := Clamp(B / C, 0.0, 1.0);
      A - 2.0 * h * B + h * h * C <= A - 2.0 * s * B + s * s * C
  {
    var t := B / C;
    var h := Clamp(t, 0.0, 1.0);
    assert B == t * C;
    // f(s) - f(h) == C * (s - h) * (s + h - 2 t)
    var diff := (A - 2.0 * s * B + s * s * C) - (A - 2.0 * h * B + h * h * C);
    assert diff == C * ((s - h) * (s + h - 2.0 * t));
    if t < 0.0 {
      assert h == 0.0;
      assert (s - h) * (s + h - 2.0 * t) >= 0.0;
    } else if t <= 1.0 {
      assert h == t;
      assert (s - h) * (s + h - 2.0 * t) == (s - t) * (s - t);
    } else {
      assert h == 1.0;
      assert s - h <= 0.0 && s + h - 2.0 * t < 0.0;
      assert (s - h) * (s + h - 2.0 * t) >= 0.0;
    }
    assert C * ((s - h) * (s + h - 2.0 * t)) >= 0.0;
  }
}
