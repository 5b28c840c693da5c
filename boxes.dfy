/** Facts about the axis-aligned boxes. The distance of a box is the sum of
    an outside term (the length of the positive part of `|p| - dims`) and an
    inside term (the largest component of `|p| - dims`, capped at zero); at
    most one of them is non-zero. */
module Boxes {
  import opened Scalar
  import opened Vectors
  import opened Primitives

  /** The two terms of the 2D box distance: the outside term is never
      negative and vanishes exactly when no component of `d` is positive;
      the inside term is never positive; they are never both non-zero. The
      outside term is at least each component of `d`. */
  lemma Box2Terms(n: Norms, d: V2)
    requires Euclidean(n)
    ensures 0.0 <= n.mag2(d.Max(Zero2))
    ensures d.x <= n.mag2(d.Max(Zero2)) && d.y <= n.mag2(d.Max(Zero2))
    ensures n.mag2(d.Max(Zero2)) == 0.0 <==> d.x <= 0.0 && d.y <= 0.0
    ensures Min(Max(d.y, d.x), 0.0) <= 0.0
    ensures n.mag2(d.Max(Zero2)) == 0.0 || Min(Max(d.y, d.x), 0.0) == 0.0
  {
    MagZero2(n, d.Max(Zero2));
    MagComponents2(n, d.Max(Zero2));
  }

  /** Inside or on the 2D box is exactly `|p.x| <= dims.x` and
      `|p.y| <= dims.y` (strictly inside with strict bounds); there the
      distance is the largest of the two per-axis overshoots, and outside it
      is the outside term alone. */
  lemma Box2Inside(n: Norms, b: Box2D, p: V2)
    requires Euclidean(n)
    ensures b.Dist(n, p) <= 0.0 <==> Abs(p.x) <= b.dims.x && Abs(p.y) <= b.dims.y
    ensures b.Dist(n, p) < 0.0 <==> Abs(p.x) < b.dims.x && Abs(p.y) < b.dims.y
    ensures Abs(p.x) <= b.dims.x && Abs(p.y) <= b.dims.y ==>
      b.Dist(n, p) == Max(Abs(p.x) - b.dims.x, Abs(p.y) - b.dims.y)
    ensures 0.0 < b.Dist(n, p) ==>
      b.Dist(n, p) == n.mag2(p.Abs().Sub(b.dims).Max(Zero2))
  {
    Box2Terms(n, p.Abs().Sub(b.dims));
  }

  /** Everywhere, the 2D box distance is at least the larger of the two
      per-axis overshoots, whatever the signs of the dimensions. */
  lemma Box2Lower(n: Norms, b: Box2D, p: V2)
    requires Euclidean(n)
    ensures b.Dist(n, p) >= Max(Abs(p.x) - b.dims.x, Abs(p.y) - b.dims.y)
  {
    Box2Terms(n, p.Abs().Sub(b.dims));
  }

  /** The 2D box is symmetric in both axes: the distance depends only on
      `|p|`. */
  lemma Box2Mirror(n: Norms, b: Box2D, p: V2, q: V2)
    requires q.Abs() == p.Abs()
    ensures b.Dist(n, q) == b.Dist(n, p)
  {
  }

  /** The 2D box with half-extents (2, 3): at the centre the distance is -2,
      the nearer side being at x = 2. */
  lemma Box2Centre(n: Norms)
    requires Euclidean(n)
    ensures Box2D(V2(2.0, 3.0)).Dist(n, Zero2) == -2.0
  {
    Box2Inside(n, Box2D(V2(2.0, 3.0)), Zero2);
  }

  /** The same box at (5, 0): 3 beyond the side x = 2. */
  lemma Box2Beside(n: Norms)
    requires Euclidean(n)
    ensures Box2D(V2(2.0, 3.0)).Dist(n, V2(5.0, 0.0)) == 3.0
  {
    MagOfDot2(n, V2(3.0, 0.0), 3.0);
  }

  /** The two terms of the 3D box distance, as for `Box2Terms`. */
  lemma Box3Terms(n: Norms, d: V3)
    requires Euclidean(n)
    ensures 0.0 <= n.mag3(d.Max(Zero3))
    ensures d.x <= n.mag3(d.Max(Zero3)) && d.y <= n.mag3(d.Max(Zero3)) && d.z <= n.mag3(d.Max(Zero3))
    ensures n.mag3(d.Max(Zero3)) == 0.0 <==> d.x <= 0.0 && d.y <= 0.0 && d.z <= 0.0
    ensures Min(Max(Max(d.y, d.z), d.x), 0.0) <= 0.0
    ensures n.mag3(d.Max(Zero3)) == 0.0 || Min(Max(Max(d.y, d.z), d.x), 0.0) == 0.0
  {
    MagZero3(n, d.Max(Zero3));
    MagComponents3(n, d.Max(Zero3));
  }

  /** Inside or on the 3D box is exactly each `|p_i| <= dims_i`; there the
      distance is the largest of the three per-axis overshoots, whatever the
      order sdfu takes the maximum in. */
  lemma Box3Inside(n: Norms, b: Box3D, p: V3)
    requires Euclidean(n)
    ensures b.Dist(n, p) <= 0.0 <==>
      Abs(p.x) <= b.dims.x && Abs(p.y) <= b.dims.y && Abs(p.z) <= b.dims.z
    ensures b.Dist(n, p) < 0.0 <==>
      Abs(p.x) < b.dims.x && Abs(p.y) < b.dims.y && Abs(p.z) < b.dims.z
    ensures Abs(p.x) <= b.dims.x && Abs(p.y) <= b.dims.y && Abs(p.z) <= b.dims.z ==>
      b.Dist(n, p) == Max(Max(Abs(p.x) - b.dims.x, Abs(p.y) - b.dims.y), Abs(p.z) - b.dims.z)
    ensures 0.0 < b.Dist(n, p) ==>
      b.Dist(n, p) == n.mag3(p.Abs().Sub(b.dims).Max(Zero3))
  {
    Box3Terms(n, p.Abs().Sub(b.dims));
  }

  /** Everywhere, the 3D box distance is at least the largest of the three
      per-axis overshoots. */
  lemma Box3Lower(n: Norms, b: Box3D, p: V3)
    requires Euclidean(n)
    ensures b.Dist(n, p) >= Max(Max(Abs(p.x) - b.dims.x, Abs(p.y) - b.dims.y), Abs(p.z) - b.dims.z)
  {
    Box3Terms(n, p.Abs().Sub(b.dims));
  }

  /** The 3D box is symmetric in all three axes. */
  lemma Box3Mirror(n: Norms, b: Box3D, p: V3, q: V3)
    requires q.Abs() == p.Abs()
    ensures b.Dist(n, q) == b.Dist(n, p)
  {
  }
}
