/** Facts about the capsules around a segment, in the plane and in space.
    The clamped projection picks the point of the segment nearest to the
    sample, so the distance is the distance to the segment less the
    thickness. */
module Lines {
  import opened Scalar
  import opened Vectors
  import opened Primitives

  /** Both end points of the segment lie at depth `thickness`. */
  lemma Line2Ends(n: Norms, l: Line2)
    requires Euclidean(n)
    requires l.a != l.b
    ensures l.Dist(n, l.a) == -l.thickness
    ensures l.Dist(n, l.b) == -l.thickness
  {
    var ba := l.b.Sub(l.a);
    assert ba != Zero2 by { assert l.a == l.b.Sub(ba); }
    DotSelfZero2(ba);
    assert l.Param(l.a) == 0.0;
    MagZero2(n, l.a.Sub(l.a).Sub(ba.Scale(0.0)));
    assert l.Param(l.b) == 1.0;
    MagZero2(n, ba.Sub(ba.Scale(1.0)));
  }

  /** The clamped projection parameter minimises the squared length of
      `pa - ba * s` over [0, 1]. */
  lemma Projection2Nearest(pa: V2, ba: V2, s: real)
    requires ba != Zero2
    requires 0.0 <= s <= 1.0
    ensures 0.0 < ba.Dot(ba)
    ensures var h := Clamp(pa.Dot(ba) / ba.Dot(ba), 0.0, 1.0);
      pa.Sub(ba.Scale(h)).Dot(pa.Sub(ba.Scale(h))) <= pa.Sub(ba.Scale(s)).Dot(pa.Sub(ba.Scale(s)))
  {
    DotSelfZero2(ba);
    var A, B, C := pa.Dot(pa), pa.Dot(ba), ba.Dot(ba);
    var h := Clamp(B / C, 0.0, 1.0);
    ClampMinimisesQuadratic(A, B, C, s);
    DotExpandCompare2(pa, ba, h, s);
  }

  /** The capsule's distance is the distance to the nearest point of the
      segment, less the thickness: it is attained at the point of parameter
      `Param(p)`, and no point of the segment is nearer. */
  lemma Line2Nearest(n: Norms, l: Line2, p: V2, s: real)
    requires Euclidean(n)
    requires l.a != l.b
    requires 0.0 <= s <= 1.0
    ensures l.Dist(n, p) == n.mag2(p.Sub(l.PointAt(l.Param(p)))) - l.thickness
    ensures l.Dist(n, p) <= n.mag2(p.Sub(l.PointAt(s))) - l.thickness
  {
    var pa := p.Sub(l.a);
    var ba := l.b.Sub(l.a);
    assert ba != Zero2 by { assert l.a == l.b.Sub(ba); }
    var h := l.Param(p);
    assert p.Sub(l.PointAt(h)) == pa.Sub(ba.Scale(h));
    assert p.Sub(l.PointAt(s)) == pa.Sub(ba.Scale(s));
    Projection2Nearest(pa, ba, s);
    MagCompare2(n, pa.Sub(ba.Scale(h)), pa.Sub(ba.Scale(s)));
  }

  /** The distance never falls below `-thickness`, and reaches it exactly
      on the segment. */
  lemma Line2Bound(n: Norms, l: Line2, p: V2)
    requires Euclidean(n)
    requires l.a != l.b
    ensures l.Dist(n, p) >= -l.thickness
    ensures l.Dist(n, p) == -l.thickness <==> p == l.PointAt(l.Param(p))
  {
    Line2Nearest(n, l, p, 0.0);
    MagZero2(n, p.Sub(l.PointAt(l.Param(p))));
    assert p.Sub(l.PointAt(l.Param(p))) == Zero2 <==> p == l.PointAt(l.Param(p));
  }

  /** Every point of the segment, `a + (b - a) s` for `s` in [0, 1], lies
      at depth exactly `thickness`. */
  lemma Line2OnItself(n: Norms, l: Line2, s: real)
    requires Euclidean(n)
    requires l.a != l.b
    requires 0.0 <= s <= 1.0
    ensures l.Dist(n, l.PointAt(s)) == -l.thickness
  {
    var p := l.PointAt(s);
    Line2Nearest(n, l, p, s);
    Line2Bound(n, l, p);
    assert p.Sub(p) == Zero2;
    MagZero2(n, Zero2);
  }

  /** Across a segment laid on the X axis from the origin, the distance is
      the height above the axis less the thickness. */
  lemma Line2Across(n: Norms, len: real, thickness: real, x: real, y: real)
    requires Euclidean(n)
    requires 0.0 < len && 0.0 <= x <= len
    ensures Line2(Zero2, V2(len, 0.0), thickness).Dist(n, V2(x, y)) == Abs(y) - thickness
  {
    var l := Line2(Zero2, V2(len, 0.0), thickness);
    var p, ba := V2(x, y), V2(len, 0.0);
    assert p.Sub(l.a) == p && l.b.Sub(l.a) == ba;
    var t := x / len;
    assert t * len == x;
    DotSelf2(ba);
    SqPositive(len);
    SqPositive(0.0);
    assert 0.0 < ba.Dot(ba);
    calc {
      t * ba.Dot(ba);
      t * Sq(len);
      (t * len) * len;
      x * len;
      p.Dot(ba);
    }
    DivOfMul(p.Dot(ba), ba.Dot(ba), t);
    assert 0.0 <= t <= 1.0;
    assert l.Param(p) == t;
    assert len * t == x;
    assert p.Sub(ba.Scale(t)) == V2(0.0, y);
    SqAbs(y);
    MagOfDot2(n, V2(0.0, y), Abs(y));
  }

  /** The capsule of thickness 1 around the segment from (0, 0) to (10, 0)
      is at -1 all along the segment, (5, 0) included. */
  lemma Line2OnSegment(n: Norms, x: real)
    requires Euclidean(n)
    requires 0.0 <= x <= 10.0
    ensures Line2(Zero2, V2(10.0, 0.0), 1.0).Dist(n, V2(x, 0.0)) == -1.0
  {
    Line2Across(n, 10.0, 1.0, x, 0.0);
  }

  /** The same capsule is at 2 at the point (5, 3), three above the middle
      of the segment. */
  lemma Line2AboveSegment(n: Norms)
    requires Euclidean(n)
    ensures Line2(Zero2, V2(10.0, 0.0), 1.0).Dist(n, V2(5.0, 3.0)) == 2.0
  {
    Line2Across(n, 10.0, 1.0, 5.0, 3.0);
  }

  /** Both end points of the segment lie at depth `thickness`. */
  lemma Line3Ends(n: Norms, l: Line3)
    requires Euclidean(n)
    requires l.a != l.b
    ensures l.Dist(n, l.a) == -l.thickness
    ensures l.Dist(n, l.b) == -l.thickness
  {
    var ba := l.b.Sub(l.a);
    assert ba != Zero3 by { assert l.a == l.b.Sub(ba); }
    DotSelfZero3(ba);
    assert l.Param(l.a) == 0.0;
    MagZero3(n, l.a.Sub(l.a).Sub(ba.Scale(0.0)));
    assert l.Param(l.b) == 1.0;
    MagZero3(n, ba.Sub(ba.Scale(1.0)));
  }

  /** The clamped projection parameter minimises the squared length of
      `pa - ba * s` over [0, 1]. */
  lemma Projection3Nearest(pa: V3, ba: V3, s: real)
    requires ba != Zero3
    requires 0.0 <= s <= 1.0
    ensures 0.0 < ba.Dot(ba)
    ensures var h := Clamp(pa.Dot(ba) / ba.Dot(ba), 0.0, 1.0);
      pa.Sub(ba.Scale(h)).Dot(pa.Sub(ba.Scale(h))) <= pa.Sub(ba.Scale(s)).Dot(pa.Sub(ba.Scale(s)))
  {
    DotSelfZero3(ba);
    var A, B, C := pa.Dot(pa), pa.Dot(ba), ba.Dot(ba);
    var h := Clamp(B / C, 0.0, 1.0);
    ClampMinimisesQuadratic(A, B, C, s);
    DotExpandCompare3(pa, ba, h, s);
  }

  /** The nearest-point property in space. */
  lemma Line3Nearest(n: Norms, l: Line3, p: V3, s: real)
    requires Euclidean(n)
    requires l.a != l.b
    requires 0.0 <= s <= 1.0
    ensures l.Dist(n, p) == n.mag3(p.Sub(l.PointAt(l.Param(p)))) - l.thickness
    ensures l.Dist(n, p) <= n.mag3(p.Sub(l.PointAt(s))) - l.thickness
  {
    var pa := p.Sub(l.a);
    var ba := l.b.Sub(l.a);
    assert ba != Zero3 by { assert l.a == l.b.Sub(ba); }
    var h := l.Param(p);
    assert p.Sub(l.PointAt(h)) == pa.Sub(ba.Scale(h));
    assert p.Sub(l.PointAt(s)) == pa.Sub(ba.Scale(s));
    Projection3Nearest(pa, ba, s);
    MagCompare3(n, pa.Sub(ba.Scale(h)), pa.Sub(ba.Scale(s)));
  }

  /** The distance never falls below `-thickness`, and reaches it exactly
      on the segment. */
  lemma Line3Bound(n: Norms, l: Line3, p: V3)
    requires Euclidean(n)
    requires l.a != l.b
    ensures l.Dist(n, p) >= -l.thickness
    ensures l.Dist(n, p) == -l.thickness <==> p == l.PointAt(l.Param(p))
  {
    Line3Nearest(n, l, p, 0.0);
    MagZero3(n, p.Sub(l.PointAt(l.Param(p))));
    assert p.Sub(l.PointAt(l.Param(p))) == Zero3 <==> p == l.PointAt(l.Param(p));
  }

  /** Every point of the segment, `a + (b - a) s` for `s` in [0, 1], lies
      at depth exactly `thickness`. */
  lemma Line3OnItself(n: Norms, l: Line3, s: real)
    requires Euclidean(n)
    requires l.a != l.b
    requires 0.0 <= s <= 1.0
    ensures l.Dist(n, l.PointAt(s)) == -l.thickness
  {
    var p := l.PointAt(s);
    Line3Nearest(n, l, p, s);
    Line3Bound(n, l, p);
    assert p.Sub(p) == Zero3;
    MagZero3(n, Zero3);
  }
}
