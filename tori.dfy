/** Facts about the torus on the XZ plane. They pin down the roles of the
    two fields as the code uses them: the deepest points, at `-radius`, are
    the circle of radius `thickness` around the Y axis, so `thickness` is the
    ring radius and `radius` the tube radius. */
module Tori {
  import opened Scalar
  import opened Vectors
  import opened Primitives

  /** The torus is symmetric under any rotation about the Y axis and under
      mirroring in the XZ plane: its distance depends only on the distance
      to the Y axis and on `|p.y|`. */
  lemma TorusSymmetric(n: Norms, t: Torus, p: V3, q: V3)
    requires Euclidean(n)
    requires Sq(p.x) + Sq(p.z) == Sq(q.x) + Sq(q.z)
    requires Abs(p.y) == Abs(q.y)
    ensures t.Dist(n, p) == t.Dist(n, q)
  {
    var u, w := V2(p.x, p.z), V2(q.x, q.z);
    DotSelf2(u);
    DotSelf2(w);
    MagCompare2(n, u, w);
    var qp := V2(n.mag2(u) - t.thickness, p.y);
    var qq := V2(n.mag2(w) - t.thickness, q.y);
    DotSelf2(qp);
    DotSelf2(qq);
    SqAbs(p.y);
    SqAbs(q.y);
    MagCompare2(n, qp, qq);
  }

  /** Swapping the X and Z coordinates keeps the distance. */
  lemma TorusSwapXZ(n: Norms, t: Torus, p: V3)
    requires Euclidean(n)
    ensures t.Dist(n, V3(p.z, p.y, p.x)) == t.Dist(n, p)
  {
    TorusSymmetric(n, t, V3(p.z, p.y, p.x), p);
  }

  /** Mirroring in the XZ plane keeps the distance. */
  lemma TorusFlipY(n: Norms, t: Torus, p: V3)
    requires Euclidean(n)
    ensures t.Dist(n, V3(p.x, -p.y, p.z)) == t.Dist(n, p)
  {
    TorusSymmetric(n, t, V3(p.x, -p.y, p.z), p);
  }

  /** The distance never falls below `-radius`, whatever the two fields. */
  lemma TorusBound(n: Norms, t: Torus, p: V3)
    requires Euclidean(n)
    ensures t.Dist(n, p) >= -t.radius
  {
    MagLaw2(n, V2(n.mag2(V2(p.x, p.z)) - t.thickness, p.y));
  }

  /** The distance reaches `-radius` exactly on the circle of radius
      `thickness` around the Y axis in the XZ plane; with a negative
      `thickness` it never does. */
  lemma TorusCore(n: Norms, t: Torus, p: V3)
    requires Euclidean(n)
    ensures t.Dist(n, p) == -t.radius <==>
      0.0 <= t.thickness && Sq(p.x) + Sq(p.z) == Sq(t.thickness) && p.y == 0.0
  {
    var u := V2(p.x, p.z);
    DotSelf2(u);
    MagLaw2(n, u);
    if 0.0 <= t.thickness {
      SqMonotone(n.mag2(u), t.thickness);
    }
    MagZero2(n, V2(n.mag2(u) - t.thickness, p.y));
  }

  /** For a non-negative `radius`, the sign of the distance compares the
      squared distance to the core circle, `(|(x, z)| - thickness)² + y²`,
      with `radius²`: negative strictly inside the tube, zero exactly on its
      surface. */
  lemma TorusSign(n: Norms, t: Torus, p: V3)
    requires Euclidean(n)
    requires 0.0 <= t.radius
    ensures t.Dist(n, p) < 0.0 <==>
      Sq(n.mag2(V2(p.x, p.z)) - t.thickness) + Sq(p.y) < Sq(t.radius)
    ensures t.Dist(n, p) == 0.0 <==>
      Sq(n.mag2(V2(p.x, p.z)) - t.thickness) + Sq(p.y) == Sq(t.radius)
  {
    var q := V2(n.mag2(V2(p.x, p.z)) - t.thickness, p.y);
    DotSelf2(q);
    MagLaw2(n, q);
    SqMonotone(n.mag2(q), t.radius);
  }

  /** The torus distance is exact from below: no point of the surface
      (where the distance is zero) is nearer to `p` than `|Dist(p)|`. The
      distance is the distance to the core circle less `radius`, and both
      steps lose no more than the reverse triangle inequality allows. */
  lemma TorusExactBound(n: Norms, t: Torus, p: V3, q: V3)
    requires Euclidean(n)
    requires t.Dist(n, q) == 0.0
    ensures Abs(t.Dist(n, p)) <= n.mag3(p.Sub(q))
  {
    var up, uq := V2(p.x, p.z), V2(q.x, q.z);
    var gp := V2(n.mag2(up) - t.thickness, p.y);
    var gq := V2(n.mag2(uq) - t.thickness, q.y);
    var e := gp.Sub(gq);
    var d := p.Sub(q);
    MagTriangle2(n, gp, gq);
    MagTriangle2(n, up, uq);
    MagLaw2(n, up.Sub(uq));
    SqAbs(n.mag2(up) - n.mag2(uq));
    SqMonotone(Abs(n.mag2(up) - n.mag2(uq)), n.mag2(up.Sub(uq)));
    assert e == V2(n.mag2(up) - n.mag2(uq), p.y - q.y);
    calc {
      e.Dot(e);
    == { DotSelf2(e); }
      Sq(n.mag2(up) - n.mag2(uq)) + Sq(p.y - q.y);
    <=
      up.Sub(uq).Dot(up.Sub(uq)) + Sq(p.y - q.y);
    == { DotSelf2(up.Sub(uq)); DotSelf3(d); }
      d.Dot(d);
    }
    MagLaw2(n, e);
    MagLaw3(n, d);
    SqMonotone(n.mag2(e), n.mag3(d));
  }
}
