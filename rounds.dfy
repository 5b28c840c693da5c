/** Facts about the sphere and the circle: the sign of the distance tells
    inside from outside, and the centre is the deepest point. */
module Rounds {
  import opened Scalar
  import opened Vectors
  import opened Primitives

  /** The sphere's distance never falls below `-radius`, and reaches it
      only at the centre; a negative radius leaves nothing inside. */
  lemma SphereBound(n: Norms, s: Sphere, p: V3)
    requires Euclidean(n)
    ensures s.Dist(n, p) >= -s.radius
    ensures s.Dist(n, p) == -s.radius <==> p == Zero3
    ensures s.radius < 0.0 ==> s.Dist(n, p) > 0.0
  {
    MagZero3(n, p);
  }

  /** The sign of the sphere's distance: negative strictly inside, zero on
      the surface, positive outside. */
  lemma SphereSign(n: Norms, s: Sphere, p: V3)
    requires Euclidean(n)
    requires 0.0 <= s.radius
    ensures s.Dist(n, p) < 0.0 <==> p.Dot(p) < Sq(s.radius)
    ensures s.Dist(n, p) == 0.0 <==> p.Dot(p) == Sq(s.radius)
  {
    SqMonotone(n.mag3(p), s.radius);
  }

  lemma CircleBound(n: Norms, c: Circle, p: V2)
    requires Euclidean(n)
    ensures c.Dist(n, p) >= -c.radius
    ensures c.Dist(n, p) == -c.radius <==> p == Zero2
    ensures c.radius < 0.0 ==> c.Dist(n, p) > 0.0
  {
    MagZero2(n, p);
  }

  lemma CircleSign(n: Norms, c: Circle, p: V2)
    requires Euclidean(n)
    requires 0.0 <= c.radius
    ensures c.Dist(n, p) < 0.0 <==> p.Dot(p) < Sq(c.radius)
    ensures c.Dist(n, p) == 0.0 <==> p.Dot(p) == Sq(c.radius)
  {
    SqMonotone(n.mag2(p), c.radius);
  }

  /** Turning a point about the centre keeps its distance to the sphere. */
  lemma SphereRotation(n: Norms, s: Sphere, p: V3, q: V3)
    requires Euclidean(n)
    requires p.Dot(p) == q.Dot(q)
    ensures s.Dist(n, p) == s.Dist(n, q)
  {
    MagCompare3(n, p, q);
  }

  /** Turning a point about the centre keeps its distance to the circle. */
  lemma CircleRotation(n: Norms, c: Circle, p: V2, q: V2)
    requires Euclidean(n)
    requires p.Dot(p) == q.Dot(q)
    ensures c.Dist(n, p) == c.Dist(n, q)
  {
    MagCompare2(n, p, q);
  }

  /** Along a ray from the centre the circle's distance grows one for one:
      at `x` on the X axis it is `x - radius`. */
  lemma CircleRay(n: Norms, c: Circle, x: real)
    requires Euclidean(n)
    requires 0.0 <= x
    ensures c.Dist(n, V2(x, 0.0)) == x - c.radius
  {
    MagOfDot2(n, V2(x, 0.0), x);
  }

  /** A circle of radius 5: on the rim, at the centre and 5 beyond the rim. */
  lemma CircleExamples(n: Norms)
    requires Euclidean(n)
    ensures Circle(5.0).Dist(n, V2(5.0, 0.0)) == 0.0
    ensures Circle(5.0).Dist(n, Zero2) == -5.0
    ensures Circle(5.0).Dist(n, V2(10.0, 0.0)) == 5.0
  {
    CircleRay(n, Circle(5.0), 5.0);
    CircleRay(n, Circle(5.0), 0.0);
    CircleRay(n, Circle(5.0), 10.0);
  }

  /** The distance is exact, first half: no point on the circle is nearer
      to `p` than `|Dist(p)|`. */
  lemma CircleExactBound(n: Norms, c: Circle, p: V2, q: V2)
    requires Euclidean(n)
    requires n.mag2(q) == c.radius
    ensures Abs(c.Dist(n, p)) <= n.mag2(p.Sub(q))
  {
    MagTriangle2(n, p, q);
  }

  /** The point of the circle nearest to `p`: `p` scaled to length
      `radius`, or any rim point when `p` is the centre. */
  function CircleFoot(n: Norms, c: Circle, p: V2): V2 {
    if n.mag2(p) == 0.0 then V2(c.radius, 0.0) else p.Scale(c.radius / n.mag2(p))
  }

  /** The distance is exact, second half: for a non-negative radius, the
      foot lies on the circle at distance exactly `|Dist(p)|` from `p`. */
  lemma CircleExactFoot(n: Norms, c: Circle, p: V2)
    requires Euclidean(n)
    requires 0.0 <= c.radius
    ensures n.mag2(CircleFoot(n, c, p)) == c.radius
    ensures n.mag2(p.Sub(CircleFoot(n, c, p))) == Abs(c.Dist(n, p))
  {
    var m, r := n.mag2(p), c.radius;
    MagZero2(n, p);
    if m == 0.0 {
      DotSelf2(V2(r, 0.0));
      MagOfDot2(n, V2(r, 0.0), r);
      assert p.Sub(V2(r, 0.0)) == V2(-r, 0.0);
      DotSelf2(V2(-r, 0.0));
      MagOfDot2(n, V2(-r, 0.0), r);
    } else {
      var k := r / m;
      assert k * m == r;
      MagScale2(n, p, k);
      assert p.Sub(p.Scale(k)) == p.Scale(1.0 - k);
      MagScale2(n, p, 1.0 - k);
      assert (1.0 - k) * m == m - r;
      AbsScale(1.0 - k, m);
    }
  }

  /** The sphere's distance is exact, first half. */
  lemma SphereExactBound(n: Norms, s: Sphere, p: V3, q: V3)
    requires Euclidean(n)
    requires n.mag3(q) == s.radius
    ensures Abs(s.Dist(n, p)) <= n.mag3(p.Sub(q))
  {
    MagTriangle3(n, p, q);
  }

  /** The point of the sphere nearest to `p`. */
  function SphereFoot(n: Norms, s: Sphere, p: V3): V3 {
    if n.mag3(p) == 0.0 then V3(s.radius, 0.0, 0.0) else p.Scale(s.radius / n.mag3(p))
  }

  /** The sphere's distance is exact, second half. */
  lemma SphereExactFoot(n: Norms, s: Sphere, p: V3)
    requires Euclidean(n)
    requires 0.0 <= s.radius
    ensures n.mag3(SphereFoot(n, s, p)) == s.radius
    ensures n.mag3(p.Sub(SphereFoot(n, s, p))) == Abs(s.Dist(n, p))
  {
    var m, r := n.mag3(p), s.radius;
    MagZero3(n, p);
    if m == 0.0 {
      DotSelf3(V3(r, 0.0, 0.0));
      MagOfDot3(n, V3(r, 0.0, 0.0), r);
      assert p.Sub(V3(r, 0.0, 0.0)) == V3(-r, 0.0, 0.0);
      DotSelf3(V3(-r, 0.0, 0.0));
      MagOfDot3(n, V3(-r, 0.0, 0.0), r);
    } else {
      var k := r / m;
      assert k * m == r;
      MagScale3(n, p, k);
      assert p.Sub(p.Scale(k)) == p.Scale(1.0 - k);
      MagScale3(n, p, 1.0 - k);
      assert (1.0 - k) * m == m - r;
      AbsScale(1.0 - k, m);
    }
  }
}
