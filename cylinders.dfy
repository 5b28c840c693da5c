/** Facts about the infinite and the capped cylinders: the axis match keeps
    exactly the coordinates across the axis, the infinite cylinder ignores
    the axial coordinate, and the capped cylinder is the 2D box of
    half-extents (radius, height) swept around the axis. */
module Cylinders {
  import opened Scalar
  import opened Vectors
  import opened Primitives
  import Boxes
  import Rounds

  /** The coordinate of `p` along `axis`. */
  function Coord(axis: Axis, p: V3): real {
    match axis
    case X => p.x
    case Y => p.y
    case Z => p.z
  }

  /** `p` with its coordinate along `axis` replaced by `t`. */
  function WithCoord(axis: Axis, p: V3, t: real): V3 {
    match axis
    case X => V3(t, p.y, p.z)
    case Y => V3(p.x, t, p.z)
    case Z => V3(p.x, p.y, t)
  }

  /** The section and the axial coordinate split the point: they determine
      it, and their squared lengths add up to the point's. */
  lemma SectionSplit(axis: Axis, p: V3, q: V3)
    ensures Section(axis, p) == Section(axis, q) && Coord(axis, p) == Coord(axis, q) <==> p == q
    ensures Section(axis, p).Dot(Section(axis, p)) + Sq(Coord(axis, p)) == p.Dot(p)
  {
  }

  /** The point with section `s` and axial coordinate `t`. */
  function Unsection(axis: Axis, s: V2, t: real): V3 {
    match axis
    case X => V3(t, s.x, s.y)
    case Y => V3(s.x, t, s.y)
    case Z => V3(s.x, s.y, t)
  }

  /** The section of a difference is the difference of the sections. */
  lemma SectionSub(axis: Axis, p: V3, q: V3)
    ensures Section(axis, p.Sub(q)) == Section(axis, p).Sub(Section(axis, q))
    ensures Coord(axis, p.Sub(q)) == Coord(axis, p) - Coord(axis, q)
  {
  }

  /** `Unsection` puts back together what `Section` and `Coord` take apart. */
  lemma UnsectionSplit(axis: Axis, s: V2, t: real, p: V3)
    ensures Section(axis, Unsection(axis, s, t)) == s
    ensures Coord(axis, Unsection(axis, s, t)) == t
    ensures Unsection(axis, Section(axis, p), Coord(axis, p)) == p
  {
  }

  /** The distance to the axis is no more than the distance to the origin. */
  lemma SectionShorter(n: Norms, axis: Axis, v: V3)
    requires Euclidean(n)
    ensures n.mag2(Section(axis, v)) <= n.mag3(v)
    ensures Coord(axis, v) == 0.0 ==> n.mag2(Section(axis, v)) == n.mag3(v)
  {
    SectionSplit(axis, v, v);
    SqPositive(Coord(axis, v));
    MagLaw2(n, Section(axis, v));
    MagLaw3(n, v);
    SqMonotone(n.mag2(Section(axis, v)), n.mag3(v));
  }

  /** The section forgets exactly the axial coordinate. */
  lemma SectionForgetsAxis(axis: Axis, p: V3, q: V3)
    ensures Section(axis, p) == Section(axis, q) <==>
      WithCoord(axis, p, 0.0) == WithCoord(axis, q, 0.0)
  {
  }

  /** Moving along the axis does not change the infinite cylinder's
      distance. */
  lemma CylinderAxial(n: Norms, c: Cylinder, p: V3, t: real)
    ensures c.Dist(n, WithCoord(c.axis, p, t)) == c.Dist(n, p)
  {
  }

  /** The infinite cylinder's distance never falls below `-radius`, which it
      reaches exactly on the axis. */
  lemma CylinderBound(n: Norms, c: Cylinder, p: V3)
    requires Euclidean(n)
    ensures c.Dist(n, p) >= -c.radius
    ensures c.Dist(n, p) == -c.radius <==> Section(c.axis, p) == Zero2
  {
    MagZero2(n, Section(c.axis, p));
  }

  /** The sign of the infinite cylinder's distance compares the squared
      distance to the axis with the squared radius. */
  lemma CylinderSign(n: Norms, c: Cylinder, p: V3)
    requires Euclidean(n)
    requires 0.0 <= c.radius
    ensures c.Dist(n, p) < 0.0 <==> Section(c.axis, p).Dot(Section(c.axis, p)) < Sq(c.radius)
    ensures c.Dist(n, p) == 0.0 <==> Section(c.axis, p).Dot(Section(c.axis, p)) == Sq(c.radius)
  {
    MagLaw2(n, Section(c.axis, p));
    SqMonotone(n.mag2(Section(c.axis, p)), c.radius);
  }

  /** Turning a point about the axis keeps its distance to the infinite
      cylinder. */
  lemma CylinderRotation(n: Norms, c: Cylinder, p: V3, q: V3)
    requires Euclidean(n)
    requires Section(c.axis, p).Dot(Section(c.axis, p)) == Section(c.axis, q).Dot(Section(c.axis, q))
    ensures c.Dist(n, p) == c.Dist(n, q)
  {
    MagCompare2(n, Section(c.axis, p), Section(c.axis, q));
  }

  /** The infinite cylinder's distance is exact, first half: no point of its
      surface is nearer to `p` than `|Dist(p)|`. */
  lemma CylinderExactBound(n: Norms, c: Cylinder, p: V3, q: V3)
    requires Euclidean(n)
    requires n.mag2(Section(c.axis, q)) == c.radius
    ensures Abs(c.Dist(n, p)) <= n.mag3(p.Sub(q))
  {
    MagTriangle2(n, Section(c.axis, p), Section(c.axis, q));
    SectionSub(c.axis, p, q);
    SectionShorter(n, c.axis, p.Sub(q));
  }

  /** The point of the cylinder's surface nearest to `p`: the nearest point
      of the circle in `p`'s cross-section. */
  function CylinderFoot(n: Norms, c: Cylinder, p: V3): V3 {
    Unsection(c.axis, Rounds.CircleFoot(n, Circle(c.radius), Section(c.axis, p)), Coord(c.axis, p))
  }

  /** The infinite cylinder's distance is exact, second half: for a
      non-negative radius, the foot lies on the surface at distance exactly
      `|Dist(p)|` from `p`. */
  lemma CylinderExactFoot(n: Norms, c: Cylinder, p: V3)
    requires Euclidean(n)
    requires 0.0 <= c.radius
    ensures n.mag2(Section(c.axis, CylinderFoot(n, c, p))) == c.radius
    ensures n.mag3(p.Sub(CylinderFoot(n, c, p))) == Abs(c.Dist(n, p))
  {
    var s := Section(c.axis, p);
    var f := Rounds.CircleFoot(n, Circle(c.radius), s);
    var q := CylinderFoot(n, c, p);
    UnsectionSplit(c.axis, f, Coord(c.axis, p), p);
    Rounds.CircleExactFoot(n, Circle(c.radius), s);
    SectionSub(c.axis, p, q);
    SectionShorter(n, c.axis, p.Sub(q));
  }

  /** The capped cylinder's own axis match agrees with the infinite
      cylinder's: `(a, b)` is the section and `c` the axial coordinate. */
  lemma AlignedIsSection(axis: Axis, p: V3)
    ensures var (a, b, c) := Aligned(axis, p);
      V2(a, b) == Section(axis, p) && c == Coord(axis, p)
  {
  }

  /** The capped cylinder is the 2D box of half-extents (radius, height),
      sampled at (distance to the axis, axial coordinate). */
  lemma CappedIsSweptBox(n: Norms, c: CappedCylinder, p: V3)
    ensures c.Dist(n, p) ==
      Box2D(V2(c.radius, c.height)).Dist(n, V2(n.mag2(Section(c.axis, p)), Coord(c.axis, p)))
  {
  }

  /** Inside or on the capped cylinder is exactly within `radius` of the
      axis and within `height` of the middle plane; there the distance is
      the larger of the two overshoots. */
  lemma CappedInside(n: Norms, c: CappedCylinder, p: V3)
    requires Euclidean(n)
    ensures c.Dist(n, p) <= 0.0 <==>
      n.mag2(Section(c.axis, p)) <= c.radius && Abs(Coord(c.axis, p)) <= c.height
    ensures c.Dist(n, p) < 0.0 <==>
      n.mag2(Section(c.axis, p)) < c.radius && Abs(Coord(c.axis, p)) < c.height
    ensures n.mag2(Section(c.axis, p)) <= c.radius && Abs(Coord(c.axis, p)) <= c.height ==>
      c.Dist(n, p) == Max(n.mag2(Section(c.axis, p)) - c.radius, Abs(Coord(c.axis, p)) - c.height)
  {
    var m := n.mag2(Section(c.axis, p));
    MagZero2(n, Section(c.axis, p));
    CappedIsSweptBox(n, c, p);
    Boxes.Box2Inside(n, Box2D(V2(c.radius, c.height)), V2(m, Coord(c.axis, p)));
  }

  /** Everywhere, the capped cylinder's distance is at least the larger of
      the radial and the axial overshoots; so it never falls below
      `max(-radius, -height)`, whatever the signs of the dimensions. */
  lemma CappedBound(n: Norms, c: CappedCylinder, p: V3)
    requires Euclidean(n)
    ensures c.Dist(n, p) >= Max(n.mag2(Section(c.axis, p)) - c.radius, Abs(Coord(c.axis, p)) - c.height)
    ensures c.Dist(n, p) >= Max(-c.radius, -c.height)
  {
    var m := n.mag2(Section(c.axis, p));
    MagZero2(n, Section(c.axis, p));
    CappedIsSweptBox(n, c, p);
    Boxes.Box2Lower(n, Box2D(V2(c.radius, c.height)), V2(m, Coord(c.axis, p)));
  }

  /** The capped cylinder is symmetric about its middle plane: the distance
      depends on the axial coordinate only through its absolute value. */
  lemma CappedMirror(n: Norms, c: CappedCylinder, p: V3, t: real)
    requires Abs(t) == Abs(Coord(c.axis, p))
    ensures c.Dist(n, WithCoord(c.axis, p, t)) == c.Dist(n, p)
  {
  }
}
