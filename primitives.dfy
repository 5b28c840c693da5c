/** The primitive signed distance functions of `sdfu`. Every shape is centred
    at the origin of its own local space; `Dist(n, p)` is the signed distance
    from the local point `p` to the shape, computed with the magnitudes `n`
    of the vector type the shape is sampled with. A shape is a plain value:
    `Sphere(r)` and the other datatype constructors are the Rust code's `new`
    constructors, which only store their arguments. */
module Primitives {
  import opened Scalar
  import opened Vectors

  /** A sphere with a radius. */
  datatype Sphere = Sphere(radius: real) {
    function Dist(n: Norms, p: V3): real {
      n.mag3(p) - radius
    }
  }

  /** An axis-aligned box in 3D; `dims` are its half-extents. */
  datatype Box3D = Box3D(dims: V3) {
    function Dist(n: Norms, p: V3): real {
      var d := p.Abs().Sub(dims);
      n.mag3(d.Max(Zero3)) + Min(Max(Max(d.y, d.z), d.x), 0.0)
    }
  }

  /** An axis-aligned box in 2D; `dims` are its half-extents. */
  datatype Box2D = Box2D(dims: V2) {
    function Dist(n: Norms, p: V2): real {
      var d := p.Abs().Sub(dims);
      n.mag2(d.Max(Zero2)) + Min(Max(d.y, d.x), 0.0)
    }
  }

  /** A circle with a radius. */
  datatype Circle = Circle(radius: real) {
    function Dist(n: Norms, p: V2): real {
      n.mag2(p) - radius
    }
  }

  /** A torus lying on the XZ plane. `thickness` is subtracted from the
      distance to the Y axis and `radius` from the resulting 2D magnitude,
      so `thickness` is the radius of the ring of tube centres and `radius`
      the radius of the tube. */
  datatype Torus = Torus(radius: real, thickness: real) {
    function Dist(n: Norms, p: V3): real {
      var q := V2(n.mag2(V2(p.x, p.z)) - thickness, p.y);
      n.mag2(q) - radius
    }
  }

  /** The principal axis a cylinder extends along. */
  datatype Axis = X | Y | Z

  /** The two components of `p` across `axis`, in the order the infinite
      cylinder takes them. */
  function Section(axis: Axis, p: V3): V2 {
    match axis
    case X => V2(p.y, p.z)
    case Y => V2(p.x, p.z)
    case Z => V2(p.x, p.y)
  }

  /** An infinite cylinder of a radius around a principal axis. */
  datatype Cylinder = Cylinder(radius: real, axis: Axis) {
    function Dist(n: Norms, p: V3): real {
      n.mag2(Section(axis, p)) - radius
    }
  }

  /** The components `(a, b, c)` of `p` the capped cylinder works with:
      `a` and `b` across `axis`, `c` along it. */
  function Aligned(axis: Axis, p: V3): (real, real, real) {
    match axis
    case X => (p.y, p.z, p.x)
    case Y => (p.x, p.z, p.y)
    case Z => (p.x, p.y, p.z)
  }

  /** A cylinder of a radius around a principal axis, cut off at `height`
      on both sides of the origin. */
  datatype CappedCylinder = CappedCylinder(radius: real, height: real, axis: Axis) {
    function Dist(n: Norms, p: V3): real {
      var (a, b, c) := Aligned(axis, p);
      var d := V2(n.mag2(V2(a, b)), c).Abs().Sub(V2(radius, height));
      Min(Max(d.x, d.y), 0.0) + n.mag2(d.Max(Zero2))
    }
  }

  /** A capsule in the plane around the segment from `a` to `b`. */
  datatype Line2 = Line2(a: V2, b: V2, thickness: real) {
    /** The parameter of the point of the segment closest to `p`: the
        projection of `p - a` on `b - a`, clamped to [0, 1]. The Rust code
        divides by `(b - a).(b - a)` without a guard, so the segment must
        not be degenerate. */
    function Param(p: V2): (h: real)
      requires a != b
      ensures 0.0 <= h <= 1.0
    {
      var pa := p.Sub(a);
      var ba := b.Sub(a);
      assert ba != Zero2 by { assert a == b.Sub(ba); }
      DotSelfZero2(ba);
      Clamp(pa.Dot(ba) / ba.Dot(ba), 0.0, 1.0)
    }

    function Dist(n: Norms, p: V2): real
      requires a != b
    {
      var pa := p.Sub(a);
      var ba := b.Sub(a);
      var h := Param(p);
      n.mag2(pa.Sub(ba.Scale(h))) - thickness
    }

    /** The point of the segment at parameter `s`. */
    function PointAt(s: real): V2 {
      a.Add(b.Sub(a).Scale(s))
    }
  }

  /** A capsule in space around the segment from `a` to `b`. */
  datatype Line3 = Line3(a: V3, b: V3, thickness: real) {
    function Param(p: V3): (h: real)
      requires a != b
      ensures 0.0 <= h <= 1.0
    {
      var pa := p.Sub(a);
      var ba := b.Sub(a);
      assert ba != Zero3 by { assert a == b.Sub(ba); }
      DotSelfZero3(ba);
      Clamp(pa.Dot(ba) / ba.Dot(ba), 0.0, 1.0)
    }

    function Dist(n: Norms, p: V3): real
      requires a != b
    {
      var pa := p.Sub(a);
      var ba := b.Sub(a);
      var h := Param(p);
      n.mag3(pa.Sub(ba.Scale(h))) - thickness
    }

    function PointAt(s: real): V3 {
      a.Add(b.Sub(a).Scale(s))
    }
  }
}
