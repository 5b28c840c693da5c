# Signed distance primitives of `sdfu`

This project models the primitive shapes of the `sdfu` signed-distance-field
kernel in Dafny and proves what their distance formulas promise. The shapes are
the sphere, the 3D and 2D axis-aligned boxes, the circle, the torus, the
infinite cylinder, the capped cylinder and the line (capsule). Each one is
centred at the origin of its own local space. Its `dist(p)` is a single
closed-form expression: negative inside the shape, zero on its surface,
positive outside.

How the Rust code of `sdfu` is represented:

- **Numbers.** The scalar type `T` `sdfu` is generic over is a Dafny
  `real`. `min`, `max`, `clamp` and `abs` have their usual meanings
  (`scalar.dfy`). `clamp(x, lo, hi)` is read as `max(lo, min(x, hi))`.
- **Vectors.** The vector types are the datatypes `V2` and `V3`, with
  component-wise `abs` and `max`, subtraction, scaling and `dot`
  (`vectors.dfy`).
- **Magnitude.** The vector types' `magnitude()` is a square root, which the
  verifier's reals cannot produce. It is therefore a parameter: a `Norms`
  value holds one magnitude per arity. Every property is proved for any
  `Norms` that satisfies `Euclidean`, meaning the magnitude is never negative
  and its square is the vector's dot product with itself.
- **Shapes.** Each shape is a datatype whose fields are the Rust struct's
  fields, and its `Dist(n, p)` member transcribes the Rust code's `dist`
  (`primitives.dfy`).
  - The Rust code's `new` constructors only store their arguments, so each one
    is the datatype's constructor: `Sphere(r)`, `Box2D(dims)`,
    `Torus(radius, thickness)` and so on.
  - `Box<V, Dim3D>` and `Box<V, Dim2D>` become `Box3D` and `Box2D`.
  - The `Line` that is generic over its vector type becomes `Line2` and
    `Line3`.
  - `Axis` is a datatype with the same three values.

Two points where the model follows the code rather than a description of it:

- **Torus.** The code subtracts `thickness` from the distance to the Y axis,
  then subtracts `radius` from the length of the resulting 2D vector
  (primitives.rs lines 121-127). The doc comment at lines 100-102 swaps the
  two roles. The model follows the code.
  `Tori.TorusCore` shows the effect: the deepest points, at `-radius`, lie on
  the circle of radius `thickness`.
- **Line.** The code divides by `(b - a)·(b - a)` without a guard (line 227).
  A zero-length segment would be better treated as a single point, but the
  code has no such case. So `Line2.Param`, `Line2.Dist` and their 3D
  versions require `a != b`.

The proofs are in separate modules:

- `Rounds`: sphere and circle.
- `Boxes`: both boxes.
- `Tori`: the torus.
- `Cylinders`: both cylinders.
- `Lines`: both capsules.

## Model

| member | source | states |
|---|---|---|
| Scalar.Min | crates/sdfu/src/primitives.rs:61 | the result is no larger than either argument and is one of them |
| Scalar.Max | crates/sdfu/src/primitives.rs:61 | the result is no smaller than either argument and is one of them |
| Scalar.Clamp | crates/sdfu/src/primitives.rs:228 | for `lo <= hi`: the result is in `[lo, hi]`; it is `x` when `x` is in range, `lo` below the range and `hi` above it |
| Scalar.Abs | crates/sdfu/src/primitives.rs:60 | the result is non-negative and is `x` or `-x` |
| Scalar.ClampMinimisesQuadratic | crates/sdfu/src/primitives.rs:227-228 | for `C > 0`, `clamp(B/C, 0, 1)` minimises `A - 2sB + s²C` over `s` in [0, 1] |
| Rounds.SphereBound | crates/sdfu/src/primitives.rs:32-34 | the sphere distance is never below `-radius`; it equals `-radius` exactly at the centre; with a negative radius it is always positive |
| Rounds.SphereExactBound | crates/sdfu/src/primitives.rs:32-34 | the sphere distance is exact from below: every point `q` of the surface is at least `abs(dist(p))` from `p` |
| Rounds.SphereExactFoot | crates/sdfu/src/primitives.rs:32-34 | for `radius >= 0`, the foot point lies on the sphere at distance exactly `abs(dist(p))` from `p`, the centre included |
| Rounds.SphereSign | crates/sdfu/src/primitives.rs:32-34 | for `radius >= 0`: the distance is negative exactly when `p·p < radius²` and zero exactly when `p·p = radius²` |
| Rounds.SphereRotation | crates/sdfu/src/primitives.rs:32-34 | points at the same distance from the centre have the same sphere distance (rotation invariance) |
| Rounds.CircleBound | crates/sdfu/src/primitives.rs:95-97 | the circle distance is never below `-radius`; it equals `-radius` exactly at the centre; with a negative radius it is always positive |
| Rounds.CircleExactBound | crates/sdfu/src/primitives.rs:95-97 | the circle distance is exact from below: every point `q` of the rim is at least `abs(dist(p))` from `p` |
| Rounds.CircleExactFoot | crates/sdfu/src/primitives.rs:95-97 | for `radius >= 0`, the foot point lies on the rim at distance exactly `abs(dist(p))` from `p`, the centre included |
| Rounds.CircleSign | crates/sdfu/src/primitives.rs:95-97 | for `radius >= 0`: the distance is negative exactly when `p·p < radius²` and zero exactly when `p·p = radius²` |
| Rounds.CircleRotation | crates/sdfu/src/primitives.rs:95-97 | points at the same distance from the centre have the same circle distance |
| Rounds.CircleRay | crates/sdfu/src/primitives.rs:95-97 | at `(x, 0)` with `x >= 0` the circle distance is `x - radius` |
| Rounds.CircleExamples | crates/sdfu/src/primitives.rs:95-97 | a circle of radius 5 gives 0 at (5,0), -5 at (0,0) and 5 at (10,0) |
| Boxes.Box2Terms | crates/sdfu/src/primitives.rs:72-73 | the outside term is `>= 0` and is zero exactly when no component of `d` is positive; the inside term is `<= 0`; at least one of the two is zero; the outside term is at least each component of `d` |
| Boxes.Box2Inside | crates/sdfu/src/primitives.rs:71-74 | the distance is `<= 0` exactly when `abs(p.x) <= dims.x` and `abs(p.y) <= dims.y`, and `< 0` exactly with strict bounds; inside, it is `max(abs(p.x)-dims.x, abs(p.y)-dims.y)`; where positive, it is the outside term |
| Boxes.Box2Lower | crates/sdfu/src/primitives.rs:71-74 | for any dimensions, the distance is at least `max(abs(p.x)-dims.x, abs(p.y)-dims.y)` everywhere |
| Boxes.Box2Mirror | crates/sdfu/src/primitives.rs:72-73 | points with the same `p.abs()` have the same 2D box distance, so negating either coordinate changes nothing |
| Boxes.Box2Centre | crates/sdfu/src/primitives.rs:71-74 | the box with dims (2,3) gives -2 at (0,0) |
| Boxes.Box2Beside | crates/sdfu/src/primitives.rs:71-74 | the box with dims (2,3) gives 3 at (5,0) |
| Boxes.Box3Terms | crates/sdfu/src/primitives.rs:60-61 | the outside term is `>= 0` and is zero exactly when no component is positive; the inside term, with its `y, z, x` max order, is `<= 0`; at least one of the two is zero; the outside term is at least each component of `d` |
| Boxes.Box3Inside | crates/sdfu/src/primitives.rs:59-62 | the distance is `<= 0` (`< 0`) exactly when every `abs(p_i)` is within (strictly within) `dims_i`; inside, it is the max of the three overshoots in x, y, z order; where positive, it is the outside term |
| Boxes.Box3Lower | crates/sdfu/src/primitives.rs:59-62 | for any dimensions, the distance is at least the largest of the three per-axis overshoots everywhere |
| Boxes.Box3Mirror | crates/sdfu/src/primitives.rs:60-61 | points with the same `p.abs()` have the same 3D box distance |
| Tori.TorusSymmetric | crates/sdfu/src/primitives.rs:121-127 | points with the same `x²+z²` and the same `abs(y)` have the same torus distance (rotation about Y, mirroring in the XZ plane) |
| Tori.TorusSwapXZ | crates/sdfu/src/primitives.rs:121-127 | swapping `p.x` and `p.z` leaves the torus distance unchanged |
| Tori.TorusFlipY | crates/sdfu/src/primitives.rs:121-127 | negating `p.y` leaves the torus distance unchanged |
| Tori.TorusBound | crates/sdfu/src/primitives.rs:121-127 | the torus distance is never below `-radius`, for any `radius` and `thickness` |
| Tori.TorusExactBound | crates/sdfu/src/primitives.rs:121-127 | the torus distance is exact from below: every point `q` where the distance is zero is at least `abs(dist(p))` from `p` |
| Tori.TorusCore | crates/sdfu/src/primitives.rs:121-127 | the torus distance equals `-radius` exactly when `thickness >= 0`, `x²+z² = thickness²` and `y = 0`; with a negative `thickness` it never does |
| Tori.TorusSign | crates/sdfu/src/primitives.rs:121-127 | for `radius >= 0`, the torus distance is negative exactly when `(magnitude(x, z) - thickness)² + y² < radius²`, and zero exactly when the two are equal |
| Cylinders.SectionSplit | crates/sdfu/src/primitives.rs:157-161 | for each axis, the cross-section pair plus the axial coordinate determine the point, and their squared lengths add up to the point's |
| Cylinders.SectionForgetsAxis | crates/sdfu/src/primitives.rs:157-161 | two points have the same cross-section pair exactly when they agree off the axis |
| Cylinders.CylinderAxial | crates/sdfu/src/primitives.rs:156-163 | changing the axial coordinate does not change the cylinder distance |
| Cylinders.CylinderBound | crates/sdfu/src/primitives.rs:156-163 | the cylinder distance is never below `-radius`, and equals it exactly on the axis |
| Cylinders.CylinderExactBound | crates/sdfu/src/primitives.rs:156-163 | the cylinder distance is exact from below: every point `q` at distance `radius` from the axis is at least `abs(dist(p))` from `p` |
| Cylinders.CylinderExactFoot | crates/sdfu/src/primitives.rs:156-163 | for `radius >= 0`, the foot point lies on the surface at distance exactly `abs(dist(p))` from `p` |
| Cylinders.CylinderSign | crates/sdfu/src/primitives.rs:156-163 | for `radius >= 0`: the distance is negative (zero) exactly when the squared distance to the axis is below (equal to) `radius²` |
| Cylinders.CylinderRotation | crates/sdfu/src/primitives.rs:156-163 | points at the same distance from the axis have the same cylinder distance |
| Cylinders.AlignedIsSection | crates/sdfu/src/primitives.rs:192-196 | the capped cylinder's `(a, b, c)` is the infinite cylinder's cross-section pair followed by the axial coordinate |
| Cylinders.CappedIsSweptBox | crates/sdfu/src/primitives.rs:191-201 | the capped cylinder distance equals the 2D box with dims `(radius, height)`, sampled at (distance to the axis, axial coordinate) |
| Cylinders.CappedInside | crates/sdfu/src/primitives.rs:191-201 | the distance is `<= 0` (`< 0`) exactly when `magnitude(a,b) <= radius` and `abs(c) <= height` (both strict); inside, it is `max(magnitude(a,b)-radius, abs(c)-height)` |
| Cylinders.CappedBound | crates/sdfu/src/primitives.rs:191-201 | for any dimensions, the distance is at least `max(magnitude(a,b)-radius, abs(c)-height)`, and so never below `max(-radius, -height)` |
| Cylinders.CappedMirror | crates/sdfu/src/primitives.rs:191-201 | the distance depends on the axial coordinate only through its absolute value |
| Primitives.Line2.Param | crates/sdfu/src/primitives.rs:225-228 | for `a != b`, the clamped projection parameter `h` lies in [0, 1] |
| Primitives.Line3.Param | crates/sdfu/src/primitives.rs:225-228 | for `a != b`, the clamped projection parameter `h` lies in [0, 1] |
| Lines.Projection2Nearest | crates/sdfu/src/primitives.rs:225-229 | for `ba != 0`, `pa - ba*h` is at least as short as `pa - ba*s` for every `s` in [0, 1] |
| Lines.Line2Ends | crates/sdfu/src/primitives.rs:224-230 | the capsule distance at `a` and at `b` is `-thickness` |
| Lines.Line2Nearest | crates/sdfu/src/primitives.rs:224-230 | the capsule distance is the distance to the segment point at `h`, minus `thickness`, and no point of the segment is nearer |
| Lines.Line2OnItself | crates/sdfu/src/primitives.rs:224-230 | every point `a + (b - a) s` with `0 <= s <= 1` of the segment lies at distance exactly `-thickness` |
| Lines.Line2Bound | crates/sdfu/src/primitives.rs:224-230 | the capsule distance is never below `-thickness`, and equals it exactly when `p` is its own nearest segment point |
| Lines.Line2Across | crates/sdfu/src/primitives.rs:224-230 | for a segment from the origin along +X, the distance at `(x, y)` with `x` over the segment is `abs(y) - thickness` |
| Lines.Line2OnSegment | crates/sdfu/src/primitives.rs:224-230 | the capsule from (0,0) to (10,0) with thickness 1 gives -1 at every `(x, 0)` with `0 <= x <= 10`, including (5,0) |
| Lines.Line2AboveSegment | crates/sdfu/src/primitives.rs:224-230 | the same capsule gives 2 at (5,3) |
| Lines.Projection3Nearest | crates/sdfu/src/primitives.rs:225-229 | the 3D version of `Projection2Nearest` |
| Lines.Line3Ends | crates/sdfu/src/primitives.rs:224-230 | the 3D capsule distance at `a` and at `b` is `-thickness` |
| Lines.Line3Nearest | crates/sdfu/src/primitives.rs:224-230 | the 3D capsule distance is attained at the segment point at `h`, and no point of the segment is nearer |
| Lines.Line3OnItself | crates/sdfu/src/primitives.rs:224-230 | every point `a + (b - a) s` with `0 <= s <= 1` of the 3D segment lies at distance exactly `-thickness` |
| Lines.Line3Bound | crates/sdfu/src/primitives.rs:224-230 | the 3D capsule distance is never below `-thickness`, and equals it exactly when `p` is its own nearest segment point |

## Left out

- Floating point: `f32` rounding, NaN, infinities and the concrete square root are not modelled. Every number is an exact real, and the magnitude is any function obeying the Euclidean law.
- The Line with `a == b`: the Rust code divides by zero at line 227, which in floating point makes the quotient NaN. What `dist` then returns depends on the `clamp` of the vector library, which is not part of this model: a clamp built on `min`/`max` turns the NaN into 0 or 1 and gives `|p - a| - thickness`, the single-point case; a NaN-propagating clamp gives NaN. The model requires `a != b` and covers neither outcome.
- Exact distance to the boundary: for the sphere, the circle and the infinite cylinder the model proves both halves of exactness (no surface point nearer than `abs(dist)`, and a surface point at exactly that distance). For the torus it proves only the first half: the nearest surface point is not constructed, and for a self-intersecting torus (`radius > thickness`) it need not exist. For the boxes and the capped cylinder, the model proves the sign, the inside formula and the split into two terms. It does not prove that the value is the Euclidean distance to the nearest boundary point. For the capsule, it does prove that the distance is the distance to the nearest point of the segment, minus `thickness`.
- Combinators and transforms: `subtract`, `union`, `translate`, `Triangle`, the `SDF` trait itself and the `mathtypes` vector traits are not part of this model. Their definitions are not among the files modelled.
- The game crates are not part of this model: the boid steering systems, the plugin wiring, the level data and the application entry point. They are engine plumbing and floating-point vector code.
