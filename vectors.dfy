/** The two- and three-component vectors the primitives are sampled with,
    with the component-wise operations of the `Vec2`/`Vec3` capability
    (`abs`, `max`, `-`, `dot`, scaling) and its `magnitude`.

    The magnitude is a square root, which the reals of the verifier cannot
    produce. It is therefore passed in, as the vector type's capability is in
    the Rust code: `Norms` carries one magnitude per arity, and `Euclidean` states
    the law every implementation must keep (never negative, and its square is
    the vector's dot product with itself). */
module Vectors {
  import opened Scalar

  datatype V2 = V2(x: real, y: real) {
    /** Component-wise absolute value. */
    function Abs(): V2 { V2(Scalar.Abs(x), Scalar.Abs(y)) }
    /** Component-wise maximum. */
    function Max(o: V2): V2 { V2(Scalar.Max(x, o.x), Scalar.Max(y, o.y)) }
    function Add(o: V2): V2 { V2(x + o.x, y + o.y) }
    function Sub(o: V2): V2 { V2(x - o.x, y - o.y) }
    function Scale(h: real): V2 { V2(x * h, y * h) }
    function Dot(o: V2): real { x * o.x + y * o.y }
  }

  datatype V3 = V3(x: real, y: real, z: real) {
    function Abs(): V3 { V3(Scalar.Abs(x), Scalar.Abs(y), Scalar.Abs(z)) }
    function Max(o: V3): V3 { V3(Scalar.Max(x, o.x), Scalar.Max(y, o.y), Scalar.Max(z, o.z)) }
    function Add(o: V3): V3 { V3(x + o.x, y + o.y, z + o.z) }
    function Sub(o: V3): V3 { V3(x - o.x, y - o.y, z - o.z) }
    function Scale(h: real): V3 { V3(x * h, y * h, z * h) }
    function Dot(o: V3): real { x * o.x + y * o.y + z * o.z }
  }

  const Zero2: V2 := V2(0.0, 0.0)
  const Zero3: V3 := V3(0.0, 0.0, 0.0)

  /** The `magnitude()` of each vector arity. */
  datatype Norms = Norms(mag2: V2 -> real, mag3: V3 -> real)

  /** Both magnitudes are the Euclidean norm: never negative, and squared
      they give the vector's dot product with itself. */
  ghost predicate Euclidean(n: Norms) {
    && (forall v: V2 {:trigger v.Dot(v)} :: 0.0 <= n.mag2(v) && Sq(n.mag2(v)) == v.Dot(v))
    && (forall v: V3 {:trigger v.Dot(v)} :: 0.0 <= n.mag3(v) && Sq(n.mag3(v)) == v.Dot(v))
  }

  lemma DotSelf2(v: V2)
    ensures v.Dot(v) == Sq(v.x) + Sq(v.y)
  {
  }

  lemma DotSelf3(v: V3)
    ensures v.Dot(v) == Sq(v.x) + Sq(v.y) + Sq(v.z)
  {
  }

  /** A vector's dot product with itself is zero exactly for the zero vector. */
  lemma DotSelfZero2(v: V2)
    ensures 0.0 <= v.Dot(v)
    ensures v.Dot(v) == 0.0 <==> v == Zero2
  {
    DotSelf2(v);
    SqPositive(v.x);
    SqPositive(v.y);
  }

  lemma DotSelfZero3(v: V3)
    ensures 0.0 <= v.Dot(v)
    ensures v.Dot(v) == 0.0 <==> v == Zero3
  {
    DotSelf3(v);
    SqPositive(v.x);
    SqPositive(v.y);
    SqPositive(v.z);
  }

  /** The law of `Euclidean` at one vector. */
  lemma MagLaw2(n: Norms, v: V2)
    requires Euclidean(n)
    ensures 0.0 <= n.mag2(v) && Sq(n.mag2(v)) == v.Dot(v)
  {
  }

  lemma MagLaw3(n: Norms, v: V3)
    requires Euclidean(n)
    ensures 0.0 <= n.mag3(v) && Sq(n.mag3(v)) == v.Dot(v)
  {
  }

  /** The magnitude is the length: it is fixed by the dot product. */
  lemma MagOfDot2(n: Norms, v: V2, r: real)
    requires Euclidean(n)
    requires 0.0 <= r && v.Dot(v) == Sq(r)
    ensures n.mag2(v) == r
  {
    SqMonotone(n.mag2(v), r);
  }

  lemma MagOfDot3(n: Norms, v: V3, r: real)
    requires Euclidean(n)
    requires 0.0 <= r && v.Dot(v) == Sq(r)
    ensures n.mag3(v) == r
  {
    SqMonotone(n.mag3(v), r);
  }

  /** Comparing magnitudes is comparing dot products. */
  lemma MagCompare2(n: Norms, v: V2, w: V2)
    requires Euclidean(n)
    ensures n.mag2(v) <= n.mag2(w) <==> v.Dot(v) <= w.Dot(w)
    ensures n.mag2(v) < n.mag2(w) <==> v.Dot(v) < w.Dot(w)
    ensures n.mag2(v) == n.mag2(w) <==> v.Dot(v) == w.Dot(w)
  {
    MagLaw2(n, v);
    MagLaw2(n, w);
    SqMonotone(n.mag2(v), n.mag2(w));
  }

  lemma MagCompare3(n: Norms, v: V3, w: V3)
    requires Euclidean(n)
    ensures n.mag3(v) <= n.mag3(w) <==> v.Dot(v) <= w.Dot(w)
    ensures n.mag3(v) < n.mag3(w) <==> v.Dot(v) < w.Dot(w)
    ensures n.mag3(v) == n.mag3(w) <==> v.Dot(v) == w.Dot(w)
  {
    MagLaw3(n, v);
    MagLaw3(n, w);
    SqMonotone(n.mag3(v), n.mag3(w));
  }

  /** The magnitude vanishes exactly on the zero vector. */
  lemma MagZero2(n: Norms, v: V2)
    requires Euclidean(n)
    ensures 0.0 <= n.mag2(v)
    ensures n.mag2(v) == 0.0 <==> v == Zero2
  {
    DotSelfZero2(v);
    SqPositive(n.mag2(v));
  }

  lemma MagZero3(n: Norms, v: V3)
    requires Euclidean(n)
    ensures 0.0 <= n.mag3(v)
    ensures n.mag3(v) == 0.0 <==> v == Zero3
  {
    DotSelfZero3(v);
    SqPositive(n.mag3(v));
  }

  /** Expanding the squared length of `u - s w`. */
  lemma DotExpand2(u: V2, w: V2, s: real)
    ensures u.Sub(w.Scale(s)).Dot(u.Sub(w.Scale(s)))
         == u.Dot(u) - 2.0 * s * u.Dot(w) + s * s * w.Dot(w)
  {
  }

  lemma DotExpand3(u: V3, w: V3, s: real)
    ensures u.Sub(w.Scale(s)).Dot(u.Sub(w.Scale(s)))
         == u.Dot(u) - 2.0 * s * u.Dot(w) + s * s * w.Dot(w)
  {
  }

  /** Scaling a vector scales its dot product with itself by the square. */
  lemma DotScale2(v: V2, k: real)
    ensures v.Scale(k).Dot(v.Scale(k)) == Sq(k) * v.Dot(v)
  {
  }

  lemma DotScale3(v: V3, k: real)
    ensures v.Scale(k).Dot(v.Scale(k)) == Sq(k) * v.Dot(v)
  {
  }

  /** Comparing the squared lengths of `u - h w` and `u - s w` is comparing
      their expansions. */
  lemma DotExpandCompare2(u: V2, w: V2, h: real, s: real)
    requires u.Dot(u) - 2.0 * h * u.Dot(w) + h * h * w.Dot(w)
          <= u.Dot(u) - 2.0 * s * u.Dot(w) + s * s * w.Dot(w)
    ensures u.Sub(w.Scale(h)).Dot(u.Sub(w.Scale(h))) <= u.Sub(w.Scale(s)).Dot(u.Sub(w.Scale(s)))
  {
    DotExpand2(u, w, h);
    DotExpand2(u, w, s);
  }

  /** Comparing the squared lengths of `u - h w` and `u - s w` is comparing
      their expansions. */
  lemma DotExpandCompare3(u: V3, w: V3, h: real, s: real)
    requires u.Dot(u) - 2.0 * h * u.Dot(w) + h * h * w.Dot(w)
          <= u.Dot(u) - 2.0 * s * u.Dot(w) + s * s * w.Dot(w)
    ensures u.Sub(w.Scale(h)).Dot(u.Sub(w.Scale(h))) <= u.Sub(w.Scale(s)).Dot(u.Sub(w.Scale(s)))
  {
    DotExpand3(u, w, h);
    DotExpand3(u, w, s);
  }

  /** Lagrange's identity in the plane: the gap in the Cauchy-Schwarz
      inequality is a square. */
  lemma Lagrange2(p: V2, q: V2)
    ensures p.Dot(p) * q.Dot(q) - Sq(p.Dot(q)) == Sq(p.x * q.y - p.y * q.x)
  {
  }

  /** Lagrange's identity in space. */
  lemma Lagrange3(p: V3, q: V3)
    ensures p.Dot(p) * q.Dot(q) - Sq(p.Dot(q))
         == Sq(p.y * q.z - p.z * q.y) + Sq(p.z * q.x - p.x * q.z) + Sq(p.x * q.y - p.y * q.x)
  {
  }

  /** The Cauchy-Schwarz inequality for the magnitude. */
  lemma CauchySchwarz2(n: Norms, p: V2, q: V2)
    requires Euclidean(n)
    ensures Abs(p.Dot(q)) <= n.mag2(p) * n.mag2(q)
  {
    var mp, mq := n.mag2(p), n.mag2(q);
    MagLaw2(n, p);
    MagLaw2(n, q);
    Lagrange2(p, q);
    SqPositive(p.x * q.y - p.y * q.x);
    MulMonotone(mp, 0.0, mq);
    calc {
      Sq(Abs(p.Dot(q)));
    == { SqAbs(p.Dot(q)); }
      Sq(p.Dot(q));
    <=
      p.Dot(p) * q.Dot(q);
    ==
      Sq(mp) * Sq(mq);
    == { SqProduct(mp, mq); }
      Sq(mp * mq);
    }
    SqMonotone(Abs(p.Dot(q)), mp * mq);
  }

  lemma CauchySchwarz3(n: Norms, p: V3, q: V3)
    requires Euclidean(n)
    ensures Abs(p.Dot(q)) <= n.mag3(p) * n.mag3(q)
  {
    var mp, mq := n.mag3(p), n.mag3(q);
    MagLaw3(n, p);
    MagLaw3(n, q);
    Lagrange3(p, q);
    SqPositive(p.y * q.z - p.z * q.y);
    SqPositive(p.z * q.x - p.x * q.z);
    SqPositive(p.x * q.y - p.y * q.x);
    MulMonotone(mp, 0.0, mq);
    calc {
      Sq(Abs(p.Dot(q)));
    == { SqAbs(p.Dot(q)); }
      Sq(p.Dot(q));
    <=
      p.Dot(p) * q.Dot(q);
    ==
      Sq(mp) * Sq(mq);
    == { SqProduct(mp, mq); }
      Sq(mp * mq);
    }
    SqMonotone(Abs(p.Dot(q)), mp * mq);
  }

  /** The reverse triangle inequality: magnitudes differ by no more than
      the magnitude of the difference. */
  lemma MagTriangle2(n: Norms, p: V2, q: V2)
    requires Euclidean(n)
    ensures Abs(n.mag2(p) - n.mag2(q)) <= n.mag2(p.Sub(q))
  {
    var mp, mq, md := n.mag2(p), n.mag2(q), n.mag2(p.Sub(q));
    MagLaw2(n, p);
    MagLaw2(n, q);
    MagLaw2(n, p.Sub(q));
    CauchySchwarz2(n, p, q);
    calc {
      Sq(Abs(mp - mq));
    == { SqAbs(mp - mq); SqDiff(mp, mq); }
      Sq(mp) - 2.0 * (mp * mq) + Sq(mq);
    <=
      p.Dot(p) - 2.0 * p.Dot(q) + q.Dot(q);
    == { DotExpand2(p, q, 1.0); assert q.Scale(1.0) == q; }
      Sq(md);
    }
    SqMonotone(Abs(mp - mq), md);
  }

  lemma MagTriangle3(n: Norms, p: V3, q: V3)
    requires Euclidean(n)
    ensures Abs(n.mag3(p) - n.mag3(q)) <= n.mag3(p.Sub(q))
  {
    var mp, mq, md := n.mag3(p), n.mag3(q), n.mag3(p.Sub(q));
    MagLaw3(n, p);
    MagLaw3(n, q);
    MagLaw3(n, p.Sub(q));
    CauchySchwarz3(n, p, q);
    calc {
      Sq(Abs(mp - mq));
    == { SqAbs(mp - mq); SqDiff(mp, mq); }
      Sq(mp) - 2.0 * (mp * mq) + Sq(mq);
    <=
      p.Dot(p) - 2.0 * p.Dot(q) + q.Dot(q);
    == { DotExpand3(p, q, 1.0); assert q.Scale(1.0) == q; }
      Sq(md);
    }
    SqMonotone(Abs(mp - mq), md);
  }

  /** No component is longer than the vector. */
  lemma MagComponents2(n: Norms, v: V2)
    requires Euclidean(n)
    ensures Abs(v.x) <= n.mag2(v) && Abs(v.y) <= n.mag2(v)
  {
    MagLaw2(n, v);
    DotSelf2(v);
    SqPositive(v.x);
    SqPositive(v.y);
    SqAbs(v.x);
    SqAbs(v.y);
    SqMonotone(Abs(v.x), n.mag2(v));
    SqMonotone(Abs(v.y), n.mag2(v));
  }

  lemma MagComponents3(n: Norms, v: V3)
    requires Euclidean(n)
    ensures Abs(v.x) <= n.mag3(v) && Abs(v.y) <= n.mag3(v) && Abs(v.z) <= n.mag3(v)
  {
    MagLaw3(n, v);
    DotSelf3(v);
    SqPositive(v.x);
    SqPositive(v.y);
    SqPositive(v.z);
    SqAbs(v.x);
    SqAbs(v.y);
    SqAbs(v.z);
    SqMonotone(Abs(v.x), n.mag3(v));
    SqMonotone(Abs(v.y), n.mag3(v));
    SqMonotone(Abs(v.z), n.mag3(v));
  }

  /** Scaling a vector scales its magnitude by the factor's absolute value. */
  lemma MagScale2(n: Norms, v: V2, k: real)
    requires Euclidean(n)
    ensures n.mag2(v.Scale(k)) == Abs(k) * n.mag2(v)
  {
    var m := n.mag2(v);
    MagLaw2(n, v);
    MulMonotone(Abs(k), 0.0, m);
    calc {
      v.Scale(k).Dot(v.Scale(k));
    == { DotScale2(v, k); }
      Sq(k) * v.Dot(v);
    == { SqAbs(k); }
      Sq(Abs(k)) * Sq(m);
    == { SqProduct(Abs(k), m); }
      Sq(Abs(k) * m);
    }
    MagOfDot2(n, v.Scale(k), Abs(k) * m);
  }

  lemma MagScale3(n: Norms, v: V3, k: real)
    requires Euclidean(n)
    ensures n.mag3(v.Scale(k)) == Abs(k) * n.mag3(v)
  {
    var m := n.mag3(v);
    MagLaw3(n, v);
    MulMonotone(Abs(k), 0.0, m);
    calc {
      v.Scale(k).Dot(v.Scale(k));
    == { DotScale3(v, k); }
      Sq(k) * v.Dot(v);
    == { SqAbs(k); }
      Sq(Abs(k)) * Sq(m);
    == { SqProduct(Abs(k), m); }
      Sq(Abs(k) * m);
    }
    MagOfDot3(n, v.Scale(k), Abs(k) * m);
  }
}
