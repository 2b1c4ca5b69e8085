/** Three-component vectors over the reals (src/vector.rs).
    Every `f64` of the source is a `real` here: no rounding, NaN or infinity. */
module Vectors {

  datatype Vec3 = Vec3(x: real, y: real, z: real)

  const Zero := Vec3(0.0, 0.0, 0.0)

  /** `Vec3 + Vec3` */
  function Add(u: Vec3, v: Vec3): Vec3 {
    Vec3(u.x + v.x, u.y + v.y, u.z + v.z)
  }

  /** `Vec3 - Vec3` */
  function Sub(u: Vec3, v: Vec3): Vec3 {
    Vec3(u.x - v.x, u.y - v.y, u.z - v.z)
  }

  /** `Vec3 * Vec3`: the component-wise (Hadamard) product. */
  function Mul(u: Vec3, v: Vec3): Vec3 {
    Vec3(u.x * v.x, u.y * v.y, u.z * v.z)
  }

  /** `Vec3 * f64` */
  function MulScalar(v: Vec3, s: real): Vec3 {
    Vec3(v.x * s, v.y * s, v.z * s)
  }

  /** `f64 * Vec3`, which the source defines as `rhs * self`. */
  function ScalarMul(s: real, v: Vec3): Vec3 {
    MulScalar(v, s)
  }

  /** `Vec3 / f64`, which the source defines as `(1.0 / rhs) * self`.
      Division by zero (an IEEE infinity in the source) is excluded. */
  function Div(v: Vec3, s: real): Vec3
    requires s != 0.0
  {
    ScalarMul(1.0 / s, v)
  }

  /** `-v`, used only to state properties (the source has no `Neg`). */
  function Neg(v: Vec3): Vec3 {
    Vec3(-v.x, -v.y, -v.z)
  }

  function Dot(u: Vec3, v: Vec3): real {
    u.x * v.x + u.y * v.y + u.z * v.z
  }

  /** The right-handed cross product. */
  function Cross(u: Vec3, v: Vec3): Vec3 {
    Vec3(u.y * v.z - u.z * v.y,
         u.z * v.x - u.x * v.z,
         u.x * v.y - u.y * v.x)
  }

  /** Squared length. */
  function Norm2(v: Vec3): real {
    Dot(v, v)
  }

  // ---------------------------------------------------------------------
  // The compound assignments mutate `self.x`, `self.y`, `self.z` one after
  // the other; each method below does the same to a local copy and returns it.

  /** `a += b` */
  method AddAssign(a: Vec3, rhs: Vec3) returns (r: Vec3)
    ensures r == Add(a, rhs)
    ensures Sub(r, rhs) == a
  {
    r := a;
    r := r.(x := r.x + rhs.x);
    r := r.(y := r.y + rhs.y);
    r := r.(z := r.z + rhs.z);
  }

  /** `a -= b` */
  method SubAssign(a: Vec3, rhs: Vec3) returns (r: Vec3)
    ensures r == Sub(a, rhs)
    ensures Add(r, rhs) == a
  {
    r := a;
    r := r.(x := r.x - rhs.x);
    r := r.(y := r.y - rhs.y);
    r := r.(z := r.z - rhs.z);
  }

  /** `a *= s` */
  method MulAssign(a: Vec3, s: real) returns (r: Vec3)
    ensures r == MulScalar(a, s)
    ensures s != 0.0 ==> Div(r, s) == a
  {
    r := a;
    r := r.(x := r.x * s);
    r := r.(y := r.y * s);
    r := r.(z := r.z * s);
    if s != 0.0 {
      DivUndoesScale(a, s);
    }
  }

  // ---------------------------------------------------------------------
  // Algebraic laws of the operators.

  /** Subtraction undoes addition and vice versa. */
  lemma AddSubInverse(u: Vec3, v: Vec3)
    ensures Sub(Add(u, v), v) == u
    ensures Add(Sub(u, v), v) == u
    ensures Add(u, v) == Add(v, u)
  {
  }

  /** The component-wise product is commutative, and multiplying by a
      constant vector `(s, s, s)` is scalar multiplication. */
  lemma MulLaws(u: Vec3, v: Vec3, s: real)
    ensures Mul(u, v) == Mul(v, u)
    ensures Mul(u, Vec3(s, s, s)) == MulScalar(u, s)
  {
  }

  /** Scalar multiplication gives the same vector in both operand orders. */
  lemma ScalarMulCommutes(s: real, v: Vec3)
    ensures ScalarMul(s, v) == MulScalar(v, s)
  {
  }

  /** For a non-zero divisor, `v / s` divides every component by `s`. */
  lemma DivIsComponentwise(v: Vec3, s: real)
    requires s != 0.0
    ensures Div(v, s) == Vec3(v.x / s, v.y / s, v.z / s)
  {
  }

  /** Dividing by a non-zero scalar undoes multiplying by it. */
  lemma DivUndoesScale(v: Vec3, s: real)
    requires s != 0.0
    ensures Div(MulScalar(v, s), s) == v
    ensures MulScalar(Div(v, s), s) == v
  {
    DivIsComponentwise(MulScalar(v, s), s);
    DivIsComponentwise(v, s);
  }

  lemma DotSymmetric(u: Vec3, v: Vec3)
    ensures Dot(u, v) == Dot(v, u)
  {
  }

  lemma CrossAntiCommutative(u: Vec3, v: Vec3)
    ensures Cross(u, v) == Neg(Cross(v, u))
    ensures Cross(u, u) == Zero
  {
  }

  /** The cross product is orthogonal to both of its operands. */
  lemma CrossOrthogonal(u: Vec3, v: Vec3)
    ensures Dot(u, Cross(u, v)) == 0.0
    ensures Dot(v, Cross(u, v)) == 0.0
  {
    TripleExpand(u, u, v);
    TripleExpand(v, u, v);
  }

  /** The scalar triple product is invariant under cyclic permutation and
      changes sign when two operands are swapped. */
  lemma TripleProduct(a: Vec3, b: Vec3, c: Vec3)
    ensures Dot(a, Cross(b, c)) == Dot(b, Cross(c, a))
    ensures Dot(a, Cross(b, c)) == Dot(c, Cross(a, b))
    ensures Dot(a, Cross(b, c)) == -Dot(a, Cross(c, b))
  {
    TripleExpand(a, b, c);
    TripleExpand(b, c, a);
    TripleExpand(c, a, b);
    TripleExpand(a, c, b);
  }

  /** The triple product as the 3x3 determinant of its operands. */
  lemma TripleExpand(a: Vec3, b: Vec3, c: Vec3)
    ensures Dot(a, Cross(b, c)) == Det3(a.x, a.y, a.z, b.x, b.y, b.z, c.x, c.y, c.z)
  {
    DistribSub(b.y * c.z, b.z * c.y, a.x);
    DistribSub(b.z * c.x, b.x * c.z, a.y);
    DistribSub(b.x * c.y, b.y * c.x, a.z);
  }

  /** The determinant with rows `(a1, a2, a3)`, `(b1, b2, b3)`, `(c1, c2, c3)`,
      written out as six monomials. */
  ghost function Det3(a1: real, a2: real, a3: real, b1: real, b2: real, b3: real,
                      c1: real, c2: real, c3: real): real {
    a1 * b2 * c3 - a1 * b3 * c2 + a2 * b3 * c1 - a2 * b1 * c3 + a3 * b1 * c2 - a3 * b2 * c1
  }

  /** Cramer's rule for `s = u e1 + v e2 - t d`: scaled by the determinant
      `det = e1 . (d x e2)`, the vector `s` is the combination of `e1`, `e2`
      and `d` whose coefficients are the triple products the Moller-Trumbore
      test computes. */
  lemma Cramer(e1: Vec3, e2: Vec3, d: Vec3, s: Vec3)
    ensures MulScalar(s, Dot(e1, Cross(d, e2)))
         == Sub(Add(MulScalar(e1, Dot(s, Cross(d, e2))), MulScalar(e2, Dot(d, Cross(s, e1)))),
                MulScalar(d, Dot(e2, Cross(s, e1))))
  {
    TripleExpand(e1, d, e2);
    TripleExpand(s, d, e2);
    TripleExpand(d, s, e1);
    TripleExpand(e2, s, e1);
    CramerAt(e1.x, e1.y, e1.z, e2.x, e2.y, e2.z, d.x, d.y, d.z, s.x, s.y, s.z,
             Dot(e1, Cross(d, e2)), Dot(s, Cross(d, e2)), Dot(d, Cross(s, e1)), Dot(e2, Cross(s, e1)));
  }

  /** `Cramer` on coordinates, with the four determinants given by name. */
  lemma CramerAt(p1: real, p2: real, p3: real, q1: real, q2: real, q3: real,
                 d1: real, d2: real, d3: real, s1: real, s2: real, s3: real,
                 det: real, u: real, v: real, t: real)
    requires det == Det3(p1, p2, p3, d1, d2, d3, q1, q2, q3)
    requires u == Det3(s1, s2, s3, d1, d2, d3, q1, q2, q3)
    requires v == Det3(d1, d2, d3, s1, s2, s3, p1, p2, p3)
    requires t == Det3(q1, q2, q3, s1, s2, s3, p1, p2, p3)
    ensures s1 * det == p1 * u + q1 * v - d1 * t
    ensures s2 * det == p2 * u + q2 * v - d2 * t
    ensures s3 * det == p3 * u + q3 * v - d3 * t
  {
    CramerRow(p1, p2, p3, q1, q2, q3, d1, d2, d3, s1, s2, s3);
    CramerRow(p2, p3, p1, q2, q3, q1, d2, d3, d1, s2, s3, s1);
    CramerRow(p3, p1, p2, q3, q1, q2, d3, d1, d2, s3, s1, s2);
    Det3Rotate(p1, p2, p3, d1, d2, d3, q1, q2, q3);
    Det3Rotate(s1, s2, s3, d1, d2, d3, q1, q2, q3);
    Det3Rotate(d1, d2, d3, s1, s2, s3, p1, p2, p3);
    Det3Rotate(q1, q2, q3, s1, s2, s3, p1, p2, p3);
  }

  /** The first coordinate of `CramerAt`. */
  lemma CramerRow(p1: real, p2: real, p3: real, q1: real, q2: real, q3: real,
                  d1: real, d2: real, d3: real, s1: real, s2: real, s3: real)
    ensures s1 * Det3(p1, p2, p3, d1, d2, d3, q1, q2, q3)
         == p1 * Det3(s1, s2, s3, d1, d2, d3, q1, q2, q3)
          + q1 * Det3(d1, d2, d3, s1, s2, s3, p1, p2, p3)
          - d1 * Det3(q1, q2, q3, s1, s2, s3, p1, p2, p3)
  {
  }

  /** The converse of `Cramer`: when `s = u e1 + v e2 - t d`, the triple
      products are `u`, `v` and `t` times the determinant, so the
      coefficients are unique whenever the determinant is non-zero. */
  lemma CramerUnique(e1: Vec3, e2: Vec3, d: Vec3, s: Vec3, u: real, v: real, t: real)
    requires s == Sub(Add(MulScalar(e1, u), MulScalar(e2, v)), MulScalar(d, t))
    ensures Dot(s, Cross(d, e2)) == u * Dot(e1, Cross(d, e2))
    ensures Dot(d, Cross(s, e1)) == v * Dot(e1, Cross(d, e2))
    ensures Dot(e2, Cross(s, e1)) == t * Dot(e1, Cross(d, e2))
  {
    TripleExpand(e1, d, e2);
    TripleExpand(s, d, e2);
    TripleExpand(d, s, e1);
    TripleExpand(e2, s, e1);
    CoefficientsAt(e1.x, e1.y, e1.z, e2.x, e2.y, e2.z, d.x, d.y, d.z, u, v, t, s.x, s.y, s.z,
                   Dot(e1, Cross(d, e2)), Dot(s, Cross(d, e2)), Dot(d, Cross(s, e1)), Dot(e2, Cross(s, e1)));
  }

  /** `CramerUnique` on coordinates, with the determinants given by name. */
  lemma CoefficientsAt(p1: real, p2: real, p3: real, q1: real, q2: real, q3: real,
                       d1: real, d2: real, d3: real, u: real, v: real, t: real,
                       s1: real, s2: real, s3: real, det: real, su: real, sv: real, st: real)
    requires s1 == p1 * u + q1 * v - d1 * t
    requires s2 == p2 * u + q2 * v - d2 * t
    requires s3 == p3 * u + q3 * v - d3 * t
    requires det == Det3(p1, p2, p3, d1, d2, d3, q1, q2, q3)
    requires su == Det3(s1, s2, s3, d1, d2, d3, q1, q2, q3)
    requires sv == Det3(d1, d2, d3, s1, s2, s3, p1, p2, p3)
    requires st == Det3(q1, q2, q3, s1, s2, s3, p1, p2, p3)
    ensures su == u * det && sv == v * det && st == t * det
  {
    Coefficients(p1, p2, p3, q1, q2, q3, d1, d2, d3, u, v, t);
  }

  /** The polynomial identities behind `CramerUnique`. */
  lemma Coefficients(p1: real, p2: real, p3: real, q1: real, q2: real, q3: real,
                     d1: real, d2: real, d3: real, u: real, v: real, t: real)
    ensures Det3(p1 * u + q1 * v - d1 * t, p2 * u + q2 * v - d2 * t, p3 * u + q3 * v - d3 * t,
                 d1, d2, d3, q1, q2, q3)
         == u * Det3(p1, p2, p3, d1, d2, d3, q1, q2, q3)
    ensures Det3(d1, d2, d3,
                 p1 * u + q1 * v - d1 * t, p2 * u + q2 * v - d2 * t, p3 * u + q3 * v - d3 * t,
                 p1, p2, p3)
         == v * Det3(p1, p2, p3, d1, d2, d3, q1, q2, q3)
    ensures Det3(q1, q2, q3,
                 p1 * u + q1 * v - d1 * t, p2 * u + q2 * v - d2 * t, p3 * u + q3 * v - d3 * t,
                 p1, p2, p3)
         == t * Det3(p1, p2, p3, d1, d2, d3, q1, q2, q3)
  {
  }

  /** A determinant is unchanged when its columns are rotated. */
  lemma Det3Rotate(a1: real, a2: real, a3: real, b1: real, b2: real, b3: real,
                   c1: real, c2: real, c3: real)
    ensures Det3(a2, a3, a1, b2, b3, b1, c2, c3, c1) == Det3(a1, a2, a3, b1, b2, b3, c1, c2, c3)
    ensures Det3(a3, a1, a2, b3, b1, b2, c3, c1, c2) == Det3(a1, a2, a3, b1, b2, b3, c1, c2, c3)
  {
  }

  /** Dot and cross products are linear in their first argument. */
  lemma DotLinear(u: Vec3, v: Vec3, w: Vec3, s: real)
    ensures Dot(Add(u, v), w) == Dot(u, w) + Dot(v, w)
    ensures Dot(Sub(u, v), w) == Dot(u, w) - Dot(v, w)
    ensures Dot(MulScalar(u, s), w) == s * Dot(u, w)
  {
    DistribAdd(u.x, v.x, w.x); DistribAdd(u.y, v.y, w.y); DistribAdd(u.z, v.z, w.z);
    DistribSub(u.x, v.x, w.x); DistribSub(u.y, v.y, w.y); DistribSub(u.z, v.z, w.z);
    ScaleSum(u.x * w.x, u.y * w.y, u.z * w.z, s);
  }

  lemma CrossLinear(u: Vec3, v: Vec3, w: Vec3, s: real)
    ensures Cross(Add(u, v), w) == Add(Cross(u, w), Cross(v, w))
    ensures Cross(Sub(u, v), w) == Sub(Cross(u, w), Cross(v, w))
    ensures Cross(MulScalar(u, s), w) == MulScalar(Cross(u, w), s)
  {
    CrossAdd(u, v, w);
    CrossSub(u, v, w);
    CrossScale(u, w, s);
  }

  lemma CrossAdd(u: Vec3, v: Vec3, w: Vec3)
    ensures Cross(Add(u, v), w) == Add(Cross(u, w), Cross(v, w))
  {
    DistribAdd(u.x, v.x, w.y); DistribAdd(u.x, v.x, w.z);
    DistribAdd(u.y, v.y, w.x); DistribAdd(u.y, v.y, w.z);
    DistribAdd(u.z, v.z, w.x); DistribAdd(u.z, v.z, w.y);
  }

  lemma CrossSub(u: Vec3, v: Vec3, w: Vec3)
    ensures Cross(Sub(u, v), w) == Sub(Cross(u, w), Cross(v, w))
  {
    DistribSub(u.x, v.x, w.y); DistribSub(u.x, v.x, w.z);
    DistribSub(u.y, v.y, w.x); DistribSub(u.y, v.y, w.z);
    DistribSub(u.z, v.z, w.x); DistribSub(u.z, v.z, w.y);
  }

  lemma CrossScale(u: Vec3, w: Vec3, s: real)
    ensures Cross(MulScalar(u, s), w) == MulScalar(Cross(u, w), s)
  {
    assert u == Vec3(u.x, u.y, u.z);
    CrossOfScaled(u.x, u.y, u.z, w, s);
  }

  lemma CrossOfScaled(a: real, b: real, c: real, w: Vec3, s: real)
    ensures Cross(Vec3(a * s, b * s, c * s), w) == MulScalar(Cross(Vec3(a, b, c), w), s)
  {
    ScaledDifference(b, w.z, c, w.y, s);
    ScaledDifference(c, w.x, a, w.z, s);
    ScaledDifference(a, w.y, b, w.x, s);
  }

  // Small facts of real arithmetic, stated once so that the solver does
  // not have to rediscover distributivity inside larger proofs.

  lemma DistribAdd(a: real, b: real, c: real)
    ensures (a + b) * c == a * c + b * c
    ensures c * (a + b) == c * a + c * b
  {
  }

  lemma DistribSub(a: real, b: real, c: real)
    ensures (a - b) * c == a * c - b * c
    ensures c * (a - b) == c * a - c * b
  {
  }

  lemma ScaleSum(a: real, b: real, c: real, s: real)
    ensures s * (a + b + c) == s * a + s * b + s * c
  {
  }

  lemma ScaledDifference(a: real, b: real, c: real, d: real, s: real)
    ensures (a * s) * b - (c * s) * d == (a * b - c * d) * s
  {
  }
}
