/** Quaternions and the rotations they describe (src/rotation.rs), together
    with `Vec3::rotate_around_point` of src/vector.rs, which lives here because
    it needs quaternions and Dafny modules cannot import each other in a cycle.

    `libm::sin` and `libm::cos` cannot be computed over the reals; every
    function that needs them takes them as parameters `sin` and `cos`, and
    the lemmas state which trigonometric facts they rely on. */
module Rotation {
  import opened Vectors

  datatype Quaternion = Quaternion(w: real, x: real, y: real, z: real)

  const Identity := Quaternion(1.0, 0.0, 0.0, 0.0)

  /** `q` is `(1, 0, 0, 0)`, stated component by component. */
  predicate IsIdentity(q: Quaternion) {
    q.w == 1.0 && q.x == 0.0 && q.y == 0.0 && q.z == 0.0
  }

  /** `Quaternion::new_from_point`: the pure quaternion `(0, p)`. The source
      also computes `sqrt(|p|^2)` into a variable it never reads; that dead
      computation has no counterpart here. */
  function FromPoint(p: Vec3): (r: Quaternion)
    ensures r.w == 0.0 && VectorPart(r) == p
  {
    Quaternion(0.0, p.x, p.y, p.z)
  }

  /** The vector part `(x, y, z)`, as `rotate` reads it off its result. */
  function VectorPart(q: Quaternion): Vec3 {
    Vec3(q.x, q.y, q.z)
  }

  function Conjugate(q: Quaternion): Quaternion {
    Quaternion(q.w, -q.x, -q.y, -q.z)
  }

  /** The Hamilton product (`impl Mul for Quaternion`). */
  function Mul(p: Quaternion, q: Quaternion): Quaternion {
    Quaternion(p.w * q.w - p.x * q.x - p.y * q.y - p.z * q.z,
               p.w * q.x + p.x * q.w + p.y * q.z - p.z * q.y,
               p.w * q.y - p.x * q.z + p.y * q.w + p.z * q.x,
               p.w * q.z + p.x * q.y - p.y * q.x + p.z * q.w)
  }

  /** Squared norm `w^2 + x^2 + y^2 + z^2`. */
  function Norm2(q: Quaternion): real {
    SumOfSquares(q.w, q.x, q.y, q.z)
  }

  function SumOfSquares(a: real, b: real, c: real, d: real): real {
    a * a + b * b + c * c + d * d
  }

  /** `Quaternion::rotate`: the vector part of `q * (0, p) * conj(q)`. No
      normalisation: the caller supplies a unit quaternion when it wants a
      rotation. */
  function Rotate(q: Quaternion, p: Vec3): Vec3 {
    VectorPart(Mul(Mul(q, FromPoint(p)), Conjugate(q)))
  }

  /** `Quaternion::euler_to_quaternion`. The Euler triple is (pitch, heading,
      bank) = (x, y, z); the six half-angle sines and cosines come from the
      `sin` and `cos` parameters. */
  function EulerToQuaternion(euler: Vec3, sin: real -> real, cos: real -> real): Quaternion {
    var hc := cos(euler.y / 2.0);
    var pc := cos(euler.x / 2.0);
    var bc := cos(euler.z / 2.0);
    var hs := sin(euler.y / 2.0);
    var ps := sin(euler.x / 2.0);
    var bs := sin(euler.z / 2.0);
    Quaternion(hc * pc * bc + hs * ps * bs,
               -hc * ps * bc - hs * pc * bs,
               hc * ps * bs - hs * pc * bc,
               hs * ps * bc - hc * pc * bs)
  }

  /** `Vec3::rotate_around_point` (src/vector.rs): move the pivot to the
      origin, rotate, move back. */
  function RotateAroundPoint(p: Vec3, center: Vec3, q: Quaternion): Vec3 {
    var offset := Vec3(p.x - center.x, p.y - center.y, p.z - center.z);
    var rotated := Rotate(q, offset);
    Vec3(rotated.x + center.x, rotated.y + center.y, rotated.z + center.z)
  }

  // ---------------------------------------------------------------------
  // What the trigonometric parameters are assumed to satisfy.

  /** `sin a` and `cos a` lie on the unit circle. */
  ghost predicate PythagoreanAt(sin: real -> real, cos: real -> real, a: real) {
    sin(a) * sin(a) + cos(a) * cos(a) == 1.0
  }

  // ---------------------------------------------------------------------
  // Properties of the quaternion operations.

  lemma FromPointRoundTrip(p: Vec3)
    ensures VectorPart(FromPoint(p)) == p
    ensures Conjugate(FromPoint(p)) == FromPoint(Neg(p))
  {
  }

  /** Conjugation keeps `w`, negates the vector part, is an involution and
      keeps the norm. */
  lemma ConjugateInvolution(q: Quaternion)
    ensures Conjugate(q).w == q.w && VectorPart(Conjugate(q)) == Neg(VectorPart(q))
    ensures Conjugate(Conjugate(q)) == q
    ensures Norm2(Conjugate(q)) == Norm2(q)
  {
  }

  /** `(1, 0, 0, 0)` is a two-sided identity of the Hamilton product. */
  lemma MulIdentity(q: Quaternion)
    ensures Mul(Identity, q) == q
    ensures Mul(q, Identity) == q
  {
  }

  /** Lagrange's four-square identity, the algebra behind `NormMultiplicative`. */
  lemma FourSquares(a1: real, b1: real, c1: real, d1: real, a2: real, b2: real, c2: real, d2: real)
    ensures SumOfSquares(a1 * a2 - b1 * b2 - c1 * c2 - d1 * d2,
                         a1 * b2 + b1 * a2 + c1 * d2 - d1 * c2,
                         a1 * c2 - b1 * d2 + c1 * a2 + d1 * b2,
                         a1 * d2 + b1 * c2 - c1 * b2 + d1 * a2)
         == SumOfSquares(a1, b1, c1, d1) * SumOfSquares(a2, b2, c2, d2)
  {
    Square4(a1 * a2, -(b1 * b2), -(c1 * c2), -(d1 * d2));
    Square4(a1 * b2, b1 * a2, c1 * d2, -(d1 * c2));
    Square4(a1 * c2, -(b1 * d2), c1 * a2, d1 * b2);
    Square4(a1 * d2, b1 * c2, -(c1 * b2), d1 * a2);
    Product4(a1 * a1, b1 * b1, c1 * c1, d1 * d1, a2 * a2, b2 * b2, c2 * c2, d2 * d2);
  }

  lemma Square4(a: real, b: real, c: real, d: real)
    ensures (a + b + c + d) * (a + b + c + d)
         == a * a + b * b + c * c + d * d + 2.0 * (a * b + a * c + a * d + b * c + b * d + c * d)
  {
  }

  lemma Product4(a: real, b: real, c: real, d: real, e: real, f: real, g: real, h: real)
    ensures (a + b + c + d) * (e + f + g + h)
         == a * e + a * f + a * g + a * h + b * e + b * f + b * g + b * h
          + c * e + c * f + c * g + c * h + d * e + d * f + d * g + d * h
  {
  }

  /** The norm is multiplicative: `|p q|^2 = |p|^2 |q|^2`. */
  lemma NormMultiplicative(p: Quaternion, q: Quaternion)
    ensures Norm2(Mul(p, q)) == Norm2(p) * Norm2(q)
  {
    FourSquares(p.w, p.x, p.y, p.z, q.w, q.x, q.y, q.z);
  }

  /** The closed form of `q (0, p) conj(q)` for `q = (w, v)`:
      `(w^2 - |v|^2) p + 2 (v . p) v + 2 w (v x p)`. */
  ghost function Sandwich(w: real, x: real, y: real, z: real, px: real, py: real, pz: real): Vec3 {
    var k := w * w - (x * x + y * y + z * z);
    var d := x * px + y * py + z * pz;
    Vec3(px * k + x * (2.0 * d) + (y * pz - z * py) * (2.0 * w),
         py * k + y * (2.0 * d) + (z * px - x * pz) * (2.0 * w),
         pz * k + z * (2.0 * d) + (x * py - y * px) * (2.0 * w))
  }

  lemma SandwichExpand(w: real, x: real, y: real, z: real, px: real, py: real, pz: real)
    ensures var s := Sandwich(w, x, y, z, px, py, pz);
            Mul(Mul(Quaternion(w, x, y, z), Quaternion(0.0, px, py, pz)), Quaternion(w, -x, -y, -z))
            == Quaternion(0.0, s.x, s.y, s.z)
  {
  }

  lemma SandwichLinear(w: real, x: real, y: real, z: real,
                       px: real, py: real, pz: real, rx: real, ry: real, rz: real, k: real)
    ensures Sandwich(w, x, y, z, px + rx, py + ry, pz + rz)
         == Add(Sandwich(w, x, y, z, px, py, pz), Sandwich(w, x, y, z, rx, ry, rz))
    ensures Sandwich(w, x, y, z, px * k, py * k, pz * k)
         == MulScalar(Sandwich(w, x, y, z, px, py, pz), k)
  {
  }

  /** `q (0, p) conj(q)` has real part zero and vector part `Sandwich`. */
  lemma RotateFormula(q: Quaternion, p: Vec3)
    ensures Mul(Mul(q, FromPoint(p)), Conjugate(q)).w == 0.0
    ensures Rotate(q, p) == Sandwich(q.w, q.x, q.y, q.z, p.x, p.y, p.z)
  {
    SandwichExpand(q.w, q.x, q.y, q.z, p.x, p.y, p.z);
  }

  /** Rotating by the identity quaternion changes nothing. */
  lemma RotateIdentity(q: Quaternion, p: Vec3)
    requires IsIdentity(q)
    ensures Rotate(q, p) == p
  {
    RotateFormula(q, p);
  }

  /** For any quaternion, `rotate` is linear in the point. */
  lemma RotateLinear(q: Quaternion, p: Vec3, r: Vec3, k: real)
    ensures Rotate(q, Add(p, r)) == Add(Rotate(q, p), Rotate(q, r))
    ensures Rotate(q, MulScalar(p, k)) == MulScalar(Rotate(q, p), k)
  {
    RotateFormula(q, p);
    RotateFormula(q, r);
    RotateFormula(q, Add(p, r));
    RotateFormula(q, MulScalar(p, k));
    SandwichLinear(q.w, q.x, q.y, q.z, p.x, p.y, p.z, r.x, r.y, r.z, k);
    assert MulScalar(p, k) == Vec3(p.x * k, p.y * k, p.z * k);
  }

  /** Consequently the origin is fixed by every rotation. */
  lemma RotateZero(q: Quaternion)
    ensures Rotate(q, Zero) == Zero
  {
    RotateFormula(q, Zero);
  }

  /** Rotating by a unit quaternion preserves the squared length. */
  lemma RotatePreservesLength(q: Quaternion, p: Vec3)
    requires Norm2(q) == 1.0
    ensures Dot(Rotate(q, p), Rotate(q, p)) == Dot(p, p)
  {
    var m := Mul(q, FromPoint(p));
    var r := Mul(m, Conjugate(q));
    NormMultiplicative(q, FromPoint(p));
    NormMultiplicative(m, Conjugate(q));
    ConjugateInvolution(q);
    RotateFormula(q, p);
    assert Norm2(r) == Norm2(FromPoint(p));
    assert Dot(Rotate(q, p), Rotate(q, p)) == Norm2(r);
  }

  // ---------------------------------------------------------------------
  // The Euler-angle conversion.

  /** The quaternion of `euler_to_quaternion` is the conjugate of the product
      heading * pitch * bank of three single-axis half-angle quaternions. */
  lemma EulerIsComposition(euler: Vec3, sin: real -> real, cos: real -> real)
    ensures EulerToQuaternion(euler, sin, cos)
         == Conjugate(Mul(Mul(Quaternion(cos(euler.y / 2.0), 0.0, sin(euler.y / 2.0), 0.0),
                              Quaternion(cos(euler.x / 2.0), sin(euler.x / 2.0), 0.0, 0.0)),
                          Quaternion(cos(euler.z / 2.0), 0.0, 0.0, sin(euler.z / 2.0))))
  {
  }

  /** With each half-angle sine and cosine on the unit circle, the Euler
      quaternion is a unit quaternion, so `rotate` by it is a rotation. */
  lemma EulerIsUnit(euler: Vec3, sin: real -> real, cos: real -> real)
    requires PythagoreanAt(sin, cos, euler.x / 2.0)
    requires PythagoreanAt(sin, cos, euler.y / 2.0)
    requires PythagoreanAt(sin, cos, euler.z / 2.0)
    ensures Norm2(EulerToQuaternion(euler, sin, cos)) == 1.0
  {
    var h := Quaternion(cos(euler.y / 2.0), 0.0, sin(euler.y / 2.0), 0.0);
    var p := Quaternion(cos(euler.x / 2.0), sin(euler.x / 2.0), 0.0, 0.0);
    var b := Quaternion(cos(euler.z / 2.0), 0.0, 0.0, sin(euler.z / 2.0));
    EulerIsComposition(euler, sin, cos);
    NormMultiplicative(h, p);
    NormMultiplicative(Mul(h, p), b);
    ConjugateInvolution(Mul(Mul(h, p), b));
  }

  /** Zero angles give the identity quaternion. */
  lemma EulerZero(sin: real -> real, cos: real -> real)
    requires sin(0.0) == 0.0 && cos(0.0) == 1.0
    ensures IsIdentity(EulerToQuaternion(Zero, sin, cos))
  {
  }

  // ---------------------------------------------------------------------
  // Rotation about a pivot.

  /** `rotate_around_point` in vector notation: `center + rotate(p - center)`. */
  lemma RotateAroundPointIs(p: Vec3, center: Vec3, q: Quaternion)
    ensures RotateAroundPoint(p, center, q) == Add(center, Rotate(q, Sub(p, center)))
  {
  }

  /** A point whose offset from the pivot is left alone is left alone. */
  lemma FixedWhenOffsetFixed(p: Vec3, center: Vec3, q: Quaternion)
    requires Rotate(q, Sub(p, center)) == Sub(p, center)
    ensures RotateAroundPoint(p, center, q) == p
  {
    RotateAroundPointIs(p, center, q);
  }

  /** The identity quaternion leaves every point where it is. */
  lemma RotateAroundPointIdentity(p: Vec3, center: Vec3, q: Quaternion)
    requires IsIdentity(q)
    ensures RotateAroundPoint(p, center, q) == p
  {
    RotateIdentity(q, Sub(p, center));
    FixedWhenOffsetFixed(p, center, q);
  }

  /** The result depends only on the offset from the pivot: the point
      `c + d` goes to `c + rotate(d)`. */
  lemma RotateAroundPointOffset(c: Vec3, d: Vec3, q: Quaternion)
    ensures RotateAroundPoint(Add(c, d), c, q) == Add(c, Rotate(q, d))
  {
    assert Sub(Add(c, d), c) == d;
  }

  /** The pivot is a fixed point of every rotation about it. */
  lemma PivotFixed(c: Vec3, q: Quaternion)
    ensures RotateAroundPoint(c, c, q) == c
  {
    RotateZero(q);
    assert Sub(c, c) == Zero;
  }

  /** A rotation about a pivot is rigid when the quaternion is a unit one:
      it keeps the squared distance between any two points. */
  lemma RotateAroundPointRigid(p: Vec3, r: Vec3, center: Vec3, q: Quaternion)
    requires Norm2(q) == 1.0
    ensures Vectors.Norm2(Sub(RotateAroundPoint(p, center, q), RotateAroundPoint(r, center, q)))
         == Vectors.Norm2(Sub(p, r))
  {
    var dp := Sub(p, center);
    var dr := Sub(r, center);
    RotateLinear(q, dr, Sub(dp, dr), 1.0);
    assert Add(dr, Sub(dp, dr)) == dp;
    assert Sub(RotateAroundPoint(p, center, q), RotateAroundPoint(r, center, q))
        == Rotate(q, Sub(dp, dr));
    RotatePreservesLength(q, Sub(dp, dr));
    assert Sub(dp, dr) == Sub(p, r);
  }

  /** Zero Euler angles rotate nothing, about any pivot. */
  lemma RotateAroundPointZeroEuler(p: Vec3, center: Vec3, sin: real -> real, cos: real -> real)
    requires sin(0.0) == 0.0 && cos(0.0) == 1.0
    ensures RotateAroundPoint(p, center, EulerToQuaternion(Zero, sin, cos)) == p
  {
    EulerZero(sin, cos);
    RotateAroundPointIdentity(p, center, EulerToQuaternion(Zero, sin, cos));
  }

  /** Four quarter turns about the pitch axis are a full turn. A quarter turn
      has half-angle pi/4, whose sine and cosine are the same number `c` with
      `c^2 = 1/2`; the quaternion is then `(c, -c, 0, 0)`. */
  lemma FourQuarterTurns(p: Vec3, center: Vec3, sin: real -> real, cos: real -> real, quarter: real)
    requires cos(quarter / 2.0) == sin(quarter / 2.0)
    requires cos(quarter / 2.0) * cos(quarter / 2.0) == 0.5
    requires sin(0.0) == 0.0 && cos(0.0) == 1.0
    ensures var q := EulerToQuaternion(Vec3(quarter, 0.0, 0.0), sin, cos);
            RotateAroundPoint(RotateAroundPoint(RotateAroundPoint(RotateAroundPoint(
              p, center, q), center, q), center, q), center, q) == p
  {
    var c := cos(quarter / 2.0);
    var q := EulerToQuaternion(Vec3(quarter, 0.0, 0.0), sin, cos);
    assert q == Quaternion(c, -c, 0.0, 0.0);
    var p1 := RotateAroundPoint(p, center, q);
    var p2 := RotateAroundPoint(p1, center, q);
    var p3 := RotateAroundPoint(p2, center, q);
    QuarterTurnAbout(p, center, q, c);
    QuarterTurnAbout(p1, center, q, c);
    QuarterTurnAbout(p2, center, q, c);
    QuarterTurnAbout(p3, center, q, c);
  }

  /** The quaternion `(c, -c, 0, 0)` with `c^2 = 1/2` maps `(x, y, z)` to
      `(x, z, -y)`. */
  lemma QuarterTurn(q: Quaternion, c: real, d: Vec3)
    requires q == Quaternion(c, -c, 0.0, 0.0) && c * c == 0.5
    ensures Rotate(q, d) == Vec3(d.x, d.z, -d.y)
  {
    RotateFormula(q, d);
  }

  /** The same quarter turn about a pivot. */
  lemma QuarterTurnAbout(p: Vec3, center: Vec3, q: Quaternion, c: real)
    requires q == Quaternion(c, -c, 0.0, 0.0) && c * c == 0.5
    ensures RotateAroundPoint(p, center, q)
         == Vec3(p.x, center.y + (p.z - center.z), center.z - (p.y - center.y))
  {
    QuarterTurn(q, c, Vec3(p.x - center.x, p.y - center.y, p.z - center.z));
  }
}
