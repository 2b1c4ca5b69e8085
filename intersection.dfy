/** What the two intersection tests of `ObjectTrait::hit` (src/object.rs)
    decide, stated geometrically: the triangle test decides whether the ray
    meets the closed triangle strictly in front of its origin, the sphere
    test whether the ray's whole line comes within the radius. */
module Intersection {
  import opened Vectors
  import opened Rays
  import opened Objects

  // ---------------------------------------------------------------------
  // Triangles.

  /** The determinant `e1 . (d x e2)` of the triangle test. */
  ghost function Determinant(a: Vec3, b: Vec3, c: Vec3, r: Ray): real {
    Dot(Sub(b, a), Cross(r.dir, Sub(c, a)))
  }

  /** The test's non-parallel condition `|det| >= EPSILON`. */
  ghost predicate NotParallel(det: real) {
    det <= -EPSILON || det >= EPSILON
  }

  /** The barycentric coordinates `u`, `v` and the ray parameter `t` that
      the test computes once the determinant is known to be non-zero. */
  ghost function CoordU(a: Vec3, b: Vec3, c: Vec3, r: Ray): real
    requires Determinant(a, b, c, r) != 0.0
  {
    EdgeU(Sub(b, a), Sub(c, a), Sub(r.origin, a), r.dir)
  }

  ghost function CoordV(a: Vec3, b: Vec3, c: Vec3, r: Ray): real
    requires Determinant(a, b, c, r) != 0.0
  {
    EdgeV(Sub(b, a), Sub(c, a), Sub(r.origin, a), r.dir)
  }

  ghost function CoordT(a: Vec3, b: Vec3, c: Vec3, r: Ray): real
    requires Determinant(a, b, c, r) != 0.0
  {
    EdgeT(Sub(b, a), Sub(c, a), Sub(r.origin, a), r.dir)
  }

  // The same three quantities in terms of the edges `e1`, `e2` and the
  // offset `s` that `EdgeTest` receives.

  ghost function EdgeU(e1: Vec3, e2: Vec3, s: Vec3, d: Vec3): real
    requires Dot(e1, Cross(d, e2)) != 0.0
  {
    (1.0 / Dot(e1, Cross(d, e2))) * Dot(s, Cross(d, e2))
  }

  ghost function EdgeV(e1: Vec3, e2: Vec3, s: Vec3, d: Vec3): real
    requires Dot(e1, Cross(d, e2)) != 0.0
  {
    (1.0 / Dot(e1, Cross(d, e2))) * Dot(d, Cross(s, e1))
  }

  ghost function EdgeT(e1: Vec3, e2: Vec3, s: Vec3, d: Vec3): real
    requires Dot(e1, Cross(d, e2)) != 0.0
  {
    (1.0 / Dot(e1, Cross(d, e2))) * Dot(e2, Cross(s, e1))
  }

  /** `TriangleHitConditions` stated on the edges. */
  lemma EdgeTestConditions(e1: Vec3, e2: Vec3, s: Vec3, d: Vec3)
    ensures EdgeTest(e1, e2, s, d)
        <==> (NotParallel(Dot(e1, Cross(d, e2)))
              && 0.0 <= EdgeU(e1, e2, s, d) <= 1.0
              && EdgeV(e1, e2, s, d) >= 0.0
              && EdgeU(e1, e2, s, d) + EdgeV(e1, e2, s, d) <= 1.0
              && EdgeT(e1, e2, s, d) > EPSILON)
  {
  }

  /** The point of the triangle's plane with barycentric coordinates `u`, `v`. */
  ghost function PlanePoint(a: Vec3, b: Vec3, c: Vec3, u: real, v: real): Vec3 {
    Add(a, Add(MulScalar(Sub(b, a), u), MulScalar(Sub(c, a), v)))
  }

  /** Parameter `t` of the ray and coordinates `u`, `v` name the same point. */
  ghost predicate MeetsAt(a: Vec3, b: Vec3, c: Vec3, r: Ray, t: real, u: real, v: real) {
    At(r, t) == PlanePoint(a, b, c, u, v)
  }

  /** The closed triangle: edges and corners included. */
  ghost predicate InClosedTriangle(u: real, v: real) {
    u >= 0.0 && v >= 0.0 && u + v <= 1.0
  }

  /** A ray (nearly) parallel to the triangle's plane never hits it, wherever
      the triangle's stored centre is. */
  lemma ParallelMisses(a: Vec3, b: Vec3, c: Vec3, center: Vec3, r: Ray)
    requires -EPSILON < Determinant(a, b, c, r) < EPSILON
    ensures !Hit(Triangle(a, b, c, center), r)
  {
  }

  /** The test accepts exactly when the determinant is at least EPSILON in
      magnitude, `0 <= u <= 1`, `v >= 0`, `u + v <= 1` and `t > EPSILON`. */
  lemma TriangleHitConditions(a: Vec3, b: Vec3, c: Vec3, center: Vec3, r: Ray)
    ensures Hit(Triangle(a, b, c, center), r)
        <==> (NotParallel(Determinant(a, b, c, r))
              && 0.0 <= CoordU(a, b, c, r) <= 1.0
              && CoordV(a, b, c, r) >= 0.0
              && CoordU(a, b, c, r) + CoordV(a, b, c, r) <= 1.0
              && CoordT(a, b, c, r) > EPSILON)
  {
    EdgeTestConditions(Sub(b, a), Sub(c, a), Sub(r.origin, a), r.dir);
  }

  /** The cached centre plays no part in the triangle test. */
  lemma TriangleHitIgnoresCenter(a: Vec3, b: Vec3, c: Vec3, center: Vec3, r: Ray)
    ensures Hit(Triangle(a, b, c, center), r) == Hit(NewTriangle(a, b, c), r)
  {
  }

  /** Moving along the ray by `t` reaches the plane point `(u, v)` exactly
      when `o - a = u e1 + v e2 - t d`. */
  lemma MeetsAtIff(a: Vec3, b: Vec3, c: Vec3, r: Ray, t: real, u: real, v: real)
    ensures MeetsAt(a, b, c, r, t, u, v)
        <==> (Sub(r.origin, a)
              == Sub(Add(MulScalar(Sub(b, a), u), MulScalar(Sub(c, a), v)), MulScalar(r.dir, t)))
  {
  }

  /** Dividing the identity of `Cramer` by a non-zero determinant. */
  lemma DivideOut(s1: real, p1: real, q1: real, d1: real, su: real, sv: real, st: real, det: real,
                  u: real, v: real, t: real)
    requires det != 0.0
    requires u == (1.0 / det) * su && v == (1.0 / det) * sv && t == (1.0 / det) * st
    requires s1 * det == p1 * su + q1 * sv - d1 * st
    ensures s1 == p1 * u + q1 * v - d1 * t
  {
    assert p1 * u + q1 * v - d1 * t == (p1 * su + q1 * sv - d1 * st) * (1.0 / det);
  }

  /** `DivideOut` for the three coordinates at once. */
  lemma DivideOutVec(s: Vec3, e1: Vec3, e2: Vec3, d: Vec3, su: real, sv: real, st: real, det: real,
                     u: real, v: real, t: real)
    requires det != 0.0
    requires u == (1.0 / det) * su && v == (1.0 / det) * sv && t == (1.0 / det) * st
    requires MulScalar(s, det) == Sub(Add(MulScalar(e1, su), MulScalar(e2, sv)), MulScalar(d, st))
    ensures s == Sub(Add(MulScalar(e1, u), MulScalar(e2, v)), MulScalar(d, t))
  {
    DivideOut(s.x, e1.x, e2.x, d.x, su, sv, st, det, u, v, t);
    DivideOut(s.y, e1.y, e2.y, d.y, su, sv, st, det, u, v, t);
    DivideOut(s.z, e1.z, e2.z, d.z, su, sv, st, det, u, v, t);
    Recombine(s, e1, e2, d, u, v, t);
  }

  lemma Recombine(s: Vec3, e1: Vec3, e2: Vec3, d: Vec3, u: real, v: real, t: real)
    requires s.x == e1.x * u + e2.x * v - d.x * t
    requires s.y == e1.y * u + e2.y * v - d.y * t
    requires s.z == e1.z * u + e2.z * v - d.z * t
    ensures s == Sub(Add(MulScalar(e1, u), MulScalar(e2, v)), MulScalar(d, t))
  {
  }

  /** With a non-zero determinant the computed `t`, `u`, `v` name one point. */
  lemma ComputedPointMeets(a: Vec3, b: Vec3, c: Vec3, r: Ray)
    requires Determinant(a, b, c, r) != 0.0
    ensures MeetsAt(a, b, c, r, CoordT(a, b, c, r), CoordU(a, b, c, r), CoordV(a, b, c, r))
  {
    // No local variables: the quantities are passed as the very terms that
    // `CoordT`, `CoordU` and `CoordV` are made of.
    Cramer(Sub(b, a), Sub(c, a), r.dir, Sub(r.origin, a));
    DivideOutVec(Sub(r.origin, a), Sub(b, a), Sub(c, a), r.dir,
                 Dot(Sub(r.origin, a), Cross(r.dir, Sub(c, a))),
                 Dot(r.dir, Cross(Sub(r.origin, a), Sub(b, a))),
                 Dot(Sub(c, a), Cross(Sub(r.origin, a), Sub(b, a))),
                 Dot(Sub(b, a), Cross(r.dir, Sub(c, a))),
                 CoordU(a, b, c, r), CoordV(a, b, c, r), CoordT(a, b, c, r));
    MeetsAtIff(a, b, c, r, CoordT(a, b, c, r), CoordU(a, b, c, r), CoordV(a, b, c, r));
  }

  /** With a non-zero determinant, a `t`, `u`, `v` naming one point are the
      computed ones. */
  lemma MeetingPointIsComputed(a: Vec3, b: Vec3, c: Vec3, r: Ray, t: real, u: real, v: real)
    requires Determinant(a, b, c, r) != 0.0
    requires MeetsAt(a, b, c, r, t, u, v)
    ensures CoordT(a, b, c, r) == t && CoordU(a, b, c, r) == u && CoordV(a, b, c, r) == v
  {
    MeetsAtIff(a, b, c, r, t, u, v);
    CramerUnique(Sub(b, a), Sub(c, a), r.dir, Sub(r.origin, a), u, v, t);
  }

  /** The Moller-Trumbore theorem for this test: a non-parallel ray hits the
      triangle exactly when some point `o + t d` with `t > EPSILON` lies in
      the closed triangle. */
  lemma TriangleHitGeometric(a: Vec3, b: Vec3, c: Vec3, center: Vec3, r: Ray)
    ensures Hit(Triangle(a, b, c, center), r)
        <==> (NotParallel(Determinant(a, b, c, r))
              && exists t, u, v :: t > EPSILON && InClosedTriangle(u, v) && MeetsAt(a, b, c, r, t, u, v))
  {
    TriangleHitConditions(a, b, c, center, r);
    if Hit(Triangle(a, b, c, center), r) {
      ComputedPointMeets(a, b, c, r);
    }
    if NotParallel(Determinant(a, b, c, r))
       && exists t, u, v :: t > EPSILON && InClosedTriangle(u, v) && MeetsAt(a, b, c, r, t, u, v)
    {
      var t, u, v :| t > EPSILON && InClosedTriangle(u, v) && MeetsAt(a, b, c, r, t, u, v);
      MeetingPointIsComputed(a, b, c, r, t, u, v);
    }
  }

  // ---------------------------------------------------------------------
  // Spheres.

  // The source's coefficients are `qa = d.d`, `qb = -2 d.oc` and
  // `qc = oc.oc - radius^2`; the functions below take `h = d.oc` in place of
  // `qb`, so that no numeric coefficient has to be matched outside them.

  /** The quadratic `qa t^2 + qb t + qc` at `t`, with `qb = -2 h`. */
  ghost function Quadratic(qa: real, h: real, qc: real, t: real): real {
    qa * t * t + (-2.0 * h) * t + qc
  }

  /** Its discriminant `qb^2 - 4 qa qc`. */
  ghost function Disc(qa: real, h: real, qc: real): real {
    (-2.0 * h) * (-2.0 * h) - 4.0 * qa * qc
  }

  /** The quadratic of the sphere test, `oc` being `center - o`. */
  ghost function SphereQuadratic(center: Vec3, radius: real, r: Ray, t: real): real {
    Quadratic(Dot(r.dir, r.dir), Dot(r.dir, Sub(center, r.origin)),
              Dot(Sub(center, r.origin), Sub(center, r.origin)) - radius * radius, t)
  }

  /** The discriminant the sphere test compares with zero. */
  ghost function Discriminant(center: Vec3, radius: real, r: Ray): real {
    Disc(Dot(r.dir, r.dir), Dot(r.dir, Sub(center, r.origin)),
         Dot(Sub(center, r.origin), Sub(center, r.origin)) - radius * radius)
  }

  /** The sphere test is the sign of the discriminant; a tangent ray hits. */
  lemma SphereHitIff(center: Vec3, radius: real, r: Ray)
    ensures Hit(Sphere(center, radius), r) <==> Discriminant(center, radius, r) >= 0.0
  {
  }

  /** The quadratic is the squared distance of `o + t d` from the centre,
      less the squared radius. */
  lemma QuadraticIsDistance(center: Vec3, radius: real, r: Ray, t: real)
    ensures SphereQuadratic(center, radius, r, t)
         == Vectors.Norm2(Sub(At(r, t), center)) - radius * radius
  {
    DistanceAt(r.origin.x, r.origin.y, r.origin.z, r.dir.x, r.dir.y, r.dir.z,
               center.x, center.y, center.z, t,
               Sub(At(r, t), center).x, Sub(At(r, t), center).y, Sub(At(r, t), center).z,
               Sub(center, r.origin).x, Sub(center, r.origin).y, Sub(center, r.origin).z,
               Vectors.Norm2(Sub(At(r, t), center)), Dot(r.dir, r.dir),
               Dot(r.dir, Sub(center, r.origin)), Dot(Sub(center, r.origin), Sub(center, r.origin)),
               radius * radius);
  }

  /** `QuadraticIsDistance` on coordinates: `w = o + t d - c`, `k = c - o`. */
  lemma DistanceAt(o1: real, o2: real, o3: real, d1: real, d2: real, d3: real,
                   c1: real, c2: real, c3: real, t: real,
                   w1: real, w2: real, w3: real, k1: real, k2: real, k3: real,
                   n: real, dd: real, dk: real, kk: real, rr: real)
    requires w1 == o1 + d1 * t - c1 && w2 == o2 + d2 * t - c2 && w3 == o3 + d3 * t - c3
    requires k1 == c1 - o1 && k2 == c2 - o2 && k3 == c3 - o3
    requires n == w1 * w1 + w2 * w2 + w3 * w3
    requires dd == d1 * d1 + d2 * d2 + d3 * d3
    requires dk == d1 * k1 + d2 * k2 + d3 * k3
    requires kk == k1 * k1 + k2 * k2 + k3 * k3
    ensures Quadratic(dd, dk, kk - rr, t) == n - rr
  {
    assert w1 == d1 * t - k1 && w2 == d2 * t - k2 && w3 == d3 * t - k3;
    SquareOfDifference(d1 * t, k1);
    SquareOfDifference(d2 * t, k2);
    SquareOfDifference(d3 * t, k3);
  }

  lemma SquareOfDifference(a: real, b: real)
    ensures (a - b) * (a - b) == a * a - 2.0 * (a * b) + b * b
  {
  }

  /** Completing the square: `qa q(t) = (qa t - h)^2 - discriminant / 4`. */
  lemma CompletedSquare(qa: real, h: real, qc: real, t: real)
    ensures 4.0 * (qa * Quadratic(qa, h, qc, t)) == 4.0 * ((qa * t - h) * (qa * t - h)) - Disc(qa, h, qc)
  {
  }

  /** A positive factor does not change the sign. */
  lemma PositiveFactor(k: real, x: real)
    requires k > 0.0
    ensures k * x <= 0.0 <==> x <= 0.0
  {
  }

  lemma SquareNonNegative(m: real)
    ensures m * m >= 0.0
  {
  }

  /** At the vertex `h / qa` the quadratic is `-discriminant / (4 qa)`. */
  lemma AtVertex(qa: real, h: real, qc: real)
    requires qa > 0.0
    ensures 4.0 * (qa * Quadratic(qa, h, qc, h / qa)) == -Disc(qa, h, qc)
  {
    CompletedSquare(qa, h, qc, h / qa);
    ZeroSquare(qa * (h / qa) - h);
  }

  lemma ZeroSquare(m: real)
    requires m == 0.0
    ensures m * m == 0.0
  {
  }

  /** For a quadratic with positive leading coefficient: some `t` makes it
      non-positive exactly when the discriminant is non-negative, and then
      the vertex `h / qa` is such a `t`. */
  lemma QuadraticHasNonPositive(qa: real, h: real, qc: real)
    requires qa > 0.0
    ensures (exists t :: Quadratic(qa, h, qc, t) <= 0.0) <==> Disc(qa, h, qc) >= 0.0
    ensures Quadratic(qa, h, qc, h / qa) <= 0.0 <==> Disc(qa, h, qc) >= 0.0
  {
    AtVertex(qa, h, qc);
    PositiveFactor(qa, Quadratic(qa, h, qc, h / qa));
    if exists t :: Quadratic(qa, h, qc, t) <= 0.0 {
      var t :| Quadratic(qa, h, qc, t) <= 0.0;
      CompletedSquare(qa, h, qc, t);
      SquareNonNegative(qa * t - h);
      PositiveFactor(qa, Quadratic(qa, h, qc, t));
    }
  }

  /** For a ray with a non-zero direction the sphere test decides whether the
      ray's LINE, on either side of the origin, comes within the radius. */
  lemma SphereHitGeometric(center: Vec3, radius: real, r: Ray)
    requires Dot(r.dir, r.dir) > 0.0
    ensures Hit(Sphere(center, radius), r)
        <==> exists t :: Vectors.Norm2(Sub(At(r, t), center)) <= radius * radius
  {
    QuadraticHasNonPositive(Dot(r.dir, r.dir), Dot(r.dir, Sub(center, r.origin)),
                            Dot(Sub(center, r.origin), Sub(center, r.origin)) - radius * radius);
    SphereHitIff(center, radius, r);
    if Hit(Sphere(center, radius), r) {
      QuadraticIsDistance(center, radius, r, Dot(r.dir, Sub(center, r.origin)) / Dot(r.dir, r.dir));
    }
    if exists t :: Vectors.Norm2(Sub(At(r, t), center)) <= radius * radius {
      var t :| Vectors.Norm2(Sub(At(r, t), center)) <= radius * radius;
      QuadraticIsDistance(center, radius, r, t);
    }
  }

  /** The point of the line closest to the centre is at `t = d.oc / d.d`;
      the test hits exactly when that point is within the radius. */
  lemma SphereHitClosestPoint(center: Vec3, radius: real, r: Ray)
    requires Dot(r.dir, r.dir) > 0.0
    ensures Hit(Sphere(center, radius), r)
        <==> Vectors.Norm2(Sub(At(r, Dot(r.dir, Sub(center, r.origin)) / Dot(r.dir, r.dir)), center))
             <= radius * radius
  {
    QuadraticHasNonPositive(Dot(r.dir, r.dir), Dot(r.dir, Sub(center, r.origin)),
                            Dot(Sub(center, r.origin), Sub(center, r.origin)) - radius * radius);
    SphereHitIff(center, radius, r);
    QuadraticIsDistance(center, radius, r, Dot(r.dir, Sub(center, r.origin)) / Dot(r.dir, r.dir));
  }

  /** Reversing the direction does not change the sphere test: there is no
      check on the sign of `t`. */
  lemma SphereHitIgnoresDirectionSign(center: Vec3, radius: real, r: Ray)
    ensures Hit(Sphere(center, radius), NewRay(r.origin, Neg(r.dir))) == Hit(Sphere(center, radius), r)
  {
    SphereHitIff(center, radius, NewRay(r.origin, Neg(r.dir)));
    SphereHitIff(center, radius, r);
    NegDots(r.dir, Sub(center, r.origin));
    DiscOfNegated(Dot(r.dir, r.dir), Dot(r.dir, Sub(center, r.origin)),
                  Dot(Sub(center, r.origin), Sub(center, r.origin)) - radius * radius,
                  Dot(Neg(r.dir), Sub(center, r.origin)));
  }

  /** How negating the direction changes the test's dot products. */
  lemma NegDots(d: Vec3, w: Vec3)
    ensures Dot(Neg(d), Neg(d)) == Dot(d, d)
    ensures Dot(Neg(d), w) == -Dot(d, w)
  {
  }

  lemma DiscOfNegated(qa: real, h: real, qc: real, g: real)
    requires g == -h
    ensures Disc(qa, g, qc) == Disc(qa, h, qc)
  {
  }

  /** A ray with zero direction hits every sphere: the discriminant is 0. */
  lemma ZeroDirectionHitsSphere(center: Vec3, radius: real, r: Ray)
    requires r.dir == Zero
    ensures Hit(Sphere(center, radius), r)
  {
    SphereHitIff(center, radius, r);
    ZeroDisc(Dot(r.dir, r.dir), Dot(r.dir, Sub(center, r.origin)),
             Dot(Sub(center, r.origin), Sub(center, r.origin)) - radius * radius,
             r.dir, Sub(center, r.origin));
  }

  lemma ZeroDisc(qa: real, h: real, qc: real, d: Vec3, w: Vec3)
    requires d == Zero && qa == Dot(d, d) && h == Dot(d, w)
    ensures Disc(qa, h, qc) == 0.0
  {
  }
}
