/** The scene of `main` (src/main.rs) seen along the view axis: the ray from
    the camera at the origin straight ahead, `(0, 0, -1)`, meets the scene
    triangle with `det = 1`, `u = v = 1/4` and `t = 1`; the ray straight
    behind, `(0, 0, 1)`, meets the triangle's plane at `t = -1` and so is
    rejected by the strict `t > EPSILON` test. */
module Scene {
  import opened Vectors
  import opened Rays
  import opened Objects
  import opened Intersection
  import opened Render

  /** Once the four products of the test are known, and the determinant and
      barycentric checks pass on them, the test's verdict is the sign test
      on `t`. */
  lemma EdgeTestByValues(e1: Vec3, e2: Vec3, s: Vec3, d: Vec3, det: real, du: real, dv: real, dt: real)
    requires Dot(e1, Cross(d, e2)) == det && Dot(s, Cross(d, e2)) == du
    requires Dot(d, Cross(s, e1)) == dv && Dot(e2, Cross(s, e1)) == dt
    requires !(det > -EPSILON && det < EPSILON)
    requires 0.0 <= (1.0 / det) * du <= 1.0 && (1.0 / det) * dv >= 0.0
    requires (1.0 / det) * du + (1.0 / det) * dv <= 1.0
    ensures EdgeTest(e1, e2, s, d) == ((1.0 / det) * dt > EPSILON)
  {
    EdgeTestConditions(e1, e2, s, d);
  }

  // The edges and offset of the scene triangle, seen from the origin, and
  // the cross and dot products the test forms from them, one fact each.

  lemma EdgeOne() ensures Sub(Vec3(-0.5, -0.5, -1.0), Vec3(0.0, 0.5, -1.0)) == Vec3(-0.5, -1.0, 0.0) {}
  lemma EdgeTwo() ensures Sub(Vec3(0.5, -0.5, -1.0), Vec3(0.0, 0.5, -1.0)) == Vec3(0.5, -1.0, 0.0) {}
  lemma Offset() ensures Sub(Vec3(0.0, 0.0, 0.0), Vec3(0.0, 0.5, -1.0)) == Vec3(0.0, -0.5, 1.0) {}
  lemma OffsetCrossEdge() ensures Cross(Vec3(0.0, -0.5, 1.0), Vec3(-0.5, -1.0, 0.0)) == Vec3(1.0, -0.5, -0.25) {}
  lemma EdgeTwoDotOffsetCross() ensures Dot(Vec3(0.5, -1.0, 0.0), Vec3(1.0, -0.5, -0.25)) == 1.0 {}

  lemma AheadCross() ensures Cross(Vec3(0.0, 0.0, -1.0), Vec3(0.5, -1.0, 0.0)) == Vec3(-1.0, -0.5, 0.0) {}
  lemma AheadDet() ensures Dot(Vec3(-0.5, -1.0, 0.0), Vec3(-1.0, -0.5, 0.0)) == 1.0 {}
  lemma AheadU() ensures Dot(Vec3(0.0, -0.5, 1.0), Vec3(-1.0, -0.5, 0.0)) == 0.25 {}
  lemma AheadV() ensures Dot(Vec3(0.0, 0.0, -1.0), Vec3(1.0, -0.5, -0.25)) == 0.25 {}

  lemma BehindCross() ensures Cross(Vec3(0.0, 0.0, 1.0), Vec3(0.5, -1.0, 0.0)) == Vec3(1.0, 0.5, 0.0) {}
  lemma BehindDet() ensures Dot(Vec3(-0.5, -1.0, 0.0), Vec3(1.0, 0.5, 0.0)) == -1.0 {}
  lemma BehindU() ensures Dot(Vec3(0.0, -0.5, 1.0), Vec3(1.0, 0.5, 0.0)) == -0.25 {}
  lemma BehindV() ensures Dot(Vec3(0.0, 0.0, 1.0), Vec3(1.0, -0.5, -0.25)) == -0.25 {}

  /** The products for the ray straight ahead. */
  lemma AheadEdgeProducts(e1: Vec3, e2: Vec3, s: Vec3, d: Vec3)
    requires e1 == Vec3(-0.5, -1.0, 0.0) && e2 == Vec3(0.5, -1.0, 0.0)
    requires s == Vec3(0.0, -0.5, 1.0) && d == Vec3(0.0, 0.0, -1.0)
    ensures Cross(d, e2) == Vec3(-1.0, -0.5, 0.0) && Cross(s, e1) == Vec3(1.0, -0.5, -0.25)
    ensures Dot(e1, Vec3(-1.0, -0.5, 0.0)) == 1.0 && Dot(s, Vec3(-1.0, -0.5, 0.0)) == 0.25
    ensures Dot(d, Vec3(1.0, -0.5, -0.25)) == 0.25 && Dot(e2, Vec3(1.0, -0.5, -0.25)) == 1.0
  {
    AheadCross(); AheadDet(); AheadU(); OffsetCrossEdge(); AheadV(); EdgeTwoDotOffsetCross();
  }

  /** The products for the ray straight behind. */
  lemma BehindEdgeProducts(e1: Vec3, e2: Vec3, s: Vec3, d: Vec3)
    requires e1 == Vec3(-0.5, -1.0, 0.0) && e2 == Vec3(0.5, -1.0, 0.0)
    requires s == Vec3(0.0, -0.5, 1.0) && d == Vec3(0.0, 0.0, 1.0)
    ensures Cross(d, e2) == Vec3(1.0, 0.5, 0.0) && Cross(s, e1) == Vec3(1.0, -0.5, -0.25)
    ensures Dot(e1, Vec3(1.0, 0.5, 0.0)) == -1.0 && Dot(s, Vec3(1.0, 0.5, 0.0)) == -0.25
    ensures Dot(d, Vec3(1.0, -0.5, -0.25)) == -0.25 && Dot(e2, Vec3(1.0, -0.5, -0.25)) == 1.0
  {
    BehindCross(); BehindDet(); BehindU(); OffsetCrossEdge(); BehindV(); EdgeTwoDotOffsetCross();
  }

  /** The same products, reached from the scene's vertices and a ray from
      the origin along `(0, 0, -1)`. */
  lemma AheadProducts(a: Vec3, b: Vec3, c: Vec3, r: Ray)
    requires a == Vec3(0.0, 0.5, -1.0) && b == Vec3(-0.5, -0.5, -1.0) && c == Vec3(0.5, -0.5, -1.0)
    requires r == Ray(Vec3(0.0, 0.0, 0.0), Vec3(0.0, 0.0, -1.0))
    ensures Cross(r.dir, Sub(c, a)) == Vec3(-1.0, -0.5, 0.0) && Cross(Sub(r.origin, a), Sub(b, a)) == Vec3(1.0, -0.5, -0.25)
    ensures Dot(Sub(b, a), Vec3(-1.0, -0.5, 0.0)) == 1.0 && Dot(Sub(r.origin, a), Vec3(-1.0, -0.5, 0.0)) == 0.25
    ensures Dot(r.dir, Vec3(1.0, -0.5, -0.25)) == 0.25 && Dot(Sub(c, a), Vec3(1.0, -0.5, -0.25)) == 1.0
  {
    EdgeOne(); EdgeTwo(); Offset();
    AheadEdgeProducts(Sub(b, a), Sub(c, a), Sub(r.origin, a), r.dir);
  }

  /** The same products, reached from the scene's vertices and a ray from
      the origin along `(0, 0, 1)`. */
  lemma BehindProducts(a: Vec3, b: Vec3, c: Vec3, r: Ray)
    requires a == Vec3(0.0, 0.5, -1.0) && b == Vec3(-0.5, -0.5, -1.0) && c == Vec3(0.5, -0.5, -1.0)
    requires r == Ray(Vec3(0.0, 0.0, 0.0), Vec3(0.0, 0.0, 1.0))
    ensures Cross(r.dir, Sub(c, a)) == Vec3(1.0, 0.5, 0.0) && Cross(Sub(r.origin, a), Sub(b, a)) == Vec3(1.0, -0.5, -0.25)
    ensures Dot(Sub(b, a), Vec3(1.0, 0.5, 0.0)) == -1.0 && Dot(Sub(r.origin, a), Vec3(1.0, 0.5, 0.0)) == -0.25
    ensures Dot(r.dir, Vec3(1.0, -0.5, -0.25)) == -0.25 && Dot(Sub(c, a), Vec3(1.0, -0.5, -0.25)) == 1.0
  {
    EdgeOne(); EdgeTwo(); Offset();
    BehindEdgeProducts(Sub(b, a), Sub(c, a), Sub(r.origin, a), r.dir);
  }

  /** With the ahead products, `det = 1`, `u = v = 1/4` and `t = 1`: a hit. */
  lemma AheadAccepted(e1: Vec3, e2: Vec3, s: Vec3, d: Vec3)
    requires Cross(d, e2) == Vec3(-1.0, -0.5, 0.0) && Cross(s, e1) == Vec3(1.0, -0.5, -0.25)
    requires Dot(e1, Vec3(-1.0, -0.5, 0.0)) == 1.0 && Dot(s, Vec3(-1.0, -0.5, 0.0)) == 0.25
    requires Dot(d, Vec3(1.0, -0.5, -0.25)) == 0.25 && Dot(e2, Vec3(1.0, -0.5, -0.25)) == 1.0
    ensures EdgeTest(e1, e2, s, d)
  {
    EdgeTestByValues(e1, e2, s, d, 1.0, 0.25, 0.25, 1.0);
  }

  /** With the behind products, `det = -1`, `u = v = 1/4` but `t = -1`: a miss. */
  lemma BehindRejected(e1: Vec3, e2: Vec3, s: Vec3, d: Vec3)
    requires Cross(d, e2) == Vec3(1.0, 0.5, 0.0) && Cross(s, e1) == Vec3(1.0, -0.5, -0.25)
    requires Dot(e1, Vec3(1.0, 0.5, 0.0)) == -1.0 && Dot(s, Vec3(1.0, 0.5, 0.0)) == -0.25
    requires Dot(d, Vec3(1.0, -0.5, -0.25)) == -0.25 && Dot(e2, Vec3(1.0, -0.5, -0.25)) == 1.0
    ensures !EdgeTest(e1, e2, s, d)
  {
    EdgeTestByValues(e1, e2, s, d, -1.0, -0.25, -0.25, 1.0);
  }

  /** With the ahead products, the determinant and the three coordinates
      of the test. */
  lemma AheadEdgeCoordinates(e1: Vec3, e2: Vec3, s: Vec3, d: Vec3)
    requires Cross(d, e2) == Vec3(-1.0, -0.5, 0.0) && Cross(s, e1) == Vec3(1.0, -0.5, -0.25)
    requires Dot(e1, Vec3(-1.0, -0.5, 0.0)) == 1.0 && Dot(s, Vec3(-1.0, -0.5, 0.0)) == 0.25
    requires Dot(d, Vec3(1.0, -0.5, -0.25)) == 0.25 && Dot(e2, Vec3(1.0, -0.5, -0.25)) == 1.0
    ensures Dot(e1, Cross(d, e2)) == 1.0
    ensures EdgeU(e1, e2, s, d) == 0.25 && EdgeV(e1, e2, s, d) == 0.25 && EdgeT(e1, e2, s, d) == 1.0
  {
  }

  /** With the behind products, the determinant and the three coordinates
      of the test. */
  lemma BehindEdgeCoordinates(e1: Vec3, e2: Vec3, s: Vec3, d: Vec3)
    requires Cross(d, e2) == Vec3(1.0, 0.5, 0.0) && Cross(s, e1) == Vec3(1.0, -0.5, -0.25)
    requires Dot(e1, Vec3(1.0, 0.5, 0.0)) == -1.0 && Dot(s, Vec3(1.0, 0.5, 0.0)) == -0.25
    requires Dot(d, Vec3(1.0, -0.5, -0.25)) == -0.25 && Dot(e2, Vec3(1.0, -0.5, -0.25)) == 1.0
    ensures Dot(e1, Cross(d, e2)) == -1.0
    ensures EdgeU(e1, e2, s, d) == 0.25 && EdgeV(e1, e2, s, d) == 0.25 && EdgeT(e1, e2, s, d) == -1.0
  {
  }

  // The same values from the scene's vertices, one coordinate per lemma.

  lemma AheadDeterminantAt(a: Vec3, b: Vec3, c: Vec3, r: Ray)
    requires a == Vec3(0.0, 0.5, -1.0) && b == Vec3(-0.5, -0.5, -1.0) && c == Vec3(0.5, -0.5, -1.0)
    requires r == Ray(Vec3(0.0, 0.0, 0.0), Vec3(0.0, 0.0, -1.0))
    ensures Determinant(a, b, c, r) == 1.0
  {
    AheadProducts(a, b, c, r);
    AheadEdgeCoordinates(Sub(b, a), Sub(c, a), Sub(r.origin, a), r.dir);
  }

  lemma AheadUAt(a: Vec3, b: Vec3, c: Vec3, r: Ray)
    requires a == Vec3(0.0, 0.5, -1.0) && b == Vec3(-0.5, -0.5, -1.0) && c == Vec3(0.5, -0.5, -1.0)
    requires r == Ray(Vec3(0.0, 0.0, 0.0), Vec3(0.0, 0.0, -1.0))
    requires Determinant(a, b, c, r) == 1.0
    ensures CoordU(a, b, c, r) == 0.25
  {
    AheadProducts(a, b, c, r);
    AheadEdgeCoordinates(Sub(b, a), Sub(c, a), Sub(r.origin, a), r.dir);
  }

  lemma AheadVAt(a: Vec3, b: Vec3, c: Vec3, r: Ray)
    requires a == Vec3(0.0, 0.5, -1.0) && b == Vec3(-0.5, -0.5, -1.0) && c == Vec3(0.5, -0.5, -1.0)
    requires r == Ray(Vec3(0.0, 0.0, 0.0), Vec3(0.0, 0.0, -1.0))
    requires Determinant(a, b, c, r) == 1.0
    ensures CoordV(a, b, c, r) == 0.25
  {
    AheadProducts(a, b, c, r);
    AheadEdgeCoordinates(Sub(b, a), Sub(c, a), Sub(r.origin, a), r.dir);
  }

  lemma AheadTAt(a: Vec3, b: Vec3, c: Vec3, r: Ray)
    requires a == Vec3(0.0, 0.5, -1.0) && b == Vec3(-0.5, -0.5, -1.0) && c == Vec3(0.5, -0.5, -1.0)
    requires r == Ray(Vec3(0.0, 0.0, 0.0), Vec3(0.0, 0.0, -1.0))
    requires Determinant(a, b, c, r) == 1.0
    ensures CoordT(a, b, c, r) == 1.0
  {
    AheadProducts(a, b, c, r);
    AheadEdgeCoordinates(Sub(b, a), Sub(c, a), Sub(r.origin, a), r.dir);
  }

  lemma BehindDeterminantAt(a: Vec3, b: Vec3, c: Vec3, r: Ray)
    requires a == Vec3(0.0, 0.5, -1.0) && b == Vec3(-0.5, -0.5, -1.0) && c == Vec3(0.5, -0.5, -1.0)
    requires r == Ray(Vec3(0.0, 0.0, 0.0), Vec3(0.0, 0.0, 1.0))
    ensures Determinant(a, b, c, r) == -1.0
  {
    BehindProducts(a, b, c, r);
    BehindEdgeCoordinates(Sub(b, a), Sub(c, a), Sub(r.origin, a), r.dir);
  }

  lemma BehindUAt(a: Vec3, b: Vec3, c: Vec3, r: Ray)
    requires a == Vec3(0.0, 0.5, -1.0) && b == Vec3(-0.5, -0.5, -1.0) && c == Vec3(0.5, -0.5, -1.0)
    requires r == Ray(Vec3(0.0, 0.0, 0.0), Vec3(0.0, 0.0, 1.0))
    requires Determinant(a, b, c, r) == -1.0
    ensures CoordU(a, b, c, r) == 0.25
  {
    BehindProducts(a, b, c, r);
    BehindEdgeCoordinates(Sub(b, a), Sub(c, a), Sub(r.origin, a), r.dir);
  }

  lemma BehindVAt(a: Vec3, b: Vec3, c: Vec3, r: Ray)
    requires a == Vec3(0.0, 0.5, -1.0) && b == Vec3(-0.5, -0.5, -1.0) && c == Vec3(0.5, -0.5, -1.0)
    requires r == Ray(Vec3(0.0, 0.0, 0.0), Vec3(0.0, 0.0, 1.0))
    requires Determinant(a, b, c, r) == -1.0
    ensures CoordV(a, b, c, r) == 0.25
  {
    BehindProducts(a, b, c, r);
    BehindEdgeCoordinates(Sub(b, a), Sub(c, a), Sub(r.origin, a), r.dir);
  }

  lemma BehindTAt(a: Vec3, b: Vec3, c: Vec3, r: Ray)
    requires a == Vec3(0.0, 0.5, -1.0) && b == Vec3(-0.5, -0.5, -1.0) && c == Vec3(0.5, -0.5, -1.0)
    requires r == Ray(Vec3(0.0, 0.0, 0.0), Vec3(0.0, 0.0, 1.0))
    requires Determinant(a, b, c, r) == -1.0
    ensures CoordT(a, b, c, r) == -1.0
  {
    BehindProducts(a, b, c, r);
    BehindEdgeCoordinates(Sub(b, a), Sub(c, a), Sub(r.origin, a), r.dir);
  }

  /** Straight ahead, the test finds `det = 1`, `u = v = 1/4` and `t = 1`:
      the ray meets the triangle inside it, one unit in front of the camera. */
  lemma AheadCoordinates(a: Vec3, b: Vec3, c: Vec3, r: Ray)
    requires a == Vec3(0.0, 0.5, -1.0) && b == Vec3(-0.5, -0.5, -1.0) && c == Vec3(0.5, -0.5, -1.0)
    requires r == Ray(Vec3(0.0, 0.0, 0.0), Vec3(0.0, 0.0, -1.0))
    ensures Determinant(a, b, c, r) == 1.0
    ensures Determinant(a, b, c, r) != 0.0
            ==> CoordU(a, b, c, r) == 0.25 && CoordV(a, b, c, r) == 0.25 && CoordT(a, b, c, r) == 1.0
  {
    AheadDeterminantAt(a, b, c, r);
    AheadUAt(a, b, c, r);
    AheadVAt(a, b, c, r);
    AheadTAt(a, b, c, r);
  }

  /** Straight behind, the test finds `det = -1` and `u = v = 1/4` but
      `t = -1`: the line meets the triangle one unit behind the camera. */
  lemma BehindCoordinates(a: Vec3, b: Vec3, c: Vec3, r: Ray)
    requires a == Vec3(0.0, 0.5, -1.0) && b == Vec3(-0.5, -0.5, -1.0) && c == Vec3(0.5, -0.5, -1.0)
    requires r == Ray(Vec3(0.0, 0.0, 0.0), Vec3(0.0, 0.0, 1.0))
    ensures Determinant(a, b, c, r) == -1.0
    ensures Determinant(a, b, c, r) != 0.0
            ==> CoordU(a, b, c, r) == 0.25 && CoordV(a, b, c, r) == 0.25 && CoordT(a, b, c, r) == -1.0
  {
    BehindDeterminantAt(a, b, c, r);
    BehindUAt(a, b, c, r);
    BehindVAt(a, b, c, r);
    BehindTAt(a, b, c, r);
  }

  /** The test on the scene's vertices, for the ray straight ahead. */
  lemma AheadVertices(a: Vec3, b: Vec3, c: Vec3, r: Ray)
    requires a == Vec3(0.0, 0.5, -1.0) && b == Vec3(-0.5, -0.5, -1.0) && c == Vec3(0.5, -0.5, -1.0)
    requires r == Ray(Vec3(0.0, 0.0, 0.0), Vec3(0.0, 0.0, -1.0))
    ensures TriangleHit(a, b, c, r)
  {
    AheadProducts(a, b, c, r);
    AheadAccepted(Sub(b, a), Sub(c, a), Sub(r.origin, a), r.dir);
  }

  /** The test on the scene's vertices, for the ray straight behind. */
  lemma BehindVertices(a: Vec3, b: Vec3, c: Vec3, r: Ray)
    requires a == Vec3(0.0, 0.5, -1.0) && b == Vec3(-0.5, -0.5, -1.0) && c == Vec3(0.5, -0.5, -1.0)
    requires r == Ray(Vec3(0.0, 0.0, 0.0), Vec3(0.0, 0.0, 1.0))
    ensures !TriangleHit(a, b, c, r)
  {
    BehindProducts(a, b, c, r);
    BehindRejected(Sub(b, a), Sub(c, a), Sub(r.origin, a), r.dir);
  }

  /** The ray from the origin along `(0, 0, -1)` hits the scene triangle
      (`AheadCoordinates` gives the values the test finds). */
  lemma SceneHitAhead(tri: Object, r: Ray)
    requires tri == SceneTriangle() && r == Ray(Vec3(0.0, 0.0, 0.0), Vec3(0.0, 0.0, -1.0))
    ensures Hit(tri, r)
  {
    assert tri.a == Vec3(0.0, 0.5, -1.0) && tri.b == Vec3(-0.5, -0.5, -1.0) && tri.c == Vec3(0.5, -0.5, -1.0);
    AheadVertices(tri.a, tri.b, tri.c, r);
  }

  /** The ray from the origin along `(0, 0, 1)` misses it
      (`BehindCoordinates` gives the values the test finds). */
  lemma SceneMissBehind(tri: Object, r: Ray)
    requires tri == SceneTriangle() && r == Ray(Vec3(0.0, 0.0, 0.0), Vec3(0.0, 0.0, 1.0))
    ensures !Hit(tri, r)
  {
    assert tri.a == Vec3(0.0, 0.5, -1.0) && tri.b == Vec3(-0.5, -0.5, -1.0) && tri.c == Vec3(0.5, -0.5, -1.0);
    BehindVertices(tri.a, tri.b, tri.c, r);
  }
}
