/** Scene objects (src/object.rs): a closed sum of triangles and spheres, the
    ray intersection test of each, and the rigid motions that return a moved
    copy. Objects are values; no operation changes one in place. */
module Objects {
  import opened Vectors
  import opened Rotation
  import opened Rays

  /** `f64::EPSILON`, the gap between 1.0 and the next double: 2^-52. */
  const EPSILON: real := 1.0 / 4503599627370496.0

  /** A triangle caches its centroid in `center`; nothing recomputes it
      except `NewTriangle`, so every operation that moves a vertex goes
      through `NewTriangle`. */
  datatype Object =
    | Triangle(a: Vec3, b: Vec3, c: Vec3, center: Vec3)
    | Sphere(center: Vec3, radius: real)

  /** The centroid `(a + b + c) / 3`, component by component as the source
      writes it. */
  function Centroid(a: Vec3, b: Vec3, c: Vec3): (g: Vec3)
    ensures MulScalar(g, 3.0) == Add(Add(a, b), c)
  {
    Vec3((a.x + b.x + c.x) / 3.0, (a.y + b.y + c.y) / 3.0, (a.z + b.z + c.z) / 3.0)
  }

  /** The cached centre of a triangle is its centroid. Spheres have no
      cached data. */
  predicate WellFormed(o: Object) {
    o.Triangle? ==> MulScalar(o.center, 3.0) == Add(Add(o.a, o.b), o.c)
  }

  /** `Object::new_triangle` */
  function NewTriangle(a: Vec3, b: Vec3, c: Vec3): (o: Object)
    ensures o.Triangle? && o.a == a && o.b == b && o.c == c
    ensures WellFormed(o)
  {
    Triangle(a, b, c, Centroid(a, b, c))
  }

  /** `Object::new_sphere`: any radius, zero and negative included. */
  function NewSphere(center: Vec3, radius: real): (o: Object)
    ensures o.Sphere? && o.center == center && o.radius == radius
    ensures WellFormed(o)
  {
    Sphere(center, radius)
  }

  // ---------------------------------------------------------------------
  // Intersection.

  /** `ObjectTrait::hit` */
  function Hit(o: Object, r: Ray): bool {
    match o
    case Triangle(a, b, c, _) => TriangleHit(a, b, c, r)
    case Sphere(center, radius) => SphereHit(center, radius, r)
  }

  /** The Moller-Trumbore test of the triangle arm. It reads the vertices and
      the ray's origin only through the edges `e1 = b - a`, `e2 = c - a` and
      the offset `s = o - a`, which `TriangleHit` computes first, as the
      source does, before the rest of the test runs in `EdgeTest`. The
      getters `origin()` and `direction()` are read as the fields they
      return. */
  function TriangleHit(a: Vec3, b: Vec3, c: Vec3, r: Ray): bool {
    EdgeTest(Sub(b, a), Sub(c, a), Sub(r.origin, a), r.dir)
  }

  /** The test proper, with its early returns as nested conditionals. The
      source's final `intersection_point` is never read and has no
      counterpart. */
  function EdgeTest(e1: Vec3, e2: Vec3, s: Vec3, dir: Vec3): bool {
    var rayCrossE2 := Cross(dir, e2);
    var det := Dot(e1, rayCrossE2);
    if det > -EPSILON && det < EPSILON then
      false  // the ray is parallel to the triangle's plane
    else
      var invDet := 1.0 / det;
      var u := invDet * Dot(s, rayCrossE2);
      if u < 0.0 || u > 1.0 then
        false
      else
        var sCrossE1 := Cross(s, e1);
        var v := invDet * Dot(dir, sCrossE1);
        if v < 0.0 || u + v > 1.0 then
          false
        else
          var t := invDet * Dot(e2, sCrossE1);
          t > EPSILON  // otherwise the line, not the ray, meets the triangle
  }

  /** The discriminant test of the sphere arm. */
  function SphereHit(center: Vec3, radius: real, r: Ray): bool {
    var oc := Sub(center, r.origin);
    var qa := Dot(r.dir, r.dir);
    var qb := -2.0 * Dot(r.dir, oc);
    var qc := Dot(oc, oc) - radius * radius;
    var discriminant := qb * qb - 4.0 * qa * qc;
    discriminant >= 0.0
  }

  // ---------------------------------------------------------------------
  // Motions.

  /** `ObjectTrait::move_to`: translate by `v`. */
  function MoveTo(o: Object, v: Vec3): Object {
    match o
    case Triangle(a, b, c, _) => NewTriangle(Add(a, v), Add(b, v), Add(c, v))
    case Sphere(center, radius) => NewSphere(Add(center, v), radius)
  }

  /** `ObjectTrait::rotate_around_center`: rotate a triangle's vertices
      about its cached centre; a sphere is returned as it is. */
  function RotateAroundCenter(o: Object, euler: Vec3, sin: real -> real, cos: real -> real): Object {
    match o
    case Triangle(a, b, c, center) =>
      var q := EulerToQuaternion(euler, sin, cos);
      NewTriangle(RotateAroundPoint(a, center, q),
                  RotateAroundPoint(b, center, q),
                  RotateAroundPoint(c, center, q))
    case Sphere(_, _) => o
  }

  /** `ObjectTrait::rotate_around_point`: rotate every defining point about
      `point`; a sphere keeps its radius. */
  function RotateObjectAroundPoint(o: Object, euler: Vec3, point: Vec3,
                                   sin: real -> real, cos: real -> real): Object {
    match o
    case Triangle(a, b, c, _) =>
      var q := EulerToQuaternion(euler, sin, cos);
      NewTriangle(RotateAroundPoint(a, point, q),
                  RotateAroundPoint(b, point, q),
                  RotateAroundPoint(c, point, q))
    case Sphere(center, radius) =>
      var q := EulerToQuaternion(euler, sin, cos);
      NewSphere(RotateAroundPoint(center, point, q), radius)
  }

  // ---------------------------------------------------------------------
  // Properties of the cached centre.

  /** A well-formed triangle's centre is the centroid of its vertices. */
  lemma WellFormedCenter(o: Object)
    requires o.Triangle? && WellFormed(o)
    ensures o.center == Centroid(o.a, o.b, o.c)
  {
    assert o.center == Vec3(o.center.x, o.center.y, o.center.z);
  }

  /** The centroid commutes with translation. */
  lemma CentroidTranslates(a: Vec3, b: Vec3, c: Vec3, v: Vec3)
    ensures Centroid(Add(a, v), Add(b, v), Add(c, v)) == Add(Centroid(a, b, c), v)
  {
  }

  // ---------------------------------------------------------------------
  // Translation.

  /** `move_to` translates every defining point by `v`, keeps the kind of
      object and the radius, and gives a well-formed result; the centre of a
      well-formed object moves by `v` as well. */
  lemma MoveToMoves(o: Object, v: Vec3)
    ensures MoveTo(o, v).Triangle? == o.Triangle?
    ensures WellFormed(MoveTo(o, v))
    ensures o.Triangle? ==> MoveTo(o, v).a == Add(o.a, v) && MoveTo(o, v).b == Add(o.b, v)
                            && MoveTo(o, v).c == Add(o.c, v)
    ensures o.Sphere? ==> MoveTo(o, v).radius == o.radius
    ensures WellFormed(o) ==> MoveTo(o, v).center == Add(o.center, v)
  {
    if o.Triangle? && WellFormed(o) {
      WellFormedCenter(o);
      CentroidTranslates(o.a, o.b, o.c, v);
    }
  }

  /** Two translations are one, by the sum of the offsets. */
  lemma MoveToComposes(o: Object, v: Vec3, w: Vec3)
    ensures MoveTo(MoveTo(o, v), w) == MoveTo(o, Add(v, w))
  {
    match o
    case Triangle(a, b, c, _) =>
      assert Add(Add(a, v), w) == Add(a, Add(v, w));
      assert Add(Add(b, v), w) == Add(b, Add(v, w));
      assert Add(Add(c, v), w) == Add(c, Add(v, w));
    case Sphere(center, _) =>
      assert Add(Add(center, v), w) == Add(center, Add(v, w));
  }

  /** Moving a well-formed object by zero returns it unchanged; a triangle
      whose cached centre is stale would get it recomputed. */
  lemma MoveToZero(o: Object)
    ensures MoveTo(o, Zero) == o <==> WellFormed(o)
  {
    match o
    case Triangle(a, b, c, center) =>
      assert Add(a, Zero) == a && Add(b, Zero) == b && Add(c, Zero) == c;
      if WellFormed(o) {
        WellFormedCenter(o);
      }
    case Sphere(center, _) =>
      assert Add(center, Zero) == center;
  }

  /** Moving back undoes a move, for a well-formed object. */
  lemma MoveToInverse(o: Object, v: Vec3)
    requires WellFormed(o)
    ensures MoveTo(MoveTo(o, v), Neg(v)) == o
  {
    MoveToComposes(o, v, Neg(v));
    assert Add(v, Neg(v)) == Zero;
    MoveToZero(o);
  }

  /** Moving an object and the ray's origin by the same offset does not
      change whether the ray hits it. */
  lemma HitTranslationInvariant(o: Object, r: Ray, v: Vec3)
    ensures Hit(MoveTo(o, v), NewRay(Add(r.origin, v), r.dir)) == Hit(o, r)
  {
    match o
    case Triangle(a, b, c, _) =>
      assert Sub(Add(b, v), Add(a, v)) == Sub(b, a);
      assert Sub(Add(c, v), Add(a, v)) == Sub(c, a);
      assert Sub(Add(r.origin, v), Add(a, v)) == Sub(r.origin, a);
    case Sphere(center, _) =>
      assert Sub(Add(center, v), Add(r.origin, v)) == Sub(center, r.origin);
  }

  // ---------------------------------------------------------------------
  // Rotation.

  /** `rotate_around_center` is `rotate_around_point` about the object's own
      centre: for a triangle by definition, for a sphere because the pivot of
      a rotation stays where it is. */
  lemma RotateAroundCenterIsAboutCenter(o: Object, euler: Vec3, sin: real -> real, cos: real -> real)
    ensures RotateAroundCenter(o, euler, sin, cos) == RotateObjectAroundPoint(o, euler, o.center, sin, cos)
  {
    if o.Sphere? {
      PivotFixed(o.center, EulerToQuaternion(euler, sin, cos));
    }
  }

  /** The centroid of three points rotated about a pivot is the rotated
      centroid. */
  lemma CentroidRotates(a: Vec3, b: Vec3, c: Vec3, point: Vec3, q: Quaternion)
    ensures Centroid(RotateAroundPoint(a, point, q), RotateAroundPoint(b, point, q),
                     RotateAroundPoint(c, point, q))
         == RotateAroundPoint(Centroid(a, b, c), point, q)
  {
    var g := Centroid(a, b, c);
    // The offsets from the pivot sum to three times the centroid's offset.
    assert Add(Add(Sub(a, point), Sub(b, point)), Sub(c, point)) == MulScalar(Sub(g, point), 3.0);
    RotateLinear(q, Sub(a, point), Sub(b, point), 3.0);
    RotateLinear(q, Add(Sub(a, point), Sub(b, point)), Sub(c, point), 3.0);
    RotateLinear(q, Sub(g, point), Sub(g, point), 3.0);
    RotateAroundPointIs(a, point, q);
    RotateAroundPointIs(b, point, q);
    RotateAroundPointIs(c, point, q);
    RotateAroundPointIs(g, point, q);
  }

  /** `rotate_around_point` keeps the kind of object and the radius, rotates
      every defining point about `point`, gives a well-formed result, and
      moves the centre of a well-formed object as it moves its vertices. */
  lemma RotateObjectAroundPointMoves(o: Object, euler: Vec3, point: Vec3, sin: real -> real, cos: real -> real)
    ensures var m := RotateObjectAroundPoint(o, euler, point, sin, cos);
            var q := EulerToQuaternion(euler, sin, cos);
            && m.Triangle? == o.Triangle?
            && WellFormed(m)
            && (o.Triangle? ==> m.a == RotateAroundPoint(o.a, point, q)
                                && m.b == RotateAroundPoint(o.b, point, q)
                                && m.c == RotateAroundPoint(o.c, point, q))
            && (o.Sphere? ==> m.radius == o.radius)
            && (WellFormed(o) ==> m.center == RotateAroundPoint(o.center, point, q))
  {
    if o.Triangle? && WellFormed(o) {
      WellFormedCenter(o);
      CentroidRotates(o.a, o.b, o.c, point, EulerToQuaternion(euler, sin, cos));
    }
  }

  /** `rotate_around_center` keeps a well-formed object's centre and the
      kind of object; a sphere comes back unchanged. */
  lemma RotateAroundCenterKeepsCenter(o: Object, euler: Vec3, sin: real -> real, cos: real -> real)
    requires WellFormed(o)
    ensures RotateAroundCenter(o, euler, sin, cos).Triangle? == o.Triangle?
    ensures WellFormed(RotateAroundCenter(o, euler, sin, cos))
    ensures RotateAroundCenter(o, euler, sin, cos).center == o.center
    ensures o.Sphere? ==> RotateAroundCenter(o, euler, sin, cos) == o
  {
    RotateAroundCenterIsAboutCenter(o, euler, sin, cos);
    RotateObjectAroundPointMoves(o, euler, o.center, sin, cos);
    PivotFixed(o.center, EulerToQuaternion(euler, sin, cos));
  }

  /** Zero Euler angles leave a well-formed object as it is. */
  lemma RotateAroundCenterZeroEuler(o: Object, sin: real -> real, cos: real -> real)
    requires sin(0.0) == 0.0 && cos(0.0) == 1.0
    requires WellFormed(o)
    ensures RotateAroundCenter(o, Zero, sin, cos) == o
  {
    if o.Triangle? {
      RotateAroundPointZeroEuler(o.a, o.center, sin, cos);
      RotateAroundPointZeroEuler(o.b, o.center, sin, cos);
      RotateAroundPointZeroEuler(o.c, o.center, sin, cos);
      WellFormedCenter(o);
    }
  }

  /** With a unit quaternion (sine and cosine satisfying the Pythagorean
      identity at the half angles) a rotation about any point keeps the
      triangle's edge lengths and a sphere's distance from the pivot. */
  lemma RotateObjectAroundPointRigid(o: Object, euler: Vec3, point: Vec3, sin: real -> real, cos: real -> real)
    requires PythagoreanAt(sin, cos, euler.x / 2.0)
    requires PythagoreanAt(sin, cos, euler.y / 2.0)
    requires PythagoreanAt(sin, cos, euler.z / 2.0)
    ensures var m := RotateObjectAroundPoint(o, euler, point, sin, cos);
            && (o.Triangle? ==> Vectors.Norm2(Sub(m.b, m.a)) == Vectors.Norm2(Sub(o.b, o.a))
                                && Vectors.Norm2(Sub(m.c, m.b)) == Vectors.Norm2(Sub(o.c, o.b))
                                && Vectors.Norm2(Sub(m.a, m.c)) == Vectors.Norm2(Sub(o.a, o.c)))
            && (o.Sphere? ==> Vectors.Norm2(Sub(m.center, point)) == Vectors.Norm2(Sub(o.center, point)))
  {
    var q := EulerToQuaternion(euler, sin, cos);
    EulerIsUnit(euler, sin, cos);
    match o
    case Triangle(a, b, c, _) =>
      RotateAroundPointRigid(b, a, point, q);
      RotateAroundPointRigid(c, b, point, q);
      RotateAroundPointRigid(a, c, point, q);
    case Sphere(center, _) =>
      RotateAroundPointRigid(center, point, point, q);
      PivotFixed(point, q);
  }
}
