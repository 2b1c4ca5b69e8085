/** Rays (src/ray.rs): an origin and a direction, fixed at construction. */
module Rays {
  import opened Vectors

  /** The source keeps both fields private and exposes them through getters;
      a datatype value is equally immutable. */
  datatype Ray = Ray(origin: Vec3, dir: Vec3)

  /** `Ray::new` */
  function NewRay(origin: Vec3, dir: Vec3): (r: Ray)
    ensures r.origin == origin && r.dir == dir
  {
    Ray(origin, dir)
  }

  /** `Ray::origin` */
  function Origin(r: Ray): Vec3 {
    r.origin
  }

  /** `Ray::direction` */
  function Direction(r: Ray): Vec3 {
    r.dir
  }

  /** Reading a ray back gives what it was built from, and a ray is
      determined by its two getters. */
  lemma GettersRoundTrip(origin: Vec3, dir: Vec3, r: Ray)
    ensures Origin(NewRay(origin, dir)) == origin
    ensures Direction(NewRay(origin, dir)) == dir
    ensures NewRay(Origin(r), Direction(r)) == r
  {
  }

  /** The point `origin + t * dir` of the ray's line. */
  function At(r: Ray, t: real): (p: Vec3)
    ensures Sub(p, r.origin) == MulScalar(r.dir, t)
  {
    Add(r.origin, MulScalar(r.dir, t))
  }
}
