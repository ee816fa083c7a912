/**
 * `src/ray.rs`: a half-line given by an origin and a direction, and the point reached after
 * travelling the parameter `t` along it.
 */
module Rays {
  import opened Vectors

  /** `Ray::new(origin, direction)`; the accessors `origin()`, `direction()` are the fields. */
  datatype Ray = Ray(origin: Point3, direction: Vec3)

  /** `r.at(t)`: the point `t` direction-lengths from the origin. */
  function At(r: Ray, t: real): Point3 {
    Add(r.origin, Scale(t, r.direction))
  }

  /** The point at `t` lies `t` directions away from the origin. */
  lemma AtOffset(r: Ray, t: real)
    ensures Sub(At(r, t), r.origin) == Scale(t, r.direction)
  {
  }

  /** At parameter 0 the ray is at its origin, at parameter 1 one direction further on. */
  lemma AtEndpoints(r: Ray)
    ensures At(r, 0.0) == r.origin
    ensures At(r, 1.0) == Add(r.origin, r.direction)
  {
  }

  /** Travelling `s` and then `t` further is travelling `s + t`. */
  lemma AtAdditive(r: Ray, s: real, t: real)
    ensures At(Ray(At(r, s), r.direction), t) == At(r, s + t)
  {
  }
}
