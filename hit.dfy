/**
 * `src/hit.rs`, the hit record: where a ray met a surface, the normal facing against the ray,
 * the ray parameter, which side was hit, and the surface's material.
 */
module Hit {
  import opened Vectors
  import opened Rays
  import opened Materials

  /**
   * `HitRecord`. The record in `src/hit.rs` lists no material, yet `Sphere::hit` hands one to
   * `HitRecord::new` and `ray_color` reads `rec.material`; the record here carries it.
   */
  datatype HitRecord = HitRecord(p: Point3, normal: Vec3, t: real, frontFace: bool, material: Material)

  /**
   * `HitRecord::new`: the face is the front one exactly when the ray travels against the outward
   * normal, and the stored normal is turned to face the incoming ray either way.
   */
  function NewHitRecord(p: Point3, r: Ray, outwardNormal: Vec3, t: real, material: Material): (rec: HitRecord)
    ensures rec.frontFace <==> Dot(r.direction, outwardNormal) < 0.0
    ensures rec.normal == if rec.frontFace then outwardNormal else Neg(outwardNormal)
    ensures Dot(r.direction, rec.normal) <= 0.0
    ensures rec.p == p && rec.t == t && rec.material == material
  {
    var frontFace := Dot(r.direction, outwardNormal) < 0.0;
    var normal := if frontFace then outwardNormal else Neg(outwardNormal);
    HitRecord(p, normal, t, frontFace, material)
  }

  /** The upper end of a search interval: a number, or `f64::INFINITY`. */
  datatype UpperBound = Finite(value: real) | Infinity

  /** `t < t_max`, where nothing reaches infinity. */
  predicate Below(t: real, bound: UpperBound) {
    bound.Infinity? || t < bound.value
  }

  /** `bound` is no larger than `other`. */
  predicate AtMost(bound: UpperBound, other: UpperBound) {
    other.Infinity? || (bound.Finite? && bound.value <= other.value)
  }

  /** A bound below another keeps fewer parameters below it. */
  lemma BelowAtMost(t: real, bound: UpperBound, other: UpperBound)
    requires AtMost(bound, other) && Below(t, bound)
    ensures Below(t, other)
  {
  }
}
