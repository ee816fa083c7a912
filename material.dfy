/**
 * `src/material.rs`, the material values: the three kinds of surface, `Metal::new`'s cap on the
 * fuzz radius and `Dielectric::schlick`, Schlick's approximation of the reflectance. How each
 * material scatters a ray is in module Scattering, which needs the hit record.
 */
module Materials {
  import opened Vectors

  /**
   * A refractive index the scatter rule can divide by: the source divides by the index on a front
   * face and by one plus the index ratio in `schlick`, so 0 and -1 are excluded.
   */
  type RefIdx = r: real | r != 0.0 && r != -1.0 witness 1.5

  /**
   * The closed set of materials standing for `dyn Material`: `Lambertian::new(albedo)`,
   * `Metal { albedo, fuzz }` (built through MetalNew) and `Dielectric::new(ref_idx)`.
   */
  datatype Material =
    | Lambertian(albedo: Color)
    | Metal(albedo: Color, fuzz: real)
    | Dielectric(refIdx: RefIdx)

  /**
   * `Metal::new`: a fuzz of 1 or more is cut down to 1; anything below 1, negative values
   * included, is kept as given.
   */
  function MetalNew(albedo: Color, fuzz: real): (m: Material)
    ensures m.Metal? && m.albedo == albedo
    ensures m.fuzz <= 1.0
    ensures fuzz < 1.0 ==> m.fuzz == fuzz
    ensures 1.0 <= fuzz ==> m.fuzz == 1.0
  {
    Metal(albedo, if fuzz < 1.0 then fuzz else 1.0)
  }

  /** Building a metal from an already capped fuzz changes nothing. */
  lemma MetalNewIdempotent(albedo: Color, fuzz: real)
    ensures MetalNew(albedo, MetalNew(albedo, fuzz).fuzz) == MetalNew(albedo, fuzz)
  {
  }

  /** `x` raised to the natural power `n` (`f64::powi`). */
  function Pow(x: real, n: nat): real
    decreases n
  {
    if n == 0 then 1.0 else x * Pow(x, n - 1)
  }

  /** Normal-incidence reflectance `((1 - ri) / (1 + ri))^2`. */
  function R0(refIdx: real): real
    requires refIdx != -1.0
  {
    var r0 := (1.0 - refIdx) / (1.0 + refIdx);
    r0 * r0
  }

  /** `Dielectric::schlick`: reflectance at the given cosine of the incidence angle. */
  function Schlick(cosine: real, refIdx: real): real
    requires refIdx != -1.0
  {
    var r0 := R0(refIdx);
    r0 + (1.0 - r0) * Pow(1.0 - cosine, 5)
  }

  /** Head-on (cosine 1) the reflectance is R0; at grazing incidence (cosine 0) it is 1. */
  lemma SchlickEndpoints(refIdx: real)
    requires refIdx != -1.0
    ensures Schlick(1.0, refIdx) == R0(refIdx)
    ensures Schlick(0.0, refIdx) == 1.0
  {
    assert Pow(0.0, 5) == 0.0;
    assert Pow(1.0, 5) == 1.0;
  }

  /** A power of a number in [0, 1] stays in [0, 1]. */
  lemma {:induction false} PowInUnitRange(x: real, n: nat)
    requires 0.0 <= x <= 1.0
    ensures 0.0 <= Pow(x, n) <= 1.0
    decreases n
  {
    if n > 0 {
      PowInUnitRange(x, n - 1);
      ProductInUnitRange(x, Pow(x, n - 1));
    }
  }

  lemma ProductInUnitRange(a: real, b: real)
    requires 0.0 <= a <= 1.0 && 0.0 <= b <= 1.0
    ensures 0.0 <= a * b <= 1.0
  {
    AtMostOneShrinks(a, b);
  }

  lemma AtMostOneShrinks(a: real, b: real)
    requires 0.0 <= a <= 1.0 && 0.0 <= b
    ensures 0.0 <= a * b <= b
  {
  }

  /** For a positive index ratio, R0 lies in [0, 1). */
  lemma R0InUnitRange(refIdx: real)
    requires 0.0 < refIdx
    ensures 0.0 <= R0(refIdx) < 1.0
  {
    var q := (1.0 - refIdx) / (1.0 + refIdx);
    assert q * (1.0 + refIdx) == 1.0 - refIdx;
    QuotientBelowOne(q, refIdx);
    SquareBelowOne(q);
  }

  lemma QuotientBelowOne(q: real, refIdx: real)
    requires 0.0 < refIdx
    requires q * (1.0 + refIdx) == 1.0 - refIdx
    ensures -1.0 < q < 1.0
  {
  }

  lemma SquareBelowOne(q: real)
    requires -1.0 < q < 1.0
    ensures 0.0 <= q * q < 1.0
  {
    if q >= 0.0 {
      assert q * q <= q * 1.0;
    } else {
      assert q * q <= (-q) * 1.0;
    }
  }

  /**
   * For a positive index ratio and a cosine in [0, 1], Schlick's reflectance is a probability
   * no smaller than R0.
   */
  lemma SchlickIsProbability(cosine: real, refIdx: real)
    requires 0.0 < refIdx
    requires 0.0 <= cosine <= 1.0
    ensures R0(refIdx) <= Schlick(cosine, refIdx) <= 1.0
  {
    var r0 := R0(refIdx);
    var p := Pow(1.0 - cosine, 5);
    R0InUnitRange(refIdx);
    PowInUnitRange(1.0 - cosine, 5);
    Between(r0, p);
    assert r0 <= r0 + (1.0 - r0) * p <= 1.0;
    assert Schlick(cosine, refIdx) == r0 + (1.0 - r0) * p;
  }

  /** `a + (1 - a) p` lies between `a` and 1 for `a` and `p` in [0, 1]. */
  lemma Between(a: real, p: real)
    requires 0.0 <= a <= 1.0 && 0.0 <= p <= 1.0
    ensures a <= a + (1.0 - a) * p <= 1.0
  {
    ProductInUnitRange(1.0 - a, p);
    assert (1.0 - a) * p <= (1.0 - a) * 1.0;
  }
}
