/**
 * `Material::scatter` of `src/material.rs` for the three materials. The random numbers a call may
 * consume (`Vec3::random_unit_vector()`, `Vec3::random_in_unit_sphere()`, `random_f64()`) are
 * passed in as a Draw; `sqrt` is passed as a function.
 */
module Scattering {
  import opened Wrappers
  import opened Libm
  import opened Vectors
  import opened Rays
  import opened Materials
  import opened Hit

  /** The random values one call of `scatter` may use. */
  datatype Draw = Draw(unitVector: Vec3, inUnitSphere: Vec3, uniform: real)

  /** The attenuation and the scattered ray of a ray that the surface did not absorb. */
  datatype Scattered = Scattered(attenuation: Color, ray: Ray)

  const White := Color(Vec3(1.0, 1.0, 1.0))

  /**
   * `Lambertian::scatter`: always scatters, from the hit point, towards the normal displaced by
   * a random unit vector, attenuated by the albedo.
   */
  function LambertianScatter(albedo: Color, rec: HitRecord, draw: Draw): (s: Scattered)
    ensures s.attenuation == albedo && s.ray.origin == rec.p
    ensures Sub(s.ray.direction, rec.normal) == draw.unitVector
  {
    Scattered(albedo, Ray(rec.p, Add(rec.normal, draw.unitVector)))
  }

  /** For a unit normal and a unit draw, a diffuse bounce never heads into the surface. */
  lemma LambertianLeavesSurface(albedo: Color, rec: HitRecord, draw: Draw)
    requires LengthSquared(rec.normal) == 1.0 && LengthSquared(draw.unitVector) == 1.0
    ensures Dot(LambertianScatter(albedo, rec, draw).ray.direction, rec.normal) >= 0.0
  {
    var n := rec.normal;
    var u := draw.unitVector;
    DotAddLeft(n, u, n);
    LengthSquaredIsDot(n);
    CauchySchwarz(u, n);
    SquareAtMostOne(Dot(u, n), LengthSquared(u) * LengthSquared(n));
  }

  /** The direction `Metal::scatter` proposes: the mirror direction displaced by `fuzz` times a draw. */
  function MetalDirection(sqrt: real -> real, fuzz: real, rIn: Ray, rec: HitRecord, draw: Draw): Vec3 {
    Add(Reflect(UnitVector(sqrt, rIn.direction), rec.normal), Scale(fuzz, draw.inUnitSphere))
  }

  /**
   * `Metal::scatter`: the proposed ray is kept, attenuated by the albedo, exactly when it leaves
   * on the normal's side of the surface; otherwise the ray is absorbed.
   */
  function MetalScatter(sqrt: real -> real, albedo: Color, fuzz: real, rIn: Ray, rec: HitRecord, draw: Draw): (s: Option<Scattered>)
    ensures s.Some? <==> Dot(MetalDirection(sqrt, fuzz, rIn, rec, draw), rec.normal) > 0.0
    ensures s.Some? ==> s.value.attenuation == albedo && s.value.ray.origin == rec.p
    ensures s.Some? ==> s.value.ray.direction == MetalDirection(sqrt, fuzz, rIn, rec, draw)
  {
    var scattered := Ray(rec.p, MetalDirection(sqrt, fuzz, rIn, rec, draw));
    if Dot(scattered.direction, rec.normal) > 0.0 then
      Some(Scattered(albedo, scattered))
    else
      None
  }

  /**
   * A perfect mirror (fuzz 0) with a unit normal reflects the normalised incoming direction, and
   * keeps the ray exactly when that direction travels against the normal.
   */
  lemma MetalMirror(sqrt: real -> real, albedo: Color, rIn: Ray, rec: HitRecord, draw: Draw)
    requires LengthSquared(rec.normal) == 1.0
    ensures var s := MetalScatter(sqrt, albedo, 0.0, rIn, rec, draw);
      (s.Some? <==> Dot(UnitVector(sqrt, rIn.direction), rec.normal) < 0.0)
      && (s.Some? ==> s.value.ray.direction == Reflect(UnitVector(sqrt, rIn.direction), rec.normal))
  {
    var unit := UnitVector(sqrt, rIn.direction);
    assert MetalDirection(sqrt, 0.0, rIn, rec, draw) == Reflect(unit, rec.normal);
    LengthSquaredIsDot(rec.normal);
    ReflectReversesNormal(unit, rec.normal);
  }

  /**
   * `etai_over_etat`: the inverse index when entering through the front face, the index when
   * leaving. It is never 0 or -1, so `schlick` can divide by one plus it, and it has the sign of
   * the index.
   */
  function Eta(refIdx: RefIdx, frontFace: bool): (eta: real)
    ensures eta != 0.0 && eta != -1.0
    ensures 0.0 < eta <==> 0.0 < refIdx
  {
    if frontFace then 1.0 / refIdx else refIdx
  }

  /** `cos_theta`: the cosine of the incidence angle, `min(dot(-unit_direction, normal), 1)`. */
  function CosTheta(unitDirection: Vec3, normal: Vec3): (c: real)
    ensures c <= 1.0 && c <= Dot(Neg(unitDirection), normal)
    ensures c == 1.0 || c == Dot(Neg(unitDirection), normal)
  {
    var d := Dot(Neg(unitDirection), normal);
    if d < 1.0 then d else 1.0
  }

  /** `sin_theta`, from the cosine. */
  function SinTheta(sqrt: real -> real, cosTheta: real): real {
    sqrt(1.0 - cosTheta * cosTheta)
  }

  /** `etai_over_etat * sin_theta > 1`: Snell's law has no solution and the ray must reflect. */
  predicate TotalInternalReflection(sqrt: real -> real, eta: real, cosTheta: real) {
    eta * SinTheta(sqrt, cosTheta) > 1.0
  }

  /**
   * `Dielectric::scatter`: glass never absorbs and never tints. Under total internal reflection
   * it reflects; otherwise it reflects when the uniform draw falls below Schlick's reflectance and
   * refracts when it does not.
   */
  function DielectricScatter(sqrt: real -> real, refIdx: RefIdx, rIn: Ray, rec: HitRecord, draw: Draw): (s: Scattered)
    ensures s.attenuation == White && s.ray.origin == rec.p
    ensures var unit := UnitVector(sqrt, rIn.direction);
      var eta := Eta(refIdx, rec.frontFace);
      var cosTheta := CosTheta(unit, rec.normal);
      (TotalInternalReflection(sqrt, eta, cosTheta) ==> s.ray.direction == Reflect(unit, rec.normal))
      && (!TotalInternalReflection(sqrt, eta, cosTheta) && draw.uniform < Schlick(cosTheta, eta) ==>
            s.ray.direction == Reflect(unit, rec.normal))
      && (!TotalInternalReflection(sqrt, eta, cosTheta) && Schlick(cosTheta, eta) <= draw.uniform ==>
            s.ray.direction == Refract(sqrt, unit, rec.normal, eta))
  {
    var eta := Eta(refIdx, rec.frontFace);
    var unit := UnitVector(sqrt, rIn.direction);
    var cosTheta := CosTheta(unit, rec.normal);
    if TotalInternalReflection(sqrt, eta, cosTheta) then
      Scattered(White, Ray(rec.p, Reflect(unit, rec.normal)))
    else if draw.uniform < Schlick(cosTheta, eta) then
      Scattered(White, Ray(rec.p, Reflect(unit, rec.normal)))
    else
      Scattered(White, Ray(rec.p, Refract(sqrt, unit, rec.normal, eta)))
  }

  /** Under total internal reflection the random draw is not used. */
  lemma DielectricIgnoresDrawUnderTotalReflection(sqrt: real -> real, refIdx: RefIdx, rIn: Ray, rec: HitRecord, d1: Draw, d2: Draw)
    requires TotalInternalReflection(sqrt, Eta(refIdx, rec.frontFace), CosTheta(UnitVector(sqrt, rIn.direction), rec.normal))
    ensures DielectricScatter(sqrt, refIdx, rIn, rec, d1) == DielectricScatter(sqrt, refIdx, rIn, rec, d2)
  {
  }

  /**
   * For a ray that meets the surface against the normal, as every hit record arranges, the
   * cosine of the incidence angle lies in [0, 1].
   */
  lemma CosThetaInUnitRange(sqrt: real -> real, rIn: Ray, rec: HitRecord)
    requires IsSqrt(sqrt)
    requires Dot(rIn.direction, rec.normal) <= 0.0
    ensures 0.0 <= CosTheta(UnitVector(sqrt, rIn.direction), rec.normal) <= 1.0
  {
    UnitVectorKeepsSide(sqrt, rIn.direction, rec.normal);
    NegDot(UnitVector(sqrt, rIn.direction), rec.normal);
  }

  /** For such a ray and a positive index, Schlick's reflectance is a probability. */
  lemma DielectricReflectanceIsProbability(sqrt: real -> real, refIdx: RefIdx, rIn: Ray, rec: HitRecord)
    requires IsSqrt(sqrt)
    requires Dot(rIn.direction, rec.normal) <= 0.0
    requires 0.0 < refIdx
    ensures var cosTheta := CosTheta(UnitVector(sqrt, rIn.direction), rec.normal);
      0.0 <= Schlick(cosTheta, Eta(refIdx, rec.frontFace)) <= 1.0
  {
    var cosTheta := CosTheta(UnitVector(sqrt, rIn.direction), rec.normal);
    var eta := Eta(refIdx, rec.frontFace);
    CosThetaInUnitRange(sqrt, rIn, rec);
    SchlickIsProbability(cosTheta, eta);
    R0InUnitRange(eta);
  }

  /** A ray entering glass of index at least 1 through the front face is never totally reflected. */
  lemma EnteringGlassRefracts(sqrt: real -> real, refIdx: RefIdx, rIn: Ray, rec: HitRecord)
    requires IsSqrt(sqrt)
    requires Dot(rIn.direction, rec.normal) <= 0.0
    requires rec.frontFace && 1.0 <= refIdx
    ensures !TotalInternalReflection(sqrt, Eta(refIdx, rec.frontFace), CosTheta(UnitVector(sqrt, rIn.direction), rec.normal))
  {
    FacingSine(sqrt, rIn, rec);
    FrontFaceNoTotalReflection(sqrt, refIdx, CosTheta(UnitVector(sqrt, rIn.direction), rec.normal));
  }

  /** The sine of the incidence angle of a ray meeting the normal against it lies in [0, 1]. */
  lemma FacingSine(sqrt: real -> real, rIn: Ray, rec: HitRecord)
    requires IsSqrt(sqrt)
    requires Dot(rIn.direction, rec.normal) <= 0.0
    ensures 0.0 <= SinTheta(sqrt, CosTheta(UnitVector(sqrt, rIn.direction), rec.normal)) <= 1.0
  {
    CosThetaInUnitRange(sqrt, rIn, rec);
    SineInUnitRange(sqrt, CosTheta(UnitVector(sqrt, rIn.direction), rec.normal));
  }

  /** Through the front face of glass of index at least 1, a sine in [0, 1] is never too large. */
  lemma FrontFaceNoTotalReflection(sqrt: real -> real, refIdx: RefIdx, cosTheta: real)
    requires 1.0 <= refIdx && 0.0 <= SinTheta(sqrt, cosTheta) <= 1.0
    ensures !TotalInternalReflection(sqrt, Eta(refIdx, true), cosTheta)
  {
    var eta := Eta(refIdx, true);
    InverseAtMostOne(refIdx, eta);
    EtaSineAtMostOne(sqrt, eta, cosTheta);
    NoTotalReflection(sqrt, eta, cosTheta);
  }

  /** A ray whose index ratio times the sine of its angle is at most one is not totally reflected. */
  lemma NoTotalReflection(sqrt: real -> real, eta: real, cosTheta: real)
    requires eta * SinTheta(sqrt, cosTheta) <= 1.0
    ensures !TotalInternalReflection(sqrt, eta, cosTheta)
  {
  }

  /** An index ratio in (0, 1] times a sine in [0, 1] is at most one. */
  lemma EtaSineAtMostOne(sqrt: real -> real, eta: real, cosTheta: real)
    requires 0.0 < eta <= 1.0 && 0.0 <= SinTheta(sqrt, cosTheta) <= 1.0
    ensures eta * SinTheta(sqrt, cosTheta) <= 1.0
  {
    ProductAtMostOne(eta, SinTheta(sqrt, cosTheta));
  }

  lemma NegDot(u: Vec3, n: Vec3)
    ensures Dot(Neg(u), n) == -Dot(u, n)
  {
  }

  /** The sine computed from a cosine in [0, 1] lies in [0, 1]. */
  lemma SineInUnitRange(sqrt: real -> real, cosTheta: real)
    requires IsSqrt(sqrt)
    requires 0.0 <= cosTheta <= 1.0
    ensures 0.0 <= SinTheta(sqrt, cosTheta) <= 1.0
  {
    ProductInUnitRange(cosTheta, cosTheta);
    SqrtAtMostOne(sqrt, 1.0 - cosTheta * cosTheta);
  }

  lemma InverseAtMostOne(refIdx: real, eta: real)
    requires 1.0 <= refIdx && eta == 1.0 / refIdx
    ensures 0.0 < eta <= 1.0
  {
  }

  lemma ProductAtMostOne(a: real, b: real)
    requires 0.0 <= a <= 1.0 && 0.0 <= b <= 1.0
    ensures a * b <= 1.0
  {
    ProductInUnitRange(a, b);
  }

  /**
   * Glass of index 1 does not bend light: a unit ray meeting a unit normal against it either
   * reflects (when the draw falls below the reflectance) or passes straight on.
   */
  lemma DielectricIndexOneUnbent(sqrt: real -> real, rIn: Ray, rec: HitRecord, draw: Draw)
    requires IsSqrt(sqrt)
    requires LengthSquared(rIn.direction) == 1.0 && LengthSquared(rec.normal) == 1.0
    requires Dot(rIn.direction, rec.normal) <= 0.0
    ensures var s := DielectricScatter(sqrt, 1.0, rIn, rec, draw);
      var cosTheta := CosTheta(rIn.direction, rec.normal);
      s.ray.direction == if draw.uniform < Schlick(cosTheta, 1.0) then Reflect(rIn.direction, rec.normal) else rIn.direction
  {
    UnitVectorOfUnit(sqrt, rIn.direction);
    var cosTheta := CosTheta(rIn.direction, rec.normal);
    NegDot(rIn.direction, rec.normal);
    SineInUnitRange(sqrt, cosTheta);
    assert Eta(1.0, rec.frontFace) == 1.0;
    assert !TotalInternalReflection(sqrt, 1.0, cosTheta);
    assert cosTheta == Dot(Neg(rIn.direction), rec.normal) by {
      UnitDot(rIn.direction, rec.normal);
    }
    RefractUnbent(sqrt, rIn.direction, rec.normal);
  }

  /** The dot product of two unit vectors is at most one. */
  lemma UnitDot(u: Vec3, n: Vec3)
    requires LengthSquared(u) == 1.0 && LengthSquared(n) == 1.0
    ensures -1.0 <= Dot(Neg(u), n) <= 1.0
  {
    NegDot(u, n);
    CauchySchwarz(u, n);
    SquareAtMostOne(Dot(u, n), LengthSquared(u) * LengthSquared(n));
  }

  /**
   * `Material::scatter` for each material: Lambertian and dielectric surfaces always scatter,
   * every scattered ray starts at the hit point, metals and diffuse surfaces attenuate by their
   * albedo and glass by white.
   */
  function Scatter(sqrt: real -> real, m: Material, rIn: Ray, rec: HitRecord, draw: Draw): (s: Option<Scattered>)
    ensures !m.Metal? ==> s.Some?
    ensures s.Some? ==> s.value.ray.origin == rec.p
    ensures s.Some? ==> s.value.attenuation == if m.Dielectric? then White else m.albedo
  {
    match m
    case Lambertian(albedo) => Some(LambertianScatter(albedo, rec, draw))
    case Metal(albedo, fuzz) => MetalScatter(sqrt, albedo, fuzz, rIn, rec, draw)
    case Dielectric(refIdx) => Some(DielectricScatter(sqrt, refIdx, rIn, rec, draw))
  }
}
