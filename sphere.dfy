/**
 * `src/sphere.rs`: a sphere with a material, and the ray-sphere intersection that solves the
 * quadratic `a t^2 + 2 half_b t + c == 0` and reports the nearer root lying strictly inside the
 * search interval.
 */
module Spheres {
  import opened Wrappers
  import opened Libm
  import opened Vectors
  import opened Rays
  import opened Materials
  import opened Hit

  /** `Sphere { center, radius, material }`; a negative radius turns the normals inward. */
  datatype Sphere = Sphere(center: Point3, radius: real, material: Material)

  /** `a`: the squared length of the ray direction. */
  function QuadA(r: Ray): real {
    LengthSquared(r.direction)
  }

  /** `half_b`: the dot product of `origin - center` with the direction. */
  function HalfB(s: Sphere, r: Ray): real {
    Dot(Sub(r.origin, s.center), r.direction)
  }

  /** `c`: the squared distance from the center to the origin, less the squared radius. */
  function QuadC(s: Sphere, r: Ray): real {
    LengthSquared(Sub(r.origin, s.center)) - s.radius * s.radius
  }

  function Discriminant(s: Sphere, r: Ray): real {
    HalfB(s, r) * HalfB(s, r) - QuadA(r) * QuadC(s, r)
  }

  /** The point `p` lies on the sphere's surface. */
  predicate OnSphere(s: Sphere, p: Point3) {
    LengthSquared(Sub(p, s.center)) == s.radius * s.radius
  }

  /**
   * A positive discriminant rules out both divisions by zero in `Sphere::hit`: the direction is
   * not the zero vector and the radius is not zero.
   */
  lemma DiscriminantPositive(s: Sphere, r: Ray)
    requires Discriminant(s, r) > 0.0
    ensures QuadA(r) > 0.0 && s.radius != 0.0
  {
    var oc := Sub(r.origin, s.center);
    Lagrange(oc, r.direction);
    LengthSquaredSign(Cross(oc, r.direction));
    LengthSquaredSign(r.direction);
    DotSymmetric(oc, r.direction);
    PositiveFactors(QuadA(r), s.radius, Discriminant(s, r), LengthSquared(Cross(oc, r.direction)));
  }

  /** `disc == a rr - k` with `k >= 0` and `disc > 0` forces `a > 0` (given `a >= 0`) and `r != 0`. */
  lemma PositiveFactors(a: real, radius: real, disc: real, k: real)
    requires 0.0 <= a && 0.0 <= k && 0.0 < disc
    requires disc == a * (radius * radius) - k
    ensures 0.0 < a && radius != 0.0
  {
  }

  /** The root `(-half_b - sqrt(discriminant)) / a` tried first. */
  function NearRoot(sqrt: real -> real, s: Sphere, r: Ray): real
    requires Discriminant(s, r) > 0.0
  {
    DiscriminantPositive(s, r);
    (-HalfB(s, r) - sqrt(Discriminant(s, r))) / QuadA(r)
  }

  /** The root `(-half_b + sqrt(discriminant)) / a` tried second. */
  function FarRoot(sqrt: real -> real, s: Sphere, r: Ray): real
    requires Discriminant(s, r) > 0.0
  {
    DiscriminantPositive(s, r);
    (-HalfB(s, r) + sqrt(Discriminant(s, r))) / QuadA(r)
  }

  /** The record `Sphere::hit` builds at parameter `t`, with outward normal `(p - center) / radius`. */
  function SphereRecord(s: Sphere, r: Ray, t: real): (rec: HitRecord)
    requires s.radius != 0.0
    ensures rec.t == t && rec.p == At(r, t) && rec.material == s.material
    ensures rec == NewHitRecord(At(r, t), r, Div(Sub(At(r, t), s.center), s.radius), t, s.material)
  {
    var p := At(r, t);
    NewHitRecord(p, r, Div(Sub(p, s.center), s.radius), t, s.material)
  }

  /**
   * `Sphere::hit`: a miss unless the discriminant is strictly positive (a tangent ray misses);
   * otherwise the near root if it lies strictly inside `(tMin, tMax)`, else the far root if it
   * does, else a miss.
   */
  function SphereHit(sqrt: real -> real, s: Sphere, r: Ray, tMin: real, tMax: UpperBound): (hit: Option<HitRecord>)
    ensures Discriminant(s, r) <= 0.0 ==> hit.None?
    ensures hit.Some? ==> Discriminant(s, r) > 0.0 && s.radius != 0.0
    ensures hit.Some? ==> tMin < hit.value.t && Below(hit.value.t, tMax)
    ensures hit.Some? ==> hit.value == SphereRecord(s, r, hit.value.t)
    ensures hit.Some? ==> hit.value.t == NearRoot(sqrt, s, r) || hit.value.t == FarRoot(sqrt, s, r)
  {
    var a := QuadA(r);
    var halfB := HalfB(s, r);
    var discriminant := Discriminant(s, r);
    if discriminant > 0.0 then
      DiscriminantPositive(s, r);
      var root := sqrt(discriminant);
      var near := (-halfB - root) / a;
      if Below(near, tMax) && tMin < near then
        Some(SphereRecord(s, r, near))
      else
        var far := (-halfB + root) / a;
        if Below(far, tMax) && tMin < far then
          Some(SphereRecord(s, r, far))
        else
          None
    else
      None
  }

  /** `a t^2 + 2 half_b t + c`, which vanishes exactly where the ray meets the sphere. */
  function Quadratic(s: Sphere, r: Ray, t: real): real {
    QuadA(r) * t * t + 2.0 * HalfB(s, r) * t + QuadC(s, r)
  }

  /** The point at parameter `t` lies on the sphere iff `t` solves the quadratic. */
  lemma SphereQuadratic(s: Sphere, r: Ray, t: real)
    ensures OnSphere(s, At(r, t)) <==> Quadratic(s, r, t) == 0.0
  {
    DistanceAlongRay(s, r, t);
  }

  /** `|origin + t d - center|^2 - radius^2` is the quadratic at `t`. */
  lemma DistanceAlongRay(s: Sphere, r: Ray, t: real)
    ensures LengthSquared(Sub(At(r, t), s.center)) - s.radius * s.radius == Quadratic(s, r, t)
  {
    var oc := Sub(r.origin, s.center);
    var d := r.direction;
    OffsetAlongRay(s, r, t);
    LengthSquaredAddScaled(oc, t, d);
    SubstituteQuadratic(LengthSquared(Add(oc, Scale(t, d))), Dot(oc, oc), Dot(oc, d), Dot(d, d),
                        LengthSquared(oc), HalfB(s, r), QuadA(r), s.radius * s.radius, t);
  }

  lemma OffsetAlongRay(s: Sphere, r: Ray, t: real)
    ensures Sub(At(r, t), s.center) == Add(Sub(r.origin, s.center), Scale(t, r.direction))
  {
  }

  lemma SubstituteQuadratic(l: real, a: real, h: real, b: real, a': real, h': real, b': real, rr: real, t: real)
    requires l == a + 2.0 * t * h + t * t * b
    requires a == a' && h == h' && b == b'
    ensures l - rr == b' * t * t + 2.0 * h' * t + (a' - rr)
  {
  }

  /**
   * With a positive discriminant the quadratic vanishes exactly at the near and far roots, and
   * the near root is the smaller.
   */
  lemma QuadraticRoots(sqrt: real -> real, s: Sphere, r: Ray, t: real)
    requires IsSqrt(sqrt)
    requires Discriminant(s, r) > 0.0
    ensures Quadratic(s, r, t) == 0.0 <==> t == NearRoot(sqrt, s, r) || t == FarRoot(sqrt, s, r)
    ensures NearRoot(sqrt, s, r) <= FarRoot(sqrt, s, r)
  {
    DiscriminantPositive(s, r);
    var root := sqrt(Discriminant(s, r));
    assert 0.0 <= root && root * root == Discriminant(s, r);
    RealQuadraticRoots(QuadA(r), HalfB(s, r), QuadC(s, r), root, t);
  }

  /** A negative discriminant leaves the quadratic without roots. */
  lemma QuadraticNoRoots(s: Sphere, r: Ray, t: real)
    requires Discriminant(s, r) < 0.0
    ensures Quadratic(s, r, t) != 0.0
  {
    LengthSquaredSign(r.direction);
    RealQuadraticNoRoots(QuadA(r), HalfB(s, r), QuadC(s, r), t);
  }

  /**
   * The ray meets the sphere at the reported parameter and nowhere closer inside the interval;
   * a miss means that no point of the sphere lies inside the interval, except where the ray only
   * grazes the sphere (discriminant zero), which the strict test counts as a miss.
   */
  lemma SphereHitIsNearest(sqrt: real -> real, s: Sphere, r: Ray, tMin: real, tMax: UpperBound)
    requires IsSqrt(sqrt)
    ensures var hit := SphereHit(sqrt, s, r, tMin, tMax);
      hit.Some? ==> OnSphere(s, hit.value.p) && forall t :: tMin < t < hit.value.t ==> !OnSphere(s, At(r, t))
    ensures SphereHit(sqrt, s, r, tMin, tMax).None? ==>
      forall t :: tMin < t && Below(t, tMax) && OnSphere(s, At(r, t)) ==> Discriminant(s, r) == 0.0
  {
    var hit := SphereHit(sqrt, s, r, tMin, tMax);
    var disc := Discriminant(s, r);
    if disc > 0.0 {
      var near := NearRoot(sqrt, s, r);
      var far := FarRoot(sqrt, s, r);
      QuadraticRoots(sqrt, s, r, near);
      SphereQuadratic(s, r, near);
      SphereQuadratic(s, r, far);
      QuadraticRoots(sqrt, s, r, far);
      forall t | OnSphere(s, At(r, t))
        ensures t == near || t == far
      {
        SphereQuadratic(s, r, t);
        QuadraticRoots(sqrt, s, r, t);
      }
    } else if disc < 0.0 {
      forall t
        ensures !OnSphere(s, At(r, t))
      {
        SphereQuadratic(s, r, t);
        QuadraticNoRoots(s, r, t);
      }
    }
  }

  /**
   * Searching with a smaller upper bound finds the same hit when that hit lies below the new
   * bound, and nothing otherwise: the near root is never beyond the far one.
   */
  lemma SphereHitShrink(sqrt: real -> real, s: Sphere, r: Ray, tMin: real, tMax: UpperBound, bound: UpperBound)
    requires IsSqrt(sqrt)
    requires AtMost(bound, tMax)
    ensures var wide := SphereHit(sqrt, s, r, tMin, tMax);
      SphereHit(sqrt, s, r, tMin, bound) == if wide.Some? && Below(wide.value.t, bound) then wide else None
  {
    if Discriminant(s, r) > 0.0 {
      QuadraticRoots(sqrt, s, r, 0.0);
      var near := NearRoot(sqrt, s, r);
      var far := FarRoot(sqrt, s, r);
      if Below(near, bound) {
        BelowAtMost(near, bound, tMax);
      }
      if Below(far, bound) {
        BelowAtMost(far, bound, tMax);
      }
    }
  }

  /**
   * A ray with a unit direction aimed at the centre of a sphere of positive radius lying `k`
   * ahead meets it first at `k - radius`, on the front face, with the normal pointing back along
   * the ray.
   */
  lemma SphereHitHeadOn(sqrt: real -> real, s: Sphere, r: Ray, k: real, tMin: real)
    requires IsSqrt(sqrt)
    requires LengthSquared(r.direction) == 1.0 && 0.0 < s.radius
    requires s.center == At(r, k) && tMin < k - s.radius
    ensures var hit := SphereHit(sqrt, s, r, tMin, Infinity);
      hit.Some? && hit.value.t == k - s.radius && hit.value.p == At(r, k - s.radius)
      && hit.value.frontFace && hit.value.normal == Neg(r.direction)
  {
    var d := r.direction;
    HeadOnCoefficients(s, r, k);
    HeadOnDiscriminant(Discriminant(s, r), QuadA(r), HalfB(s, r), QuadC(s, r), k, s.radius);
    SqrtOfKnownSquare(sqrt, Discriminant(s, r), s.radius);
    assert NearRoot(sqrt, s, r) == k - s.radius;
    HeadOnNormal(s, r, k);
    assert Dot(d, Neg(d)) == -LengthSquared(d);
  }

  lemma HeadOnCoefficients(s: Sphere, r: Ray, k: real)
    requires LengthSquared(r.direction) == 1.0
    requires s.center == At(r, k)
    ensures QuadA(r) == 1.0 && HalfB(s, r) == -k
    ensures QuadC(s, r) == (-k) * (-k) * 1.0 - s.radius * s.radius
  {
    var d := r.direction;
    assert Sub(r.origin, s.center) == Scale(-k, d);
    DotScaleLeft(-k, d, d);
    LengthSquaredIsDot(d);
    ScaleLengthSquared(-k, d);
  }

  lemma HeadOnDiscriminant(disc: real, a: real, halfB: real, c: real, k: real, radius: real)
    requires disc == halfB * halfB - a * c
    requires a == 1.0 && halfB == -k && c == (-k) * (-k) * 1.0 - radius * radius
    requires 0.0 < radius
    ensures disc == radius * radius
    ensures 0.0 < disc
  {
    assert disc == radius * radius;
    PositiveProduct(disc, radius, radius);
  }

  /** A product of two positive factors is positive. */
  lemma PositiveProduct(d: real, x: real, y: real)
    requires 0.0 < x && 0.0 < y && d == x * y
    ensures 0.0 < d
  {
    ProductPositive(x, y);
  }

  /** The outward normal where the ray first meets the sphere points back along the ray. */
  lemma HeadOnNormal(s: Sphere, r: Ray, k: real)
    requires s.radius != 0.0
    requires s.center == At(r, k)
    ensures Div(Sub(At(r, k - s.radius), s.center), s.radius) == Neg(r.direction)
  {
    var d := r.direction;
    assert Sub(At(r, k - s.radius), s.center) == Scale(-s.radius, d);
    UndoScale(s.radius, d.x);
    UndoScale(s.radius, d.y);
    UndoScale(s.radius, d.z);
  }

  lemma UndoScale(radius: real, x: real)
    requires radius != 0.0
    ensures 1.0 / radius * (-radius * x) == -x
  {
  }

  /**
   * A worked hit: a sphere of radius 0.5 centred one unit ahead of a ray travelling along -z
   * (the origin looking at (0, 0, -1), as in the first scene of the book) is hit at t = 0.5 on
   * its front face with normal (0, 0, 1).
   */
  lemma SphereHitAhead(sqrt: real -> real, s: Sphere, r: Ray)
    requires IsSqrt(sqrt)
    requires r.direction == Vec3(0.0, 0.0, -1.0)
    requires s.center == At(r, 1.0) && s.radius == 0.5
    ensures var hit := SphereHit(sqrt, s, r, 0.0, Infinity);
      hit.Some? && hit.value.t == 0.5 && hit.value.frontFace && hit.value.normal == Vec3(0.0, 0.0, 1.0)
  {
    SphereHitHeadOn(sqrt, s, r, 1.0, 0.0);
  }

  /** A worked miss: the same ray misses a sphere of radius 0.5 centred at (5, 5, 5). */
  lemma SphereMissed(sqrt: real -> real, s: Sphere, r: Ray)
    requires s.center == Vec3(5.0, 5.0, 5.0) && s.radius == 0.5
    requires r == Ray(Vec3(0.0, 0.0, 0.0), Vec3(0.0, 0.0, -1.0))
    ensures SphereHit(sqrt, s, r, 0.0, Infinity).None?
  {
    assert Sub(r.origin, s.center) == Vec3(-5.0, -5.0, -5.0);
    MissedDiscriminant(Discriminant(s, r), QuadA(r), HalfB(s, r), QuadC(s, r));
  }

  lemma MissedDiscriminant(disc: real, a: real, halfB: real, c: real)
    requires disc == halfB * halfB - a * c
    requires a == 1.0 && halfB == 5.0 && c == 74.75
    ensures disc < 0.0
  {
  }

  lemma RealQuadraticRoots(a: real, hb: real, c: real, root: real, t: real)
    requires 0.0 < a && 0.0 <= root && root * root == hb * hb - a * c
    ensures a * t * t + 2.0 * hb * t + c == 0.0 <==> t == (-hb - root) / a || t == (-hb + root) / a
    ensures (-hb - root) / a <= (-hb + root) / a
  {
    var u := a * t + hb;
    QuadIdentity(a, hb, c, t);
    if a * t * t + 2.0 * hb * t + c == 0.0 {
      SquaresEqual(u, root);
      if u == root {
        DivUnique(-hb + root, a, t);
      } else {
        DivUnique(-hb - root, a, t);
      }
    } else {
      ZeroProductOf(a, a * t * t + 2.0 * hb * t + c);
      if t == (-hb - root) / a {
        DivMul(-hb - root, a);
      } else if t == (-hb + root) / a {
        DivMul(-hb + root, a);
      }
    }
  }

  lemma RealQuadraticNoRoots(a: real, hb: real, c: real, t: real)
    requires 0.0 <= a && hb * hb - a * c < 0.0
    ensures a * t * t + 2.0 * hb * t + c != 0.0
  {
    QuadIdentity(a, hb, c, t);
    SquareNonNegative(a * t + hb);
    SquareNonNegative(hb);
  }

  lemma QuadIdentity(a: real, hb: real, c: real, t: real)
    ensures a * (a * t * t + 2.0 * hb * t + c) == (a * t + hb) * (a * t + hb) - (hb * hb - a * c)
  {
  }

  lemma SquaresEqual(u: real, root: real)
    requires 0.0 <= root
    requires u * u == root * root
    ensures u == root || u == -root
  {
    assert (u - root) * (u + root) == 0.0;
  }

  lemma ZeroProductOf(a: real, q: real)
    requires a != 0.0 && q != 0.0
    ensures a * q != 0.0
  {
  }

  lemma DivMul(x: real, a: real)
    requires a != 0.0
    ensures a * (x / a) == x
  {
  }

  lemma DivUnique(x: real, a: real, t: real)
    requires a != 0.0 && a * t == x
    ensures t == x / a
  {
  }
}
