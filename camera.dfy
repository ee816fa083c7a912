/**
 * `src/camera.rs`: a thin-lens camera. `Camera::new` builds an orthonormal frame (`u` to the
 * right, `v` up, `w` backwards) from where the camera stands, where it looks and which way is
 * up, and places the focus plane `focus_dist` in front of it; `get_ray` shoots a ray from a
 * random point of the lens through a point of that plane. `tan` and `sqrt` are passed as
 * functions and the lens sample as a value.
 */
module Cameras {
  import opened Libm
  import opened Utility
  import opened Vectors
  import opened Rays

  /** `Camera`: its position, the focus-plane rectangle, its frame and the lens radius. */
  datatype Camera = Camera(
    origin: Point3,
    lowerLeftCorner: Point3,
    horizontal: Vec3,
    vertical: Vec3,
    u: Vec3,
    v: Vec3,
    w: Vec3,
    lensRadius: real)

  /** `2 tan(theta / 2)`, the viewport height for a vertical field of view of `vfov` degrees. */
  function ViewportHeight(tan: real -> real, vfov: real): real {
    2.0 * tan(DegreesToRadians(vfov) / 2.0)
  }

  /** `Camera::new`. */
  function NewCamera(sqrt: real -> real, tan: real -> real, lookfrom: Point3, lookat: Point3, vup: Vec3,
                     vfov: real, aspectRatio: real, aperture: real, focusDist: real): Camera
  {
    var viewportHeight := ViewportHeight(tan, vfov);
    var viewportWidth := aspectRatio * viewportHeight;
    var w := UnitVector(sqrt, Sub(lookfrom, lookat));
    var u := UnitVector(sqrt, Cross(vup, w));
    var v := Cross(w, u);
    var horizontal := Scale(focusDist * viewportWidth, u);
    var vertical := Scale(focusDist * viewportHeight, v);
    var lowerLeftCorner := Sub(Sub(Sub(lookfrom, Div(horizontal, 2.0)), Div(vertical, 2.0)), Scale(focusDist, w));
    Camera(lookfrom, lowerLeftCorner, horizontal, vertical, u, v, w, aperture / 2.0)
  }

  /** The point of the focus-plane rectangle at the fractions `s` across and `t` up. */
  function ScreenPoint(cam: Camera, s: real, t: real): Point3 {
    Add(Add(cam.lowerLeftCorner, Scale(s, cam.horizontal)), Scale(t, cam.vertical))
  }

  /** What `Vec3::random_in_unit_disk` returns: a point of the open unit disk in the xy-plane. */
  predicate InUnitDisk(p: Vec3) {
    p.z == 0.0 && LengthSquared(p) < 1.0
  }

  /** `offset`: the lens sample scaled to the lens and laid out along `u` and `v`. */
  function LensOffset(cam: Camera, disk: Vec3): Vec3 {
    var rd := Scale(cam.lensRadius, disk);
    Add(Scale(rd.x, cam.u), Scale(rd.y, cam.v))
  }

  /** `get_ray(s, t)` for the lens sample `disk`. */
  function GetRay(cam: Camera, s: real, t: real, disk: Vec3): Ray {
    var offset := LensOffset(cam, disk);
    Ray(Add(cam.origin, offset), Sub(Sub(ScreenPoint(cam, s, t), cam.origin), offset))
  }

  /**
   * Whatever the lens sample, the ray reaches the same point of the focus plane at parameter 1:
   * points on the focus plane are sharp, everything else is blurred.
   */
  lemma GetRayFocus(cam: Camera, s: real, t: real, disk: Vec3)
    ensures At(GetRay(cam, s, t, disk), 1.0) == ScreenPoint(cam, s, t)
  {
  }

  /** With no aperture every ray starts at the camera's position: a pinhole camera. */
  lemma GetRayPinhole(cam: Camera, s: real, t: real, disk: Vec3)
    requires cam.lensRadius == 0.0
    ensures GetRay(cam, s, t, disk).origin == cam.origin
    ensures GetRay(cam, s, t, disk).direction == Sub(ScreenPoint(cam, s, t), cam.origin)
  {
    assert Scale(cam.lensRadius, disk) == Zero;
    assert LensOffset(cam, disk) == Zero;
  }

  /** A camera built with no aperture shoots every ray from `lookfrom`. */
  lemma NewCameraPinhole(sqrt: real -> real, tan: real -> real, lookfrom: Point3, lookat: Point3, vup: Vec3,
                         vfov: real, aspectRatio: real, focusDist: real, s: real, t: real, disk: Vec3)
    ensures GetRay(NewCamera(sqrt, tan, lookfrom, lookat, vup, vfov, aspectRatio, 0.0, focusDist), s, t, disk).origin
            == lookfrom
  {
    GetRayPinhole(NewCamera(sqrt, tan, lookfrom, lookat, vup, vfov, aspectRatio, 0.0, focusDist), s, t, disk);
  }

  /**
   * Unless the camera looks at its own position or `vup` is parallel to the view direction,
   * `Camera::new` builds an orthonormal frame with `u` horizontal (orthogonal to `vup`), stands at
   * `lookfrom` and has a lens of radius `aperture / 2`.
   */
  lemma NewCameraFrame(sqrt: real -> real, tan: real -> real, lookfrom: Point3, lookat: Point3, vup: Vec3,
                       vfov: real, aspectRatio: real, aperture: real, focusDist: real)
    requires IsSqrt(sqrt)
    requires LengthSquared(Sub(lookfrom, lookat)) != 0.0
    requires LengthSquared(Cross(vup, Sub(lookfrom, lookat))) != 0.0
    ensures var cam := NewCamera(sqrt, tan, lookfrom, lookat, vup, vfov, aspectRatio, aperture, focusDist);
      cam.origin == lookfrom && cam.lensRadius * 2.0 == aperture
      && Orthonormal(cam.u, cam.v, cam.w) && Dot(cam.u, vup) == 0.0
  {
    OrthonormalFrame(sqrt, Sub(lookfrom, lookat), vup);
  }

  /** Three mutually orthogonal unit vectors. */
  predicate Orthonormal(u: Vec3, v: Vec3, w: Vec3) {
    LengthSquared(u) == 1.0 && LengthSquared(v) == 1.0 && LengthSquared(w) == 1.0
    && Dot(u, v) == 0.0 && Dot(v, w) == 0.0 && Dot(u, w) == 0.0
  }

  /** The frame `w = unit(d)`, `u = unit(vup x w)`, `v = w x u` is orthonormal, with `u` orthogonal to `vup`. */
  lemma OrthonormalFrame(sqrt: real -> real, d: Vec3, vup: Vec3)
    requires IsSqrt(sqrt)
    requires LengthSquared(d) != 0.0 && LengthSquared(Cross(vup, d)) != 0.0
    ensures var w := UnitVector(sqrt, d);
      var u := UnitVector(sqrt, Cross(vup, w));
      Orthonormal(u, Cross(w, u), w) && Dot(u, vup) == 0.0
  {
    var w := UnitVector(sqrt, d);
    UnitVectorIsUnit(sqrt, d);
    var c := Cross(vup, w);
    assert LengthSquared(c) != 0.0 by {
      CrossOfUnitVector(sqrt, vup, d);
    }
    var u := UnitVector(sqrt, c);
    UnitVectorIsUnit(sqrt, c);
    CrossOrthogonal(vup, w);
    DotSymmetric(c, vup);
    UnitVectorOrthogonal(sqrt, c, w);
    UnitVectorOrthogonal(sqrt, c, vup);
    var v := Cross(w, u);
    CrossOrthogonal(w, u);
    DotSymmetric(v, u);
    DotSymmetric(u, w);
    CrossOfOrthonormal(w, u);
  }

  /** Normalising `d` does not make `vup x d` vanish. */
  lemma CrossOfUnitVector(sqrt: real -> real, vup: Vec3, d: Vec3)
    requires IsSqrt(sqrt)
    requires LengthSquared(d) != 0.0 && LengthSquared(Cross(vup, d)) != 0.0
    ensures LengthSquared(Cross(vup, UnitVector(sqrt, d))) != 0.0
  {
    LengthSquaredSign(d);
    var len := Length(sqrt, d);
    SqrtPositive(sqrt, LengthSquared(d));
    var k := 1.0 / len;
    assert UnitVector(sqrt, d) == Scale(k, d);
    CrossScaleRight(vup, k, d);
    ScaleLengthSquared(k, Cross(vup, d));
    NonZeroProduct(k, LengthSquared(Cross(vup, d)));
  }

  /** A factor on the right of a cross product comes out of it. */
  lemma CrossScaleRight(a: Vec3, k: real, b: Vec3)
    ensures Cross(a, Scale(k, b)) == Scale(k, Cross(a, b))
  {
    var kb := Scale(k, b);
    var c := Cross(a, b);
    MinorScaleRight(a.y, b.z, a.z, b.y, k);
    assert Cross(a, kb).x == k * c.x;
    MinorScaleRight(a.z, b.x, a.x, b.z, k);
    assert Cross(a, kb).y == k * c.y;
    MinorScaleRight(a.x, b.y, a.y, b.x, k);
    assert Cross(a, kb).z == k * c.z;
  }

  /** One component of a cross product: the factor `k` comes out of `p q - r s`. */
  lemma MinorScaleRight(p: real, q: real, r: real, s: real, k: real)
    ensures p * (k * q) - r * (k * s) == k * (p * q - r * s)
  {
    assert p * (k * q) == k * (p * q);
    assert r * (k * s) == k * (r * s);
  }

  lemma NonZeroProduct(k: real, x: real)
    requires k != 0.0 && x != 0.0
    ensures k * k * x != 0.0
  {
  }

  /** Normalising keeps a vector orthogonal to whatever it was orthogonal to. */
  lemma UnitVectorOrthogonal(sqrt: real -> real, c: Vec3, x: Vec3)
    requires Dot(c, x) == 0.0
    ensures Dot(UnitVector(sqrt, c), x) == 0.0
  {
    var len := Length(sqrt, c);
    if len != 0.0 {
      DotScaleLeft(1.0 / len, c, x);
    }
  }

  /** The cross product of two orthogonal unit vectors is a unit vector. */
  lemma CrossOfOrthonormal(w: Vec3, u: Vec3)
    requires LengthSquared(w) == 1.0 && LengthSquared(u) == 1.0 && Dot(w, u) == 0.0
    ensures LengthSquared(Cross(w, u)) == 1.0
  {
    Lagrange(w, u);
  }

  /**
   * The middle of the screen lies `focus_dist` in front of the camera along `-w`; when the focus
   * distance is the distance to `lookat`, it is `lookat` itself.
   */
  lemma NewCameraScreenCenter(sqrt: real -> real, tan: real -> real, lookfrom: Point3, lookat: Point3, vup: Vec3,
                              vfov: real, aspectRatio: real, aperture: real, focusDist: real)
    requires IsSqrt(sqrt)
    ensures var cam := NewCamera(sqrt, tan, lookfrom, lookat, vup, vfov, aspectRatio, aperture, focusDist);
      ScreenPoint(cam, 0.5, 0.5) == Sub(lookfrom, Scale(focusDist, cam.w))
    ensures var cam := NewCamera(sqrt, tan, lookfrom, lookat, vup, vfov, aspectRatio, aperture, focusDist);
      LengthSquared(Sub(lookfrom, lookat)) != 0.0 && focusDist == Length(sqrt, Sub(lookfrom, lookat))
      ==> ScreenPoint(cam, 0.5, 0.5) == lookat
  {
    var cam := NewCamera(sqrt, tan, lookfrom, lookat, vup, vfov, aspectRatio, aperture, focusDist);
    CenterOfScreen(lookfrom, cam.horizontal, cam.vertical, Scale(focusDist, cam.w));
    var d := Sub(lookfrom, lookat);
    if LengthSquared(d) != 0.0 && focusDist == Length(sqrt, d) {
      LengthSquaredSign(d);
      SqrtPositive(sqrt, LengthSquared(d));
      DivUndoesScale(d, focusDist);
      SubUndoesAdd(lookat, d);
    }
  }

  /** Half of each edge added back to `origin - h/2 - v/2 - f` leaves `origin - f`. */
  lemma CenterOfScreen(origin: Vec3, h: Vec3, v: Vec3, f: Vec3)
    ensures Add(Add(Sub(Sub(Sub(origin, Div(h, 2.0)), Div(v, 2.0)), f), Scale(0.5, h)), Scale(0.5, v))
            == Sub(origin, f)
  {
  }

  /**
   * The focus-plane rectangle is `focus_dist` times the viewport: its squared width and height
   * are those of `focus_dist * aspect_ratio * 2 tan(theta / 2)` and `focus_dist * 2 tan(theta / 2)`.
   */
  lemma NewCameraViewport(sqrt: real -> real, tan: real -> real, lookfrom: Point3, lookat: Point3, vup: Vec3,
                          vfov: real, aspectRatio: real, aperture: real, focusDist: real)
    requires IsSqrt(sqrt)
    requires LengthSquared(Sub(lookfrom, lookat)) != 0.0
    requires LengthSquared(Cross(vup, Sub(lookfrom, lookat))) != 0.0
    ensures var cam := NewCamera(sqrt, tan, lookfrom, lookat, vup, vfov, aspectRatio, aperture, focusDist);
      var height := focusDist * ViewportHeight(tan, vfov);
      var width := focusDist * (aspectRatio * ViewportHeight(tan, vfov));
      LengthSquared(cam.horizontal) == width * width && LengthSquared(cam.vertical) == height * height
  {
    var cam := NewCamera(sqrt, tan, lookfrom, lookat, vup, vfov, aspectRatio, aperture, focusDist);
    NewCameraFrame(sqrt, tan, lookfrom, lookat, vup, vfov, aspectRatio, aperture, focusDist);
    ScaleUnit(focusDist * (aspectRatio * ViewportHeight(tan, vfov)), cam.u);
    ScaleUnit(focusDist * ViewportHeight(tan, vfov), cam.v);
  }

  lemma ScaleUnit(k: real, u: Vec3)
    requires LengthSquared(u) == 1.0
    ensures LengthSquared(Scale(k, u)) == k * k
  {
    ScaleLengthSquared(k, u);
  }

  /**
   * Rays start on the lens: for a camera with orthonormal `u` and `v` (as NewCameraFrame shows
   * `Camera::new` builds) and a sample of the unit disk, the ray's origin lies within the lens
   * radius of the camera's position, at the sample's distance scaled by the radius.
   */
  lemma LensRay(cam: Camera, s: real, t: real, disk: Vec3)
    requires LengthSquared(cam.u) == 1.0 && LengthSquared(cam.v) == 1.0 && Dot(cam.u, cam.v) == 0.0
    requires InUnitDisk(disk)
    ensures var offset := Sub(GetRay(cam, s, t, disk).origin, cam.origin);
      LengthSquared(offset) == cam.lensRadius * cam.lensRadius * LengthSquared(disk)
      && LengthSquared(offset) <= cam.lensRadius * cam.lensRadius
  {
    SubUndoesAdd(LensOffset(cam, disk), cam.origin);
    assert Sub(GetRay(cam, s, t, disk).origin, cam.origin) == LensOffset(cam, disk);
    LensOffsetLength(cam, disk);
    LensBound(cam.lensRadius, disk);
  }

  /**
   * For a camera whose `u` and `v` are orthonormal, the lens offset of a sample of the xy-plane
   * is the sample's length scaled by the lens radius.
   */
  lemma LensOffsetLength(cam: Camera, disk: Vec3)
    requires LengthSquared(cam.u) == 1.0 && LengthSquared(cam.v) == 1.0 && Dot(cam.u, cam.v) == 0.0
    requires disk.z == 0.0
    ensures LengthSquared(LensOffset(cam, disk)) == cam.lensRadius * cam.lensRadius * LengthSquared(disk)
  {
    PlanarCombination(Scale(cam.lensRadius, disk), cam.u, cam.v);
    ScaleLengthSquared(cam.lensRadius, disk);
  }

  /** A sample of the unit disk scaled by `radius` lies within `radius`. */
  lemma LensBound(radius: real, disk: Vec3)
    requires InUnitDisk(disk)
    ensures radius * radius * LengthSquared(disk) <= radius * radius
  {
    SquareNonNegative(radius);
    AtMostOneShrinksSquare(radius * radius, LengthSquared(disk));
  }

  /** A vector of the xy-plane laid out along orthonormal `u` and `v` keeps its length. */
  lemma PlanarCombination(rd: Vec3, u: Vec3, v: Vec3)
    requires LengthSquared(u) == 1.0 && LengthSquared(v) == 1.0 && Dot(u, v) == 0.0
    requires rd.z == 0.0
    ensures LengthSquared(Add(Scale(rd.x, u), Scale(rd.y, v))) == LengthSquared(rd)
  {
    OrthonormalCombination(rd.x, rd.y, u, v);
  }

  lemma AtMostOneShrinksSquare(r2: real, l: real)
    requires 0.0 <= r2 && l < 1.0
    ensures r2 * l <= r2
  {
  }

  /** `a u + b v` for orthonormal `u`, `v` has squared length `a^2 + b^2`. */
  lemma OrthonormalCombination(a: real, b: real, u: Vec3, v: Vec3)
    requires LengthSquared(u) == 1.0 && LengthSquared(v) == 1.0 && Dot(u, v) == 0.0
    ensures LengthSquared(Add(Scale(a, u), Scale(b, v))) == a * a + b * b
  {
    LengthSquaredAddScaled(Scale(a, u), b, v);
    LengthSquaredIsDot(Scale(a, u));
    ScaleLengthSquared(a, u);
    DotScaleLeft(a, u, v);
    LengthSquaredIsDot(v);
  }
}
