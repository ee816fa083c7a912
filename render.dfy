/**
 * `ray_color` of `src/main.rs`: the colour a ray gathers from the scene. A ray that has used up
 * its bounces gathers nothing; a ray that hits a surface gathers what its scattered ray gathers,
 * filtered by the attenuation, or nothing when the surface absorbs it; a ray that escapes shows
 * the sky, a vertical blend from white to light blue. The random numbers of the bounce taken with
 * `depth` bounces left are `draw(depth)`.
 */
module Render {
  import opened Wrappers
  import opened Libm
  import opened Vectors
  import opened Rays
  import opened Materials
  import opened Hit
  import opened Spheres
  import opened Scene
  import opened Scattering

  /** The lower end of the search interval, which keeps a bounce from hitting its own surface. */
  const TMin: real := 0.001

  const SkyWhite: Color := Color(Vec3(1.0, 1.0, 1.0))
  const SkyBlue: Color := Color(Vec3(0.5, 0.7, 1.0))

  /** `(1 - t) * white + t * blue`. */
  function SkyBlend(t: real): Color {
    ColorAdd(ColorScale(1.0 - t, SkyWhite), ColorScale(t, SkyBlue))
  }

  /** The sky seen along `r`: the blend at half of one more than the height of the unit direction. */
  function Background(sqrt: real -> real, r: Ray): Color {
    var unitDirection := UnitVector(sqrt, r.direction);
    SkyBlend(0.5 * (unitDirection.y + 1.0))
  }

  /** `ray_color(r, world, depth)`. */
  function RayColor(sqrt: real -> real, r: Ray, world: seq<Sphere>, depth: int, draw: int -> Draw): Color
    decreases depth
  {
    if depth <= 0 then
      Black
    else
      match ClosestHit(sqrt, world, r, TMin, Infinity)
      case None => Background(sqrt, r)
      case Some(rec) =>
        match Scatter(sqrt, rec.material, r, rec, draw(depth))
        case None => Black
        case Some(scattered) => ColorMul(scattered.attenuation, RayColor(sqrt, scattered.ray, world, depth - 1, draw))
  }

  /** Every channel of `c` lies in [0, 1]. */
  predicate UnitColor(c: Color) {
    0.0 <= c.rgb.x <= 1.0 && 0.0 <= c.rgb.y <= 1.0 && 0.0 <= c.rgb.z <= 1.0
  }

  /** Glass, or a surface whose albedo channels lie in [0, 1]. */
  predicate PhysicalMaterial(m: Material) {
    m.Dielectric? || UnitColor(m.albedo)
  }

  /** Every sphere of the world is made of a physical material. */
  predicate PhysicalWorld(world: seq<Sphere>) {
    forall i | 0 <= i < |world| :: PhysicalMaterial(world[i].material)
  }

  /** The blend runs from white at the bottom to light blue at the top. */
  lemma SkyBlendEnds()
    ensures SkyBlend(0.0) == SkyWhite && SkyBlend(1.0) == SkyBlue
  {
  }

  /** For a parameter in [0, 1] the blend is a colour with channels in [0, 1]. */
  lemma SkyBlendInUnitRange(t: real)
    requires 0.0 <= t <= 1.0
    ensures UnitColor(SkyBlend(t))
  {
    Blend(t, 0.5);
    Blend(t, 0.7);
    Blend(t, 1.0);
  }

  /** `(1 - t) + t b` lies in [0, 1] for `t` and `b` in [0, 1]. */
  lemma Blend(t: real, b: real)
    requires 0.0 <= t <= 1.0 && 0.0 <= b <= 1.0
    ensures 0.0 <= (1.0 - t) * 1.0 + t * b <= 1.0
  {
    AtMostOneShrinks(t, b);
    AtMostOneShrinks(b, t);
    assert b * t == t * b;
  }

  /** Whatever the direction, the sky's channels lie in [0, 1]. */
  lemma BackgroundInUnitRange(sqrt: real -> real, r: Ray)
    requires IsSqrt(sqrt)
    ensures UnitColor(Background(sqrt, r))
  {
    UnitVectorComponents(sqrt, r.direction);
    SkyBlendInUnitRange(0.5 * (UnitVector(sqrt, r.direction).y + 1.0));
  }

  /** Looking straight up shows light blue, straight down white. */
  lemma BackgroundVertical(sqrt: real -> real, r: Ray)
    requires IsSqrt(sqrt)
    requires r.direction.x == 0.0 && r.direction.z == 0.0 && r.direction.y != 0.0
    ensures r.direction.y > 0.0 ==> Background(sqrt, r) == SkyBlue
    ensures r.direction.y < 0.0 ==> Background(sqrt, r) == SkyWhite
  {
    var y := r.direction.y;
    var height := if y > 0.0 then y else -y;
    assert LengthSquared(r.direction) == height * height;
    SqrtOfKnownSquare(sqrt, LengthSquared(r.direction), height);
    VerticalUnit(y, height);
  }

  /** A vertical direction normalises to height 1 or -1. */
  lemma VerticalUnit(y: real, height: real)
    requires y != 0.0 && (height == y || height == -y) && 0.0 < height
    ensures y > 0.0 ==> (1.0 / height) * y == 1.0
    ensures y < 0.0 ==> (1.0 / height) * y == -1.0
  {
  }

  /** Once the bounces are used up no more light is gathered, whatever the ray and the world. */
  lemma RayColorExhausted(sqrt: real -> real, r: Ray, world: seq<Sphere>, depth: int, draw: int -> Draw)
    requires depth <= 0
    ensures RayColor(sqrt, r, world, depth, draw) == Black
  {
  }

  /**
   * The recursion stops within `depth` levels: the colour depends only on the draws of the
   * bounces numbered 1 to `depth`.
   */
  lemma {:induction false} RayColorUsesDepthDraws(sqrt: real -> real, r: Ray, world: seq<Sphere>, depth: int,
                                                  draw: int -> Draw, other: int -> Draw)
    requires forall k | 1 <= k <= depth :: draw(k) == other(k)
    ensures RayColor(sqrt, r, world, depth, draw) == RayColor(sqrt, r, world, depth, other)
    decreases depth
  {
    if depth > 0 {
      var hit := ClosestHit(sqrt, world, r, TMin, Infinity);
      if hit.Some? {
        var rec := hit.value;
        assert draw(depth) == other(depth);
        var s := Scatter(sqrt, rec.material, r, rec, draw(depth));
        if s.Some? {
          RayColorUsesDepthDraws(sqrt, s.value.ray, world, depth - 1, draw, other);
        }
      }
    }
  }

  /** A ray that every sphere misses on its own shows the sky, while bounces remain. */
  lemma RayColorMissesSky(sqrt: real -> real, r: Ray, world: seq<Sphere>, depth: int, draw: int -> Draw)
    requires 0 < depth
    requires forall i | 0 <= i < |world| :: SphereHit(sqrt, world[i], r, TMin, Infinity).None?
    ensures RayColor(sqrt, r, world, depth, draw) == Background(sqrt, r)
  {
    assert ClosestHit(sqrt, world, r, TMin, Infinity).None?;
  }

  /** A ray whose surface absorbs it gathers no light, whatever the bounces left. */
  lemma RayColorAbsorbed(sqrt: real -> real, r: Ray, world: seq<Sphere>, depth: int, draw: int -> Draw)
    requires 0 < depth
    requires ClosestHit(sqrt, world, r, TMin, Infinity).Some?
    requires var rec := ClosestHit(sqrt, world, r, TMin, Infinity).value;
      Scatter(sqrt, rec.material, r, rec, draw(depth)).None?
    ensures RayColor(sqrt, r, world, depth, draw) == Black
  {
  }

  /** On its last bounce a ray that hits a surface gathers no light at all. */
  lemma RayColorLastBounce(sqrt: real -> real, r: Ray, world: seq<Sphere>, draw: int -> Draw)
    requires ClosestHit(sqrt, world, r, TMin, Infinity).Some?
    ensures RayColor(sqrt, r, world, 1, draw) == Black
  {
    var rec := ClosestHit(sqrt, world, r, TMin, Infinity).value;
    var s := Scatter(sqrt, rec.material, r, rec, draw(1));
    if s.Some? {
      assert RayColor(sqrt, s.value.ray, world, 0, draw) == Black;
      FilterBlack(s.value.attenuation);
    }
  }

  /** Filtering black gives black. */
  lemma FilterBlack(a: Color)
    ensures ColorMul(a, Black) == Black
  {
  }

  /**
   * In a world of physical materials every channel of the gathered colour lies in [0, 1]: each
   * bounce only filters the light, and the sky is no brighter than white.
   */
  lemma {:induction false} RayColorInUnitRange(sqrt: real -> real, r: Ray, world: seq<Sphere>, depth: int, draw: int -> Draw)
    requires IsSqrt(sqrt)
    requires PhysicalWorld(world)
    ensures UnitColor(RayColor(sqrt, r, world, depth, draw))
    decreases depth
  {
    if depth > 0 {
      var hit := ClosestHit(sqrt, world, r, TMin, Infinity);
      if hit.None? {
        BackgroundInUnitRange(sqrt, r);
      } else {
        var rec := hit.value;
        HitMaterialInWorld(sqrt, r, world);
        var s := Scatter(sqrt, rec.material, r, rec, draw(depth));
        if s.Some? {
          RayColorInUnitRange(sqrt, s.value.ray, world, depth - 1, draw);
          FilterInUnitRange(s.value.attenuation, RayColor(sqrt, s.value.ray, world, depth - 1, draw));
        }
      }
    }
  }

  /**
   * The material of the nearest hit is the material of one of the world's spheres, hence a
   * physical one in a physical world.
   */
  lemma HitMaterialInWorld(sqrt: real -> real, r: Ray, world: seq<Sphere>)
    requires IsSqrt(sqrt)
    requires ClosestHit(sqrt, world, r, TMin, Infinity).Some?
    ensures exists i | 0 <= i < |world| :: ClosestHit(sqrt, world, r, TMin, Infinity).value.material == world[i].material
    ensures PhysicalWorld(world) ==> PhysicalMaterial(ClosestHit(sqrt, world, r, TMin, Infinity).value.material)
  {
    ClosestHitIsFirstNearest(sqrt, world, r, TMin, Infinity);
    var hit := ClosestHit(sqrt, world, r, TMin, Infinity);
    var i :| FirstNearest(sqrt, world, r, TMin, Infinity, i, hit.value);
    assert hit.value.material == world[i].material;
  }

  /** Filtering a colour in [0, 1] by an attenuation in [0, 1] stays in [0, 1]. */
  lemma FilterInUnitRange(a: Color, c: Color)
    requires UnitColor(a) && UnitColor(c)
    ensures UnitColor(ColorMul(a, c))
  {
    ProductInUnitRange(a.rgb.x, c.rgb.x);
    ProductInUnitRange(a.rgb.y, c.rgb.y);
    ProductInUnitRange(a.rgb.z, c.rgb.z);
  }
}
