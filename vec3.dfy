/**
 * `src/vec3.rs`: the three-component vector used for points, directions and colours, its
 * operators, dot/cross products, reflection and refraction, the in-place assignment operators,
 * and the conversion of an accumulated colour to integer pixel channels.
 */
module Vectors {
  import opened Wrappers
  import opened Libm
  import Utility

  /** Laid out as x, y, z. `Point3` is only another name for it, as in the source. */
  datatype Vec3 = Vec3(x: real, y: real, z: real)

  type Point3 = Vec3

  const Zero: Vec3 := Vec3(0.0, 0.0, 0.0)

  function Neg(v: Vec3): Vec3 {
    Vec3(-v.x, -v.y, -v.z)
  }

  function Add(u: Vec3, v: Vec3): Vec3 {
    Vec3(u.x + v.x, u.y + v.y, u.z + v.z)
  }

  function Sub(u: Vec3, v: Vec3): Vec3 {
    Vec3(u.x - v.x, u.y - v.y, u.z - v.z)
  }

  /** Componentwise product (`Vec3 * Vec3`), the way attenuation filters a colour. */
  function Mul(u: Vec3, v: Vec3): Vec3 {
    Vec3(u.x * v.x, u.y * v.y, u.z * v.z)
  }

  /** `f64 * Vec3`; the source defines `Vec3 * f64` as the same product with the operands swapped. */
  function Scale(t: real, v: Vec3): Vec3 {
    Vec3(t * v.x, t * v.y, t * v.z)
  }

  /** `v / t`, computed as `(1 / t) * v`. */
  function Div(v: Vec3, t: real): Vec3
    requires t != 0.0
  {
    Scale(1.0 / t, v)
  }

  function Dot(u: Vec3, v: Vec3): real {
    u.x * v.x + u.y * v.y + u.z * v.z
  }

  function LengthSquared(v: Vec3): real {
    v.x * v.x + v.y * v.y + v.z * v.z
  }

  function Length(sqrt: real -> real, v: Vec3): real {
    sqrt(LengthSquared(v))
  }

  function Cross(u: Vec3, v: Vec3): Vec3 {
    Vec3(u.y * v.z - u.z * v.y,
         u.z * v.x - u.x * v.z,
         u.x * v.y - u.y * v.x)
  }

  /**
   * `v / length(v)`. The source divides by zero for the zero vector and gets NaN components;
   * reals have no NaN, so the model returns Zero there (see UnitVectorIsUnit for every other input).
   */
  function UnitVector(sqrt: real -> real, v: Vec3): Vec3 {
    var len := Length(sqrt, v);
    if len == 0.0 then Zero else Div(v, len)
  }

  /** Mirror reflection of `v` about the unit normal `n`. */
  function Reflect(v: Vec3, n: Vec3): Vec3 {
    Sub(v, Scale(2.0 * Dot(v, n), n))
  }

  /** The part of `v` orthogonal to the unit normal `n`. */
  function Tangential(v: Vec3, n: Vec3): Vec3 {
    Sub(v, Scale(Dot(v, n), n))
  }

  /**
   * Snell refraction of the unit direction `uv` through the unit normal `n` for the index ratio
   * `etaiOverEtat`: the part along the surface scaled by the ratio, plus the part along the normal
   * that keeps the length at one.
   */
  function Refract(sqrt: real -> real, uv: Vec3, n: Vec3, etaiOverEtat: real): Vec3 {
    var cosTheta := Dot(Neg(uv), n);
    var parallel := Scale(etaiOverEtat, Add(uv, Scale(cosTheta, n)));
    var perpendicular := Scale(-sqrt(1.0 - LengthSquared(parallel)), n);
    Add(parallel, perpendicular)
  }

  /**
   * `v[i]`: x, y, z for 0, 1, 2. Every other index panics in the source ("Vec3 index out of
   * bounds"); the model returns None for it.
   */
  function Index(v: Vec3, i: nat): (r: Option<real>)
    ensures r.Some? <==> i < 3
    ensures i == 0 ==> r == Some(v.x)
    ensures i == 1 ==> r == Some(v.y)
    ensures i == 2 ==> r == Some(v.z)
  {
    match i
    case 0 => Some(v.x)
    case 1 => Some(v.y)
    case 2 => Some(v.z)
    case _ => None
  }

  /** A place holding a Vec3 that the assignment operators update in place. */
  class Vec3Var {
    var x: real
    var y: real
    var z: real

    function Value(): Vec3
      reads this
    {
      Vec3(x, y, z)
    }

    constructor (v: Vec3)
      ensures Value() == v
    {
      x, y, z := v.x, v.y, v.z;
    }

    /** `self += other` */
    method AddAssign(other: Vec3)
      modifies this
      ensures Value() == Add(old(Value()), other)
    {
      x := x + other.x;
      y := y + other.y;
      z := z + other.z;
    }

    /** `self *= rhs` */
    method MulAssign(rhs: real)
      modifies this
      ensures Value() == Scale(rhs, old(Value()))
    {
      x := x * rhs;
      y := y * rhs;
      z := z * rhs;
    }

    /** `self /= rhs`, which the source performs as `self *= 1 / rhs`. */
    method DivAssign(rhs: real)
      requires rhs != 0.0
      modifies this
      ensures Value() == Div(old(Value()), rhs)
    {
      MulAssign(1.0 / rhs);
    }

    /**
     * `self[i] = value` through IndexMut: only component `i` changes. An index of 3 or more
     * panics in the source; the model reports it with `ok == false` and changes nothing.
     */
    method SetComponent(i: nat, value: real) returns (ok: bool)
      modifies this
      ensures ok == (i < 3)
      ensures ok ==> Index(Value(), i) == Some(value)
      ensures forall j: nat :: j != i ==> Index(Value(), j) == Index(old(Value()), j)
    {
      ok := i < 3;
      if i == 0 {
        x := value;
      } else if i == 1 {
        y := value;
      } else if i == 2 {
        z := value;
      }
    }
  }

  /** RGB colour, a separate type wrapping a Vec3 as in the source. */
  datatype Color = Color(rgb: Vec3)

  const Black: Color := Color(Zero)

  function ColorAdd(a: Color, b: Color): Color {
    Color(Add(a.rgb, b.rgb))
  }

  function ColorMul(a: Color, b: Color): Color {
    Color(Mul(a.rgb, b.rgb))
  }

  function ColorScale(t: real, c: Color): Color {
    Color(Scale(t, c.rgb))
  }

  const I32Min: int := -0x8000_0000
  const I32Max: int := 0x7fff_ffff

  /**
   * Rust's `as i32` on a float: truncation toward zero, saturating at the ends of the i32
   * range (the NaN case, which yields 0, has no real counterpart).
   */
  function AsI32(v: real): (n: int)
    ensures I32Min <= n <= I32Max
    ensures 0.0 <= v ==> 0 <= n && n as real <= v
    ensures 0.0 <= v < I32Max as real ==> n == v.Floor
    ensures v <= 0.0 ==> n <= 0 && v <= n as real
    ensures I32Min as real < v < 0.0 ==> n == -((-v).Floor)
    ensures I32Max as real <= v ==> n == I32Max
    ensures v <= I32Min as real ==> n == I32Min
  {
    if v >= 0.0 then
      (if v.Floor > I32Max then I32Max else v.Floor)
    else
      var m := (-v).Floor;
      if -m < I32Min then I32Min else -m
  }

  /** One output channel: clamped to [0, 0.999], scaled by 256 and truncated, so always 0..255. */
  function Channel(v: real): (n: int)
    ensures 0 <= n <= 255
    ensures 0.0 <= v <= 0.999 ==> n == (256.0 * v).Floor
    ensures v <= 0.0 ==> n == 0
    ensures 0.999 <= v ==> n == 255
  {
    AsI32(256.0 * Utility.Clamped(v, 0.0, 0.999))
  }

  /** The gamma-2 corrected average of one channel's accumulated sum. */
  function GammaCorrected(sqrt: real -> real, sum: real, samplesPerPixel: int): real
    requires samplesPerPixel != 0
  {
    sqrt((1.0 / samplesPerPixel as real) * sum)
  }

  /**
   * The integer channels that `get_color_string` formats: each accumulated sum is averaged over
   * the samples, gamma-corrected, clamped and quantised into 0..255.
   */
  method ColorChannels(c: Color, samplesPerPixel: int, sqrt: real -> real) returns (r: int, g: int, b: int)
    requires samplesPerPixel != 0
    ensures r == Channel(GammaCorrected(sqrt, c.rgb.x, samplesPerPixel))
    ensures g == Channel(GammaCorrected(sqrt, c.rgb.y, samplesPerPixel))
    ensures b == Channel(GammaCorrected(sqrt, c.rgb.z, samplesPerPixel))
    ensures 0 <= r <= 255 && 0 <= g <= 255 && 0 <= b <= 255
  {
    var red := c.rgb.x;
    var green := c.rgb.y;
    var blue := c.rgb.z;

    // Divide by the number of samples and gamma-correct for gamma 2.
    red := GammaCorrected(sqrt, red, samplesPerPixel);
    green := GammaCorrected(sqrt, green, samplesPerPixel);
    blue := GammaCorrected(sqrt, blue, samplesPerPixel);

    var clamped := Utility.Clamp(red, 0.0, 0.999);
    r := AsI32(256.0 * clamped);
    clamped := Utility.Clamp(green, 0.0, 0.999);
    g := AsI32(256.0 * clamped);
    clamped := Utility.Clamp(blue, 0.0, 0.999);
    b := AsI32(256.0 * clamped);
  }

  // Algebraic facts about the operators.

  lemma SquareNonNegative(a: real)
    ensures 0.0 <= a * a
  {
  }

  /** The squared length is never negative. */
  lemma LengthSquaredSign(v: Vec3)
    ensures 0.0 <= LengthSquared(v)
  {
    SquareNonNegative(v.x);
    SquareNonNegative(v.y);
    SquareNonNegative(v.z);
  }

  /** Subtraction undoes addition. */
  lemma SubUndoesAdd(u: Vec3, v: Vec3)
    ensures Add(Sub(u, v), v) == u
    ensures Sub(Add(u, v), v) == u
  {
  }

  /** Scaling by `t` undoes division by `t`. */
  lemma DivUndoesScale(v: Vec3, t: real)
    requires t != 0.0
    ensures Scale(t, Div(v, t)) == v
  {
  }

  /** The squared length is the vector's dot product with itself. */
  lemma LengthSquaredIsDot(v: Vec3)
    ensures LengthSquared(v) == Dot(v, v)
  {
  }

  /** The cross product is orthogonal to both of its operands. */
  lemma CrossOrthogonal(u: Vec3, v: Vec3)
    ensures Dot(Cross(u, v), u) == 0.0 && Dot(Cross(u, v), v) == 0.0
  {
  }

  /** Reflection about a unit normal reverses the component along the normal. */
  lemma ReflectReversesNormal(v: Vec3, n: Vec3)
    requires Dot(n, n) == 1.0
    ensures Dot(Reflect(v, n), n) == -Dot(v, n)
  {
    DotAddLeft(v, Scale(-2.0 * Dot(v, n), n), n);
    DotScaleLeft(-2.0 * Dot(v, n), n, n);
    assert Reflect(v, n) == Add(v, Scale(-2.0 * Dot(v, n), n));
  }

  /**
   * Refraction through a unit normal scales the incident direction's part along the surface by
   * the index ratio (Snell's law).
   */
  lemma RefractScalesTangential(sqrt: real -> real, uv: Vec3, n: Vec3, etaiOverEtat: real)
    requires Dot(n, n) == 1.0
    ensures Tangential(Refract(sqrt, uv, n, etaiOverEtat), n) == Scale(etaiOverEtat, Tangential(uv, n))
  {
    var parallel := Scale(etaiOverEtat, Add(uv, Scale(Dot(Neg(uv), n), n)));
    RefractTangential(uv, n, etaiOverEtat, -sqrt(1.0 - LengthSquared(parallel)));
  }

  /** Negation is an involution. */
  lemma NegInvolution(v: Vec3)
    ensures Neg(Neg(v)) == v
  {
  }

  /** The source's unit test: (4, 3, 2) - (2, 1, 0.5) == (2, 2, 1.5). */
  lemma SubUnitTest()
    ensures Sub(Vec3(4.0, 3.0, 2.0), Vec3(2.0, 1.0, 0.5)) == Vec3(2.0, 2.0, 1.5)
  {
  }

  lemma ScaleLengthSquared(k: real, v: Vec3)
    ensures LengthSquared(Scale(k, v)) == k * k * LengthSquared(v)
  {
  }

  /** Lagrange's identity: |u|^2 |v|^2 - (u.v)^2 == |u x v|^2. */
  lemma Lagrange(u: Vec3, v: Vec3)
    ensures LengthSquared(u) * LengthSquared(v) - Dot(u, v) * Dot(u, v) == LengthSquared(Cross(u, v))
  {
    LagrangeTerms(u.x, u.y, u.z, v.x, v.y, v.z,
                  LengthSquared(u), LengthSquared(v), Dot(u, v), LengthSquared(Cross(u, v)));
  }

  /** Lagrange's identity for the four quantities it names, given by their components. */
  lemma LagrangeTerms(a1: real, a2: real, a3: real, b1: real, b2: real, b3: real,
                      uu: real, vv: real, uv: real, cc: real)
    requires uu == a1 * a1 + a2 * a2 + a3 * a3 && vv == b1 * b1 + b2 * b2 + b3 * b3
    requires uv == a1 * b1 + a2 * b2 + a3 * b3
    requires cc == (a2 * b3 - a3 * b2) * (a2 * b3 - a3 * b2)
                 + (a3 * b1 - a1 * b3) * (a3 * b1 - a1 * b3)
                 + (a1 * b2 - a2 * b1) * (a1 * b2 - a2 * b1)
    ensures uu * vv - uv * uv == cc
  {
    LagrangeComponents(a1, a2, a3, b1, b2, b3);
  }

  lemma LagrangeComponents(a1: real, a2: real, a3: real, b1: real, b2: real, b3: real)
    ensures (a1 * a1 + a2 * a2 + a3 * a3) * (b1 * b1 + b2 * b2 + b3 * b3)
              - (a1 * b1 + a2 * b2 + a3 * b3) * (a1 * b1 + a2 * b2 + a3 * b3)
            == (a2 * b3 - a3 * b2) * (a2 * b3 - a3 * b2)
              + (a3 * b1 - a1 * b3) * (a3 * b1 - a1 * b3)
              + (a1 * b2 - a2 * b1) * (a1 * b2 - a2 * b1)
  {
  }

  /** Cauchy-Schwarz: (u.v)^2 <= |u|^2 |v|^2. */
  lemma CauchySchwarz(u: Vec3, v: Vec3)
    ensures Dot(u, v) * Dot(u, v) <= LengthSquared(u) * LengthSquared(v)
  {
    Lagrange(u, v);
    assert 0.0 <= LengthSquared(Cross(u, v));
  }

  /** A vector of non-zero length normalises to unit length. */
  lemma UnitVectorIsUnit(sqrt: real -> real, v: Vec3)
    requires IsSqrt(sqrt)
    requires LengthSquared(v) != 0.0
    ensures LengthSquared(UnitVector(sqrt, v)) == 1.0
  {
    var l2 := LengthSquared(v);
    LengthSquaredSign(v);
    SqrtPositive(sqrt, l2);
    var len := sqrt(l2);
    assert len * len == l2;
    ScaleLengthSquared(1.0 / len, v);
    assert (1.0 / len) * (1.0 / len) * (len * len) == 1.0;
  }

  /** Normalising a vector that already has unit length returns it unchanged. */
  lemma UnitVectorOfUnit(sqrt: real -> real, v: Vec3)
    requires IsSqrt(sqrt)
    requires LengthSquared(v) == 1.0
    ensures UnitVector(sqrt, v) == v
  {
    SqrtOfKnownSquare(sqrt, LengthSquared(v), 1.0);
  }

  /**
   * Normalising keeps the side of a plane through the origin that a vector points to: the dot
   * product with any normal keeps its sign, and stays zero when it was zero.
   */
  lemma UnitVectorKeepsSide(sqrt: real -> real, v: Vec3, n: Vec3)
    requires IsSqrt(sqrt)
    ensures Dot(v, n) < 0.0 ==> Dot(UnitVector(sqrt, v), n) < 0.0
    ensures Dot(v, n) == 0.0 ==> Dot(UnitVector(sqrt, v), n) == 0.0
    ensures Dot(v, n) > 0.0 ==> Dot(UnitVector(sqrt, v), n) > 0.0
  {
    if v != Zero {
      UnitVectorScales(sqrt, v);
      var k := 1.0 / Length(sqrt, v);
      DotScaleLeft(k, v, n);
      PositiveFactorKeepsSign(k, Dot(v, n));
    } else {
      UnitVectorOfZero(sqrt);
    }
  }

  /** Normalising Zero gives Zero, whatever `sqrt` returns at 0. */
  lemma UnitVectorOfZero(sqrt: real -> real)
    ensures UnitVector(sqrt, Zero) == Zero
  {
    var len := Length(sqrt, Zero);
    if len != 0.0 {
      assert Div(Zero, len) == Scale(1.0 / len, Zero);
    }
  }

  /** A vector other than Zero normalises to a positive multiple of itself. */
  lemma UnitVectorScales(sqrt: real -> real, v: Vec3)
    requires IsSqrt(sqrt)
    requires v != Zero
    ensures 0.0 < Length(sqrt, v) && 0.0 < 1.0 / Length(sqrt, v)
    ensures UnitVector(sqrt, v) == Scale(1.0 / Length(sqrt, v), v)
  {
    LengthPositive(sqrt, v);
  }

  /** Multiplying by a positive factor keeps the sign of a number. */
  lemma PositiveFactorKeepsSign(k: real, d: real)
    requires 0.0 < k
    ensures d < 0.0 ==> k * d < 0.0
    ensures d == 0.0 ==> k * d == 0.0
    ensures d > 0.0 ==> k * d > 0.0
  {
    if d > 0.0 {
      ProductPositive(k, d);
    } else if d < 0.0 {
      ProductPositive(k, -d);
    }
  }

  /** Every vector other than Zero has a positive length. */
  lemma LengthPositive(sqrt: real -> real, v: Vec3)
    requires IsSqrt(sqrt)
    requires v != Zero
    ensures 0.0 < Length(sqrt, v)
  {
    LengthSquaredSign(v);
    ZeroLengthIsZero(v);
    SqrtPositive(sqrt, LengthSquared(v));
  }

  /** A product of two reals is zero only when a factor is. */
  lemma ProductZero(a: real, b: real)
    ensures a * b == 0.0 ==> a == 0.0 || b == 0.0
  {
    if a < 0.0 && b < 0.0 {
      ProductPositive(-a, -b);
      assert (-a) * (-b) == a * b;
    } else if a < 0.0 && 0.0 < b {
      ProductPositive(-a, b);
      assert (-a) * b == -(a * b);
    } else if 0.0 < a && b < 0.0 {
      ProductPositive(a, -b);
      assert a * (-b) == -(a * b);
    } else if 0.0 < a && 0.0 < b {
      ProductPositive(a, b);
    }
  }

  /** A number whose square is zero is zero. */
  lemma SquareZero(x: real)
    ensures x * x == 0.0 ==> x == 0.0
  {
    ProductZero(x, x);
  }

  /** Only the zero vector has squared length zero. */
  lemma ZeroLengthIsZero(v: Vec3)
    ensures LengthSquared(v) == 0.0 ==> v == Zero
  {
    SquareNonNegative(v.x);
    SquareNonNegative(v.y);
    SquareNonNegative(v.z);
    SquareZero(v.x);
    SquareZero(v.y);
    SquareZero(v.z);
  }

  /** `length` is the non-negative root of `length_squared`. */
  lemma LengthIsRoot(sqrt: real -> real, v: Vec3)
    requires IsSqrt(sqrt)
    ensures 0.0 <= Length(sqrt, v) && Length(sqrt, v) * Length(sqrt, v) == LengthSquared(v)
  {
    LengthSquaredSign(v);
  }

  /** Every component of a normalised vector lies in [-1, 1]. */
  lemma UnitVectorComponents(sqrt: real -> real, v: Vec3)
    requires IsSqrt(sqrt)
    ensures var u := UnitVector(sqrt, v);
      -1.0 <= u.x <= 1.0 && -1.0 <= u.y <= 1.0 && -1.0 <= u.z <= 1.0
  {
    if v == Zero {
      UnitVectorOfZero(sqrt);
    } else {
      UnitVectorScales(sqrt, v);
      var l2 := LengthSquared(v);
      SquaresBelowLengthSquared(v);
      ComponentOfUnit(sqrt, l2, v.x);
      ComponentOfUnit(sqrt, l2, v.y);
      ComponentOfUnit(sqrt, l2, v.z);
    }
  }

  /** No component's square exceeds the squared length. */
  lemma SquaresBelowLengthSquared(v: Vec3)
    ensures v.x * v.x <= LengthSquared(v)
    ensures v.y * v.y <= LengthSquared(v)
    ensures v.z * v.z <= LengthSquared(v)
  {
    SquareNonNegative(v.x);
    SquareNonNegative(v.y);
    SquareNonNegative(v.z);
  }

  lemma ComponentOfUnit(sqrt: real -> real, l2: real, a: real)
    requires IsSqrt(sqrt)
    requires 0.0 < sqrt(l2)
    requires a * a <= l2
    ensures -1.0 <= (1.0 / sqrt(l2)) * a <= 1.0
  {
    SqrtDominates(sqrt, l2, a);
    QuotientInUnitRange(a, sqrt(l2));
  }

  lemma QuotientInUnitRange(a: real, d: real)
    requires 0.0 < d
    requires -d <= a <= d
    ensures -1.0 <= (1.0 / d) * a <= 1.0
  {
  }

  lemma DotSymmetric(u: Vec3, v: Vec3)
    ensures Dot(u, v) == Dot(v, u)
  {
  }

  lemma DotAddLeft(a: Vec3, b: Vec3, v: Vec3)
    ensures Dot(Add(a, b), v) == Dot(a, v) + Dot(b, v)
  {
  }

  lemma DotScaleLeft(k: real, a: Vec3, v: Vec3)
    ensures Dot(Scale(k, a), v) == k * Dot(a, v)
  {
  }

  /** |a + k n|^2 == |a|^2 + 2 k (a.n) + k^2 |n|^2 */
  lemma LengthSquaredAddScaled(a: Vec3, k: real, n: Vec3)
    ensures LengthSquared(Add(a, Scale(k, n))) == Dot(a, a) + 2.0 * k * Dot(a, n) + k * k * Dot(n, n)
  {
    SquareOfSum(a.x, k, n.x);
    SquareOfSum(a.y, k, n.y);
    SquareOfSum(a.z, k, n.z);
    assert k * Dot(a, n) == k * (a.x * n.x) + k * (a.y * n.y) + k * (a.z * n.z);
    assert k * k * Dot(n, n) == k * k * (n.x * n.x) + k * k * (n.y * n.y) + k * k * (n.z * n.z);
  }

  lemma SquareOfSum(a: real, k: real, n: real)
    ensures (a + k * n) * (a + k * n) == a * a + 2.0 * k * (a * n) + k * k * (n * n)
  {
  }

  /** Reflection about a unit normal preserves length. */
  lemma ReflectPreservesLength(v: Vec3, n: Vec3)
    requires Dot(n, n) == 1.0
    ensures LengthSquared(Reflect(v, n)) == LengthSquared(v)
  {
    ReflectAddsScaledNormal(v, n);
    LengthSquaredAddScaled(v, -(2.0 * Dot(v, n)), n);
    MirrorTermsCancel(LengthSquared(Add(v, Scale(-(2.0 * Dot(v, n)), n))), Dot(v, v), Dot(v, n), Dot(n, n));
  }

  /** Reflection adds a multiple of the normal. */
  lemma ReflectAddsScaledNormal(v: Vec3, n: Vec3)
    ensures Reflect(v, n) == Add(v, Scale(-(2.0 * Dot(v, n)), n))
  {
  }

  /** The cross term and the square term of a reflection cancel for a unit normal. */
  lemma MirrorTermsCancel(ls: real, vv: real, d: real, nn: real)
    requires nn == 1.0
    requires ls == vv + 2.0 * -(2.0 * d) * d + -(2.0 * d) * -(2.0 * d) * nn
    ensures ls == vv
  {
  }

  lemma RefractTangential(uv: Vec3, n: Vec3, eta: real, p: real)
    ensures Dot(n, n) == 1.0 ==>
      Tangential(Add(Scale(eta, Add(uv, Scale(Dot(Neg(uv), n), n))), Scale(p, n)), n)
        == Scale(eta, Tangential(uv, n))
  {
    if Dot(n, n) == 1.0 {
      var c := Dot(Neg(uv), n);
      var inner := Add(uv, Scale(c, n));
      var r := Add(Scale(eta, inner), Scale(p, n));
      assert c == -Dot(uv, n);
      DotAddLeft(uv, Scale(c, n), n);
      DotScaleLeft(c, n, n);
      assert Dot(inner, n) == 0.0;
      DotAddLeft(Scale(eta, inner), Scale(p, n), n);
      DotScaleLeft(eta, inner, n);
      DotScaleLeft(p, n, n);
      assert Dot(r, n) == p;
      assert Tangential(r, n) == Scale(eta, inner);
    }
  }

  /**
   * With matching indices (ratio 1), a unit direction meeting a unit normal from its front side
   * passes through unbent.
   */
  lemma RefractUnbent(sqrt: real -> real, uv: Vec3, n: Vec3)
    requires IsSqrt(sqrt)
    requires LengthSquared(uv) == 1.0 && LengthSquared(n) == 1.0
    requires Dot(uv, n) <= 0.0
    ensures Refract(sqrt, uv, n, 1.0) == uv
  {
    var c := Dot(Neg(uv), n);
    var parallel := Add(uv, Scale(c, n));
    assert Scale(1.0, parallel) == parallel;
    ParallelOfUnit(uv, n, c);
    SqrtOfSquare(sqrt, c);
    assert Refract(sqrt, uv, n, 1.0) == Add(parallel, Scale(-c, n));
    AddScaledCancels(uv, c, n);
  }

  /** Adding `k n` and then `-k n` gives back the vector. */
  lemma AddScaledCancels(a: Vec3, k: real, n: Vec3)
    ensures Add(Add(a, Scale(k, n)), Scale(-k, n)) == a
  {
  }

  lemma ParallelOfUnit(uv: Vec3, n: Vec3, c: real)
    requires LengthSquared(uv) == 1.0 && LengthSquared(n) == 1.0
    requires c == -Dot(uv, n)
    ensures LengthSquared(Add(uv, Scale(c, n))) == 1.0 - c * c
  {
    LengthSquaredAddScaled(uv, c, n);
    assert Dot(uv, n) == -c;
    assert 2.0 * c * Dot(uv, n) == -2.0 * (c * c);
  }
}
