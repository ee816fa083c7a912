/**
 * The parts of f64's mathematics library that the path tracer calls (`sqrt`, `tan`), seen over
 * the reals. They are passed to the model as function parameters; IsSqrt states the only facts
 * about `sqrt` that the proofs use. Rounding and NaN are not modelled.
 */
module Libm {

  /** `sqrt` returns the non-negative square root of every non-negative argument. */
  ghost predicate IsSqrt(sqrt: real -> real) {
    forall x: real {:trigger sqrt(x)} :: 0.0 <= x ==> 0.0 <= sqrt(x) && sqrt(x) * sqrt(x) == x
  }

  /** The root of a square is the non-negative base. */
  lemma SqrtOfSquare(sqrt: real -> real, y: real)
    requires IsSqrt(sqrt)
    requires 0.0 <= y
    ensures sqrt(y * y) == y
  {
    assert 0.0 <= y * y;
    NonNegativeSquareRootUnique(sqrt(y * y), y);
  }

  /** The root of a number known to be the square of `y >= 0` is `y`. */
  lemma SqrtOfKnownSquare(sqrt: real -> real, x: real, y: real)
    requires IsSqrt(sqrt)
    requires 0.0 <= y && x == y * y
    ensures sqrt(x) == y
  {
    SqrtOfSquare(sqrt, y);
  }

  /** Two non-negative numbers with equal squares are equal. */
  lemma NonNegativeSquareRootUnique(s: real, y: real)
    requires 0.0 <= s && 0.0 <= y
    requires s * s == y * y
    ensures s == y
  {
    if s > y {
      ProductPositive(s - y, s + y);
    } else if s < y {
      ProductPositive(y - s, y + s);
    }
  }

  lemma ProductPositive(a: real, b: real)
    requires 0.0 < a && 0.0 < b
    ensures 0.0 < a * b
  {
  }

  /** A number whose square is at most one lies in [-1, 1]. */
  lemma SquareAtMostOne(x: real, b: real)
    requires x * x <= b && b <= 1.0
    ensures -1.0 <= x <= 1.0
  {
    if x > 1.0 {
      ProductAboveOne(x, x);
    }
  }

  lemma ProductAboveOne(a: real, b: real)
    requires 1.0 < a && 1.0 < b
    ensures 1.0 < a * b
  {
    ProductPositive(a - 1.0, b - 1.0);
  }

  /** A positive argument has a positive root. */
  lemma SqrtPositive(sqrt: real -> real, x: real)
    requires IsSqrt(sqrt)
    requires 0.0 < x
    ensures 0.0 < sqrt(x)
  {
    var s := sqrt(x);
    assert s * s == x;
  }

  /** The root dominates every number whose square does not exceed the argument. */
  lemma SqrtDominates(sqrt: real -> real, x: real, y: real)
    requires IsSqrt(sqrt)
    requires y * y <= x
    ensures -sqrt(x) <= y <= sqrt(x)
  {
    var s := sqrt(x);
    assert 0.0 <= s && s * s == x;
    if y > s {
      SquareGrows(s, y);
    }
    if -y > s {
      SquareGrowsNegative(s, y);
    }
  }

  /** Squaring is strictly increasing on the non-negative numbers. */
  lemma SquareGrows(s: real, y: real)
    requires 0.0 <= s < y
    ensures s * s < y * y
  {
    ProductPositive(y - s, y + s);
    assert (y - s) * (y + s) == y * y - s * s;
  }

  /** The same on the negative side: below `-s` the square exceeds `s * s`. */
  lemma SquareGrowsNegative(s: real, y: real)
    requires 0.0 <= s < -y
    ensures s * s < y * y
  {
    SquareGrows(s, -y);
    assert (-y) * (-y) == y * y;
  }

  /** The root of a number in [0, 1] lies in [0, 1]. */
  lemma SqrtAtMostOne(sqrt: real -> real, x: real)
    requires IsSqrt(sqrt)
    requires 0.0 <= x <= 1.0
    ensures 0.0 <= sqrt(x) <= 1.0
  {
    var s := sqrt(x);
    assert 0.0 <= s && s * s == x;
  }
}
