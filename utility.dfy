/** `src/utility.rs`: the book's value of pi, degree conversion and clamping. */
module Utility {

  /** The book's pi, with more digits than f64 holds; the model keeps it exact. */
  const PI: real := 3.1415926535897932385

  /** Converts degrees to radians: proportional, with 180 degrees mapped to PI. */
  function DegreesToRadians(degrees: real): (radians: real)
    ensures radians * 180.0 == degrees * PI
  {
    degrees * PI / 180.0
  }

  lemma DegreesToRadiansLandmarks()
    ensures DegreesToRadians(0.0) == 0.0
    ensures DegreesToRadians(180.0) == PI
  {
  }

  /**
   * The value `clamp` returns: first raised to `min`, then lowered to `max`. The source asserts
   * `min <= max` and panics otherwise, so callers must guarantee it.
   */
  function Clamped(x: real, min: real, max: real): (r: real)
    requires min <= max
    ensures min <= r <= max
    ensures min <= x <= max ==> r == x
    ensures x < min ==> r == min
    ensures x > max ==> r == max
  {
    var raised := if x < min then min else x;
    if raised > max then max else raised
  }

  /** `clamp`, reassigning its local copy of `x` in two steps as the source does. */
  method Clamp(x: real, min: real, max: real) returns (r: real)
    requires min <= max
    ensures r == Clamped(x, min, max)
  {
    r := x;
    if r < min {
      r := min;
    }
    if r > max {
      r := max;
    }
  }

  /** Clamping a clamped value changes nothing. */
  lemma ClampIdempotent(x: real, min: real, max: real)
    requires min <= max
    ensures Clamped(Clamped(x, min, max), min, max) == Clamped(x, min, max)
  {
  }
}
