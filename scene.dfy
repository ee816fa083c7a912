/**
 * `HittableList` of `src/hit.rs`: the scene's list of surfaces, searched one after the other with
 * an upper bound that shrinks to the parameter of the latest hit, so that the record returned is
 * the nearest one. Every surface of the path tracer is a sphere, so the list holds spheres.
 */
module Scene {
  import opened Wrappers
  import opened Libm
  import opened Rays
  import opened Hit
  import opened Spheres

  /** The search bound after a hit: the parameter of the hit, else the bound so far. */
  function Closest(hit: Option<HitRecord>, tMax: UpperBound): UpperBound {
    if hit.Some? then Finite(hit.value.t) else tMax
  }

  /**
   * What `HittableList::hit` returns for `objects`: each object is searched below the parameter
   * of the latest hit, and a hit replaces the one before it. The result lies inside the search
   * interval, and it is a miss exactly when every object on its own misses.
   */
  function ClosestHit(sqrt: real -> real, objects: seq<Sphere>, r: Ray, tMin: real, tMax: UpperBound): (hit: Option<HitRecord>)
    ensures hit.Some? ==> tMin < hit.value.t && Below(hit.value.t, tMax)
    ensures hit.None? <==> forall i | 0 <= i < |objects| :: SphereHit(sqrt, objects[i], r, tMin, tMax).None?
    decreases |objects|
  {
    if |objects| == 0 then
      None
    else
      var prev := ClosestHit(sqrt, objects[..|objects| - 1], r, tMin, tMax);
      var next := SphereHit(sqrt, objects[|objects| - 1], r, tMin, Closest(prev, tMax));
      if next.Some? then
        BelowAtMost(next.value.t, Closest(prev, tMax), tMax);
        next
      else
        prev
  }

  /** No object on its own reports a hit nearer than the list's hit. */
  lemma {:induction false} ClosestHitIsNearest(sqrt: real -> real, objects: seq<Sphere>, r: Ray, tMin: real, tMax: UpperBound)
    requires IsSqrt(sqrt)
    ensures forall i | 0 <= i < |objects| && SphereHit(sqrt, objects[i], r, tMin, tMax).Some? ::
      var hit := ClosestHit(sqrt, objects, r, tMin, tMax);
      hit.Some? && hit.value.t <= SphereHit(sqrt, objects[i], r, tMin, tMax).value.t
    decreases |objects|
  {
    if |objects| > 0 {
      var n := |objects| - 1;
      var init := objects[..n];
      ClosestHitIsNearest(sqrt, init, r, tMin, tMax);
      var prev := ClosestHit(sqrt, init, r, tMin, tMax);
      var bound := Closest(prev, tMax);
      var alone := SphereHit(sqrt, objects[n], r, tMin, tMax);
      assert AtMost(bound, tMax);
      SphereHitShrink(sqrt, objects[n], r, tMin, tMax, bound);
      forall i | 0 <= i < n
        ensures objects[i] == init[i]
      {
      }
      if alone.Some? && !Below(alone.value.t, bound) {
        assert prev.Some?;
      }
    }
  }

  /**
   * Object `i` of `objects` reports `hit` on its own over the whole interval, and every object
   * before it misses or hits farther away.
   */
  predicate FirstNearest(sqrt: real -> real, objects: seq<Sphere>, r: Ray, tMin: real, tMax: UpperBound, i: int, hit: HitRecord) {
    0 <= i < |objects| && SphereHit(sqrt, objects[i], r, tMin, tMax) == Some(hit)
    && forall j | 0 <= j < i :: FartherOrMissed(SphereHit(sqrt, objects[j], r, tMin, tMax), hit.t)
  }

  /**
   * The list's hit is the hit one of its objects reports on its own over the whole interval, and
   * every object before that one misses or hits farther away: among hits at the same parameter
   * the first object's wins.
   */
  lemma {:induction false} ClosestHitIsFirstNearest(sqrt: real -> real, objects: seq<Sphere>, r: Ray, tMin: real, tMax: UpperBound)
    requires IsSqrt(sqrt)
    ensures var hit := ClosestHit(sqrt, objects, r, tMin, tMax);
      hit.Some? ==> exists i :: FirstNearest(sqrt, objects, r, tMin, tMax, i, hit.value)
    decreases |objects|
  {
    if |objects| > 0 {
      var n := |objects| - 1;
      var init := objects[..n];
      ClosestHitIsFirstNearest(sqrt, init, r, tMin, tMax);
      var prev := ClosestHit(sqrt, init, r, tMin, tMax);
      var bound := Closest(prev, tMax);
      var hit := ClosestHit(sqrt, objects, r, tMin, tMax);
      if hit.Some? {
        if SphereHit(sqrt, objects[n], r, tMin, bound).Some? {
          LastIsFirstNearest(sqrt, objects, r, tMin, tMax);
        } else {
          var i :| FirstNearest(sqrt, init, r, tMin, tMax, i, hit.value);
          FirstNearestExtends(sqrt, objects, r, tMin, tMax, i, hit.value);
        }
      }
    }
  }

  /** When the last object hits below the bound left by the others, its hit is the first nearest. */
  lemma LastIsFirstNearest(sqrt: real -> real, objects: seq<Sphere>, r: Ray, tMin: real, tMax: UpperBound)
    requires IsSqrt(sqrt)
    requires 0 < |objects|
    requires SphereHit(sqrt, objects[|objects| - 1], r, tMin,
                       Closest(ClosestHit(sqrt, objects[..|objects| - 1], r, tMin, tMax), tMax)).Some?
    ensures ClosestHit(sqrt, objects, r, tMin, tMax).Some?
    ensures FirstNearest(sqrt, objects, r, tMin, tMax, |objects| - 1, ClosestHit(sqrt, objects, r, tMin, tMax).value)
  {
    var n := |objects| - 1;
    var init := objects[..n];
    ClosestHitIsNearest(sqrt, init, r, tMin, tMax);
    var prev := ClosestHit(sqrt, init, r, tMin, tMax);
    var bound := Closest(prev, tMax);
    var hit := ClosestHit(sqrt, objects, r, tMin, tMax);
    assert AtMost(bound, tMax);
    SphereHitShrink(sqrt, objects[n], r, tMin, tMax, bound);
    forall j | 0 <= j < n
      ensures FartherOrMissed(SphereHit(sqrt, objects[j], r, tMin, tMax), hit.value.t)
    {
      assert objects[j] == init[j];
      if SphereHit(sqrt, init[j], r, tMin, tMax).Some? {
        assert prev.Some?;
      }
    }
  }

  /** The first nearest among all but the last object stays first nearest in the whole list. */
  lemma FirstNearestExtends(sqrt: real -> real, objects: seq<Sphere>, r: Ray, tMin: real, tMax: UpperBound, i: int, hit: HitRecord)
    requires 0 < |objects|
    requires FirstNearest(sqrt, objects[..|objects| - 1], r, tMin, tMax, i, hit)
    ensures FirstNearest(sqrt, objects, r, tMin, tMax, i, hit)
  {
    var init := objects[..|objects| - 1];
    forall j | 0 <= j <= i
      ensures objects[j] == init[j]
    {
    }
  }

  /** Searching one more object never raises the bound `closest_so_far`. */
  lemma BoundNeverIncreases(sqrt: real -> real, objects: seq<Sphere>, r: Ray, tMin: real, tMax: UpperBound)
    requires 0 < |objects|
    ensures var before := Closest(ClosestHit(sqrt, objects[..|objects| - 1], r, tMin, tMax), tMax);
      var after := Closest(ClosestHit(sqrt, objects, r, tMin, tMax), tMax);
      AtMost(after, before) && AtMost(after, tMax)
  {
    var prev := ClosestHit(sqrt, objects[..|objects| - 1], r, tMin, tMax);
    var hit := ClosestHit(sqrt, objects, r, tMin, tMax);
    if hit.Some? && hit != prev {
      assert Below(hit.value.t, Closest(prev, tMax));
    }
  }

  /** `hit` is a miss, or a hit strictly beyond `t`. */
  predicate FartherOrMissed(hit: Option<HitRecord>, t: real) {
    hit.None? || t < hit.value.t
  }

  /** `HittableList`, the scene: a list of spheres. */
  class HittableList {
    var objects: seq<Sphere>

    /** `HittableList::default()`: the empty scene. */
    constructor ()
      ensures objects == []
    {
      objects := [];
    }

    /** `clear`: remove every object. */
    method Clear()
      modifies this
      ensures objects == []
    {
      objects := [];
    }

    /** `add`: append an object; the objects already present keep their places. */
    method Add(obj: Sphere)
      modifies this
      ensures objects == old(objects) + [obj]
    {
      objects := objects + [obj];
    }

    /**
     * `hit`: search every object in order with the shrinking bound `closest_so_far`, keeping the
     * latest hit found.
     */
    method Hit(sqrt: real -> real, r: Ray, tMin: real, tMax: UpperBound) returns (hit: Option<HitRecord>)
      ensures hit == ClosestHit(sqrt, objects, r, tMin, tMax)
    {
      hit := None;
      var closestSoFar := tMax;
      for i := 0 to |objects|
        invariant hit == ClosestHit(sqrt, objects[..i], r, tMin, tMax)
        invariant closestSoFar == Closest(hit, tMax)
      {
        assert objects[..i + 1][..i] == objects[..i];
        var newHit := SphereHit(sqrt, objects[i], r, tMin, closestSoFar);
        if newHit.Some? {
          hit := newHit;
          closestSoFar := Finite(newHit.value.t);
        }
      }
      assert objects[..|objects|] == objects;
    }
  }
}
