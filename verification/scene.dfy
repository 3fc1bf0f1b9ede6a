/**
 * The scene (src/scene.rs): the list of surfaces a ray is tested against and
 * the sky-like background seen by rays that hit nothing.
 */
module Scenes {
  import opened Vectors
  import opened Options
  import opened Rays
  import opened Materials
  import opened Energies
  import opened Surfaces

  /** An `f64` bound: a finite value, or `INFINITY`. */
  datatype Dist = Finite(value: real) | Infinite

  /** `d < bound`; every real is below `INFINITY`. */
  predicate Below(d: real, bound: Dist)
  {
    bound.Infinite? || d < bound.value
  }

  /** A reported hit: the position of the surface in the scene and the distance reported with it. */
  datatype Hit = Hit(index: nat, dist: Dist)

  datatype Scene = Scene(surfaces: seq<Surface>)

  predicate Hits(s: Surface, ray: Ray3)
  {
    s.intersect(ray).0
  }

  function Distance(s: Surface, ray: Ray3): real
  {
    s.intersect(ray).1
  }

  /** The test the loop of `intersect` applies to each surface. */
  predicate HitsBelow(s: Surface, ray: Ray3, bound: Dist)
  {
    Hits(s, ray) && Below(Distance(s, ray), bound)
  }

  /**
   * What the loop of `intersect` holds in `result` after visiting `surfaces`
   * while comparing against a bound that is never lowered: the last surface
   * that passes the test, reported with the bound itself as distance.
   */
  function Scan(surfaces: seq<Surface>, ray: Ray3, bound: Dist): (r: Option<Hit>)
    ensures r.None? <==> forall i | 0 <= i < |surfaces| :: !HitsBelow(surfaces[i], ray, bound)
    ensures r.Some? ==>
      && r.value.index < |surfaces|
      && r.value.dist == bound
      && HitsBelow(surfaces[r.value.index], ray, bound)
      && forall j | r.value.index < j < |surfaces| :: !HitsBelow(surfaces[j], ray, bound)
  {
    if |surfaces| == 0 then
      None
    else
      var last := |surfaces| - 1;
      var rest := Scan(surfaces[..last], ray, bound);
      assert forall i | 0 <= i < last :: surfaces[..last][i] == surfaces[i];
      if HitsBelow(surfaces[last], ray, bound) then Some(Hit(last, bound)) else rest
  }

  /**
   * `intersect` as written: `dist` starts at `INFINITY` and is never lowered,
   * so every surface that reports a hit overwrites `result`; the last one in
   * the list wins and the distance returned is `INFINITY`.
   */
  method Intersect(scene: Scene, ray: Ray3) returns (result: Option<Hit>)
    ensures result == Scan(scene.surfaces, ray, Infinite)
    ensures result.None? <==> forall i | 0 <= i < |scene.surfaces| :: !Hits(scene.surfaces[i], ray)
    ensures result.Some? ==>
      && result.value.index < |scene.surfaces|
      && result.value.dist == Infinite
      && Hits(scene.surfaces[result.value.index], ray)
      && forall j | result.value.index < j < |scene.surfaces| :: !Hits(scene.surfaces[j], ray)
  {
    var dist := Infinite;
    result := None;
    for k := 0 to |scene.surfaces|
      invariant result == Scan(scene.surfaces[..k], ray, dist)
    {
      var (i, d) := scene.surfaces[k].intersect(ray);
      if i && Below(d, dist) {
        result := Some(Hit(k, dist));
      }
      assert scene.surfaces[..k + 1][..k] == scene.surfaces[..k];
    }
    assert scene.surfaces[..|scene.surfaces|] == scene.surfaces;
  }

  /**
   * The nearest hit: reported with its own distance, no surface that hits is
   * nearer, and surfaces before it in the list that hit are strictly farther.
   */
  predicate Nearest(surfaces: seq<Surface>, ray: Ray3, h: Hit)
  {
    && h.index < |surfaces|
    && Hits(surfaces[h.index], ray)
    && h.dist == Finite(Distance(surfaces[h.index], ray))
    && (forall j | 0 <= j < |surfaces| && Hits(surfaces[j], ray) ::
          Distance(surfaces[h.index], ray) <= Distance(surfaces[j], ray))
    && (forall j | 0 <= j < h.index && Hits(surfaces[j], ray) ::
          Distance(surfaces[h.index], ray) < Distance(surfaces[j], ray))
  }

  /**
   * The nearest-hit search `intersect` is evidently meant to be, after
   * visiting `surfaces`: the bound is lowered to each accepted distance and
   * that distance is reported, so a later surface replaces the current hit
   * only when it is strictly nearer. `NearestOfIsNearest` states what it finds.
   */
  function NearestOf(surfaces: seq<Surface>, ray: Ray3): (r: Option<Hit>)
    ensures r.Some? ==> r.value.index < |surfaces|
  {
    if |surfaces| == 0 then
      None
    else
      var last := |surfaces| - 1;
      var rest := NearestOf(surfaces[..last], ray);
      var bound := if rest.None? then Infinite else rest.value.dist;
      if HitsBelow(surfaces[last], ray, bound) then Some(Hit(last, Finite(Distance(surfaces[last], ray))))
      else rest
  }

  /** The search finds nothing exactly when no surface is hit, and otherwise the nearest hit. */
  lemma {:induction false} NearestOfIsNearest(surfaces: seq<Surface>, ray: Ray3)
    ensures var r := NearestOf(surfaces, ray);
      && (r.None? <==> forall i | 0 <= i < |surfaces| :: !Hits(surfaces[i], ray))
      && (r.Some? ==> Nearest(surfaces, ray, r.value))
  {
    if |surfaces| > 0 {
      var last := |surfaces| - 1;
      NearestOfIsNearest(surfaces[..last], ray);
      assert forall i | 0 <= i < last :: surfaces[..last][i] == surfaces[i];
    }
  }

  /** The corrected `intersect`: the same loop, lowering `dist` at each accepted hit. */
  method NearestIntersect(scene: Scene, ray: Ray3) returns (result: Option<Hit>)
    ensures result == NearestOf(scene.surfaces, ray)
    ensures result.None? <==> forall i | 0 <= i < |scene.surfaces| :: !Hits(scene.surfaces[i], ray)
    ensures result.Some? ==> Nearest(scene.surfaces, ray, result.value)
  {
    var surfaces := scene.surfaces;
    var dist := Infinite;
    result := None;
    for k := 0 to |surfaces|
      invariant result == NearestOf(surfaces[..k], ray)
      invariant dist == if result.None? then Infinite else result.value.dist
    {
      var (i, d) := surfaces[k].intersect(ray);
      if i && Below(d, dist) {
        dist := Finite(d);
        result := Some(Hit(k, dist));
      }
      assert surfaces[..k + 1][..k] == surfaces[..k];
    }
    assert surfaces[..|surfaces|] == surfaces;
    NearestOfIsNearest(surfaces, ray);
  }

  // ---------------------------------------------------------------------
  // The background
  // ---------------------------------------------------------------------

  /** The clamped height of a direction, `max((d . UP + 1/2) / 1.5, 0)`. */
  function Vertical(d: Vector3): (v: real)
    ensures v >= 0.0
    ensures d.y <= -0.5 ==> v == 0.0
    ensures d.y >= -0.5 ==> v * 1.5 == d.y + 0.5
  {
    MaxOf((d.Dot(UP) + 0.5) / 1.5, 0.0)
  }

  /** `env`: a grey gradient from black towards white as the ray points up. */
  function Env(ray: Ray3): (e: Energy)
    ensures e.x == e.y == e.z == 255.0 * Vertical(ray.direction)
  {
    Zero.Lerp(Vector3(255.0, 255.0, 255.0), Vertical(ray.direction))
  }

  // ---------------------------------------------------------------------
  // Properties
  // ---------------------------------------------------------------------

  /**
   * Two surfaces, the nearer one first: `intersect` reports the farther one,
   * at distance `INFINITY`, where the nearest hit is the first one at its own
   * distance.
   */
  lemma LastHitIsNotNearest(ray: Ray3, material: ValidMaterial)
    ensures var near := Surface((r: Ray3) => (true, 1.0), (v: Vector3) => (v, material));
      var far := Surface((r: Ray3) => (true, 5.0), (v: Vector3) => (v, material));
      && Scan([near, far], ray, Infinite) == Some(Hit(1, Infinite))
      && Nearest([near, far], ray, Hit(0, Finite(1.0)))
      && NearestOf([near, far], ray) == Some(Hit(0, Finite(1.0)))
  {
    var near := Surface((r: Ray3) => (true, 1.0), (v: Vector3) => (v, material));
    var far := Surface((r: Ray3) => (true, 5.0), (v: Vector3) => (v, material));
    assert Hits(far, ray) && Distance(far, ray) == 5.0;
    assert Hits(near, ray) && Distance(near, ray) == 1.0;
    assert [near, far][..1] == [near];
  }

  /**
   * Where only one surface is hit, the defective search and the nearest-hit
   * search agree on the surface; only the reported distance differs.
   */
  lemma SingleHitAgrees(surfaces: seq<Surface>, ray: Ray3, h: Hit)
    requires Nearest(surfaces, ray, h)
    requires forall j | 0 <= j < |surfaces| && j != h.index :: !Hits(surfaces[j], ray)
    ensures Scan(surfaces, ray, Infinite) == Some(Hit(h.index, Infinite))
  {
    assert HitsBelow(surfaces[h.index], ray, Infinite);
  }

  /**
   * The background: black at or below 30 degrees under the horizon, full
   * white straight up, brighter as the direction rises, and never above
   * white while the direction's height is at most one.
   */
  lemma EnvGradient(ray: Ray3, other: Ray3)
    ensures ray.direction.y <= -0.5 ==> Env(ray) == Zero
    ensures ray.direction == UP ==> Env(ray) == Vector3(255.0, 255.0, 255.0)
    ensures ray.direction.y <= other.direction.y ==> Env(ray).x <= Env(other).x
    ensures ray.direction.y <= 1.0 ==> Env(ray).x <= 255.0
  {
    var v := Vertical(ray.direction);
    var w := Vertical(other.direction);
    if ray.direction.y <= other.direction.y {
      assert v <= w;
    }
    if ray.direction.y <= 1.0 {
      assert v <= 1.0;
    }
  }
}
