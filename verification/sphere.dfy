/**
 * Spheres (src/sphere.rs). A sphere is the ball of radius 1/2 around the
 * origin of its own space, placed in the world by the transform `pos`. Its
 * hit test works in local space and measures the hit distance back in world
 * space.
 */
module Spheres {
  import opened Vectors
  import opened Rays
  import opened Matrices
  import opened Directions
  import opened Materials
  import opened Surfaces

  datatype Sphere = Sphere(material: ValidMaterial, pos: Matrix4)

  /** `new`: the sphere at the origin, placed by the identity transform. */
  function New(m: ValidMaterial): (s: Sphere)
    ensures s.material == m
    ensures FirstRowDet(s.pos) == 1.0 && InverseOf(s.pos) == s.pos
    ensures s.pos == Identity()
  {
    var pos := Identity();
    InverseOfIdentity(pos);
    Sphere(m, pos)
  }

  /** The ray carried into the sphere's own space by the inverse placement. */
  function LocalRay(s: Sphere, r: Ray3, math: Math): Ray3
    requires FirstRowDet(s.pos) != 0.0
  {
    MultRay(InverseOf(s.pos), r, math)
  }

  /** `b = op . dir` with `op` the vector from the ray's origin to the centre. */
  function HalfB(local: Ray3): real
  {
    Invert(local.origin).Dot(local.direction)
  }

  /** `b^2 - op . op + r^2` for the radius `r = 1/2`. */
  function SphereDet(local: Ray3): real
  {
    var op := Invert(local.origin);
    var b := op.Dot(local.direction);
    b * b - op.Dot(op) + 0.25
  }

  /** The near root `b - sqrt(det)`. */
  function NearRoot(local: Ray3, sqrt: real -> real): real
  {
    HalfB(local) - sqrt(SphereDet(local))
  }

  /** The far root `b + sqrt(det)`. */
  function FarRoot(local: Ray3, sqrt: real -> real): real
  {
    HalfB(local) + sqrt(SphereDet(local))
  }

  /** The world-space length of the local displacement `dir * t`. */
  function WorldDist(s: Sphere, local: Ray3, t: real, math: Math): real
  {
    MultDist(s.pos, local.direction.Scale(t)).Len(math.sqrt)
  }

  /** A root is accepted when it lies ahead of the ray and farther than `BIAS`. */
  predicate Accepts(s: Sphere, local: Ray3, t: real, math: Math)
  {
    t > 0.0 && WorldDist(s, local, t, math) > BIAS
  }

  /**
   * `intersect`: a miss is `(false, 0)`; a negative discriminant always
   * misses; otherwise the near root is tried before the far one, the far
   * root only when the near one is rejected, and a hit reports the world
   * distance to the accepted root.
   */
  function Intersect(s: Sphere, r: Ray3, math: Math): (res: (bool, real))
    requires FirstRowDet(s.pos) != 0.0
    ensures !res.0 ==> res.1 == 0.0
    ensures res.0 ==> res.1 > BIAS
    ensures SphereDet(LocalRay(s, r, math)) < 0.0 ==> !res.0
    ensures var local := LocalRay(s, r, math);
      var near := NearRoot(local, math.sqrt);
      var far := FarRoot(local, math.sqrt);
      && (SphereDet(local) >= 0.0 && Accepts(s, local, near, math) ==>
            res == (true, WorldDist(s, local, near, math)))
      && (res.0 ==>
            || (near > 0.0 && res.1 == WorldDist(s, local, near, math))
            || (far > 0.0 && res.1 == WorldDist(s, local, far, math)))
      && (SphereDet(local) >= 0.0 && !Accepts(s, local, near, math) && Accepts(s, local, far, math) ==>
            res == (true, WorldDist(s, local, far, math)))
      && (SphereDet(local) >= 0.0 && !Accepts(s, local, near, math) && !Accepts(s, local, far, math) ==>
            res == (false, 0.0))
  {
    var local := LocalRay(s, r, math);
    if SphereDet(local) < 0.0 then
      (false, 0.0)
    else
      var near := NearRoot(local, math.sqrt);
      var far := FarRoot(local, math.sqrt);
      if Accepts(s, local, near, math) then
        (true, WorldDist(s, local, near, math))
      else if Accepts(s, local, far, math) then
        (true, WorldDist(s, local, far, math))
      else
        (false, 0.0)
  }

  /**
   * `at`: the normal is the unit local position carried back to the world
   * by `mult_dir`; the material is always the sphere's own.
   */
  function At(s: Sphere, v: Vector3, math: Math): (r: (Vector3, ValidMaterial))
    requires FirstRowDet(s.pos) != 0.0
    ensures r.1 == s.material
  {
    var p := MultPoint(InverseOf(s.pos), v);
    (MultDir(s.pos, math.unit(p), math), s.material)
  }

  /** The sphere behind the surface interface. */
  function AsSurface(s: Sphere, math: Math): (surface: Surface)
    requires FirstRowDet(s.pos) != 0.0
    ensures forall r :: surface.intersect(r) == Intersect(s, r, math)
    ensures forall v :: surface.at(v).1 == s.material
  {
    Surface((r: Ray3) => Intersect(s, r, math), (v: Vector3) => At(s, v, math))
  }

  // ---------------------------------------------------------------------
  // Geometry of a sphere made by `new`
  // ---------------------------------------------------------------------

  /** Two non-negative numbers with equal squares are equal. */
  lemma NonNegativeRoot(s: real, t: real)
    requires s >= 0.0 && t >= 0.0 && s * s == t * t
    ensures s == t
  {
    if s < t {
      SquareBelow(s, t);
    } else if s > t {
      SquareBelow(t, s);
    }
  }

  lemma SquareBelow(a: real, b: real)
    requires 0.0 <= a < b
    ensures a * a < b * b
  {
    var d := b - a;
    PositiveProduct(b, d);
    MulNonNegative(a, d);
    assert b * b - a * a == b * d + a * d;
  }

  lemma PositiveProduct(a: real, b: real)
    requires a > 0.0 && b > 0.0
    ensures a * b > 0.0
  {
  }

  /**
   * For the identity placement and a unit direction, the local ray is the
   * ray itself and the world distance of a positive root is the root.
   */
  lemma IdentityPlacement(s: Sphere, r: Ray3, t: real, math: Math)
    requires s.pos == Identity()
    requires SqrtLaw(math.sqrt) && UnitLaw(math)
    requires r.direction.Dot(r.direction) == 1.0
    requires t > 0.0
    ensures FirstRowDet(s.pos) == 1.0
    ensures LocalRay(s, r, math) == r
    ensures WorldDist(s, r, t, math) == t
  {
    InverseOfIdentity(s.pos);
    LocalRayIdentity(s, r, math);
    ScaledUnitLength(r.direction, t, math.sqrt);
    IdentityTransforms(r.direction.Scale(t));
  }

  lemma LocalRayIdentity(s: Sphere, r: Ray3, math: Math)
    requires s.pos == Identity()
    requires SqrtLaw(math.sqrt) && UnitLaw(math)
    requires r.direction.Dot(r.direction) == 1.0
    requires FirstRowDet(s.pos) != 0.0
    requires InverseOf(s.pos) == s.pos
    ensures LocalRay(s, r, math) == r
  {
    IdentityTransforms(r.origin);
    IdentityTransforms(r.direction);
    UnitOfUnit(math, r.direction);
  }

  /** A unit vector scaled by `t >= 0` has length `t`. */
  lemma ScaledUnitLength(d: Vector3, t: real, sqrt: real -> real)
    requires SqrtLaw(sqrt)
    requires d.Dot(d) == 1.0 && t >= 0.0
    ensures d.Scale(t).Len(sqrt) == t
  {
    var e := d.Scale(t);
    var q := e.x * e.x + e.y * e.y + e.z * e.z;
    assert q == t * t * d.Dot(d);
    assert q == t * t;
    var len := e.Len(sqrt);
    assert len >= 0.0 && len * len == q;
    NonNegativeRoot(len, t);
  }

  /**
   * A root of the local ray: with `root` a square root of the discriminant,
   * the point `origin + t dir` is at squared distance 1/4 from the centre,
   * for either root `b - root` or `b + root` of a unit direction.
   */
  lemma RootOnSphere(local: Ray3, root: real, t: real)
    requires local.direction.Dot(local.direction) == 1.0
    requires root * root == SphereDet(local)
    requires t == HalfB(local) - root || t == HalfB(local) + root
    ensures Moved(local, t).Dot(Moved(local, t)) == 0.25
  {
    var o := local.origin;
    var d := local.direction;
    var b := HalfB(local);
    var det := SphereDet(local);
    assert b == -o.Dot(d);
    assert det == b * b - o.Dot(o) + 0.25;
    assert (t - b) * (t - b) == det;
    var p := Moved(local, t);
    calc {
      p.Dot(p);
      == o.Dot(o) + 2.0 * t * o.Dot(d) + t * t * d.Dot(d);
      == o.Dot(o) - 2.0 * t * b + t * t;
      == o.Dot(o) + (t - b) * (t - b) - b * b;
      == 0.25;
    }
  }

  /** `RootOnSphere` for the roots `intersect` computes with a true square root. */
  lemma ComputedRootOnSphere(local: Ray3, sqrt: real -> real, t: real)
    requires SqrtLaw(sqrt)
    requires local.direction.Dot(local.direction) == 1.0
    requires SphereDet(local) >= 0.0
    requires t == NearRoot(local, sqrt) || t == FarRoot(local, sqrt)
    ensures Moved(local, t).Dot(Moved(local, t)) == 0.25
  {
    var root := sqrt(SphereDet(local));
    assert root * root == SphereDet(local);
    RootOnSphere(local, root, t);
  }

  /**
   * A hit on a sphere made by `new`, with a unit direction, lies on the
   * sphere of radius 1/2 around the origin, at the reported distance along
   * the ray.
   */
  lemma HitOnSurface(s: Sphere, r: Ray3, math: Math)
    requires s.pos == Identity()
    requires SqrtLaw(math.sqrt) && UnitLaw(math)
    requires r.direction.Dot(r.direction) == 1.0
    ensures FirstRowDet(s.pos) != 0.0
    ensures Intersect(s, r, math).0 ==>
      var p := Moved(r, Intersect(s, r, math).1);
      p.Dot(p) == 0.25
  {
    InverseOfIdentity(s.pos);
    var res := Intersect(s, r, math);
    if res.0 {
      var near := NearRoot(LocalRay(s, r, math), math.sqrt);
      var far := FarRoot(LocalRay(s, r, math), math.sqrt);
      if near > 0.0 && res.1 == WorldDist(s, LocalRay(s, r, math), near, math) {
        IdentityPlacement(s, r, near, math);
        ComputedRootOnSphere(r, math.sqrt, near);
      } else {
        IdentityPlacement(s, r, far, math);
        ComputedRootOnSphere(r, math.sqrt, far);
      }
    }
  }

  /**
   * The normal of a sphere made by `new`, at a point of its surface, is the
   * outward unit vector from the centre: twice the point.
   */
  lemma NormalIsOutward(s: Sphere, p: Vector3, math: Math)
    requires s.pos == Identity()
    requires SqrtLaw(math.sqrt) && UnitLaw(math)
    requires p.Dot(p) == 0.25
    ensures FirstRowDet(s.pos) != 0.0
    ensures At(s, p, math).0 == p.Scale(2.0)
    ensures At(s, p, math).0.Dot(At(s, p, math).0) == 1.0
  {
    InverseOfIdentity(s.pos);
    IdentityTransforms(p);
    var q := p.x * p.x + p.y * p.y + p.z * p.z;
    assert q == 0.5 * 0.5;
    var len := p.Len(math.sqrt);
    assert len >= 0.0 && len * len == q;
    NonNegativeRoot(len, 0.5);
    assert math.unit(p) == p.Scale(2.0);
    var n := p.Scale(2.0);
    assert n.Dot(n) == 4.0 * p.Dot(p);
    IdentityTransforms(n);
    UnitOfUnit(math, n);
  }
}
