/**
 * Directions (src/direction.rs): a direction is a `Vector3` that the callers
 * treat as having unit length. Reflection and Snell refraction are modelled
 * exactly up to the final `unit()`, which goes through the `Math` record.
 * The random samplers `cone`, `random` and `random_hemi_cos` are not modelled
 * here; the material model receives their results as parameters.
 */
module Directions {
  import opened Vectors

  type Direction = Vector3

  /** `invert`: the opposite direction. */
  function Invert(d: Direction): (r: Direction)
    ensures r.Add(d) == Zero
  {
    Vector3(-d.x, -d.y, -d.z)
  }

  /** `enters`: the direction points into the surface whose normal is given. */
  predicate Enters(d: Direction, normal: Direction)
  {
    normal.Dot(d) < 0.0
  }

  /** `cos`: the cosine between two unit directions is their dot product. */
  function Cos(d: Direction, b: Direction): real
  {
    d.Dot(b)
  }

  /** Snell's discriminant `k = 1 - ratio^2 (1 - cos^2)`, with `cos = normal . d`. */
  function Discriminant(d: Direction, normal: Direction, ratio: real): real
  {
    var cos := Cos(normal, d);
    1.0 - ratio * ratio * (1.0 - cos * cos)
  }

  /** The refracted vector before `unit()`: `ratio d - (ratio cos + sqrt k) normal`. */
  function RefractedRaw(d: Direction, normal: Direction, ratio: real, sqrt: real -> real): Vector3
  {
    var cos := Cos(normal, d);
    d.Scale(ratio).Sub(normal.Scale(ratio * cos + sqrt(Discriminant(d, normal, ratio))))
  }

  /**
   * `refracted`: `(false, d)` on total internal reflection, otherwise
   * `(true, unit(RefractedRaw))`.
   */
  function Refracted(d: Direction, normal: Direction, indexA: real, indexB: real, m: Math): (r: (bool, Direction))
    requires indexB != 0.0
    ensures !r.0 <==> Discriminant(d, normal, indexA / indexB) < 0.0
    ensures !r.0 ==> r.1 == d
  {
    var ratio := indexA / indexB;
    var k := Discriminant(d, normal, ratio);
    if k < 0.0 then
      (false, Vector3(d.x, d.y, d.z))
    else
      (true, m.unit(RefractedRaw(d, normal, ratio, m.sqrt)))
  }

  /** The mirrored vector before `unit()`: `d - 2 (normal . d) normal`. */
  function ReflectedRaw(d: Direction, normal: Direction): Vector3
  {
    var cos := Cos(normal, d);
    d.Sub(normal.Scale(2.0).Scale(cos))
  }

  /** `reflected`: the mirror direction, normalised. */
  function Reflected(d: Direction, normal: Direction, m: Math): Direction
  {
    m.unit(ReflectedRaw(d, normal))
  }

  // ---------------------------------------------------------------------
  // Properties
  // ---------------------------------------------------------------------

  /** Inverting twice gives back the direction. */
  lemma InvertInvolution(d: Direction)
    ensures Invert(Invert(d)) == d
    ensures Invert(d) == d.Scale(-1.0)
  {
  }

  /** `enters` holds exactly when the normal and the direction point against each other. */
  lemma EntersIffAgainstNormal(d: Direction, normal: Direction)
    ensures Enters(d, normal) <==> d.Dot(normal) < 0.0
    ensures Cos(d, normal) == Cos(normal, d)
  {
  }

  /** Off the tangent plane, exactly one of a direction and its inverse enters. */
  lemma EntersExactlyOne(d: Direction, normal: Direction)
    requires normal.Dot(d) != 0.0
    ensures Enters(d, normal) != Enters(Invert(d), normal)
  {
  }

  /** With equal indices the discriminant is `cos^2`, so refraction never fails. */
  lemma RefractionSameIndex(d: Direction, normal: Direction, index: real, m: Math)
    requires index != 0.0
    ensures Discriminant(d, normal, index / index) == Cos(normal, d) * Cos(normal, d)
    ensures Refracted(d, normal, index, index, m).0
  {
    assert index / index == 1.0;
  }

  /**
   * For a unit normal, the refracted vector has `normal . r = -sqrt(k) <= 0`:
   * a successful refraction never points back out of the surface.
   */
  lemma RefractedAgainstNormal(d: Direction, normal: Direction, ratio: real, sqrt: real -> real)
    requires SqrtLaw(sqrt)
    requires normal.Dot(normal) == 1.0
    requires Discriminant(d, normal, ratio) >= 0.0
    ensures normal.Dot(RefractedRaw(d, normal, ratio, sqrt)) == -sqrt(Discriminant(d, normal, ratio))
    ensures normal.Dot(RefractedRaw(d, normal, ratio, sqrt)) <= 0.0
  {
    var s := sqrt(Discriminant(d, normal, ratio));
    var f := ratio * Cos(normal, d) + s;
    DotAcross(normal, d, normal, ratio, f);
  }

  /**
   * Mirror law before normalisation: for a unit normal, `normal . r = -(normal . d)`
   * and `r` has the length of `d`.
   */
  lemma MirrorLaw(d: Direction, normal: Direction)
    requires normal.Dot(normal) == 1.0
    ensures normal.Dot(ReflectedRaw(d, normal)) == -normal.Dot(d)
    ensures ReflectedRaw(d, normal).Dot(ReflectedRaw(d, normal)) == d.Dot(d)
  {
    var c := normal.Dot(d);
    var k := 2.0 * c;
    assert ReflectedRaw(d, normal) == d.Scale(1.0).Sub(normal.Scale(k));
    DotAcross(normal, d, normal, 1.0, k);
    SquareAcross(d, normal, 1.0, k);
    MirrorCancels(d.Dot(d), c, normal.Dot(d), normal.Dot(normal));
  }

  /** The scalar identities behind the mirror law, for `nn = 1` and `nd = c`. */
  lemma MirrorCancels(dd: real, c: real, nd: real, nn: real)
    requires nn == 1.0 && nd == c
    ensures 1.0 * nd - 2.0 * c * nn == -c
    ensures 1.0 * 1.0 * dd - 2.0 * 1.0 * (2.0 * c) * nd + (2.0 * c) * (2.0 * c) * nn == dd
  {
  }

  /** The dot product distributes over a difference of scaled vectors. */
  lemma DotAcross(n: Vector3, a: Vector3, b: Vector3, s: real, t: real)
    ensures n.Dot(a.Scale(s).Sub(b.Scale(t))) == s * n.Dot(a) - t * n.Dot(b)
  {
    assert n.x * (a.x * s - b.x * t) == s * (n.x * a.x) - t * (n.x * b.x);
    assert n.y * (a.y * s - b.y * t) == s * (n.y * a.y) - t * (n.y * b.y);
    assert n.z * (a.z * s - b.z * t) == s * (n.z * a.z) - t * (n.z * b.z);
  }

  /** The square of `p a - k b`. */
  lemma SquareAcross(a: Vector3, b: Vector3, p: real, k: real)
    ensures var r := a.Scale(p).Sub(b.Scale(k));
      r.Dot(r) == p * p * a.Dot(a) - 2.0 * p * k * b.Dot(a) + k * k * b.Dot(b)
  {
    assert (a.x * p - b.x * k) * (a.x * p - b.x * k)
        == p * p * (a.x * a.x) - 2.0 * p * k * (b.x * a.x) + k * k * (b.x * b.x);
    assert (a.y * p - b.y * k) * (a.y * p - b.y * k)
        == p * p * (a.y * a.y) - 2.0 * p * k * (b.y * a.y) + k * k * (b.y * b.y);
    assert (a.z * p - b.z * k) * (a.z * p - b.z * k)
        == p * p * (a.z * a.z) - 2.0 * p * k * (b.z * a.z) + k * k * (b.z * b.z);
  }

  /**
   * The scalar identity behind Snell's law: with `f = ratio c + s`,
   * `s^2 = k = 1 - ratio^2 (1 - c^2)` and unit vectors, the square of
   * `ratio d - f normal` is one.
   */
  lemma SnellCancels(ratio: real, c: real, s: real, k: real, dd: real, nd: real, nn: real)
    requires dd == 1.0 && nn == 1.0 && nd == c
    requires s * s == k && k == 1.0 - ratio * ratio * (1.0 - c * c)
    ensures var f := ratio * c + s;
      ratio * ratio * dd - 2.0 * ratio * f * nd + f * f * nn == 1.0
  {
  }

  /**
   * Snell's law keeps the length: for unit `d` and unit `normal` and a
   * non-negative discriminant, the raw refracted vector has length one.
   */
  lemma RefractedRawIsUnit(d: Direction, normal: Direction, ratio: real, sqrt: real -> real)
    requires SqrtLaw(sqrt)
    requires normal.Dot(normal) == 1.0 && d.Dot(d) == 1.0
    requires Discriminant(d, normal, ratio) >= 0.0
    ensures RefractedRaw(d, normal, ratio, sqrt).Dot(RefractedRaw(d, normal, ratio, sqrt)) == 1.0
  {
    var k := Discriminant(d, normal, ratio);
    var s := sqrt(k);
    assert s * s == k;
    var c := Cos(normal, d);
    var f := ratio * c + s;
    SquareAcross(d, normal, ratio, f);
    SnellCancels(ratio, c, s, k, d.Dot(d), normal.Dot(d), normal.Dot(normal));
  }

  /**
   * For unit `d` and unit `normal`, a successful refraction needs no
   * normalising: `refracted` returns the raw vector as it is, a unit
   * direction.
   */
  lemma RefractedIsUnit(d: Direction, normal: Direction, indexA: real, indexB: real, m: Math)
    requires SqrtLaw(m.sqrt) && UnitLaw(m)
    requires indexB != 0.0
    requires normal.Dot(normal) == 1.0 && d.Dot(d) == 1.0
    ensures var r := Refracted(d, normal, indexA, indexB, m);
      r.0 ==> r.1 == RefractedRaw(d, normal, indexA / indexB, m.sqrt) && r.1.Dot(r.1) == 1.0
  {
    var ratio := indexA / indexB;
    if Discriminant(d, normal, ratio) >= 0.0 {
      RefractedRawIsUnit(d, normal, ratio, m.sqrt);
      UnitOfUnit(m, RefractedRaw(d, normal, ratio, m.sqrt));
    }
  }

  /**
   * For unit `d` and unit `normal`, `reflected` is a unit direction with the
   * angle of incidence equal to the angle of reflection.
   */
  lemma ReflectedIsMirror(d: Direction, normal: Direction, m: Math)
    requires SqrtLaw(m.sqrt) && UnitLaw(m)
    requires normal.Dot(normal) == 1.0 && d.Dot(d) == 1.0
    ensures Reflected(d, normal, m) == ReflectedRaw(d, normal)
    ensures Reflected(d, normal, m).Dot(Reflected(d, normal, m)) == 1.0
    ensures normal.Dot(Reflected(d, normal, m)) == -normal.Dot(d)
  {
    MirrorLaw(d, normal);
    UnitOfUnit(m, ReflectedRaw(d, normal));
  }
}
