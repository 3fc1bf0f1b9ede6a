/**
 * Surface materials and their scattering (src/material.rs).
 *
 * A material answers two questions at a hit: how much light it emits towards
 * the viewer (`Emit`) and where the path goes next with which weight
 * (`Bsdf`). The random numbers and the random direction samplers the source
 * takes from its generator are the fields of a `BsdfDraws` record.
 */
module Materials {
  import opened Vectors
  import opened Directions
  import opened Energies

  datatype Material = Material(
    color: Energy,            // diffuse colour, or transmission coefficients
    fresnel: Energy,          // Fresnel coefficients
    light: Energy,            // emittance
    transmit: real,           // 0 opaque, 1 transparent
    gloss: real,              // micro-surface roughness
    metal: real,              // 1 conductor, 0 dielectric
    initAbsorbance: Energy,   // derived by `init`
    initRefract: real,        // derived by `init`: index of refraction
    initFresnel: real)        // derived by `init`: average Fresnel, floored

  /**
   * What `init` guarantees and the scattering code relies on: the Fresnel
   * floor that keeps the entering Schlick test off its derived-`r0` branch,
   * and an index of refraction that the refraction and the exiting Schlick
   * test can divide by (`1 / index` and `index + 1`).
   */
  predicate Valid(m: Material)
  {
    m.initFresnel >= 0.02 && m.initRefract != 0.0 && m.initRefract != -1.0
  }

  type ValidMaterial = m: Material | Valid(m)
    witness Material(Zero, Zero, Zero, 0.0, 0.0, 0.0, Zero, 2.0, 0.02)

  /** The average Fresnel value with the 0.02 floor. */
  function FresnelFloor(m: Material): (f: real)
    ensures f >= 0.02 && f >= m.fresnel.Average()
    ensures f == 0.02 || f == m.fresnel.Average()
  {
    MaxOf(m.fresnel.Average(), 0.02)
  }

  /** `2 - log10(100 c)` for one colour channel. */
  function Absorbance(c: real, log10: real -> real): real
  {
    2.0 - log10(c * 100.0)
  }

  /**
   * The material that `init` returns: the public fields are kept and the
   * three derived fields computed from them. The requires clause excludes
   * the square roots that make `(1 + s) / (1 - s)` divide by zero or give an
   * index of zero.
   */
  function Initialised(m: Material, math: Math): (r: Material)
    requires math.sqrt(FresnelFloor(m)) != 1.0 && math.sqrt(FresnelFloor(m)) != -1.0
    ensures Valid(r)
    ensures r.color == m.color && r.fresnel == m.fresnel && r.light == m.light
    ensures r.transmit == m.transmit && r.gloss == m.gloss && r.metal == m.metal
    ensures r.initFresnel >= 0.02 && r.initFresnel >= m.fresnel.Average()
  {
    var f := FresnelFloor(m);
    var s := math.sqrt(f);
    var index := (1.0 + s) / (1.0 - s);
    IndexNeverZeroOrMinusOne(s);
    m.(initFresnel := f,
       initAbsorbance := Vector3(Absorbance(m.color.x, math.log10),
                                 Absorbance(m.color.y, math.log10),
                                 Absorbance(m.color.z, math.log10)),
       initRefract := index)
  }

  /** `init`: overwrites the three derived fields of the material in turn. */
  method Init(self: Material, math: Math) returns (r: Material)
    requires math.sqrt(FresnelFloor(self)) != 1.0 && math.sqrt(FresnelFloor(self)) != -1.0
    ensures r == Initialised(self, math)
    ensures Valid(r)
  {
    r := self;
    r := r.(initFresnel := MaxOf(r.fresnel.Average(), 0.02));
    r := r.(initAbsorbance := Vector3(2.0 - math.log10(r.color.x * 100.0),
                                      2.0 - math.log10(r.color.y * 100.0),
                                      2.0 - math.log10(r.color.z * 100.0)));
    var s := math.sqrt(r.initFresnel);
    r := r.(initRefract := (1.0 + s) / (1.0 - s));
  }

  /** `(1 + s) / (1 - s)` is never 0 nor -1 when `s` is neither -1 nor 1. */
  lemma IndexNeverZeroOrMinusOne(s: real)
    requires s != 1.0 && s != -1.0
    ensures (1.0 + s) / (1.0 - s) != 0.0
    ensures (1.0 + s) / (1.0 - s) != -1.0
  {
    var q := (1.0 + s) / (1.0 - s);
    assert q * (1.0 - s) == 1.0 + s;
  }

  // ---------------------------------------------------------------------
  // Schlick's approximation
  // ---------------------------------------------------------------------

  /** `r0 + (1 - r0) (1 - cos)^5`. */
  function SchlickCurve(r0: real, cos: real): real
  {
    var x := 1.0 - cos;
    r0 + (1.0 - r0) * x * x * x * x * x
  }

  /** Snell's law: the squared sine of the refracted angle, `(n1/n2)^2 (1 - cos^2)`. */
  function SineSquared(cos: real, n1: real, n2: real): real
    requires n2 != 0.0
  {
    var n := n1 / n2;
    n * n * (1.0 - cos * cos)
  }

  /** The reflectance at normal incidence between two media, `((n1 - n2) / (n1 + n2))^2`. */
  function DerivedR0(n1: real, n2: real): real
    requires n1 + n2 != 0.0
  {
    var q := (n1 - n2) / (n1 + n2);
    q * q
  }

  /** The cosine of the refracted ray, `sqrt(1 - sin_t^2)`. */
  function TransmittedCosine(cos: real, n1: real, n2: real, sqrt: real -> real): real
    requires n2 != 0.0
  {
    sqrt(1.0 - SineSquared(cos, n1, n2))
  }

  /**
   * The value `schlick` returns. A zero `r0` is replaced by the one derived
   * from the indices `n1`, `n2`; going into a less dense medium the cosine is
   * the one of the refracted ray, and past the critical angle the reflectance
   * is total. `cos = -(normal . incident)`; the callers pass the surface
   * normal as `incident` and the incoming direction as `normal`, which gives
   * the same value since the dot product is symmetric.
   */
  function Reflectance(incident: Direction, normal: Direction, r0: real, n1: real, n2: real,
                       sqrt: real -> real): real
    requires r0 == 0.0 ==> n1 + n2 != 0.0 && (n1 > n2 ==> n2 != 0.0)
  {
    var cos := -normal.Dot(incident);
    if r0 != 0.0 then
      SchlickCurve(r0, cos)
    else if n1 > n2 then
      if SineSquared(cos, n1, n2) > 1.0 then 1.0
      else SchlickCurve(DerivedR0(n1, n2), TransmittedCosine(cos, n1, n2, sqrt))
    else
      SchlickCurve(DerivedR0(n1, n2), cos)
  }

  /** `schlick`, reassigning `r0` and the cosine as the source does. */
  method Schlick(incident: Direction, normal: Direction, r0: real, n1: real, n2: real,
                 sqrt: real -> real) returns (r: real)
    requires r0 == 0.0 ==> n1 + n2 != 0.0 && (n1 > n2 ==> n2 != 0.0)
    ensures r == Reflectance(incident, normal, r0, n1, n2, sqrt)
  {
    var r0 := r0;
    var cosX := -normal.Dot(incident);
    ghost var cos := cosX;
    if r0 == 0.0 {
      r0 := (n1 - n2) / (n1 + n2);
      r0 := r0 * r0;
      assert r0 == DerivedR0(n1, n2);
      if n1 > n2 {
        var n := n1 / n2;
        var sinT2 := n * n * (1.0 - cosX * cosX);
        assert sinT2 == SineSquared(cos, n1, n2);
        if sinT2 > 1.0 {
          return 1.0;
        }
        cosX := sqrt(1.0 - sinT2);
        assert cosX == TransmittedCosine(cos, n1, n2, sqrt);
      }
    }
    r := SchlickCurve(r0, cosX);
  }

  /** `beers`: per channel, `exp(-absorbance * dist)`. */
  function Beers(dist: real, absorb: Energy, exp: real -> real): Energy
  {
    Vector3(exp(-absorb.x * dist), exp(-absorb.y * dist), exp(-absorb.z * dist))
  }

  // ---------------------------------------------------------------------
  // Scattering
  // ---------------------------------------------------------------------

  /**
   * The random inputs of one `bsdf` call: three uniform draws in [0, 1),
   * used in this order, and the two random direction samplers (`cone`
   * perturbs a direction within the given size, `hemi` is the
   * cosine-weighted hemisphere around a normal).
   */
  datatype BsdfDraws = BsdfDraws(u1: real, u2: real, u3: real,
                                 cone: (Direction, real) -> Direction,
                                 hemi: Direction -> Direction)

  /** The outcome of a scattering event: continue?, new direction, weight. */
  datatype Scatter = Scatter(continues: bool, direction: Direction, weight: Energy)

  /** `diffuse`: a cosine-weighted direction, weighted by `color / pi`. */
  function Diffuse(m: Material, norm: Direction, draws: BsdfDraws): (r: Scatter)
    ensures r.continues
    ensures r.direction == draws.hemi(norm)
    ensures r.weight.Scale(PI) == m.color
  {
    var w := Amplified(m.color, 1.0 / PI);
    ScaleBack(m.color, PI);
    Scatter(true, draws.hemi(norm), w)
  }

  /** `absorb`: the path ends; the direction is the incoming one, the weight zero. */
  function Absorb(inc: Direction): (r: Scatter)
    ensures !r.continues && r.direction == inc && r.weight == Zero
  {
    Scatter(false, Vector3(inc.x, inc.y, inc.z), Vector3(0.0, 0.0, 0.0))
  }

  /**
   * `reflect`: the mirror direction perturbed by the gloss cone; when the
   * perturbed direction points into the surface it diffuses instead.
   */
  function Reflect(m: Material, norm: Direction, inc: Direction, draws: BsdfDraws, math: Math): (r: Scatter)
    ensures r.continues
    ensures var refl := draws.cone(Reflected(inc, norm, math), 1.0 - m.gloss);
      if Enters(refl, norm) then r == Diffuse(m, norm, draws)
      else r.direction == refl && r.weight == One.Lerp(m.fresnel, m.metal)
  {
    var refl := draws.cone(Reflected(inc, norm, math), 1.0 - m.gloss);
    if Enters(refl, norm) then
      Diffuse(m, norm, draws)
    else
      Scatter(true, refl, Vector3(1.0, 1.0, 1.0).Lerp(m.fresnel, m.metal))
  }

  /**
   * `transmit`: refraction from air (index 1) into the material; it diffuses
   * on total internal reflection, and keeps the unperturbed refraction when
   * the cone would take it out of the surface.
   */
  function Transmit(m: ValidMaterial, norm: Direction, inc: Direction, draws: BsdfDraws, math: Math): (r: Scatter)
    ensures r.continues
    ensures var (entered, refr) := Refracted(inc, norm, 1.0, m.initRefract, math);
      if !entered then r == Diffuse(m, norm, draws)
      else
        && r.weight == One
        && var spread := draws.cone(refr, 1.0 - m.gloss);
           r.direction == if Enters(spread, norm) then spread else refr
  {
    var (entered, refr) := Refracted(inc, norm, 1.0, m.initRefract, math);
    if entered then
      var spread := draws.cone(refr, 1.0 - m.gloss);
      if Enters(spread, norm) then
        Scatter(true, spread, Vector3(1.0, 1.0, 1.0))
      else
        Scatter(true, refr, Vector3(1.0, 1.0, 1.0))
    else
      Diffuse(m, norm, draws)
  }

  /**
   * `exit`: the incoming direction leaves the surface from inside. An opaque
   * material lets it through unchanged; otherwise the draw `u1` against the
   * Schlick reflectance of the inside chooses refraction out into air, and
   * total internal reflection or a lost draw reflects it back. Every
   * outcome of a transmissive material is weighted by Beer's law over the
   * distance travelled inside.
   */
  function Exit(m: ValidMaterial, norm: Direction, inc: Direction, dist: real, draws: BsdfDraws,
                math: Math): (r: Scatter)
    ensures r.continues
    ensures m.transmit == 0.0 ==> r.direction == inc && r.weight == One
    ensures m.transmit != 0.0 ==> r.weight == Beers(dist, m.initAbsorbance, math.exp)
    ensures m.transmit != 0.0 ==>
      var (exited, refr) := Refracted(inc, Invert(norm), m.initRefract, 1.0, math);
      var spread := draws.cone(refr, 1.0 - m.gloss);
      if draws.u1 >= Reflectance(norm, inc, 0.0, m.initRefract, 1.0, math.sqrt) && exited then
        r.direction == if Enters(spread, norm) then spread else refr
      else
        r.direction == Reflected(inc, Invert(norm), math)
  {
    if m.transmit == 0.0 then
      Scatter(true, Vector3(inc.x, inc.y, inc.z), Vector3(1.0, 1.0, 1.0))
    else
      var weight := Beers(dist, m.initAbsorbance, math.exp);
      var mirrored := Scatter(true, Reflected(inc, Invert(norm), math), weight);
      if draws.u1 >= Reflectance(norm, inc, 0.0, m.initRefract, 1.0, math.sqrt) then
        var (exited, refr) := Refracted(inc, Invert(norm), m.initRefract, 1.0, math);
        if exited then
          var spread := draws.cone(refr, 1.0 - m.gloss);
          if Enters(spread, norm) then Scatter(true, spread, weight) else Scatter(true, refr, weight)
        else
          mirrored
      else
        mirrored
  }

  /**
   * `bsdf`: an entering ray is reflected when `u1` is below the Schlick
   * reflectance, else transmitted when `u2` is below `transmit`, else
   * absorbed when `u3` is below `metal`, else diffused; a ray that does not
   * enter exits.
   */
  function Bsdf(m: ValidMaterial, norm: Direction, inc: Direction, dist: real, draws: BsdfDraws,
                math: Math): Scatter
  {
    if Enters(inc, norm) then
      var reflect := Reflectance(norm, inc, m.initFresnel, 0.0, 0.0, math.sqrt);
      if draws.u1 < reflect then
        Reflect(m, norm, inc, draws, math)
      else if draws.u2 < m.transmit then
        Transmit(m, norm, inc, draws, math)
      else if draws.u3 < m.metal then
        Absorb(inc)
      else
        Diffuse(m, norm, draws)
    else
      Exit(m, norm, inc, dist, draws, math)
  }

  /**
   * `emit`: the emittance scaled by the cosine between the normal and the
   * direction back towards the viewer, clamped at zero: nothing is emitted
   * to a viewer behind the surface.
   */
  function Emit(m: Material, normal: Direction, dir: Direction): (r: Energy)
    ensures normal.Dot(dir) >= 0.0 ==> r == Zero
    ensures normal.Dot(dir) < 0.0 ==> r == m.light.Scale(-normal.Dot(dir))
  {
    var cos := MaxOf(normal.Dot(Invert(dir)), 0.0);
    assert normal.x * -dir.x + normal.y * -dir.y + normal.z * -dir.z
        == -(normal.x * dir.x + normal.y * dir.y + normal.z * dir.z);
    Amplified(m.light, cos)
  }

  // ---------------------------------------------------------------------
  // Properties
  // ---------------------------------------------------------------------

  /** `init` depends only on the public fields, so doing it twice changes nothing. */
  lemma InitIdempotent(m: Material, math: Math)
    requires math.sqrt(FresnelFloor(m)) != 1.0 && math.sqrt(FresnelFloor(m)) != -1.0
    ensures math.sqrt(FresnelFloor(Initialised(m, math))) == math.sqrt(FresnelFloor(m))
    ensures Initialised(Initialised(m, math), math) == Initialised(m, math)
  {
  }

  /**
   * With a true square root and an average Fresnel value below one, the
   * derived index of refraction is above one, as for any physical dielectric.
   */
  lemma InitRefractAboveOne(m: Material, math: Math)
    requires SqrtLaw(math.sqrt)
    requires m.fresnel.Average() < 1.0
    ensures math.sqrt(FresnelFloor(m)) != 1.0 && math.sqrt(FresnelFloor(m)) != -1.0
    ensures Initialised(m, math).initRefract > 1.0
  {
    var f := FresnelFloor(m);
    var s := math.sqrt(f);
    assert 0.0 <= s && s * s == f;
    assert s < 1.0 by {
      if s >= 1.0 {
        MulAtLeastOne(s);
      }
    }
    assert s > 0.0;
    QuotientAboveOne(1.0 + s, 1.0 - s);
  }

  lemma QuotientAboveOne(a: real, b: real)
    requires 0.0 < b < a
    ensures a / b > 1.0
  {
    var q := a / b;
    assert q * b == a;
    assert (q - 1.0) * b == a - b;
  }

  lemma MulAtLeastOne(s: real)
    requires s >= 1.0
    ensures s * s >= 1.0
  {
    assert s * s >= s * 1.0;
  }

  /**
   * A colour channel of one absorbs nothing: when `log10(100) = 2` its
   * absorbance is zero, and Beer's law then keeps that channel whole.
   */
  lemma FullColourAbsorbsNothing(m: Material, math: Math, dist: real)
    requires math.sqrt(FresnelFloor(m)) != 1.0 && math.sqrt(FresnelFloor(m)) != -1.0
    requires math.log10(100.0) == 2.0 && ExpLaw(math.exp)
    requires m.color == One
    ensures Initialised(m, math).initAbsorbance == Zero
    ensures Beers(dist, Initialised(m, math).initAbsorbance, math.exp) == One
  {
    assert -0.0 * dist == 0.0;
  }

  /**
   * Beer's law: nothing is lost over a zero distance, and with non-negative
   * absorbance no channel ever gains over a non-negative distance.
   */
  lemma BeersAttenuates(dist: real, absorb: Energy, exp: real -> real)
    requires ExpLaw(exp)
    ensures Beers(0.0, absorb, exp) == One
    ensures dist >= 0.0 && absorb.x >= 0.0 && absorb.y >= 0.0 && absorb.z >= 0.0 ==>
      var b := Beers(dist, absorb, exp);
      b.x <= 1.0 && b.y <= 1.0 && b.z <= 1.0
  {
    assert -absorb.x * 0.0 == 0.0 && -absorb.y * 0.0 == 0.0 && -absorb.z * 0.0 == 0.0;
    if dist >= 0.0 && absorb.x >= 0.0 && absorb.y >= 0.0 && absorb.z >= 0.0 {
      NonPositiveExponent(absorb.x, dist, exp);
      NonPositiveExponent(absorb.y, dist, exp);
      NonPositiveExponent(absorb.z, dist, exp);
    }
  }

  /**
   * Beer's law decays strictly: over a longer distance, every channel with
   * positive absorbance keeps strictly less.
   */
  lemma BeersDecays(absorb: Energy, d1: real, d2: real, exp: real -> real)
    requires ExpLaw(exp)
    requires d1 < d2
    ensures absorb.x > 0.0 ==> Beers(d2, absorb, exp).x < Beers(d1, absorb, exp).x
    ensures absorb.y > 0.0 ==> Beers(d2, absorb, exp).y < Beers(d1, absorb, exp).y
    ensures absorb.z > 0.0 ==> Beers(d2, absorb, exp).z < Beers(d1, absorb, exp).z
  {
    var near, far := Beers(d1, absorb, exp), Beers(d2, absorb, exp);
    if absorb.x > 0.0 {
      FartherDecays(absorb.x, d1, d2, exp);
      assert far.x < near.x;
    }
    if absorb.y > 0.0 {
      FartherDecays(absorb.y, d1, d2, exp);
      assert far.y < near.y;
    }
    if absorb.z > 0.0 {
      FartherDecays(absorb.z, d1, d2, exp);
      assert far.z < near.z;
    }
  }

  lemma FartherDecays(a: real, d1: real, d2: real, exp: real -> real)
    requires ExpLaw(exp)
    requires a > 0.0 && d1 < d2
    ensures exp(-a * d2) < exp(-a * d1)
  {
    assert -a * d1 - -a * d2 == a * (d2 - d1);
    MulNonNegative(a, d2 - d1);
    assert a * (d2 - d1) != 0.0;
  }

  lemma NonPositiveExponent(a: real, dist: real, exp: real -> real)
    requires ExpLaw(exp)
    requires a >= 0.0 && dist >= 0.0
    ensures exp(-a * dist) <= 1.0
  {
    MulNonNegative(a, dist);
    if -a * dist < 0.0 {
      assert exp(-a * dist) < exp(0.0);
    }
  }

  /**
   * The Schlick curve runs from `r0` at normal incidence (`cos = 1`) to one at
   * grazing incidence (`cos = 0`) and stays between the two.
   */
  lemma SchlickCurveBounds(r0: real, cos: real)
    requires 0.0 <= r0 <= 1.0 && 0.0 <= cos <= 1.0
    ensures SchlickCurve(r0, 1.0) == r0
    ensures SchlickCurve(r0, 0.0) == 1.0
    ensures r0 <= SchlickCurve(r0, cos) <= 1.0
  {
    var x := 1.0 - cos;
    assert 0.0 <= x <= 1.0;
    var x5 := x * x * x * x * x;
    Power5Unit(x);
    assert SchlickCurve(r0, cos) == r0 + (1.0 - r0) * x5;
    MulNonNegative(1.0 - r0, x5);
    assert (1.0 - r0) * x5 <= (1.0 - r0) * 1.0;
  }

  /**
   * The Schlick curve falls as the cosine grows: the reflectance increases
   * with the angle of incidence, from head-on towards grazing.
   */
  lemma SchlickCurveMonotone(r0: real, c1: real, c2: real)
    requires 0.0 <= r0 <= 1.0 && 0.0 <= c1 <= c2 <= 1.0
    ensures SchlickCurve(r0, c2) <= SchlickCurve(r0, c1)
  {
    var x1 := 1.0 - c1;
    var x2 := 1.0 - c2;
    Power5Monotone(x2, x1);
    assert SchlickCurve(r0, c1) - SchlickCurve(r0, c2)
        == (1.0 - r0) * (x1 * x1 * x1 * x1 * x1 - x2 * x2 * x2 * x2 * x2);
    MulNonNegative(1.0 - r0, x1 * x1 * x1 * x1 * x1 - x2 * x2 * x2 * x2 * x2);
  }

  /** `x^5` is monotone on the non-negative reals. */
  lemma Power5Monotone(a: real, b: real)
    requires 0.0 <= a <= b
    ensures a * a * a * a * a <= b * b * b * b * b
  {
    MulMonotone(a, b, a, b);
    var a2, b2 := a * a, b * b;
    MulMonotone(a2, b2, a, b);
    var a3, b3 := a2 * a, b2 * b;
    MulMonotone(a3, b3, a, b);
    var a4, b4 := a3 * a, b3 * b;
    MulMonotone(a4, b4, a, b);
  }

  /** Products of non-negative numbers grow with their factors. */
  lemma MulMonotone(a: real, b: real, c: real, d: real)
    requires 0.0 <= a <= b && 0.0 <= c <= d
    ensures 0.0 <= a * c <= b * d
  {
    MulNonNegative(a, c);
    MulNonNegative(b - a, c);
    MulNonNegative(b, d - c);
  }

  lemma Power5Unit(x: real)
    requires 0.0 <= x <= 1.0
    ensures 0.0 <= x * x * x * x * x <= 1.0
  {
    AtMostOneProduct(x, x);
    AtMostOneProduct(x * x, x);
    AtMostOneProduct(x * x * x, x);
    AtMostOneProduct(x * x * x * x, x);
  }

  lemma AtMostOneProduct(a: real, b: real)
    requires 0.0 <= a <= 1.0 && 0.0 <= b <= 1.0
    ensures 0.0 <= a * b <= 1.0
  {
    MulNonNegative(a, b);
    MulNonNegative(1.0 - a, b);
  }

  /** A non-zero `r0` is used as given: the reflectance is the plain Schlick curve. */
  lemma SchlickGivenR0(incident: Direction, normal: Direction, r0: real, n1: real, n2: real,
                       sqrt: real -> real)
    requires r0 != 0.0
    ensures Reflectance(incident, normal, r0, n1, n2, sqrt) == SchlickCurve(r0, -incident.Dot(normal))
  {
    DotSymmetric(incident, normal);
  }

  /**
   * A zero `r0` is derived as `((n1 - n2) / (n1 + n2))^2`; towards a denser
   * medium the incident cosine is used.
   */
  lemma SchlickDerivedR0(incident: Direction, normal: Direction, n1: real, n2: real, sqrt: real -> real)
    requires n1 + n2 != 0.0 && n1 <= n2
    ensures var q := (n1 - n2) / (n1 + n2);
      Reflectance(incident, normal, 0.0, n1, n2, sqrt) == SchlickCurve(q * q, -normal.Dot(incident))
  {
  }

  /**
   * Total internal reflection: from the denser medium, when
   * `(n1/n2)^2 (1 - cos^2) > 1` the reflectance is exactly one; otherwise the
   * curve is taken at the cosine of the refracted ray.
   */
  lemma SchlickTotalInternal(incident: Direction, normal: Direction, n1: real, n2: real, sqrt: real -> real)
    requires n2 > 0.0 && n1 > n2
    ensures var sinT2 := SineSquared(-normal.Dot(incident), n1, n2);
      var q := (n1 - n2) / (n1 + n2);
      Reflectance(incident, normal, 0.0, n1, n2, sqrt) ==
        if sinT2 > 1.0 then 1.0 else SchlickCurve(q * q, sqrt(1.0 - sinT2))
  {
  }

  /** At grazing incidence from the denser medium the reflection is total. */
  lemma GrazingIsTotal(incident: Direction, normal: Direction, n1: real, n2: real, sqrt: real -> real)
    requires n2 > 0.0 && n1 > n2
    requires normal.Dot(incident) == 0.0
    ensures Reflectance(incident, normal, 0.0, n1, n2, sqrt) == 1.0
  {
    var n := n1 / n2;
    QuotientAboveOne(n1, n2);
    assert n * n > 1.0 by {
      assert n * n > n * 1.0;
    }
    assert SineSquared(-normal.Dot(incident), n1, n2) == n * n;
    SchlickTotalInternal(incident, normal, n1, n2, sqrt);
  }

  /**
   * Because `init` floors the Fresnel value at 0.02, the entering test of
   * `bsdf` never takes the derived-`r0` branch, and for an incidence cosine in
   * [0, 1] its reflectance is at least that floor.
   */
  lemma EnteringReflectance(m: ValidMaterial, norm: Direction, inc: Direction, sqrt: real -> real)
    ensures Reflectance(norm, inc, m.initFresnel, 0.0, 0.0, sqrt) == SchlickCurve(m.initFresnel, -inc.Dot(norm))
    ensures m.initFresnel <= 1.0 && 0.0 <= -inc.Dot(norm) <= 1.0 ==>
      Reflectance(norm, inc, m.initFresnel, 0.0, 0.0, sqrt) >= 0.02
  {
    if m.initFresnel <= 1.0 && 0.0 <= -inc.Dot(norm) <= 1.0 {
      SchlickCurveBounds(m.initFresnel, -inc.Dot(norm));
    }
  }

  /**
   * The dispatch of `bsdf` in full: exit for a ray that does not enter,
   * otherwise reflect, transmit, absorb, diffuse by the draws in order.
   */
  lemma BsdfDispatch(m: ValidMaterial, norm: Direction, inc: Direction, dist: real, draws: BsdfDraws, math: Math)
    ensures var r := Bsdf(m, norm, inc, dist, draws, math);
      var reflect := SchlickCurve(m.initFresnel, -inc.Dot(norm));
      && (!Enters(inc, norm) ==> r == Exit(m, norm, inc, dist, draws, math))
      && (Enters(inc, norm) && draws.u1 < reflect ==> r == Reflect(m, norm, inc, draws, math))
      && (Enters(inc, norm) && draws.u1 >= reflect && draws.u2 < m.transmit ==>
            r == Transmit(m, norm, inc, draws, math))
      && (Enters(inc, norm) && draws.u1 >= reflect && draws.u2 >= m.transmit && draws.u3 < m.metal ==>
            r == Absorb(inc))
      && (Enters(inc, norm) && draws.u1 >= reflect && draws.u2 >= m.transmit && draws.u3 >= m.metal ==>
            r == Diffuse(m, norm, draws))
  {
    EnteringReflectance(m, norm, inc, math.sqrt);
  }

  /**
   * Only absorption ends a path: `bsdf` reports `false` exactly on the
   * absorb branch, and then returns the incoming direction with zero weight.
   */
  lemma OnlyAbsorbStops(m: ValidMaterial, norm: Direction, inc: Direction, dist: real, draws: BsdfDraws, math: Math)
    ensures var r := Bsdf(m, norm, inc, dist, draws, math);
      var reflect := SchlickCurve(m.initFresnel, -inc.Dot(norm));
      && (!r.continues <==>
            Enters(inc, norm) && draws.u1 >= reflect && draws.u2 >= m.transmit && draws.u3 < m.metal)
      && (!r.continues ==> r.direction == inc && r.weight == Zero)
  {
    BsdfDispatch(m, norm, inc, dist, draws, math);
  }

  /** An opaque material lets a ray that does not enter pass unchanged and unweighted. */
  lemma OpaqueExitPassesThrough(m: ValidMaterial, norm: Direction, inc: Direction, dist: real,
                                draws: BsdfDraws, math: Math)
    requires m.transmit == 0.0
    requires !Enters(inc, norm)
    ensures Bsdf(m, norm, inc, dist, draws, math) == Scatter(true, inc, One)
  {
  }

  /** The specular weight is white for a dielectric and the Fresnel colour for a metal. */
  lemma ReflectWeight(m: Material)
    ensures m.metal == 0.0 ==> One.Lerp(m.fresnel, m.metal) == One
    ensures m.metal == 1.0 ==> One.Lerp(m.fresnel, m.metal) == m.fresnel
  {
    LerpEndpoints(One, m.fresnel, m.metal);
  }

  /**
   * Emission is never negative-scaled: a back-facing viewer gets nothing,
   * a non-emissive material emits nothing, and head-on a unit normal emits
   * the full emittance.
   */
  lemma EmitClamped(m: Material, normal: Direction, dir: Direction)
    ensures normal.Dot(dir) >= 0.0 ==> Emit(m, normal, dir) == Zero
    ensures m.light == Zero ==> Emit(m, normal, dir) == Zero
    ensures normal.Dot(normal) == 1.0 && dir == Invert(normal) ==> Emit(m, normal, dir) == m.light
  {
    assert normal.Dot(Invert(dir)) == -normal.Dot(dir);
  }
}
