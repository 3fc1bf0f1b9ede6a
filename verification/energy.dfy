/**
 * Radiometric quantities (src/energy.rs): an energy is a `Vector3` whose
 * components are the red, green and blue channels.
 */
module Energies {
  import opened Vectors
  import opened Options

  type Energy = Vector3

  /** `merged`: adds the light `b` filtered by the path throughput `signal`. */
  function Merged(e: Energy, b: Energy, signal: Energy): Energy
  {
    e.Add(b.Mul(signal))
  }

  /** `amplified`: scales every channel. */
  function Amplified(e: Energy, n: real): Energy
  {
    e.Scale(n)
  }

  /**
   * `random_gain`, Russian roulette with the uniform draw `u`: the path stops
   * (`None`) when `u` exceeds the strongest channel, otherwise the throughput
   * is rescaled by the reciprocal of that channel. The requires clause rules
   * out the division by a zero maximum, which the source does not guard.
   */
  function RandomGain(e: Energy, u: real): (r: Option<Energy>)
    requires u > e.Max() || e.Max() != 0.0
    ensures r.None? <==> u > e.Max()
  {
    var max := e.Max();
    if u > max then None else Some(Amplified(e, 1.0 / max))
  }

  /** `strength`: the channel-wise product. */
  function Strength(e: Energy, b: Energy): Energy
  {
    e.Mul(b)
  }

  // ---------------------------------------------------------------------
  // Properties
  // ---------------------------------------------------------------------

  /** Merging adds `b * signal` channel by channel; merging no light changes nothing. */
  lemma MergedLaws(e: Energy, b: Energy, signal: Energy)
    ensures Merged(e, b, signal) == Vector3(e.x + b.x * signal.x, e.y + b.y * signal.y, e.z + b.z * signal.z)
    ensures Merged(e, Zero, signal) == e
    ensures Merged(e, b, Zero) == e
  {
  }

  /** Amplifying scales each channel; amplifying by one is the identity. */
  lemma AmplifiedLaws(e: Energy, n: real)
    ensures Amplified(e, n) == Vector3(e.x * n, e.y * n, e.z * n)
    ensures Amplified(e, 1.0) == e
    ensures Amplified(Zero, n) == Zero
  {
  }

  /**
   * A successful gain on a throughput with a positive maximum rescales by
   * `1 / max`: the strongest channel becomes exactly one and the ratios
   * between channels are kept.
   */
  lemma GainNormalises(e: Energy, u: real)
    requires e.Max() > 0.0
    requires u <= e.Max()
    ensures RandomGain(e, u).Some?
    ensures RandomGain(e, u).value.Max() == 1.0
    ensures RandomGain(e, u).value.Scale(e.Max()) == e
  {
    var max := e.Max();
    var r := Amplified(e, 1.0 / max);
    assert RandomGain(e, u) == Some(r);
    NormalisedChannels(e, max);
    AtMostOneWithOne(r);
    ScaleBack(e, max);
  }

  /** Every channel divided by the largest one. */
  lemma NormalisedChannels(e: Energy, max: real)
    requires 0.0 < max
    requires e.x <= max && e.y <= max && e.z <= max
    requires e.x == max || e.y == max || e.z == max
    ensures var r := Amplified(e, 1.0 / max);
      && r.x <= 1.0 && r.y <= 1.0 && r.z <= 1.0
      && (r.x == 1.0 || r.y == 1.0 || r.z == 1.0)
  {
    DivideByMax(e.x, max);
    DivideByMax(e.y, max);
    DivideByMax(e.z, max);
  }

  /** Scaling by `1 / max` and then by `max` gives back the energy. */
  lemma ScaleBack(e: Energy, max: real)
    requires max != 0.0
    ensures Amplified(e, 1.0 / max).Scale(max) == e
  {
    var k := 1.0 / max;
    assert k * max == 1.0;
    assert e.x * k * max == e.x * (k * max);
    assert e.y * k * max == e.y * (k * max);
    assert e.z * k * max == e.z * (k * max);
  }

  lemma AtMostOneWithOne(r: Vector3)
    requires r.x <= 1.0 && r.y <= 1.0 && r.z <= 1.0
    requires r.x == 1.0 || r.y == 1.0 || r.z == 1.0
    ensures r.Max() == 1.0
  {
  }

  /** One channel divided by the maximum channel. */
  lemma DivideByMax(a: real, max: real)
    requires 0.0 < max && a <= max
    ensures a * (1.0 / max) <= 1.0
    ensures a * (1.0 / max) * max == a
    ensures a == max ==> a * (1.0 / max) == 1.0
  {
    var k := 1.0 / max;
    assert k * max == 1.0;
    assert a * k <= max * k;
  }

  /** `strength` is commutative. */
  lemma StrengthCommutes(a: Energy, b: Energy)
    ensures Strength(a, b) == Strength(b, a)
    ensures Strength(a, b) == Vector3(a.x * b.x, a.y * b.y, a.z * b.z)
  {
  }
}
