/**
 * The path integrator and the per-pixel accumulator (src/sampler.rs).
 *
 * Every random number a path consumes is taken from a `PathDraws` record:
 * the camera ray for the image position (the camera's `ray` is given as a
 * function of the position), and for bounce number `n` the Russian-roulette
 * draw and the draws of the scattering event.
 */
module Samplers {
  import opened Vectors
  import opened Options
  import opened Rays
  import opened Energies
  import opened Materials
  import opened Surfaces
  import opened Scenes
  import opened Cameras

  /** Running sums of the traced energies of one pixel, and how many there are. */
  datatype Sample = Sample(red: real, green: real, blue: real, count: nat)

  datatype SamplerConfiguration = SamplerConfiguration(maxBounces: nat, adapt: nat)

  /** A uniform draw in (0, 1): the roulette draw is never exactly zero. */
  type PositiveDraw = u: real | u > 0.0 witness 0.5

  /** The draws of one bounce: the roulette draw, then the scattering draws. */
  datatype BounceDraws = BounceDraws(gain: PositiveDraw, scatter: BsdfDraws)

  /** The draws of one path: the camera ray for an image position, and one record per bounce. */
  datatype PathDraws = PathDraws(camera: (real, real) -> Ray3, bounce: nat -> BounceDraws)

  function NormalAt(s: Surface, p: Vector3): Vector3
  {
    s.at(p).0
  }

  function MaterialAt(s: Surface, p: Vector3): ValidMaterial
  {
    s.at(p).1
  }

  /** What one iteration of the loop of `trace` leaves: a returned energy, or the next state. */
  datatype Step = Stop(energy: Energy) | Next(ray: Ray3, energy: Energy, signal: Energy)

  /**
   * One iteration of the loop of `trace`, from the ray, the energy gathered so
   * far, the path throughput `signal` and the draws of this bounce.
   */
  function BounceOf(scene: Scene, ray: Ray3, energy: Energy, signal: Energy, b: BounceDraws, math: Math): Step
  {
    match NearestOf(scene.surfaces, ray)
    case None => Stop(Merged(energy, Env(ray), signal))
    case Some(hit) =>
      var surface := scene.surfaces[hit.index];
      var dist := Distance(surface, ray);
      var point := Moved(ray, dist);
      var normal := NormalAt(surface, point);
      var mat := MaterialAt(surface, point);
      var lit := Merged(energy, Emit(mat, normal, ray.direction), signal);
      match RandomGain(signal, b.gain)
      case None => Stop(lit)
      case Some(gained) =>
        var s := Bsdf(mat, normal, ray.direction, dist, b.scatter, math);
        if s.continues then Next(Ray3(point, s.direction), lit, gained.Mul(s.weight)) else Stop(lit)
  }

  /**
   * The state after `k` iterations of a loop whose body maps the running ray,
   * energy and throughput and the iteration number to a step; the loop is
   * left at the first `Stop`.
   */
  function Loop(body: (Ray3, Energy, Energy, nat) -> Step, start: Step, k: nat): Step
  {
    if k == 0 then start
    else
      var prev := Loop(body, start, k - 1);
      if prev.Stop? then prev else body(prev.ray, prev.energy, prev.signal, k - 1)
  }

  /** Once the loop has been left, further iterations change nothing. */
  lemma {:induction false} StopPersists(body: (Ray3, Energy, Energy, nat) -> Step, start: Step, k: nat, m: nat)
    requires k <= m && Loop(body, start, k).Stop?
    ensures Loop(body, start, m) == Loop(body, start, k)
    decreases m
  {
    if k < m {
      StopPersists(body, start, k, m - 1);
    }
  }

  /** The body of the loop of `trace`, for a scene and the draws of one path. */
  function BounceStep(scene: Scene, draws: PathDraws, math: Math): (Ray3, Energy, Energy, nat) -> Step
  {
    (ray: Ray3, energy: Energy, signal: Energy, n: nat) => BounceOf(scene, ray, energy, signal, draws.bounce(n), math)
  }

  /** The state of `trace` after `k` iterations, from the ray `start` with black energy and full throughput. */
  function Run(scene: Scene, start: Ray3, k: nat, draws: PathDraws, math: Math): Step
  {
    Loop(BounceStep(scene, draws, math), Next(start, Zero, One), k)
  }

  class Sampler {
    const config: SamplerConfiguration
    const cam: Camera
    const scene: Scene
    /** `samples[x, y]`: width outer, height inner. */
    const samples: array2<Sample>

    /** The grid has one sample per pixel of the camera. */
    predicate Valid()
    {
      samples.Length0 == cam.width && samples.Length1 == cam.height
    }

    /** `new`: a width by height grid of empty samples. */
    constructor (camera: Camera, scene: Scene, config: SamplerConfiguration)
      ensures this.config == config && this.cam == camera && this.scene == scene
      ensures fresh(samples)
      ensures Valid()
      ensures forall i, j | 0 <= i < camera.width && 0 <= j < camera.height ::
        samples[i, j] == Sample(0.0, 0.0, 0.0, 0)
    {
      this.config := config;
      this.cam := camera;
      this.scene := scene;
      this.samples := new Sample[camera.width, camera.height]((i, j) => Sample(0.0, 0.0, 0.0, 0));
    }

    /**
     * The body of the loop of `trace`. A miss adds the background and stops;
     * a hit adds the emission, then stops when the roulette or the scattering
     * ends the path, and otherwise continues from the hit point with the
     * rescaled and weighted throughput.
     *
     * The statements follow `BounceOf` one for one. What the method adds is
     * the imperative hit search: it runs the loop of `NearestIntersect`
     * and relies on that loop's proof that it computes `NearestOf`.
     */
    method Bounce(ray: Ray3, energy: Energy, signal: Energy, b: BounceDraws, math: Math) returns (step: Step)
      ensures step == BounceOf(scene, ray, energy, signal, b, math)
    {
      var hit := NearestIntersect(scene, ray);
      if hit.None? {
        return Stop(Merged(energy, Env(ray), signal));
      }
      var surface := scene.surfaces[hit.value.index];
      var dist := hit.value.dist.value;
      var point := Moved(ray, dist);
      var normal := NormalAt(surface, point);
      var mat := MaterialAt(surface, point);
      var energy := Merged(energy, Emit(mat, normal, ray.direction), signal);
      var gain := RandomGain(signal, b.gain);
      if gain.None? {
        return Stop(energy);
      }
      var signal := gain.value;
      var s := Bsdf(mat, normal, ray.direction, dist, b.scatter, math);
      if !s.continues {
        return Stop(energy);
      }
      signal := signal.Mul(s.weight);
      return Next(Ray3(point, s.direction), energy, signal);
    }

    /**
     * `trace`: at most `max_bounces` iterations of the loop body from the
     * camera ray, black energy and full throughput; the energy of the state
     * the loop is left in.
     */
    method Trace(x: real, y: real, draws: PathDraws, math: Math) returns (e: Energy)
      ensures e == Run(scene, draws.camera(x, y), config.maxBounces, draws, math).energy
    {
      var ray := draws.camera(x, y);
      var energy := Vector3(0.0, 0.0, 0.0);
      var signal := Vector3(1.0, 1.0, 1.0);
      for n := 0 to config.maxBounces
        invariant Run(scene, draws.camera(x, y), n, draws, math) == Next(ray, energy, signal)
      {
        var step := Bounce(ray, energy, signal, draws.bounce(n), math);
        if step.Stop? {
          StopPersists(BounceStep(scene, draws, math), Next(draws.camera(x, y), Zero, One), n + 1, config.maxBounces);
          return step.energy;
        }
        ray, energy, signal := step.ray, step.energy, step.signal;
      }
      return energy;
    }

    /** The energy traced for pixel `(x, y)` with the draws of one path. */
    function Traced(x: nat, y: nat, draws: PathDraws, math: Math): Energy
      requires x < cam.width && y < cam.height
    {
      var u := (x as real) / (cam.width as real);
      var v := (y as real) / (cam.height as real);
      Run(scene, draws.camera(u, v), config.maxBounces, draws, math).energy
    }

    /** The sum of the energies of the first `n` samples of pixel `(x, y)`. */
    function TracedSum(x: nat, y: nat, n: nat, draws: nat -> PathDraws, math: Math): Energy
      requires x < cam.width && y < cam.height
    {
      if n == 0 then Zero else TracedSum(x, y, n - 1, draws, math).Add(Traced(x, y, draws(n - 1), math))
    }

    /**
     * `sample_pixel`: traces `n` more paths through pixel `(x, y)`; the pixel's
     * count grows by `n`, each running sum by the matching channel of the
     * traced energies, and every other pixel is left as it was.
     */
    method SamplePixel(x: nat, y: nat, n: nat, draws: nat -> PathDraws, math: Math)
      requires Valid()
      requires x < cam.width && y < cam.height
      modifies samples
      ensures Valid()
      ensures var total := TracedSum(x, y, n, draws, math);
        samples[x, y] == Sample(old(samples[x, y]).red + total.x,
                                old(samples[x, y]).green + total.y,
                                old(samples[x, y]).blue + total.z,
                                old(samples[x, y]).count + n)
      ensures forall i, j | 0 <= i < samples.Length0 && 0 <= j < samples.Length1 && (i != x || j != y) ::
        samples[i, j] == old(samples[i, j])
    {
      for k := 0 to n
        invariant var total := TracedSum(x, y, k, draws, math);
          samples[x, y] == Sample(old(samples[x, y]).red + total.x,
                                  old(samples[x, y]).green + total.y,
                                  old(samples[x, y]).blue + total.z,
                                  old(samples[x, y]).count + k)
        invariant forall i, j | 0 <= i < samples.Length0 && 0 <= j < samples.Length1 && (i != x || j != y) ::
          samples[i, j] == old(samples[i, j])
      {
        var sample := Trace((x as real) / (cam.width as real), (y as real) / (cam.height as real), draws(k), math);
        samples[x, y] := Sample(samples[x, y].red + sample.x,
                                samples[x, y].green + sample.y,
                                samples[x, y].blue + sample.z,
                                samples[x, y].count + 1);
      }
    }
  }

  // ---------------------------------------------------------------------
  // Properties of the path integrator
  // ---------------------------------------------------------------------

  /**
   * A ray that hits nothing adds the background filtered by the throughput
   * and leaves the loop; in an empty scene every path does so at once.
   */
  lemma MissAddsBackground(scene: Scene, ray: Ray3, energy: Energy, signal: Energy, k: nat,
                           draws: PathDraws, math: Math)
    requires k > 0
    requires forall i | 0 <= i < |scene.surfaces| :: !Hits(scene.surfaces[i], ray)
    ensures Loop(BounceStep(scene, draws, math), Next(ray, energy, signal), k)
         == Stop(energy.Add(Env(ray).Mul(signal)))
  {
    var body := BounceStep(scene, draws, math);
    NearestOfIsNearest(scene.surfaces, ray);
    assert Loop(body, Next(ray, energy, signal), 1) == BounceOf(scene, ray, energy, signal, draws.bounce(0), math);
    StopPersists(body, Next(ray, energy, signal), 1, k);
  }

  /**
   * One iteration adds to the energy it is given and does not otherwise
   * depend on it: from black it stops or continues alike, with the same ray
   * and throughput.
   */
  lemma BounceAccumulates(scene: Scene, ray: Ray3, energy: Energy, signal: Energy, b: BounceDraws, math: Math)
    ensures var step := BounceOf(scene, ray, energy, signal, b, math);
      var step0 := BounceOf(scene, ray, Zero, signal, b, math);
      && step.Stop? == step0.Stop?
      && step.energy == energy.Add(step0.energy)
      && (step.Next? ==> step.ray == step0.ray && step.signal == step0.signal)
  {
    match NearestOf(scene.surfaces, ray)
    case None =>
      assert Merged(energy, Env(ray), signal) == energy.Add(Merged(Zero, Env(ray), signal));
    case Some(hit) =>
      var surface := scene.surfaces[hit.index];
      var point := Moved(ray, Distance(surface, ray));
      var emitted := Emit(MaterialAt(surface, point), NormalAt(surface, point), ray.direction);
      assert Merged(energy, emitted, signal) == energy.Add(Merged(Zero, emitted, signal));
  }

  /**
   * A loop body that adds to the energy it is given and does not otherwise
   * depend on it: from black it stops or continues alike, with the same ray
   * and throughput.
   */
  ghost predicate Accumulating(body: (Ray3, Energy, Energy, nat) -> Step)
  {
    forall r, e, s, i ::
      var step := body(r, e, s, i);
      var step0 := body(r, Zero, s, i);
      && step.Stop? == step0.Stop?
      && step.energy == e.Add(step0.energy)
      && (step.Next? ==> step.ray == step0.ray && step.signal == step0.signal)
  }

  /**
   * With an accumulating body, the state reached after `k` iterations from
   * some energy is the one reached from black, with that energy added.
   */
  lemma {:induction false} LoopAccumulates(body: (Ray3, Energy, Energy, nat) -> Step, ray: Ray3, energy: Energy,
                                           signal: Energy, k: nat)
    requires Accumulating(body)
    ensures var s := Loop(body, Next(ray, energy, signal), k);
      var s0 := Loop(body, Next(ray, Zero, signal), k);
      && s.Stop? == s0.Stop?
      && s.energy == energy.Add(s0.energy)
      && (s.Next? ==> s.ray == s0.ray && s.signal == s0.signal)
  {
    if k > 0 {
      LoopAccumulates(body, ray, energy, signal, k - 1);
      var prev := Loop(body, Next(ray, energy, signal), k - 1);
      var prev0 := Loop(body, Next(ray, Zero, signal), k - 1);
      if prev.Next? {
        var z := body(prev.ray, Zero, prev.signal, k - 1);
        assert body(prev.ray, prev.energy, prev.signal, k - 1).energy == prev.energy.Add(z.energy);
        assert body(prev.ray, prev0.energy, prev.signal, k - 1).energy == prev0.energy.Add(z.energy);
      }
    }
  }

  /**
   * Energy is only ever added: after any number of iterations of `trace`'s
   * loop, the state reached from some energy is the one reached from black,
   * with that energy added to it.
   */
  lemma EnergyAccumulates(scene: Scene, ray: Ray3, energy: Energy, signal: Energy, k: nat,
                          draws: PathDraws, math: Math)
    ensures var body := BounceStep(scene, draws, math);
      var s := Loop(body, Next(ray, energy, signal), k);
      var s0 := Loop(body, Next(ray, Zero, signal), k);
      && s.Stop? == s0.Stop?
      && s.energy == energy.Add(s0.energy)
      && (s.Next? ==> s.ray == s0.ray && s.signal == s0.signal)
  {
    var body := BounceStep(scene, draws, math);
    forall r, e, s, i
      ensures var step := body(r, e, s, i);
        var step0 := body(r, Zero, s, i);
        && step.Stop? == step0.Stop?
        && step.energy == e.Add(step0.energy)
        && (step.Next? ==> step.ray == step0.ray && step.signal == step0.signal)
    {
      BounceAccumulates(scene, r, e, s, draws.bounce(i), math);
    }
    LoopAccumulates(body, ray, energy, signal, k);
  }

  /** Two bodies that agree on the first `k` iterations reach the same state in `k` iterations. */
  lemma {:induction false} AgreeingBodies(body: (Ray3, Energy, Energy, nat) -> Step,
                                          other: (Ray3, Energy, Energy, nat) -> Step, start: Step, k: nat)
    requires forall r, e, s, i | 0 <= i < k :: body(r, e, s, i) == other(r, e, s, i)
    ensures Loop(body, start, k) == Loop(other, start, k)
  {
    if k > 0 {
      AgreeingBodies(body, other, start, k - 1);
    }
  }

  /**
   * The loop runs at most `k` times: the state after `k` iterations only
   * depends on the draws of the first `k` bounces.
   */
  lemma OnlyBudgetedDraws(scene: Scene, start: Step, k: nat, draws: PathDraws, other: PathDraws, math: Math)
    requires forall i | 0 <= i < k :: draws.bounce(i) == other.bounce(i)
    ensures Loop(BounceStep(scene, draws, math), start, k) == Loop(BounceStep(scene, other, math), start, k)
  {
    var body := BounceStep(scene, draws, math);
    var body2 := BounceStep(scene, other, math);
    forall r, e, s, i | 0 <= i < k
      ensures body(r, e, s, i) == body2(r, e, s, i)
    {
      assert draws.bounce(i) == other.bounce(i);
    }
    AgreeingBodies(body, body2, start, k);
  }

  /**
   * One bounce at a hit: the emission is added before the roulette; a lost
   * roulette or an absorbing scatter stops with that energy; otherwise the
   * path goes on from the hit point, in the scattered direction, with the
   * throughput rescaled by the roulette and weighted by the scatter.
   */
  lemma HitBounce(scene: Scene, ray: Ray3, energy: Energy, signal: Energy, b: BounceDraws, math: Math, hit: Hit)
    requires NearestOf(scene.surfaces, ray) == Some(hit)
    ensures var surface := scene.surfaces[hit.index];
      var point := Moved(ray, Distance(surface, ray));
      var normal := NormalAt(surface, point);
      var mat := MaterialAt(surface, point);
      var lit := energy.Add(Emit(mat, normal, ray.direction).Mul(signal));
      var gain := RandomGain(signal, b.gain);
      var step := BounceOf(scene, ray, energy, signal, b, math);
      && (gain.None? <==> b.gain > signal.Max())
      && (gain.None? ==> step == Stop(lit))
      && (gain.Some? ==>
            var s := Bsdf(mat, normal, ray.direction, Distance(surface, ray), b.scatter, math);
            && (!s.continues ==> step == Stop(lit))
            && (s.continues ==> step == Next(Ray3(point, s.direction), lit, gain.value.Mul(s.weight))))
  {
  }
}
