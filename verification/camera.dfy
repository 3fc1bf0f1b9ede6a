/**
 * The thin-lens camera (src/camera.rs): where a point of the sensor lies
 * behind the lens, and where a ray leaves the aperture.
 */
module Cameras {
  import opened Vectors

  /**
   * The camera's image size in pixels and its optics: focal length of the
   * lens, sensor height, f-number and focus distance, all in metres.
   */
  datatype Camera = Camera(width: nat, height: nat, lens: real, sensor: real, fStop: real, focus: real)

  /** The divisions `sensor_point` performs are all defined. */
  predicate Focusable(c: Camera)
  {
    c.height > 0 && c.lens != 0.0 && c.focus != 0.0 && 1.0 / c.lens - 1.0 / c.focus != 0.0
  }

  /** The distance behind the lens at which the focus plane is imaged. */
  function ImageDistance(c: Camera): (z: real)
    requires Focusable(c)
    ensures z != 0.0 && 1.0 / z == 1.0 / c.lens - 1.0 / c.focus
  {
    1.0 / ((1.0 / c.lens) - (1.0 / c.focus))
  }

  /**
   * `sensor_point`: the point of the sensor at the relative image position
   * `(u, v)`, with `(1/2, 1/2)` the centre of the image.
   */
  function SensorPoint(c: Camera, u: real, v: real): (p: Vector3)
    requires Focusable(c)
    ensures p.z == ImageDistance(c)
  {
    var aspect := (c.width as real) / (c.height as real);
    var w := c.sensor * aspect;
    var h := c.sensor;
    var z := ImageDistance(c);
    var x := (u - 1.0 / (1.0 + 1.0)) * w;
    var y := (v - 1.0 / (1.0 + 1.0)) * h;
    Vector3(-x, y, z)
  }

  /**
   * `aperture_point`: a point of the lens opening, from the draws `g1` (the
   * angle, as a fraction of a turn) and `g2` (the radius, as a fraction of
   * the aperture radius).
   */
  function AperturePoint(c: Camera, g1: real, g2: real, math: Math): (p: Vector3)
    requires c.fStop != 0.0
    ensures p.z == 0.0
  {
    var d := c.lens / c.fStop;
    var t := (1.0 + 1.0) * PI * g1;
    var r := (g2 * d) / (1.0 + 1.0);
    Vector3(r * math.cos(t), r * math.sin(t), 0.0)
  }

  // ---------------------------------------------------------------------
  // Properties
  // ---------------------------------------------------------------------

  /** The centre of the image lies on the optical axis. */
  lemma CentreOnAxis(c: Camera)
    requires Focusable(c)
    ensures SensorPoint(c, 0.5, 0.5).x == 0.0 && SensorPoint(c, 0.5, 0.5).y == 0.0
  {
  }

  /**
   * The sensor is mirrored left to right and spans `sensor * width / height`
   * across and `sensor` up; the image distance does not depend on the
   * position on the sensor.
   */
  lemma SensorSpans(c: Camera, u: real, v: real, u2: real, v2: real)
    requires Focusable(c)
    ensures SensorPoint(c, u, v).x == -(u - 0.5) * (c.sensor * ((c.width as real) / (c.height as real)))
    ensures SensorPoint(c, u, v).y == (v - 0.5) * c.sensor
    ensures SensorPoint(c, 0.0, v).x - SensorPoint(c, 1.0, v).x == c.sensor * ((c.width as real) / (c.height as real))
    ensures SensorPoint(c, u, 1.0).y - SensorPoint(c, u, 0.0).y == c.sensor
    ensures SensorPoint(c, u, v).z == SensorPoint(c, u2, v2).z
  {
  }

  /**
   * The thin-lens equation: the sensor and the focus plane are conjugate,
   * `1/lens = 1/z + 1/focus`.
   */
  lemma ThinLens(c: Camera, u: real, v: real)
    requires Focusable(c)
    ensures 1.0 / c.lens == 1.0 / SensorPoint(c, u, v).z + 1.0 / c.focus
  {
  }

  /**
   * With a true sine and cosine, the aperture point lies at radius
   * `g2 * lens / (2 f_stop)`, so a draw `g2` in [0, 1) keeps it strictly
   * inside the aperture of diameter `lens / f_stop`.
   */
  lemma ApertureInDisc(c: Camera, g1: real, g2: real, math: Math)
    requires TrigLaw(math)
    requires c.fStop != 0.0 && c.lens / c.fStop > 0.0
    requires 0.0 <= g2 < 1.0
    ensures var p := AperturePoint(c, g1, g2, math);
      var r := g2 * (c.lens / c.fStop) / 2.0;
      && p.x * p.x + p.y * p.y == r * r
      && 0.0 <= r < c.lens / c.fStop / 2.0
  {
    var d := c.lens / c.fStop;
    var t := (1.0 + 1.0) * PI * g1;
    var r := (g2 * d) / (1.0 + 1.0);
    var cs := math.cos(t);
    var sn := math.sin(t);
    assert sn * sn + cs * cs == 1.0;
    assert (r * cs) * (r * cs) + (r * sn) * (r * sn) == r * r * (cs * cs + sn * sn);
    MulNonNegative(g2, d);
    assert g2 * d < 1.0 * d;
  }
}
