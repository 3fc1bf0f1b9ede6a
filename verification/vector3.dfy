/** Optional values, as Rust's `Option`. */
module Options {
  datatype Option<+T> = None | Some(value: T)
}

/**
 * Three-component vectors over the reals (src/vector3.rs). Directions and
 * energies are the same type under other names.
 *
 * The square root, exponential, logarithm and trigonometric functions are not
 * defined here: they are fields of a `Math` record that callers pass in, and
 * the lemmas that need their laws require them as predicates.
 */
module Vectors {

  /** The `f64` value of pi that the source uses. */
  const PI: real := 3.141592653589793

  /** `f64::max`, without the NaN cases. */
  function MaxOf(a: real, b: real): (r: real)
    ensures r >= a && r >= b
    ensures r == a || r == b
  {
    if a >= b then a else b
  }

  /** `f64::abs`. */
  function AbsOf(a: real): (r: real)
    ensures r >= 0.0
    ensures r == a || r == -a
  {
    if a < 0.0 then -a else a
  }

  datatype Vector3 = Vector3(x: real, y: real, z: real)
  {
    function Average(): real
    {
      (x + y + z) / 3.0
    }

    /** The largest component. */
    function Max(): (r: real)
      ensures r >= x && r >= y && r >= z
      ensures r == x || r == y || r == z
    {
      MaxOf(x, MaxOf(y, z))
    }

    function Dot(other: Vector3): real
    {
      x * other.x + y * other.y + z * other.z
    }

    function Cross(other: Vector3): Vector3
    {
      Vector3(y * other.z - z * other.y,
              z * other.x - x * other.z,
              x * other.y - y * other.x)
    }

    /** Euclidean length, through the square root the caller supplies. */
    function Len(sqrt: real -> real): real
    {
      sqrt(x * x + y * y + z * z)
    }

    function Lerp(other: Vector3, n: real): Vector3
    {
      var m := 1.0 - n;
      Vector3(x * m + other.x * n, y * m + other.y * n, z * m + other.z * n)
    }

    /** Component-wise absolute value. */
    function Abs(): (r: Vector3)
      ensures r.x >= 0.0 && r.y >= 0.0 && r.z >= 0.0
      ensures r.x * r.x == x * x && r.y * r.y == y * y && r.z * r.z == z * z
    {
      Vector3(AbsOf(x), AbsOf(y), AbsOf(z))
    }

    /** `&a + &b`. */
    function Add(rhs: Vector3): Vector3
    {
      Vector3(x + rhs.x, y + rhs.y, z + rhs.z)
    }

    /** `&a - &b`. */
    function Sub(rhs: Vector3): Vector3
    {
      Vector3(x - rhs.x, y - rhs.y, z - rhs.z)
    }

    /** `&a * &b`: the component-wise product. */
    function Mul(rhs: Vector3): Vector3
    {
      Vector3(x * rhs.x, y * rhs.y, z * rhs.z)
    }

    /** `&a * f`: scaling by a scalar. */
    function Scale(rhs: real): Vector3
    {
      Vector3(x * rhs, y * rhs, z * rhs)
    }
  }

  const Zero: Vector3 := Vector3(0.0, 0.0, 0.0)
  const One: Vector3 := Vector3(1.0, 1.0, 1.0)

  /**
   * The numeric helpers the source takes from `f64`: `sqrt`, `exp`, `log10`,
   * `sin`, `cos`, and `Vector3::unit`, which divides by the square-root length.
   */
  datatype Math = Math(sqrt: real -> real,
                       unit: Vector3 -> Vector3,
                       exp: real -> real,
                       log10: real -> real,
                       sin: real -> real,
                       cos: real -> real)

  /** `sqrt` is the non-negative square root on the non-negative reals. */
  ghost predicate SqrtLaw(sqrt: real -> real)
  {
    forall a :: 0.0 <= a ==> 0.0 <= sqrt(a) && sqrt(a) * sqrt(a) == a
  }

  /** `unit` divides a vector of non-zero length by its length. */
  ghost predicate UnitLaw(m: Math)
  {
    forall v: Vector3 :: v.Len(m.sqrt) != 0.0 ==> m.unit(v) == v.Scale(1.0 / v.Len(m.sqrt))
  }

  /** `exp(0) = 1` and `exp` is strictly increasing. */
  ghost predicate ExpLaw(exp: real -> real)
  {
    && exp(0.0) == 1.0
    && forall a, b :: a < b ==> exp(a) < exp(b)
  }

  /** `sin(t)^2 + cos(t)^2 = 1`. */
  ghost predicate TrigLaw(m: Math)
  {
    forall t :: m.sin(t) * m.sin(t) + m.cos(t) * m.cos(t) == 1.0
  }

  // ---------------------------------------------------------------------
  // Algebraic laws of the vector operations
  // ---------------------------------------------------------------------

  lemma DotSymmetric(a: Vector3, b: Vector3)
    ensures a.Dot(b) == b.Dot(a)
  {
  }

  /** The cross product is orthogonal to both operands and anti-commutative. */
  lemma CrossOrthogonal(a: Vector3, b: Vector3)
    ensures a.Dot(a.Cross(b)) == 0.0
    ensures b.Dot(a.Cross(b)) == 0.0
    ensures a.Cross(b) == b.Cross(a).Scale(-1.0)
  {
  }

  /** Interpolation hits its end points and mixes each component linearly. */
  lemma LerpEndpoints(a: Vector3, b: Vector3, n: real)
    ensures a.Lerp(b, 0.0) == a
    ensures a.Lerp(b, 1.0) == b
    ensures a.Lerp(b, n) == a.Scale(1.0 - n).Add(b.Scale(n))
  {
  }

  lemma AverageOfConstant(c: real)
    ensures Vector3(c, c, c).Average() == c
  {
  }

  /**
   * The operators act one component at a time, so they keep the laws of the
   * reals: subtraction undoes addition, addition and the component-wise
   * product commute, and scaling distributes over addition.
   */
  lemma ComponentWise(a: Vector3, b: Vector3, f: real)
    ensures a.Sub(b).Add(b) == a
    ensures a.Add(b) == b.Add(a)
    ensures a.Mul(b) == b.Mul(a)
    ensures a.Add(b).Scale(f) == a.Scale(f).Add(b.Scale(f))
  {
  }

  /** The source's unit tests for add, mul, scale and abs. */
  lemma SourceExamples()
    ensures Vector3(0.0, 1.2, 2.8).Add(Vector3(4.0, -4.2, 1.0)) == Vector3(4.0, -3.0, 3.8)
    ensures Vector3(0.0, 2.0, 2.8).Mul(Vector3(2.0, 1.5, 1.0)) == Vector3(0.0, 3.0, 2.8)
    ensures Vector3(0.0, 2.0, 2.8).Scale(5.0) == Vector3(0.0, 10.0, 14.0)
    ensures Vector3(-0.0, -2.0, 2.8).Abs() == Vector3(0.0, 2.0, 2.8)
  {
  }

  lemma MulNonNegative(a: real, b: real)
    requires a >= 0.0 && b >= 0.0
    ensures a * b >= 0.0
  {
  }

  /** The square root of 1 is 1. */
  lemma SqrtOne(sqrt: real -> real)
    requires SqrtLaw(sqrt)
    ensures sqrt(1.0) == 1.0
  {
    var s := sqrt(1.0);
    assert 0.0 <= s && s * s == 1.0;
    assert (s - 1.0) * (s - 1.0) >= 0.0;
    assert s <= 1.0;
    MulNonNegative(1.0 - s, s);
  }

  /** `unit` returns a vector of length one. */
  lemma UnitIsUnit(m: Math, v: Vector3)
    requires SqrtLaw(m.sqrt) && UnitLaw(m)
    requires v.Len(m.sqrt) != 0.0
    ensures m.unit(v).Dot(m.unit(v)) == 1.0
  {
    var l := v.Len(m.sqrt);
    var d := v.Dot(v);
    assert d >= 0.0;
    assert l * l == d;
    var k := 1.0 / l;
    assert m.unit(v) == v.Scale(k);
    calc {
      v.Scale(k).Dot(v.Scale(k));
      == k * k * d;
      == d / (l * l);
      == 1.0;
    }
  }

  /** A vector that already has length one is its own `unit`. */
  lemma UnitOfUnit(m: Math, v: Vector3)
    requires SqrtLaw(m.sqrt) && UnitLaw(m)
    requires v.Dot(v) == 1.0
    ensures m.unit(v) == v
  {
    SqrtOne(m.sqrt);
    assert v.Len(m.sqrt) == 1.0;
  }
}
