/** Rays (the `ray3::Ray3` record that the renderer imports). */
module Rays {
  import opened Vectors

  datatype Ray3 = Ray3(origin: Vector3, direction: Vector3)

  /** `moved`: the point at distance `dist` along the ray. */
  function Moved(r: Ray3, dist: real): (p: Vector3)
    ensures p.Sub(r.origin) == r.direction.Scale(dist)
  {
    r.origin.Add(r.direction.Scale(dist))
  }
}

/**
 * 4x4 transforms (src/matrix4.rs). `m[j][i]` is the entry the source reads as
 * `self.0[j][i]`: storage row `j` holds column `j` of the transform, so
 * `mult_point` reads the translation from `m[3]`.
 */
module Matrices {
  import opened Vectors
  import opened Rays

  type Matrix4 = m: seq<seq<real>> | |m| == 4 && forall j | 0 <= j < 4 :: |m[j]| == 4
    witness [[0.0, 0.0, 0.0, 0.0], [0.0, 0.0, 0.0, 0.0], [0.0, 0.0, 0.0, 0.0], [0.0, 0.0, 0.0, 0.0]]

  /**
   * `new`: the sixteen arguments in row-major order of the transform; they
   * are stored transposed (see `NewTransposes`).
   */
  function New(a1: real, a2: real, a3: real, a4: real,
               b1: real, b2: real, b3: real, b4: real,
               c1: real, c2: real, c3: real, c4: real,
               d1: real, d2: real, d3: real, d4: real): Matrix4
  {
    [[a1, b1, c1, d1],
     [a2, b2, c2, d2],
     [a3, b3, c3, d3],
     [a4, b4, c4, d4]]
  }

  /** Argument number `4 i + j` of `new` lands in entry `[j][i]`. */
  lemma NewTransposes(a1: real, a2: real, a3: real, a4: real,
                      b1: real, b2: real, b3: real, b4: real,
                      c1: real, c2: real, c3: real, c4: real,
                      d1: real, d2: real, d3: real, d4: real)
    ensures var r := New(a1, a2, a3, a4, b1, b2, b3, b4, c1, c2, c3, c4, d1, d2, d3, d4);
      forall j, i | 0 <= j < 4 && 0 <= i < 4 ::
        r[j][i] == [a1, a2, a3, a4, b1, b2, b3, b4, c1, c2, c3, c4, d1, d2, d3, d4][4 * i + j]
  {
  }

  function Identity(): Matrix4
  {
    New(1.0, 0.0, 0.0, 0.0, 0.0, 1.0, 0.0, 0.0, 0.0, 0.0, 1.0, 0.0, 0.0, 0.0, 0.0, 1.0)
  }

  function Translation(x: real, y: real, z: real): Matrix4
  {
    New(1.0, 0.0, 0.0, x, 0.0, 1.0, 0.0, y, 0.0, 0.0, 1.0, z, 0.0, 0.0, 0.0, 1.0)
  }

  function Scale(x: real, y: real, z: real): Matrix4
  {
    New(x, 0.0, 0.0, 0.0, 0.0, y, 0.0, 0.0, 0.0, 0.0, z, 0.0, 0.0, 0.0, 0.0, 1.0)
  }

  /** `mult_point`: transform a point, translation included. */
  function MultPoint(m: Matrix4, v: Vector3): Vector3
  {
    Vector3(v.x * m[0][0] + v.y * m[1][0] + v.z * m[2][0] + m[3][0],
            v.x * m[0][1] + v.y * m[1][1] + v.z * m[2][1] + m[3][1],
            v.x * m[0][2] + v.y * m[1][2] + v.z * m[2][2] + m[3][2])
  }

  /** `mult_dist`: transform a displacement, translation left out. */
  function MultDist(m: Matrix4, v: Vector3): Vector3
  {
    Vector3(v.x * m[0][0] + v.y * m[1][0] + v.z * m[2][0],
            v.x * m[0][1] + v.y * m[1][1] + v.z * m[2][1],
            v.x * m[0][2] + v.y * m[1][2] + v.z * m[2][2])
  }

  /** `mult_dir`: transform a direction and normalise it. */
  function MultDir(m: Matrix4, v: Vector3, math: Math): Vector3
  {
    math.unit(MultDist(m, v))
  }

  /** `mult_ray`. */
  function MultRay(m: Matrix4, r: Ray3, math: Math): Ray3
  {
    Ray3(MultPoint(m, r.origin), MultDir(m, r.direction, math))
  }

  /** Kronecker delta, the entries of the identity. */
  function Delta(j: int, i: int): real
  {
    if j == i then 1.0 else 0.0
  }

  /** `sum_{t < k} a[t][i] * b[j][t]`. */
  function PartialSum(a: Matrix4, b: Matrix4, j: nat, i: nat, k: nat): real
    requires j < 4 && i < 4 && k <= 4
  {
    if k == 0 then 0.0 else PartialSum(a, b, j, i, k - 1) + a[k - 1][i] * b[j][k - 1]
  }

  /** The matrix product `a b` in this storage order. */
  function Product(a: Matrix4, b: Matrix4): Matrix4
  {
    seq(4, j requires 0 <= j < 4 => seq(4, i requires 0 <= i < 4 => PartialSum(a, b, j, i, 4)))
  }

  /**
   * What `mult` returns: its accumulator starts at the identity, so every
   * entry is `delta(i, j) + sum_k a[k][i] * b[j][k]`.
   */
  function MultOf(a: Matrix4, b: Matrix4): Matrix4
  {
    seq(4, j requires 0 <= j < 4 => seq(4, i requires 0 <= i < 4 => Delta(j, i) + PartialSum(a, b, j, i, 4)))
  }

  /** The entries of a 4x4 array as a matrix value. */
  function Cells(m: array2<real>): (r: Matrix4)
    requires m.Length0 == 4 && m.Length1 == 4
    reads m
    ensures forall j, i | 0 <= j < 4 && 0 <= i < 4 :: r[j][i] == m[j, i]
  {
    [[m[0, 0], m[0, 1], m[0, 2], m[0, 3]],
     [m[1, 0], m[1, 1], m[1, 2], m[1, 3]],
     [m[2, 0], m[2, 1], m[2, 2], m[2, 3]],
     [m[3, 0], m[3, 1], m[3, 2], m[3, 3]]]
  }

  /** Two matrices with the same entries are equal. */
  lemma Extensional(a: Matrix4, b: Matrix4)
    requires forall j, i | 0 <= j < 4 && 0 <= i < 4 :: a[j][i] == b[j][i]
    ensures a == b
  {
    forall j | 0 <= j < 4
      ensures a[j] == b[j]
    {
    }
  }

  /**
   * `mult`, as written: a triple loop that adds `a[k][i] * b[j][k]` onto an
   * accumulator initialised to the identity.
   */
  method Mult(a: Matrix4, b: Matrix4) returns (r: Matrix4)
    ensures r == MultOf(a, b)
  {
    var m := new real[4, 4]((j, i) => Delta(j, i));
    for i := 0 to 4
      invariant forall q, p | 0 <= q < 4 && 0 <= p < 4 ::
        m[q, p] == if p < i then MultOf(a, b)[q][p] else Delta(q, p)
    {
      for j := 0 to 4
        invariant forall q, p | 0 <= q < 4 && 0 <= p < 4 ::
          m[q, p] == if p < i || (p == i && q < j) then MultOf(a, b)[q][p] else Delta(q, p)
      {
        for k := 0 to 4
          invariant forall q, p | 0 <= q < 4 && 0 <= p < 4 && (q != j || p != i) ::
            m[q, p] == if p < i || (p == i && q < j) then MultOf(a, b)[q][p] else Delta(q, p)
          invariant m[j, i] == Delta(j, i) + PartialSum(a, b, j, i, k)
        {
          m[j, i] := m[j, i] + a[k][i] * b[j][k];
        }
      }
    }
    r := Cells(m);
    Extensional(r, MultOf(a, b));
  }

  /** `chain_translation`: `mult` with a translation on the right. */
  method ChainTranslation(self: Matrix4, x: real, y: real, z: real) returns (r: Matrix4)
    ensures r == MultOf(self, Translation(x, y, z))
  {
    r := Mult(self, Translation(x, y, z));
  }

  /** `chain_scale`: `mult` with a scale on the right. */
  method ChainScale(self: Matrix4, x: real, y: real, z: real) returns (r: Matrix4)
    ensures r == MultOf(self, Scale(x, y, z))
  {
    r := Mult(self, Scale(x, y, z));
  }

  /**
   * The sixteen cofactor expressions that `inverse` assigns, entry `[j][k]`
   * being the value the source stores in `i.0[j][k]`.
   */
  function Adjugate(s: Matrix4): Matrix4
  {
    [
     [
      s[1][1] * s[2][2] * s[3][3] - s[1][1] * s[2][3] * s[3][2] - s[2][1] * s[1][2] * s[3][3] + s[2][1] * s[1][3] * s[3][2] + s[3][1] * s[1][2] * s[2][3] - s[3][1] * s[1][3] * s[2][2],
      s[0][1] * s[2][3] * s[3][2] - s[0][1] * s[2][2] * s[3][3] + s[2][1] * s[0][2] * s[3][3] - s[2][1] * s[0][3] * s[3][2] - s[3][1] * s[0][2] * s[2][3] + s[3][1] * s[0][3] * s[2][2],
      s[0][1] * s[1][2] * s[3][3] - s[0][1] * s[1][3] * s[3][2] - s[1][1] * s[0][2] * s[3][3] + s[1][1] * s[0][3] * s[3][2] + s[3][1] * s[0][2] * s[1][3] - s[3][1] * s[0][3] * s[1][2],
      s[0][1] * s[1][3] * s[2][2] - s[0][1] * s[1][2] * s[2][3] + s[1][1] * s[0][2] * s[2][3] - s[1][1] * s[0][3] * s[2][2] - s[2][1] * s[0][2] * s[1][3] + s[2][1] * s[0][3] * s[1][2]
     ],
     [
      s[1][0] * s[2][3] * s[3][2] - s[1][0] * s[2][2] * s[3][3] + s[2][0] * s[1][2] * s[3][3] - s[2][0] * s[1][3] * s[3][2] - s[3][0] * s[1][2] * s[2][3] + s[3][0] * s[1][3] * s[2][2],
      s[0][0] * s[2][2] * s[3][3] - s[0][0] * s[2][3] * s[3][2] - s[2][0] * s[0][2] * s[3][3] + s[2][0] * s[0][3] * s[3][2] + s[3][0] * s[0][2] * s[2][3] - s[3][0] * s[0][3] * s[2][2],
      s[0][0] * s[1][3] * s[3][2] - s[0][0] * s[1][2] * s[3][3] + s[1][0] * s[0][2] * s[3][3] - s[1][0] * s[0][3] * s[3][2] - s[3][0] * s[0][2] * s[1][3] + s[3][0] * s[0][3] * s[1][2],
      s[0][0] * s[1][2] * s[2][3] - s[0][0] * s[1][3] * s[2][2] - s[1][0] * s[0][2] * s[2][3] + s[1][0] * s[0][3] * s[2][2] + s[2][0] * s[0][2] * s[1][3] - s[2][0] * s[0][3] * s[1][2]
     ],
     [
      s[1][0] * s[2][1] * s[3][3] - s[1][0] * s[2][3] * s[3][1] - s[2][0] * s[1][1] * s[3][3] + s[2][0] * s[1][3] * s[3][1] + s[3][0] * s[1][1] * s[2][3] - s[3][0] * s[1][3] * s[2][1],
      s[0][0] * s[2][3] * s[3][1] - s[0][0] * s[2][1] * s[3][3] + s[2][0] * s[0][1] * s[3][3] - s[2][0] * s[0][3] * s[3][1] - s[3][0] * s[0][1] * s[2][3] + s[3][0] * s[0][3] * s[2][1],
      s[0][0] * s[1][1] * s[3][3] - s[0][0] * s[1][3] * s[3][1] - s[1][0] * s[0][1] * s[3][3] + s[1][0] * s[0][3] * s[3][1] + s[3][0] * s[0][1] * s[1][3] - s[3][0] * s[0][3] * s[1][1],
      s[0][0] * s[1][3] * s[2][1] - s[0][0] * s[1][1] * s[2][3] + s[1][0] * s[0][1] * s[2][3] - s[1][0] * s[0][3] * s[2][1] - s[2][0] * s[0][1] * s[1][3] + s[2][0] * s[0][3] * s[1][1]
     ],
     [
      s[1][0] * s[2][2] * s[3][1] - s[1][0] * s[2][1] * s[3][2] + s[2][0] * s[1][1] * s[3][2] - s[2][0] * s[1][2] * s[3][1] - s[3][0] * s[1][1] * s[2][2] + s[3][0] * s[1][2] * s[2][1],
      s[0][0] * s[2][1] * s[3][2] - s[0][0] * s[2][2] * s[3][1] - s[2][0] * s[0][1] * s[3][2] + s[2][0] * s[0][2] * s[3][1] + s[3][0] * s[0][1] * s[2][2] - s[3][0] * s[0][2] * s[2][1],
      s[0][0] * s[1][2] * s[3][1] - s[0][0] * s[1][1] * s[3][2] + s[1][0] * s[0][1] * s[3][2] - s[1][0] * s[0][2] * s[3][1] - s[3][0] * s[0][1] * s[1][2] + s[3][0] * s[0][2] * s[1][1],
      s[0][0] * s[1][1] * s[2][2] - s[0][0] * s[1][2] * s[2][1] - s[1][0] * s[0][1] * s[2][2] + s[1][0] * s[0][2] * s[2][1] + s[2][0] * s[0][1] * s[1][2] - s[2][0] * s[0][2] * s[1][1]
     ]
    ]
  }

  /** The first-row expansion whose reciprocal `inverse` multiplies by. */
  function FirstRowDet(s: Matrix4): real
  {
    var c := Adjugate(s);
    s[0][0] * c[0][0] + s[0][1] * c[1][0] + s[0][2] * c[2][0] + s[0][3] * c[3][0]
  }

  /** Every entry of `c` multiplied by `k`. */
  function Scaled(c: Matrix4, k: real): (r: Matrix4)
    ensures forall j, i | 0 <= j < 4 && 0 <= i < 4 :: r[j][i] == c[j][i] * k
  {
    seq(4, j requires 0 <= j < 4 => seq(4, i requires 0 <= i < 4 => c[j][i] * k))
  }

  /** What `inverse` returns: every cofactor times the same reciprocal. */
  function InverseOf(s: Matrix4): Matrix4
    requires FirstRowDet(s) != 0.0
  {
    Scaled(Adjugate(s), 1.0 / FirstRowDet(s))
  }

  /**
   * The loop of `inverse`: the cofactors `c` in a 4x4 array, every entry
   * multiplied by `det`, one row at a time. The source writes the sixteen
   * cofactors over an identity matrix one by one; since every entry is
   * overwritten, the model creates the array from them directly.
   */
  method ScaleAll(c: Matrix4, det: real) returns (r: Matrix4)
    ensures r == Scaled(c, det)
  {
    var m := new real[4, 4]((j, k) requires 0 <= j < 4 && 0 <= k < 4 => c[j][k]);
    for j := 0 to 4
      invariant forall q, p | 0 <= q < 4 && 0 <= p < 4 ::
        m[q, p] == if q < j then c[q][p] * det else c[q][p]
    {
      for k := 0 to 4
        invariant forall q, p | 0 <= q < 4 && 0 <= p < 4 ::
          m[q, p] == if q < j || (q == j && p < k) then c[q][p] * det else c[q][p]
      {
        m[j, k] := m[j, k] * det;
      }
    }
    r := Cells(m);
    Extensional(r, Scaled(c, det));
  }

  /**
   * `inverse`: the cofactors, each multiplied by the reciprocal of the
   * first-row expansion of the determinant. A zero expansion (a singular
   * matrix, where the source divides by zero) is excluded.
   */
  method Inverse(s: Matrix4) returns (r: Matrix4)
    requires FirstRowDet(s) != 0.0
    ensures r == InverseOf(s)
  {
    var c := Adjugate(s);
    var det := 1.0 / (s[0][0] * c[0][0] + s[0][1] * c[1][0] + s[0][2] * c[2][0] + s[0][3] * c[3][0]);
    assert det == 1.0 / FirstRowDet(s);
    r := ScaleAll(c, det);
  }

  lemma ReciprocalCancels(a: real, d: real)
    requires d != 0.0
    ensures a * (1.0 / d) * d == a
  {
    assert (1.0 / d) * d == 1.0;
    assert a * (1.0 / d) * d == a * ((1.0 / d) * d);
  }

  // ---------------------------------------------------------------------
  // Properties
  // ---------------------------------------------------------------------

  /** The identity leaves points and displacements unchanged. */
  lemma IdentityTransforms(v: Vector3)
    ensures MultPoint(Identity(), v) == v
    ensures MultDist(Identity(), v) == v
  {
  }

  /** A translation moves points and leaves displacements alone. */
  lemma TranslationTransforms(x: real, y: real, z: real, v: Vector3)
    ensures MultPoint(Translation(x, y, z), v) == v.Add(Vector3(x, y, z))
    ensures MultDist(Translation(x, y, z), v) == v
  {
  }

  /** A scale multiplies points and displacements component-wise. */
  lemma ScaleTransforms(x: real, y: real, z: real, v: Vector3)
    ensures MultDist(Scale(x, y, z), v) == v.Mul(Vector3(x, y, z))
    ensures MultPoint(Scale(x, y, z), v) == v.Mul(Vector3(x, y, z))
  {
  }

  /** An entry of the product, written out. */
  lemma ProductEntry(a: Matrix4, b: Matrix4, j: nat, i: nat)
    requires j < 4 && i < 4
    ensures Product(a, b)[j][i] == a[0][i] * b[j][0] + a[1][i] * b[j][1] + a[2][i] * b[j][2] + a[3][i] * b[j][3]
  {
    assert PartialSum(a, b, j, i, 1) == a[0][i] * b[j][0];
    assert PartialSum(a, b, j, i, 2) == PartialSum(a, b, j, i, 1) + a[1][i] * b[j][1];
    assert PartialSum(a, b, j, i, 3) == PartialSum(a, b, j, i, 2) + a[2][i] * b[j][2];
  }

  /** The identity is neutral on both sides of the product. */
  lemma ProductIdentity(a: Matrix4)
    ensures Product(a, Identity()) == a
    ensures Product(Identity(), a) == a
  {
    forall j, i | 0 <= j < 4 && 0 <= i < 4
      ensures Product(a, Identity())[j][i] == a[j][i]
      ensures Product(Identity(), a)[j][i] == a[j][i]
    {
      ProductEntry(a, Identity(), j, i);
      ProductEntry(Identity(), a, j, i);
    }
    Extensional(Product(a, Identity()), a);
    Extensional(Product(Identity(), a), a);
  }

  /**
   * `mult` as written is not the matrix product: its accumulator starts at
   * the identity instead of zero, so the identity times itself is twice the
   * identity.
   */
  lemma MultDoublesIdentity()
    ensures MultOf(Identity(), Identity()) == Scaled(Identity(), 2.0)
    ensures MultOf(Identity(), Identity()) != Identity()
  {
    ProductIdentity(Identity());
    forall j, i | 0 <= j < 4 && 0 <= i < 4
      ensures MultOf(Identity(), Identity())[j][i] == Scaled(Identity(), 2.0)[j][i]
    {
      assert Product(Identity(), Identity())[j][i] == Identity()[j][i];
    }
    Extensional(MultOf(Identity(), Identity()), Scaled(Identity(), 2.0));
    assert MultOf(Identity(), Identity())[0][0] == 2.0;
  }

  /** The last column of a transform without projection. */
  predicate Affine(m: Matrix4)
  {
    m[0][3] == 0.0 && m[1][3] == 0.0 && m[2][3] == 0.0 && m[3][3] == 1.0
  }

  /** The constructors build affine transforms, and products keep them affine. */
  lemma AffineClosed(a: Matrix4, b: Matrix4, x: real, y: real, z: real)
    ensures Affine(Identity()) && Affine(Translation(x, y, z)) && Affine(Scale(x, y, z))
    ensures Affine(a) && Affine(b) ==> Affine(Product(a, b))
  {
    ProductEntry(a, b, 0, 3);
    ProductEntry(a, b, 1, 3);
    ProductEntry(a, b, 2, 3);
    ProductEntry(a, b, 3, 3);
  }

  /**
   * `Product(a, b)` applies `b` first and then `a`, for points when `b` is
   * affine and for displacements when `b` has no projective part.
   */
  lemma ProductApplies(a: Matrix4, b: Matrix4, v: Vector3)
    requires b[0][3] == 0.0 && b[1][3] == 0.0 && b[2][3] == 0.0
    ensures MultDist(Product(a, b), v) == MultDist(a, MultDist(b, v))
    ensures b[3][3] == 1.0 ==> MultPoint(Product(a, b), v) == MultPoint(a, MultPoint(b, v))
  {
    var p := Product(a, b);
    forall j, i | 0 <= j < 4 && 0 <= i < 3
      ensures p[j][i] == a[0][i] * b[j][0] + a[1][i] * b[j][1] + a[2][i] * b[j][2] + a[3][i] * b[j][3]
    {
      ProductEntry(a, b, j, i);
    }
    ApplyColumn(a, b, v, 0);
    ApplyColumn(a, b, v, 1);
    ApplyColumn(a, b, v, 2);
  }

  /** One output coordinate of `ProductApplies`. */
  lemma ApplyColumn(a: Matrix4, b: Matrix4, v: Vector3, i: nat)
    requires i < 3
    requires b[0][3] == 0.0 && b[1][3] == 0.0 && b[2][3] == 0.0
    ensures var p := Product(a, b);
      var w := MultDist(b, v);
      v.x * p[0][i] + v.y * p[1][i] + v.z * p[2][i]
      == w.x * a[0][i] + w.y * a[1][i] + w.z * a[2][i]
    ensures var p := Product(a, b);
      var w := MultPoint(b, v);
      b[3][3] == 1.0 ==>
        v.x * p[0][i] + v.y * p[1][i] + v.z * p[2][i] + p[3][i]
        == w.x * a[0][i] + w.y * a[1][i] + w.z * a[2][i] + a[3][i]
  {
    ProductEntry(a, b, 0, i);
    ProductEntry(a, b, 1, i);
    ProductEntry(a, b, 2, i);
    ProductEntry(a, b, 3, i);
    Regroup(v.x, v.y, v.z, a[0][i], a[1][i], a[2][i],
            b[0][0], b[0][1], b[0][2], b[1][0], b[1][1], b[1][2], b[2][0], b[2][1], b[2][2]);
  }

  /** Summing the rows of a 3 by 3 product against `v`, or the columns: the same number. */
  lemma Regroup(vx: real, vy: real, vz: real, a0: real, a1: real, a2: real,
                b00: real, b01: real, b02: real, b10: real, b11: real, b12: real, b20: real, b21: real, b22: real)
    ensures vx * (a0 * b00 + a1 * b01 + a2 * b02) + vy * (a0 * b10 + a1 * b11 + a2 * b12)
              + vz * (a0 * b20 + a1 * b21 + a2 * b22)
         == (vx * b00 + vy * b10 + vz * b20) * a0 + (vx * b01 + vy * b11 + vz * b21) * a1
              + (vx * b02 + vy * b12 + vz * b22) * a2
  {
  }

  /**
   * What `mult` as written does to points and displacements: the result of
   * the corrected product, plus the input itself. So `chain_translation` and
   * `chain_scale` as written add the untransformed point to the transformed one.
   */
  lemma MultAddsInput(a: Matrix4, b: Matrix4, v: Vector3)
    ensures MultPoint(MultOf(a, b), v) == v.Add(MultPoint(Product(a, b), v))
    ensures MultDist(MultOf(a, b), v) == v.Add(MultDist(Product(a, b), v))
  {
    var m, p := MultOf(a, b), Product(a, b);
    assert forall j, i | 0 <= j < 4 && 0 <= i < 4 :: m[j][i] == Delta(j, i) + p[j][i];
  }

  /**
   * `chain_translation` as written: the point is translated, transformed by
   * `self`, and then the untransformed point is added on top.
   */
  lemma ChainTranslationAddsPoint(self: Matrix4, x: real, y: real, z: real, v: Vector3)
    ensures MultPoint(MultOf(self, Translation(x, y, z)), v) == v.Add(MultPoint(self, v.Add(Vector3(x, y, z))))
  {
    MultAddsInput(self, Translation(x, y, z), v);
    ChainedTranslation(self, x, y, z, v);
  }

  /** `chain_translation`, with the corrected product, translates before applying `self`. */
  lemma ChainedTranslation(self: Matrix4, x: real, y: real, z: real, v: Vector3)
    ensures MultPoint(Product(self, Translation(x, y, z)), v) == MultPoint(self, v.Add(Vector3(x, y, z)))
    ensures MultDist(Product(self, Translation(x, y, z)), v) == MultDist(self, v)
  {
    ProductApplies(self, Translation(x, y, z), v);
  }

  /** `chain_scale`, with the corrected product, scales before applying `self`. */
  lemma ChainedScale(self: Matrix4, x: real, y: real, z: real, v: Vector3)
    ensures MultPoint(Product(self, Scale(x, y, z)), v) == MultPoint(self, v.Mul(Vector3(x, y, z)))
    ensures MultDist(Product(self, Scale(x, y, z)), v) == MultDist(self, v.Mul(Vector3(x, y, z)))
  {
    ProductApplies(self, Scale(x, y, z), v);
    ScaleTransforms(x, y, z, v);
  }

  /**
   * The source's test: inverting the identity gives the identity (stated for
   * any `m` equal to it, which keeps the verifier from evaluating the
   * cofactor polynomials on constants).
   */
  lemma InverseOfIdentity(m: Matrix4)
    requires m == Identity()
    ensures FirstRowDet(m) == 1.0
    ensures InverseOf(m) == m
  {
    IdentityCofactors(m);
    ScaledByOne(m);
  }

  /** The identity is its own adjugate and has determinant one. */
  lemma IdentityCofactors(m: Matrix4)
    requires m == Identity()
    ensures Adjugate(m) == m
    ensures FirstRowDet(m) == 1.0
  {
    assert m == [[1.0, 0.0, 0.0, 0.0], [0.0, 1.0, 0.0, 0.0], [0.0, 0.0, 1.0, 0.0], [0.0, 0.0, 0.0, 1.0]];
    var c := Adjugate(m);
    assert c[0][0] == 1.0 && c[0][1] == 0.0 && c[0][2] == 0.0 && c[0][3] == 0.0;
    assert c[1][0] == 0.0 && c[1][1] == 1.0 && c[1][2] == 0.0 && c[1][3] == 0.0;
    assert c[2][0] == 0.0 && c[2][1] == 0.0 && c[2][2] == 1.0 && c[2][3] == 0.0;
    assert c[3][0] == 0.0 && c[3][1] == 0.0 && c[3][2] == 0.0 && c[3][3] == 1.0;
    Extensional(c, m);
  }

  lemma ScaledByOne(c: Matrix4)
    ensures Scaled(c, 1.0) == c
  {
    Extensional(Scaled(c, 1.0), c);
  }

  /** Inverting a translation translates back. */
  lemma InverseOfTranslation(x: real, y: real, z: real)
    ensures FirstRowDet(Translation(x, y, z)) == 1.0
    ensures InverseOf(Translation(x, y, z)) == Translation(-x, -y, -z)
  {
    TranslationCofactors(x, y, z);
    ScaledByOne(Translation(-x, -y, -z));
  }

  lemma TranslationCofactors(x: real, y: real, z: real)
    ensures Adjugate(Translation(x, y, z)) == Translation(-x, -y, -z)
    ensures FirstRowDet(Translation(x, y, z)) == 1.0
  {
    assert Translation(x, y, z) == [[1.0, 0.0, 0.0, 0.0], [0.0, 1.0, 0.0, 0.0], [0.0, 0.0, 1.0, 0.0], [x, y, z, 1.0]];
    assert Translation(-x, -y, -z) == [[1.0, 0.0, 0.0, 0.0], [0.0, 1.0, 0.0, 0.0], [0.0, 0.0, 1.0, 0.0], [-x, -y, -z, 1.0]];
  }

  /** Inverting a scale with no zero factor scales by the reciprocals. */
  lemma InverseOfScale(x: real, y: real, z: real)
    requires x != 0.0 && y != 0.0 && z != 0.0
    ensures FirstRowDet(Scale(x, y, z)) == x * y * z
    ensures InverseOf(Scale(x, y, z)) == Scale(1.0 / x, 1.0 / y, 1.0 / z)
  {
    var d := x * y * z;
    ScaleCofactors(x, y, z);
    var inv := InverseOf(Scale(x, y, z));
    assert inv == Scaled(Adjugate(Scale(x, y, z)), 1.0 / d);
    assert inv[0][0] == 1.0 / x by {
      Reciprocal3(x, y, z);
    }
    assert inv[1][1] == 1.0 / y by {
      Reciprocal3(y, x, z);
    }
    assert inv[2][2] == 1.0 / z by {
      Reciprocal3(z, x, y);
    }
    assert inv[3][3] == 1.0;
    Extensional(inv, Scale(1.0 / x, 1.0 / y, 1.0 / z));
  }

  lemma ScaleCofactors(x: real, y: real, z: real)
    ensures Adjugate(Scale(x, y, z))
         == [[y * z, 0.0, 0.0, 0.0], [0.0, x * z, 0.0, 0.0], [0.0, 0.0, x * y, 0.0], [0.0, 0.0, 0.0, x * y * z]]
    ensures FirstRowDet(Scale(x, y, z)) == x * y * z
  {
    var m := Scale(x, y, z);
    assert m == [[x, 0.0, 0.0, 0.0], [0.0, y, 0.0, 0.0], [0.0, 0.0, z, 0.0], [0.0, 0.0, 0.0, 1.0]];
    var c := Adjugate(m);
    assert c[0][0] == y * z && c[0][1] == 0.0 && c[0][2] == 0.0 && c[0][3] == 0.0;
    assert c[1][0] == 0.0 && c[1][1] == x * z && c[1][2] == 0.0 && c[1][3] == 0.0;
    assert c[2][0] == 0.0 && c[2][1] == 0.0 && c[2][2] == x * y && c[2][3] == 0.0;
    assert c[3][0] == 0.0 && c[3][1] == 0.0 && c[3][2] == 0.0 && c[3][3] == x * y * z;
  }

  /** `(b c) / (a b c) = 1 / a`. */
  lemma Reciprocal3(a: real, b: real, c: real)
    requires a != 0.0 && b != 0.0 && c != 0.0
    ensures b * c * (1.0 / (a * b * c)) == 1.0 / a
  {
    assert a * b * c != 0.0;
  }
}
