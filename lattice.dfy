/** The lattice arithmetic of shift_density.py: the 3x3 cell, numpy's
    `linalg.inv` of it, and the product `delta @ inv(cell)` that expresses a
    Cartesian displacement in units of the cell vectors. Arithmetic is exact
    on reals. */
module Lattice {
  import opened GridShift

  /** A 3x3 matrix, rows first: row `i` is lattice vector `i`. */
  type Mat3 = m: seq<Vec3> | |m| == 3 witness var z: Vec3 := [0.0, 0.0, 0.0]; [z, z, z]

  function Det(m: Mat3): real {
    m[0][0] * (m[1][1] * m[2][2] - m[1][2] * m[2][1])
    - m[0][1] * (m[1][0] * m[2][2] - m[1][2] * m[2][0])
    + m[0][2] * (m[1][0] * m[2][1] - m[1][1] * m[2][0])
  }

  /** The model's singularity test: the exact determinant is zero. It
      stands for the `LinAlgError` of `numpy.linalg.inv`, whose floating-point
      pivot test can disagree with it. */
  predicate Singular(m: Mat3) {
    Det(m) == 0.0
  }

  /** The row vector `v` times the matrix `m`: `v @ m`. */
  function VecMat(v: Vec3, m: Mat3): (r: Vec3)
    ensures forall j :: 0 <= j < 3 ==> r[j] == v[0] * m[0][j] + v[1] * m[1][j] + v[2] * m[2][j]
  {
    [v[0] * m[0][0] + v[1] * m[1][0] + v[2] * m[2][0],
     v[0] * m[0][1] + v[1] * m[1][1] + v[2] * m[2][1],
     v[0] * m[0][2] + v[1] * m[1][2] + v[2] * m[2][2]]
  }

  /** The transposed cofactor matrix: `m` times it is `Det(m)` times the
      identity. */
  function Adjugate(m: Mat3): Mat3 {
    var a, b, c := m[0][0], m[0][1], m[0][2];
    var d, e, f := m[1][0], m[1][1], m[1][2];
    var g, h, i := m[2][0], m[2][1], m[2][2];
    [[e * i - f * h, c * h - b * i, b * f - c * e],
     [f * g - d * i, a * i - c * g, c * d - a * f],
     [d * h - e * g, b * g - a * h, a * e - b * d]]
  }

  /** `delta @ numpy.linalg.inv(cell)`: the displacement in fractional
      coordinates, the first step of `get_shift`. The inverse is the
      adjugate divided by the determinant, so the product is
      `(delta @ adj(cell)) / det(cell)`. */
  function Fractional(delta: Vec3, cell: Mat3): Vec3
    requires !Singular(cell)
  {
    var w := VecMat(delta, Adjugate(cell));
    [w[0] / Det(cell), w[1] / Det(cell), w[2] / Det(cell)]
  }

  /** `(v @ adj(m) / det(m)) @ m == v` as an identity in the nine entries
      `a .. i` of `m` and the components `x, y, z` of `v`. */
  lemma InverseEntries(a: real, b: real, c: real, d: real, e: real, f: real, g: real, h: real, i: real,
                       x: real, y: real, z: real)
    requires a * (e * i - f * h) - b * (d * i - f * g) + c * (d * h - e * g) != 0.0
    ensures var det := a * (e * i - f * h) - b * (d * i - f * g) + c * (d * h - e * g);
      var w0 := x * (e * i - f * h) + y * (f * g - d * i) + z * (d * h - e * g);
      var w1 := x * (c * h - b * i) + y * (a * i - c * g) + z * (b * g - a * h);
      var w2 := x * (b * f - c * e) + y * (c * d - a * f) + z * (a * e - b * d);
      (w0 / det) * a + (w1 / det) * d + (w2 / det) * g == x &&
      (w0 / det) * b + (w1 / det) * e + (w2 / det) * h == y &&
      (w0 / det) * c + (w1 / det) * f + (w2 / det) * i == z
  {
  }

  /** The components of `delta @ adj(cell)`, written out in the entries. */
  lemma AdjugateProduct(delta: Vec3, cell: Mat3)
    ensures var w := VecMat(delta, Adjugate(cell));
      var a, b, c := cell[0][0], cell[0][1], cell[0][2];
      var d, e, f := cell[1][0], cell[1][1], cell[1][2];
      var g, h, i := cell[2][0], cell[2][1], cell[2][2];
      w[0] == delta[0] * (e * i - f * h) + delta[1] * (f * g - d * i) + delta[2] * (d * h - e * g) &&
      w[1] == delta[0] * (c * h - b * i) + delta[1] * (a * i - c * g) + delta[2] * (b * g - a * h) &&
      w[2] == delta[0] * (b * f - c * e) + delta[1] * (c * d - a * f) + delta[2] * (a * e - b * d)
  {
  }

  /** `InverseEntries` with the determinant, the adjugate product and the
      three quotients named. */
  lemma InverseApplied(a: real, b: real, c: real, d: real, e: real, f: real, g: real, h: real, i: real,
                       x: real, y: real, z: real, det: real, w0: real, w1: real, w2: real,
                       u0: real, u1: real, u2: real)
    requires det == a * (e * i - f * h) - b * (d * i - f * g) + c * (d * h - e * g)
    requires det != 0.0
    requires w0 == x * (e * i - f * h) + y * (f * g - d * i) + z * (d * h - e * g)
    requires w1 == x * (c * h - b * i) + y * (a * i - c * g) + z * (b * g - a * h)
    requires w2 == x * (b * f - c * e) + y * (c * d - a * f) + z * (a * e - b * d)
    requires u0 == w0 / det && u1 == w1 / det && u2 == w2 / det
    ensures u0 * a + u1 * d + u2 * g == x
    ensures u0 * b + u1 * e + u2 * h == y
    ensures u0 * c + u1 * f + u2 * i == z
  {
    InverseEntries(a, b, c, d, e, f, g, h, i, x, y, z);
  }

  /** `Det` written out in the nine entries. */
  lemma DetEntries(cell: Mat3)
    ensures Det(cell) == cell[0][0] * (cell[1][1] * cell[2][2] - cell[1][2] * cell[2][1])
                       - cell[0][1] * (cell[1][0] * cell[2][2] - cell[1][2] * cell[2][0])
                       + cell[0][2] * (cell[1][0] * cell[2][1] - cell[1][1] * cell[2][0])
  {
  }

  /** A vector whose three products with the columns of `m` are those of
      `v` is mapped to `v`. */
  lemma VecMatIs(u: Vec3, m: Mat3, v: Vec3)
    requires u[0] * m[0][0] + u[1] * m[1][0] + u[2] * m[2][0] == v[0]
    requires u[0] * m[0][1] + u[1] * m[1][1] + u[2] * m[2][1] == v[1]
    requires u[0] * m[0][2] + u[1] * m[1][2] + u[2] * m[2][2] == v[2]
    ensures VecMat(u, m) == v
  {
    var r := VecMat(u, m);
    assert r[0] == v[0] && r[1] == v[1] && r[2] == v[2];
  }

  /** The fractional coordinates rebuild the displacement from the cell
      vectors: `Fractional(delta, cell) @ cell == delta`. */
  lemma FractionalBack(delta: Vec3, cell: Mat3)
    requires !Singular(cell)
    ensures VecMat(Fractional(delta, cell), cell) == delta
  {
    var w := VecMat(delta, Adjugate(cell));
    var u := Fractional(delta, cell);
    assert u[0] == w[0] / Det(cell) && u[1] == w[1] / Det(cell) && u[2] == w[2] / Det(cell);
    AdjugateProduct(delta, cell);
    DetEntries(cell);
    InverseApplied(cell[0][0], cell[0][1], cell[0][2], cell[1][0], cell[1][1], cell[1][2],
                   cell[2][0], cell[2][1], cell[2][2], delta[0], delta[1], delta[2],
                   Det(cell), w[0], w[1], w[2], u[0], u[1], u[2]);
    VecMatIs(u, cell, delta);
  }

  /** A zero displacement has zero fractional coordinates. */
  lemma FractionalZero(cell: Mat3)
    requires !Singular(cell)
    ensures Fractional([0.0, 0.0, 0.0], cell) == [0.0, 0.0, 0.0]
  {
  }
}
