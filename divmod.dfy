/** Facts about Euclidean division that the grid index arithmetic needs. For a
    positive divisor Dafny's `/` and `%` agree with Python's `//` and `%`. */
module DivMod {

  lemma MulAtLeast(x: int, b: int)
    requires x >= 1 && b > 0
    ensures x * b >= b
  {
    assert x * b == (x - 1) * b + b;
  }

  /** `a * b` as repeated addition; loops that count rows of `b` use it to
      keep their arithmetic linear. */
  function Mul(a: nat, b: nat): nat {
    if a == 0 then 0 else Mul(a - 1, b) + b
  }

  lemma {:induction false} MulIsProduct(a: nat, b: nat)
    ensures Mul(a, b) == a * b
  {
    if a > 0 {
      MulIsProduct(a - 1, b);
      assert (a - 1) * b + b == a * b;
    }
  }

  lemma MulSucc(a: nat, b: nat)
    ensures Mul(a + 1, b) == Mul(a, b) + b
  {
  }

  /** Counting on by one modulo four. */
  lemma ModFourStep(p: int)
    ensures (p + 1) % 4 == if p % 4 == 3 then 0 else p % 4 + 1
  {
  }

  /** Quotient and remainder are the only pair with `a == q * b + r`. */
  lemma DivModUnique(a: int, b: int, q: int, r: int)
    requires b > 0 && 0 <= r < b && a == q * b + r
    ensures a / b == q && a % b == r
  {
    var q0, r0 := a / b, a % b;
    assert (q - q0) * b == r0 - r;
    if q > q0 {
      MulAtLeast(q - q0, b);
    } else if q < q0 {
      MulAtLeast(q0 - q, b);
    }
  }

  lemma ModSmall(a: int, n: int)
    requires 0 <= a < n
    ensures a % n == a && a / n == 0
  {
    DivModUnique(a, n, 0, a);
  }

  lemma ModAddMultiple(a: int, k: int, n: int)
    requires n > 0
    ensures (a + k * n) % n == a % n
  {
    DivModUnique(a + k * n, n, a / n + k, a % n);
  }

  /** Adding `d` and taking the remainder, then subtracting `d` again, gives
      back the remainder of the original. */
  lemma ModCancel(a: int, d: int, n: int)
    requires n > 0
    ensures ((a + d) % n - d) % n == a % n
  {
    var q := (a + d) / n;
    assert (a + d) % n - d == a + (-q) * n;
    ModAddMultiple(a, -q, n);
  }

  /** Two successive remainders add up like one. */
  lemma ModModAdd(a: int, d: int, e: int, n: int)
    requires n > 0
    ensures ((a + d) % n + e) % n == (a + d + e) % n
  {
    var q := (a + d) / n;
    assert (a + d) % n + e == (a + d + e) + (-q) * n;
    ModAddMultiple(a + d + e, -q, n);
  }

  lemma RowMajorBound(iy: int, ix: int, nx: int, ny: int)
    requires 0 <= ix < nx && 0 <= iy < ny
    ensures 0 <= iy * nx + ix < nx * ny
  {
    MulAtLeast(ny - iy, nx);
    assert (ny - iy) * nx == nx * ny - iy * nx;
  }

  /** Row-major position `(iz * ny + iy) * nx + ix` decomposes into its three
      coordinates. */
  lemma Decompose(ix: int, iy: int, iz: int, nx: int, ny: int)
    requires 0 <= ix < nx && 0 <= iy < ny && iz >= 0
    ensures var p := (iz * ny + iy) * nx + ix;
      p % nx == ix && p / nx == iz * ny + iy && (p / nx) % ny == iy &&
      (p / nx) / ny == iz && p / (nx * ny) == iz
  {
    var p := (iz * ny + iy) * nx + ix;
    DivModUnique(p, nx, iz * ny + iy, ix);
    DivModUnique(iz * ny + iy, ny, iz, iy);
    RowMajorBound(iy, ix, nx, ny);
    assert p == iz * (nx * ny) + (iy * nx + ix);
    DivModUnique(p, nx * ny, iz, iy * nx + ix);
  }

  /** Every non-negative position is the row-major position of its
      coordinates. */
  lemma Substitute(p: int, q: int, nx: int, ix: int, q': int)
    requires p == q * nx + ix && q == q'
    ensures p == q' * nx + ix
  {
  }

  lemma Compose(p: int, nx: int, ny: int)
    requires p >= 0 && nx > 0 && ny > 0
    ensures p == (((p / nx) / ny) * ny + (p / nx) % ny) * nx + p % nx
    ensures (p / nx) / ny == p / (nx * ny)
  {
    var q := p / nx;
    var ix, iy, iz := p % nx, q % ny, q / ny;
    assert p == q * nx + ix;
    assert q == iz * ny + iy;
    Substitute(p, q, nx, ix, iz * ny + iy);
    Decompose(ix, iy, iz, nx, ny);
  }

  lemma QuotientBound(p: int, nx: int, ny: int, nz: int)
    requires nx > 0 && ny > 0 && 0 <= p < nx * ny * nz
    ensures p / (nx * ny) < nz
  {
    if p / (nx * ny) >= nz {
      Compose(p, nx, ny);
      var iz := p / (nx * ny);
      assert p >= iz * (nx * ny);
      MulAtLeast(iz - nz + 1, nx * ny);
    }
  }
}
