/** The density-grid part of shift_density.py: turning the fractional
    displacement into whole-sample offsets (`get_shift`) and the counting loop
    in `main` that sends every value to its wrapped destination cell. */
module GridShift {
  import opened DivMod

  /** A three-component real vector (one row of a numpy `(n, 3)` array). */
  type Vec3 = v: seq<real> | |v| == 3 witness [0.0, 0.0, 0.0]

  /** A three-component integer vector: the sample counts `nind` or the offsets `dr`. */
  type Int3 = v: seq<int> | |v| == 3 witness [0, 0, 0]

  /** The sample counts `nind` of the data grid, x first. */
  datatype Dims = Dims(nx: int, ny: int, nz: int) {
    predicate Positive() {
      nx > 0 && ny > 0 && nz > 0
    }

    function Size(): int {
      nx * ny * nz
    }
  }

  /** A grid cell by its x, y and z index. */
  datatype Cell = Cell(ix: int, iy: int, iz: int)

  predicate InGrid(c: Cell, d: Dims) {
    0 <= c.ix < d.nx && 0 <= c.iy < d.ny && 0 <= c.iz < d.nz
  }

  /** `n` is `x` truncated toward zero: the integer nearest `x` on the side of
      zero, at distance less than one. */
  predicate TruncatesTo(x: real, n: int) {
    (x >= 0.0 ==> 0 <= n && n as real <= x < n as real + 1.0) &&
    (x < 0.0 ==> n <= 0 && n as real - 1.0 < x <= n as real)
  }

  /** Python's `int(x)` on a float. */
  function Trunc(x: real): (n: int)
    ensures TruncatesTo(x, n)
  {
    if x >= 0.0 then x.Floor else -((-x).Floor)
  }

  /** The loop of `get_shift` after the matrix product: offset `i` is the
      truncated product of fractional component `i` and sample count `i`. */
  function GridOffsets(rotated: Vec3, nind: Int3): (dr: Int3)
    ensures TruncatesTo(rotated[0] * nind[0] as real, dr[0])
    ensures TruncatesTo(rotated[1] * nind[1] as real, dr[1])
    ensures TruncatesTo(rotated[2] * nind[2] as real, dr[2])
  {
    [Trunc(rotated[0] * nind[0] as real), Trunc(rotated[1] * nind[1] as real),
     Trunc(rotated[2] * nind[2] as real)]
  }

  /** A zero displacement moves the grid by no sample at all. */
  lemma ZeroDisplacementOffsets(nind: Int3)
    ensures GridOffsets([0.0, 0.0, 0.0], nind) == [0, 0, 0]
  {
  }

  /** The cell of value number `count` in file order: x fastest, z slowest. */
  function CellOf(count: int, d: Dims): (c: Cell)
    requires d.Positive() && count >= 0
    ensures InGrid(c, d)
  {
    Cell(count % d.nx, (count / d.nx) % d.ny, (count / (d.nx * d.ny)) % d.nz)
  }

  /** The position in file order of a cell: inverse of `CellOf`. */
  function Linear(c: Cell, d: Dims): int {
    (c.iz * d.ny + c.iy) * d.nx + c.ix
  }

  /** Index `x` moved by `k` along a periodic axis of `n` samples. */
  function Wrap(x: int, k: int, n: int): (r: int)
    requires n > 0
    ensures 0 <= r < n
  {
    (x + k) % n
  }

  /** The periodic move of a cell by the offsets, axis by axis. */
  function Move(c: Cell, dr: Int3, d: Dims): (m: Cell)
    requires d.Positive()
    ensures InGrid(m, d)
  {
    Cell(Wrap(c.ix, dr[0], d.nx), Wrap(c.iy, dr[1], d.ny), Wrap(c.iz, dr[2], d.nz))
  }

  function Negate(dr: Int3): Int3 {
    [-dr[0], -dr[1], -dr[2]]
  }

  function Add(a: Int3, b: Int3): Int3 {
    [a[0] + b[0], a[1] + b[1], a[2] + b[2]]
  }

  /** The destination of value number `count`, exactly as the loop in `main`
      computes it: `ix = count % nx`, `iy = count // nx`,
      `iz = count // (nx * ny)`, each then moved by its offset modulo its
      own count. */
  function Dest(count: int, d: Dims, dr: Int3): (c: Cell)
    requires d.Positive() && count >= 0
    ensures InGrid(c, d)
  {
    Cell((count % d.nx + dr[0]) % d.nx,
         (count / d.nx + dr[1]) % d.ny,
         (count / (d.nx * d.ny) + dr[2]) % d.nz)
  }

  /** The value number that lands in cell `c`. */
  function Src(c: Cell, d: Dims, dr: Int3): int
    requires d.Positive()
  {
    Linear(Move(c, Negate(dr), d), d)
  }

  lemma {:induction false} LinearCellOf(p: int, d: Dims)
    requires d.Positive() && 0 <= p < d.Size()
    ensures Linear(CellOf(p, d), d) == p
  {
    var nx, ny, nz := d.nx, d.ny, d.nz;
    var ix, iy, iz := p % nx, (p / nx) % ny, p / (nx * ny);
    Compose(p, nx, ny);
    QuotientBound(p, nx, ny, nz);
    ModSmall(iz, nz);
    assert CellOf(p, d) == Cell(ix, iy, iz);
    assert p == (iz * ny + iy) * nx + ix;
  }

  lemma {:induction false} CellOfLinear(c: Cell, d: Dims)
    requires d.Positive() && InGrid(c, d)
    ensures 0 <= Linear(c, d) < d.Size()
    ensures CellOf(Linear(c, d), d) == c
  {
    var nx, ny, nz := d.nx, d.ny, d.nz;
    var p := Linear(c, d);
    assert p == (c.iz * ny + c.iy) * nx + c.ix;
    Decompose(c.ix, c.iy, c.iz, nx, ny);
    ModSmall(c.iz, nz);
    RowMajorBound(c.iy, c.ix, nx, ny);
    RowMajorBound(c.iz, c.iy * nx + c.ix, nx * ny, nz);
    assert p == c.iz * (nx * ny) + (c.iy * nx + c.ix);
    assert nx * ny * nz == (nx * ny) * nz;
  }

  /** The source's destination is the file-order cell moved by the offsets. */
  lemma {:induction false} DestIsMove(count: int, d: Dims, dr: Int3)
    requires d.Positive() && count >= 0
    ensures Dest(count, d, dr) == Move(CellOf(count, d), dr, d)
  {
    var q := count / d.nx;
    Compose(count, d.nx, d.ny);
    ModCancel(q, 0, d.ny);
    assert q == (q / d.ny) * d.ny + q % d.ny;
    ModAddMultiple(q % d.ny + dr[1], q / d.ny, d.ny);
    ModModAdd(q, 0, dr[1], d.ny);
    ModModAdd(count / (d.nx * d.ny), 0, dr[2], d.nz);
    ModModAdd(count, 0, dr[0], d.nx);
  }

  /** Moving back along an axis undoes the move. */
  lemma AxisBack(a: int, k: int, n: int)
    requires 0 <= a < n
    ensures Wrap(Wrap(a, k, n), -k, n) == a
  {
    ModCancel(a, k, n);
    ModSmall(a, n);
  }

  lemma MoveBack(c: Cell, dr: Int3, d: Dims)
    requires d.Positive() && InGrid(c, d)
    ensures Move(Move(c, dr, d), Negate(dr), d) == c
  {
    var back := Negate(dr);
    assert back[0] == -dr[0] && back[1] == -dr[1] && back[2] == -dr[2];
    AxisBack(c.ix, dr[0], d.nx);
    AxisBack(c.iy, dr[1], d.ny);
    AxisBack(c.iz, dr[2], d.nz);
  }

  lemma MoveForth(c: Cell, dr: Int3, d: Dims)
    requires d.Positive() && InGrid(c, d)
    ensures Move(Move(c, Negate(dr), d), dr, d) == c
  {
    var back := Negate(dr);
    assert back[0] == -dr[0] && back[1] == -dr[1] && back[2] == -dr[2];
    AxisBack(c.ix, -dr[0], d.nx);
    AxisBack(c.iy, -dr[1], d.ny);
    AxisBack(c.iz, -dr[2], d.nz);
    assert -(-dr[0]) == dr[0] && -(-dr[1]) == dr[1] && -(-dr[2]) == dr[2];
  }

  /** Two moves along an axis are one move by their sum. */
  lemma AxisTwice(x: int, p: int, q: int, pq: int, n: int)
    requires n > 0 && pq == p + q
    ensures Wrap(Wrap(x, p, n), q, n) == Wrap(x, pq, n)
  {
    ModModAdd(x, p, q, n);
  }

  /** Moving twice is moving once by the sum of the offsets. */
  lemma MoveTwice(c: Cell, a: Int3, b: Int3, d: Dims)
    requires d.Positive()
    ensures Move(Move(c, a, d), b, d) == Move(c, Add(a, b), d)
  {
    var ab := Add(a, b);
    AxisTwice(c.ix, a[0], b[0], ab[0], d.nx);
    AxisTwice(c.iy, a[1], b[1], ab[1], d.ny);
    AxisTwice(c.iz, a[2], b[2], ab[2], d.nz);
  }

  /** Every cell of the grid receives the value numbered `Src`. */
  lemma {:induction false} DestSrc(c: Cell, d: Dims, dr: Int3)
    requires d.Positive() && InGrid(c, d)
    ensures 0 <= Src(c, d, dr) < d.Size()
    ensures Dest(Src(c, d, dr), d, dr) == c
  {
    var m := Move(c, Negate(dr), d);
    CellOfLinear(m, d);
    DestIsMove(Src(c, d, dr), d, dr);
    MoveForth(c, dr, d);
  }

  /** No two values of a full grid go to the same cell: `Src` undoes `Dest`. */
  lemma {:induction false} SrcDest(count: int, d: Dims, dr: Int3)
    requires d.Positive() && 0 <= count < d.Size()
    ensures Src(Dest(count, d, dr), d, dr) == count
  {
    DestIsMove(count, d, dr);
    MoveBack(CellOf(count, d), dr, d);
    LinearCellOf(count, d);
  }

  /** The scatter is a bijection between value numbers `0 .. nx*ny*nz - 1`
      and the cells of the grid. */
  lemma DestBijective(d: Dims, dr: Int3)
    requires d.Positive()
    ensures forall i, j ::
      0 <= i < d.Size() && 0 <= j < d.Size() && Dest(i, d, dr) == Dest(j, d, dr) ==> i == j
    ensures forall c :: InGrid(c, d) ==>
      0 <= Src(c, d, dr) < d.Size() && Dest(Src(c, d, dr), d, dr) == c
  {
    forall i, j | 0 <= i < d.Size() && 0 <= j < d.Size() && Dest(i, d, dr) == Dest(j, d, dr)
      ensures i == j
    {
      SrcDest(i, d, dr);
      SrcDest(j, d, dr);
    }
    forall c | InGrid(c, d)
      ensures 0 <= Src(c, d, dr) < d.Size() && Dest(Src(c, d, dr), d, dr) == c
    {
      DestSrc(c, d, dr);
    }
  }

  /** What cell `c` holds after the first `|vs|` values were scattered: the
      value written there last, or the initial `zero` if none went there. */
  function Written<V>(vs: seq<V>, d: Dims, dr: Int3, zero: V, c: Cell): V
    requires d.Positive()
    decreases |vs|
  {
    if vs == [] then zero
    else if Dest(|vs| - 1, d, dr) == c then vs[|vs| - 1]
    else Written(vs[..|vs| - 1], d, dr, zero, c)
  }

  /** After a scatter of at most one full grid, a cell holds the value whose
      number is `Src` if that many values were read, and `zero` otherwise. */
  lemma {:induction false} WrittenPrefix<V>(vs: seq<V>, d: Dims, dr: Int3, zero: V, c: Cell)
    requires d.Positive() && InGrid(c, d) && |vs| <= d.Size()
    ensures Written(vs, d, dr, zero, c) ==
      if Src(c, d, dr) < |vs| then vs[Src(c, d, dr)] else zero
    decreases |vs|
  {
    DestSrc(c, d, dr);
    if vs != [] {
      var last := |vs| - 1;
      WrittenPrefix(vs[..last], d, dr, zero, c);
      if Dest(last, d, dr) == c {
        SrcDest(last, d, dr);
      }
    }
  }

  /** The shifted grid in file order, as the scatter leaves it. */
  function ShiftedLayout<V>(vs: seq<V>, d: Dims, dr: Int3, zero: V): (r: seq<V>)
    requires d.Positive()
    ensures |r| == d.Size()
  {
    seq(d.Size(), p requires 0 <= p < d.Size() => Written(vs, d, dr, zero, CellOf(p, d)))
  }

  /** A full grid is permuted: the value at file position `p` after the shift
      is the one that stood at the file position of the cell `p` came from. */
  lemma ShiftedFull<V>(vs: seq<V>, d: Dims, dr: Int3, zero: V, p: int)
    requires d.Positive() && |vs| == d.Size() && 0 <= p < d.Size()
    ensures 0 <= Src(CellOf(p, d), d, dr) < |vs|
    ensures ShiftedLayout(vs, d, dr, zero)[p] == vs[Src(CellOf(p, d), d, dr)]
  {
    var c := CellOf(p, d);
    var s := Src(c, d, dr);
    DestSrc(c, d, dr);
    assert 0 <= s < |vs|;
    WrittenPrefix(vs, d, dr, zero, c);
    assert Written(vs, d, dr, zero, c) == vs[s];
  }

  lemma MoveZero(c: Cell, d: Dims)
    requires d.Positive() && InGrid(c, d)
    ensures Move(c, Negate([0, 0, 0]), d) == c
  {
    assert Negate([0, 0, 0]) == [0, 0, 0];
    ModSmall(c.ix, d.nx);
    ModSmall(c.iy, d.ny);
    ModSmall(c.iz, d.nz);
  }

  /** A zero offset is the identity on file order. */
  lemma ZeroShiftIdentity<V>(vs: seq<V>, d: Dims, zero: V)
    requires d.Positive() && |vs| == d.Size()
    ensures ShiftedLayout(vs, d, [0, 0, 0], zero) == vs
  {
    var r := ShiftedLayout(vs, d, [0, 0, 0], zero);
    forall p | 0 <= p < |vs|
      ensures r[p] == vs[p]
    {
      var c := CellOf(p, d);
      ShiftedFull(vs, d, [0, 0, 0], zero, p);
      MoveZero(c, d);
      LinearCellOf(p, d);
    }
  }

  /** Shifting a full grid by `a` and the result by `b` is shifting it once by
      `a + b`. */
  lemma ShiftCompose<V>(vs: seq<V>, d: Dims, a: Int3, b: Int3, zero: V)
    requires d.Positive() && |vs| == d.Size()
    ensures ShiftedLayout(ShiftedLayout(vs, d, a, zero), d, b, zero) ==
            ShiftedLayout(vs, d, Add(a, b), zero)
  {
    var once := ShiftedLayout(vs, d, a, zero);
    forall p | 0 <= p < d.Size()
      ensures ShiftedLayout(once, d, b, zero)[p] == ShiftedLayout(vs, d, Add(a, b), zero)[p]
    {
      var c := CellOf(p, d);
      var back := Move(c, Negate(b), d);
      ShiftedFull(once, d, b, zero, p);
      CellOfLinear(back, d);
      ShiftedFull(vs, d, a, zero, Linear(back, d));
      ShiftedFull(vs, d, Add(a, b), zero, p);
      MoveTwice(c, Negate(b), Negate(a), d);
      assert Add(Negate(b), Negate(a)) == Negate(Add(a, b));
    }
  }

  /** Shifting a full grid back by the opposite offsets restores it: no value
      is lost or duplicated by the scatter. */
  lemma ShiftBack<V>(vs: seq<V>, d: Dims, dr: Int3, zero: V)
    requires d.Positive() && |vs| == d.Size()
    ensures ShiftedLayout(ShiftedLayout(vs, d, dr, zero), d, Negate(dr), zero) == vs
  {
    ShiftCompose(vs, d, dr, Negate(dr), zero);
    assert Add(dr, Negate(dr)) == [0, 0, 0];
    ZeroShiftIdentity(vs, d, zero);
  }

  /** The sample counts of a grid stored as `data[iz, iy, ix]`. */
  function DimsOf<V>(data: array3<V>): Dims {
    Dims(data.Length2, data.Length1, data.Length0)
  }

  /** The values of a grid in file order: x fastest, then y, then z. */
  function Layout<V>(data: array3<V>): (r: seq<V>)
    reads data
    ensures DimsOf(data).Positive() ==> |r| == DimsOf(data).Size()
    ensures forall p :: 0 <= p < |r| ==> (DimsOf(data).Positive() &&
      r[p] == data[CellOf(p, DimsOf(data)).iz, CellOf(p, DimsOf(data)).iy, CellOf(p, DimsOf(data)).ix])
  {
    var d := DimsOf(data);
    if d.Positive() then
      seq(d.Size(), p requires 0 <= p < d.Size() reads data =>
        data[CellOf(p, d).iz, CellOf(p, d).iy, CellOf(p, d).ix])
    else []
  }

  /** Scattering one more value changes only the cell it goes to. */
  lemma WrittenStep<V>(vs: seq<V>, d: Dims, dr: Int3, zero: V, count: int, c: Cell)
    requires d.Positive() && 0 <= count < |vs|
    ensures Written(vs[..count + 1], d, dr, zero, c) ==
      if Dest(count, d, dr) == c then vs[count] else Written(vs[..count], d, dr, zero, c)
  {
    assert vs[..count + 1][..count] == vs[..count];
  }

  /** A grid whose every cell holds what the scatter wrote there is, in file
      order, the shifted layout. */
  lemma LayoutIsShifted<V>(data: array3<V>, vs: seq<V>, d: Dims, dr: Int3, zero: V)
    requires d.Positive() && DimsOf(data) == d
    requires forall iz, iy, ix :: 0 <= iz < d.nz && 0 <= iy < d.ny && 0 <= ix < d.nx ==>
      data[iz, iy, ix] == Written(vs, d, dr, zero, Cell(ix, iy, iz))
    ensures Layout(data) == ShiftedLayout(vs, d, dr, zero)
  {
    var r := Layout(data);
    forall p | 0 <= p < d.Size()
      ensures r[p] == ShiftedLayout(vs, d, dr, zero)[p]
    {
    }
  }

  /** The counting loop of `main`: value number `count` is stored at its
      destination cell. The grid is allocated with shape `(nz, ny, nx)`, the
      shape the `[iz][iy][ix]` indexing needs (see `AsWrittenInBoundsIffCubic`
      for the shape the source allocates). */
  method Scatter<V>(values: seq<V>, d: Dims, dr: Int3, zero: V) returns (data: array3<V>)
    requires d.Positive()
    ensures DimsOf(data) == d
    ensures forall iz, iy, ix :: 0 <= iz < d.nz && 0 <= iy < d.ny && 0 <= ix < d.nx ==>
      data[iz, iy, ix] == Written(values, d, dr, zero, Cell(ix, iy, iz))
    ensures Layout(data) == ShiftedLayout(values, d, dr, zero)
  {
    data := new V[d.nz, d.ny, d.nx]((i, j, k) => zero);
    var count := 0;
    while count < |values|
      invariant 0 <= count <= |values|
      invariant DimsOf(data) == d
      invariant forall iz, iy, ix :: 0 <= iz < d.nz && 0 <= iy < d.ny && 0 <= ix < d.nx ==>
        data[iz, iy, ix] == Written(values[..count], d, dr, zero, Cell(ix, iy, iz))
    {
      var ix := count % d.nx;
      var iy := count / d.nx;
      var iz := count / (d.nx * d.ny);
      ix := (ix + dr[0]) % d.nx;
      iy := (iy + dr[1]) % d.ny;
      iz := (iz + dr[2]) % d.nz;
      assert Cell(ix, iy, iz) == Dest(count, d, dr);
      data[iz, iy, ix] := values[count];
      forall jz, jy, jx | 0 <= jz < d.nz && 0 <= jy < d.ny && 0 <= jx < d.nx
        ensures data[jz, jy, jx] == Written(values[..count + 1], d, dr, zero, Cell(jx, jy, jz))
      {
        WrittenStep(values, d, dr, zero, count, Cell(jx, jy, jz));
      }
      count := count + 1;
    }
    assert values[..count] == values;
    LayoutIsShifted(data, values, d, dr, zero);
  }

  /** The source stores value number `count` as `data[iz][iy][ix]` into
      `numpy.zeros((nx, ny, nz))`: the store stays inside that array only if
      `iz < nx` and `ix < nz`. */
  predicate AsWrittenStoreInBounds(count: int, d: Dims, dr: Int3)
    requires d.Positive() && count >= 0
  {
    var c := Dest(count, d, dr);
    c.iz < d.nx && c.iy < d.ny && c.ix < d.nz
  }

  /** With nx = 2, ny = nz = 1 and no offset, value number 1 goes to
      `data[0][0][1]` of an array of shape (2, 1, 1): `IndexError`. */
  lemma AsWrittenOutOfBounds()
    ensures !AsWrittenStoreInBounds(1, Dims(2, 1, 1), [0, 0, 0])
  {
  }

  /** For a full grid every store of the source is in bounds exactly when
      nx == nz, whatever the offsets. */
  lemma AsWrittenInBoundsIffCubic(d: Dims, dr: Int3)
    requires d.Positive()
    ensures (forall count :: 0 <= count < d.Size() ==> AsWrittenStoreInBounds(count, d, dr))
            <==> d.nx == d.nz
  {
    if forall count :: 0 <= count < d.Size() ==> AsWrittenStoreInBounds(count, d, dr) {
      var cx := Cell(d.nx - 1, 0, 0);
      DestSrc(cx, d, dr);
      assert AsWrittenStoreInBounds(Src(cx, d, dr), d, dr);
      var cz := Cell(0, 0, d.nz - 1);
      DestSrc(cz, d, dr);
      assert AsWrittenStoreInBounds(Src(cz, d, dr), d, dr);
    }
  }

  /** The writer loop of `main` reads `data[i, j, k]` with `i < nz`,
      `j < ny` and `k < nx` from the array the source allocates, of shape
      (nx, ny, nz). */
  predicate AsWrittenReadInBounds(i: int, j: int, k: int, d: Dims) {
    0 <= i < d.nx && 0 <= j < d.ny && 0 <= k < d.nz
  }

  /** With nx = 2, ny = nz = 1 the writer reads `data[0, 0, 1]` of an array
      of shape (2, 1, 1): `IndexError`, whatever values were read. */
  lemma AsWrittenReadOutOfBounds()
    ensures !AsWrittenReadInBounds(0, 0, 1, Dims(2, 1, 1))
  {
  }

  /** Every read of the writer loop is in bounds exactly when nx == nz. */
  lemma AsWrittenReadsInBoundsIffCubic(d: Dims)
    requires d.Positive()
    ensures (forall i, j, k :: 0 <= i < d.nz && 0 <= j < d.ny && 0 <= k < d.nx ==> AsWrittenReadInBounds(i, j, k, d))
            <==> d.nx == d.nz
  {
    if forall i, j, k :: 0 <= i < d.nz && 0 <= j < d.ny && 0 <= k < d.nx ==> AsWrittenReadInBounds(i, j, k, d) {
      assert AsWrittenReadInBounds(d.nz - 1, 0, 0, d);
      assert AsWrittenReadInBounds(0, 0, d.nx - 1, d);
    }
  }
}
