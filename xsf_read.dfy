/** `read_data` of shift_density.py: the XSF file is split into whitespace
    tokens, markers are looked up with `list.index`, and fixed numbers of
    tokens are read positionally after each marker with a moving cursor. */
module XsfRead {
  import opened Wrappers
  import opened Tokens
  import opened Numerals
  import opened GridShift
  import opened Lattice

  const PrimVec := "PRIMVEC"
  const PrimCoord := "PRIMCOORD"
  const BeginGrid := "BEGIN_DATAGRID_3D_density"
  const EndGrid := "END_DATAGRID_3D_density"

  predicate IsMarker(w: string) {
    w == PrimVec || w == PrimCoord || w == BeginGrid || w == EndGrid
  }

  /** Why reading stops: `list.index` found no marker (`ValueError`), the
      cursor ran past the last token (`IndexError`), `float`/`int` refused a
      token (`ValueError`), numpy refused a negative atom count, or the cell
      after `PRIMVEC` has no inverse (`LinAlgError`). */
  datatype ReadError =
    | MissingMarker(marker: string)
    | OutOfTokens
    | NotANumber(token: string)
    | NegativeAtomCount(count: int)
    | SingularCell

  datatype AtomRecord = AtomRecord(atType: string, coord: Vec3)

  /** What `read_data` returns: the cell, the atoms (count, labels and
      coordinates, as the `Atoms` object holds them), the sample counts, the
      grid origin and the grid value tokens. */
  datatype XsfData = XsfData(
    cell: Mat3,
    natoms: int,
    atTypes: seq<string>,
    atCoord: seq<Vec3>,
    nind: Int3,
    start: Vec3,
    values: seq<string>)

  /** `content.index(marker)`. */
  function Find(content: seq<string>, marker: string): (r: Result<nat, ReadError>)
    ensures r.Err? <==> marker !in content
    ensures r.Err? ==> r.error == MissingMarker(marker)
    ensures r.Ok? ==> IndexOf(content, marker) == Some(r.value)
  {
    match IndexOf(content, marker)
    case None => Err(MissingMarker(marker))
    case Some(i) => Ok(i)
  }

  /** Token `j` exists and `conv` accepts it. */
  predicate TokenConverts<T>(content: seq<string>, j: nat, conv: string -> Option<T>) {
    j < |content| && conv(content[j]).Some?
  }

  /** Every one of the `n` tokens from `cursor` on exists and converts. */
  predicate AllConvert<T>(content: seq<string>, cursor: nat, n: nat, conv: string -> Option<T>) {
    forall j :: cursor <= j < cursor + n ==> TokenConverts(content, j, conv)
  }

  /** `n` successive tokens from `cursor` on, each converted by `conv`; the
      first token that is missing or that `conv` refuses stops the reading. */
  function Convert<T>(content: seq<string>, cursor: nat, n: nat, conv: string -> Option<T>)
    : (r: Result<seq<T>, ReadError>)
    ensures r.Ok? ==> |r.value| == n
    decreases n
  {
    if n == 0 then Ok([])
    else if cursor >= |content| then Err(OutOfTokens)
    else match conv(content[cursor])
      case None => Err(NotANumber(content[cursor]))
      case Some(x) =>
        var rest :- Convert(content, cursor + 1, n - 1, conv);
        Ok([x] + rest)
  }

  /** Token `j` converted by `conv`, or nothing when there is no such token. */
  function TokenValue<T>(content: seq<string>, j: int, conv: string -> Option<T>): (r: Option<T>)
    ensures r.Some? <==> 0 <= j && TokenConverts(content, j, conv)
  {
    if 0 <= j < |content| then conv(content[j]) else None
  }

  /** Converting succeeds exactly when every token is there and converts,
      and then value `k` is the conversion of token `cursor + k`. */
  lemma {:induction false} ConvertOk<T>(content: seq<string>, cursor: nat, n: nat, conv: string -> Option<T>)
    ensures Convert(content, cursor, n, conv).Ok? <==> AllConvert(content, cursor, n, conv)
    ensures Convert(content, cursor, n, conv).Ok? ==> forall k :: 0 <= k < n ==>
      TokenValue(content, cursor + k, conv) == Some(Convert(content, cursor, n, conv).value[k])
    decreases n
  {
    if n > 0 {
      ConvertOk(content, cursor + 1, n - 1, conv);
      var r := Convert(content, cursor, n, conv);
      if !TokenConverts(content, cursor, conv) {
        assert r.Err?;
      } else if !AllConvert(content, cursor + 1, n - 1, conv) {
        var j :| cursor + 1 <= j < cursor + n && !TokenConverts(content, j, conv);
        assert r.Err?;
      } else {
        var rest := Convert(content, cursor + 1, n - 1, conv).value;
        assert r.value == [conv(content[cursor]).value] + rest;
        forall j | cursor <= j < cursor + n
          ensures TokenConverts(content, j, conv)
        {
          if j > cursor {
            assert cursor + 1 <= j < cursor + 1 + (n - 1);
          }
        }
        forall k | 0 <= k < n
          ensures TokenValue(content, cursor + k, conv) == Some(r.value[k])
        {
          if k > 0 {
            assert r.value[k] == rest[k - 1];
            assert TokenValue(content, cursor + 1 + (k - 1), conv) == Some(rest[k - 1]);
          }
        }
      }
    }
  }

  /** `n` atoms from `cursor` on, each a type token and three coordinates. */
  function ReadAtoms(content: seq<string>, cursor: nat, n: nat, toFloat: string -> Option<real>)
    : (r: Result<seq<AtomRecord>, ReadError>)
    ensures r.Ok? ==> |r.value| == n
    decreases n
  {
    if n == 0 then Ok([])
    else if cursor >= |content| then Err(OutOfTokens)
    else
      var xyz :- Convert(content, cursor + 1, 3, toFloat);
      var rest :- ReadAtoms(content, cursor + 4, n - 1, toFloat);
      Ok([AtomRecord(content[cursor], xyz)] + rest)
  }

  /** Atom `k` is the type token at `cursor + 4k` and the three numbers after
      it. */
  predicate AtomAt(content: seq<string>, cursor: nat, k: nat, a: AtomRecord, toFloat: string -> Option<real>) {
    cursor + 4 * k + 3 < |content| &&
    a.atType == content[cursor + 4 * k] &&
    forall j :: 0 <= j < 3 ==> TokenValue(content, cursor + 4 * k + 1 + j, toFloat) == Some(a.coord[j])
  }

  lemma {:induction false} ReadAtomsOk(content: seq<string>, cursor: nat, n: nat, toFloat: string -> Option<real>)
    requires ReadAtoms(content, cursor, n, toFloat).Ok?
    ensures forall k :: 0 <= k < n ==>
      AtomAt(content, cursor, k, ReadAtoms(content, cursor, n, toFloat).value[k], toFloat)
    decreases n
  {
    if n > 0 {
      var atoms := ReadAtoms(content, cursor, n, toFloat).value;
      ReadAtomsHead(content, cursor, n, toFloat);
      var rest := ReadAtoms(content, cursor + 4, n - 1, toFloat).value;
      ReadAtomsOk(content, cursor + 4, n - 1, toFloat);
      FirstAtomAt(content, cursor, toFloat);
      forall k | 0 <= k < n
        ensures AtomAt(content, cursor, k, atoms[k], toFloat)
      {
        if k > 0 {
          assert atoms[k] == rest[k - 1];
          AtomAtNext(content, cursor, k, rest[k - 1], toFloat);
        }
      }
    }
  }

  /** A successful read of `n > 0` atoms is the first atom, then the rest. */
  lemma ReadAtomsHead(content: seq<string>, cursor: nat, n: nat, toFloat: string -> Option<real>)
    requires n > 0 && ReadAtoms(content, cursor, n, toFloat).Ok?
    ensures cursor < |content|
    ensures Convert(content, cursor + 1, 3, toFloat).Ok?
    ensures ReadAtoms(content, cursor + 4, n - 1, toFloat).Ok?
    ensures ReadAtoms(content, cursor, n, toFloat).value ==
      [AtomRecord(content[cursor], Convert(content, cursor + 1, 3, toFloat).value)] +
      ReadAtoms(content, cursor + 4, n - 1, toFloat).value
  {
  }

  /** The first atom is read from the four tokens at the cursor. */
  lemma FirstAtomAt(content: seq<string>, cursor: nat, toFloat: string -> Option<real>)
    requires cursor < |content| && Convert(content, cursor + 1, 3, toFloat).Ok?
    ensures AtomAt(content, cursor, 0, AtomRecord(content[cursor], Convert(content, cursor + 1, 3, toFloat).value), toFloat)
  {
    ConvertOk(content, cursor + 1, 3, toFloat);
    assert TokenConverts(content, cursor + 3, toFloat);
  }

  /** Atom `k - 1` after the first is atom `k` counted from the cursor. */
  lemma AtomAtNext(content: seq<string>, cursor: nat, k: nat, a: AtomRecord, toFloat: string -> Option<real>)
    requires k > 0 && AtomAt(content, cursor + 4, k - 1, a, toFloat)
    ensures AtomAt(content, cursor, k, a, toFloat)
  {
    assert cursor + 4 + 4 * (k - 1) == cursor + 4 * k;
  }

  /** Nine values, row-major, as a 3x3 matrix. */
  function Rows(xs: seq<real>): (m: Mat3)
    requires |xs| == 9
    ensures forall i, j :: 0 <= i < 3 && 0 <= j < 3 ==> m[i][j] == xs[3 * i + j]
  {
    [xs[0..3], xs[3..6], xs[6..9]]
  }

  function Labels(atoms: seq<AtomRecord>): (r: seq<string>)
    ensures |r| == |atoms| && forall k :: 0 <= k < |r| ==> r[k] == atoms[k].atType
  {
    seq(|atoms|, k requires 0 <= k < |atoms| => atoms[k].atType)
  }

  function Coords(atoms: seq<AtomRecord>): (r: seq<Vec3>)
    ensures |r| == |atoms| && forall k :: 0 <= k < |r| ==> r[k] == atoms[k].coord
  {
    seq(|atoms|, k requires 0 <= k < |atoms| => atoms[k].coord)
  }

  /** Python's slice `content[lo:hi]` for in-range bounds: empty when `lo`
      is not below `hi`. */
  function Slice(content: seq<string>, lo: nat, hi: nat): seq<string>
    requires hi <= |content|
  {
    if lo < hi then content[lo..hi] else []
  }

  /** The atom block: the count after `PRIMCOORD`, one skipped token, then
      the atoms. */
  datatype AtomBlock = AtomBlock(natoms: nat, atoms: seq<AtomRecord>)

  function ParseAtoms(content: seq<string>, toFloat: string -> Option<real>): (r: Result<AtomBlock, ReadError>)
    ensures r.Ok? ==> |r.value.atoms| == r.value.natoms
  {
    var q :- Find(content, PrimCoord);
    var count :- Convert(content, q + 1, 1, ParseInt);
    if count[0] < 0 then Err(NegativeAtomCount(count[0])) else
    var atoms :- ReadAtoms(content, q + 3, count[0], toFloat);
    Ok(AtomBlock(count[0], atoms))
  }

  /** The data-grid header and values: three counts, three origin numbers,
      nine basis numbers, then the tokens up to `END_DATAGRID_3D_density`. */
  datatype GridBlock = GridBlock(nind: Int3, start: Vec3, basis: Mat3, values: seq<string>)

  function ParseGrid(content: seq<string>, toFloat: string -> Option<real>): (r: Result<GridBlock, ReadError>)
    ensures BeginGrid !in content || EndGrid !in content ==> r.Err?
  {
    var b :- Find(content, BeginGrid);
    GridAfter(content, b, toFloat)
  }

  /** The grid block read after `BEGIN_DATAGRID_3D_density` at position `b`. */
  function GridAfter(content: seq<string>, b: nat, toFloat: string -> Option<real>): (r: Result<GridBlock, ReadError>)
    ensures EndGrid !in content ==> r.Err?
  {
    var nind :- Convert(content, b + 1, 3, ParseInt);
    var start :- Convert(content, b + 4, 3, toFloat);
    var basis :- Convert(content, b + 7, 9, toFloat);
    var e :- Find(content, EndGrid);
    Ok(GridBlock(nind, start, Rows(basis), Slice(content, b + 16, e)))
  }

  /** What `read_data` computes from the token list, or the error it raises
      first. The cell read after `PRIMVEC` is checked and then replaced by
      the grid basis, as the source overwrites it. */
  function Parse(content: seq<string>, toFloat: string -> Option<real>): (r: Result<XsfData, ReadError>)
    ensures PrimVec !in content ==> r == Err(MissingMarker(PrimVec))
    ensures PrimCoord !in content || BeginGrid !in content || EndGrid !in content ==> r.Err?
    ensures r.Ok? ==> (r.value.natoms >= 0 &&
      |r.value.atTypes| == r.value.natoms && |r.value.atCoord| == r.value.natoms)
  {
    var p :- Find(content, PrimVec);
    var first :- Convert(content, p + 1, 9, toFloat);
    if Singular(Rows(first)) then Err(SingularCell) else
    var a :- ParseAtoms(content, toFloat);
    var g :- ParseGrid(content, toFloat);
    Ok(XsfData(g.basis, a.natoms, Labels(a.atoms), Coords(a.atoms), g.nind, g.start, g.values))
  }

  /** Where a successful read took the atoms from. */
  predicate AtomsAt(content: seq<string>, q: nat, d: XsfData, toFloat: string -> Option<real>) {
    d.natoms >= 0 && |d.atTypes| == d.natoms && |d.atCoord| == d.natoms &&
    TokenValue(content, q + 1, ParseInt) == Some(d.natoms) &&
    forall k :: 0 <= k < d.natoms ==> AtomAt(content, q + 3, k, AtomRecord(d.atTypes[k], d.atCoord[k]), toFloat)
  }

  /** The three sample counts were read from the tokens after `b`. */
  predicate CountsAt(content: seq<string>, b: nat, nind: Int3) {
    forall i :: 0 <= i < 3 ==> TokenValue(content, b + 1 + i, ParseInt) == Some(nind[i])
  }

  /** The origin was read from the three tokens after the counts. */
  predicate StartAt(content: seq<string>, b: nat, start: Vec3, toFloat: string -> Option<real>) {
    forall i :: 0 <= i < 3 ==> TokenValue(content, b + 4 + i, toFloat) == Some(start[i])
  }

  /** The basis was read row by row from the nine tokens after the origin. */
  predicate BasisAt(content: seq<string>, b: nat, cell: Mat3, toFloat: string -> Option<real>) {
    forall i, j :: 0 <= i < 3 && 0 <= j < 3 ==>
      TokenValue(content, b + 7 + 3 * i + j, toFloat) == Some(cell[i][j])
  }

  /** Where a successful read took the grid from. */
  predicate GridAt(content: seq<string>, b: nat, e: nat, d: XsfData, toFloat: string -> Option<real>) {
    b + 15 < |content| && e < |content| &&
    CountsAt(content, b, d.nind) && StartAt(content, b, d.start, toFloat) &&
    BasisAt(content, b, d.cell, toFloat) && d.values == Slice(content, b + 16, e)
  }

  lemma AtomsOk(content: seq<string>, toFloat: string -> Option<real>, d: XsfData)
    requires ParseAtoms(content, toFloat).Ok?
    requires d.natoms == ParseAtoms(content, toFloat).value.natoms
    requires d.atTypes == Labels(ParseAtoms(content, toFloat).value.atoms)
    requires d.atCoord == Coords(ParseAtoms(content, toFloat).value.atoms)
    ensures IndexOf(content, PrimCoord).Some?
    ensures AtomsAt(content, IndexOf(content, PrimCoord).value, d, toFloat)
  {
    var q := Find(content, PrimCoord).value;
    ConvertOk(content, q + 1, 1, ParseInt);
    var a := ParseAtoms(content, toFloat).value;
    ReadAtomsOk(content, q + 3, a.natoms, toFloat);
    forall k | 0 <= k < d.natoms
      ensures AtomAt(content, q + 3, k, AtomRecord(d.atTypes[k], d.atCoord[k]), toFloat)
    {
      assert AtomRecord(d.atTypes[k], d.atCoord[k]) == a.atoms[k];
    }
  }

  /** The nine basis numbers read from `cursor` on, row by row. */
  lemma RowsAt(content: seq<string>, cursor: nat, toFloat: string -> Option<real>)
    requires Convert(content, cursor, 9, toFloat).Ok?
    ensures cursor + 8 < |content|
    ensures forall i, j :: 0 <= i < 3 && 0 <= j < 3 ==>
      TokenValue(content, cursor + 3 * i + j, toFloat) == Some(Rows(Convert(content, cursor, 9, toFloat).value)[i][j])
  {
    var xs := Convert(content, cursor, 9, toFloat).value;
    ConvertOk(content, cursor, 9, toFloat);
    assert TokenConverts(content, cursor + 8, toFloat);
    forall i, j | 0 <= i < 3 && 0 <= j < 3
      ensures TokenValue(content, cursor + 3 * i + j, toFloat) == Some(Rows(xs)[i][j])
    {
      assert Rows(xs)[i][j] == xs[3 * i + j];
    }
  }

  /** A successful read of the grid block after `b` converted the three
      counts, the three origin numbers and the nine basis numbers, found
      `END_DATAGRID_3D_density`, and is made of those. */
  lemma GridAfterOk(content: seq<string>, b: nat, toFloat: string -> Option<real>)
    requires GridAfter(content, b, toFloat).Ok?
    ensures Convert(content, b + 1, 3, ParseInt).Ok?
    ensures Convert(content, b + 4, 3, toFloat).Ok?
    ensures Convert(content, b + 7, 9, toFloat).Ok?
    ensures Find(content, EndGrid).Ok?
    ensures GridAfter(content, b, toFloat).value == GridBlock(
      Convert(content, b + 1, 3, ParseInt).value, Convert(content, b + 4, 3, toFloat).value,
      Rows(Convert(content, b + 7, 9, toFloat).value), Slice(content, b + 16, Find(content, EndGrid).value))
  {
  }

  lemma CountsFrom(content: seq<string>, b: nat)
    requires Convert(content, b + 1, 3, ParseInt).Ok?
    ensures CountsAt(content, b, Convert(content, b + 1, 3, ParseInt).value)
  {
    ConvertOk(content, b + 1, 3, ParseInt);
  }

  lemma StartFrom(content: seq<string>, b: nat, toFloat: string -> Option<real>)
    requires Convert(content, b + 4, 3, toFloat).Ok?
    ensures StartAt(content, b, Convert(content, b + 4, 3, toFloat).value, toFloat)
  {
    ConvertOk(content, b + 4, 3, toFloat);
  }

  lemma BasisFrom(content: seq<string>, b: nat, toFloat: string -> Option<real>)
    requires Convert(content, b + 7, 9, toFloat).Ok?
    ensures b + 15 < |content|
    ensures BasisAt(content, b, Rows(Convert(content, b + 7, 9, toFloat).value), toFloat)
  {
    RowsAt(content, b + 7, toFloat);
  }

  lemma GridOk(content: seq<string>, toFloat: string -> Option<real>, d: XsfData)
    requires ParseGrid(content, toFloat).Ok?
    requires var g := ParseGrid(content, toFloat).value;
      d.nind == g.nind && d.start == g.start && d.cell == g.basis && d.values == g.values
    ensures IndexOf(content, BeginGrid).Some? && IndexOf(content, EndGrid).Some?
    ensures GridAt(content, IndexOf(content, BeginGrid).value, IndexOf(content, EndGrid).value, d, toFloat)
  {
    var b := Find(content, BeginGrid).value;
    assert ParseGrid(content, toFloat) == GridAfter(content, b, toFloat);
    GridAfterOk(content, b, toFloat);
    CountsFrom(content, b);
    StartFrom(content, b, toFloat);
    BasisFrom(content, b, toFloat);
  }

  /** A successful read found all four markers, read nine numbers after the
      first `PRIMVEC`, took the atom count after `PRIMCOORD` and the atoms
      four tokens at a time after the dummy token, and took the sample
      counts, the origin, the basis and the value tokens after
      `BEGIN_DATAGRID_3D_density`; the cell returned is that basis. */
  lemma ParseOk(content: seq<string>, toFloat: string -> Option<real>)
    requires Parse(content, toFloat).Ok?
    ensures IndexOf(content, PrimVec).Some?
    ensures AllConvert(content, IndexOf(content, PrimVec).value + 1, 9, toFloat)
    ensures var first := Convert(content, IndexOf(content, PrimVec).value + 1, 9, toFloat);
      first.Ok? && !Singular(Rows(first.value))
    ensures IndexOf(content, PrimCoord).Some?
    ensures AtomsAt(content, IndexOf(content, PrimCoord).value, Parse(content, toFloat).value, toFloat)
    ensures IndexOf(content, BeginGrid).Some? && IndexOf(content, EndGrid).Some?
    ensures GridAt(content, IndexOf(content, BeginGrid).value, IndexOf(content, EndGrid).value,
                   Parse(content, toFloat).value, toFloat)
  {
    ParseCellOk(content, toFloat);
    ParseAtomsOk(content, toFloat);
    ParseGridOk(content, toFloat);
  }

  /** The pieces a successful `Parse` is made of. */
  lemma ParseParts(content: seq<string>, toFloat: string -> Option<real>)
    requires Parse(content, toFloat).Ok?
    ensures Find(content, PrimVec).Ok?
    ensures var first := Convert(content, Find(content, PrimVec).value + 1, 9, toFloat);
      first.Ok? && !Singular(Rows(first.value))
    ensures ParseAtoms(content, toFloat).Ok? && ParseGrid(content, toFloat).Ok?
    ensures var a, g := ParseAtoms(content, toFloat).value, ParseGrid(content, toFloat).value;
      Parse(content, toFloat).value == XsfData(g.basis, a.natoms, Labels(a.atoms), Coords(a.atoms), g.nind, g.start, g.values)
  {
  }

  lemma ParseCellOk(content: seq<string>, toFloat: string -> Option<real>)
    requires Parse(content, toFloat).Ok?
    ensures IndexOf(content, PrimVec).Some?
    ensures AllConvert(content, IndexOf(content, PrimVec).value + 1, 9, toFloat)
    ensures var first := Convert(content, IndexOf(content, PrimVec).value + 1, 9, toFloat);
      first.Ok? && !Singular(Rows(first.value))
  {
    ParseParts(content, toFloat);
    ConvertOk(content, Find(content, PrimVec).value + 1, 9, toFloat);
  }

  lemma ParseAtomsOk(content: seq<string>, toFloat: string -> Option<real>)
    requires Parse(content, toFloat).Ok?
    ensures IndexOf(content, PrimCoord).Some?
    ensures AtomsAt(content, IndexOf(content, PrimCoord).value, Parse(content, toFloat).value, toFloat)
  {
    ParseParts(content, toFloat);
    AtomsOk(content, toFloat, Parse(content, toFloat).value);
  }

  lemma ParseGridOk(content: seq<string>, toFloat: string -> Option<real>)
    requires Parse(content, toFloat).Ok?
    ensures IndexOf(content, BeginGrid).Some? && IndexOf(content, EndGrid).Some?
    ensures GridAt(content, IndexOf(content, BeginGrid).value, IndexOf(content, EndGrid).value,
                   Parse(content, toFloat).value, toFloat)
  {
    ParseParts(content, toFloat);
    GridOk(content, toFloat, Parse(content, toFloat).value);
  }

  /** Prefixes the values already read to the result of reading the rest. */
  function Prepend<T>(xs: seq<T>, r: Result<seq<T>, ReadError>): Result<seq<T>, ReadError> {
    match r
    case Ok(ys) => Ok(xs + ys)
    case Err(e) => Err(e)
  }

  lemma PrependNil<T>(r: Result<seq<T>, ReadError>)
    ensures Prepend([], r) == r
  {
    if r.Ok? {
      assert [] + r.value == r.value;
    }
  }

  lemma PrependAssoc<T>(xs: seq<T>, x: T, r: Result<seq<T>, ReadError>)
    ensures Prepend(xs, Prepend([x], r)) == Prepend(xs + [x], r)
  {
    if r.Ok? {
      assert xs + ([x] + r.value) == xs + [x] + r.value;
    }
  }

  /** One of the cursor loops of `read_data`: `n` tokens converted one by one,
      the cursor moving past each. */
  method ReadTokens<T>(content: seq<string>, cursor: nat, n: nat, conv: string -> Option<T>)
    returns (r: Result<seq<T>, ReadError>, next: nat)
    ensures r == Convert(content, cursor, n, conv)
    ensures r.Ok? ==> next == cursor + n
  {
    var xs: seq<T> := [];
    next := cursor;
    var i := 0;
    PrependNil(Convert(content, cursor, n, conv));
    while i < n
      invariant 0 <= i <= n && next == cursor + i
      invariant Convert(content, cursor, n, conv) == Prepend(xs, Convert(content, next, n - i, conv))
    {
      if next >= |content| {
        return Err(OutOfTokens), next;
      }
      var x := conv(content[next]);
      if x.None? {
        return Err(NotANumber(content[next])), next;
      }
      PrependAssoc(xs, x.value, Convert(content, next + 1, n - i - 1, conv));
      xs := xs + [x.value];
      next := next + 1;
      i := i + 1;
    }
    assert xs + [] == xs;
    r := Ok(xs);
  }

  /** The atom part of `read_data`: from `PRIMCOORD` on. */
  method ReadAtomBlock(content: seq<string>, toFloat: string -> Option<real>)
    returns (r: Result<AtomBlock, ReadError>)
    ensures r == ParseAtoms(content, toFloat)
  {
    var q := IndexOf(content, PrimCoord);
    if q.None? {
      return Err(MissingMarker(PrimCoord));
    }
    var cursor := q.value + 1;
    var count;
    count, cursor := ReadTokens(content, cursor, 1, ParseInt);
    if count.Err? {
      return Err(count.error);
    }
    var natoms := count.value[0];
    cursor := cursor + 1;  // the dummy token after the atom count
    if natoms < 0 {
      return Err(NegativeAtomCount(natoms));
    }
    var atoms := ReadAtomList(content, cursor, natoms, toFloat);
    if atoms.Err? {
      return Err(atoms.error);
    }
    r := Ok(AtomBlock(natoms, atoms.value));
  }

  /** The `for i in range(nat)` loop: `n` atoms from `cursor` on. */
  method ReadAtomList(content: seq<string>, cursor: nat, n: nat, toFloat: string -> Option<real>)
    returns (r: Result<seq<AtomRecord>, ReadError>)
    ensures r == ReadAtoms(content, cursor, n, toFloat)
  {
    var atoms: seq<AtomRecord> := [];
    var i, next := 0, cursor;
    PrependNil(ReadAtoms(content, cursor, n, toFloat));
    while i < n
      invariant 0 <= i <= n && next == cursor + 4 * i
      invariant ReadAtoms(content, cursor, n, toFloat) == Prepend(atoms, ReadAtoms(content, next, n - i, toFloat))
    {
      var a;
      a, next := ReadAtom(content, next, n - i, toFloat);
      if a.Err? {
        return Err(a.error);
      }
      PrependAssoc(atoms, a.value, ReadAtoms(content, next, n - i - 1, toFloat));
      atoms := atoms + [a.value];
      i := i + 1;
    }
    assert atoms + [] == atoms;
    r := Ok(atoms);
  }

  /** One pass of the atom loop: the label at the cursor and the three
      coordinates after it. */
  method ReadAtom(content: seq<string>, cursor: nat, ghost m: nat, toFloat: string -> Option<real>)
    returns (r: Result<AtomRecord, ReadError>, next: nat)
    requires m > 0
    ensures r.Err? ==> ReadAtoms(content, cursor, m, toFloat) == Err(r.error)
    ensures r.Ok? ==> next == cursor + 4
    ensures r.Ok? ==>
      ReadAtoms(content, cursor, m, toFloat) == Prepend([r.value], ReadAtoms(content, next, m - 1, toFloat))
  {
    if cursor >= |content| {
      return Err(OutOfTokens), cursor;
    }
    var atType := content[cursor];
    var xyz;
    xyz, next := ReadTokens(content, cursor + 1, 3, toFloat);
    if xyz.Err? {
      return Err(xyz.error), next;
    }
    r := Ok(AtomRecord(atType, xyz.value));
  }

  /** The data-grid part of `read_data`: from `BEGIN_DATAGRID_3D_density` on. */
  method ReadGridBlock(content: seq<string>, toFloat: string -> Option<real>)
    returns (r: Result<GridBlock, ReadError>)
    ensures r == ParseGrid(content, toFloat)
  {
    var b := IndexOf(content, BeginGrid);
    if b.None? {
      return Err(MissingMarker(BeginGrid));
    }
    var cursor := b.value + 1;
    var nind;
    nind, cursor := ReadTokens(content, cursor, 3, ParseInt);
    if nind.Err? {
      return Err(nind.error);
    }
    var start;
    start, cursor := ReadTokens(content, cursor, 3, toFloat);
    if start.Err? {
      return Err(start.error);
    }
    var basis;
    basis, cursor := ReadTokens(content, cursor, 9, toFloat);
    if basis.Err? {
      return Err(basis.error);
    }
    var e := IndexOf(content, EndGrid);
    if e.None? {
      return Err(MissingMarker(EndGrid));
    }
    var values := if cursor < e.value then content[cursor..e.value] else [];
    r := Ok(GridBlock(nind.value, start.value, Rows(basis.value), values));
  }

  /** `read_data` on the token list `content` of the file. */
  method ReadData(content: seq<string>, toFloat: string -> Option<real>)
    returns (r: Result<XsfData, ReadError>)
    ensures r == Parse(content, toFloat)
  {
    var p := IndexOf(content, PrimVec);
    if p.None? {
      return Err(MissingMarker(PrimVec));
    }
    var first, cursor := ReadTokens(content, p.value + 1, 9, toFloat);
    if first.Err? {
      return Err(first.error);
    }
    if Singular(Rows(first.value)) {
      return Err(SingularCell);
    }
    var a := ReadAtomBlock(content, toFloat);
    if a.Err? {
      return Err(a.error);
    }
    var g := ReadGridBlock(content, toFloat);
    if g.Err? {
      return Err(g.error);
    }
    r := Ok(XsfData(g.value.basis, a.value.natoms, Labels(a.value.atoms), Coords(a.value.atoms),
                    g.value.nind, g.value.start, g.value.values));
  }
}
