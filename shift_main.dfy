/** `main` of shift_density.py: read the displacement and the file, move the
    atoms, turn the displacement into grid offsets, scatter the grid values
    to their shifted cells and write the shifted file. The file system and
    the prompts are replaced by parameters and a returned name and text;
    Python's `float` and the two float formats are parameters too. */
module ShiftDensity {
  import opened Wrappers
  import opened Tokens
  import opened GridShift
  import opened Lattice
  import opened XsfRead
  import opened XsfAtoms
  import opened XsfHead
  import opened XsfWrite

  /** `v + w`, component by component. */
  function Plus(v: Vec3, w: Vec3): (r: Vec3)
    ensures forall j :: 0 <= j < 3 ==> r[j] == v[j] + w[j]
  {
    [v[0] + w[0], v[1] + w[1], v[2] + w[2]]
  }

  function Minus(v: Vec3): (r: Vec3)
    ensures forall j :: 0 <= j < 3 ==> r[j] == -v[j]
  {
    [-v[0], -v[1], -v[2]]
  }

  /** Every atom moved by the displacement. */
  function Translated(coords: seq<Vec3>, delta: Vec3): (r: seq<Vec3>)
    ensures |r| == |coords|
    ensures forall i, j :: 0 <= i < |r| && 0 <= j < 3 ==> r[i][j] == coords[i][j] + delta[j]
  {
    seq(|coords|, i requires 0 <= i < |coords| => Plus(coords[i], delta))
  }

  /** A zero displacement leaves every atom where it was. */
  lemma TranslatedZero(coords: seq<Vec3>)
    ensures Translated(coords, [0.0, 0.0, 0.0]) == coords
  {
    var r := Translated(coords, [0.0, 0.0, 0.0]);
    forall i | 0 <= i < |coords|
      ensures r[i] == coords[i]
    {
      assert r[i][0] == coords[i][0] && r[i][1] == coords[i][1] && r[i][2] == coords[i][2];
    }
  }

  /** Moving by `delta` and then by `-delta` puts every atom back. */
  lemma TranslatedBack(coords: seq<Vec3>, delta: Vec3)
    ensures Translated(Translated(coords, delta), Minus(delta)) == coords
  {
    var r := Translated(Translated(coords, delta), Minus(delta));
    forall i | 0 <= i < |coords|
      ensures r[i] == coords[i]
    {
      assert r[i][0] == coords[i][0] && r[i][1] == coords[i][1] && r[i][2] == coords[i][2];
    }
  }

  /** Two moves in a row are one move by the sum. */
  lemma TranslatedCompose(coords: seq<Vec3>, a: Vec3, b: Vec3)
    ensures Translated(Translated(coords, a), b) == Translated(coords, Plus(a, b))
  {
    var r := Translated(Translated(coords, a), b);
    var s := Translated(coords, Plus(a, b));
    forall i | 0 <= i < |coords|
      ensures r[i] == s[i]
    {
      assert r[i][0] == s[i][0] && r[i][1] == s[i][1] && r[i][2] == s[i][2];
    }
  }

  /** The loop of `main` adding `delta[j]` to coordinate `j` of every atom,
      in place. */
  method TranslateAtoms(atoms: Atoms, delta: Vec3)
    requires atoms.Valid()
    modifies atoms
    ensures atoms.atCoord == Translated(old(atoms.atCoord), delta)
    ensures atoms.natoms == old(atoms.natoms) && atoms.atTypes == old(atoms.atTypes)
    ensures atoms.Valid()
  {
    ghost var orig := atoms.atCoord;
    for i := 0 to atoms.natoms
      invariant atoms.natoms == old(atoms.natoms) && atoms.atTypes == old(atoms.atTypes)
      invariant |atoms.atCoord| == |orig|
      invariant forall k :: 0 <= k < i ==> atoms.atCoord[k] == Plus(orig[k], delta)
      invariant forall k :: i <= k < |orig| ==> atoms.atCoord[k] == orig[k]
    {
      for j := 0 to 3
        invariant atoms.natoms == old(atoms.natoms) && atoms.atTypes == old(atoms.atTypes)
        invariant |atoms.atCoord| == |orig|
        invariant forall k :: 0 <= k < i ==> atoms.atCoord[k] == Plus(orig[k], delta)
        invariant forall k :: i < k < |orig| ==> atoms.atCoord[k] == orig[k]
        invariant forall m :: 0 <= m < 3 ==>
          atoms.atCoord[i][m] == if m < j then orig[i][m] + delta[m] else orig[i][m]
      {
        var row := atoms.atCoord[i];
        atoms.atCoord := atoms.atCoord[i := row[j := row[j] + delta[j]]];
      }
      assert atoms.atCoord[i] == Plus(orig[i], delta);
    }
    assert atoms.atCoord == Translated(orig, delta);
  }

  /** Why `main` stops before the output file is opened. */
  datatype ShiftError =
    | BadShift(cause: ReadError)   // fewer than three shift numbers, or `float` refuses one
    | BadInput(cause: ReadError)   // `read_data` fails
    | SingularBasis                // `numpy.linalg.inv` of the grid basis in `get_shift`
    | NegativeCount                // `numpy.zeros` refuses a negative dimension
    | ZeroCount                    // `% nind[i]` with a zero sample count
    | BadValue(cause: ReadError)   // a grid value that `float` refuses

  /** The output file's name and contents. */
  datatype Output = Output(name: string, text: string)

  /** `read_input`: the first three tokens of the answer, as floats. */
  function ParseShift(line: string, toFloat: string -> Option<real>): (r: Result<Vec3, ShiftError>)
    ensures r.Ok? <==> AllConvert(Split(line), 0, 3, toFloat)
  {
    ConvertOk(Split(line), 0, 3, toFloat);
    match Convert(Split(line), 0, 3, toFloat)
    case Err(e) => Err(BadShift(e))
    case Ok(xs) => Ok(xs)
  }

  function GridDims(nind: Int3): Dims {
    Dims(nind[0], nind[1], nind[2])
  }

  /** The grid values as the scatter loop stores them: `numpy.zeros` refuses
      a negative count, the first value meets a `% 0` when a count is zero,
      and every value goes through `float`. */
  function GridValues(d: Dims, values: seq<string>, toFloat: string -> Option<real>)
    : (r: Result<seq<real>, ShiftError>)
    ensures r.Ok? ==> |r.value| == |values|
    ensures r.Ok? <==> d.nx >= 0 && d.ny >= 0 && d.nz >= 0 && (values == [] || d.Positive()) &&
                       AllConvert(values, 0, |values|, toFloat)
  {
    ConvertOk(values, 0, |values|, toFloat);
    if d.nx < 0 || d.ny < 0 || d.nz < 0 then Err(NegativeCount)
    else if values != [] && !d.Positive() then Err(ZeroCount)
    else match Convert(values, 0, |values|, toFloat)
      case Err(e) => Err(BadValue(e))
      case Ok(xs) => Ok(xs)
  }

  /** The grid after the scatter, in file order; a grid with a zero count
      holds nothing. */
  function ShiftedGrid(vals: seq<real>, d: Dims, dr: Int3): seq<real> {
    if d.Positive() then ShiftedLayout(vals, d, dr, 0.0) else []
  }

  /** What `main` does once the displacement and the file are read. */
  function ShiftRead(filename: string, delta: Vec3, x: XsfData, toFloat: string -> Option<real>,
                     fmt11: real -> string, fmt10: real -> string): (r: Result<Output, ShiftError>)
    requires x.natoms >= 0 && |x.atTypes| == x.natoms && |x.atCoord| == x.natoms
  {
    if Singular(x.cell) then Err(SingularBasis) else
    var dr := GridOffsets(Fractional(delta, x.cell), x.nind);
    var d := GridDims(x.nind);
    var vals :- GridValues(d, x.values, toFloat);
    Ok(Output(OutputName(filename),
              HeadText(x.cell, x.natoms, x.atTypes, Translated(x.atCoord, delta), x.nind, x.start, fmt11)
              + GridText(ShiftedGrid(vals, d, dr), fmt10) + TailText))
  }

  /** What `main` writes, and where, or why it stops. */
  function Shift(filename: string, shiftLine: string, fileText: string, toFloat: string -> Option<real>,
                 fmt11: real -> string, fmt10: real -> string): (r: Result<Output, ShiftError>)
    ensures r.Ok? ==> r.value.name == OutputName(filename)
  {
    var delta :- ParseShift(shiftLine, toFloat);
    match Parse(Split(fileText), toFloat)
    case Err(e) => Err(BadInput(e))
    case Ok(x) => ShiftRead(filename, delta, x, toFloat, fmt11, fmt10)
  }

  /** With a zero displacement and a full grid the output repeats the input:
      the atoms where they were and the values in their original order. */
  lemma ShiftZero(filename: string, x: XsfData, vals: seq<real>, toFloat: string -> Option<real>,
                  fmt11: real -> string, fmt10: real -> string)
    requires x.natoms >= 0 && |x.atTypes| == x.natoms && |x.atCoord| == x.natoms
    requires !Singular(x.cell) && GridDims(x.nind).Positive() && |x.values| == GridDims(x.nind).Size()
    requires Convert(x.values, 0, |x.values|, toFloat) == Ok(vals)
    ensures ShiftRead(filename, [0.0, 0.0, 0.0], x, toFloat, fmt11, fmt10) ==
      Ok(Output(OutputName(filename),
                HeadText(x.cell, x.natoms, x.atTypes, x.atCoord, x.nind, x.start, fmt11)
                + GridText(vals, fmt10) + TailText))
  {
    var d := GridDims(x.nind);
    assert GridValues(d, x.values, toFloat) == Ok(vals);
    FractionalZero(x.cell);
    ZeroDisplacementOffsets(x.nind);
    ZeroShiftIdentity(vals, d, 0.0);
    TranslatedZero(x.atCoord);
  }

  /** The grid the output holds, shifted back by the opposite offsets, is the
      grid that was read: the shift loses and duplicates no value. */
  lemma ShiftUndone(vals: seq<real>, nind: Int3, dr: Int3)
    requires GridDims(nind).Positive() && |vals| == GridDims(nind).Size()
    ensures ShiftedGrid(ShiftedGrid(vals, GridDims(nind), dr), GridDims(nind), Negate(dr)) == vals
  {
    ShiftBack(vals, GridDims(nind), dr, 0.0);
  }

  /** `main`, step by step as the source takes them. */
  method ShiftMain(filename: string, shiftLine: string, fileText: string, toFloat: string -> Option<real>,
                   fmt11: real -> string, fmt10: real -> string) returns (r: Result<Output, ShiftError>)
    ensures r == Shift(filename, shiftLine, fileText, toFloat, fmt11, fmt10)
  {
    var delta, _ := ReadTokens(Split(shiftLine), 0, 3, toFloat);
    if delta.Err? {
      return Err(BadShift(delta.error));
    }
    var read := ReadData(Split(fileText), toFloat);
    if read.Err? {
      return Err(BadInput(read.error));
    }
    r := ShiftAndWrite(filename, delta.value, read.value, toFloat, fmt11, fmt10);
  }

  /** The part of `main` after `read_data`: translate the atoms, compute the
      offsets, scatter the values and write the file. */
  method ShiftAndWrite(filename: string, delta: Vec3, x: XsfData, toFloat: string -> Option<real>,
                       fmt11: real -> string, fmt10: real -> string) returns (r: Result<Output, ShiftError>)
    requires x.natoms >= 0 && |x.atTypes| == x.natoms && |x.atCoord| == x.natoms
    ensures r == ShiftRead(filename, delta, x, toFloat, fmt11, fmt10)
  {
    var atoms := new Atoms(x.natoms, x.atTypes, x.atCoord);
    TranslateAtoms(atoms, delta);
    if Singular(x.cell) {
      return Err(SingularBasis);
    }
    var dr := GridOffsets(Fractional(delta, x.cell), x.nind);
    var d := GridDims(x.nind);
    var data := ScatterValues(d, x.values, dr, toFloat);
    if data.Err? {
      return Err(data.error);
    }
    var head := WriteHead(x.cell, atoms, x.nind, x.start, fmt11);
    var grid := WriteGrid(data.value, fmt10);
    var tail := WriteTail();
    r := Ok(Output(OutputName(filename), head + grid + tail));
  }

  /** `numpy.zeros` and the counting loop: the grid array after the scatter,
      or why it could not be filled. */
  method ScatterValues(d: Dims, values: seq<string>, dr: Int3, toFloat: string -> Option<real>)
    returns (r: Result<array3<real>, ShiftError>)
    ensures r.Err? <==> GridValues(d, values, toFloat).Err?
    ensures r.Err? ==> r.error == GridValues(d, values, toFloat).error
    ensures r.Ok? ==> Layout(r.value) == ShiftedGrid(GridValues(d, values, toFloat).value, d, dr)
  {
    if d.nx < 0 || d.ny < 0 || d.nz < 0 {
      return Err(NegativeCount);
    }
    if |values| > 0 && !d.Positive() {
      return Err(ZeroCount);
    }
    var vals, _ := ReadTokens(values, 0, |values|, toFloat);
    if vals.Err? {
      return Err(BadValue(vals.error));
    }
    var data: array3<real>;
    if d.Positive() {
      data := Scatter(vals.value, d, dr, 0.0);
    } else {
      data := new real[d.nz, d.ny, d.nx];
    }
    r := Ok(data);
  }
}
