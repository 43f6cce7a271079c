/** `write_head` and `write_tail` of shift_density.py: the text around the
    grid values of the output file. Python's `:11.8f` formatting is a
    parameter `fmt`; integers are written as `str` writes them. */
module XsfHead {
  import opened Tokens
  import opened Numerals
  import opened GridShift
  import opened Lattice
  import opened XsfAtoms

  /** One line of three numbers: four blanks, then the numbers two blanks
      apart. */
  function Row(v: Vec3, fmt: real -> string): string {
    "    " + fmt(v[0]) + "  " + fmt(v[1]) + "  " + fmt(v[2]) + "\n"
  }

  /** The three lattice vectors, one line each. */
  function CellRows(cell: Mat3, fmt: real -> string): string {
    Row(cell[0], fmt) + Row(cell[1], fmt) + Row(cell[2], fmt)
  }

  /** One atom line: five blanks, the type label, then the coordinates two blanks
      apart. */
  function AtomLine(atType: string, v: Vec3, fmt: real -> string): string {
    "     " + atType + "  " + fmt(v[0]) + "  " + fmt(v[1]) + "  " + fmt(v[2]) + "\n"
  }

  /** The lines of the first `n` atoms. */
  function AtomLines(types: seq<string>, coords: seq<Vec3>, n: nat, fmt: real -> string): string
    requires n <= |types| && n <= |coords|
  {
    if n == 0 then "" else AtomLines(types, coords, n - 1, fmt) + AtomLine(types[n - 1], coords[n - 1], fmt)
  }

  /** The sample-count line. */
  function CountsLine(nind: Int3): string {
    "     " + IntString(nind[0]) + " " + IntString(nind[1]) + " " + IntString(nind[2]) + "\n"
  }

  /** The opening lines up to the atom count. */
  function Preamble(cell: Mat3, natoms: nat, fmt: real -> string): string {
    " CRYSTAL\n" + " PRIMVEC\n" + CellRows(cell, fmt) + " PRIMCOORD\n" + "   " + IntString(natoms) + " 1\n"
  }

  /** The data-grid header after the atoms. */
  function GridHeader(cell: Mat3, nind: Int3, start: Vec3, fmt: real -> string): string {
    " BEGIN_BLOCK_DATAGRID_3D\n" + "   density\n" + "   BEGIN_DATAGRID_3D_density\n" +
    CountsLine(nind) + Row(start, fmt) + CellRows(cell, fmt)
  }

  /** Everything `write_head` writes. */
  function HeadText(cell: Mat3, natoms: nat, types: seq<string>, coords: seq<Vec3>,
                    nind: Int3, start: Vec3, fmt: real -> string): string
    requires natoms <= |types| && natoms <= |coords|
  {
    Preamble(cell, natoms, fmt) + AtomLines(types, coords, natoms, fmt) + GridHeader(cell, nind, start, fmt)
  }

  /** Everything `write_tail` writes. */
  const TailText := "   END_DATAGRID_3D_density\n" + " END_BLOCK_DATAGRID_3D\n"

  /** The first `n` rows of the cell, as the `range(3)` loops write them. */
  function FirstRows(cell: Mat3, n: nat, fmt: real -> string): string
    requires n <= 3
  {
    if n == 0 then "" else FirstRows(cell, n - 1, fmt) + Row(cell[n - 1], fmt)
  }

  lemma RowsAll(cell: Mat3, fmt: real -> string)
    ensures FirstRows(cell, 3, fmt) == CellRows(cell, fmt)
  {
    var r0, r1, r2 := Row(cell[0], fmt), Row(cell[1], fmt), Row(cell[2], fmt);
    assert FirstRows(cell, 1, fmt) == r0 by {
      assert "" + r0 == r0;
    }
  }

  /** Appending six pieces one by one appends their concatenation. */
  lemma AppendSix(x: string, a: string, b: string, c: string, d: string, e: string, f: string)
    ensures x + a + b + c + d + e + f == x + (a + b + c + d + e + f)
  {
  }

  /** The `for i in range(3)` loop writing the cell one vector per line. */
  method AppendRows(text: string, cell: Mat3, fmt: real -> string) returns (out: string)
    ensures out == text + CellRows(cell, fmt)
  {
    out := text;
    for i := 0 to 3
      invariant out == text + FirstRows(cell, i, fmt)
    {
      out := out + Row(cell[i], fmt);
    }
    RowsAll(cell, fmt);
  }

  /** The `for i in range(natoms)` loop writing one line per atom. */
  method AppendAtoms(text: string, atoms: Atoms, fmt: real -> string) returns (out: string)
    requires atoms.Valid()
    ensures out == text + AtomLines(atoms.atTypes, atoms.atCoord, atoms.natoms, fmt)
  {
    out := text;
    for i := 0 to atoms.natoms
      invariant out == text + AtomLines(atoms.atTypes, atoms.atCoord, i, fmt)
    {
      out := out + AtomLine(atoms.atTypes[i], atoms.atCoord[i], fmt);
    }
  }

  /** `write_head`: fixed lines, the cell row by row, the atom count and the
      atoms one line each, the grid header, the origin and the cell again. */
  method WriteHead(cell: Mat3, atoms: Atoms, nind: Int3, start: Vec3, fmt: real -> string)
    returns (text: string)
    requires atoms.Valid()
    ensures text == HeadText(cell, atoms.natoms, atoms.atTypes, atoms.atCoord, nind, start, fmt)
  {
    var n := atoms.natoms;
    text := " CRYSTAL\n";
    text := text + " PRIMVEC\n";
    text := AppendRows(text, cell, fmt);
    text := text + " PRIMCOORD\n";
    text := text + "   " + IntString(n) + " 1\n";
    text := AppendAtoms(text, atoms, fmt);
    ghost var body := text;
    text := text + " BEGIN_BLOCK_DATAGRID_3D\n";
    text := text + "   density\n";
    text := text + "   BEGIN_DATAGRID_3D_density\n";
    text := text + CountsLine(nind);
    text := text + Row(start, fmt);
    text := AppendRows(text, cell, fmt);
    AppendSix(body, " BEGIN_BLOCK_DATAGRID_3D\n", "   density\n", "   BEGIN_DATAGRID_3D_density\n",
              CountsLine(nind), Row(start, fmt), CellRows(cell, fmt));
  }

  /** `write_tail`. */
  method WriteTail() returns (text: string)
    ensures text == TailText
  {
    text := "   END_DATAGRID_3D_density\n";
    text := text + " END_BLOCK_DATAGRID_3D\n";
  }
}
