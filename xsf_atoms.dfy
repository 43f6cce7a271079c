/** The `Atoms` class of shift_density.py: a count, a list of type labels and
    an `(n, 3)` array of Cartesian coordinates, updated in place. */
module XsfAtoms {
  import opened GridShift

  /** `v` with `s` added to every component (numpy broadcasting a scalar
      over one row). */
  function AddScalar(v: Vec3, s: real): (r: Vec3)
    ensures forall j :: 0 <= j < 3 ==> r[j] == v[j] + s
  {
    [v[0] + s, v[1] + s, v[2] + s]
  }

  /** What `shift_coord` leaves in the coordinate rows: row `i` moved by the
      scalar `shift[i]` for the first `min(3, rows)` rows, the rest as they
      were. */
  function RowsShifted(rows: seq<Vec3>, shift: Vec3, m: nat): (r: seq<Vec3>)
    requires m <= 3
  {
    seq(|rows|, i requires 0 <= i < |rows| => if i < m then AddScalar(rows[i], shift[i]) else rows[i])
  }

  class Atoms {
    var natoms: int
    var atTypes: seq<string>
    var atCoord: seq<Vec3>

    /** The count agrees with both lists, as `read_data` and `add_atom` with
        one row keep it. */
    predicate Valid()
      reads this
    {
      natoms == |atTypes| && natoms == |atCoord|
    }

    /** `__init__`: stores the count as given, copies the labels one by one
        and copies the coordinate array. */
    constructor (natoms: int, atTypes: seq<string>, atCoord: seq<Vec3>)
      ensures this.natoms == natoms && this.atTypes == atTypes && this.atCoord == atCoord
      ensures Valid() <==> natoms == |atTypes| == |atCoord|
    {
      var types: seq<string> := [];
      for k := 0 to |atTypes|
        invariant types == atTypes[..k]
      {
        types := types + [atTypes[k]];
      }
      this.natoms := natoms;
      this.atTypes := types;
      this.atCoord := atCoord;
    }

    /** `add_atom`: appends the label and every row of the given array and
        counts one more atom, so the count stays right exactly when one row
        is given. */
    method AddAtom(atType: string, rows: seq<Vec3>)
      modifies this
      ensures natoms == old(natoms) + 1
      ensures atTypes == old(atTypes) + [atType]
      ensures atCoord == old(atCoord) + rows
      ensures old(Valid()) ==> (Valid() <==> |rows| == 1)
    {
      atTypes := atTypes + [atType];
      atCoord := atCoord + rows;
      natoms := natoms + 1;
    }

    /** `shift_coord` as written: for `i` in `0 .. 2` the scalar `shift[i]`
        is added to every component of ROW `i`. With fewer than three rows
        the indexing fails (`ok` is false) after the rows that exist were
        already moved. */
    method ShiftCoord(shift: Vec3) returns (ok: bool)
      modifies this
      ensures ok <==> |old(atCoord)| >= 3
      ensures atCoord == RowsShifted(old(atCoord), shift, if ok then 3 else |old(atCoord)|)
      ensures natoms == old(natoms) && atTypes == old(atTypes)
    {
      ghost var rows := atCoord;
      var i := 0;
      while i < 3
        invariant 0 <= i <= 3 && i <= |rows|
        invariant atCoord == RowsShifted(rows, shift, i)
        invariant natoms == old(natoms) && atTypes == old(atTypes)
      {
        if i >= |atCoord| {
          return false;
        }
        atCoord := atCoord[i := AddScalar(atCoord[i], shift[i])];
        i := i + 1;
      }
      return true;
    }
  }
}
