/** The writing side of shift_density.py that is not the head: the output
    file name built in `read_input` and the value loop at the end of `main`
    (four values to a line). `write_head` and `write_tail` are in XsfHead.
    Python's fixed-width float formatting (`:10.8f`) is a parameter `fmt`. */
module XsfWrite {
  import opened Tokens
  import opened GridShift
  import opened DivMod

  /** `filename[:-4] + "_shifted.xsf"`: Python's slice clips at the start, so
      a name of at most four characters loses everything. */
  function OutputName(filename: string): (r: string)
    ensures |r| == (if |filename| >= 4 then |filename| - 4 else 0) + 12
    ensures r[|r| - 12..] == "_shifted.xsf"
    ensures r[..|r| - 12] == filename[..|r| - 12]
  {
    var keep := if |filename| >= 4 then |filename| - 4 else 0;
    assert (filename[..keep] + "_shifted.xsf")[..keep] == filename[..keep];
    filename[..keep] + "_shifted.xsf"
  }

  /** An input named `<stem>.xsf` gives `<stem>_shifted.xsf`. */
  lemma OutputNameXsf(stem: string)
    ensures OutputName(stem + ".xsf") == stem + "_shifted.xsf"
  {
    assert (stem + ".xsf")[..|stem|] == stem;
  }

  /** The indentation that opens every line of values. */
  const Indent := "       "

  /** What follows value number `k`: a line break and the next indentation
      after every fourth value, three blanks otherwise. */
  function Sep(k: nat): string {
    if k % 4 == 3 then "\n" + Indent else "   "
  }

  /** The values from number `k0` on, each formatted and followed by its
      separator. */
  function Cells(vs: seq<real>, k0: nat, fmt: real -> string): string
    decreases |vs|
  {
    if vs == [] then "" else fmt(vs[0]) + Sep(k0) + Cells(vs[1..], k0 + 1, fmt)
  }

  /** Everything the value loop writes: the first indentation, every value
      with its separator, and a closing line break when the last line is
      not full. */
  function GridText(vs: seq<real>, fmt: real -> string): string {
    Indent + Cells(vs, 0, fmt) + (if |vs| % 4 != 0 then "\n" else "")
  }

  /** Appending one value appends its text and separator. */
  lemma {:induction false} CellsSnoc(vs: seq<real>, v: real, k0: nat, fmt: real -> string)
    ensures Cells(vs + [v], k0, fmt) == Cells(vs, k0, fmt) + fmt(v) + Sep(k0 + |vs|)
    decreases |vs|
  {
    if vs == [] {
      assert [] + [v] == [v];
      assert [v][1..] == [];
    } else {
      assert (vs + [v])[1..] == vs[1..] + [v];
      CellsSnoc(vs[1..], v, k0 + 1, fmt);
    }
  }

  /** The value text by lines, as a reader sees it: each full line is the
      indentation, four values three blanks apart and a line break; a last
      partial line has a blank run after each value and a line break; after
      a full last line only the indentation is left. */
  function Lines(vs: seq<real>, fmt: real -> string): string
    decreases |vs|
  {
    if |vs| >= 4 then Indent + FullRow(vs, fmt) + Lines(vs[4..], fmt)
    else if vs == [] then Indent
    else Indent + Cells(vs, 0, fmt) + "\n"
  }

  /** A full line after its indentation: the first four values, three
      blanks apart, and the line break. */
  function FullRow(vs: seq<real>, fmt: real -> string): string
    requires |vs| >= 4
  {
    fmt(vs[0]) + "   " + fmt(vs[1]) + "   " + fmt(vs[2]) + "   " + fmt(vs[3]) + "\n"
  }

  /** The nested text of four values and their separators, flattened. */
  lemma LineRegroup(w0: string, w1: string, w2: string, w3: string, c: string)
    ensures w0 + "   " + (w1 + "   " + (w2 + "   " + (w3 + ("\n" + Indent) + c))) ==
            w0 + "   " + w1 + "   " + w2 + "   " + w3 + "\n" + Indent + c
  {
  }

  /** Four values starting on a line boundary fill exactly one line. */
  lemma FullLine(vs: seq<real>, k0: nat, fmt: real -> string)
    requires |vs| >= 4 && k0 % 4 == 0
    ensures Cells(vs, k0, fmt) == FullRow(vs, fmt) + Indent + Cells(vs[4..], k0 + 4, fmt)
  {
    var v1, v2, v3 := vs[1..], vs[2..], vs[3..];
    assert v1[1..] == v2 && v2[1..] == v3 && v3[1..] == vs[4..];
    var c := Cells(vs[4..], k0 + 4, fmt);
    var c3 := fmt(vs[3]) + ("\n" + Indent) + c;
    var c2 := fmt(vs[2]) + "   " + c3;
    var c1 := fmt(vs[1]) + "   " + c2;
    assert Cells(v3, k0 + 3, fmt) == c3;
    assert Cells(v2, k0 + 2, fmt) == c2;
    assert Cells(v1, k0 + 1, fmt) == c1;
    assert Cells(vs, k0, fmt) == fmt(vs[0]) + "   " + c1;
    LineRegroup(fmt(vs[0]), fmt(vs[1]), fmt(vs[2]), fmt(vs[3]), c);
  }

  /** Values short of a line never reach a line break of their own. */
  lemma {:induction false} PartialLine(vs: seq<real>, k0: nat, fmt: real -> string)
    requires k0 % 4 + |vs| <= 3
    ensures Cells(vs, k0, fmt) == Cells(vs, 0, fmt)
    decreases |vs|
  {
    if vs != [] {
      PartialLine(vs[1..], k0 + 1, fmt);
      PartialLine(vs[1..], 1, fmt);
    }
  }

  /** Regrouping the pieces of a full line and the rest. */
  lemma Regroup(a: string, f: string, b: string, c: string, nl: string)
    ensures a + (f + b + c) + nl == a + f + (b + c + nl)
  {
  }

  /** The loop's output, separator by separator, is the line-by-line text. */
  lemma {:induction false} GridTextLines(vs: seq<real>, k0: nat, fmt: real -> string)
    requires k0 % 4 == 0
    ensures Indent + Cells(vs, k0, fmt) + (if |vs| % 4 != 0 then "\n" else "") == Lines(vs, fmt)
    decreases |vs|
  {
    if |vs| >= 4 {
      var rest := vs[4..];
      assert |rest| % 4 == |vs| % 4;
      var nl := if |rest| % 4 != 0 then "\n" else "";
      var f, c := FullRow(vs, fmt), Cells(rest, k0 + 4, fmt);
      FullLine(vs, k0, fmt);
      GridTextLines(rest, k0 + 4, fmt);
      assert Lines(vs, fmt) == Indent + f + Lines(rest, fmt);
      Regroup(Indent, f, Indent, c, nl);
    } else if vs != [] {
      PartialLine(vs, k0, fmt);
      assert |vs| % 4 != 0;
    }
  }

  /** The written grid text is its line-by-line form. */
  lemma GridTextIsLines(vs: seq<real>, fmt: real -> string)
    ensures GridText(vs, fmt) == Lines(vs, fmt)
  {
    GridTextLines(vs, 0, fmt);
  }

  /** The tokens of the formatted values, in order. */
  function ValueTokens(vs: seq<real>, fmt: real -> string): seq<string>
    decreases |vs|
  {
    if vs == [] then [] else Split(fmt(vs[0])) + ValueTokens(vs[1..], fmt)
  }

  lemma SepBlank(k: nat)
    ensures |Sep(k)| > 0 && IsSpace(Sep(k)[0]) && IsSpace(Sep(k)[|Sep(k)| - 1])
    ensures Split(Sep(k)) == []
  {
    SplitBlank(Sep(k));
  }

  /** A separator in front of blank-ended text adds only blanks. */
  lemma SepThen(k: nat, rest: string)
    requires rest == [] || IsSpace(rest[|rest| - 1])
    ensures var t := Sep(k) + rest;
      |t| > 0 && IsSpace(t[0]) && IsSpace(t[|t| - 1]) && Split(t) == Split(rest)
  {
    var sep := Sep(k);
    SepBlank(k);
    SplitAppend(sep, rest);
    if rest == [] {
      assert sep + rest == sep;
    }
  }

  /** The value text, when there is any, ends with the blank run of the
      last separator. */
  lemma CellsEnd(vs: seq<real>, k0: nat, fmt: real -> string)
    ensures Cells(vs, k0, fmt) == [] || IsSpace(Cells(vs, k0, fmt)[|Cells(vs, k0, fmt)| - 1])
  {
    if vs != [] {
      var n := |vs| - 1;
      assert vs == vs[..n] + [vs[n]];
      CellsSnoc(vs[..n], vs[n], k0, fmt);
      SepBlank(k0 + n);
      var sep := Sep(k0 + n);
      var t := Cells(vs[..n], k0, fmt) + fmt(vs[n]);
      assert Cells(vs, k0, fmt) == t + sep;
      assert (t + sep)[|t + sep| - 1] == sep[|sep| - 1];
    }
  }

  /** Splitting the value text gives the tokens of the values and nothing
      else: the separators only ever add blanks. */
  lemma {:induction false} SplitCells(vs: seq<real>, k0: nat, fmt: real -> string)
    ensures Split(Cells(vs, k0, fmt)) == ValueTokens(vs, fmt)
    decreases |vs|
  {
    if vs != [] {
      var w, sep, rest := fmt(vs[0]), Sep(k0), Cells(vs[1..], k0 + 1, fmt);
      assert Cells(vs, k0, fmt) == w + sep + rest;
      Regroup3(w, sep, rest);
      SplitCells(vs[1..], k0 + 1, fmt);
      CellsEnd(vs[1..], k0 + 1, fmt);
      SepThen(k0, rest);
      SplitAppend(w, sep + rest);
    }
  }

  /** The indentation holds no token and ends with a blank. */
  lemma IndentBlank()
    ensures Split(Indent) == [] && IsSpace(Indent[|Indent| - 1])
  {
    SplitBlank(Indent);
  }

  /** The closing line break holds no token. */
  lemma CloseBlank(n: nat)
    ensures var nl := if n % 4 != 0 then "\n" else "";
      Split(nl) == [] && (nl == [] || IsSpace(nl[0]))
  {
    if n % 4 != 0 {
      SplitBlank("\n");
    }
  }

  /** The grid text reads back as the value tokens. */
  lemma SplitGrid(vs: seq<real>, fmt: real -> string)
    ensures Split(GridText(vs, fmt)) == ValueTokens(vs, fmt)
  {
    var cells := Cells(vs, 0, fmt);
    var nl := if |vs| % 4 != 0 then "\n" else "";
    SplitCells(vs, 0, fmt);
    CloseBlank(|vs|);
    SplitAppend(cells, nl);
    IndentBlank();
    SplitAppend(Indent, cells + nl);
    Regroup3(Indent, cells, nl);
  }

  /** When every formatted value is a single token, those are the tokens. */
  lemma {:induction false} TokensOfWords(vs: seq<real>, fmt: real -> string)
    requires forall k :: 0 <= k < |vs| ==> IsWord(fmt(vs[k]))
    ensures ValueTokens(vs, fmt) == seq(|vs|, k requires 0 <= k < |vs| => fmt(vs[k]))
    decreases |vs|
  {
    if vs != [] {
      SplitWord(fmt(vs[0]));
      assert forall k :: 0 <= k < |vs[1..]| ==> IsWord(fmt(vs[1..][k])) by {
        forall k | 0 <= k < |vs[1..]|
          ensures IsWord(fmt(vs[1..][k]))
        {
          assert vs[1..][k] == vs[k + 1];
        }
      }
      TokensOfWords(vs[1..], fmt);
    }
  }

  /** The text after one more value is the text before, the value and its
      separator. */
  lemma TextStep(written: seq<real>, v: real, fmt: real -> string)
    ensures Cells(written + [v], 0, fmt) == Cells(written, 0, fmt) + fmt(v) + Sep(|written|)
  {
    CellsSnoc(written, v, 0, fmt);
  }

  /** Sample `[i, j, k]` is value number `p` of the file order. */
  lemma NextValue(data: array3<real>, vs: seq<real>, i: int, j: int, k: int, p: int)
    requires vs == Layout(data)
    requires 0 <= i < data.Length0 && 0 <= j < data.Length1 && 0 <= k < data.Length2
    requires p == Mul(Mul(i, data.Length1) + j, data.Length2) + k
    ensures 0 <= p < |vs| && vs[..p + 1] == vs[..p] + [data[i, j, k]]
  {
    var d := DimsOf(data);
    MulIsProduct(i, data.Length1);
    MulIsProduct(Mul(i, data.Length1) + j, data.Length2);
    CellOfLinear(Cell(k, j, i), d);
    assert vs[..p + 1] == vs[..p] + [vs[p]];
  }

  /** The last position reached by the loops is the number of samples. */
  lemma LayoutEnd(data: array3<real>, vs: seq<real>, p: int)
    requires vs == Layout(data)
    requires p == Mul(Mul(data.Length0, data.Length1), data.Length2)
    ensures p == |vs| && vs[..p] == vs
  {
    MulIsProduct(data.Length0, data.Length1);
    MulIsProduct(Mul(data.Length0, data.Length1), data.Length2);
    if !DimsOf(data).Positive() {
      assert data.Length0 == 0 || data.Length1 == 0 || data.Length2 == 0;
      assert data.Length0 * data.Length1 * data.Length2 == 0;
    }
  }

  /** One pass of the innermost loop body: the value, then a line break and
      indentation if it completes a line of four, three blanks otherwise. */
  method EmitValue(text: string, count: nat, v: real, fmt: real -> string)
    returns (text': string, count': nat)
    requires count < 4
    ensures text' == text + fmt(v) + Sep(count)
    ensures count' == (count + 1) % 4
  {
    text' := text + fmt(v);
    count' := count + 1;
    if count' == 4 {
      text' := text' + "\n" + Indent;
      count' := 0;
    } else {
      text' := text' + "   ";
    }
  }

  lemma SepMod(p: nat)
    ensures Sep(p % 4) == Sep(p)
  {
  }

  /** The loop invariant carried over one more value. */
  lemma Advance(vs: seq<real>, p: nat, x: real, fmt: real -> string, cells: string, text: string, text': string)
    requires p < |vs| && vs[..p + 1] == vs[..p] + [x]
    requires cells == Cells(vs[..p], 0, fmt) && text == Indent + cells
    requires text' == text + fmt(x) + Sep(p % 4)
    ensures text' == Indent + Cells(vs[..p + 1], 0, fmt)
    ensures (p + 1) % 4 == (p % 4 + 1) % 4
  {
    TextStep(vs[..p], x, fmt);
    ModFourStep(p);
    SepMod(p);
    Regroup4(Indent, cells, fmt(x), Sep(p));
  }

  /** The innermost `for ix` loop: the samples of row `[i, j]`, which
      continue the file order at position `p0`. */
  method WriteRow(data: array3<real>, i: nat, j: nat, text: string, count: nat, fmt: real -> string,
                  ghost vs: seq<real>, ghost p0: nat)
    returns (text': string, count': nat)
    requires vs == Layout(data)
    requires i < data.Length0 && j < data.Length1
    requires p0 == Mul(Mul(i, data.Length1) + j, data.Length2)
    requires count == p0 % 4 && p0 <= |vs|
    requires text == Indent + Cells(vs[..p0], 0, fmt)
    ensures p0 + data.Length2 <= |vs|
    ensures count' == (p0 + data.Length2) % 4
    ensures text' == Indent + Cells(vs[..p0 + data.Length2], 0, fmt)
  {
    ghost var p := p0;
    text', count' := text, count;
    for k := 0 to data.Length2
      invariant p == p0 + k && count' == p % 4 && p <= |vs|
      invariant text' == Indent + Cells(vs[..p], 0, fmt)
    {
      NextValue(data, vs, i, j, k, p);
      ghost var before := text';
      text', count' := EmitValue(text', count', data[i, j, k], fmt);
      Advance(vs, p, data[i, j, k], fmt, Cells(vs[..p], 0, fmt), before, text');
      p := p + 1;
    }
  }

  /** The value loop of `main`: z outermost, x innermost, `count` tracking the
      position within the current line of four. */
  method WriteGrid(data: array3<real>, fmt: real -> string) returns (text: string)
    ensures text == GridText(Layout(data), fmt)
  {
    ghost var vs := Layout(data);
    ghost var p := 0;
    text := Indent;
    var count := 0;
    for i := 0 to data.Length0
      invariant p == Mul(Mul(i, data.Length1), data.Length2)
      invariant count == p % 4 && p <= |vs|
      invariant text == Indent + Cells(vs[..p], 0, fmt)
    {
      for j := 0 to data.Length1
        invariant p == Mul(Mul(i, data.Length1) + j, data.Length2)
        invariant count == p % 4 && p <= |vs|
        invariant text == Indent + Cells(vs[..p], 0, fmt)
      {
        text, count := WriteRow(data, i, j, text, count, fmt, vs, p);
        MulSucc(Mul(i, data.Length1) + j, data.Length2);
        p := p + data.Length2;
      }
      MulSucc(i, data.Length1);
    }
    LayoutEnd(data, vs, p);
    if count != 0 {
      text := text + "\n";
    }
  }
}
