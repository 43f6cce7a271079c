/** The two list primitives the XSF reader is built on: Python's `str.split()`
    with no argument (split at runs of whitespace, drop empty pieces) and
    `list.index` (position of the first occurrence, `ValueError` if absent). */
module Tokens {
  import opened Wrappers

  /** The characters `str.isspace` accepts: the ASCII blanks and separators
      and the Unicode space characters. */
  predicate IsSpace(c: char) {
    c == ' ' || ('\t' <= c <= '\r') || ('\U{1c}' <= c <= '\U{1f}') ||
    c == '\U{85}' || c == '\U{a0}' || c == '\U{1680}' ||
    ('\U{2000}' <= c <= '\U{200a}') || c == '\U{2028}' || c == '\U{2029}' ||
    c == '\U{202f}' || c == '\U{205f}' || c == '\U{3000}'
  }

  /** A token: what `split()` can return, a non-empty run of non-blanks. */
  predicate IsWord(w: string) {
    |w| > 0 && forall i :: 0 <= i < |w| ==> !IsSpace(w[i])
  }

  /** Length of the leading run of non-blank characters. */
  function WordLen(s: string): (n: nat)
    ensures n <= |s|
    ensures forall i :: 0 <= i < n ==> !IsSpace(s[i])
    ensures n < |s| ==> IsSpace(s[n])
    decreases |s|
  {
    if s == [] || IsSpace(s[0]) then 0 else 1 + WordLen(s[1..])
  }

  /** `s.split()`. */
  function Split(s: string): (r: seq<string>)
    ensures forall k :: 0 <= k < |r| ==> IsWord(r[k])
    decreases |s|
  {
    if s == [] then []
    else if IsSpace(s[0]) then Split(s[1..])
    else
      var n := WordLen(s);
      [s[..n]] + Split(s[n..])
  }

  /** The word-length of a string is determined by its non-blank prefix. */
  lemma WordLenUnique(s: string, n: nat)
    requires n <= |s|
    requires forall i :: 0 <= i < n ==> !IsSpace(s[i])
    requires n < |s| ==> IsSpace(s[n])
    ensures WordLen(s) == n
  {
  }

  /** Concatenation regrouped; kept apart so that proofs about splitting
      need not find it themselves. */
  lemma Regroup3<T>(a: seq<T>, b: seq<T>, c: seq<T>)
    ensures a + b + c == a + (b + c)
  {
  }

  lemma Regroup4<T>(a: seq<T>, b: seq<T>, c: seq<T>, d: seq<T>)
    ensures a + b + c + d == a + (b + c + d)
  {
  }

  /** Slicing a concatenation inside its first part. */
  lemma SliceAppend(x: string, y: string, n: nat)
    requires n <= |x|
    ensures (x + y)[..n] == x[..n] && (x + y)[n..] == x[n..] + y
  {
  }

  /** A text that starts with a non-blank splits into its first word and the
      split of the rest. */
  lemma SplitFirstWord(s: string)
    requires s != [] && !IsSpace(s[0])
    ensures Split(s) == [s[..WordLen(s)]] + Split(s[WordLen(s)..])
  {
  }

  /** The first word of `x` is the first word of `x + y` when the seam falls
      on a blank. */
  lemma WordLenAppend(x: string, y: string)
    requires x != [] && !IsSpace(x[0])
    requires y == [] || IsSpace(x[|x| - 1]) || IsSpace(y[0])
    ensures WordLen(x + y) == WordLen(x)
  {
    var n, xy := WordLen(x), x + y;
    forall i | 0 <= i < n
      ensures !IsSpace(xy[i])
    {
      assert xy[i] == x[i];
    }
    if n < |xy| {
      if n < |x| {
        assert xy[n] == x[n];
      } else {
        assert !IsSpace(x[n - 1]);
        assert xy[n] == y[0];
      }
    }
    WordLenUnique(xy, n);
  }

  /** Hence the first word of `x` is also the first token of `x + y`. */
  lemma FirstWordAppend(x: string, y: string)
    requires x != [] && !IsSpace(x[0])
    requires y == [] || IsSpace(x[|x| - 1]) || IsSpace(y[0])
    ensures var n := WordLen(x);
      Split(x + y) == [x[..n]] + Split(x[n..] + y)
  {
    var n, xy := WordLen(x), x + y;
    WordLenAppend(x, y);
    assert xy[0] == x[0];
    SplitFirstWord(xy);
    SliceAppend(x, y, n);
  }

  /** Splitting distributes over a concatenation whose seam falls on a blank. */
  lemma {:induction false} SplitAppend(x: string, y: string)
    requires x == [] || y == [] || IsSpace(x[|x| - 1]) || IsSpace(y[0])
    ensures Split(x + y) == Split(x) + Split(y)
    decreases |x|
  {
    if x == [] {
      assert x + y == y;
    } else if y == [] {
      assert x + y == x;
    } else if IsSpace(x[0]) {
      SliceAppend(x, y, 1);
      assert (x + y)[0] == x[0];
      SplitAppend(x[1..], y);
    } else {
      var n := WordLen(x);
      FirstWordAppend(x, y);
      SplitAppend(x[n..], y);
      assert Split(x) == [x[..n]] + Split(x[n..]);
      Regroup3([x[..n]], Split(x[n..]), Split(y));
    }
  }

  /** A string made only of blanks holds no token. */
  lemma {:induction false} SplitBlank(s: string)
    requires forall i :: 0 <= i < |s| ==> IsSpace(s[i])
    ensures Split(s) == []
    decreases |s|
  {
    if s != [] {
      SplitBlank(s[1..]);
    }
  }

  /** A token splits into itself. */
  lemma SplitWord(w: string)
    requires IsWord(w)
    ensures Split(w) == [w]
  {
    WordLenUnique(w, |w|);
    assert w[..|w|] == w;
    assert w[|w|..] == [];
  }

  /** Tokens written with single blanks between them split back into the same
      tokens: the round trip between `" ".join` and `split()`. */
  function Join(ws: seq<string>): string
    decreases |ws|
  {
    if ws == [] then "" else ws[0] + " " + Join(ws[1..])
  }

  lemma {:induction false} SplitJoin(ws: seq<string>)
    requires forall k :: 0 <= k < |ws| ==> IsWord(ws[k])
    ensures Split(Join(ws)) == ws
    decreases |ws|
  {
    if ws != [] {
      SplitJoin(ws[1..]);
      SplitAppend(ws[0], " " + Join(ws[1..]));
      SplitAppend(" ", Join(ws[1..]));
      SplitBlank(" ");
      SplitWord(ws[0]);
      Regroup3(ws[0], " ", Join(ws[1..]));
    }
  }

  /** `s.index(x)`: the first position holding `x`, `None` for `ValueError`. */
  function IndexOf<T(==)>(s: seq<T>, x: T): (r: Option<nat>)
    ensures r.None? <==> x !in s
    ensures r.Some? ==> r.value < |s| && s[r.value] == x &&
                        forall k :: 0 <= k < r.value ==> s[k] != x
    decreases |s|
  {
    if s == [] then None
    else if s[0] == x then Some(0)
    else match IndexOf(s[1..], x)
      case None => None
      case Some(i) => Some(i + 1)
  }

  /** The first position holding `x` is the one `IndexOf` finds. */
  lemma IndexOfFirst<T>(s: seq<T>, x: T, i: nat)
    requires i < |s| && s[i] == x && forall k :: 0 <= k < i ==> s[k] != x
    ensures IndexOf(s, x) == Some(i)
  {
    assert x in s;
  }

  /** When the first part holds `x`, its first occurrence is found there. */
  lemma IndexOfInFirst<T>(a: seq<T>, b: seq<T>, x: T)
    requires x in a
    ensures IndexOf(a + b, x) == IndexOf(a, x)
  {
    var i := IndexOf(a, x).value;
    assert forall k :: 0 <= k < i ==> (a + b)[k] == a[k];
    IndexOfFirst(a + b, x, i);
  }

  /** No position of `a + b` before `|a| + j` holds `x` when `a` does not
      and the first `j` elements of `b` do not. */
  lemma NoneBefore<T>(a: seq<T>, b: seq<T>, x: T, j: nat)
    requires x !in a && j <= |b| && forall k :: 0 <= k < j ==> b[k] != x
    ensures forall k :: 0 <= k < |a| + j ==> (a + b)[k] != x
  {
    forall k | 0 <= k < |a| + j
      ensures (a + b)[k] != x
    {
      if k < |a| {
        assert (a + b)[k] == a[k];
      } else {
        assert (a + b)[k] == b[k - |a|];
      }
    }
  }

  /** When only the second part holds `x`, its first occurrence is shifted
      past the first part. */
  lemma IndexOfInSecond<T>(a: seq<T>, b: seq<T>, x: T, j: nat)
    requires x !in a && IndexOf(b, x) == Some(j)
    ensures IndexOf(a + b, x) == Some(|a| + j)
  {
    NoneBefore(a, b, x, j);
    IndexOfFirst(a + b, x, |a| + j);
  }

  /** The first occurrence in a concatenation lies in the first part when it
      holds `x`, and is shifted past the first part otherwise. */
  lemma IndexOfAppend<T>(a: seq<T>, b: seq<T>, x: T)
    ensures x in a ==> IndexOf(a + b, x) == IndexOf(a, x)
    ensures x !in a && x in b ==> IndexOf(a + b, x) == Some(|a| + IndexOf(b, x).value)
  {
    if x in a {
      IndexOfInFirst(a, b, x);
    } else if x in b {
      IndexOfInSecond(a, b, x, IndexOf(b, x).value);
    }
  }
}
