/** gen_det.py: occupation lists of single-particle states (1 occupied, 0
    empty) written as digit strings, single excitations of a reference
    state, and the prompt loop that writes one excitation per answer. The
    prompts become a list of answers; the end of that list stands for the
    end of input. */
module GenDet {
  import opened Wrappers
  import opened Tokens
  import opened Numerals

  /** What `convert_integer_list` returns: `str` of every element in order,
      with nothing between them. */
  function Concat(xs: seq<int>): string
    decreases |xs|
  {
    if xs == [] then "" else Concat(xs[..|xs| - 1]) + IntString(xs[|xs| - 1])
  }

  /** `convert_integer_list`: the string grows by one numeral per element. */
  method ConvertIntegerList(xs: seq<int>) returns (converted: string)
    ensures converted == Concat(xs)
  {
    converted := "";
    for i := 0 to |xs|
      invariant converted == Concat(xs[..i])
    {
      assert xs[..i + 1][..i] == xs[..i];
      converted := converted + IntString(xs[i]);
    }
    assert xs[..|xs|] == xs;
  }

  /** An occupation list: every entry 0 or 1. */
  predicate Binary(xs: seq<int>) {
    forall i :: 0 <= i < |xs| ==> xs[i] == 0 || xs[i] == 1
  }

  /** The digit `str` writes for an occupation. */
  function Bit(x: int): char {
    if x == 1 then '1' else '0'
  }

  /** An occupation list converts to one digit per state, in order. */
  lemma {:induction false} ConcatBinary(xs: seq<int>)
    requires Binary(xs)
    ensures |Concat(xs)| == |xs|
    ensures forall i :: 0 <= i < |xs| ==> Concat(xs)[i] == Bit(xs[i])
    decreases |xs|
  {
    if xs != [] {
      var init := xs[..|xs| - 1];
      assert Binary(init) by {
        forall i | 0 <= i < |init|
          ensures init[i] == 0 || init[i] == 1
        {
          assert init[i] == xs[i];
        }
      }
      ConcatBinary(init);
      var last := xs[|xs| - 1];
      assert IntString(last) == [Bit(last)] by {
        if last == 1 {
          assert IntString(1) == "1";
        } else {
          assert IntString(0) == "0";
        }
      }
    }
  }

  /** Python's `sum`. */
  function Sum(xs: seq<int>): int
    decreases |xs|
  {
    if xs == [] then 0 else Sum(xs[..|xs| - 1]) + xs[|xs| - 1]
  }

  /** Overwriting one entry changes the sum by the difference. */
  lemma {:induction false} SumUpdate(xs: seq<int>, i: int, v: int)
    requires 0 <= i < |xs|
    ensures Sum(xs[i := v]) == Sum(xs) - xs[i] + v
    decreases |xs|
  {
    var n := |xs| - 1;
    if i < n {
      assert xs[i := v][..n] == xs[..n][i := v];
      SumUpdate(xs[..n], i, v);
    } else {
      assert xs[i := v][..n] == xs[..n];
    }
  }

  /** Python's index `i` into a list of `n` elements: a negative index counts
      from the end. */
  function PyIndex(i: int, n: int): (k: int)
    requires -n <= i < n
    ensures 0 <= k < n && (k == i || k == i + n)
  {
    if i < 0 then i + n else i
  }

  /** The excited list: a copy of `state` with `hole` emptied and then
      `particle` filled. */
  function Excited(state: seq<int>, hole: int, particle: int): (r: seq<int>)
    requires -|state| <= hole < |state| && -|state| <= particle < |state|
    ensures |r| == |state|
    ensures r[PyIndex(particle, |state|)] == 1
    ensures PyIndex(hole, |state|) != PyIndex(particle, |state|) ==> r[PyIndex(hole, |state|)] == 0
    ensures forall i :: 0 <= i < |r| && i != PyIndex(hole, |state|) && i != PyIndex(particle, |state|) ==>
      r[i] == state[i]
  {
    state[PyIndex(hole, |state|) := 0][PyIndex(particle, |state|) := 1]
  }

  /** The warning suffix for a changed electron count. */
  const Warning := "     !"

  /** The string `build_excitation` returns. */
  function ExcitationText(state: seq<int>, hole: int, particle: int): string
    requires -|state| <= hole < |state| && -|state| <= particle < |state|
  {
    var e := Excited(state, hole, particle);
    Concat(e) + (if Sum(state) != Sum(e) then Warning else "")
  }

  /** How the electron count moves: the hole takes its entry out, and the
      particle puts one electron where the emptied list held its entry. */
  lemma ExcitedSum(state: seq<int>, hole: int, particle: int)
    requires -|state| <= hole < |state| && -|state| <= particle < |state|
    ensures var h, p := PyIndex(hole, |state|), PyIndex(particle, |state|);
      Sum(Excited(state, hole, particle)) ==
      Sum(state) - state[h] - (if h == p then 0 else state[p]) + 1
  {
    var h, p := PyIndex(hole, |state|), PyIndex(particle, |state|);
    var emptied := state[h := 0];
    SumUpdate(state, h, 0);
    SumUpdate(emptied, p, 1);
  }

  /** Moving an electron from an occupied state to an empty one keeps the
      count, so no warning is added. */
  lemma ExcitationConserves(state: seq<int>, hole: int, particle: int)
    requires -|state| <= hole < |state| && -|state| <= particle < |state|
    requires state[PyIndex(hole, |state|)] == 1 && state[PyIndex(particle, |state|)] == 0
    ensures Sum(Excited(state, hole, particle)) == Sum(state)
    ensures ExcitationText(state, hole, particle) == Concat(Excited(state, hole, particle))
  {
    var e := Excited(state, hole, particle);
    ExcitedSum(state, hole, particle);
    assert Sum(e) == Sum(state);
    NoSuffix(Concat(e));
  }

  lemma NoSuffix(t: string)
    ensures t + "" == t
  {
  }

  /** On an occupation list with two different indices, the count changes,
      and the warning is added, exactly when the hole and the particle land
      on equally occupied states (a hole in an empty state or a particle in
      an occupied one, but not both). */
  lemma ExcitationWarns(state: seq<int>, hole: int, particle: int)
    requires -|state| <= hole < |state| && -|state| <= particle < |state|
    requires Binary(state)
    requires PyIndex(hole, |state|) != PyIndex(particle, |state|)
    ensures var h, p := PyIndex(hole, |state|), PyIndex(particle, |state|);
      (Sum(Excited(state, hole, particle)) != Sum(state)) <==> state[h] == state[p]
    ensures var h, p := PyIndex(hole, |state|), PyIndex(particle, |state|);
      ExcitationText(state, hole, particle) ==
      Concat(Excited(state, hole, particle)) + (if state[h] == state[p] then Warning else "")
  {
    var h, p := PyIndex(hole, |state|), PyIndex(particle, |state|);
    ExcitedSum(state, hole, particle);
    assert state[h] == 0 || state[h] == 1;
    assert state[p] == 0 || state[p] == 1;
  }

  /** `build_excitation`: the list is copied, so the reference state is
      left as it was; two entries of the copy are set in place. */
  method BuildExcitation(state: array<int>, hole: int, particle: int)
    returns (excitation: array<int>, text: string)
    requires -state.Length <= hole < state.Length && -state.Length <= particle < state.Length
    ensures fresh(excitation)
    ensures excitation[..] == Excited(state[..], hole, particle)
    ensures text == ExcitationText(state[..], hole, particle)
  {
    excitation := new int[state.Length];
    forall i | 0 <= i < state.Length {
      excitation[i] := state[i];
    }
    excitation[PyIndex(hole, state.Length)] := 0;
    excitation[PyIndex(particle, state.Length)] := 1;
    assert excitation[..] == Excited(state[..], hole, particle);
    text := ConvertIntegerList(excitation[..]);
    if Sum(state[..]) != Sum(excitation[..]) {
      text := text + Warning;
    } else {
      assert text + "" == text;
    }
  }

  /** The ground state: the first `electrons` states filled, the others
      empty; a negative count of states gives an empty list. */
  function GroundState(states: int, electrons: int): (r: seq<int>)
    ensures |r| == (if states > 0 then states else 0)
    ensures Binary(r)
    ensures forall n :: 0 <= n < |r| ==> (r[n] == 1 <==> n < electrons)
  {
    seq(if states > 0 then states else 0, n => if n < electrons then 1 else 0)
  }

  /** The ground state holds `electrons` electrons when that many states
      exist, and fills every state otherwise. */
  lemma {:induction false} GroundStateCount(states: nat, electrons: nat)
    ensures Sum(GroundState(states, electrons)) == if electrons <= states then electrons else states
    decreases states
  {
    if states > 0 {
      assert GroundState(states, electrons)[..states - 1] == GroundState(states - 1, electrons);
      GroundStateCount(states - 1, electrons);
    }
  }

  /** The range check of `main`: both numbers name a state. */
  predicate InRange(hole: int, particle: int, states: int) {
    !(hole >= states || particle >= states || hole < 0 || particle < 0)
  }

  /** What one answer leads to: the loop ends (the bare `except` catches a
      missing or non-integer number), the answer is refused, or a line is
      written. */
  datatype Reply = Stop | Reject | Line(text: string)

  function Answer(states: int, ground: seq<int>, answer: string): (r: Reply)
    requires |ground| == (if states > 0 then states else 0)
    ensures r.Reject? || r.Line? <==>
      (|Split(answer)| >= 2 && ParseInt(Split(answer)[0]).Some? && ParseInt(Split(answer)[1]).Some?)
    ensures r.Line? <==> (|Split(answer)| >= 2 && ParseInt(Split(answer)[0]).Some? &&
      ParseInt(Split(answer)[1]).Some? &&
      InRange(ParseInt(Split(answer)[0]).value, ParseInt(Split(answer)[1]).value, states))
  {
    var ws := Split(answer);
    if |ws| < 1 then Stop
    else match ParseInt(ws[0])
      case None => Stop
      case Some(hole) =>
        if |ws| < 2 then Stop
        else match ParseInt(ws[1])
          case None => Stop
          case Some(particle) =>
            if !InRange(hole, particle, states) then Reject
            else Line(ExcitationText(ground, hole, particle))
  }

  /** The contents of `determinants.dat` after the given answers. */
  function Session(states: int, ground: seq<int>, answers: seq<string>): string
    requires |ground| == (if states > 0 then states else 0)
    decreases |answers|
  {
    if answers == [] then ""
    else match Answer(states, ground, answers[0])
      case Stop => ""
      case Reject => Session(states, ground, answers[1..])
      case Line(t) => t + "\n" + Session(states, ground, answers[1..])
  }

  /** An answer out of range writes nothing and the loop goes on. */
  lemma RejectWritesNothing(states: int, ground: seq<int>, answer: string, rest: seq<string>)
    requires |ground| == (if states > 0 then states else 0)
    requires |Split(answer)| >= 2
    requires ParseInt(Split(answer)[0]).Some? && ParseInt(Split(answer)[1]).Some?
    requires !InRange(ParseInt(Split(answer)[0]).value, ParseInt(Split(answer)[1]).value, states)
    ensures Session(states, ground, [answer] + rest) == Session(states, ground, rest)
  {
    assert ([answer] + rest)[1..] == rest;
  }

  /** From the ground state, moving an electron out of the filled states
      into an empty one writes the digits of the excited list, without
      warning. */
  lemma GroundExcitation(states: int, electrons: int, hole: int, particle: int)
    requires 0 <= hole < electrons <= particle < states
    ensures var g := GroundState(states, electrons);
      var e := Excited(g, hole, particle);
      ExcitationText(g, hole, particle) == Concat(e) &&
      |Concat(e)| == states &&
      forall i :: 0 <= i < states ==> Concat(e)[i] == (if (i < electrons && i != hole) || i == particle then '1' else '0')
  {
    var g := GroundState(states, electrons);
    var e := Excited(g, hole, particle);
    ExcitationConserves(g, hole, particle);
    assert Binary(e) by {
      forall i | 0 <= i < |e|
        ensures e[i] == 0 || e[i] == 1
      {
      }
    }
    ConcatBinary(e);
  }

  /** The reply to every answer, in order. */
  function Replies(states: int, ground: seq<int>, answers: seq<string>): (rs: seq<Reply>)
    requires |ground| == (if states > 0 then states else 0)
    ensures |rs| == |answers|
    ensures forall i :: 0 <= i < |answers| ==> rs[i] == Answer(states, ground, answers[i])
  {
    seq(|answers|, i requires 0 <= i < |answers| => Answer(states, ground, answers[i]))
  }

  /** The number of replies before the first one that ends the loop (all
      of them when none does). */
  function FirstStop(rs: seq<Reply>): (n: nat)
    ensures n <= |rs|
    ensures forall i :: 0 <= i < n ==> !rs[i].Stop?
    ensures n < |rs| ==> rs[n].Stop?
  {
    if rs == [] || rs[0].Stop? then 0 else 1 + FirstStop(rs[1..])
  }

  /** What one reply adds to the file: its line and a line break, or
      nothing. */
  function Piece(r: Reply): string {
    if r.Line? then r.text + "\n" else ""
  }

  /** The lines of the accepted replies, in order, one after the other:
      the file grows by the piece of each reply in turn. */
  function LinesOf(rs: seq<Reply>): string {
    if rs == [] then "" else LinesOf(rs[..|rs| - 1]) + Piece(rs[|rs| - 1])
  }

  /** The first reply's piece comes first. */
  lemma {:induction false} LinesOfCons(r: Reply, rs: seq<Reply>)
    ensures LinesOf([r] + rs) == Piece(r) + LinesOf(rs)
    decreases |rs|
  {
    if rs == [] {
      assert ([r] + rs)[..0] == [];
      assert "" + Piece(r) == Piece(r) + "";
    } else {
      var ys := [r] + rs;
      var init := rs[..|rs| - 1];
      assert ys[..|ys| - 1] == [r] + init;
      assert ys[|ys| - 1] == rs[|rs| - 1];
      LinesOfCons(r, init);
      Regroup3(Piece(r), LinesOf(init), Piece(rs[|rs| - 1]));
    }
  }

  /** The replies to a non-empty list: the first answer's, then the rest. */
  lemma RepliesCons(states: int, ground: seq<int>, answers: seq<string>)
    requires |ground| == (if states > 0 then states else 0) && answers != []
    ensures Replies(states, ground, answers) ==
      [Answer(states, ground, answers[0])] + Replies(states, ground, answers[1..])
  {
  }

  /** The session after its first answer: nothing when that answer ends the
      loop, and otherwise that answer's piece followed by the rest. */
  lemma SessionCons(states: int, ground: seq<int>, answers: seq<string>)
    requires |ground| == (if states > 0 then states else 0) && answers != []
    ensures Answer(states, ground, answers[0]).Stop? ==> Session(states, ground, answers) == ""
    ensures !Answer(states, ground, answers[0]).Stop? ==>
      Session(states, ground, answers) == Piece(Answer(states, ground, answers[0])) + Session(states, ground, answers[1..])
  {
    var rest := Session(states, ground, answers[1..]);
    assert "" + rest == rest;
  }

  /** The accepted lines of `[r] + rest` up to the first stop. */
  lemma StopPrefixCons(r: Reply, rest: seq<Reply>)
    ensures var rs := [r] + rest;
      LinesOf(rs[..FirstStop(rs)]) == if r.Stop? then "" else Piece(r) + LinesOf(rest[..FirstStop(rest)])
  {
    var rs := [r] + rest;
    var n := FirstStop(rs);
    if r.Stop? {
      assert rs[..n] == [];
    } else {
      var m := FirstStop(rest);
      assert rs[1..] == rest;
      assert rs[..n] == [r] + rest[..m];
      LinesOfCons(r, rest[..m]);
    }
  }

  /** The file holds the lines of the accepted answers, in order, up to the
      first answer that ends the loop; refused answers add nothing and
      everything after the end is ignored. */
  lemma {:induction false} SessionLines(states: int, ground: seq<int>, answers: seq<string>)
    requires |ground| == (if states > 0 then states else 0)
    ensures var rs := Replies(states, ground, answers);
      Session(states, ground, answers) == LinesOf(rs[..FirstStop(rs)])
    decreases |answers|
  {
    if answers != [] {
      RepliesCons(states, ground, answers);
      SessionCons(states, ground, answers);
      StopPrefixCons(Answer(states, ground, answers[0]), Replies(states, ground, answers[1..]));
      SessionLines(states, ground, answers[1..]);
    }
  }

  /** One more answer, as the session goes on after it. */
  lemma SessionStep(states: int, ground: seq<int>, answers: seq<string>, k: nat, reply: Reply)
    requires |ground| == (if states > 0 then states else 0)
    requires k < |answers| && reply == Answer(states, ground, answers[k])
    ensures reply.Stop? ==> Session(states, ground, answers[k..]) == ""
    ensures reply.Reject? ==> Session(states, ground, answers[k..]) == Session(states, ground, answers[k + 1..])
    ensures reply.Line? ==>
      Session(states, ground, answers[k..]) == reply.text + "\n" + Session(states, ground, answers[k + 1..])
  {
    assert answers[k..][0] == answers[k];
    assert answers[k..][1..] == answers[k + 1..];
  }

  /** Appending a line to the file keeps the rest of the session after it. */
  lemma AppendLine(file: string, t: string, rest: string)
    ensures file + (t + "\n" + rest) == (file + t + "\n") + rest
  {
  }

  /** `main` after the two counts are read: the ground state, then one
      prompt after another until an answer cannot be read. */
  method Run(states: int, electrons: int, answers: seq<string>) returns (file: string)
    ensures file == Session(states, GroundState(states, electrons), answers)
  {
    var ground := GroundState(states, electrons);
    var reference := new int[|ground|](i requires 0 <= i < |ground| => ground[i]);
    assert reference[..] == ground;
    file := "";
    var k := 0;
    assert answers[k..] == answers && "" + Session(states, ground, answers) == Session(states, ground, answers);
    while k < |answers|
      invariant 0 <= k <= |answers| && reference[..] == ground
      invariant file + Session(states, ground, answers[k..]) == Session(states, ground, answers)
    {
      var reply, text := Prompt(states, reference, answers[k]);
      SessionStep(states, ground, answers, k, reply);
      if reply == Stop {
        assert file + "" == file;
        return;
      } else if reply == Reject {
        k := k + 1;
      } else {
        AppendLine(file, text, Session(states, ground, answers[k + 1..]));
        file := file + text + "\n";
        k := k + 1;
      }
    }
    assert answers[k..] == [];
    assert file + "" == file;
  }

  /** The body of the prompt loop for one answer: read the hole and the
      particle, check their range, and build the excitation. */
  method Prompt(states: int, reference: array<int>, answer: string) returns (reply: Reply, text: string)
    requires reference.Length == (if states > 0 then states else 0)
    ensures reply == Answer(states, reference[..], answer)
    ensures reply.Line? ==> text == reply.text
  {
    text := "";
    var ws := Split(answer);
    if |ws| < 1 {
      return Stop, text;
    }
    var hole := ParseInt(ws[0]);
    if hole.None? || |ws| < 2 {
      return Stop, text;
    }
    var particle := ParseInt(ws[1]);
    if particle.None? {
      return Stop, text;
    }
    if hole.value >= states || particle.value >= states || hole.value < 0 || particle.value < 0 {
      return Reject, text;
    }
    var state;
    state, text := BuildExcitation(reference, hole.value, particle.value);
    reply := Line(text);
  }
}
