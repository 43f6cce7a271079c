/** babanuki.py: the cards and piles of an old-maid game. Cards are objects
    compared by identity (the source defines no equality on them); a pile
    keeps its list of cards and a cached count. The shuffle becomes an
    order the caller supplies; the interactive game is not modelled. */
module Babanuki {
  const Suits: seq<string> := ["Hearts", "Diamonds", "Clubs", "Spades"]
  const Values: seq<string> := ["7", "8", "9", "10", "Jack", "Queen", "King", "Ace"]
  const JokerSuit := "X"
  const Joker := "Joker"

  /** `samecolor`: two different suits of the same colour, compared as the
      set of the two. */
  predicate SameColor(a: string, b: string) {
    {a, b} == {"Hearts", "Diamonds"} || {a, b} == {"Clubs", "Spades"}
  }

  /** The pairs `samecolor` accepts, spelled out. */
  lemma SameColorCases(a: string, b: string)
    ensures SameColor(a, b) <==>
      (a == "Hearts" && b == "Diamonds") || (a == "Diamonds" && b == "Hearts") ||
      (a == "Clubs" && b == "Spades") || (a == "Spades" && b == "Clubs")
  {
    if {a, b} == {"Hearts", "Diamonds"} {
      assert a in {"Hearts", "Diamonds"} && b in {"Hearts", "Diamonds"};
      assert "Hearts" in {a, b} && "Diamonds" in {a, b};
    }
    if {a, b} == {"Clubs", "Spades"} {
      assert a in {"Clubs", "Spades"} && b in {"Clubs", "Spades"};
      assert "Clubs" in {a, b} && "Spades" in {a, b};
    }
  }

  /** The relation is symmetric and never relates a suit to itself. */
  lemma SameColorSymmetric(a: string, b: string)
    ensures SameColor(a, b) == SameColor(b, a)
    ensures !SameColor(a, a)
  {
    SameColorCases(a, b);
    SameColorCases(b, a);
    SameColorCases(a, a);
  }

  class Card {
    const suit: string
    const value: string

    constructor (suit: string, value: string)
      ensures this.suit == suit && this.value == value
    {
      this.suit := suit;
      this.value := value;
    }

    /** `__str__`. */
    function Str(): string {
      if value == Joker then value + "!" else value + " of " + suit
    }

    /** The joker prints as `Joker!` and no other card does; any other card
        prints its value, ` of ` and its suit. */
    lemma StrCases()
      ensures Str() == "Joker!" <==> value == Joker
      ensures value != Joker ==>
        Str()[..|value|] == value && Str()[|value|..|value| + 4] == " of " &&
        Str()[|value| + 4..] == suit
    {
      if value != Joker {
        var s := Str();
        assert s[|value|] == ' ';
        assert forall k :: 0 <= k < 6 ==> "Joker!"[k] != ' ';
        if |s| == 6 {
          assert |value| < 6;
        }
      }
    }
  }

  /** Two cards `remove_pairs` matches: equal values, same-colour suits. */
  predicate Pair(c: Card, d: Card) {
    SameColor(c.suit, d.suit) && c.value == d.value
  }

  /** `c` has a partner among `cards`. */
  predicate HasPartner(c: Card, cards: seq<Card>) {
    exists d :: d in cards && Pair(c, d)
  }

  /** The set `to_rem` that `remove_pairs` collects. */
  function Partnered(cards: seq<Card>): set<Card> {
    set c | c in cards && HasPartner(c, cards)
  }

  /** No card appears twice. */
  predicate Distinct<T(==)>(s: seq<T>) {
    forall i, j :: 0 <= i < j < |s| ==> s[i] != s[j]
  }

  /** `list.remove`: the first element equal to `x` taken out. */
  function RemoveFirst<T(==)>(s: seq<T>, x: T): seq<T>
    decreases |s|
  {
    if s == [] then []
    else if s[0] == x then s[1..]
    else [s[0]] + RemoveFirst(s[1..], x)
  }

  /** Removing a present element drops exactly one copy of it; removing an
      absent one changes nothing. */
  lemma {:induction false} RemoveFirstCount<T>(s: seq<T>, x: T)
    ensures x in s ==>
      |RemoveFirst(s, x)| == |s| - 1 && multiset(RemoveFirst(s, x)) == multiset(s) - multiset{x}
    ensures x !in s ==> RemoveFirst(s, x) == s
    decreases |s|
  {
    if s != [] {
      RemoveFirstCount(s[1..], x);
      assert s == [s[0]] + s[1..];
      if s[0] != x && x !in s[1..] {
        assert x !in s;
      }
    }
  }

  /** The elements of `s` outside `gone`, in their order. */
  function Without<T(==)>(s: seq<T>, gone: set<T>): seq<T>
    decreases |s|
  {
    if s == [] then []
    else (if s[0] in gone then [] else [s[0]]) + Without(s[1..], gone)
  }

  /** What stays is what was there and is not left out. */
  lemma {:induction false} WithoutMembers<T>(s: seq<T>, gone: set<T>, x: T)
    ensures x in Without(s, gone) <==> x in s && x !in gone
    decreases |s|
  {
    if s != [] {
      WithoutMembers(s[1..], gone, x);
      assert s == [s[0]] + s[1..];
    }
  }

  /** In a list without repeats, removing one more element with
      `list.remove` is leaving it out along with the others. */
  lemma {:induction false} RemoveFirstWithout<T>(s: seq<T>, gone: set<T>, x: T)
    requires Distinct(s) && x in s && x !in gone
    ensures RemoveFirst(Without(s, gone), x) == Without(s, gone + {x})
    decreases |s|
  {
    var rest := s[1..];
    assert Distinct(rest) by {
      forall i, j | 0 <= i < j < |rest|
        ensures rest[i] != rest[j]
      {
        assert rest[i] == s[i + 1] && rest[j] == s[j + 1];
      }
    }
    if s[0] == x {
      assert x !in rest by {
        forall j | 0 <= j < |rest|
          ensures rest[j] != x
        {
          assert rest[j] == s[j + 1];
        }
      }
      WithoutSame(rest, gone, x);
    } else {
      RemoveFirstWithout(rest, gone, x);
      if s[0] !in gone {
        var w := Without(rest, gone);
        assert Without(s, gone) == [s[0]] + w;
        assert ([s[0]] + w)[1..] == w;
        assert Without(s, gone + {x}) == [s[0]] + Without(rest, gone + {x});
      } else {
        var w, wx := Without(rest, gone), Without(rest, gone + {x});
        assert Without(s, gone) == [] + w;
        assert [] + w == w;
        assert s[0] in gone + {x};
        assert Without(s, gone + {x}) == [] + wx;
        assert [] + wx == wx;
      }
    }
  }

  /** Leaving out an element that is not there changes nothing. */
  lemma {:induction false} WithoutSame<T>(s: seq<T>, gone: set<T>, x: T)
    requires x !in s
    ensures Without(s, gone + {x}) == Without(s, gone)
    decreases |s|
  {
    if s != [] {
      WithoutSame(s[1..], gone, x);
    }
  }

  /** After the pairs are left out, no two remaining cards form a pair. */
  lemma NoPairLeft(cards: seq<Card>)
    ensures var r := Without(cards, Partnered(cards));
      forall i, j :: 0 <= i < |r| && 0 <= j < |r| ==> !Pair(r[i], r[j])
  {
    var r := Without(cards, Partnered(cards));
    forall i, j | 0 <= i < |r| && 0 <= j < |r|
      ensures !Pair(r[i], r[j])
    {
      assert r[i] in r && r[j] in r;
      WithoutMembers(cards, Partnered(cards), r[i]);
      WithoutMembers(cards, Partnered(cards), r[j]);
      assert !HasPartner(r[i], cards);
    }
  }

  /** What stays are exactly the cards without a partner; the joker, whose
      suit has no colour partner, always stays. */
  lemma PairsRemoved(cards: seq<Card>, c: Card)
    ensures c in Without(cards, Partnered(cards)) <==> c in cards && !HasPartner(c, cards)
    ensures c in cards && c.suit == JokerSuit ==> c in Without(cards, Partnered(cards))
  {
    WithoutMembers(cards, Partnered(cards), c);
    if c in cards && c.suit == JokerSuit && HasPartner(c, cards) {
      var d :| d in cards && Pair(c, d);
      SameColorCases(c.suit, d.suit);
    }
  }

  class Pile {
    var cards: seq<Card>
    var ncards: int

    /** The cached count agrees with the list. */
    predicate Valid()
      reads this
    {
      ncards == |cards|
    }

    constructor ()
      ensures cards == [] && Valid()
    {
      cards := [];
      ncards := 0;
    }

    /** `add`: the card goes at the end and the count is taken again. */
    method Add(card: Card)
      modifies this
      ensures cards == old(cards) + [card]
      ensures Valid()
    {
      cards := cards + [card];
      ncards := |cards|;
    }

    /** `discard`: `list.remove` takes out the first occurrence, or raises
      `ValueError` (`ok` false) and changes nothing when the card is not
      there. */
    method Discard(card: Card) returns (ok: bool)
      modifies this
      ensures ok <==> card in old(cards)
      ensures ok ==> cards == RemoveFirst(old(cards), card) && Valid()
      ensures ok ==> multiset(cards) == multiset(old(cards)) - multiset{card}
      ensures !ok ==> cards == old(cards) && ncards == old(ncards)
    {
      if card !in cards {
        return false;
      }
      RemoveFirstCount(cards, card);
      cards := RemoveFirst(cards, card);
      ncards := |cards|;
      return true;
    }

    /** The nested loops of `remove_pairs`: every card with a same-valued,
        same-coloured partner in the pile is collected. */
    method CollectPairs() returns (toRem: set<Card>)
      ensures toRem == Partnered(cards)
    {
      toRem := {};
      for a := 0 to |cards|
        invariant forall c :: c in toRem <==> c in cards[..a] && HasPartner(c, cards)
      {
        for b := 0 to |cards|
          invariant forall c :: c in toRem <==>
            (c in cards[..a] && HasPartner(c, cards)) ||
            (c == cards[a] && exists d :: d in cards[..b] && Pair(c, d))
        {
          if SameColor(cards[a].suit, cards[b].suit) && cards[a].value == cards[b].value {
            assert cards[b] in cards[..b + 1];
            toRem := toRem + {cards[a]};
          }
          assert cards[..b + 1] == cards[..b] + [cards[b]];
        }
        assert cards[..a + 1] == cards[..a] + [cards[a]];
      }
      assert cards[..|cards|] == cards;
    }

    /** `remove_pairs`: the collected cards are discarded one by one, in
        whatever order the set yields them. */
    method RemovePairs()
      modifies this
      requires Valid()
      ensures Valid()
      ensures multiset(cards) == multiset(old(cards)) - multiset(Partnered(old(cards)))
      ensures Distinct(old(cards)) ==> cards == Without(old(cards), Partnered(old(cards)))
    {
      var toRem := CollectPairs();
      ghost var orig := cards;
      var rest := toRem;
      ghost var removed: set<Card> := {};
      WithoutNone(orig);
      while rest != {}
        invariant Valid()
        invariant Discarding(orig, toRem, rest, removed, cards)
        decreases |rest|
      {
        var c :| c in rest;
        ghost var before := cards;
        var ok := Discard(c);
        DiscardStep(orig, toRem, rest, removed, c, before, cards);
        rest := rest - {c};
        removed := removed + {c};
      }
    }
  }

  /** Where the discarding loop of `remove_pairs` stands: the collected
      cards are split into those already discarded and those still to go,
      one copy of each discarded card is gone, and every card still to go
      is in the pile. */
  predicate Discarding(orig: seq<Card>, toRem: set<Card>, rest: set<Card>, removed: set<Card>, cards: seq<Card>) {
    rest + removed == toRem && rest !! removed && (forall c :: c in toRem ==> c in orig) &&
    multiset(cards) == multiset(orig) - multiset(removed) &&
    (forall c :: c in rest ==> c in cards) &&
    (Distinct(orig) ==> cards == Without(orig, removed))
  }

  /** One more copy of a card not yet removed is taken off the count. */
  lemma DiscardCounts(orig: seq<Card>, removed: set<Card>, c: Card, before: seq<Card>, after: seq<Card>)
    requires c !in removed
    requires multiset(before) == multiset(orig) - multiset(removed)
    requires multiset(after) == multiset(before) - multiset{c}
    ensures multiset(after) == multiset(orig) - multiset(removed + {c})
  {
    assert multiset(removed + {c}) == multiset(removed) + multiset{c};
  }

  /** A card of the original pile that was never removed is still there. */
  lemma StillThere(orig: seq<Card>, removed: set<Card>, after: seq<Card>, e: Card)
    requires multiset(after) == multiset(orig) - multiset(removed)
    requires e in orig && e !in removed
    ensures e in after
  {
    assert multiset(orig)[e] > 0 && multiset(removed)[e] == 0;
    assert multiset(after)[e] > 0;
  }

  /** Discarding one more collected card keeps the loop's bookkeeping. */
  lemma DiscardStep(orig: seq<Card>, toRem: set<Card>, rest: set<Card>, removed: set<Card>, c: Card,
                    before: seq<Card>, after: seq<Card>)
    requires Discarding(orig, toRem, rest, removed, before) && c in rest
    requires after == RemoveFirst(before, c)
    requires multiset(after) == multiset(before) - multiset{c}
    ensures Discarding(orig, toRem, rest - {c}, removed + {c}, after)
  {
    DiscardCounts(orig, removed, c, before, after);
    if Distinct(orig) {
      RemoveFirstWithout(orig, removed, c);
    }
    forall e | e in rest - {c}
      ensures e in after
    {
      StillThere(orig, removed + {c}, after, e);
    }
  }

  /** Leaving out nothing keeps everything. */
  lemma {:induction false} WithoutNone<T>(s: seq<T>)
    ensures Without(s, {}) == s
    decreases |s|
  {
    if s != [] {
      WithoutNone(s[1..]);
    }
  }

  /** The cards at even positions, in order. */
  function Evens<T>(s: seq<T>): seq<T>
    decreases |s|
  {
    if s == [] then [] else Evens(s[..|s| - 1]) + (if (|s| - 1) % 2 == 0 then [s[|s| - 1]] else [])
  }

  /** The cards at odd positions, in order. */
  function Odds<T>(s: seq<T>): seq<T>
    decreases |s|
  {
    if s == [] then [] else Odds(s[..|s| - 1]) + (if (|s| - 1) % 2 == 1 then [s[|s| - 1]] else [])
  }

  /** The first hand holds the cards at even positions, in order. */
  lemma {:induction false} EvensAt<T>(s: seq<T>)
    ensures |Evens(s)| == (|s| + 1) / 2
    ensures forall k :: 0 <= k < |Evens(s)| ==> Evens(s)[k] == s[2 * k]
    decreases |s|
  {
    if s != [] {
      var init := s[..|s| - 1];
      EvensAt(init);
    }
  }

  /** The second hand holds the cards at odd positions, in order. */
  lemma {:induction false} OddsAt<T>(s: seq<T>)
    ensures |Odds(s)| == |s| / 2
    ensures forall k :: 0 <= k < |Odds(s)| ==> Odds(s)[k] == s[2 * k + 1]
    decreases |s|
  {
    if s != [] {
      var init := s[..|s| - 1];
      OddsAt(init);
    }
  }

  /** A pile without repeated cards deals a first hand without repeats. */
  lemma EvensDistinct<T>(s: seq<T>)
    requires Distinct(s)
    ensures Distinct(Evens(s))
  {
    EvensAt(s);
    var e := Evens(s);
    forall i, j | 0 <= i < j < |e|
      ensures e[i] != e[j]
    {
      assert e[i] == s[2 * i] && e[j] == s[2 * j];
    }
  }

  /** A pile without repeated cards deals a second hand without repeats. */
  lemma OddsDistinct<T>(s: seq<T>)
    requires Distinct(s)
    ensures Distinct(Odds(s))
  {
    OddsAt(s);
    var o := Odds(s);
    forall i, j | 0 <= i < j < |o|
      ensures o[i] != o[j]
    {
      assert o[i] == s[2 * i + 1] && o[j] == s[2 * j + 1];
    }
  }

  /** In a sequence without repeats every element occurs at most once. */
  lemma {:induction false} DistinctAtMostOnce<T>(s: seq<T>, x: T)
    requires Distinct(s)
    ensures multiset(s)[x] <= 1
    decreases |s|
  {
    if s != [] {
      var a, y := s[..|s| - 1], s[|s| - 1];
      assert s == a + [y];
      assert Distinct(a);
      DistinctAtMostOnce(a, x);
      if x == y {
        assert forall k :: 0 <= k < |a| ==> a[k] == s[k];
        assert x !in a;
      }
    }
  }

  /** An element at two positions occurs at least twice. */
  lemma RepeatedTwice<T>(s: seq<T>, i: int, j: int)
    requires 0 <= i < j < |s| && s[i] == s[j]
    ensures multiset(s)[s[i]] >= 2
  {
    var pre := s[..j];
    assert s == pre + [s[j]] + s[j + 1..];
    assert pre[i] == s[i];
    assert multiset(s) == multiset(pre) + multiset{s[j]} + multiset(s[j + 1..]);
  }

  /** A shuffle of a deck without repeats has no repeats. */
  lemma PermutationDistinct<T>(a: seq<T>, b: seq<T>)
    requires multiset(a) == multiset(b) && Distinct(a)
    ensures Distinct(b)
  {
    forall i, j | 0 <= i < j < |b|
      ensures b[i] != b[j]
    {
      if b[i] == b[j] {
        RepeatedTwice(b, i, j);
        DistinctAtMostOnce(a, b[i]);
      }
    }
  }

  lemma EvensSnoc<T>(a: seq<T>, x: T)
    ensures Evens(a + [x]) == Evens(a) + (if |a| % 2 == 0 then [x] else [])
  {
    assert (a + [x])[..|a|] == a;
  }

  lemma OddsSnoc<T>(a: seq<T>, x: T)
    ensures Odds(a + [x]) == Odds(a) + (if |a| % 2 == 1 then [x] else [])
  {
    assert (a + [x])[..|a|] == a;
  }

  /** Between them the two hands hold every card of the deck once. */
  lemma {:induction false} DealKeepsAll<T>(s: seq<T>)
    ensures multiset(Evens(s)) + multiset(Odds(s)) == multiset(s)
    decreases |s|
  {
    if s != [] {
      var a, x := s[..|s| - 1], s[|s| - 1];
      assert s == a + [x];
      DealKeepsAll(a);
      EvensSnoc(a, x);
      OddsSnoc(a, x);
      assert multiset(s) == multiset(a) + multiset{x};
      if |a| % 2 == 0 {
        assert multiset(Evens(s)) == multiset(Evens(a)) + multiset{x};
      } else {
        assert multiset(Odds(s)) == multiset(Odds(a)) + multiset{x};
      }
    }
  }

  /** Position `8 * i + j` of the deck is value `j` of suit `i`. */
  lemma DeckPosition(i: nat, j: nat)
    requires j < 8
    ensures (8 * i + j) / 8 == i && (8 * i + j) % 8 == j
  {
  }

  /** The inner `for value in values` loop of `Deck.__init__`: the eight
      cards of suit `i` appended after the suits before it. */
  method AddSuit(built: seq<Card>, i: nat) returns (out: seq<Card>)
    requires i < 4 && |built| == 8 * i && Distinct(built)
    requires forall k :: 0 <= k < |built| ==> built[k].suit == Suits[k / 8] && built[k].value == Values[k % 8]
    ensures |out| == 8 * (i + 1) && Distinct(out)
    ensures forall k :: 0 <= k < |out| ==> out[k].suit == Suits[k / 8] && out[k].value == Values[k % 8]
  {
    out := built;
    for j := 0 to 8
      invariant |out| == 8 * i + j && Distinct(out)
      invariant forall k :: 0 <= k < |out| ==> out[k].suit == Suits[k / 8] && out[k].value == Values[k % 8]
    {
      var c := new Card(Suits[i], Values[j]);
      DeckPosition(i, j);
      out := out + [c];
    }
  }

  class Deck {
    var cards: seq<Card>
    var ncards: int

    predicate Valid()
      reads this
    {
      ncards == |cards|
    }

    /** `Deck.__init__`: every suit with every value, suit by suit, then the
        joker. */
    constructor ()
      ensures |cards| == 33 && ncards == 33
      ensures forall k :: 0 <= k < 32 ==> cards[k].suit == Suits[k / 8] && cards[k].value == Values[k % 8]
      ensures cards[32].suit == JokerSuit && cards[32].value == Joker
      ensures Distinct(cards)
    {
      var built: seq<Card> := [];
      for i := 0 to 4
        invariant |built| == 8 * i && Distinct(built)
        invariant forall k :: 0 <= k < |built| ==> built[k].suit == Suits[k / 8] && built[k].value == Values[k % 8]
      {
        built := AddSuit(built, i);
      }
      var c := new Card(JokerSuit, Joker);
      built := built + [c];
      cards := built;
      ncards := |built|;
    }

    /** `deal`: the shuffle puts the cards in the given order, then card `i`
        goes to the first hand when `i` is even and to the second otherwise. */
    method Deal(order: seq<Card>) returns (hand1: Pile, hand2: Pile)
      requires Valid() && multiset(order) == multiset(cards)
      modifies this
      ensures cards == order && Valid()
      ensures fresh(hand1) && fresh(hand2) && hand1 != hand2
      ensures hand1.cards == Evens(order) && hand2.cards == Odds(order)
      ensures hand1.Valid() && hand2.Valid()
      ensures Distinct(old(cards)) ==> Distinct(hand1.cards) && Distinct(hand2.cards)
    {
      if Distinct(cards) {
        PermutationDistinct(cards, order);
        EvensDistinct(order);
        OddsDistinct(order);
      }
      cards := order;
      assert |order| == |multiset(order)| == ncards;
      hand1 := new Pile();
      hand2 := new Pile();
      for i := 0 to ncards
        invariant cards == order && Valid()
        invariant hand1.cards == Evens(cards[..i]) && hand2.cards == Odds(cards[..i])
        invariant hand1.Valid() && hand2.Valid()
      {
        assert cards[..i + 1][..i] == cards[..i];
        if i % 2 == 0 {
          hand1.Add(cards[i]);
        } else {
          hand2.Add(cards[i]);
        }
      }
      assert cards[..ncards] == cards;
    }
  }
}
