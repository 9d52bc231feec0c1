/** The deck (model/Deck.kt): a mutable list of cards, built suit by suit in
    enum order, shuffled in place, and drawn from the front. When the list is
    empty a draw first rebuilds and reshuffles a full deck. */
module Decks {
  import opened Cards

  /** The 52 cards in the order `createDeck` appends them: every rank of
      Clubs, then every rank of Diamonds, and so on. */
  function FullDeck(): (d: seq<Card>)
    ensures |d| == 52
  {
    seq(52, i requires 0 <= i < 52 => Card(AllRanks[i % 13], AllSuits[i / 13]))
  }

  /** Position `13 * s + r` holds the `r`-th rank of the `s`-th suit. */
  lemma FullDeckAt(s: nat, r: nat)
    requires s < 4 && r < 13
    ensures 13 * s + r < 52
    ensures FullDeck()[13 * s + r] == Card(AllRanks[r], AllSuits[s])
  {
    var i := 13 * s + r;
    assert i / 13 == s && i % 13 == r;
  }

  /** Appending the `r`-th rank of the `s`-th suit extends the prefix of
      the full deck built so far by one card. */
  lemma FullDeckPrefix(s: nat, r: nat)
    requires s < 4 && r < 13
    ensures 13 * s + r < 52
    ensures FullDeck()[..13 * s + r + 1] == FullDeck()[..13 * s + r] + [Card(AllRanks[r], AllSuits[s])]
  {
    FullDeckAt(s, r);
    var i := 13 * s + r;
    assert FullDeck()[..i + 1] == FullDeck()[..i] + [FullDeck()[i]];
  }

  /** The position of a card in a freshly built deck. */
  function DeckIndex(c: Card): (i: nat)
    ensures i < 52 && FullDeck()[i] == c
  {
    FullDeckAt(SuitIndex(c.suit), RankIndex(c.rank));
    13 * SuitIndex(c.suit) + RankIndex(c.rank)
  }

  ghost predicate Distinct<T>(s: seq<T>) {
    forall i, j :: 0 <= i < j < |s| ==> s[i] != s[j]
  }

  /** No card occurs twice in a full deck. */
  lemma FullDeckDistinct()
    ensures Distinct(FullDeck())
  {
    EnumIndicesAreUnique();
    forall i, j | 0 <= i < j < 52
      ensures FullDeck()[i] != FullDeck()[j]
    {
      var d := FullDeck();
      assert DeckIndex(d[i]) == i by {
        FullDeckAt(i / 13, i % 13);
      }
      assert DeckIndex(d[j]) == j by {
        FullDeckAt(j / 13, j % 13);
      }
    }
  }

  lemma {:induction false} DistinctCount<T>(s: seq<T>, x: T)
    requires Distinct(s)
    ensures multiset(s)[x] == if x in s then 1 else 0
  {
    if s != [] {
      assert s == [s[0]] + s[1..];
      assert Distinct(s[1..]);
      DistinctCount(s[1..], x);
      if x == s[0] {
        assert x !in s[1..];
      }
    }
  }

  /** A full deck holds every card exactly once. */
  lemma FullDeckHoldsEachCardOnce(c: Card)
    ensures multiset(FullDeck())[c] == 1
  {
    FullDeckDistinct();
    assert FullDeck()[DeckIndex(c)] == c;
    DistinctCount(FullDeck(), c);
  }

  class Deck {
    /** The cards still to be drawn, front first. */
    var cards: seq<Card>
    /** The cards drawn since the deck was last built, in drawing order. */
    ghost var dealt: seq<Card>

    /** Together the drawn cards and the remaining ones are exactly one
        full deck, so no card is drawn twice between two rebuilds. */
    ghost predicate Valid()
      reads this
    {
      multiset(dealt) + multiset(cards) == multiset(FullDeck())
    }

    /** `init { createDeck() }`: a new deck is built but not shuffled. */
    constructor ()
      ensures Valid()
      ensures cards == FullDeck() && dealt == []
    {
      cards := [];
      dealt := [];
      new;
      CreateDeck();
    }

    /** Clears the list and appends one card per suit and rank, suits in
        the outer loop. */
    method CreateDeck()
      modifies this
      ensures cards == FullDeck() && dealt == []
      ensures Valid()
    {
      cards := [];
      dealt := [];
      for s := 0 to 4
        invariant cards == FullDeck()[..13 * s] && dealt == []
      {
        for r := 0 to 13
          invariant cards == FullDeck()[..13 * s + r] && dealt == []
        {
          FullDeckPrefix(s, r);
          cards := cards + [Card(AllRanks[r], AllSuits[s])];
        }
      }
      assert cards == FullDeck();
    }

    /** `cards.shuffle()`: some permutation of the remaining cards. Which
        one is left open, as the random source is not modelled. */
    method Shuffle()
      modifies this
      requires Valid()
      ensures Valid()
      ensures multiset(cards) == multiset(old(cards)) && |cards| == |old(cards)|
      ensures dealt == old(dealt)
    {
      var shuffled :| multiset(shuffled) == multiset(cards);
      assert |shuffled| == |multiset(shuffled)| == |multiset(cards)| == |cards|;
      cards := shuffled;
    }

    /** Removes and returns the front card; on an empty deck first rebuilds
        and reshuffles a full one, of which the drawn card is then the first
        to be dealt. */
    method DrawCard() returns (c: Card)
      modifies this
      requires Valid()
      ensures Valid()
      ensures old(cards) != [] ==> c == old(cards)[0] && cards == old(cards)[1..] && dealt == old(dealt) + [c]
      ensures old(cards) == [] ==> |cards| == 51 && dealt == [c] && multiset(cards) + multiset{c} == multiset(FullDeck())
    {
      if cards == [] {
        CreateDeck();
        Shuffle();
      }
      c := cards[0];
      assert cards == [c] + cards[1..];
      cards := cards[1..];
      dealt := dealt + [c];
    }

    /** `drawHand`: two cards drawn one after the other. */
    method DrawHand() returns (hand: seq<Card>)
      modifies this
      requires Valid()
      ensures Valid()
      ensures |hand| == 2
      ensures |old(cards)| >= 2 ==> hand == old(cards)[..2] && cards == old(cards)[2..] && dealt == old(dealt) + hand
      ensures |old(cards)| >= 2 ==> |cards| == |old(cards)| - 2
      ensures old(cards) != [] ==> hand[0] == old(cards)[0]
      ensures |old(cards)| == 1 ==> |cards| == 51 && dealt == [hand[1]]
      ensures |old(cards)| == 0 ==> |cards| == 50 && dealt == hand
    {
      var first := DrawCard();
      var second := DrawCard();
      hand := [first, second];
    }
  }

  /** The cards `taken` came one by one off the front of a deck holding
      `cards`, with `dealt` recorded, and left it holding `rest`, with
      `record` recorded. When the deck ran out on the way it was rebuilt
      and shuffled, and nothing more is determined. */
  ghost predicate TakenFromFront(cards: seq<Card>, dealt: seq<Card>, taken: seq<Card>, rest: seq<Card>, record: seq<Card>) {
    |taken| <= |cards| ==> cards == taken + rest && record == dealt + taken
  }

  /** Two runs of draws off the front are one run of their cards in turn. */
  lemma TakenInTurn(cards: seq<Card>, dealt: seq<Card>, first: seq<Card>, middle: seq<Card>, middleDealt: seq<Card>,
                    second: seq<Card>, rest: seq<Card>, record: seq<Card>)
    requires TakenFromFront(cards, dealt, first, middle, middleDealt)
    requires TakenFromFront(middle, middleDealt, second, rest, record)
    ensures TakenFromFront(cards, dealt, first + second, rest, record)
  {
    if |first + second| <= |cards| {
      assert cards == (first + second) + rest;
    }
  }

  /** One more draw off the front, of the card `c` that was appended to a
      hand, extends the run of draws that hand received since it was
      `start`. */
  lemma TakenOneMore(cards: seq<Card>, dealt: seq<Card>, start: seq<Card>, hand: seq<Card>, middle: seq<Card>,
                     middleDealt: seq<Card>, c: Card, rest: seq<Card>, record: seq<Card>)
    requires |start| <= |hand| && TakenFromFront(cards, dealt, hand[|start|..], middle, middleDealt)
    requires middle != [] ==> c == middle[0] && rest == middle[1..] && record == middleDealt + [c]
    ensures TakenFromFront(cards, dealt, (hand + [c])[|start|..], rest, record)
  {
    assert (hand + [c])[|start|..] == hand[|start|..] + [c];
    TakenInTurn(cards, dealt, hand[|start|..], middle, middleDealt, [c], rest, record);
  }

  /** A card that has been dealt since the last rebuild is no longer in the
      deck, and no card has been dealt twice. */
  lemma DealtCardsLeaveTheDeck(d: Deck, c: Card)
    requires d.Valid()
    ensures multiset(d.dealt)[c] <= 1
    ensures c in d.dealt ==> c !in d.cards
  {
    FullDeckHoldsEachCardOnce(c);
    assert multiset(d.dealt)[c] + multiset(d.cards)[c] == 1;
  }
}
