/** Blackjack scoring (viewmodel/GameViewModel.kt, `calculateHandValue` and
    `calculateResult`). A hand's value is the sum of its rank values, with
    Aces first counted 11 and then dropped to 1, one at a time, while the
    total is over 21. */
module Rules {
  import opened Cards
  import opened States

  /** The sum of the rank values, every Ace counted 11. */
  function RawTotal(hand: seq<Card>): int {
    if hand == [] then 0
    else RawTotal(hand[..|hand| - 1]) + RankValue(hand[|hand| - 1].rank)
  }

  /** How many Aces the hand holds. */
  function AceCount(hand: seq<Card>): nat {
    if hand == [] then 0
    else AceCount(hand[..|hand| - 1]) + (if hand[|hand| - 1].rank == Ace then 1 else 0)
  }

  /** The devaluing loop: take 10 off while the total is over 21 and an Ace
      is still counted 11. */
  function Devalue(total: int, aces: nat): int {
    if total > 21 && aces > 0 then Devalue(total - 10, aces - 1) else total
  }

  /** The value `calculateHandValue` returns. */
  function HandValue(hand: seq<Card>): int {
    Devalue(RawTotal(hand), AceCount(hand))
  }

  /** How many Aces the devaluing loop drops: none when the total is at most
      21, else the fewest that bring it to 21 or less, but never more than
      the hand has. */
  function Devaluations(total: int, aces: nat): (k: nat)
    ensures k <= aces
  {
    if total <= 21 then 0
    else if (total - 12) / 10 < aces then (total - 12) / 10
    else aces
  }

  /** The devaluing loop takes off 10 per dropped Ace; it stops as soon as
      the total is at most 21 or no Ace is left, so one Ace fewer would
      still leave the total over 21. */
  lemma {:induction false} DevalueDropsFewestAces(total: int, aces: nat)
    ensures Devalue(total, aces) == total - 10 * Devaluations(total, aces)
    ensures Devalue(total, aces) <= 21 || Devaluations(total, aces) == aces
    ensures Devaluations(total, aces) > 0 ==> total - 10 * (Devaluations(total, aces) - 1) > 21
  {
    if total > 21 && aces > 0 {
      DevalueDropsFewestAces(total - 10, aces - 1);
      if total - 10 > 21 {
        assert (total - 22) / 10 == (total - 12) / 10 - 1;
      }
    }
  }

  /** Every card is worth at least 1 even when all its Aces are dropped. */
  lemma {:induction false} RawTotalAboveAces(hand: seq<Card>)
    ensures RawTotal(hand) - 10 * AceCount(hand) >= |hand|
  {
    if hand != [] {
      RawTotalAboveAces(hand[..|hand| - 1]);
    }
  }

  /** A hand is worth at least as many points as it has cards, which bounds
      the dealer's drawing loop. */
  lemma HandValueAtLeastSize(hand: seq<Card>)
    ensures HandValue(hand) >= |hand|
  {
    RawTotalAboveAces(hand);
    DevalueDropsFewestAces(RawTotal(hand), AceCount(hand));
  }

  /** Adding a card adds its rank value to the raw total and one to the Ace
      count exactly when it is an Ace. */
  lemma AppendCard(hand: seq<Card>, c: Card)
    ensures RawTotal(hand + [c]) == RawTotal(hand) + RankValue(c.rank)
    ensures AceCount(hand + [c]) == AceCount(hand) + (if c.rank == Ace then 1 else 0)
  {
    assert (hand + [c])[..|hand|] == hand;
  }

  /** Two Aces and a ten count 32, then 22, then 12; an Ace and a King make
      21. */
  lemma HandValueExamples()
    ensures HandValue([Card(Ace, Spades), Card(Ace, Hearts), Card(Ten, Clubs)]) == 12
    ensures HandValue([Card(Ace, Spades), Card(King, Hearts)]) == 21
  {
    var one := [Card(Ace, Spades)];
    AppendCard([], Card(Ace, Spades));
    assert [] + one == one;
    AppendCard(one, Card(Ace, Hearts));
    AppendCard(one + [Card(Ace, Hearts)], Card(Ten, Clubs));
    assert one + [Card(Ace, Hearts)] + [Card(Ten, Clubs)] == [Card(Ace, Spades), Card(Ace, Hearts), Card(Ten, Clubs)];
    assert Devalue(32, 2) == Devalue(22, 1) == Devalue(12, 0) == 12;
    AppendCard(one, Card(King, Hearts));
  }

  /** `calculateHandValue`: one pass summing values and counting Aces, then
      the devaluing loop. */
  method CalculateHandValue(hand: seq<Card>) returns (total: int)
    ensures total == HandValue(hand)
  {
    total := 0;
    var aces: nat := 0;
    for i := 0 to |hand|
      invariant total == RawTotal(hand[..i]) && aces == AceCount(hand[..i])
    {
      assert hand[..i + 1] == hand[..i] + [hand[i]];
      AppendCard(hand[..i], hand[i]);
      total := total + RankValue(hand[i].rank);
      if hand[i].rank == Ace {
        aces := aces + 1;
      }
    }
    assert hand[..|hand|] == hand;
    while total > 21 && aces > 0
      invariant Devalue(total, aces) == HandValue(hand)
    {
      total := total - 10;
      aces := aces - 1;
    }
  }

  /** `calculateResult`: a bust stands whatever the dealer did; otherwise a
      busted dealer loses to everyone, and else the higher score wins. */
  function CalculateResult(playerScore: int, currentResult: GameResult, dealerScore: int, dealerBusted: bool): (r: GameResult)
    ensures r != Pending
    ensures r == Bust <==> currentResult == Bust
    ensures r == Win <==> currentResult != Bust && (dealerBusted || playerScore > dealerScore)
    ensures r == Loss <==> currentResult != Bust && !dealerBusted && playerScore < dealerScore
    ensures r == Push <==> currentResult != Bust && !dealerBusted && playerScore == dealerScore
  {
    if currentResult == Bust then Bust
    else if dealerBusted then Win
    else if playerScore > dealerScore then Win
    else if playerScore < dealerScore then Loss
    else Push
  }
}
