/** One round of play as transitions of the state value (viewmodel/
    GameViewModel.kt). Every command of the view model replaces `_gameState`
    by a `copy` of it; the functions below are those copies, and the
    predicates say what a stand, and the dealer's turn it may start, leave
    behind. */
module Round {
  import opened Cards
  import opened States
  import opened Rules

  datatype Seat = Player1 | Player2

  // The tokens appended to `moveHistory`.
  const NewGameMove: string := "NUEVA_PARTIDA"
  const DealerTurnMove: string := "DEALER_TURN"
  const DealerHitMove: string := "DEALER_HIT"
  const DealerStandMove: string := "DEALER_STAND"
  const GameOverMove: string := "GAME_OVER"

  function HitMove(who: Seat): string {
    if who == Player1 then "P1_HIT" else "P2_HIT"
  }

  function BustMove(who: Seat): string {
    if who == Player1 then "P1_BUST" else "P2_BUST"
  }

  function StandMove(who: Seat): string {
    if who == Player1 then "P1_STAND" else "P2_STAND"
  }

  /** One "DEALER_HIT" per card the dealer draws. */
  function DealerHits(n: nat): (moves: seq<string>)
    ensures |moves| == n
    ensures forall i :: 0 <= i < n ==> moves[i] == DealerHitMove
  {
    if n == 0 then [] else DealerHits(n - 1) + [DealerHitMove]
  }

  /** The state `startNewGame` builds: a fresh record, not a copy, so every
      field it does not set -- the tag among them -- is back at its default.
      The dealer shows only the value of the second card. */
  function NewRound(twoPlayer: bool, p1: seq<Card>, p2: seq<Card>, dealer: seq<Card>): (s: GameState)
    requires |dealer| == 2
    ensures s == DefaultGameState.(isTwoPlayerMode := twoPlayer,
      player1Hand := p1, player1Score := HandValue(p1),
      player2Hand := if twoPlayer then p2 else [], player2Score := if twoPlayer then HandValue(p2) else 0,
      dealerHand := dealer, dealerScore := RankValue(dealer[1].rank),
      moveHistory := [NewGameMove])
  {
    var initial := GameState(twoPlayer, p1, [], dealer, HandValue(p1), 0, RankValue(dealer[1].rank),
      Player1Turn, Pending, Pending, 0, [NewGameMove], "");
    if twoPlayer then initial.(player2Hand := p2, player2Score := HandValue(p2), player2Result := Pending)
    else initial
  }

  /** `copy(moveHistory = moveHistory + move)`: only the history changes. */
  function Record(s: GameState, move: string): GameState {
    s.(moveHistory := s.moveHistory + [move])
  }

  /** A player's hit: the grown hand, its value, and the hit token. */
  function Hit(s: GameState, who: Seat, hand: seq<Card>): GameState {
    var moves := s.moveHistory + [HitMove(who)];
    if who == Player1 then s.(player1Hand := hand, player1Score := HandValue(hand), moveHistory := moves)
    else s.(player2Hand := hand, player2Score := HandValue(hand), moveHistory := moves)
  }

  /** What the bust branch of a hit marks before it stands. */
  function MarkBust(s: GameState, who: Seat): GameState {
    var moves := s.moveHistory + [BustMove(who)];
    if who == Player1 then s.(player1Result := Bust, moveHistory := moves)
    else s.(player2Result := Bust, moveHistory := moves)
  }

  /** `startDealerTurn`: the dealer's whole hand is now counted. */
  function EnterDealerTurn(s: GameState, dealer: seq<Card>): GameState {
    s.(gameStatus := DealerTurn, dealerScore := HandValue(dealer), moveHistory := s.moveHistory + [DealerTurnMove])
  }

  /** The state when the dealer's drawing loop ends: after `drawn` cards the
      hand and its value are those of `dealer`; with no card drawn the
      state's hand and score are left as they were. */
  function DealerStands(s: GameState, drawn: nat, dealer: seq<Card>): GameState {
    var t := DealerDrew(s, drawn, dealer);
    Record(t, DealerStandMove)
  }

  /** The state after the dealer drew `drawn` cards, reaching `dealer`. */
  function DealerDrew(s: GameState, drawn: nat, dealer: seq<Card>): GameState {
    if drawn == 0 then s
    else s.(dealerHand := dealer, dealerScore := HandValue(dealer), moveHistory := s.moveHistory + DealerHits(drawn))
  }

  /** The copy each round of the dealer's loop makes: the new hand, its
      value, and one "DEALER_HIT". */
  function DealerHit(s: GameState, dealer: seq<Card>): GameState {
    s.(dealerHand := dealer, dealerScore := HandValue(dealer), moveHistory := s.moveHistory + [DealerHitMove])
  }

  /** Drawing once more is one more such copy. */
  lemma DealerDrewOneMore(s: GameState, drawn: nat, dealer: seq<Card>, next: seq<Card>)
    ensures DealerDrew(s, drawn + 1, next) == DealerHit(DealerDrew(s, drawn, dealer), next)
  {
    if drawn == 0 {
      assert DealerHits(1) == [DealerHitMove];
    } else {
      assert s.moveHistory + DealerHits(drawn + 1) == s.moveHistory + DealerHits(drawn) + [DealerHitMove];
    }
  }

  /** `determineWinner`: each player is settled against the dealer's score;
      the second player only in two-player mode. */
  function Settle(s: GameState, twoPlayer: bool, dealerScore: int): GameState {
    var p1 := CalculateResult(s.player1Score, s.player1Result, dealerScore, dealerScore > 21);
    var p2 := if twoPlayer then CalculateResult(s.player2Score, s.player2Result, dealerScore, dealerScore > 21)
      else s.player2Result;
    s.(player1Result := p1, player2Result := p2, gameStatus := GameOver, moveHistory := s.moveHistory + [GameOverMove])
  }

  /** The dealer's hand went from `before` to `after` by drawing one card
      at a time, each to a hand worth less than 17. */
  ghost predicate DrewUnder17(before: seq<Card>, after: seq<Card>)
    decreases |after|
  {
    if |after| <= |before| then after == before
    else HandValue(after[..|after| - 1]) < 17 && DrewUnder17(before, after[..|after| - 1])
  }

  /** The dealer's drawing loop went from `before` to `after`: it drew only
      while under 17 and stopped at 17 or more. */
  ghost predicate DealerStopped(before: seq<Card>, after: seq<Card>) {
    DrewUnder17(before, after) && HandValue(after) >= 17
  }

  /** Drawing one more card to a hand worth less than 17 keeps the record
      of the drawing loop. */
  lemma DrawUnder17(before: seq<Card>, hand: seq<Card>, c: Card)
    requires DrewUnder17(before, hand) && HandValue(hand) < 17
    ensures DrewUnder17(before, hand + [c])
  {
    DrewOnlyAdded(before, hand);
    assert (hand + [c])[..|hand|] == hand;
  }

  /** The drawing loop only added cards, and every hand it drew to, from
      `before` up to the one before `after`, was worth less than 17. */
  lemma {:induction false} DrewOnlyAdded(before: seq<Card>, after: seq<Card>)
    requires DrewUnder17(before, after)
    ensures |before| <= |after| && after[..|before|] == before
    ensures forall k :: |before| <= k < |after| ==> HandValue(after[..k]) < 17
    decreases |after|
  {
    if |after| > |before| {
      var shorter := after[..|after| - 1];
      DrewOnlyAdded(before, shorter);
      assert after[..|before|] == shorter[..|before|];
      forall k | |before| <= k < |after|
        ensures HandValue(after[..k]) < 17
      {
        if k < |shorter| {
          assert after[..k] == shorter[..k];
        }
      }
    }
  }

  /** From `s`, the dealer's turn ran with the hand going from `before` to
      `after` and ended in `t`. */
  ghost predicate DealerPlays(s: GameState, twoPlayer: bool, before: seq<Card>, after: seq<Card>, t: GameState) {
    && DealerStopped(before, after)
    && t == Settle(DealerStands(EnterDealerTurn(s, before), |after| - |before|, after), twoPlayer, HandValue(after))
  }

  /** Whether a stand from `s` hands the turn to the dealer: a first
      player's stand does unless the second player is still to play, and a
      second player's stand always does. */
  predicate StandStartsDealer(s: GameState, twoPlayer: bool) {
    || (s.gameStatus == Player1Turn && !(twoPlayer && s.player2Result == Pending))
    || s.gameStatus == Player2Turn
  }

  /** `onPlayerStand` took `s` to `t`, the dealer's hand going from
      `before` to `after`. */
  ghost predicate StandsTo(s: GameState, twoPlayer: bool, before: seq<Card>, after: seq<Card>, t: GameState) {
    match s.gameStatus
    case Player1Turn =>
      var stood := Record(s, StandMove(Player1));
      if twoPlayer && s.player2Result == Pending then t == stood.(gameStatus := Player2Turn) && after == before
      else DealerPlays(stood, twoPlayer, before, after, t)
    case Player2Turn =>
      DealerPlays(Record(s, StandMove(Player2)), twoPlayer, before, after, t)
    case _ => t == s && after == before
  }

  // ---------------------------------------------------------------------
  // The dealer's final hand
  // ---------------------------------------------------------------------

  /** Adding `x` points to the total raises the devalued total by at most
      `x`. */
  lemma {:induction false} DevalueShift(total: int, aces: nat, x: nat)
    ensures Devalue(total + x, aces) <= Devalue(total, aces) + x
    decreases aces
  {
    if total > 21 && aces > 0 {
      DevalueShift(total - 10, aces - 1, x);
    } else {
      DevalueAtMost(total + x, aces);
    }
  }

  /** Devaluing never raises a total. */
  lemma {:induction false} DevalueAtMost(total: int, aces: nat)
    ensures Devalue(total, aces) <= total
    decreases aces
  {
    if total > 21 && aces > 0 {
      DevalueAtMost(total - 10, aces - 1);
    }
  }

  /** One card added to a hand worth 16 or less gives at most 26: a card
      other than an Ace adds at most 10, and a new Ace is dropped to 1 as
      soon as counting it 11 would pass 21. */
  lemma DealerCardBound(hand: seq<Card>, c: Card)
    requires HandValue(hand) <= 16
    ensures HandValue(hand + [c]) <= 26
  {
    AppendCard(hand, c);
    var total, aces := RawTotal(hand), AceCount(hand);
    if c.rank == Ace {
      if total + 11 > 21 {
        DevalueShift(total, aces, 1);
        assert Devalue(total + 11, aces + 1) == Devalue(total + 1, aces);
      } else {
        DevalueAtMost(total + 11, aces + 1);
      }
    } else {
      DevalueShift(total, aces, RankValue(c.rank));
    }
  }

  /** A dealer who drew at least one card ends between 17 and 26. */
  lemma DealerEndsBetween17And26(before: seq<Card>, after: seq<Card>)
    requires DealerStopped(before, after) && |after| > |before|
    ensures 17 <= HandValue(after) <= 26
  {
    var k := |after| - 1;
    assert after == after[..k] + [after[k]];
    DealerCardBound(after[..k], after[k]);
  }

  /** The dealer's turn ends the round: the status is GAME_OVER, the first
      player (and in two-player mode the second) is settled, a bust stays a
      bust, the second player's result is untouched in one-player mode, the
      history gains exactly the dealer's tokens, and the players' hands,
      scores, the clock and the tag are as they were. */
  lemma RoundSettles(s: GameState, twoPlayer: bool, before: seq<Card>, after: seq<Card>, t: GameState)
    requires DealerPlays(s, twoPlayer, before, after, t)
    ensures t.gameStatus == GameOver
    ensures t.player1Result != Pending
    ensures t.player1Result == Bust <==> s.player1Result == Bust
    ensures twoPlayer ==> t.player2Result != Pending && (t.player2Result == Bust <==> s.player2Result == Bust)
    ensures !twoPlayer ==> t.player2Result == s.player2Result
    ensures t.moveHistory == s.moveHistory + [DealerTurnMove] + DealerHits(|after| - |before|)
      + [DealerStandMove, GameOverMove]
    ensures t.player1Hand == s.player1Hand && t.player2Hand == s.player2Hand
    ensures t.player1Score == s.player1Score && t.player2Score == s.player2Score
    ensures t.timeElapsed == s.timeElapsed && t.tag == s.tag && t.isTwoPlayerMode == s.isTwoPlayerMode
    ensures |after| > |before| ==> t.dealerHand == after && t.dealerScore == HandValue(after)
  {
    var n := |after| - |before|;
    var m := s.moveHistory;
    if n == 0 {
      assert DealerHits(0) == [];
      assert t.moveHistory == m + [DealerTurnMove] + [DealerStandMove] + [GameOverMove];
    } else {
      assert t.moveHistory == m + [DealerTurnMove] + DealerHits(n) + [DealerStandMove] + [GameOverMove];
    }
  }

  /** A stand only appends to the history, leaves the players' hands alone
      and either passes the turn to the second player or ends the round;
      outside a player's turn it changes nothing. */
  lemma StandOutcome(s: GameState, twoPlayer: bool, before: seq<Card>, after: seq<Card>, t: GameState)
    requires StandsTo(s, twoPlayer, before, after, t)
    ensures s.moveHistory <= t.moveHistory
    ensures t.player1Hand == s.player1Hand && t.player2Hand == s.player2Hand
    ensures StandStartsDealer(s, twoPlayer) ==> t.gameStatus == GameOver
    ensures s.gameStatus == Player1Turn && !StandStartsDealer(s, twoPlayer) ==>
      t.gameStatus == Player2Turn && t.moveHistory == s.moveHistory + [StandMove(Player1)] && after == before
    ensures s.gameStatus != Player1Turn && s.gameStatus != Player2Turn ==> t == s
  {
    match s.gameStatus {
      case Player1Turn =>
        var stood := Record(s, StandMove(Player1));
        if !(twoPlayer && s.player2Result == Pending) {
          RoundSettles(stood, twoPlayer, before, after, t);
        }
      case Player2Turn =>
        RoundSettles(Record(s, StandMove(Player2)), twoPlayer, before, after, t);
      case _ =>
    }
  }
}
