/** The game's view model (viewmodel/GameViewModel.kt): the current state,
    the deck, the mode flag and the three internal hand lists the commands
    grow in place. Commands run one after another; the coroutine delays
    between the steps of a command are not modelled. */
module ViewModel {
  import opened Options
  import opened Cards
  import opened Decks
  import opened States
  import opened Rules
  import opened Round
  import opened SaveFormats
  import SaveLoad

  class GameViewModel {
    /** `_gameState.value`. */
    var state: GameState
    const deck: Deck
    var isTwoPlayerMode: bool
    /** `internalPlayer1Hand`, `internalPlayer2Hand`, `internalDealerHand`. */
    var player1Hand: seq<Card>
    var player2Hand: seq<Card>
    var dealerHand: seq<Card>
    /** Whether the `lateinit` hands of the first player and the dealer, and
        that of the second player, have been assigned; touching one that has
        not throws. */
    var handsDealt: bool
    var player2Dealt: bool

    /** The deck is whole, the mode flag agrees with the state, and the
        state shows the internal hands once they exist (the second player's
        only in two-player mode). */
    ghost predicate Valid()
      reads this, deck
    {
      && deck.Valid()
      && isTwoPlayerMode == state.isTwoPlayerMode
      && (handsDealt ==> state.player1Hand == player1Hand && state.dealerHand == dealerHand)
      && (player2Dealt && isTwoPlayerMode ==> state.player2Hand == player2Hand)
    }

    /** A new view model holds the default state and an unshuffled deck; no
        hand has been dealt yet. */
    constructor ()
      ensures Valid()
      ensures state == DefaultGameState && !isTwoPlayerMode
      ensures deck.cards == FullDeck() && !handsDealt && !player2Dealt
    {
      state := DefaultGameState;
      isTwoPlayerMode := false;
      player1Hand, player2Hand, dealerHand := [], [], [];
      handsDealt, player2Dealt := false, false;
      deck := new Deck();
    }

    /** `initGame`: sets the mode, then starts a new round. */
    method InitGame(isTwoPlayer: bool)
      modifies this, deck
      requires Valid()
      ensures Valid() && handsDealt
      ensures isTwoPlayerMode == isTwoPlayer && player2Dealt == (old(player2Dealt) || isTwoPlayer)
      ensures |player1Hand| == 2 && |dealerHand| == 2 && (isTwoPlayer ==> |player2Hand| == 2)
      ensures state == NewRound(isTwoPlayer, player1Hand, player2Hand, dealerHand)
      ensures !isTwoPlayer ==> player2Hand == old(player2Hand)
      ensures |old(deck.cards)| >= (if isTwoPlayer then 6 else 4) ==>
        && deck.dealt == old(deck.dealt) + player1Hand + dealerHand + (if isTwoPlayer then player2Hand else [])
        && |deck.cards| == |old(deck.cards)| - (if isTwoPlayer then 6 else 4)
    {
      isTwoPlayerMode := isTwoPlayer;
      StartNewGame();
    }

    /** `startNewGame`: shuffles what is left of the deck and deals two
        cards to the first player, then to the dealer, then -- in two-player
        mode only -- to the second player; the state is a fresh round. When
        the deck holds enough cards, the dealt hands are its next cards in
        that order, so no card is on the table twice. */
    method StartNewGame()
      modifies this, deck
      requires deck.Valid()
      ensures Valid() && handsDealt
      ensures isTwoPlayerMode == old(isTwoPlayerMode) && player2Dealt == (old(player2Dealt) || isTwoPlayerMode)
      ensures |player1Hand| == 2 && |dealerHand| == 2 && (isTwoPlayerMode ==> |player2Hand| == 2)
      ensures state == NewRound(isTwoPlayerMode, player1Hand, player2Hand, dealerHand)
      ensures !isTwoPlayerMode ==> player2Hand == old(player2Hand)
      ensures |old(deck.cards)| >= (if isTwoPlayerMode then 6 else 4) ==>
        && deck.dealt == old(deck.dealt) + player1Hand + dealerHand + (if isTwoPlayerMode then player2Hand else [])
        && |deck.cards| == |old(deck.cards)| - (if isTwoPlayerMode then 6 else 4)
    {
      DealHands();
      state := NewRound(isTwoPlayerMode, player1Hand, player2Hand, dealerHand);
    }

    /** The shuffle and the deals of `startNewGame`. */
    method DealHands()
      modifies this, deck
      requires deck.Valid()
      ensures deck.Valid() && handsDealt && state == old(state)
      ensures isTwoPlayerMode == old(isTwoPlayerMode) && player2Dealt == (old(player2Dealt) || isTwoPlayerMode)
      ensures |player1Hand| == 2 && |dealerHand| == 2 && (isTwoPlayerMode ==> |player2Hand| == 2)
      ensures !isTwoPlayerMode ==> player2Hand == old(player2Hand)
      ensures |old(deck.cards)| >= (if isTwoPlayerMode then 6 else 4) ==>
        && deck.dealt == old(deck.dealt) + player1Hand + dealerHand + (if isTwoPlayerMode then player2Hand else [])
        && |deck.cards| == |old(deck.cards)| - (if isTwoPlayerMode then 6 else 4)
    {
      ghost var dealt, remaining := deck.dealt, |deck.cards|;
      deck.Shuffle();
      player1Hand := deck.DrawHand();
      ghost var afterPlayer1 := deck.dealt;
      dealerHand := deck.DrawHand();
      handsDealt := true;
      ghost var afterDealer := deck.dealt;
      if remaining >= 4 {
        assert afterPlayer1 == dealt + player1Hand;
        assert afterDealer == afterPlayer1 + dealerHand;
        assert |deck.cards| == remaining - 4;
      }
      if isTwoPlayerMode {
        player2Hand := deck.DrawHand();
        player2Dealt := true;
      }
    }

    /** One second of the game timer. */
    method Tick()
      modifies this
      ensures state == old(state).(timeElapsed := old(state.timeElapsed) + 1)
      ensures isTwoPlayerMode == old(isTwoPlayerMode) && handsDealt == old(handsDealt) && player2Dealt == old(player2Dealt)
      ensures player1Hand == old(player1Hand) && player2Hand == old(player2Hand) && dealerHand == old(dealerHand)
    {
      state := state.(timeElapsed := state.timeElapsed + 1);
    }

    /** The internal hand of a player. */
    function HandOf(who: Seat): seq<Card>
      reads this
    {
      if who == Player1 then player1Hand else player2Hand
    }

    /** A hit by `who` took the state from `s`, with that player's hand
        `hand`, the other player's hand `other`, the dealer's `dealer` and
        the deck's cards `cards` and dealt record `dealt`, to the current
        one: the hand grew by one card -- the deck's front card when the
        deck was not empty -- and was recounted; at 21 or less that is all,
        over 21 the player was marked bust and stood. The player's card and
        then the dealer's new cards came off the front of the deck. */
    ghost predicate HitDone(who: Seat, s: GameState, hand: seq<Card>, other: seq<Card>, dealer: seq<Card>,
                            cards: seq<Card>, dealt: seq<Card>)
      reads this, deck
    {
      var grown := HandOf(who);
      && |grown| == |hand| + 1 && grown[..|hand|] == hand
      && (cards != [] ==> grown[|hand|] == cards[0])
      && HandOf(if who == Player1 then Player2 else Player1) == other
      && |dealer| <= |dealerHand|
      && TakenFromFront(cards, dealt, [grown[|hand|]] + dealerHand[|dealer|..], deck.cards, deck.dealt)
      && var hit := Hit(s, who, grown);
         if HandValue(grown) <= 21 then state == hit && dealerHand == dealer
         else StandsTo(MarkBust(hit, who), isTwoPlayerMode, dealer, dealerHand, state)
    }

    /** `onPlayerHit`: in a player's turn, that player hits; outside the
        players' turns nothing happens. */
    method OnPlayerHit()
      modifies this, deck
      requires Valid()
      requires state.gameStatus == Player1Turn ==> handsDealt
      requires state.gameStatus == Player2Turn ==> handsDealt && player2Dealt
      ensures Valid()
      ensures isTwoPlayerMode == old(isTwoPlayerMode) && handsDealt == old(handsDealt) && player2Dealt == old(player2Dealt)
      ensures old(state.gameStatus) == Player1Turn ==>
        HitDone(Player1, old(state), old(player1Hand), old(player2Hand), old(dealerHand), old(deck.cards), old(deck.dealt))
      ensures old(state.gameStatus) == Player2Turn ==>
        HitDone(Player2, old(state), old(player2Hand), old(player1Hand), old(dealerHand), old(deck.cards), old(deck.dealt))
      ensures old(state.gameStatus) != Player1Turn && old(state.gameStatus) != Player2Turn ==>
        && state == old(state) && deck.cards == old(deck.cards) && deck.dealt == old(deck.dealt)
        && player1Hand == old(player1Hand) && player2Hand == old(player2Hand) && dealerHand == old(dealerHand)
    {
      match state.gameStatus {
        case Player1Turn => PlayerHit(Player1);
        case Player2Turn => PlayerHit(Player2);
        case _ =>
      }
    }

    /** One branch of `onPlayerHit`: draw a card into the player's hand,
        show the recounted hand and record the hit; over 21, record the
        bust and stand. */
    method PlayerHit(who: Seat)
      modifies this, deck
      requires Valid() && handsDealt && (who == Player2 ==> player2Dealt)
      requires state.gameStatus == if who == Player1 then Player1Turn else Player2Turn
      ensures Valid()
      ensures isTwoPlayerMode == old(isTwoPlayerMode) && handsDealt == old(handsDealt) && player2Dealt == old(player2Dealt)
      ensures HitDone(who, old(state), old(HandOf(who)), old(HandOf(if who == Player1 then Player2 else Player1)),
        old(dealerHand), old(deck.cards), old(deck.dealt))
    {
      var newScore := PlayerDrawsCard(who);
      ghost var drawn := [HandOf(who)[|old(HandOf(who))|]];
      ghost var cards, dealt := deck.cards, deck.dealt;
      assert TakenFromFront(old(deck.cards), old(deck.dealt), drawn, cards, dealt);
      if newScore > 21 {
        BustAndStand(who);
        TakenInTurn(old(deck.cards), old(deck.dealt), drawn, cards, dealt, dealerHand[|old(dealerHand)|..], deck.cards, deck.dealt);
      } else {
        assert dealerHand[|old(dealerHand)|..] == [];
      }
    }

    /** The bust branch of a hit: the bust is recorded and the player
        stands, the dealer's new cards coming off the front of the deck. */
    method BustAndStand(who: Seat)
      modifies this, deck
      requires Valid() && handsDealt && (who == Player2 ==> player2Dealt)
      requires state.gameStatus == if who == Player1 then Player1Turn else Player2Turn
      ensures Valid()
      ensures isTwoPlayerMode == old(isTwoPlayerMode) && handsDealt == old(handsDealt) && player2Dealt == old(player2Dealt)
      ensures player1Hand == old(player1Hand) && player2Hand == old(player2Hand)
      ensures StandsTo(MarkBust(old(state), who), isTwoPlayerMode, old(dealerHand), dealerHand, state)
      ensures |old(dealerHand)| <= |dealerHand|
      ensures TakenFromFront(old(deck.cards), old(deck.dealt), dealerHand[|old(dealerHand)|..], deck.cards, deck.dealt)
    {
      state := MarkBust(state, who);
      OnPlayerStand();
    }

    /** The draw of a hit: a card from the deck goes to the player's hand,
        which is recounted and shown, and the hit is recorded. */
    method PlayerDrawsCard(who: Seat) returns (score: int)
      modifies this, deck
      requires Valid() && handsDealt && (who == Player2 ==> player2Dealt)
      ensures Valid()
      ensures isTwoPlayerMode == old(isTwoPlayerMode) && handsDealt == old(handsDealt) && player2Dealt == old(player2Dealt)
      ensures |HandOf(who)| == |old(HandOf(who))| + 1 && HandOf(who)[..|old(HandOf(who))|] == old(HandOf(who))
      ensures old(deck.cards) != [] ==> HandOf(who)[|old(HandOf(who))|] == old(deck.cards)[0]
      ensures old(deck.cards) != [] ==>
        deck.cards == old(deck.cards)[1..] && deck.dealt == old(deck.dealt) + [HandOf(who)[|old(HandOf(who))|]]
      ensures old(deck.cards) == [] ==> |deck.cards| == 51 && deck.dealt == [HandOf(who)[|old(HandOf(who))|]]
      ensures HandOf(if who == Player1 then Player2 else Player1) == old(HandOf(if who == Player1 then Player2 else Player1))
      ensures dealerHand == old(dealerHand)
      ensures score == HandValue(HandOf(who)) && state == Hit(old(state), who, HandOf(who))
    {
      var c := deck.DrawCard();
      var hand := HandOf(who) + [c];
      if who == Player1 {
        player1Hand := hand;
      } else {
        player2Hand := hand;
      }
      score := CalculateHandValue(hand);
      state := Hit(state, who, hand);
    }

    /** `onPlayerStand`: the stand is recorded; the first player hands the
        turn to a second player who is still pending, and otherwise the
        dealer plays out the round. Outside the players' turns nothing
        happens. */
    method OnPlayerStand()
      modifies this, deck
      requires Valid()
      requires StandStartsDealer(state, isTwoPlayerMode) ==> handsDealt
      ensures Valid()
      ensures isTwoPlayerMode == old(isTwoPlayerMode) && handsDealt == old(handsDealt) && player2Dealt == old(player2Dealt)
      ensures player1Hand == old(player1Hand) && player2Hand == old(player2Hand)
      ensures StandsTo(old(state), isTwoPlayerMode, old(dealerHand), dealerHand, state)
      ensures !StandStartsDealer(old(state), isTwoPlayerMode) ==> deck.cards == old(deck.cards) && deck.dealt == old(deck.dealt)
      ensures |old(dealerHand)| <= |dealerHand|
      ensures TakenFromFront(old(deck.cards), old(deck.dealt), dealerHand[|old(dealerHand)|..], deck.cards, deck.dealt)
    {
      match state.gameStatus {
        case Player1Turn =>
          var waiting := isTwoPlayerMode && state.player2Result == Pending;
          state := Record(state, StandMove(Player1));
          if waiting {
            state := state.(gameStatus := Player2Turn);
          } else {
            StartDealerTurn();
          }
        case Player2Turn =>
          state := Record(state, StandMove(Player2));
          StartDealerTurn();
        case _ =>
      }
    }

    /** `startDealerTurn` and the `runDealerTurn` it launches: the dealer's
        whole hand is counted, the dealer draws while under 17, then the
        round is settled. */
    method StartDealerTurn()
      modifies this, deck
      requires Valid() && handsDealt
      ensures Valid()
      ensures isTwoPlayerMode == old(isTwoPlayerMode) && handsDealt == old(handsDealt) && player2Dealt == old(player2Dealt)
      ensures player1Hand == old(player1Hand) && player2Hand == old(player2Hand)
      ensures DealerPlays(old(state), isTwoPlayerMode, old(dealerHand), dealerHand, state)
      ensures |old(dealerHand)| <= |dealerHand|
      ensures TakenFromFront(old(deck.cards), old(deck.dealt), dealerHand[|old(dealerHand)|..], deck.cards, deck.dealt)
    {
      state := EnterDealerTurn(state, dealerHand);
      RunDealerTurn();
    }

    /** `runDealerTurn`: the dealer draws up to 17 or more, the stand is
        recorded and the round is settled against the final value. */
    method RunDealerTurn()
      modifies this, deck
      requires Valid() && handsDealt
      ensures Valid()
      ensures isTwoPlayerMode == old(isTwoPlayerMode) && handsDealt == old(handsDealt) && player2Dealt == old(player2Dealt)
      ensures player1Hand == old(player1Hand) && player2Hand == old(player2Hand)
      ensures DealerStopped(old(dealerHand), dealerHand)
      ensures |old(dealerHand)| <= |dealerHand|
      ensures TakenFromFront(old(deck.cards), old(deck.dealt), dealerHand[|old(dealerHand)|..], deck.cards, deck.dealt)
      ensures state == Settle(DealerStands(old(state), |dealerHand| - |old(dealerHand)|, dealerHand),
        isTwoPlayerMode, HandValue(dealerHand))
    {
      var dealerScore := DrawTo17();
      ghost var drawnTo := dealerHand;
      state := Record(state, DealerStandMove);
      DetermineWinner(dealerScore);
      assert dealerHand == drawnTo;
    }

    /** The loop of `runDealerTurn`: one card at a time while the hand is
        worth less than 17, showing each new hand and recording each draw.
        It ends because a hand is worth at least as many points as it has
        cards. */
    method DrawTo17() returns (dealerScore: int)
      modifies this, deck
      requires Valid() && handsDealt
      ensures Valid()
      ensures isTwoPlayerMode == old(isTwoPlayerMode) && handsDealt == old(handsDealt) && player2Dealt == old(player2Dealt)
      ensures player1Hand == old(player1Hand) && player2Hand == old(player2Hand)
      ensures |old(dealerHand)| <= |dealerHand| && DealerStopped(old(dealerHand), dealerHand)
      ensures dealerScore == HandValue(dealerHand)
      ensures state == DealerDrew(old(state), |dealerHand| - |old(dealerHand)|, dealerHand)
      ensures TakenFromFront(old(deck.cards), old(deck.dealt), dealerHand[|old(dealerHand)|..], deck.cards, deck.dealt)
    {
      dealerScore := CalculateHandValue(dealerHand);
      ghost var start, before, drawn := dealerHand, state, 0;
      while dealerScore < 17
        invariant deck.Valid()
        invariant isTwoPlayerMode == old(isTwoPlayerMode) && handsDealt && player2Dealt == old(player2Dealt)
        invariant player1Hand == old(player1Hand) && player2Hand == old(player2Hand)
        invariant dealerScore == HandValue(dealerHand)
        invariant |dealerHand| == |start| + drawn && DrewUnder17(start, dealerHand)
        invariant state == DealerDrew(before, drawn, dealerHand)
        invariant TakenFromFront(old(deck.cards), old(deck.dealt), dealerHand[|start|..], deck.cards, deck.dealt)
        decreases 17 - |dealerHand|
      {
        HandValueAtLeastSize(dealerHand);
        ghost var previous, cards, dealt := dealerHand, deck.cards, deck.dealt;
        var c;
        c, dealerScore := DealerDrawsCard(before, drawn);
        DrawUnder17(start, previous, c);
        TakenOneMore(old(deck.cards), old(deck.dealt), start, previous, cards, dealt, c, deck.cards, deck.dealt);
        drawn := drawn + 1;
      }
    }

    /** One pass of the loop in `runDealerTurn`: a card from the deck goes
        to the dealer's hand, which is recounted and shown, and the draw is
        recorded. */
    method DealerDrawsCard(ghost before: GameState, ghost drawn: nat) returns (c: Card, score: int)
      modifies this, deck
      requires deck.Valid()
      requires state == DealerDrew(before, drawn, dealerHand)
      ensures deck.Valid()
      ensures old(deck.cards) != [] ==> c == old(deck.cards)[0]
      ensures old(deck.cards) != [] ==> deck.cards == old(deck.cards)[1..] && deck.dealt == old(deck.dealt) + [c]
      ensures old(deck.cards) == [] ==> |deck.cards| == 51 && deck.dealt == [c]
      ensures dealerHand == old(dealerHand) + [c] && score == HandValue(dealerHand)
      ensures state == DealerDrew(before, drawn + 1, dealerHand)
      ensures isTwoPlayerMode == old(isTwoPlayerMode) && handsDealt == old(handsDealt) && player2Dealt == old(player2Dealt)
      ensures player1Hand == old(player1Hand) && player2Hand == old(player2Hand)
    {
      c := deck.DrawCard();
      dealerHand := dealerHand + [c];
      score := CalculateHandValue(dealerHand);
      DealerDrewOneMore(before, drawn, old(dealerHand), dealerHand);
      state := DealerHit(state, dealerHand);
    }

    /** `determineWinner`: settles the first player, and the second in
        two-player mode, against `dealerScore`, and ends the round. */
    method DetermineWinner(dealerScore: int)
      modifies this
      ensures state == Settle(old(state), isTwoPlayerMode, dealerScore)
      ensures isTwoPlayerMode == old(isTwoPlayerMode) && handsDealt == old(handsDealt) && player2Dealt == old(player2Dealt)
      ensures player1Hand == old(player1Hand) && player2Hand == old(player2Hand) && dealerHand == old(dealerHand)
    {
      var dealerBusted := dealerScore > 21;
      var p1Result := CalculateResult(state.player1Score, state.player1Result, dealerScore, dealerBusted);
      var p2Result := state.player2Result;
      if isTwoPlayerMode {
        p2Result := CalculateResult(state.player2Score, state.player2Result, dealerScore, dealerBusted);
      }
      state := state.(player1Result := p1Result, player2Result := p2Result, gameStatus := GameOver,
        moveHistory := state.moveHistory + [GameOverMove]);
    }

    /** What `loadGame` and `importGame` do with a state they obtained: it
        becomes the current state, and the internal hands are copied from
        it (the second player's only in two-player mode). */
    method Resume(loaded: GameState)
      modifies this
      requires Valid()
      ensures Valid() && handsDealt
      ensures state == loaded && isTwoPlayerMode == loaded.isTwoPlayerMode
      ensures player1Hand == loaded.player1Hand && dealerHand == loaded.dealerHand
      ensures loaded.isTwoPlayerMode ==> player2Hand == loaded.player2Hand && player2Dealt
      ensures !loaded.isTwoPlayerMode ==> player2Hand == old(player2Hand) && player2Dealt == old(player2Dealt)
    {
      state := loaded;
      isTwoPlayerMode := loaded.isTwoPlayerMode;
      player1Hand := loaded.player1Hand;
      dealerHand := loaded.dealerHand;
      handsDealt := true;
      if isTwoPlayerMode {
        player2Hand := loaded.player2Hand;
        player2Dealt := true;
      }
    }

    /** `loadGame`: when the file loads, play resumes from it; otherwise
        nothing changes. */
    method LoadGame(p: SaveLoad.Platform, files: SaveLoad.Files, filename: string)
      modifies this
      requires Valid()
      ensures Valid()
      ensures SaveLoad.LoadGame(p, files, filename).None? ==>
        state == old(state) && player1Hand == old(player1Hand) && dealerHand == old(dealerHand) && handsDealt == old(handsDealt)
        && player2Hand == old(player2Hand) && player2Dealt == old(player2Dealt)
      ensures SaveLoad.LoadGame(p, files, filename).Some? ==>
        state == SaveLoad.LoadGame(p, files, filename).value && handsDealt
        && player1Hand == state.player1Hand && dealerHand == state.dealerHand
      ensures SaveLoad.LoadGame(p, files, filename).Some? && state.isTwoPlayerMode ==>
        player2Hand == state.player2Hand && player2Dealt
      ensures SaveLoad.LoadGame(p, files, filename).Some? && !state.isTwoPlayerMode ==>
        player2Hand == old(player2Hand) && player2Dealt == old(player2Dealt)
    {
      var loadedState := SaveLoad.LoadGame(p, files, filename);
      if loadedState.Some? {
        Resume(loadedState.value);
      }
    }

    /** `importGame`: as `loadGame`, from the content of a document; the
        result reports whether the import succeeded. */
    method ImportGame(p: SaveLoad.Platform, content: Option<string>) returns (success: bool)
      modifies this
      requires Valid()
      ensures Valid()
      ensures success <==> SaveLoad.LoadGameFromUri(p, content).Some?
      ensures !success ==>
        state == old(state) && player1Hand == old(player1Hand) && dealerHand == old(dealerHand) && handsDealt == old(handsDealt)
        && player2Hand == old(player2Hand) && player2Dealt == old(player2Dealt)
      ensures success ==>
        state == SaveLoad.LoadGameFromUri(p, content).value && handsDealt
        && player1Hand == state.player1Hand && dealerHand == state.dealerHand
      ensures success && state.isTwoPlayerMode ==> player2Hand == state.player2Hand && player2Dealt
      ensures success && !state.isTwoPlayerMode ==> player2Hand == old(player2Hand) && player2Dealt == old(player2Dealt)
    {
      var loadedState := SaveLoad.LoadGameFromUri(p, content);
      if loadedState.Some? {
        Resume(loadedState.value);
        success := true;
      } else {
        success := false;
      }
    }

    /** `saveGame`: the current state with the given tag is saved in the
        preferred format; the view model's own state keeps its old tag. */
    method SaveGame(p: SaveLoad.Platform, files: SaveLoad.Files, filename: string, tag: string,
                    format: SaveFormat, written: bool, now: int) returns (success: bool, updated: SaveLoad.Files)
      ensures success == written
      ensures !written ==> updated == files
      ensures written ==>
        var full := filename + Extension(format);
        var saved := files[full := SaveLoad.Serialize(p, WithTag(state, tag), format)];
        updated == saved[SaveLoad.MetadataFilename := p.encodeIndex(SaveLoad.Upsert(SaveLoad.ReadMetadata(p, saved),
          SaveLoad.NewMetadata(WithTag(state, tag), full, now)))]
    {
      var stateToSave := WithTag(state, tag);
      success, updated := SaveLoad.SaveGame(p, files, stateToSave, filename, format, written, now);
    }
  }
}
