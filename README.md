# Juego Blackjack: a verified model of the game core

This project models the core of the Juego Android Blackjack app in Dafny. It covers:

- the round state machine and hand scoring of the game's view model;
- the 52-card deck;
- the game state record with its save tag;
- the save formats;
- the save manager:
  - the TXT and XML codecs;
  - the save index (`metadata.json`);
  - load dispatch by file extension;
  - format sniffing when a document is imported.

The model is laid out one module per part of the app:

| module | file | models |
|---|---|---|
| `Options` | options.dfy | Kotlin's nullable results (`T?`), and exceptions a caller catches |
| `Text` | text.dfy | the Kotlin string functions the codecs call: `split`, `joinToString`, `lines`, `trim`, `toInt`, `toLong`, `toBoolean`, `File.extension` |
| `Cards` | cards.dfy | `Card`, `Suit` and `Rank`, with enum names and `valueOf` |
| `Decks` | deck.dfy | `Deck`, a class whose card list is updated in place |
| `States` | states.dfy | `GameState`, `GameStatus`, `GameResult` and `SaveGameMetadata` |
| `Rules` | rules.dfy | `calculateHandValue` (a method with its loops) and `calculateResult` |
| `Round` | round.dfy | the state changes each command makes, and what a round promises |
| `SaveFormats` | save_format.dfy | `SaveFormat` and its extensions |
| `TxtCodec` | txt_codec.dfy | the `key=value` text format |
| `XmlCodec` | xml_codec.dfy | the XML format, at the level of the pull parser's events |
| `SaveLoad` | save_load.dfy | `SaveLoadManager` |
| `ViewModel` | view_model.dfy | `GameViewModel`, a class over the state, the deck and the three internal hands |

Commands run to completion, one after another. The bust coroutine of a hit and the dealer's coroutine run in order, without their delays.

The JSON library and the XML character layer are functions passed in a `Platform` value. Stored files are a map from name to content. The clock and the outcome of each file write are parameters.

## Model

| member | source | states |
|---|---|---|
| Cards.RankValue | app/src/main/java/com/example/juego/viewmodel/GameViewModel.kt:368 | a rank is worth 2 to 11, and exactly the Ace is worth 11 |
| Cards.ParseRank | app/src/main/java/com/example/juego/ui/utils/SaveLoadManager.kt:265-266 | `Rank.valueOf` accepts exactly the names `rank.name` produces and returns that rank |
| Cards.RankName | app/src/main/java/com/example/juego/ui/utils/SaveLoadManager.kt:261 | a rank's name is non-empty and holds no `_`, `,` or line break, so it survives the TXT separators |
| Cards.ParseSuit | app/src/main/java/com/example/juego/model/Suit.kt:3-8 | `Suit.valueOf` accepts exactly the names of the four suits and returns that suit |
| Cards.SuitName | app/src/main/java/com/example/juego/model/Suit.kt:3-8 | a suit's name is non-empty and holds no separator character |
| States.ParseStatus | app/src/main/java/com/example/juego/ui/utils/SaveLoadManager.kt:247 | `GameStatus.valueOf` inverts `name` on all four statuses and rejects every other string |
| States.StatusName | app/src/main/java/com/example/juego/ui/utils/SaveLoadManager.kt:226 | a status name is non-empty and has no line break |
| States.ParseResult | app/src/main/java/com/example/juego/viewmodel/GameResult.kt:3-9 | `GameResult.valueOf` inverts `name` on all five results and rejects every other string |
| States.ResultName | app/src/main/java/com/example/juego/ui/utils/SaveLoadManager.kt:234-235 | a result name is non-empty and has no line break |
| States.WithTag | app/src/main/java/com/example/juego/viewmodel/GameViewModel.kt:138 | `copy(tag = t)` sets the tag and leaves every other field as it was |
| Rules.CalculateHandValue | app/src/main/java/com/example/juego/viewmodel/GameViewModel.kt:364-378 | the summing loop and the ace-devaluing loop return exactly `HandValue(hand)` |
| Rules.DevalueDropsFewestAces | app/src/main/java/com/example/juego/viewmodel/GameViewModel.kt:373-376 | the devaluing loop counts one more ace as 1 only while the total is over 21: it stops at 21 or less or when no ace is left, and never devalues one ace too many |
| Rules.HandValueAtLeastSize | app/src/main/java/com/example/juego/viewmodel/GameViewModel.kt:364-378 | a hand is worth at least its number of cards |
| Rules.AppendCard | app/src/main/java/com/example/juego/viewmodel/GameViewModel.kt:367-372 | adding a card adds its rank value to the raw total, and one to the ace count when it is an Ace |
| Rules.HandValueExamples | app/src/main/java/com/example/juego/viewmodel/GameViewModel.kt:364-378 | Ace+Ace+Ten is 12; Ace+King is 21 |
| Rules.CalculateResult | app/src/main/java/com/example/juego/viewmodel/GameViewModel.kt:349-362 | never Pending; Bust iff already bust; otherwise Win iff the dealer busted or the player is higher, Loss iff the dealer stands higher, Push iff equal |
| Decks.FullDeck | app/src/main/java/com/example/juego/model/Deck.kt:10-17 | `createDeck` yields 52 cards |
| Decks.FullDeckDistinct | app/src/main/java/com/example/juego/model/Deck.kt:10-17 | no card appears twice in a fresh deck |
| Decks.FullDeckHoldsEachCardOnce | app/src/main/java/com/example/juego/model/Deck.kt:10-17 | every card appears exactly once in a fresh deck |
| Decks.Deck.constructor | app/src/main/java/com/example/juego/model/Deck.kt:3-8 | a new deck holds the full ordered deck and nothing has been dealt |
| Decks.Deck.CreateDeck | app/src/main/java/com/example/juego/model/Deck.kt:10-17 | the list is cleared and refilled with the full deck, suit by suit and rank by rank |
| Decks.Deck.Shuffle | app/src/main/java/com/example/juego/model/Deck.kt:19-21 | the cards are permuted, same multiset and length, and the dealt record is unchanged |
| Decks.Deck.DrawCard | app/src/main/java/com/example/juego/model/Deck.kt:23-30 | a non-empty deck gives up its front card; an empty one is rebuilt and reshuffled, and the card comes from that fresh deck, leaving 51 |
| Decks.Deck.DrawHand | app/src/main/java/com/example/juego/model/Deck.kt:33-35 | two cards, as two `drawCard` calls give them: with at least two in the deck, the two front cards in order; with one, that card first and then a card of a rebuilt deck of which 51 remain; with none, two cards of a rebuilt deck of which 50 remain |
| Decks.TakenInTurn | app/src/main/java/com/example/juego/model/Deck.kt:23-30 | two runs of draws off the front of the deck are one run of their cards in turn, the rest and the dealt record agreeing |
| Decks.TakenOneMore | app/src/main/java/com/example/juego/model/Deck.kt:23-30 | one more front draw appended to a hand extends the run of cards the hand took from the deck |
| Decks.DealtCardsLeaveTheDeck | app/src/main/java/com/example/juego/model/Deck.kt:23-30 | between rebuilds, a card is dealt at most once and a dealt card is no longer in the deck |
| SaveFormats.Extension | app/src/main/java/com/example/juego/ui/utils/SaveFormat.kt:4-8 | every extension is a dot followed by a name with no dot or slash |
| SaveFormats.FormatOfExtension | app/src/main/java/com/example/juego/ui/utils/SaveLoadManager.kt:153-158 | the `when (file.extension)` dispatch picks exactly the format whose extension is `"." + ext`, and no format otherwise |
| SaveFormats.ExtensionsDistinct | app/src/main/java/com/example/juego/ui/utils/SaveFormat.kt:4-8 | the three formats have pairwise distinct extensions |
| SaveFormats.SavedNameDispatchesToItsFormat | app/src/main/java/com/example/juego/ui/utils/SaveLoadManager.kt:153-158 | the name `filename + extension` written by a save is dispatched back to that same format by a load |
| Text.Split | app/src/main/java/com/example/juego/ui/utils/SaveLoadManager.kt:264 | `split` gives at least one piece, and no piece holds the separator |
| Text.JoinOfSplit | app/src/main/java/com/example/juego/ui/utils/SaveLoadManager.kt:261-264 | joining the pieces of a split with the separator gives the original string |
| Text.SplitOfJoin | app/src/main/java/com/example/juego/ui/utils/SaveLoadManager.kt:257 | splitting a join of separator-free pieces gives the pieces back |
| Text.NonEmpty | app/src/main/java/com/example/juego/ui/utils/SaveLoadManager.kt:257 | `filter { it.isNotEmpty() }` keeps exactly the non-empty items |
| Text.NonEmptyKeeps | app/src/main/java/com/example/juego/ui/utils/SaveLoadManager.kt:257 | the filter keeps a list without empty items unchanged |
| Text.Lines | app/src/main/java/com/example/juego/ui/utils/SaveLoadManager.kt:241 | `lines()` gives at least one line, none holding a line break |
| Text.LinesAfterLine | app/src/main/java/com/example/juego/ui/utils/SaveLoadManager.kt:224-237 | a line written with a trailing newline is read back by `lines()` as one line |
| Text.IndexOf | app/src/main/java/com/example/juego/ui/utils/SaveLoadManager.kt:242 | the index of the first occurrence of the character |
| Text.SplitAtFirstOf | app/src/main/java/com/example/juego/ui/utils/SaveLoadManager.kt:242 | `split("=", limit = 2)` of `key=value` with an `=`-free key gives back key and value |
| Text.TrimStart | app/src/main/java/com/example/juego/ui/utils/SaveLoadManager.kt:181 | leading whitespace is removed, and what remains is a suffix |
| Text.TrimEnd | app/src/main/java/com/example/juego/ui/utils/SaveLoadManager.kt:181 | trailing whitespace is removed, and what remains is a prefix |
| Text.ToInt | app/src/main/java/com/example/juego/ui/utils/SaveLoadManager.kt:249 | `toInt` only succeeds within the 32-bit range |
| Text.ToLong | app/src/main/java/com/example/juego/ui/utils/SaveLoadManager.kt:248 | `toLong` only succeeds within the 64-bit range |
| Text.NatToStringValue | app/src/main/java/com/example/juego/ui/utils/SaveLoadManager.kt:227 | the decimal digits written for a number denote that number |
| Text.ParseIntegerOfToString | app/src/main/java/com/example/juego/ui/utils/SaveLoadManager.kt:248-251 | `toString` then `toInt`/`toLong` gives the number back when it is in range |
| Text.IntToStringChars | app/src/main/java/com/example/juego/ui/utils/SaveLoadManager.kt:227-230 | a written number has digits and at most a minus sign, so no separator or line break |
| Text.BoolToString | app/src/main/java/com/example/juego/ui/utils/SaveLoadManager.kt:246 | `toBoolean` reads back what `Boolean.toString` writes |
| Text.AfterLastSplits | app/src/main/java/com/example/juego/ui/utils/SaveLoadManager.kt:153 | there is text after the last occurrence of c iff c occurs, and that text is the c-free suffix after the last c |
| Text.AfterLastAppend | app/src/main/java/com/example/juego/ui/utils/SaveLoadManager.kt:153 | appending c-free text moves the suffix after the last c along with it |
| Text.ExtensionOfAppended | app/src/main/java/com/example/juego/ui/utils/SaveLoadManager.kt:153 | `File.extension` of a name ending in `.ext` is `ext` when `ext` holds no dot or slash |
| TxtCodec.CardNames | app/src/main/java/com/example/juego/ui/utils/SaveLoadManager.kt:261 | one `RANK_SUIT` token per card, in order |
| TxtCodec.ParseCards | app/src/main/java/com/example/juego/ui/utils/SaveLoadManager.kt:264-267 | a parsed hand has one card per token |
| TxtCodec.CardNameRoundTrip | app/src/main/java/com/example/juego/ui/utils/SaveLoadManager.kt:261-266 | a card's token parses back to that card |
| TxtCodec.SerializeHandEmpty | app/src/main/java/com/example/juego/ui/utils/SaveLoadManager.kt:261-263 | a hand is written as the empty string exactly when it is empty, so `data.isEmpty()` reads back the empty hand |
| TxtCodec.HandRoundTrip | app/src/main/java/com/example/juego/ui/utils/SaveLoadManager.kt:261-268 | `deserializeHand(serializeHand(h)) == h` for every hand |
| TxtCodec.TokenWithoutUnderscoreFails | app/src/main/java/com/example/juego/ui/utils/SaveLoadManager.kt:265 | a token without `_` fails the destructuring and so the whole decode |
| TxtCodec.ExtraTokenPiecesIgnored | app/src/main/java/com/example/juego/ui/utils/SaveLoadManager.kt:265 | the destructuring `val (rank, suit)` ignores any pieces after the second |
| TxtCodec.KeyValue | app/src/main/java/com/example/juego/ui/utils/SaveLoadManager.kt:242 | a `key=value` line splits at its first `=`, and the key holds no `=` |
| TxtCodec.AssociateLastWins | app/src/main/java/com/example/juego/ui/utils/SaveLoadManager.kt:241-244 | `associate` holds a key iff some line has it, with the value of its last line |
| TxtCodec.KeyValuesOfRender | app/src/main/java/com/example/juego/ui/utils/SaveLoadManager.kt:223-244 | lines written as `key=value\n` are read back as the same pairs in order |
| TxtCodec.Fields | app/src/main/java/com/example/juego/ui/utils/SaveLoadManager.kt:225-237 | the text format writes exactly thirteen fields |
| TxtCodec.IntField | app/src/main/java/com/example/juego/ui/utils/SaveLoadManager.kt:249-251 | a missing score reads as 0; a present one must parse as an `Int` |
| TxtCodec.TxtRoundTrip | app/src/main/java/com/example/juego/ui/utils/SaveLoadManager.kt:223-260 | `deserializeFromTxt(serializeToTxt(s))` gives `s` back with empty moves dropped, for every state with a one-line tag, moves free of `,` and line breaks, and numbers that fit |
| TxtCodec.TxtRoundTripExact | app/src/main/java/com/example/juego/ui/utils/SaveLoadManager.kt:223-260 | with no empty moves, the TXT round trip is exact |
| TxtCodec.TxtWithoutKeysIsDefault | app/src/main/java/com/example/juego/ui/utils/SaveLoadManager.kt:240-260 | text with no `=` in any line decodes to the default state |
| TxtCodec.TxtMalformedFails | app/src/main/java/com/example/juego/ui/utils/SaveLoadManager.kt:247-254 | the TXT decode fails exactly when some present field does not parse: the status, either result, the time, any of the three scores or any of the three hands |
| TxtCodec.TxtMissingKeysDefault | app/src/main/java/com/example/juego/ui/utils/SaveLoadManager.kt:246-258 | in a successful decode, each of the thirteen fields whose key is missing takes the default `GameState()` declares |
| TxtCodec.MovesRoundTrip | app/src/main/java/com/example/juego/ui/utils/SaveLoadManager.kt:257 | a move history joined with `,` and split again gives its non-empty moves back |
| XmlCodec.ParseElement | app/src/main/java/com/example/juego/ui/utils/SaveLoadManager.kt:344-372 | an element name is recognised exactly when it is one the serializer writes |
| XmlCodec.HandSlot | app/src/main/java/com/example/juego/ui/utils/SaveLoadManager.kt:346-350 | the three hand elements open their own hand, and only they do |
| XmlCodec.SetHand | app/src/main/java/com/example/juego/ui/utils/SaveLoadManager.kt:347-349 | setting one hand leaves the other two hands and every other field as they were |
| XmlCodec.ElementTextFails | app/src/main/java/com/example/juego/ui/utils/SaveLoadManager.kt:352-373 | text fails the parse exactly for a bad status, time, result or rank, or a bad suit when a card is being built |
| XmlCodec.DeserializeFromXml | app/src/main/java/com/example/juego/ui/utils/SaveLoadManager.kt:317-389 | the imperative pull-parser loop returns exactly the decoded state, or fails exactly when the decode does |
| XmlCodec.RunAppend | app/src/main/java/com/example/juego/ui/utils/SaveLoadManager.kt:342-382 | parsing two event runs in sequence is parsing their concatenation |
| XmlCodec.HeadRoundTrip | app/src/main/java/com/example/juego/ui/utils/SaveLoadManager.kt:277-279 | mode, status and time read back |
| XmlCodec.ScoresRoundTrip | app/src/main/java/com/example/juego/ui/utils/SaveLoadManager.kt:280-282 | the three scores read back when they fit in an `Int` |
| XmlCodec.OutcomeRoundTrip | app/src/main/java/com/example/juego/ui/utils/SaveLoadManager.kt:283-284 | both results read back |
| XmlCodec.TagTag | app/src/main/java/com/example/juego/ui/utils/SaveLoadManager.kt:364 | a non-empty tag reads back; an empty one writes no text and leaves the tag as it was |
| XmlCodec.CardRoundTrip | app/src/main/java/com/example/juego/ui/utils/SaveLoadManager.kt:365-370 | a `card` element inside an open hand appends exactly that card |
| XmlCodec.CardsRoundTrip | app/src/main/java/com/example/juego/ui/utils/SaveLoadManager.kt:306-315 | the cards of a hand element are appended in order |
| XmlCodec.HandRoundTrip | app/src/main/java/com/example/juego/ui/utils/SaveLoadManager.kt:306-315 | a hand element read into an empty slot yields that hand, and the slot is closed again |
| XmlCodec.MovesRoundTrip | app/src/main/java/com/example/juego/ui/utils/SaveLoadManager.kt:291-292 | the move elements append the non-empty moves in order |
| XmlCodec.HistoryRoundTrip | app/src/main/java/com/example/juego/ui/utils/SaveLoadManager.kt:291-293 | the `moveHistory` element reads back the non-empty moves |
| XmlCodec.ScalarsRoundTrip | app/src/main/java/com/example/juego/ui/utils/SaveLoadManager.kt:277-285 | all nine scalar fields read back |
| XmlCodec.HandsRoundTrip | app/src/main/java/com/example/juego/ui/utils/SaveLoadManager.kt:287-289 | the three hands read back |
| XmlCodec.XmlRoundTrip | app/src/main/java/com/example/juego/ui/utils/SaveLoadManager.kt:270-389 | decoding the serialized events gives `s` back with empty moves dropped, whenever its time fits in a `Long` and its scores in an `Int` |
| XmlCodec.XmlRoundTripExact | app/src/main/java/com/example/juego/ui/utils/SaveLoadManager.kt:270-389 | with no empty moves, the XML round trip is exact |
| XmlCodec.UnknownElementsKeepDefaults | app/src/main/java/com/example/juego/ui/utils/SaveLoadManager.kt:342-382 | events that never open a known field leave the state at its defaults |
| XmlCodec.UnknownDocumentIsDefault | app/src/main/java/com/example/juego/ui/utils/SaveLoadManager.kt:322-388 | a document with no known element decodes to the default state |
| XmlCodec.MalformedValueFails | app/src/main/java/com/example/juego/ui/utils/SaveLoadManager.kt:355-365 | a bad status, time, result or rank aborts the whole decode |
| XmlCodec.MalformedScoreIsZero | app/src/main/java/com/example/juego/ui/utils/SaveLoadManager.kt:358-360 | a score that is not an `Int` reads as 0 instead of failing |
| XmlCodec.SuitWithoutRankIgnored | app/src/main/java/com/example/juego/ui/utils/SaveLoadManager.kt:366-371 | a suit with no pending rank is skipped unparsed |
| XmlCodec.CardOutsideHandDropped | app/src/main/java/com/example/juego/ui/utils/SaveLoadManager.kt:366-370 | a card outside any hand element is dropped, and its suit is not even parsed |
| SaveLoad.ReadMetadata | app/src/main/java/com/example/juego/ui/utils/SaveLoadManager.kt:43-53 | a missing or unreadable index is the empty list; otherwise the decoded list |
| SaveLoad.Without | app/src/main/java/com/example/juego/ui/utils/SaveLoadManager.kt:103 | `removeAll` keeps exactly the entries for other file names |
| SaveLoad.RemoveAll | app/src/main/java/com/example/juego/ui/utils/SaveLoadManager.kt:103 | the imperative filter loop computes `Without` |
| SaveLoad.WithoutKeepsOrder | app/src/main/java/com/example/juego/ui/utils/SaveLoadManager.kt:103 | the entries kept stay in their original relative order |
| SaveLoad.UpdateMetadata | app/src/main/java/com/example/juego/ui/utils/SaveLoadManager.kt:100-116 | the index file becomes the old list without the file's entries, plus one fresh entry |
| SaveLoad.UpsertLeavesOneEntry | app/src/main/java/com/example/juego/ui/utils/SaveLoadManager.kt:100-116 | after an update the file has exactly one entry: the last, with the new snapshot, mode label and time; all others are kept |
| SaveLoad.Insert | app/src/main/java/com/example/juego/ui/utils/SaveLoadManager.kt:69 | inserting adds exactly the one entry |
| SaveLoad.InsertKeepsOrder | app/src/main/java/com/example/juego/ui/utils/SaveLoadManager.kt:69 | inserting into a newest-first list keeps it newest first |
| SaveLoad.SortNewestFirst | app/src/main/java/com/example/juego/ui/utils/SaveLoadManager.kt:69 | `sortedByDescending { it.timestamp }` is a permutation ordered newest first |
| SaveLoad.SavedGamesListing | app/src/main/java/com/example/juego/ui/utils/SaveLoadManager.kt:68-70 | the listing is the stored index, permuted to newest first, and empty without an index |
| SaveLoad.SaveGame | app/src/main/java/com/example/juego/ui/utils/SaveLoadManager.kt:74-98 | a failed write changes nothing; a successful one stores the encoded state under `filename + extension`, then updates the index |
| SaveLoad.LoadGame | app/src/main/java/com/example/juego/ui/utils/SaveLoadManager.kt:140-163 | a missing file or unknown extension gives null; otherwise the decoder its extension picks |
| SaveLoad.LoadsStoredFile | app/src/main/java/com/example/juego/ui/utils/SaveLoadManager.kt:140-163 | a file stored under a format's extension is decoded by that format |
| SaveLoad.SavedGameLoadsBack | app/src/main/java/com/example/juego/ui/utils/SaveLoadManager.kt:140-163 | a stored encoding loads back the state: exact for JSON, with empty moves dropped for TXT and XML |
| SaveLoad.SaveGameThenLoad | app/src/main/java/com/example/juego/ui/utils/SaveLoadManager.kt:74-163 | after a successful save, loading the saved name gives the state back, as above |
| SaveLoad.MetadataSaveIsLost | app/src/main/java/com/example/juego/ui/utils/SaveLoadManager.kt:74-115 | a JSON save named `metadata` is the index file; when the index decoder rejects the game, the index written last holds only the new entry for that file, so the save is gone |
| SaveLoad.LoadGameFromUri | app/src/main/java/com/example/juego/ui/utils/SaveLoadManager.kt:164-210 | no or blank content gives null; trimmed text starting with `{` gives the JSON result, or the TXT result when JSON fails; starting with `<` gives the XML result, or the TXT result when XML fails; anything else gives the TXT result |
| SaveLoad.ImportFailsOnlyIfAllFail | app/src/main/java/com/example/juego/ui/utils/SaveLoadManager.kt:175-209 | an import fails exactly when every decoder it tries fails |
| SaveLoad.ImportWithoutKeysIsDefault | app/src/main/java/com/example/juego/ui/utils/SaveLoadManager.kt:198-202 | content that is neither JSON nor XML and has no `=` imports as the default state |
| Round.DealerHits | app/src/main/java/com/example/juego/viewmodel/GameViewModel.kt:299-303 | one `DEALER_HIT` per card drawn |
| Round.NewRound | app/src/main/java/com/example/juego/viewmodel/GameViewModel.kt:74-93 | the round's first state: the hands and their values, the dealer showing only the second card's value, the first player's turn, both results pending, the clock at 0, the history `NUEVA_PARTIDA` |
| Round.DealerDrewOneMore | app/src/main/java/com/example/juego/viewmodel/GameViewModel.kt:297-303 | the state after n+1 dealer draws is one more draw after the state after n |
| Round.DrawUnder17 | app/src/main/java/com/example/juego/viewmodel/GameViewModel.kt:294-298 | drawing while under 17 keeps the invariant that every card drawn was drawn under 17 |
| Round.DrewOnlyAdded | app/src/main/java/com/example/juego/viewmodel/GameViewModel.kt:294-304 | the dealer's hand only grows, and each draw happened under 17 |
| Round.DevalueShift | app/src/main/java/com/example/juego/viewmodel/GameViewModel.kt:373-376 | adding x to the total adds at most x to the value |
| Round.DevalueAtMost | app/src/main/java/com/example/juego/viewmodel/GameViewModel.kt:373-376 | devaluing never raises the total |
| Round.DealerCardBound | app/src/main/java/com/example/juego/viewmodel/GameViewModel.kt:294-298 | one card added to a hand of 16 or less gives at most 26 |
| Round.DealerEndsBetween17And26 | app/src/main/java/com/example/juego/viewmodel/GameViewModel.kt:294-304 | a dealer who drew at all stops between 17 and 26 |
| Round.RoundSettles | app/src/main/java/com/example/juego/viewmodel/GameViewModel.kt:280-347 | after the dealer's turn the game is over, no playing seat is pending, bust stays bust, the history records the turn and each hit, and the players' hands, scores, time and tag are kept |
| Round.StandOutcome | app/src/main/java/com/example/juego/viewmodel/GameViewModel.kt:256-274 | a stand only extends the history and keeps the players' hands; it ends the game when it starts the dealer, passes to the second player otherwise, and is ignored outside the players' turns |
| ViewModel.GameViewModel.constructor | app/src/main/java/com/example/juego/viewmodel/GameViewModel.kt:28-53 | the default state, a full unshuffled deck, no hand dealt |
| ViewModel.GameViewModel.InitGame | app/src/main/java/com/example/juego/viewmodel/GameViewModel.kt:55-58 | the mode is set and a new round starts; when the deck holds the 4 cards of a one-player deal, or the 6 of a two-player deal, the dealt record grows by the hands in deal order and the deck loses that many cards |
| ViewModel.GameViewModel.StartNewGame | app/src/main/java/com/example/juego/viewmodel/GameViewModel.kt:66-97 | a new round from the shuffled deck: two cards each, dealt player 1, dealer, then player 2, and the state is `NewRound` of those hands; with at least 4 cards left (6 in two-player mode) the dealt record grows by exactly those hands in that order and the deck loses that many cards |
| ViewModel.GameViewModel.DealHands | app/src/main/java/com/example/juego/viewmodel/GameViewModel.kt:70-93 | the `drawHand` calls (the third only in two-player mode) take the deck's front cards in that order when at least 4 cards (6 in two-player mode) are left |
| ViewModel.GameViewModel.Tick | app/src/main/java/com/example/juego/viewmodel/GameViewModel.kt:99-107 | one timer tick adds a second and changes nothing else |
| ViewModel.GameViewModel.OnPlayerHit | app/src/main/java/com/example/juego/viewmodel/GameViewModel.kt:198-254 | in a player's turn that player hits, the player's card and then any dealer cards coming off the front of the deck; otherwise nothing changes, the deck included |
| ViewModel.GameViewModel.PlayerHit | app/src/main/java/com/example/juego/viewmodel/GameViewModel.kt:202-225 | the hand gains the deck's front card and is recounted; over 21 the player is marked bust and stands; the deck loses exactly that card and then the dealer's new cards from its front, and the dealt record grows by them |
| ViewModel.GameViewModel.BustAndStand | app/src/main/java/com/example/juego/viewmodel/GameViewModel.kt:214-224 | the bust is recorded, then the stand is one `StandsTo` transition; the players' hands are kept and the dealer's new cards come off the front of the deck |
| ViewModel.GameViewModel.PlayerDrawsCard | app/src/main/java/com/example/juego/viewmodel/GameViewModel.kt:205-212 | the deck's front card is appended to the player's hand and the deck keeps the rest, the dealt record growing by that card; from an empty deck the card comes from a rebuilt deck leaving 51; the other hands unchanged, and the hit recorded with the new value |
| ViewModel.GameViewModel.OnPlayerStand | app/src/main/java/com/example/juego/viewmodel/GameViewModel.kt:256-274 | the stand is one `StandOutcome` transition; the dealer's new cards, if any, come off the front of the deck, and a stand that does not start the dealer leaves the deck unchanged |
| ViewModel.GameViewModel.StartDealerTurn | app/src/main/java/com/example/juego/viewmodel/GameViewModel.kt:280-289 | the dealer plays out the round to a settled `RoundSettles` state, the new cards coming off the front of the deck |
| ViewModel.GameViewModel.RunDealerTurn | app/src/main/java/com/example/juego/viewmodel/GameViewModel.kt:291-309 | the dealer draws to 17 or more off the front of the deck, records the stand, and results are settled against the final value |
| ViewModel.GameViewModel.DrawTo17 | app/src/main/java/com/example/juego/viewmodel/GameViewModel.kt:292-304 | the draw loop stops once the dealer's hand is at 17 or more, having drawn only under 17; the new cards are the deck's front cards in order, the deck keeps the rest and the dealt record grows by them; the state records each draw |
| ViewModel.GameViewModel.DealerDrawsCard | app/src/main/java/com/example/juego/viewmodel/GameViewModel.kt:297-303 | one dealer draw: the deck's front card is appended and the deck keeps the rest, or from an empty deck a card of a rebuilt deck leaving 51; the hand's value, one more `DEALER_HIT` |
| ViewModel.GameViewModel.DetermineWinner | app/src/main/java/com/example/juego/viewmodel/GameViewModel.kt:311-347 | each playing seat's result is `calculateResult` against the dealer, and the game is over |
| ViewModel.GameViewModel.Resume | app/src/main/java/com/example/juego/viewmodel/GameViewModel.kt:154-162 | the loaded state becomes current and the internal hands are copied from it, the second player's only in two-player mode |
| ViewModel.GameViewModel.LoadGame | app/src/main/java/com/example/juego/viewmodel/GameViewModel.kt:149-170 | a load that fails changes nothing, the second player's hand included; one that succeeds makes the loaded state current and copies its first-player and dealer hands, and its second-player hand in two-player mode |
| ViewModel.GameViewModel.ImportGame | app/src/main/java/com/example/juego/viewmodel/GameViewModel.kt:108-130 | reports success iff the import decodes; on success the state and internal hands are resynchronised as for a load, the second player's only in two-player mode; a failed import changes nothing |
| ViewModel.GameViewModel.SaveGame | app/src/main/java/com/example/juego/viewmodel/GameViewModel.kt:134-147 | the current state with the tag is saved; the view model's own state keeps its old tag |

## Left out

- JSON encoding and decoding (kotlinx.serialization) are taken as given functions of the `Platform`. JSON round trips are assumed where a lemma needs them, not proved.
- The XML writer and pull parser at the character level are `Platform` functions too. The model works on the parser's event stream: a start tag, text, an end tag. Whitespace-only text events are handled like any other text: they are ignored outside a field element and read as the field's text inside one, as in the code.
- File and URI I/O:
  - the storage directory is a map;
  - the outcome of a file write is a parameter;
  - the content read from a URI is an `Option<string>` parameter;
  - a failed write of the index file is not modelled (the code only logs it).
- `getSavedGameContent` and `exportGame` only copy bytes to a URI; the model leaves them out.
- `System.currentTimeMillis()` is the `now` parameter.
- Sound effects, logging, the settings store, and `setPreferredSaveFormat`:
  - they are left out;
  - the preferred format is a parameter of `SaveGame`.
- Coroutines and delays:
  - each command runs to completion, its launched coroutines included, in program order;
  - the 100 ms delay before a bust is handled, and the one-second dealer delays, are not modelled;
  - neither are interleavings with other commands.
- The timer is modelled as single `Tick` steps. Cancelling and restarting `timerJob` is not modelled.
- `shuffle` uses `java.util.Random`; the model picks any permutation.
- Decks.Deck.DrawCard: an empty deck is rebuilt and shuffled, so the drawn card is only stated to come from a fresh full deck, not which card it is.
- Decks.TakenFromFront: when a run of draws (a hit that busts and the dealer's turn after it, or the dealer's loop) empties the deck partway, the deck is rebuilt from a random shuffle, so the run's remaining cards and the final deck are not determined. `PlayerHit`, `BustAndStand`, `OnPlayerHit`, `OnPlayerStand`, `StartDealerTurn`, `RunDealerTurn` and `DrawTo17` then state only that the deck is still one whole deck (`Valid()`).
- Aliasing:
  - the state holds the same `MutableList` objects as the internal hands;
  - the model treats hands as values, copied into the state at each update;
  - `Valid()` states that the two agree.
- `lateinit` hands are flags. A command that would touch an unassigned hand has that as a precondition; in the app it throws.
- Text.ParseInteger: only the ASCII digits `0`-`9` are digits. Kotlin's `toInt`, `toLong` and `toIntOrNull` read any Unicode decimal digit through `Character.digit`, so a numeral such as `１２` (full-width) parses in the app but not in the model. The Unicode digit table is not modelled.
- Text.ToInt: inherits the ASCII-only digits of `Text.ParseInteger`, and so do `TxtMalformedFails`, `ElementTextFails` and `MalformedScoreIsZero` for such numerals.
- Text.ToLong: inherits the ASCII-only digits of `Text.ParseInteger`.
- Kotlin `Int`/`Long` arithmetic overflow is not modelled; scores and time are unbounded integers. The range checks of `toInt()`/`toLong()` are modelled.
- XmlCodec.XmlRoundTrip: requires the scores to fit in an `Int` and the time in a `Long`, because the parser rejects or zeroes anything larger.
- TxtCodec.TxtRoundTrip: requires a one-line tag and moves free of `,` and line breaks (`TxtSafe`); other states do not round-trip in the code either.
- SaveLoad.SortNewestFirst: the stability of `sortedByDescending` (the order of equal timestamps) is not stated.
- The `Rank` enum file is not part of this model. Its order (Two..Ten, Jack, Queen, King, Ace), its upper-case names and its values (face cards 10, Ace 11) are taken from how the rest of the app uses it.
- `GameStatus.kt` in the repository declares a different, unused enum. The model uses the four statuses the view model and codecs use.

## Notes on the code

- `GameState.kt` as found in the repository has no `tag` field, but `SaveLoadManager` and the view model both read and write `state.tag`. The model gives `GameState` a `tag` field, defaulting to `""`.
- A new game shuffles the cards left in the deck, not a rebuilt deck (GameViewModel.kt:70), and starts the history with `NUEVA_PARTIDA` (GameViewModel.kt:83).
- Loading and importing keep the current deck; only the state and the internal hands are replaced.
- The TXT decoder gives missing fields their defaults (`TxtMissingKeysDefault`). A present but malformed status, result, score, time or card throws, so the load or import fails (`TxtMalformedFails`).
- The XML decoder is more lenient with scores: a malformed score reads as 0 (`MalformedScoreIsZero`).
- The save index lives in the same directory as the saves, as `metadata.json`. A JSON save named `metadata` overwrites the index. `updateMetadata` then reads that file back, cannot decode a game as a list, and writes a one-entry index over it. The save is lost, and the index's only entry names the file that now holds the index (`MetadataSaveIsLost`).
- When the deck runs out, `drawCard` rebuilds a full 52-card deck (Deck.kt:25-29), including cards already in the hands. So `drawHand` with one card left can return the same card twice, and a hand can repeat a card held in another hand; `Deck.DrawHand` allows both.
