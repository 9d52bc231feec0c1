/** The XML save format (ui/utils/SaveLoadManager.kt, `serializeToXml`,
    its `tag` and `handToXml` helpers, and `deserializeFromXml`). The model
    works on the stream of pull-parser events rather than on characters:
    the serializer is the event list it writes, and the decoder is the
    parser loop over that list. An element written with empty text yields
    no text event, so it reads back as the field's default. */
module XmlCodec {
  import opened Options
  import opened Text
  import opened Cards
  import opened States

  /** START_TAG, TEXT and END_TAG; the document start and end are the ends
      of the list. */
  datatype XmlEvent = StartTag(name: string) | Text(text: string) | EndTag(name: string)

  /** The element names the serializer writes and the decoder knows. */
  datatype Element =
    | EGameState | EIsTwoPlayerMode | EGameStatus | ETimeElapsed
    | EPlayer1Score | EPlayer2Score | EDealerScore
    | EPlayer1Result | EPlayer2Result | ETag
    | EPlayer1Hand | EPlayer2Hand | EDealerHand | ECard | ERank | ESuit
    | EMoveHistory | EMove

  function ElementName(e: Element): (name: string)
    ensures name != []
  {
    match e
    case EGameState => "gameState"
    case EIsTwoPlayerMode => "isTwoPlayerMode"
    case EGameStatus => "gameStatus"
    case ETimeElapsed => "timeElapsed"
    case EPlayer1Score => "player1Score"
    case EPlayer2Score => "player2Score"
    case EDealerScore => "dealerScore"
    case EPlayer1Result => "player1Result"
    case EPlayer2Result => "player2Result"
    case ETag => "tag"
    case EPlayer1Hand => "player1Hand"
    case EPlayer2Hand => "player2Hand"
    case EDealerHand => "dealerHand"
    case ECard => "card"
    case ERank => "rank"
    case ESuit => "suit"
    case EMoveHistory => "moveHistory"
    case EMove => "move"
  }

  /** Which known element a tag name is, as the decoder's `when` branches
      on it; None for any other name. */
  function ParseElement(name: string): (r: Option<Element>)
    ensures r.Some? ==> ElementName(r.value) == name
    ensures forall e :: ElementName(e) == name ==> r == Some(e)
  {
    if name == "gameState" then Some(EGameState)
    else if name == "isTwoPlayerMode" then Some(EIsTwoPlayerMode)
    else if name == "gameStatus" then Some(EGameStatus)
    else if name == "timeElapsed" then Some(ETimeElapsed)
    else if name == "player1Score" then Some(EPlayer1Score)
    else if name == "player2Score" then Some(EPlayer2Score)
    else if name == "dealerScore" then Some(EDealerScore)
    else if name == "player1Result" then Some(EPlayer1Result)
    else if name == "player2Result" then Some(EPlayer2Result)
    else if name == "tag" then Some(ETag)
    else if name == "player1Hand" then Some(EPlayer1Hand)
    else if name == "player2Hand" then Some(EPlayer2Hand)
    else if name == "dealerHand" then Some(EDealerHand)
    else if name == "card" then Some(ECard)
    else if name == "rank" then Some(ERank)
    else if name == "suit" then Some(ESuit)
    else if name == "moveHistory" then Some(EMoveHistory)
    else if name == "move" then Some(EMove)
    else None
  }

  /** The three hand lists `currentHand` can point at. */
  datatype Slot = Player1Slot | Player2Slot | DealerSlot

  /** The hand a hand element opens. */
  function ElementSlot(e: Element): (r: Option<Slot>)
    ensures r.Some? <==> e == EPlayer1Hand || e == EPlayer2Hand || e == EDealerHand
  {
    match e
    case EPlayer1Hand => Some(Player1Slot)
    case EPlayer2Hand => Some(Player2Slot)
    case EDealerHand => Some(DealerSlot)
    case _ => None
  }

  /** The hand a tag name opens: one of the three hand elements. */
  function HandSlot(name: string): (r: Option<Slot>)
    ensures r == Some(Player1Slot) <==> name == "player1Hand"
    ensures r == Some(Player2Slot) <==> name == "player2Hand"
    ensures r == Some(DealerSlot) <==> name == "dealerHand"
  {
    match ParseElement(name)
    case Some(e) => ElementSlot(e)
    case None => None
  }

  function HandAt(acc: GameState, slot: Slot): seq<Card> {
    match slot
    case Player1Slot => acc.player1Hand
    case Player2Slot => acc.player2Hand
    case DealerSlot => acc.dealerHand
  }

  /** The state with the hand `slot` names replaced by `hand`. */
  function SetHand(acc: GameState, slot: Slot, hand: seq<Card>): (r: GameState)
    ensures HandAt(r, slot) == hand
    ensures forall other :: other != slot ==> HandAt(r, other) == HandAt(acc, other)
    ensures r.(player1Hand := acc.player1Hand, player2Hand := acc.player2Hand, dealerHand := acc.dealerHand) == acc
  {
    match slot
    case Player1Slot => acc.(player1Hand := hand)
    case Player2Slot => acc.(player2Hand := hand)
    case DealerSlot => acc.(dealerHand := hand)
  }

  /** `currentHand?.add(card)` on the hand `slot` names. */
  function AddCard(acc: GameState, slot: Slot, c: Card): GameState {
    SetHand(acc, slot, HandAt(acc, slot) + [c])
  }

  // ---------------------------------------------------------------------
  // Writing
  // ---------------------------------------------------------------------

  /** The `tag` helper: start tag, the text unless it is empty, end tag. */
  function TagEvents(e: Element, text: string): seq<XmlEvent> {
    [StartTag(ElementName(e))] + (if text == "" then [] else [Text(text)]) + [EndTag(ElementName(e))]
  }

  function CardEvents(c: Card): seq<XmlEvent> {
    [StartTag(ElementName(ECard))] + (TagEvents(ERank, RankName(c.rank)) + (TagEvents(ESuit, SuitName(c.suit)) + [EndTag(ElementName(ECard))]))
  }

  function CardsEvents(hand: seq<Card>): seq<XmlEvent> {
    if hand == [] then [] else CardEvents(hand[0]) + CardsEvents(hand[1..])
  }

  /** `handToXml`: the hand's element around one `card` element per card. */
  function HandEvents(e: Element, hand: seq<Card>): seq<XmlEvent> {
    [StartTag(ElementName(e))] + (CardsEvents(hand) + [EndTag(ElementName(e))])
  }

  function MoveEvents(moves: seq<string>): seq<XmlEvent> {
    if moves == [] then [] else TagEvents(EMove, moves[0]) + MoveEvents(moves[1..])
  }

  /** The nine single-valued elements, in the order they are written:
      mode, status and time; the three scores; the two results and the
      tag. */
  function ScalarEvents(s: GameState): seq<XmlEvent> {
    HeadEvents(s) + (ScoreEvents(s) + OutcomeEvents(s))
  }

  function HeadEvents(s: GameState): seq<XmlEvent> {
    TagEvents(EIsTwoPlayerMode, BoolToString(s.isTwoPlayerMode))
    + (TagEvents(EGameStatus, StatusName(s.gameStatus))
    + TagEvents(ETimeElapsed, IntToString(s.timeElapsed)))
  }

  function ScoreEvents(s: GameState): seq<XmlEvent> {
    TagEvents(EPlayer1Score, IntToString(s.player1Score))
    + (TagEvents(EPlayer2Score, IntToString(s.player2Score))
    + TagEvents(EDealerScore, IntToString(s.dealerScore)))
  }

  function OutcomeEvents(s: GameState): seq<XmlEvent> {
    TagEvents(EPlayer1Result, ResultName(s.player1Result))
    + (TagEvents(EPlayer2Result, ResultName(s.player2Result))
    + TagEvents(ETag, s.tag))
  }

  /** The three hands, player 1's first and the dealer's last. */
  function HandsEvents(s: GameState): seq<XmlEvent> {
    HandEvents(EPlayer1Hand, s.player1Hand)
    + (HandEvents(EPlayer2Hand, s.player2Hand) + HandEvents(EDealerHand, s.dealerHand))
  }

  /** The `moveHistory` element around one `move` element per move. */
  function HistoryEvents(moves: seq<string>): seq<XmlEvent> {
    [StartTag(ElementName(EMoveHistory))] + (MoveEvents(moves) + [EndTag(ElementName(EMoveHistory))])
  }

  /** `serializeToXml`: the events of the document it writes, all inside
      the `gameState` element. */
  function SerializeToXml(s: GameState): seq<XmlEvent> {
    [StartTag(ElementName(EGameState))]
    + (ScalarEvents(s) + (HandsEvents(s) + (HistoryEvents(s.moveHistory) + [EndTag(ElementName(EGameState))])))
  }

  // ---------------------------------------------------------------------
  // Reading
  // ---------------------------------------------------------------------

  /** The decoder's locals: the fields read so far, `currentTag`,
      `currentHand` and `currentCardRank`. */
  datatype XmlReader = XmlReader(acc: GameState, currentTag: string, currentHand: Option<Slot>, pendingRank: Option<Rank>)

  const Start: XmlReader := XmlReader(DefaultGameState, "", None, None)

  /** The TEXT branch once `currentTag` is known to name element `e`:
      the element decides which field the text sets. Status, results,
      `timeElapsed`, ranks and (inside a hand, after a rank) suits that do
      not parse throw, here None; a score that does not parse reads as 0.
      A suit with no rank before it is ignored, and outside a hand it only
      clears the rank. */
  function ElementText(r: XmlReader, e: Element, t: string): (o: Option<XmlReader>)
    ensures o.Some? ==> o.value.currentTag == r.currentTag && o.value.currentHand == r.currentHand
  {
    match e
    case EIsTwoPlayerMode => Some(r.(acc := r.acc.(isTwoPlayerMode := ToBoolean(t))))
    case EGameStatus =>
      var g :- ParseStatus(t);
      Some(r.(acc := r.acc.(gameStatus := g)))
    case ETimeElapsed =>
      var n :- ToLong(t);
      Some(r.(acc := r.acc.(timeElapsed := n)))
    case EPlayer1Score => Some(r.(acc := r.acc.(player1Score := ToInt(t).GetOr(0))))
    case EPlayer2Score => Some(r.(acc := r.acc.(player2Score := ToInt(t).GetOr(0))))
    case EDealerScore => Some(r.(acc := r.acc.(dealerScore := ToInt(t).GetOr(0))))
    case EPlayer1Result =>
      var g :- ParseResult(t);
      Some(r.(acc := r.acc.(player1Result := g)))
    case EPlayer2Result =>
      var g :- ParseResult(t);
      Some(r.(acc := r.acc.(player2Result := g)))
    case EMove => Some(r.(acc := r.acc.(moveHistory := r.acc.moveHistory + [t])))
    case ETag => Some(r.(acc := r.acc.(tag := t)))
    case ERank =>
      var k :- ParseRank(t);
      Some(r.(pendingRank := Some(k)))
    case ESuit =>
      if r.pendingRank.None? then Some(r)
      else if r.currentHand.None? then Some(r.(pendingRank := None))
      else
        var s :- ParseSuit(t);
        Some(r.(acc := AddCard(r.acc, r.currentHand.value, Card(r.pendingRank.value, s)), pendingRank := None))
    case _ => Some(r)
  }

  /** The TEXT branch throws exactly on a status, result, `timeElapsed` or
      rank that does not parse, and on a suit that does not parse where a
      card would be built from it. */
  lemma ElementTextFails(r: XmlReader, e: Element, t: string)
    ensures ElementText(r, e, t).None? <==>
      (e == EGameStatus && ParseStatus(t).None?)
      || (e == ETimeElapsed && ToLong(t).None?)
      || ((e == EPlayer1Result || e == EPlayer2Result) && ParseResult(t).None?)
      || (e == ERank && ParseRank(t).None?)
      || (e == ESuit && r.pendingRank.Some? && r.currentHand.Some? && ParseSuit(t).None?)
  {
  }

  /** The TEXT branch: text under an unknown element is ignored. */
  function ReadText(r: XmlReader, t: string): Option<XmlReader> {
    match ParseElement(r.currentTag)
    case Some(e) => ElementText(r, e, t)
    case None => Some(r)
  }

  /** One turn of the parser loop. A start tag becomes `currentTag` and, for
      a hand element, `currentHand`; an end tag closes the hand it names and
      clears `currentTag`. */
  function Step(r: XmlReader, ev: XmlEvent): Option<XmlReader> {
    match ev
    case StartTag(name) =>
      Some(r.(currentTag := name, currentHand := if HandSlot(name).Some? then HandSlot(name) else r.currentHand))
    case Text(t) => ReadText(r, t)
    case EndTag(name) =>
      Some(r.(currentHand := if HandSlot(name).Some? then None else r.currentHand, currentTag := ""))
  }

  /** The loop over the whole stream; None as soon as one event throws. */
  function Run(r: XmlReader, evs: seq<XmlEvent>): Option<XmlReader>
    decreases |evs|
  {
    if evs == [] then Some(r)
    else
      var next :- Step(r, evs[0]);
      Run(next, evs[1..])
  }

  /** What `deserializeFromXml` returns, None where it throws. */
  function XmlDecode(evs: seq<XmlEvent>): Option<GameState> {
    var r :- Run(Start, evs);
    Some(r.acc)
  }

  /** The rest of a run after its first part. */
  function Then(o: Option<XmlReader>, evs: seq<XmlEvent>): Option<XmlReader> {
    match o
    case None => None
    case Some(r) => Run(r, evs)
  }

  lemma {:induction false} RunAppend(r: XmlReader, a: seq<XmlEvent>, b: seq<XmlEvent>)
    ensures Run(r, a + b) == Then(Run(r, a), b)
    decreases |a|
  {
    if a == [] {
      assert a + b == b;
    } else {
      assert (a + b)[0] == a[0];
      assert (a + b)[1..] == a[1..] + b;
      match Step(r, a[0])
      case None =>
      case Some(next) => RunAppend(next, a[1..], b);
    }
  }

  /** The loop from position `i` on: one step, then the rest. */
  lemma RunFrom(r: XmlReader, evs: seq<XmlEvent>, i: nat)
    requires i < |evs|
    ensures Run(r, evs[i..]) == Then(Step(r, evs[i]), evs[i + 1..])
  {
    assert evs[i..][0] == evs[i];
    assert evs[i..][1..] == evs[i + 1..];
  }

  /** `deserializeFromXml`: the parser loop with its locals. */
  method DeserializeFromXml(events: seq<XmlEvent>) returns (result: Option<GameState>)
    ensures result == XmlDecode(events)
  {
    var currentTag := "";
    var isTwoPlayerMode := false;
    var gameStatus := Player1Turn;
    var timeElapsed := 0;
    var player1Score := 0;
    var player2Score := 0;
    var dealerScore := 0;
    var player1Result := Pending;
    var player2Result := Pending;
    var player1Hand: seq<Card> := [];
    var player2Hand: seq<Card> := [];
    var dealerHand: seq<Card> := [];
    var moveHistory: seq<string> := [];
    var tag := "";
    var currentHand: Option<Slot> := None;
    var currentCardRank: Option<Rank> := None;
    var i := 0;
    while i < |events|
      invariant 0 <= i <= |events|
      decreases |events| - i
      invariant Run(Start, events) == Run(XmlReader(GameState(isTwoPlayerMode, player1Hand, player2Hand, dealerHand,
        player1Score, player2Score, dealerScore, gameStatus, player1Result, player2Result, timeElapsed, moveHistory, tag),
        currentTag, currentHand, currentCardRank), events[i..])
    {
      ghost var before := XmlReader(GameState(isTwoPlayerMode, player1Hand, player2Hand, dealerHand,
        player1Score, player2Score, dealerScore, gameStatus, player1Result, player2Result, timeElapsed, moveHistory, tag),
        currentTag, currentHand, currentCardRank);
      RunFrom(before, events, i);
      match events[i] {
      case StartTag(name) =>
        currentTag := name;
        var slot := HandSlot(name);
        if slot.Some? {
          currentHand := slot;
        }
      case Text(text) =>
        match ParseElement(currentTag) {
        case Some(EIsTwoPlayerMode) =>
          isTwoPlayerMode := ToBoolean(text);
        case Some(EGameStatus) =>
          var g := ParseStatus(text);
          if g.None? {
            return None;
          }
          gameStatus := g.value;
        case Some(ETimeElapsed) =>
          var n := ToLong(text);
          if n.None? {
            return None;
          }
          timeElapsed := n.value;
        case Some(EPlayer1Score) =>
          player1Score := ToInt(text).GetOr(0);
        case Some(EPlayer2Score) =>
          player2Score := ToInt(text).GetOr(0);
        case Some(EDealerScore) =>
          dealerScore := ToInt(text).GetOr(0);
        case Some(EPlayer1Result) =>
          var g := ParseResult(text);
          if g.None? {
            return None;
          }
          player1Result := g.value;
        case Some(EPlayer2Result) =>
          var g := ParseResult(text);
          if g.None? {
            return None;
          }
          player2Result := g.value;
        case Some(EMove) =>
          moveHistory := moveHistory + [text];
        case Some(ETag) =>
          tag := text;
        case Some(ERank) =>
          var k := ParseRank(text);
          if k.None? {
            return None;
          }
          currentCardRank := k;
        case Some(ESuit) =>
          if currentCardRank.Some? {
            if currentHand.Some? {
              var s := ParseSuit(text);
              if s.None? {
                return None;
              }
              var card := Card(currentCardRank.value, s.value);
              match currentHand.value {
                case Player1Slot => player1Hand := player1Hand + [card];
                case Player2Slot => player2Hand := player2Hand + [card];
                case DealerSlot => dealerHand := dealerHand + [card];
              }
            }
            currentCardRank := None;
          }
        case _ =>
        }
      case EndTag(name) =>
        if HandSlot(name).Some? {
          currentHand := None;
        }
        currentTag := "";
      }
      i := i + 1;
    }
    result := Some(GameState(isTwoPlayerMode, player1Hand, player2Hand, dealerHand,
      player1Score, player2Score, dealerScore, gameStatus, player1Result, player2Result, timeElapsed, moveHistory, tag));
  }

  // ---------------------------------------------------------------------
  // What reading back a written document gives
  // ---------------------------------------------------------------------

  /** A reader with `currentTag` cleared, as an end tag leaves it. */
  function Closed(o: Option<XmlReader>): Option<XmlReader> {
    match o
    case None => None
    case Some(x) => Some(x.(currentTag := ""))
  }

  /** One element written by the `tag` helper, outside the hand elements:
      the start tag names it, its text (if any) is read, the end tag clears
      the name. */
  lemma RunTag(r: XmlReader, e: Element, t: string)
    requires ElementSlot(e).None?
    ensures Run(r, TagEvents(e, t)) ==
      if t == "" then Some(r.(currentTag := "")) else Closed(ElementText(r.(currentTag := ElementName(e)), e, t))
  {
    var n := ElementName(e);
    var r1 := r.(currentTag := n);
    assert HandSlot(n) == None by {
      assert ParseElement(n) == Some(e);
    }
    RunOne(r, StartTag(n), r1, if t == "" then [EndTag(n)] else [Text(t), EndTag(n)]);
    if t == "" {
      assert TagEvents(e, t) == [StartTag(n)] + [EndTag(n)];
      RunLast(r1, EndTag(n), r1.(currentTag := ""));
    } else {
      assert TagEvents(e, t) == [StartTag(n)] + [Text(t), EndTag(n)];
      match ElementText(r1, e, t)
      case None =>
        assert Run(r1, [Text(t), EndTag(n)]) == None;
      case Some(r2) =>
        RunOne(r1, Text(t), r2, [EndTag(n)]);
        RunLast(r2, EndTag(n), r2.(currentTag := ""));
    }
  }

  /** One event that steps to `r1`, then the rest. */
  lemma RunOne(r: XmlReader, ev: XmlEvent, r1: XmlReader, rest: seq<XmlEvent>)
    requires Step(r, ev) == Some(r1)
    ensures Run(r, [ev] + rest) == Run(r1, rest)
  {
    assert ([ev] + rest)[0] == ev;
    assert ([ev] + rest)[1..] == rest;
  }

  /** A last event that steps to `r1`. */
  lemma RunLast(r: XmlReader, ev: XmlEvent, r1: XmlReader)
    requires Step(r, ev) == Some(r1)
    ensures Run(r, [ev]) == Some(r1)
  {
    assert [ev][1..] == [];
  }

  /** Run `a` then `b` when `a` is known to end in `r1`. */
  lemma RunThrough(r: XmlReader, a: seq<XmlEvent>, r1: XmlReader, b: seq<XmlEvent>)
    requires Run(r, a) == Some(r1)
    ensures Run(r, a + b) == Run(r1, b)
  {
    RunAppend(r, a, b);
  }

  // Each single-valued element on its own, so that each proof sees one
  // element's facts only.

  lemma ModeTag(r: XmlReader, b: bool)
    ensures Run(r, TagEvents(EIsTwoPlayerMode, BoolToString(b))) == Some(r.(acc := r.acc.(isTwoPlayerMode := b), currentTag := ""))
  {
    RunTag(r, EIsTwoPlayerMode, BoolToString(b));
  }

  lemma StatusTag(r: XmlReader, g: GameStatus)
    ensures Run(r, TagEvents(EGameStatus, StatusName(g))) == Some(r.(acc := r.acc.(gameStatus := g), currentTag := ""))
  {
    RunTag(r, EGameStatus, StatusName(g));
  }

  lemma TimeTag(r: XmlReader, n: int)
    requires IsInt64(n)
    ensures Run(r, TagEvents(ETimeElapsed, IntToString(n))) == Some(r.(acc := r.acc.(timeElapsed := n), currentTag := ""))
  {
    IntToStringChars(n);
    ParseIntegerOfToString(n);
    RunTag(r, ETimeElapsed, IntToString(n));
  }

  lemma Player1ScoreTag(r: XmlReader, n: int)
    requires IsInt32(n)
    ensures Run(r, TagEvents(EPlayer1Score, IntToString(n))) == Some(r.(acc := r.acc.(player1Score := n), currentTag := ""))
  {
    IntToStringChars(n);
    ParseIntegerOfToString(n);
    RunTag(r, EPlayer1Score, IntToString(n));
  }

  lemma Player2ScoreTag(r: XmlReader, n: int)
    requires IsInt32(n)
    ensures Run(r, TagEvents(EPlayer2Score, IntToString(n))) == Some(r.(acc := r.acc.(player2Score := n), currentTag := ""))
  {
    IntToStringChars(n);
    ParseIntegerOfToString(n);
    RunTag(r, EPlayer2Score, IntToString(n));
  }

  lemma DealerScoreTag(r: XmlReader, n: int)
    requires IsInt32(n)
    ensures Run(r, TagEvents(EDealerScore, IntToString(n))) == Some(r.(acc := r.acc.(dealerScore := n), currentTag := ""))
  {
    IntToStringChars(n);
    ParseIntegerOfToString(n);
    RunTag(r, EDealerScore, IntToString(n));
  }

  lemma Player1ResultTag(r: XmlReader, g: GameResult)
    ensures Run(r, TagEvents(EPlayer1Result, ResultName(g))) == Some(r.(acc := r.acc.(player1Result := g), currentTag := ""))
  {
    RunTag(r, EPlayer1Result, ResultName(g));
  }

  lemma Player2ResultTag(r: XmlReader, g: GameResult)
    ensures Run(r, TagEvents(EPlayer2Result, ResultName(g))) == Some(r.(acc := r.acc.(player2Result := g), currentTag := ""))
  {
    RunTag(r, EPlayer2Result, ResultName(g));
  }

  lemma TagTag(r: XmlReader, t: string)
    ensures Run(r, TagEvents(ETag, t)) == Some(r.(acc := r.acc.(tag := if t == "" then r.acc.tag else t), currentTag := ""))
  {
    RunTag(r, ETag, t);
    if t == "" {
      assert r.acc.(tag := r.acc.tag) == r.acc;
    }
  }

  /** Mode, status and time read back as written. */
  lemma HeadRoundTrip(r: XmlReader, s: GameState)
    requires IsInt64(s.timeElapsed)
    ensures Run(r, HeadEvents(s)) == Some(r.(acc := r.acc.(isTwoPlayerMode := s.isTwoPlayerMode,
      gameStatus := s.gameStatus, timeElapsed := s.timeElapsed), currentTag := ""))
  {
    var r1 := r.(acc := r.acc.(isTwoPlayerMode := s.isTwoPlayerMode), currentTag := "");
    var r2 := r1.(acc := r1.acc.(gameStatus := s.gameStatus));
    var mode := TagEvents(EIsTwoPlayerMode, BoolToString(s.isTwoPlayerMode));
    var status := TagEvents(EGameStatus, StatusName(s.gameStatus));
    var time := TagEvents(ETimeElapsed, IntToString(s.timeElapsed));
    ModeTag(r, s.isTwoPlayerMode);
    StatusTag(r1, s.gameStatus);
    TimeTag(r2, s.timeElapsed);
    RunThrough(r, mode, r1, status + time);
    RunThrough(r1, status, r2, time);
  }

  /** The three scores read back as written while they fit an `Int`. */
  lemma ScoresRoundTrip(r: XmlReader, s: GameState)
    requires IsInt32(s.player1Score) && IsInt32(s.player2Score) && IsInt32(s.dealerScore)
    ensures Run(r, ScoreEvents(s)) == Some(r.(acc := r.acc.(player1Score := s.player1Score,
      player2Score := s.player2Score, dealerScore := s.dealerScore), currentTag := ""))
  {
    var r1 := r.(acc := r.acc.(player1Score := s.player1Score), currentTag := "");
    var r2 := r1.(acc := r1.acc.(player2Score := s.player2Score));
    var one := TagEvents(EPlayer1Score, IntToString(s.player1Score));
    var two := TagEvents(EPlayer2Score, IntToString(s.player2Score));
    var dealer := TagEvents(EDealerScore, IntToString(s.dealerScore));
    Player1ScoreTag(r, s.player1Score);
    Player2ScoreTag(r1, s.player2Score);
    DealerScoreTag(r2, s.dealerScore);
    RunThrough(r, one, r1, two + dealer);
    RunThrough(r1, two, r2, dealer);
  }

  /** The results read back as written; an empty tag is written with no
      text and leaves the tag read so far. */
  lemma OutcomeRoundTrip(r: XmlReader, s: GameState)
    ensures Run(r, OutcomeEvents(s)) == Some(r.(acc := r.acc.(player1Result := s.player1Result,
      player2Result := s.player2Result, tag := if s.tag == "" then r.acc.tag else s.tag), currentTag := ""))
  {
    var r1 := r.(acc := r.acc.(player1Result := s.player1Result), currentTag := "");
    var r2 := r1.(acc := r1.acc.(player2Result := s.player2Result));
    var one := TagEvents(EPlayer1Result, ResultName(s.player1Result));
    var two := TagEvents(EPlayer2Result, ResultName(s.player2Result));
    var tag := TagEvents(ETag, s.tag);
    Player1ResultTag(r, s.player1Result);
    Player2ResultTag(r1, s.player2Result);
    TagTag(r2, s.tag);
    RunThrough(r, one, r1, two + tag);
    RunThrough(r1, two, r2, tag);
  }

  /** An element name opens a hand exactly when the element is a hand. */
  lemma NameSlot(e: Element)
    ensures HandSlot(ElementName(e)) == ElementSlot(e)
  {
    assert ParseElement(ElementName(e)) == Some(e);
  }

  lemma RankTag(r: XmlReader, k: Rank)
    ensures Run(r, TagEvents(ERank, RankName(k))) == Some(r.(pendingRank := Some(k), currentTag := ""))
  {
    RunTag(r, ERank, RankName(k));
  }

  lemma SuitTag(r: XmlReader, slot: Slot, c: Card)
    requires r.currentHand == Some(slot) && r.pendingRank == Some(c.rank)
    ensures Run(r, TagEvents(ESuit, SuitName(c.suit))) == Some(r.(acc := AddCard(r.acc, slot, c), pendingRank := None, currentTag := ""))
  {
    RunTag(r, ESuit, SuitName(c.suit));
  }

  /** One `card` element inside an open hand adds that card to the hand. */
  lemma CardRoundTrip(r: XmlReader, slot: Slot, c: Card)
    requires r.currentHand == Some(slot) && r.pendingRank.None?
    ensures Run(r, CardEvents(c)) == Some(r.(acc := AddCard(r.acc, slot, c), currentTag := ""))
  {
    var card := ElementName(ECard);
    var rank := TagEvents(ERank, RankName(c.rank));
    var suit := TagEvents(ESuit, SuitName(c.suit));
    var r1 := r.(currentTag := card);
    var r2 := r.(currentTag := "", pendingRank := Some(c.rank));
    var r3 := r.(acc := AddCard(r.acc, slot, c), currentTag := "");
    NameSlot(ECard);
    RunOne(r, StartTag(card), r1, rank + (suit + [EndTag(card)]));
    RankTag(r1, c.rank);
    RunThrough(r1, rank, r2, suit + [EndTag(card)]);
    SuitTag(r2, slot, c);
    RunThrough(r2, suit, r3, [EndTag(card)]);
    RunLast(r3, EndTag(card), r3);
  }

  /** The cards of an open hand are appended to it in order. */
  lemma {:induction false} CardsRoundTrip(r: XmlReader, slot: Slot, hand: seq<Card>)
    requires r.currentHand == Some(slot) && r.pendingRank.None?
    ensures Run(r, CardsEvents(hand)) ==
      Some(r.(acc := SetHand(r.acc, slot, HandAt(r.acc, slot) + hand), currentTag := if hand == [] then r.currentTag else ""))
    decreases |hand|
  {
    var h := HandAt(r.acc, slot);
    if hand == [] {
      assert h + hand == h;
      SetHandSame(r.acc, slot);
    } else {
      var acc1 := AddCard(r.acc, slot, hand[0]);
      var r1 := r.(acc := acc1, currentTag := "");
      CardRoundTrip(r, slot, hand[0]);
      CardsRoundTrip(r1, slot, hand[1..]);
      assert CardsEvents(hand) == CardEvents(hand[0]) + CardsEvents(hand[1..]);
      RunThrough(r, CardEvents(hand[0]), r1, CardsEvents(hand[1..]));
      AppendHead(h, hand);
      SetHandTwice(r.acc, slot, h + [hand[0]], h + hand);
    }
  }

  lemma AppendHead<T>(h: seq<T>, xs: seq<T>)
    requires xs != []
    ensures h + [xs[0]] + xs[1..] == h + xs
  {
    assert [xs[0]] + xs[1..] == xs;
  }

  lemma SetHandSame(acc: GameState, slot: Slot)
    ensures SetHand(acc, slot, HandAt(acc, slot)) == acc
  {
  }

  lemma SetHandTwice(acc: GameState, slot: Slot, h1: seq<Card>, h2: seq<Card>)
    ensures SetHand(SetHand(acc, slot, h1), slot, h2) == SetHand(acc, slot, h2)
  {
  }

  /** A hand element opens its hand, fills it with its cards and closes
      it. */
  lemma HandRoundTrip(r: XmlReader, e: Element, slot: Slot, hand: seq<Card>)
    requires ElementSlot(e) == Some(slot) && r.pendingRank.None? && HandAt(r.acc, slot) == []
    ensures Run(r, HandEvents(e, hand)) ==
      Some(r.(acc := SetHand(r.acc, slot, hand), currentTag := "", currentHand := None))
  {
    var n := ElementName(e);
    var r1 := r.(currentTag := n, currentHand := Some(slot));
    var r2 := r1.(acc := SetHand(r.acc, slot, HandAt(r.acc, slot) + hand), currentTag := if hand == [] then n else "");
    NameSlot(e);
    RunOne(r, StartTag(n), r1, CardsEvents(hand) + [EndTag(n)]);
    CardsRoundTrip(r1, slot, hand);
    RunThrough(r1, CardsEvents(hand), r2, [EndTag(n)]);
    RunLast(r2, EndTag(n), r2.(currentTag := "", currentHand := None));
    EmptyAppend(hand);
  }

  lemma EmptyAppend<T>(xs: seq<T>)
    ensures [] + xs == xs
  {
  }

  lemma MoveTag(r: XmlReader, m: string)
    ensures Run(r, TagEvents(EMove, m)) ==
      Some(r.(acc := r.acc.(moveHistory := if m == "" then r.acc.moveHistory else r.acc.moveHistory + [m]), currentTag := ""))
  {
    RunTag(r, EMove, m);
  }

  /** Filtering a history one move at a time. */
  lemma NonEmptyStep(h: seq<string>, moves: seq<string>)
    requires moves != []
    ensures (if moves[0] == "" then h else h + [moves[0]]) + NonEmpty(moves[1..]) == h + NonEmpty(moves)
  {
    if moves[0] == "" {
      assert NonEmpty(moves) == NonEmpty(moves[1..]);
    } else {
      assert NonEmpty(moves) == [moves[0]] + NonEmpty(moves[1..]);
    }
  }

  /** Each non-empty move is appended; an empty one is written with no text
      and is dropped. */
  lemma {:induction false} MovesRoundTrip(r: XmlReader, moves: seq<string>)
    ensures Run(r, MoveEvents(moves)) ==
      Some(r.(acc := r.acc.(moveHistory := r.acc.moveHistory + NonEmpty(moves)), currentTag := if moves == [] then r.currentTag else ""))
    decreases |moves|
  {
    var h := r.acc.moveHistory;
    if moves == [] {
      assert h + [] == h;
    } else {
      var m := moves[0];
      var r1 := r.(acc := r.acc.(moveHistory := if m == "" then h else h + [m]), currentTag := "");
      MoveTag(r, m);
      MovesRoundTrip(r1, moves[1..]);
      assert MoveEvents(moves) == TagEvents(EMove, m) + MoveEvents(moves[1..]);
      RunThrough(r, TagEvents(EMove, m), r1, MoveEvents(moves[1..]));
      NonEmptyStep(h, moves);
    }
  }

  /** The ranges the text form can carry: `Long` time, `Int` scores. */
  predicate XmlSafe(s: GameState) {
    IsInt64(s.timeElapsed) && IsInt32(s.player1Score) && IsInt32(s.player2Score) && IsInt32(s.dealerScore)
  }

  /** The single-valued elements, read into a reader whose fields are
      still the defaults, set those fields to the written values. */
  lemma ScalarsRoundTrip(r: XmlReader, s: GameState)
    requires XmlSafe(s) && r.acc.tag == ""
    ensures Run(r, ScalarEvents(s)) == Some(r.(acc := r.acc.(isTwoPlayerMode := s.isTwoPlayerMode,
      gameStatus := s.gameStatus, timeElapsed := s.timeElapsed, player1Score := s.player1Score,
      player2Score := s.player2Score, dealerScore := s.dealerScore, player1Result := s.player1Result,
      player2Result := s.player2Result, tag := s.tag), currentTag := ""))
  {
    var r1 := r.(acc := r.acc.(isTwoPlayerMode := s.isTwoPlayerMode, gameStatus := s.gameStatus,
      timeElapsed := s.timeElapsed), currentTag := "");
    var r2 := r1.(acc := r1.acc.(player1Score := s.player1Score, player2Score := s.player2Score,
      dealerScore := s.dealerScore));
    HeadRoundTrip(r, s);
    ScoresRoundTrip(r1, s);
    OutcomeRoundTrip(r2, s);
    RunThrough(r, HeadEvents(s), r1, ScoreEvents(s) + OutcomeEvents(s));
    RunThrough(r1, ScoreEvents(s), r2, OutcomeEvents(s));
  }

  /** The three hand elements, read while no hand is being filled, fill
      the three hands in order. */
  lemma HandsRoundTrip(r: XmlReader, s: GameState)
    requires r.pendingRank.None?
    requires r.acc.player1Hand == [] && r.acc.player2Hand == [] && r.acc.dealerHand == []
    ensures Run(r, HandsEvents(s)) == Some(r.(acc := r.acc.(player1Hand := s.player1Hand,
      player2Hand := s.player2Hand, dealerHand := s.dealerHand), currentTag := "", currentHand := None))
  {
    var one := HandEvents(EPlayer1Hand, s.player1Hand);
    var two := HandEvents(EPlayer2Hand, s.player2Hand);
    var dealer := HandEvents(EDealerHand, s.dealerHand);
    var r1 := r.(acc := r.acc.(player1Hand := s.player1Hand), currentTag := "", currentHand := None);
    var r2 := r1.(acc := r1.acc.(player2Hand := s.player2Hand));
    HandRoundTrip(r, EPlayer1Hand, Player1Slot, s.player1Hand);
    HandRoundTrip(r1, EPlayer2Hand, Player2Slot, s.player2Hand);
    HandRoundTrip(r2, EDealerHand, DealerSlot, s.dealerHand);
    RunThrough(r, one, r1, two + dealer);
    RunThrough(r1, two, r2, dealer);
  }

  /** The history element appends the non-empty moves. */
  lemma HistoryRoundTrip(r: XmlReader, moves: seq<string>)
    ensures Run(r, HistoryEvents(moves)) ==
      Some(r.(acc := r.acc.(moveHistory := r.acc.moveHistory + NonEmpty(moves)), currentTag := ""))
  {
    var history := ElementName(EMoveHistory);
    var r1 := r.(currentTag := history);
    var r2 := r.(acc := r.acc.(moveHistory := r.acc.moveHistory + NonEmpty(moves)), currentTag := if moves == [] then history else "");
    NameSlot(EMoveHistory);
    RunOne(r, StartTag(history), r1, MoveEvents(moves) + [EndTag(history)]);
    MovesRoundTrip(r1, moves);
    RunThrough(r1, MoveEvents(moves), r2, [EndTag(history)]);
    RunLast(r2, EndTag(history), r2.(currentTag := ""));
  }

  /** Reading back what `serializeToXml` wrote gives the state again, except
      that empty moves, written without text, are lost. */
  lemma XmlRoundTrip(s: GameState)
    requires XmlSafe(s)
    ensures XmlDecode(SerializeToXml(s)) == Some(s.(moveHistory := NonEmpty(s.moveHistory)))
  {
    var root := ElementName(EGameState);
    var scalars := ScalarEvents(s);
    var hands := HandsEvents(s);
    var history := HistoryEvents(s.moveHistory);
    var r1 := Start.(currentTag := root);
    var r2 := r1.(acc := DefaultGameState.(isTwoPlayerMode := s.isTwoPlayerMode,
      gameStatus := s.gameStatus, timeElapsed := s.timeElapsed, player1Score := s.player1Score,
      player2Score := s.player2Score, dealerScore := s.dealerScore, player1Result := s.player1Result,
      player2Result := s.player2Result, tag := s.tag), currentTag := "");
    var r3 := r2.(acc := r2.acc.(player1Hand := s.player1Hand, player2Hand := s.player2Hand,
      dealerHand := s.dealerHand), currentHand := None);
    var r4 := r3.(acc := r3.acc.(moveHistory := r3.acc.moveHistory + NonEmpty(s.moveHistory)));
    NameSlot(EGameState);
    RunOne(Start, StartTag(root), r1, scalars + (hands + (history + [EndTag(root)])));
    ScalarsRoundTrip(r1, s);
    RunThrough(r1, scalars, r2, hands + (history + [EndTag(root)]));
    HandsRoundTrip(r2, s);
    RunThrough(r2, hands, r3, history + [EndTag(root)]);
    HistoryRoundTrip(r3, s.moveHistory);
    RunThrough(r3, history, r4, [EndTag(root)]);
    RunLast(r4, EndTag(root), r4);
    EmptyAppend(NonEmpty(s.moveHistory));
  }

  /** With no empty move the XML round trip is exact. */
  lemma XmlRoundTripExact(s: GameState)
    requires XmlSafe(s)
    requires forall m :: m in s.moveHistory ==> m != ""
    ensures XmlDecode(SerializeToXml(s)) == Some(s)
  {
    XmlRoundTrip(s);
    NonEmptyKeeps(s.moveHistory);
  }

  // ---------------------------------------------------------------------
  // Documents the decoder tolerates or rejects
  // ---------------------------------------------------------------------

  /** The elements whose text the decoder reads into a field or a card. */
  predicate IsField(e: Element) {
    !(e == EGameState || e == EPlayer1Hand || e == EPlayer2Hand || e == EDealerHand || e == ECard || e == EMoveHistory)
  }

  /** A tag name the TEXT branch does something with. */
  predicate NamesField(name: string) {
    ParseElement(name).Some? && IsField(ParseElement(name).value)
  }

  /** A stream in which no element is one the decoder reads leaves every
      field at its default, whatever its text and however it nests. */
  lemma {:induction false} UnknownElementsKeepDefaults(r: XmlReader, evs: seq<XmlEvent>)
    requires r.acc == DefaultGameState && r.pendingRank.None? && !NamesField(r.currentTag)
    requires forall i :: 0 <= i < |evs| ==> !(evs[i].StartTag? && NamesField(evs[i].name))
    ensures Run(r, evs).Some? && Run(r, evs).value.acc == DefaultGameState
    decreases |evs|
  {
    if evs != [] {
      var next: XmlReader;
      match evs[0] {
      case StartTag(name) =>
        next := r.(currentTag := name, currentHand := if HandSlot(name).Some? then HandSlot(name) else r.currentHand);
      case Text(t) =>
        next := r;
        assert ReadText(r, t) == Some(r);
      case EndTag(name) =>
        next := r.(currentHand := if HandSlot(name).Some? then None else r.currentHand, currentTag := "");
        assert ParseElement("") == None;
      }
      RunOne(r, evs[0], next, evs[1..]);
      assert [evs[0]] + evs[1..] == evs;
      UnknownElementsKeepDefaults(next, evs[1..]);
    }
  }

  /** `deserializeFromXml` of such a stream is the default state. */
  lemma UnknownDocumentIsDefault(evs: seq<XmlEvent>)
    requires forall i :: 0 <= i < |evs| ==> !(evs[i].StartTag? && NamesField(evs[i].name))
    ensures XmlDecode(evs) == Some(DefaultGameState)
  {
    assert ParseElement("") == None;
    UnknownElementsKeepDefaults(Start, evs);
  }

  /** A status, time, result or rank whose text does not parse makes
      `valueOf` or `toLong` throw: nothing after it is read and the whole
      document fails. */
  lemma MalformedValueFails(r: XmlReader, e: Element, t: string, rest: seq<XmlEvent>)
    requires t != ""
    requires (e == EGameStatus && ParseStatus(t).None?)
      || (e == ETimeElapsed && ToLong(t).None?)
      || ((e == EPlayer1Result || e == EPlayer2Result) && ParseResult(t).None?)
      || (e == ERank && ParseRank(t).None?)
    ensures Run(r, TagEvents(e, t) + rest) == None
  {
    RunTag(r, e, t);
    RunAppend(r, TagEvents(e, t), rest);
  }

  predicate IsScore(e: Element) {
    e == EPlayer1Score || e == EPlayer2Score || e == EDealerScore
  }

  /** The state with the score element `e` names set to `n`. */
  function WithScore(acc: GameState, e: Element, n: int): GameState
    requires IsScore(e)
  {
    match e
    case EPlayer1Score => acc.(player1Score := n)
    case EPlayer2Score => acc.(player2Score := n)
    case EDealerScore => acc.(dealerScore := n)
  }

  /** A score whose text is not an `Int` reads as 0 (`toIntOrNull() ?: 0`)
      and the document goes on. */
  lemma MalformedScoreIsZero(r: XmlReader, e: Element, t: string)
    requires IsScore(e) && t != "" && ToInt(t).None?
    ensures Run(r, TagEvents(e, t)) == Some(r.(acc := WithScore(r.acc, e, 0), currentTag := ""))
  {
    RunTag(r, e, t);
  }

  /** A suit with no rank read before it is ignored, even one that would not
      parse. */
  lemma SuitWithoutRankIgnored(r: XmlReader, t: string)
    requires r.pendingRank.None?
    ensures Run(r, TagEvents(ESuit, t)) == Some(r.(currentTag := ""))
  {
    RunTag(r, ESuit, t);
  }

  /** A card outside every hand element is dropped: its suit is never
      parsed, so even a malformed one does not fail, and the rank is
      cleared. */
  lemma CardOutsideHandDropped(r: XmlReader, k: Rank, suit: string)
    requires r.currentHand.None? && r.pendingRank.None? && suit != ""
    ensures Run(r, [StartTag(ElementName(ECard))] + (TagEvents(ERank, RankName(k)) + (TagEvents(ESuit, suit) + [EndTag(ElementName(ECard))])))
      == Some(r.(currentTag := ""))
  {
    var card := ElementName(ECard);
    var rank := TagEvents(ERank, RankName(k));
    var suits := TagEvents(ESuit, suit);
    var r1 := r.(currentTag := card);
    var r2 := r.(currentTag := "", pendingRank := Some(k));
    var r3 := r.(currentTag := "");
    NameSlot(ECard);
    RunOne(r, StartTag(card), r1, rank + (suits + [EndTag(card)]));
    RankTag(r1, k);
    RunThrough(r1, rank, r2, suits + [EndTag(card)]);
    RunTag(r2, ESuit, suit);
    RunThrough(r2, suits, r3, [EndTag(card)]);
    RunLast(r3, EndTag(card), r3);
  }
}
