/** The plain-text save format (ui/utils/SaveLoadManager.kt,
    `serializeToTxt`, `deserializeFromTxt`, `serializeHand`,
    `deserializeHand`): one `key=value` line per field, hands as
    comma-separated `RANK_SUIT` tokens, moves as a comma-separated list.
    Decoding throws on a malformed number, enum name or card, which is None
    here. */
module TxtCodec {
  import opened Options
  import opened Text
  import opened Cards
  import opened States

  // ---------------------------------------------------------------------
  // Hands
  // ---------------------------------------------------------------------

  /** `"${rank.name}_${suit.name}"`. */
  function CardName(c: Card): string {
    RankName(c.rank) + "_" + SuitName(c.suit)
  }

  /** The card tokens of a hand, in order. */
  function CardNames(hand: seq<Card>): (names: seq<string>)
    ensures |names| == |hand|
    ensures forall i :: 0 <= i < |names| ==> names[i] == CardName(hand[i])
  {
    seq(|hand|, i requires 0 <= i < |hand| => CardName(hand[i]))
  }

  /** `serializeHand`: the card tokens joined by ','. */
  function SerializeHand(hand: seq<Card>): string {
    Join(CardNames(hand), ',')
  }

  /** One token of `deserializeHand`: `val (rank, suit) = it.split("_")`
      fails on fewer than two pieces and ignores any beyond the second; an
      unknown rank or suit name fails. */
  function ParseCard(token: string): Option<Card> {
    var parts := Split(token, '_');
    if |parts| < 2 then None
    else
      var rank :- ParseRank(parts[0]);
      var suit :- ParseSuit(parts[1]);
      Some(Card(rank, suit))
  }

  /** `split(",").map { ... }`: every token must parse. */
  function ParseCards(tokens: seq<string>): (r: Option<seq<Card>>)
    ensures r.Some? ==> |r.value| == |tokens|
  {
    if tokens == [] then Some([])
    else
      var c :- ParseCard(tokens[0]);
      var rest :- ParseCards(tokens[1..]);
      Some([c] + rest)
  }

  /** `deserializeHand`: the empty string is the empty hand, anything else
      is split at ','. */
  function DeserializeHand(data: string): Option<seq<Card>> {
    if data == "" then Some([]) else ParseCards(Split(data, ','))
  }

  lemma CardNameRoundTrip(c: Card)
    ensures ParseCard(CardName(c)) == Some(c)
  {
    SplitAtDelimiter(RankName(c.rank), '_', SuitName(c.suit));
    SplitWithoutDelimiter(SuitName(c.suit), '_');
  }

  /** The tokens of a non-empty hand are its first card's token, then the
      tokens of the rest. */
  lemma CardNamesFront(hand: seq<Card>)
    requires hand != []
    ensures CardNames(hand)[0] == CardName(hand[0])
    ensures CardNames(hand)[1..] == CardNames(hand[1..])
  {
  }

  /** Tokens whose first parses to `c` and whose rest parse to `rest`
      parse to `c` followed by `rest`. */
  lemma ParseCardsFront(tokens: seq<string>, c: Card, rest: seq<Card>)
    requires tokens != [] && ParseCard(tokens[0]) == Some(c) && ParseCards(tokens[1..]) == Some(rest)
    ensures ParseCards(tokens) == Some([c] + rest)
  {
  }

  lemma {:induction false} ParseCardNames(hand: seq<Card>)
    ensures ParseCards(CardNames(hand)) == Some(hand)
  {
    if hand != [] {
      CardNamesFront(hand);
      CardNameRoundTrip(hand[0]);
      ParseCardNames(hand[1..]);
      ParseCardsFront(CardNames(hand), hand[0], hand[1..]);
      assert [hand[0]] + hand[1..] == hand;
    }
  }

  /** Only the empty hand is written as the empty string. */
  lemma {:induction false} SerializeHandEmpty(hand: seq<Card>)
    ensures SerializeHand(hand) == "" <==> hand == []
  {
    if hand != [] {
      JoinLength(CardNames(hand), ',');
      assert |CardNames(hand)[0]| > 0;
    }
  }

  /** Decoding a written hand gives the same cards in the same order. */
  lemma HandRoundTrip(hand: seq<Card>)
    ensures DeserializeHand(SerializeHand(hand)) == Some(hand)
  {
    SerializeHandEmpty(hand);
    if hand != [] {
      SplitOfJoin(CardNames(hand), ',');
      ParseCardNames(hand);
    }
  }

  /** A token with no '_' cannot be destructured into rank and suit, so
      the card fails. */
  lemma TokenWithoutUnderscoreFails(token: string)
    requires '_' !in token
    ensures ParseCard(token) == None
  {
    SplitWithoutDelimiter(token, '_');
  }

  /** Pieces after the second are ignored: a valid rank and suit followed
      by more '_'-separated text still give the card. */
  lemma ExtraTokenPiecesIgnored(rank: string, suit: string, rest: string)
    requires '_' !in rank && '_' !in suit
    requires ParseRank(rank).Some? && ParseSuit(suit).Some?
    ensures ParseCard(rank + "_" + suit + "_" + rest) == Some(Card(ParseRank(rank).value, ParseSuit(suit).value))
  {
    var tail := suit + "_" + rest;
    SplitAtDelimiter(suit, '_', rest);
    SplitAtDelimiter(rank, '_', tail);
    assert rank + "_" + suit + "_" + rest == rank + "_" + tail;
  }

  // ---------------------------------------------------------------------
  // Key/value lines
  // ---------------------------------------------------------------------

  /** The lines `serializeToTxt` appends, each followed by "\n". */
  function Render(fields: seq<(string, string)>): string {
    if fields == [] then ""
    else fields[0].0 + "=" + fields[0].1 + "\n" + Render(fields[1..])
  }

  /** `line.split("=", limit = 2)` on a line with '=': the key is the text
      before the first '=', the value all the rest, '=' included. */
  function KeyValue(line: string): (kv: (string, string))
    requires '=' in line
    ensures '=' !in kv.0
    ensures line == kv.0 + "=" + kv.1
  {
    var i := IndexOf(line, '=');
    assert line == line[..i] + "=" + line[i + 1..];
    assert forall j :: 0 <= j < i ==> line[..i][j] == line[j];
    SplitAtFirst(line, '=')
  }

  /** `filter { it.contains("=") }` followed by the split of each line. */
  function KeyValues(lines: seq<string>): (pairs: seq<(string, string)>)
    ensures |pairs| <= |lines|
  {
    if lines == [] then []
    else (if '=' in lines[0] then [KeyValue(lines[0])] else []) + KeyValues(lines[1..])
  }

  /** `associate`: a map from key to value in which a later pair overrides
      an earlier one with the same key. */
  function Associate(pairs: seq<(string, string)>): map<string, string> {
    if pairs == [] then map[]
    else Associate(pairs[..|pairs| - 1])[pairs[|pairs| - 1].0 := pairs[|pairs| - 1].1]
  }

  /** The map holds exactly the keys of the pairs, each with the value of
      its last pair. */
  lemma {:induction false} AssociateLastWins(pairs: seq<(string, string)>, k: string)
    ensures k in Associate(pairs) <==> exists i :: 0 <= i < |pairs| && pairs[i].0 == k
    ensures forall i :: 0 <= i < |pairs| && pairs[i].0 == k
                        && (forall j :: i < j < |pairs| ==> pairs[j].0 != k)
                        ==> Associate(pairs)[k] == pairs[i].1
  {
    if pairs != [] {
      var n := |pairs| - 1;
      var init := pairs[..n];
      AssociateLastWins(init, k);
      if pairs[n].0 != k {
        if exists i :: 0 <= i < |pairs| && pairs[i].0 == k {
          var i :| 0 <= i < |pairs| && pairs[i].0 == k;
          assert init[i].0 == k;
        }
        forall i | 0 <= i < |pairs| && pairs[i].0 == k
                   && (forall j :: i < j < |pairs| ==> pairs[j].0 != k)
          ensures Associate(pairs)[k] == pairs[i].1
        {
          assert init[i] == pairs[i];
          assert forall j :: i < j < |init| ==> init[j].0 != k;
        }
      }
    }
  }

  /** With pairwise different keys every pair is found in the map. */
  lemma AssociateDistinct(pairs: seq<(string, string)>, i: int)
    requires 0 <= i < |pairs|
    requires forall a, b :: 0 <= a < b < |pairs| ==> pairs[a].0 != pairs[b].0
    ensures pairs[i].0 in Associate(pairs) && Associate(pairs)[pairs[i].0] == pairs[i].1
  {
    AssociateLastWins(pairs, pairs[i].0);
  }

  /** Rendered lines are read back as the same pairs, provided no key holds
      '=' and nothing holds a line break. Values may hold '='. */
  lemma {:induction false} KeyValuesOfRender(fields: seq<(string, string)>)
    requires forall i :: 0 <= i < |fields| ==> '=' !in fields[i].0
    requires forall i :: 0 <= i < |fields| ==> NoLineBreak(fields[i].0) && NoLineBreak(fields[i].1)
    ensures KeyValues(Lines(Render(fields))) == fields
  {
    if fields == [] {
      assert Lines("") == [""];
    } else {
      var line := fields[0].0 + "=" + fields[0].1;
      assert NoLineBreak(line);
      assert Render(fields) == line + "\n" + Render(fields[1..]);
      LinesAfterLine(line, Render(fields[1..]));
      KeyValuesOfRender(fields[1..]);
      SplitAtFirstOf(fields[0].0, '=', fields[0].1);
      var kv := KeyValue(line);
      assert kv == SplitAtFirst(line, '=');
      var lines := Lines(Render(fields));
      assert lines[0] == line && lines[1..] == Lines(Render(fields[1..]));
      assert [fields[0]] + fields[1..] == fields;
    }
  }

  // ---------------------------------------------------------------------
  // Whole state
  // ---------------------------------------------------------------------

  /** The thirteen values `serializeToTxt` writes, one per key. */
  datatype TxtRecord = TxtRecord(
    isTwoPlayerMode: string, gameStatus: string, timeElapsed: string,
    player1Score: string, player2Score: string, dealerScore: string,
    player1Hand: string, player2Hand: string, dealerHand: string,
    player1Result: string, player2Result: string, moveHistory: string, tag: string)

  /** The values of a state as `serializeToTxt` prints them. */
  function ToRecord(s: GameState): TxtRecord {
    TxtRecord(
      BoolToString(s.isTwoPlayerMode), StatusName(s.gameStatus), IntToString(s.timeElapsed),
      IntToString(s.player1Score), IntToString(s.player2Score), IntToString(s.dealerScore),
      SerializeHand(s.player1Hand), SerializeHand(s.player2Hand), SerializeHand(s.dealerHand),
      ResultName(s.player1Result), ResultName(s.player2Result), Join(s.moveHistory, ','), s.tag)
  }

  /** The thirteen `key=value` pairs, in the order they are written. */
  function Fields(v: TxtRecord): (fields: seq<(string, string)>)
    ensures |fields| == 13
  {
    [ ("isTwoPlayerMode", v.isTwoPlayerMode),
      ("gameStatus", v.gameStatus),
      ("timeElapsed", v.timeElapsed),
      ("player1Score", v.player1Score),
      ("player2Score", v.player2Score),
      ("dealerScore", v.dealerScore),
      ("player1Hand", v.player1Hand),
      ("player2Hand", v.player2Hand),
      ("dealerHand", v.dealerHand),
      ("player1Result", v.player1Result),
      ("player2Result", v.player2Result),
      ("moveHistory", v.moveHistory),
      ("tag", v.tag) ]
  }

  /** `serializeToTxt`. */
  function SerializeToTxt(s: GameState): string {
    Render(Fields(ToRecord(s)))
  }

  /** `map[key] ?: default`. */
  function Lookup(m: map<string, string>, key: string, default: string): string {
    if key in m then m[key] else default
  }

  /** `map[key]?.toInt() ?: 0`: a missing key is 0, a malformed value fails. */
  function IntField(m: map<string, string>, key: string): (r: Option<int>)
    ensures key !in m ==> r == Some(0)
    ensures r.Some? ==> IsInt32(r.value)
  {
    if key in m then ToInt(m[key]) else Some(0)
  }

  /** The status and both results, each `valueOf` of the stored name or of
      the default name. */
  function DecodeTurn(m: map<string, string>): Option<(GameStatus, GameResult, GameResult)> {
    var status :- ParseStatus(Lookup(m, "gameStatus", "PLAYER_1_TURN"));
    var r1 :- ParseResult(Lookup(m, "player1Result", "PENDING"));
    var r2 :- ParseResult(Lookup(m, "player2Result", "PENDING"));
    Some((status, r1, r2))
  }

  /** `timeElapsed` as a `Long`, then the three scores as `Int`s. */
  function DecodeNumbers(m: map<string, string>): Option<(int, int, int, int)> {
    var time :- if "timeElapsed" in m then ToLong(m["timeElapsed"]) else Some(0);
    var p1 :- IntField(m, "player1Score");
    var p2 :- IntField(m, "player2Score");
    var d :- IntField(m, "dealerScore");
    Some((time, p1, p2, d))
  }

  /** The three hands, a missing one being the empty hand. */
  function DecodeHands(m: map<string, string>): Option<(seq<Card>, seq<Card>, seq<Card>)> {
    var h1 :- DeserializeHand(Lookup(m, "player1Hand", ""));
    var h2 :- DeserializeHand(Lookup(m, "player2Hand", ""));
    var hd :- DeserializeHand(Lookup(m, "dealerHand", ""));
    Some((h1, h2, hd))
  }

  /** The `GameState(...)` call of `deserializeFromTxt` on the key/value
      map; it fails as soon as one field fails. */
  function DecodeMap(m: map<string, string>): Option<GameState> {
    var turn :- DecodeTurn(m);
    var numbers :- DecodeNumbers(m);
    var hands :- DecodeHands(m);
    Some(GameState(
      isTwoPlayerMode := "isTwoPlayerMode" in m && ToBoolean(m["isTwoPlayerMode"]),
      player1Hand := hands.0,
      player2Hand := hands.1,
      dealerHand := hands.2,
      player1Score := numbers.1,
      player2Score := numbers.2,
      dealerScore := numbers.3,
      gameStatus := turn.0,
      player1Result := turn.1,
      player2Result := turn.2,
      timeElapsed := numbers.0,
      moveHistory := if "moveHistory" in m then NonEmpty(Split(m["moveHistory"], ',')) else [],
      tag := Lookup(m, "tag", "")))
  }

  /** `deserializeFromTxt`. */
  function DeserializeFromTxt(data: string): Option<GameState> {
    DecodeMap(Associate(KeyValues(Lines(data))))
  }

  /** What the TXT format can carry: numbers within the Kotlin ranges the
      parser accepts, a one-line tag, and moves free of ',' and line breaks. */
  predicate TxtSafe(s: GameState) {
    IsInt64(s.timeElapsed) && IsInt32(s.player1Score) && IsInt32(s.player2Score)
    && IsInt32(s.dealerScore) && NoLineBreak(s.tag)
    && forall m :: m in s.moveHistory ==> ',' !in m && NoLineBreak(m)
  }

  /** A character of a joined string is the separator or comes from a piece. */
  lemma {:induction false} JoinChars(parts: seq<string>, sep: char, c: char)
    requires c in Join(parts, sep)
    ensures c == sep || exists i :: 0 <= i < |parts| && c in parts[i]
  {
    if |parts| > 1 {
      if c !in parts[0] && c != sep {
        JoinChars(parts[1..], sep, c);
        var i :| 0 <= i < |parts[1..]| && c in parts[1..][i];
        assert c in parts[i + 1];
      }
    }
  }

  lemma HandNoLineBreak(hand: seq<Card>)
    ensures NoLineBreak(SerializeHand(hand))
  {
    forall c | c in SerializeHand(hand)
      ensures c != '\n' && c != '\r'
    {
      JoinChars(CardNames(hand), ',', c);
      if c != ',' {
        var i :| 0 <= i < |hand| && c in CardNames(hand)[i];
        assert c in RankName(hand[i].rank) + "_" + SuitName(hand[i].suit);
        assert c in RankName(hand[i].rank) || c == '_' || c in SuitName(hand[i].suit);
      }
    }
  }

  lemma MovesNoLineBreak(moves: seq<string>)
    requires forall m :: m in moves ==> NoLineBreak(m)
    ensures NoLineBreak(Join(moves, ','))
  {
    forall c | c in Join(moves, ',')
      ensures c != '\n' && c != '\r'
    {
      JoinChars(moves, ',', c);
      if c != ',' {
        var i :| 0 <= i < |moves| && c in moves[i];
        assert moves[i] in moves;
      }
    }
  }

  /** Splitting joined moves gives the moves back, except that joining no
      moves gives one empty piece; the empty-piece filter removes it. */
  lemma MovesRoundTrip(moves: seq<string>)
    requires forall m :: m in moves ==> ',' !in m
    ensures NonEmpty(Split(Join(moves, ','), ',')) == NonEmpty(moves)
  {
    if moves == [] {
      assert Split("", ',') == [""];
    } else {
      SplitOfJoin(moves, ',');
    }
  }

  /** No value of a record holds a line break. */
  predicate PlainRecord(v: TxtRecord) {
    NoLineBreak(v.isTwoPlayerMode) && NoLineBreak(v.gameStatus) && NoLineBreak(v.timeElapsed)
    && NoLineBreak(v.player1Score) && NoLineBreak(v.player2Score) && NoLineBreak(v.dealerScore)
    && NoLineBreak(v.player1Hand) && NoLineBreak(v.player2Hand) && NoLineBreak(v.dealerHand)
    && NoLineBreak(v.player1Result) && NoLineBreak(v.player2Result)
    && NoLineBreak(v.moveHistory) && NoLineBreak(v.tag)
  }

  /** What a TXT-safe state prints has no line break inside a value. */
  lemma ToRecordPlain(s: GameState)
    requires TxtSafe(s)
    ensures PlainRecord(ToRecord(s))
  {
    IntToStringChars(s.timeElapsed);
    IntToStringChars(s.player1Score);
    IntToStringChars(s.player2Score);
    IntToStringChars(s.dealerScore);
    HandNoLineBreak(s.player1Hand);
    HandNoLineBreak(s.player2Hand);
    HandNoLineBreak(s.dealerHand);
    MovesNoLineBreak(s.moveHistory);
  }

  /** Every key is in the map with the record's value for it. */
  predicate MapHolds(m: map<string, string>, v: TxtRecord) {
    && "isTwoPlayerMode" in m && m["isTwoPlayerMode"] == v.isTwoPlayerMode
    && "gameStatus" in m && m["gameStatus"] == v.gameStatus
    && "timeElapsed" in m && m["timeElapsed"] == v.timeElapsed
    && "player1Score" in m && m["player1Score"] == v.player1Score
    && "player2Score" in m && m["player2Score"] == v.player2Score
    && "dealerScore" in m && m["dealerScore"] == v.dealerScore
    && "player1Hand" in m && m["player1Hand"] == v.player1Hand
    && "player2Hand" in m && m["player2Hand"] == v.player2Hand
    && "dealerHand" in m && m["dealerHand"] == v.dealerHand
    && "player1Result" in m && m["player1Result"] == v.player1Result
    && "player2Result" in m && m["player2Result"] == v.player2Result
    && "moveHistory" in m && m["moveHistory"] == v.moveHistory
    && "tag" in m && m["tag"] == v.tag
  }

  /** No key holds '=' or a line break (checked in three groups of keys). */
  lemma FieldKeysPlain(v: TxtRecord)
    ensures forall i :: 0 <= i < 13 ==> '=' !in Fields(v)[i].0 && NoLineBreak(Fields(v)[i].0)
  {
    FieldKeysPlainHead(v);
    FieldKeysPlainMiddle(v);
    FieldKeysPlainTail(v);
  }

  lemma FieldKeysPlainHead(v: TxtRecord)
    ensures forall i :: 0 <= i < 4 ==> '=' !in Fields(v)[i].0 && NoLineBreak(Fields(v)[i].0)
  {
    var f := Fields(v);
    assert f[0].0 == "isTwoPlayerMode" && f[1].0 == "gameStatus" && f[2].0 == "timeElapsed";
    assert f[3].0 == "player1Score";
  }

  lemma FieldKeysPlainMiddle(v: TxtRecord)
    ensures forall i :: 4 <= i < 8 ==> '=' !in Fields(v)[i].0 && NoLineBreak(Fields(v)[i].0)
  {
    var f := Fields(v);
    assert f[4].0 == "player2Score" && f[5].0 == "dealerScore";
    assert f[6].0 == "player1Hand" && f[7].0 == "player2Hand";
  }

  lemma FieldKeysPlainTail(v: TxtRecord)
    ensures forall i :: 8 <= i < 13 ==> '=' !in Fields(v)[i].0 && NoLineBreak(Fields(v)[i].0)
  {
    var f := Fields(v);
    assert f[8].0 == "dealerHand" && f[9].0 == "player1Result" && f[10].0 == "player2Result";
    assert f[11].0 == "moveHistory" && f[12].0 == "tag";
  }

  lemma FieldValuesPlain(v: TxtRecord)
    requires PlainRecord(v)
    ensures forall i :: 0 <= i < 13 ==> NoLineBreak(Fields(v)[i].1)
  {
  }

  /** The written lines are read back as the same thirteen pairs. */
  lemma RecordReadBack(v: TxtRecord)
    requires PlainRecord(v)
    ensures KeyValues(Lines(Render(Fields(v)))) == Fields(v)
  {
    FieldKeysPlain(v);
    FieldValuesPlain(v);
    KeyValuesOfRender(Fields(v));
  }

  /** The map built from the written pairs holds every value under its key. */
  lemma RecordMap(v: TxtRecord)
    ensures MapHolds(Associate(Fields(v)), v)
  {
    var fields := Fields(v);
    forall i | 0 <= i < 13
      ensures fields[i].0 in Associate(fields) && Associate(fields)[fields[i].0] == fields[i].1
    {
      AssociateDistinct(fields, i);
    }
    var m := Associate(fields);
    assert m[fields[0].0] == v.isTwoPlayerMode && m[fields[1].0] == v.gameStatus;
    assert m[fields[2].0] == v.timeElapsed && m[fields[3].0] == v.player1Score;
    assert m[fields[4].0] == v.player2Score && m[fields[5].0] == v.dealerScore;
    assert m[fields[6].0] == v.player1Hand && m[fields[7].0] == v.player2Hand;
    assert m[fields[8].0] == v.dealerHand && m[fields[9].0] == v.player1Result;
    assert m[fields[10].0] == v.player2Result && m[fields[11].0] == v.moveHistory;
    assert m[fields[12].0] == v.tag;
  }

  lemma DecodeWrittenTurn(m: map<string, string>, s: GameState)
    requires MapHolds(m, ToRecord(s))
    ensures DecodeTurn(m) == Some((s.gameStatus, s.player1Result, s.player2Result))
  {
  }

  lemma DecodeWrittenNumbers(m: map<string, string>, s: GameState)
    requires MapHolds(m, ToRecord(s)) && TxtSafe(s)
    ensures DecodeNumbers(m) == Some((s.timeElapsed, s.player1Score, s.player2Score, s.dealerScore))
  {
    ParseIntegerOfToString(s.timeElapsed);
    ParseIntegerOfToString(s.player1Score);
    ParseIntegerOfToString(s.player2Score);
    ParseIntegerOfToString(s.dealerScore);
  }

  lemma DecodeWrittenHands(m: map<string, string>, s: GameState)
    requires MapHolds(m, ToRecord(s))
    ensures DecodeHands(m) == Some((s.player1Hand, s.player2Hand, s.dealerHand))
  {
    HandRoundTrip(s.player1Hand);
    HandRoundTrip(s.player2Hand);
    HandRoundTrip(s.dealerHand);
  }

  /** Every field written is read back, except that empty move tokens are
      dropped by the decoder's filter. */
  lemma TxtRoundTrip(s: GameState)
    requires TxtSafe(s)
    ensures DeserializeFromTxt(SerializeToTxt(s)) == Some(s.(moveHistory := NonEmpty(s.moveHistory)))
  {
    var v := ToRecord(s);
    ToRecordPlain(s);
    RecordReadBack(v);
    RecordMap(v);
    var m := Associate(Fields(v));
    DecodeWrittenTurn(m, s);
    DecodeWrittenNumbers(m, s);
    DecodeWrittenHands(m, s);
    MovesRoundTrip(s.moveHistory);
  }

  /** With no empty move the round trip is exact. */
  lemma TxtRoundTripExact(s: GameState)
    requires TxtSafe(s)
    requires forall m :: m in s.moveHistory ==> m != ""
    ensures DeserializeFromTxt(SerializeToTxt(s)) == Some(s)
  {
    TxtRoundTrip(s);
    NonEmptyKeeps(s.moveHistory);
  }

  lemma {:induction false} NoKeyValueLines(lines: seq<string>)
    requires forall i :: 0 <= i < |lines| ==> '=' !in lines[i]
    ensures KeyValues(lines) == []
  {
    if lines != [] {
      NoKeyValueLines(lines[1..]);
    }
  }

  /** Text none of whose lines holds '=' decodes to the default state. */
  lemma TxtWithoutKeysIsDefault(data: string)
    requires forall i :: 0 <= i < |Lines(data)| ==> '=' !in Lines(data)[i]
    ensures DeserializeFromTxt(data) == Some(DefaultGameState)
  {
    NoKeyValueLines(Lines(data));
  }

  /** A field that is present but does not parse makes the whole decode
      fail, and only that does: the status and both results must be enum
      names, `timeElapsed` a `Long`, the scores `Int`s, and the hands lists
      of card tokens. */
  lemma TxtMalformedFails(m: map<string, string>)
    ensures DecodeMap(m).None? <==>
      || ("gameStatus" in m && ParseStatus(m["gameStatus"]).None?)
      || ("player1Result" in m && ParseResult(m["player1Result"]).None?)
      || ("player2Result" in m && ParseResult(m["player2Result"]).None?)
      || ("timeElapsed" in m && ToLong(m["timeElapsed"]).None?)
      || ("player1Score" in m && ToInt(m["player1Score"]).None?)
      || ("player2Score" in m && ToInt(m["player2Score"]).None?)
      || ("dealerScore" in m && ToInt(m["dealerScore"]).None?)
      || ("player1Hand" in m && DeserializeHand(m["player1Hand"]).None?)
      || ("player2Hand" in m && DeserializeHand(m["player2Hand"]).None?)
      || ("dealerHand" in m && DeserializeHand(m["dealerHand"]).None?)
  {
  }

  /** A missing key takes the default `GameState()` declares for its
      field. */
  lemma TxtMissingKeysDefault(m: map<string, string>)
    requires DecodeMap(m).Some?
    ensures "isTwoPlayerMode" !in m ==> !DecodeMap(m).value.isTwoPlayerMode
    ensures "gameStatus" !in m ==> DecodeMap(m).value.gameStatus == Player1Turn
    ensures "player1Result" !in m ==> DecodeMap(m).value.player1Result == Pending
    ensures "player2Result" !in m ==> DecodeMap(m).value.player2Result == Pending
    ensures "timeElapsed" !in m ==> DecodeMap(m).value.timeElapsed == 0
    ensures "player1Score" !in m ==> DecodeMap(m).value.player1Score == 0
    ensures "player2Score" !in m ==> DecodeMap(m).value.player2Score == 0
    ensures "dealerScore" !in m ==> DecodeMap(m).value.dealerScore == 0
    ensures "player1Hand" !in m ==> DecodeMap(m).value.player1Hand == []
    ensures "player2Hand" !in m ==> DecodeMap(m).value.player2Hand == []
    ensures "dealerHand" !in m ==> DecodeMap(m).value.dealerHand == []
    ensures "moveHistory" !in m ==> DecodeMap(m).value.moveHistory == []
    ensures "tag" !in m ==> DecodeMap(m).value.tag == ""
  {
  }
}
