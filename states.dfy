/** The round state the view model publishes and the codecs save
    (viewmodel/GameState.kt, GameResult.kt, SaveGameMetadata.kt). The status
    enum is the one the view model and the game screen use: PLAYER_1_TURN,
    PLAYER_2_TURN, DEALER_TURN and GAME_OVER. The record carries a `tag`
    field, last in the order of the positional constructor the XML decoder
    calls. */
module States {
  import opened Options
  import opened Cards

  datatype GameStatus = Player1Turn | Player2Turn | DealerTurn | GameOver

  datatype GameResult = Pending | Win | Loss | Bust | Push

  /** `status.name`. */
  function StatusName(s: GameStatus): (name: string)
    ensures name != [] && '\n' !in name && '\r' !in name
  {
    match s
    case Player1Turn => "PLAYER_1_TURN"
    case Player2Turn => "PLAYER_2_TURN"
    case DealerTurn => "DEALER_TURN"
    case GameOver => "GAME_OVER"
  }

  /** `GameStatus.valueOf(name)`, None where it throws. */
  function ParseStatus(name: string): (r: Option<GameStatus>)
    ensures r.Some? ==> StatusName(r.value) == name
    ensures forall k :: StatusName(k) == name ==> r == Some(k)
  {
    if name == "PLAYER_1_TURN" then Some(Player1Turn)
    else if name == "PLAYER_2_TURN" then Some(Player2Turn)
    else if name == "DEALER_TURN" then Some(DealerTurn)
    else if name == "GAME_OVER" then Some(GameOver)
    else None
  }

  /** `result.name`. */
  function ResultName(r: GameResult): (name: string)
    ensures name != [] && '\n' !in name && '\r' !in name
  {
    match r
    case Pending => "PENDING"
    case Win => "WIN"
    case Loss => "LOSS"
    case Bust => "BUST"
    case Push => "PUSH"
  }

  /** `GameResult.valueOf(name)`, None where it throws. */
  function ParseResult(name: string): (r: Option<GameResult>)
    ensures r.Some? ==> ResultName(r.value) == name
    ensures forall k :: ResultName(k) == name ==> r == Some(k)
  {
    if name == "PENDING" then Some(Pending)
    else if name == "WIN" then Some(Win)
    else if name == "LOSS" then Some(Loss)
    else if name == "BUST" then Some(Bust)
    else if name == "PUSH" then Some(Push)
    else None
  }

  /** The data class. Scores are Kotlin `Int`s and `timeElapsed` a `Long`;
      they are unbounded here and the codecs state the ranges they need. */
  datatype GameState = GameState(
    isTwoPlayerMode: bool,
    player1Hand: seq<Card>,
    player2Hand: seq<Card>,
    dealerHand: seq<Card>,
    player1Score: int,
    player2Score: int,
    dealerScore: int,
    gameStatus: GameStatus,
    player1Result: GameResult,
    player2Result: GameResult,
    timeElapsed: int,
    moveHistory: seq<string>,
    tag: string)

  /** `GameState()`: every field at its declared default. */
  const DefaultGameState: GameState :=
    GameState(false, [], [], [], 0, 0, 0, Player1Turn, Pending, Pending, 0, [], "")

  /** `state.copy(tag = t)`: the tag is replaced and every other field is
      the one `state` had. */
  function WithTag(state: GameState, t: string): (r: GameState)
    ensures r.tag == t
    ensures r.(tag := state.tag) == state
  {
    state.(tag := t)
  }

  /** One entry of the save index. */
  datatype SaveGameMetadata = SaveGameMetadata(
    filename: string,
    timestamp: int,
    gameMode: string,
    tag: string,
    player1Score: int,
    dealerScore: int)
}
