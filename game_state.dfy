/** The client's view of a match (src/state/gameState.ts): a record of
    what the screen shows, changed only by returning an updated copy, and
    the reducer that dispatches actions to those updates. Optional fields
    are Options; `x ?? y` is `if x.Some? then x.value else y`. */
module GameState {
  import opened Wrappers
  import opened Grid
  import ClientBoard

  datatype Screen = ENTER_NAME | MATCHMAKING | IN_GAME | GAME_OVER

  datatype GameResult = WIN | LOSS | DRAW

  datatype GameMode = LOCAL | ONLINE

  type PlayerId = ClientBoard.PlayerId

  datatype State = State(
    screen: Screen,
    username: string,
    opponent: Option<string>,
    board: Board,
    currentTurn: PlayerId,
    you: PlayerId,
    gameId: Option<string>,
    result: Option<GameResult>,
    message: Option<string>,
    gameMode: GameMode)

  datatype StartGamePayload = StartGamePayload(
    opponent: Option<string>,
    you: PlayerId,
    firstTurn: Option<PlayerId>,
    board: Option<Board>,
    gameId: Option<string>,
    message: Option<string>)

  datatype UpdateBoardPayload = UpdateBoardPayload(board: Board, currentTurn: PlayerId, message: Option<string>)

  datatype EndGamePayload = EndGamePayload(result: GameResult, message: Option<string>, board: Option<Board>)

  /** What the server sends, with the fields it always fills required. */
  datatype ServerGameStartPayload = ServerGameStartPayload(
    gameId: string,
    you: PlayerId,
    opponent: string,
    firstTurn: Option<PlayerId>,
    message: Option<string>,
    board: Option<Board>)

  datatype ServerBoardUpdatePayload = ServerBoardUpdatePayload(board: Board, currentTurn: PlayerId, message: Option<string>)

  datatype ServerGameOverPayload = ServerGameOverPayload(result: GameResult, board: Board, message: Option<string>)

  /** The actions of the union type, plus UNKNOWN for an action whose type
      is none of them (the reducer's default branch). */
  datatype GameAction =
    | SET_USERNAME(username: string)
    | CHANGE_SCREEN(screen: Screen, message: Option<string>)
    | START_GAME(startPayload: StartGamePayload)
    | UPDATE_BOARD(updatePayload: UpdateBoardPayload)
    | END_GAME(endPayload: EndGamePayload)
    | RESET_GAME
    | SET_MESSAGE(text: string)
    | SERVER_GAME_START(serverStart: ServerGameStartPayload)
    | SERVER_BOARD_UPDATE(serverUpdate: ServerBoardUpdatePayload)
    | SERVER_GAME_OVER(serverOver: ServerGameOverPayload)
    | UNKNOWN(kind: string)

  const Rows: int := 6
  const Columns: int := 7

  const ResetMessage: string := "Your move - drop a disc to get four in a row."

  /** `x ?? fallback` */
  function OrElse<T>(x: Option<T>, fallback: T): T
  {
    if x.Some? then x.value else fallback
  }

  /** createEmptyBoard: `rows` rows of `columns` zeros. Array.from clamps a
      negative length to 0. */
  function CreateEmptyBoard(rows: int, columns: int): (b: Board)
    ensures |b| == (if rows < 0 then 0 else rows)
    ensures forall r :: 0 <= r < |b| ==> |b[r]| == (if columns < 0 then 0 else columns)
    ensures forall r, c :: 0 <= r < |b| && 0 <= c < |b[r]| ==> b[r][c] == 0
  {
    var width := if columns < 0 then 0 else columns;
    seq(if rows < 0 then 0 else rows, _ => seq(width, _ => 0))
  }

  /** initialGameState: the name screen, no game, an empty 6 x 7 board. */
  const InitialGameState: State :=
    State(ENTER_NAME, "", None, CreateEmptyBoard(Rows, Columns), 1, 1, None, None,
          Some("Enter a username to start a match."), ONLINE)

  /** setUsername: only the username changes. */
  function SetUsername(s: State, username: string): (r: State)
    ensures r.username == username
    ensures r.(username := s.username) == s
  {
    s.(username := username)
  }

  /** changeScreen: the screen changes; the message changes only when one
      is given; nothing else changes. */
  function ChangeScreen(s: State, screen: Screen, message: Option<string>): (r: State)
    ensures r.screen == screen
    ensures message.Some? ==> r.message == message
    ensures message.None? ==> r.message == s.message
    ensures r.(screen := s.screen, message := s.message) == s
  {
    s.(screen := screen, message := if message.Some? then message else s.message)
  }

  /** startGame: enter the game screen with the payload's board (or an
      empty one), seat and first player; the opponent and the message are
      kept when the payload has none; the game id is the payload's, even
      when absent; any earlier result is cleared. */
  function StartGame(s: State, p: StartGamePayload): (r: State)
    ensures r.screen == IN_GAME && r.result.None?
    ensures r.you == p.you
    ensures p.firstTurn.Some? ==> r.currentTurn == p.firstTurn.value
    ensures p.firstTurn.None? ==> r.currentTurn == p.you
    ensures p.board.Some? ==> r.board == p.board.value
    ensures p.board.None? ==> r.board == CreateEmptyBoard(Rows, Columns)
    ensures r.opponent == (if p.opponent.Some? then p.opponent else s.opponent)
    ensures r.gameId == p.gameId
    ensures r.message == (if p.message.Some? then p.message else s.message)
    ensures r.username == s.username && r.gameMode == s.gameMode
  {
    var nextBoard := if p.board.Some? then ClientBoard.CloneBoard(p.board.value) else CreateEmptyBoard(Rows, Columns);
    var nextTurn := OrElse(p.firstTurn, p.you);
    s.(screen := IN_GAME,
       opponent := if p.opponent.Some? then p.opponent else s.opponent,
       board := nextBoard,
       currentTurn := nextTurn,
       you := p.you,
       gameId := p.gameId,
       result := None,
       message := if p.message.Some? then p.message else s.message)
  }

  /** updateBoard: replace the board and the player to move; keep the old
      message when none is given; leave the rest alone. */
  function UpdateBoard(s: State, p: UpdateBoardPayload): (r: State)
    ensures r.board == p.board && r.currentTurn == p.currentTurn
    ensures r.message == (if p.message.Some? then p.message else s.message)
    ensures r.(board := s.board, currentTurn := s.currentTurn, message := s.message) == s
  {
    s.(board := ClientBoard.CloneBoard(p.board),
       currentTurn := p.currentTurn,
       message := if p.message.Some? then p.message else s.message)
  }

  /** endGame: the game-over screen with the result; the board is the
      payload's when it has one and the old one otherwise. */
  function EndGame(s: State, p: EndGamePayload): (r: State)
    ensures r.screen == GAME_OVER && r.result == Some(p.result)
    ensures r.board == (if p.board.Some? then p.board.value else s.board)
    ensures r.message == (if p.message.Some? then p.message else s.message)
    ensures r.(screen := s.screen, result := s.result, board := s.board, message := s.message) == s
  {
    s.(screen := GAME_OVER,
       result := Some(p.result),
       board := if p.board.Some? then ClientBoard.CloneBoard(p.board.value) else s.board,
       message := if p.message.Some? then p.message else s.message)
  }

  /** resetGame: a fresh game on the game screen, with the local player
      to move and no result. */
  function ResetGame(s: State): (r: State)
    ensures r.screen == IN_GAME && r.result.None?
    ensures r.currentTurn == s.you
    ensures r.board == CreateEmptyBoard(Rows, Columns)
    ensures r.message == Some(ResetMessage)
    ensures r.(screen := s.screen, board := s.board, currentTurn := s.currentTurn,
               result := s.result, message := s.message) == s
  {
    s.(screen := IN_GAME,
       board := CreateEmptyBoard(Rows, Columns),
       currentTurn := s.you,
       result := None,
       message := Some(ResetMessage))
  }

  /** setMessage: only the message changes. */
  function SetMessage(s: State, message: string): (r: State)
    ensures r.message == Some(message)
    ensures r.(message := s.message) == s
  {
    s.(message := Some(message))
  }

  /** The payloads the reducer builds from the server's messages. */
  function FromServerStart(p: ServerGameStartPayload): StartGamePayload
  {
    StartGamePayload(Some(p.opponent), p.you, p.firstTurn, p.board, Some(p.gameId), p.message)
  }

  function FromServerUpdate(p: ServerBoardUpdatePayload): UpdateBoardPayload
  {
    UpdateBoardPayload(p.board, p.currentTurn, p.message)
  }

  function FromServerOver(p: ServerGameOverPayload): EndGamePayload
  {
    EndGamePayload(p.result, p.message, Some(p.board))
  }

  /** gameReducer: dispatch an action to its transition. */
  function GameReducer(s: State, a: GameAction): (r: State)
    ensures a.UNKNOWN? ==> r == s
    ensures a.SERVER_GAME_START? ==> r == StartGame(s, FromServerStart(a.serverStart))
    ensures a.SERVER_BOARD_UPDATE? ==> r == UpdateBoard(s, FromServerUpdate(a.serverUpdate))
    ensures a.SERVER_GAME_OVER? ==> r == EndGame(s, FromServerOver(a.serverOver))
  {
    match a
    case SET_USERNAME(u) => SetUsername(s, u)
    case CHANGE_SCREEN(screen, message) => ChangeScreen(s, screen, message)
    case START_GAME(p) => StartGame(s, p)
    case UPDATE_BOARD(p) => UpdateBoard(s, p)
    case END_GAME(p) => EndGame(s, p)
    case RESET_GAME => ResetGame(s)
    case SET_MESSAGE(m) => SetMessage(s, m)
    case SERVER_GAME_START(p) => StartGame(s, FromServerStart(p))
    case SERVER_BOARD_UPDATE(p) => UpdateBoard(s, FromServerUpdate(p))
    case SERVER_GAME_OVER(p) => EndGame(s, FromServerOver(p))
    case UNKNOWN(_) => s
  }

  // ----- Properties across actions -----

  /** A game announced by the server shows its id, the opponent's name,
      the seat given and no result, whatever the state before. */
  lemma ServerStartShowsGame(s: State, p: ServerGameStartPayload)
    ensures var r := GameReducer(s, SERVER_GAME_START(p));
            && r.screen == IN_GAME && r.result.None?
            && r.gameId == Some(p.gameId) && r.opponent == Some(p.opponent)
            && r.you == p.you
            && r.currentTurn == (if p.firstTurn.Some? then p.firstTurn.value else p.you)
  {
  }

  /** A game-over message from the server always shows the server's board
      and result. */
  lemma ServerOverShowsFinalBoard(s: State, p: ServerGameOverPayload)
    ensures var r := GameReducer(s, SERVER_GAME_OVER(p));
            r.screen == GAME_OVER && r.result == Some(p.result) && r.board == p.board
  {
  }

  /** Board updates neither leave the game screen nor set a result. */
  lemma ServerUpdateKeepsScreen(s: State, p: ServerBoardUpdatePayload)
    ensures var r := GameReducer(s, SERVER_BOARD_UPDATE(p));
            r.screen == s.screen && r.result == s.result && r.board == p.board
  {
  }

  /** The result shown changes only when a game ends (it is set) or a game
      starts or restarts (it is cleared). */
  lemma ResultChangesOnlyAtGameBoundaries(s: State, a: GameAction)
    ensures GameReducer(s, a).result != s.result ==>
              || ((a.END_GAME? || a.SERVER_GAME_OVER?) && GameReducer(s, a).result.Some?)
              || ((a.START_GAME? || a.SERVER_GAME_START? || a.RESET_GAME?) && GameReducer(s, a).result.None?)
  {
  }

  /** The game-over screen is reached only by ending a game or by asking
      for that screen. */
  lemma GameOverOnlyByEnding(s: State, a: GameAction)
    requires s.screen != GAME_OVER && GameReducer(s, a).screen == GAME_OVER
    ensures a.END_GAME? || a.SERVER_GAME_OVER? || (a.CHANGE_SCREEN? && a.screen == GAME_OVER)
  {
  }

  /** Repeating a start, update or end message changes nothing more. */
  lemma RepeatedMessagesAreIdempotent(s: State, a: GameAction)
    requires a.START_GAME? || a.UPDATE_BOARD? || a.END_GAME? || a.SERVER_GAME_START?
          || a.SERVER_BOARD_UPDATE? || a.SERVER_GAME_OVER? || a.RESET_GAME?
    ensures GameReducer(GameReducer(s, a), a) == GameReducer(s, a)
  {
  }

  /** After a reset the local player moves first on an empty 6 x 7 board. */
  lemma ResetStartsFresh(s: State)
    ensures var r := GameReducer(s, RESET_GAME);
            && r.currentTurn == r.you
            && |r.board| == Rows
            && (forall row :: 0 <= row < Rows ==> |r.board[row]| == Columns)
            && (forall row, col :: 0 <= row < Rows && 0 <= col < Columns ==> r.board[row][col] == 0)
  {
  }
}
