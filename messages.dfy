/** The wire messages (backend/internal/types/network.go). A ServerMessage
    is one flat record whose unused fields keep Go's zero values. */
module Messages {
  import opened Wrappers

  /** A message from a client; Col is a pointer in Go, so it may be absent. */
  datatype ClientMessage = ClientMessage(kind: string, col: Option<int>, gameId: string, username: string)

  /** The type field of a server message, named as on the wire. */
  datatype MessageType = INFO | GAME_START | BOARD_UPDATE | GAME_OVER

  /** The result field: empty except in a GAME_OVER. */
  datatype ResultCode = NoResult | WIN | LOSS | DRAW

  function TypeName(t: MessageType): string
  {
    match t
    case INFO => "INFO"
    case GAME_START => "GAME_START"
    case BOARD_UPDATE => "BOARD_UPDATE"
    case GAME_OVER => "GAME_OVER"
  }

  function ResultName(r: ResultCode): string
  {
    match r
    case NoResult => ""
    case WIN => "WIN"
    case LOSS => "LOSS"
    case DRAW => "DRAW"
  }

  datatype ServerMessage = ServerMessage(
    kind: MessageType,
    gameId: string,
    you: int,
    opponent: string,
    board: seq<seq<int>>,
    currentTurn: int,
    result: ResultCode,
    message: string)

  function Info(text: string): ServerMessage
  {
    ServerMessage(INFO, "", 0, "", [], 0, NoResult, text)
  }

  function GameStart(gameId: string, you: int, opponent: string): ServerMessage
  {
    ServerMessage(GAME_START, gameId, you, opponent, [], 0, NoResult, "")
  }

  function BoardUpdate(gameId: string, board: seq<seq<int>>, currentTurn: int): ServerMessage
  {
    ServerMessage(BOARD_UPDATE, gameId, 0, "", board, currentTurn, NoResult, "")
  }

  function GameOver(gameId: string, board: seq<seq<int>>, result: ResultCode): ServerMessage
  {
    ServerMessage(GAME_OVER, gameId, 0, "", board, 0, result, "")
  }

  /** One message written to one connection. */
  datatype Delivery = Delivery(connID: string, username: string, msg: ServerMessage)

  /** Outboxes grow by appending; regrouping the appends keeps the order. */
  lemma AppendAssoc(a: seq<Delivery>, b: seq<Delivery>, c: seq<Delivery>)
    ensures (a + b) + c == a + (b + c)
  {
  }
}
