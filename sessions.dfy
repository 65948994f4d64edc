/** The game-session store (backend/internal/game/manager.go): a table of
    games keyed by id, and ApplyMove, the move state machine that validates a
    move, applies it and decides WIN, DRAW or CONTINUE. */
module Sessions {
  import opened Wrappers
  import opened Grid
  import Engine

  datatype MoveResult = Continue | Win | Draw | Invalid

  /** Why ApplyMove refused a move, in the order it checks. */
  datatype MoveError =
    | GameNotFound(id: string)
    | GameFinished
    | NotAParticipant
    | NotYourTurn
    | DropFailed(cause: Engine.DropError)

  /** The text of each error, as `err.Error()` gives it. */
  function MoveErrorText(e: MoveError): string
  {
    match e
    case GameNotFound(id) => "game " + id + " not found"
    case GameFinished => "game already finished"
    case NotAParticipant => "player not part of this game"
    case NotYourTurn => "not your turn"
    case DropFailed(cause) => Engine.DropErrorText(cause)
  }

  /** The state of one game that a move reads or writes: a snapshot of a
      Game object's fields. */
  datatype Session = Session(
    player1: string,
    player2: string,
    board: Board,
    currentTurn: int,
    winner: Option<string>)

  /** What ApplyMove returns and leaves behind. */
  datatype Transition = Transition(result: MoveResult, error: Option<MoveError>, after: Session)

  /** The seat ApplyMove's switch gives a username: Player1 is matched
      first, so it is 1 for Player1, 2 for Player2, 0 for anyone else. */
  function Seat(s: Session, player: string): int
  {
    if player == s.player1 then 1 else if player == s.player2 then 2 else 0
  }

  /** The other seat: 1 <-> 2. */
  function OtherSeat(seat: int): int
  {
    if seat == 1 then 2 else 1
  }

  /** Specification of ApplyMove on one stored game (manager.go:85-132);
      ApplySpec states what it decides. */
  function Apply(s: Session, player: string, col: int): (t: Transition)
    requires Engine.RowsFit(s.board)
    // Invalid exactly when there is an error, and then nothing changes.
    ensures t.result == Invalid <==> t.error.Some?
    ensures t.result == Invalid ==> t.after == s
    ensures t.after.player1 == s.player1 && t.after.player2 == s.player2
    ensures Engine.RowsFit(t.after.board)
  {
    if s.winner.Some? then Transition(Invalid, Some(GameFinished), s)
    else
      var seat := Seat(s, player);
      if seat == 0 then Transition(Invalid, Some(NotAParticipant), s)
      else if s.currentTurn != seat then Transition(Invalid, Some(NotYourTurn), s)
      else
        match Engine.Drop(s.board, col, seat)
        case Rejected(e) => Transition(Invalid, Some(DropFailed(e)), s)
        case Dropped(nb, _) =>
          if HasFour(nb, seat, Engine.Rows, Engine.Columns) then
            Transition(Win, None, s.(board := nb, winner := Some(player)))
          else if Engine.Filled(nb) then
            Transition(Draw, None, s.(board := nb, winner := None))
          else
            Transition(Continue, None, s.(board := nb, winner := None, currentTurn := OtherSeat(seat)))
  }

  /** What ApplyMove decides: the fail-fast validation chain, in order,
      and for an accepted move WIN, DRAW or CONTINUE with their effects on
      the board, the winner and the turn. */
  lemma ApplySpec(s: Session, player: string, col: int, t: Transition)
    requires Engine.RowsFit(s.board)
    requires t == Apply(s, player, col)
    // The fail-fast validation chain, in order.
    ensures s.winner.Some? ==> t.error == Some(GameFinished)
    ensures s.winner.None? && Seat(s, player) == 0 ==> t.error == Some(NotAParticipant)
    ensures s.winner.None? && Seat(s, player) != 0 && s.currentTurn != Seat(s, player) ==>
              t.error == Some(NotYourTurn)
    ensures s.winner.None? && Seat(s, player) != 0 && s.currentTurn == Seat(s, player) ==>
              match Engine.Drop(s.board, col, s.currentTurn)
              case Rejected(e) => t.error == Some(DropFailed(e))
              case Dropped(_, _) => t.result != Invalid
    // An accepted move: the mover held the turn, the board is the dropped board, players kept.
    ensures t.result != Invalid ==>
              && s.winner.None? && Seat(s, player) != 0 && s.currentTurn == Seat(s, player)
              && Engine.Drop(s.board, col, s.currentTurn).Dropped?
              && t.after.board == Engine.Drop(s.board, col, s.currentTurn).board
              && t.after.player1 == s.player1 && t.after.player2 == s.player2
              && Engine.Covers(t.after.board)
    // WIN records the mover as winner and keeps the turn.
    ensures t.result == Win <==>
              t.result != Invalid && HasFour(t.after.board, s.currentTurn, Engine.Rows, Engine.Columns)
    ensures t.result == Win ==> t.after.winner == Some(player) && t.after.currentTurn == s.currentTurn
    // DRAW: no four in a row, a full board, no winner, turn kept.
    ensures t.result == Draw ==>
              && !HasFour(t.after.board, s.currentTurn, Engine.Rows, Engine.Columns)
              && Engine.Filled(t.after.board)
              && t.after.winner.None? && t.after.currentTurn == s.currentTurn
    // CONTINUE: neither, and the turn passes to the other seat.
    ensures t.result == Continue ==>
              && !HasFour(t.after.board, s.currentTurn, Engine.Rows, Engine.Columns)
              && !Engine.Filled(t.after.board)
              && t.after.winner.None? && t.after.currentTurn == OtherSeat(s.currentTurn)
  {
  }

  /** A game with a recorded winner refuses every further move. */
  lemma NoMoveAfterWin(s: Session, player: string, col: int, next: string, nextCol: int)
    requires Engine.RowsFit(s.board)
    requires Apply(s, player, col).result == Win
    ensures Apply(Apply(s, player, col).after, next, nextCol) ==
              Transition(Invalid, Some(GameFinished), Apply(s, player, col).after)
  {
  }

  /** After a DRAW every later move is refused, and only because no column
      has room (or the column is out of range): no finished flag is set. */
  lemma NoMoveAfterDraw(s: Session, player: string, col: int, next: string, nextCol: int)
    requires Engine.RowsFit(s.board)
    requires Apply(s, player, col).result == Draw
    ensures Apply(Apply(s, player, col).after, next, nextCol).result == Invalid
    ensures Apply(s, player, col).after.winner.None?
    ensures Seat(s, next) == s.currentTurn && 0 <= nextCol < Engine.Columns ==>
              Apply(Apply(s, player, col).after, next, nextCol).error == Some(DropFailed(Engine.ColumnFull))
  {
    var after := Apply(s, player, col).after;
    var full := after.board;
    assert |full| == Engine.Rows;
    forall r | 0 <= r < Engine.Rows
      ensures Engine.Copied(full)[r] == full[r]
    {
    }
    if 0 <= nextCol < Engine.Columns {
      forall r | 0 <= r < Engine.Rows
        ensures full[r][nextCol] != 0
      {
        assert CellAt(full, r, nextCol) != Some(0);
      }
    }
  }

  /** A move by the player whose turn it is, into a column with room, is
      always applied: the result is CONTINUE, WIN or DRAW and the board
      changes. */
  lemma LegalMoveApplies(s: Session, player: string, col: int)
    requires Engine.RowsFit(s.board)
    requires s.winner.None? && Seat(s, player) != 0 && s.currentTurn == Seat(s, player)
    requires 0 <= col < Engine.Columns
    requires exists r :: 0 <= r < Engine.Rows && Engine.Copied(s.board)[r][col] == 0
    ensures Apply(s, player, col).result in {Continue, Win, Draw}
    ensures Apply(s, player, col).after.board != s.board
  {
    var d := Engine.Drop(s.board, col, s.currentTurn);
    assert d.Dropped?;
    var nb := Apply(s, player, col).after.board;
    if |s.board| == |nb| {
      assert Engine.Copied(s.board)[d.row] == s.board[d.row];
      assert nb[d.row][col] != s.board[d.row][col];
    }
  }

  /** newBoard (manager.go:135-141): Rows rows, each a fresh row of
      Columns zeros. */
  method MakeBoard() returns (board: Engine.FitBoard)
    ensures board == Engine.NewBoard()
    ensures Engine.IsGrid(board)
    ensures forall r, c :: 0 <= r < Engine.Rows && 0 <= c < Engine.Columns ==> board[r][c] == 0
  {
    var rows: Board := [];
    var r := 0;
    while r < Engine.Rows
      invariant 0 <= r <= Engine.Rows
      invariant rows == Engine.NewBoard()[..r]
    {
      rows := rows + [Engine.EmptyRow()];
      r := r + 1;
    }
    board := rows;
  }

  /** A Go Game: identity and players fixed at creation; board, turn and
      winner overwritten in place by ApplyMove. Callers hold the same object
      that the store holds. */
  class Game {
    const ID: string
    const Player1: string
    const Player2: string
    const CreatedAt: int
    var Board: Engine.FitBoard
    var CurrentTurn: int
    var Winner: Option<string>

    function Snapshot(): Session
      reads this
    {
      Session(Player1, Player2, Board, CurrentTurn, Winner)
    }

    constructor (id: string, player1: string, player2: string, board: Engine.FitBoard, createdAt: int)
      ensures ID == id && CreatedAt == createdAt
      ensures Snapshot() == Session(player1, player2, board, 1, None)
    {
      ID := id;
      Player1 := player1;
      Player2 := player2;
      CreatedAt := createdAt;
      Board := board;
      CurrentTurn := 1;
      Winner := None;
    }
  }

  /** The game was created for players a and b, in either order. */
  predicate Pairs(g: Game, a: string, b: string)
  {
    (g.Player1 == a && g.Player2 == b) || (g.Player1 == b && g.Player2 == a)
  }

  /** GameManager: the games table. */
  class GameManager {
    var games: map<string, Game>

    /** Every game is stored under its own ID. */
    ghost predicate Valid()
      reads this
    {
      forall id :: id in games ==> games[id].ID == id
    }

    constructor ()
      ensures Valid() && games == map[]
    {
      games := map[];
    }

    /** CreateGame (manager.go:37-52) with the fresh id and the clock
        reading passed in: a new game with an empty board, turn 1 and no
        winner is stored under id; every other entry stays. */
    method CreateGame(player1: string, player2: string, id: string, now: int) returns (g: Game)
      requires Valid()
      modifies this
      ensures Valid() && fresh(g)
      ensures games == old(games)[id := g]
      ensures g.ID == id && g.CreatedAt == now
      ensures g.Snapshot() == Session(player1, player2, Engine.NewBoard(), 1, None)
    {
      var board := MakeBoard();
      g := new Game(id, player1, player2, board, now);
      games := games[id := g];
    }

    /** GetGame (manager.go:55-62). */
    method GetGame(id: string) returns (g: Game?, ok: bool)
      ensures ok <==> id in games
      ensures ok ==> g == games[id]
      ensures !ok ==> g == null
    {
      if id in games {
        return games[id], true;
      }
      return null, false;
    }

    /** RemoveGame (manager.go:64-68) deletes exactly that id. */
    method RemoveGame(id: string)
      requires Valid()
      modifies this
      ensures Valid()
      ensures games == old(games) - {id}
    {
      games := games - {id};
    }

    /** ApplyMove (manager.go:85-132): looks the game up, then runs the
        state machine on the stored object itself and returns that object. */
    method ApplyMove(gameID: string, player: string, col: int) returns (g: Game?, result: MoveResult, err: Option<MoveError>)
      requires Valid()
      modifies if gameID in games then {games[gameID]} else {}
      ensures Valid() && games == old(games)
      ensures gameID !in games ==> g == null && result == Invalid && err == Some(GameNotFound(gameID))
      ensures gameID in games ==>
                && g == games[gameID]
                && Transition(result, err, g.Snapshot()) == Apply(old(games[gameID].Snapshot()), player, col)
    {
      if gameID !in games {
        return null, Invalid, Some(GameNotFound(gameID));
      }
      g := games[gameID];
      if g.Winner.Some? {
        return g, Invalid, Some(GameFinished);
      }
      var playerNum: int;
      if player == g.Player1 {
        playerNum := 1;
      } else if player == g.Player2 {
        playerNum := 2;
      } else {
        return g, Invalid, Some(NotAParticipant);
      }
      if g.CurrentTurn != playerNum {
        return g, Invalid, Some(NotYourTurn);
      }
      var drop := Engine.DropDisc(g.Board, col, playerNum);
      if drop.Rejected? {
        return g, Invalid, Some(DropFailed(drop.error));
      }
      g.Board := drop.board;
      g.Winner := None;
      var won := Engine.CheckWin(drop.board, playerNum);
      if won {
        g.Winner := Some(player);
        return g, Win, None;
      }
      var full := Engine.IsBoardFull(drop.board);
      if full {
        return g, Draw, None;
      }
      if playerNum == 1 {
        g.CurrentTurn := 2;
      } else {
        g.CurrentTurn := 1;
      }
      return g, Continue, None;
    }

    /** FindGameByPlayers (manager.go:144-155): Go visits the map in no
        fixed order, so which matching game is returned is left open. */
    method FindGameByPlayers(a: string, b: string) returns (g: Game?, ok: bool)
      ensures ok <==> exists id :: id in games && Pairs(games[id], a, b)
      ensures ok ==> g != null && g in games.Values && Pairs(g, a, b)
      ensures !ok ==> g == null
    {
      var unvisited := games.Keys;
      while unvisited != {}
        invariant unvisited <= games.Keys
        invariant forall id :: id in games && id !in unvisited ==> !Pairs(games[id], a, b)
        decreases |unvisited|
      {
        var id :| id in unvisited;
        if Pairs(games[id], a, b) {
          return games[id], true;
        }
        unvisited := unvisited - {id};
      }
      return null, false;
    }
  }
}
