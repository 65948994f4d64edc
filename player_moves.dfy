/** The client's offline move judge (src/state/playerMoves.ts): drop the
    disc, then classify the new board. */
module PlayerMoves {
  import opened Wrappers
  import opened Grid
  import ClientBoard
  import Engine
  import Sessions
  import opened GameState

  /** COLUMN_FULL, CONTINUE with the new board, or a finished game with its
      result and the new board. */
  datatype PlayerMoveEvaluation =
    | COLUMN_FULL
    | CONTINUE(board: Board)
    | Finished(result: GameResult, board: Board)

  /** evaluatePlayerMove (playerMoves.ts:9-26). The input board is a value,
      so it is untouched whatever the outcome. */
  function EvaluatePlayerMove(b: Board, col: int, player: PlayerId): (e: PlayerMoveEvaluation)
    ensures e == COLUMN_FULL <==> ClientBoard.Drop(b, col, player).None?
    ensures e != COLUMN_FULL ==> e.board == ClientBoard.Drop(b, col, player).value.nextBoard && |e.board| > 0
    ensures e.Finished? ==> e.result != LOSS
    ensures (e.Finished? && e.result == WIN) <==>
              e != COLUMN_FULL && HasFour(e.board, player, |e.board|, |e.board[0]|)
    ensures (e.Finished? && e.result == DRAW) <==>
              e != COLUMN_FULL && !HasFour(e.board, player, |e.board|, |e.board[0]|) && ClientBoard.IsBoardFull(e.board)
    ensures e.CONTINUE? <==>
              e != COLUMN_FULL && !HasFour(e.board, player, |e.board|, |e.board[0]|) && !ClientBoard.IsBoardFull(e.board)
  {
    match ClientBoard.Drop(b, col, player)
    case None => COLUMN_FULL
    case Some(drop) =>
      var updated := drop.nextBoard;
      if HasFour(updated, player, |updated|, |updated[0]|) then Finished(WIN, updated)
      else if ClientBoard.IsBoardFull(updated) then Finished(DRAW, updated)
      else CONTINUE(updated)
  }

  /** On a 6 x 7 board, for the player whose turn it is in an unfinished
      game, the client classifies a move in range exactly as the server's
      ApplyMove does, and leaves the same board. */
  lemma EvaluationAgreesWithServer(s: Sessions.Session, player: string, col: int)
    requires Engine.IsGrid(s.board)
    requires s.winner.None? && Sessions.Seat(s, player) != 0 && s.currentTurn == Sessions.Seat(s, player)
    requires 0 <= col < Engine.Columns
    ensures var t := Sessions.Apply(s, player, col);
            var e := EvaluatePlayerMove(s.board, col, Sessions.Seat(s, player));
            && (e == COLUMN_FULL <==> t.error == Some(Sessions.DropFailed(Engine.ColumnFull)))
            && (e.CONTINUE? <==> t.result == Sessions.Continue)
            && ((e.Finished? && e.result == WIN) <==> t.result == Sessions.Win)
            && ((e.Finished? && e.result == DRAW) <==> t.result == Sessions.Draw)
            && (e != COLUMN_FULL ==> e.board == t.after.board)
  {
    var seat: PlayerId := Sessions.Seat(s, player);
    var t := Sessions.Apply(s, player, col);
    Sessions.ApplySpec(s, player, col, t);
    ClientBoard.DropAgreesWithServer(s.board, col, seat);
    var d := ClientBoard.Drop(s.board, col, seat);
    if d.Some? {
      var nb := d.value.nextBoard;
      assert Engine.IsGrid(nb);
      ClientBoard.FullAgreesWithServer(nb);
    }
  }
}
