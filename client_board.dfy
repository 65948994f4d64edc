/** The client's board helpers (src/utils/board.ts), used by its offline
    mode. Unlike the server's engine they take the dimensions from the
    board itself. An index past a row's end reads `undefined` in
    TypeScript, which is Grid.CellAt's None. */
module ClientBoard {
  import opened Wrappers
  import opened Grid
  import Engine

  /** PlayerId: the marks 1 and 2. */
  type PlayerId = p: int | p == 1 || p == 2 witness 1

  /** What dropDisc returns on success: the new board and the landing row. */
  datatype Landing = Landing(nextBoard: Board, row: int)

  /** cloneBoard (board.ts:3-5): every row copied into a new array. As
      values, the copy equals the board, so writing into it leaves the
      original as it was. */
  function CloneBoard(b: Board): (n: Board)
    ensures n == b
  {
    var n := seq(|b|, r requires 0 <= r < |b| => seq(|b[r]|, c requires 0 <= c < |b[r]| => b[r][c]));
    assert forall r | 0 <= r < |b| :: n[r] == b[r];
    n
  }

  /** findAvailableRow (board.ts:7-14): scan the column from the last row
      upward and return the first row whose cell is 0, or -1. A column
      outside a row reads `undefined`, so it counts as full. */
  method FindAvailableRow(board: Board, col: int) returns (row: int)
    ensures row == LandingRow(board, col, |board| - 1)
    ensures -1 <= row < |board|
    ensures row >= 0 ==> CellAt(board, row, col) == Some(0)
    ensures forall k :: row < k < |board| ==> CellAt(board, k, col) != Some(0)
  {
    row := |board| - 1;
    while row >= 0
      invariant -1 <= row < |board|
      invariant LandingRow(board, col, row) == LandingRow(board, col, |board| - 1)
    {
      if CellAt(board, row, col) == Some(0) {
        return;
      }
      row := row - 1;
    }
  }

  /** Specification of dropDisc (board.ts:16-25): null when the column has
      no empty cell; otherwise a copy of the board with player written into
      the lowest empty cell of the column. */
  function Drop(b: Board, col: int, player: PlayerId): (res: Option<Landing>)
    ensures res.None? <==> forall k :: 0 <= k < |b| ==> CellAt(b, k, col) != Some(0)
    ensures res.Some? ==>
              && 0 <= res.value.row < |b|
              && CellAt(b, res.value.row, col) == Some(0)
              && (forall k :: res.value.row < k < |b| ==> CellAt(b, k, col) != Some(0))
              && |res.value.nextBoard| == |b|
              && (forall r :: 0 <= r < |b| ==> |res.value.nextBoard[r]| == |b[r]|)
              && (forall r, c :: 0 <= r < |b| && 0 <= c < |b[r]| ==>
                    res.value.nextBoard[r][c] == if r == res.value.row && c == col then player else b[r][c])
  {
    var row := LandingRow(b, col, |b| - 1);
    if row == -1 then None
    else
      var next := CloneBoard(b);
      Some(Landing(next[row := next[row][col := player]], row))
  }

  /** dropDisc (board.ts:16-25): find the row, clone, write the mark. */
  method DropDisc(board: Board, col: int, player: PlayerId) returns (res: Option<Landing>)
    ensures res == Drop(board, col, player)
  {
    var targetRow := FindAvailableRow(board, col);
    if targetRow == -1 {
      return None;
    }
    var nextBoard := CloneBoard(board);
    nextBoard := nextBoard[targetRow := nextBoard[targetRow][col := player]];
    return Some(Landing(nextBoard, targetRow));
  }

  /** checkWin (board.ts:27-84): the four searches over a region as tall as
      the board and as wide as its first row. An empty board has no first
      row and makes `board[0].length` throw. */
  method CheckWin(board: Board, player: PlayerId) returns (won: bool)
    requires |board| > 0
    ensures won <==> HasFour(board, player, |board|, |board[0]|)
  {
    won := FourInARow(board, player, |board|, |board[0]|);
  }

  /** `row.every((cell) => cell !== 0)`. */
  function RowFull(row: seq<int>): (full: bool)
    decreases |row|
    ensures full <==> forall c :: 0 <= c < |row| ==> row[c] != 0
  {
    if row == [] then true
    else
      var rest := RowFull(row[1..]);
      assert forall c :: 1 <= c < |row| ==> row[c] == row[1..][c - 1];
      row[0] != 0 && rest
  }

  /** isBoardFull (board.ts:86-88): every cell of every row, whatever its
      length, is occupied; a board with no rows is full. */
  function IsBoardFull(b: Board): (full: bool)
    decreases |b|
    ensures full <==> forall r, c :: 0 <= r < |b| && 0 <= c < |b[r]| ==> b[r][c] != 0
  {
    if b == [] then true
    else
      var rest := IsBoardFull(b[1..]);
      assert forall r :: 1 <= r < |b| ==> b[r] == b[1..][r - 1];
      RowFull(b[0]) && rest
  }

  // ----- The client's rules agree with the server's on a 6 x 7 board -----

  /** On a Rows x Columns board the client's drop and the server's accept
      the same moves, land in the same row and give the same board; a
      column out of range is full to the client and invalid to the server. */
  lemma DropAgreesWithServer(b: Board, col: int, player: PlayerId)
    requires Engine.IsGrid(b)
    ensures (col < 0 || col >= Engine.Columns) ==>
              Drop(b, col, player).None? && Engine.Drop(b, col, player) == Engine.Rejected(Engine.InvalidColumn)
    ensures 0 <= col < Engine.Columns ==>
              && (Drop(b, col, player).None? <==> Engine.Drop(b, col, player) == Engine.Rejected(Engine.ColumnFull))
              && (Drop(b, col, player).Some? ==>
                    Engine.Drop(b, col, player) == Engine.Dropped(Drop(b, col, player).value.nextBoard, Drop(b, col, player).value.row))
  {
    var n := Engine.Copied(b);
    assert n == b;
    if 0 <= col < Engine.Columns {
      assert forall k :: 0 <= k < |b| ==> CellAt(b, k, col) == Some(b[k][col]);
    }
  }

  /** On a Rows x Columns board the client's full-board test is the server's. */
  lemma FullAgreesWithServer(b: Board)
    requires Engine.IsGrid(b)
    ensures IsBoardFull(b) <==> Engine.Filled(b)
  {
    if !IsBoardFull(b) {
      var r, c :| 0 <= r < |b| && 0 <= c < |b[r]| && b[r][c] == 0;
      assert CellAt(b, r, c) == Some(0);
    }
  }

  /** On a Rows x Columns board the client's win test is the server's. */
  lemma WinAgreesWithServer(b: Board, player: PlayerId)
    requires Engine.IsGrid(b)
    ensures HasFour(b, player, |b|, |b[0]|) <==> HasFour(b, player, Engine.Rows, Engine.Columns)
  {
  }
}
