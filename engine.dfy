/** The server's rules engine (backend/internal/game/engine.go): a fixed
    Rows x Columns board, dropping a disc under gravity into a copy of the
    board, detecting four in a row and detecting a full board. */
module Engine {
  import opened Wrappers
  import opened Grid

  const Rows: int := 6
  const Columns: int := 7

  datatype DropError = InvalidColumn | InvalidPlayer | ColumnFull

  /** DropDisc's three results: the new board and the landing row, or an error. */
  datatype DropResult = Dropped(board: Board, row: int) | Rejected(error: DropError)

  /** The text of each error, as `err.Error()` gives it. */
  function DropErrorText(e: DropError): string
  {
    match e
    case InvalidColumn => "invalid column"
    case InvalidPlayer => "invalid player"
    case ColumnFull => "column is full"
  }

  /** The boards DropDisc is modelled on: every row the board has among
      the first Rows holds at least Columns cells. Missing rows are allowed
      (the copy pads them with zeros). Every board the games table holds
      is a full Rows x Columns grid, so it meets this. */
  predicate RowsFit(b: Board)
  {
    forall r :: 0 <= r < |b| && r < Rows ==> |b[r]| >= Columns
  }

  /** A board DropDisc accepts, as the games table stores it. */
  type FitBoard = b: Board | RowsFit(b) witness []

  /** The boards CheckWin is modelled on: at least Rows rows, each at
      least Columns long, so every cell of the scanned region exists. */
  predicate Covers(b: Board)
  {
    |b| >= Rows && forall r :: 0 <= r < Rows ==> |b[r]| >= Columns
  }

  /** A board of exactly Rows rows of exactly Columns cells each. */
  predicate IsGrid(b: Board)
  {
    |b| == Rows && forall r :: 0 <= r < Rows ==> |b[r]| == Columns
  }

  function EmptyRow(): (z: seq<int>)
    ensures |z| == Columns && forall c :: 0 <= c < Columns ==> z[c] == 0
  {
    seq(Columns, _ => 0)
  }

  /** newBoard(): Rows rows of Columns zeros (backend/internal/game/manager.go). */
  function NewBoard(): (b: Board)
    ensures IsGrid(b)
    ensures forall r, c :: 0 <= r < Rows && 0 <= c < Columns ==> b[r][c] == 0
  {
    var z := EmptyRow();
    seq(Rows, _ => z)
  }

  /** The board DropDisc writes into: the first Rows rows of b, copied,
      and an all-zero row for each row b lacks. */
  function Copied(b: Board): (n: Board)
    requires RowsFit(b)
    ensures |n| == Rows && Covers(n)
    ensures forall r :: 0 <= r < Rows && r < |b| ==> n[r] == b[r]
    ensures forall r, c :: |b| <= r < Rows && 0 <= c < Columns ==> n[r][c] == 0
  {
    var z := EmptyRow();
    seq(Rows, r requires 0 <= r < Rows => if r < |b| then b[r] else z)
  }

  /** Every cell of the Rows x Columns region is occupied. */
  predicate Filled(b: Board)
  {
    |b| >= Rows && forall r, c :: 0 <= r < Rows && 0 <= c < Columns ==> CellAt(b, r, c) != Some(0)
  }

  /** Specification of DropDisc. The column is checked before the player;
      a column with no empty cell is full. */
  function Drop(b: Board, col: int, player: int): (res: DropResult)
    requires RowsFit(b)
    ensures (col < 0 || col >= Columns) <==> res == Rejected(InvalidColumn)
    ensures (0 <= col < Columns && player != 1 && player != 2) <==> res == Rejected(InvalidPlayer)
    ensures res == Rejected(ColumnFull) <==>
              && 0 <= col < Columns && (player == 1 || player == 2)
              && forall r :: 0 <= r < Rows ==> Copied(b)[r][col] != 0
    ensures res.Dropped? ==>
              && 0 <= res.row < Rows
              && Copied(b)[res.row][col] == 0
              && (forall r :: res.row < r < Rows ==> Copied(b)[r][col] != 0)
              && |res.board| == Rows && Covers(res.board)
              && (forall r :: 0 <= r < Rows ==> |res.board[r]| == |Copied(b)[r]|)
              && (forall r, c :: 0 <= r < Rows && 0 <= c < |res.board[r]| ==>
                    res.board[r][c] == if r == res.row && c == col then player else Copied(b)[r][c])
  {
    if col < 0 || col >= Columns then Rejected(InvalidColumn)
    else if player != 1 && player != 2 then Rejected(InvalidPlayer)
    else
      var n := Copied(b);
      var r := LandingRow(n, col, Rows - 1);
      assert forall k :: 0 <= k < Rows ==> CellAt(n, k, col) == Some(n[k][col]);
      if r < 0 then Rejected(ColumnFull)
      else Dropped(n[r := n[r][col := player]], r)
  }

  /** DropDisc (engine.go:11-36): validate, copy the rows into a fresh
      board, then scan the column upward from the bottom row and write the
      player's mark into the first empty cell. The input is a value and is
      never changed. */
  method DropDisc(board: Board, col: int, player: int) returns (res: DropResult)
    requires RowsFit(board)
    ensures res == Drop(board, col, player)
  {
    if col < 0 || col >= Columns {
      return Rejected(InvalidColumn);
    }
    if player != 1 && player != 2 {
      return Rejected(InvalidPlayer);
    }
    var newBoard: Board := [];
    var r := 0;
    while r < Rows
      invariant 0 <= r <= Rows
      invariant newBoard == Copied(board)[..r]
    {
      if |board| > r {
        newBoard := newBoard + [board[r]];
      } else {
        newBoard := newBoard + [EmptyRow()];
      }
      r := r + 1;
    }
    var row := Rows - 1;
    while row >= 0
      invariant -1 <= row < Rows
      invariant newBoard == Copied(board)
      invariant forall k :: row < k < Rows ==> newBoard[k][col] != 0
    {
      if newBoard[row][col] == 0 {
        newBoard := newBoard[row := newBoard[row][col := player]];
        return Dropped(newBoard, row);
      }
      row := row - 1;
    }
    return Rejected(ColumnFull);
  }

  /** CheckWin (engine.go:39-77): the four searches over the fixed
      Rows x Columns region. */
  method CheckWin(board: Board, player: int) returns (won: bool)
    requires Covers(board)
    ensures won <==> HasFour(board, player, Rows, Columns)
  {
    won := FourInARow(board, player, Rows, Columns);
  }

  /** IsBoardFull (engine.go:80-92): false as soon as a row is missing or
      a cell of the region is empty. */
  method IsBoardFull(board: Board) returns (full: bool)
    requires RowsFit(board)
    ensures full <==> Filled(board)
  {
    var r := 0;
    while r < Rows
      invariant 0 <= r <= Rows
      invariant r <= |board|
      invariant forall r', c :: 0 <= r' < r && 0 <= c < Columns ==> board[r'][c] != 0
    {
      if |board| <= r {
        return false;
      }
      var c := 0;
      while c < Columns
        invariant 0 <= c <= Columns
        invariant forall c' :: 0 <= c' < c ==> board[r][c'] != 0
      {
        if board[r][c] == 0 {
          assert CellAt(board, r, c) == Some(0);
          return false;
        }
        c := c + 1;
      }
      r := r + 1;
    }
    return true;
  }

  // ----- Properties of dropping -----

  /** Gravity discipline over the region: every cell below an occupied
      cell is occupied. */
  predicate Settled(b: Board)
    requires Covers(b)
  {
    forall r1, r2, c :: 0 <= r1 <= r2 < Rows && 0 <= c < Columns && b[r1][c] != 0 ==> b[r2][c] != 0
  }

  /** Exactly the bottom h cells of column col are occupied. */
  predicate StackHeight(b: Board, col: int, h: int)
    requires Covers(b) && 0 <= col < Columns
  {
    forall r :: 0 <= r < Rows ==> (b[r][col] != 0 <==> r >= Rows - h)
  }

  /** On a settled board a legal drop is rejected as ColumnFull exactly
      when the column's top cell is occupied. */
  lemma FullColumnIffTopOccupied(b: Board, col: int, player: int)
    requires Covers(b) && Settled(b)
    requires 0 <= col < Columns && (player == 1 || player == 2)
    ensures Drop(b, col, player) == Rejected(ColumnFull) <==> b[0][col] != 0
  {
  }

  /** Dropping preserves the gravity discipline: the new disc rests on an
      occupied cell or on the bottom row, and nothing sits above it. */
  lemma DropKeepsSettled(b: Board, col: int, player: int)
    requires Covers(b) && Settled(b)
    requires Drop(b, col, player).Dropped?
    requires player != 0
    ensures Covers(Drop(b, col, player).board)
    ensures Settled(Drop(b, col, player).board)
  {
    var res := Drop(b, col, player);
    var nb, row := res.board, res.row;
    forall r1, r2, c | 0 <= r1 <= r2 < Rows && 0 <= c < Columns && nb[r1][c] != 0
      ensures nb[r2][c] != 0
    {
    }
  }

  /** A column holding h < Rows discs takes the next disc in row
      Rows - 1 - h, and then holds h + 1. */
  lemma DropStacks(b: Board, col: int, player: int, h: int)
    requires Covers(b) && 0 <= col < Columns && StackHeight(b, col, h)
    requires 0 <= h < Rows && (player == 1 || player == 2)
    ensures Drop(b, col, player).Dropped?
    ensures Drop(b, col, player).row == Rows - 1 - h
    ensures Covers(Drop(b, col, player).board)
    ensures StackHeight(Drop(b, col, player).board, col, h + 1)
  {
    var n := Copied(b);
    assert n[Rows - 1 - h][col] == 0;
  }

  /** Drops the players' marks, in order, into one column; None as soon as
      one drop is rejected. */
  function DropAll(b: Board, col: int, players: seq<int>): Option<Board>
    requires RowsFit(b)
    decreases |players|
  {
    if players == [] then Some(b)
    else match Drop(b, col, players[0])
      case Rejected(_) => None
      case Dropped(nb, _) => DropAll(nb, col, players[1..])
  }

  /** A column with room for k more discs accepts k drops, filling from the bottom. */
  lemma {:induction false} DropAllStacks(b: Board, col: int, players: seq<int>, h: int)
    requires Covers(b) && 0 <= col < Columns && StackHeight(b, col, h)
    requires 0 <= h && h + |players| <= Rows
    requires forall i :: 0 <= i < |players| ==> players[i] == 1 || players[i] == 2
    ensures DropAll(b, col, players).Some?
    ensures Covers(DropAll(b, col, players).value)
    ensures StackHeight(DropAll(b, col, players).value, col, h + |players|)
    decreases |players|
  {
    if players != [] {
      DropStacks(b, col, players[0], h);
      DropAllStacks(Drop(b, col, players[0]).board, col, players[1..], h + 1);
    }
  }

  /** Rows drops into an empty column all succeed and fill it: the next
      drop is rejected as ColumnFull. */
  lemma ColumnFillsAfterRowsDrops(col: int, players: seq<int>, next: int)
    requires 0 <= col < Columns && |players| == Rows
    requires forall i :: 0 <= i < |players| ==> players[i] == 1 || players[i] == 2
    requires next == 1 || next == 2
    ensures DropAll(NewBoard(), col, players).Some?
    ensures Covers(DropAll(NewBoard(), col, players).value)
    ensures Drop(DropAll(NewBoard(), col, players).value, col, next) == Rejected(ColumnFull)
  {
    DropAllStacks(NewBoard(), col, players, 0);
    var full := DropAll(NewBoard(), col, players).value;
    assert forall r :: 0 <= r < Rows ==> Copied(full)[r] == full[r];
  }

  /** A drop into an empty board lands in the bottom row. */
  lemma EmptyBoardLandsAtBottom(col: int, player: int)
    requires 0 <= col < Columns && (player == 1 || player == 2)
    ensures Drop(NewBoard(), col, player).Dropped?
    ensures Drop(NewBoard(), col, player).row == Rows - 1
  {
    assert Copied(NewBoard())[Rows - 1][col] == 0;
  }

  /** Nobody has four in a row on the empty board. */
  lemma EmptyBoardHasNoFour(player: int)
    requires player != 0
    ensures !HasFour(NewBoard(), player, Rows, Columns)
  {
  }
}
