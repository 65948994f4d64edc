/** Board geometry shared by the server engine (backend/internal/game/engine.go)
    and the client board helpers (src/utils/board.ts): both hold a board as a
    list of rows, both find the landing row by the same downward scan and both
    look for four in a row with the same four nested-loop searches. */
module Grid {
  import opened Wrappers

  /** A board: a list of rows of cells, 0 for empty and 1 or 2 for a
      player's disc. Rows need not have equal lengths. */
  type Board = seq<seq<int>>

  /** The cell at row r, column c, or None where the board has no such cell
      (TypeScript reads `undefined` there, which equals no number). */
  function CellAt(b: Board, r: int, c: int): Option<int>
  {
    if 0 <= r < |b| && 0 <= c < |b[r]| then Some(b[r][c]) else None
  }

  /** The largest row index at most top whose cell in column col is empty,
      or -1 when there is none: where a disc dropped into col comes to rest. */
  function LandingRow(b: Board, col: int, top: int): (r: int)
    requires top < |b|
    decreases top
    ensures -1 <= r
    ensures top < 0 ==> r == -1
    ensures top >= 0 ==> r <= top
    ensures r >= 0 ==> CellAt(b, r, col) == Some(0)
    ensures forall k :: r < k <= top ==> CellAt(b, k, col) != Some(0)
  {
    if top < 0 then -1
    else if CellAt(b, top, col) == Some(0) then top
    else LandingRow(b, col, top - 1)
  }

  datatype Direction = Horizontal | Vertical | DiagonalDown | DiagonalUp

  function RowStep(d: Direction): int
  {
    match d
    case Horizontal => 0
    case Vertical => 1
    case DiagonalDown => 1
    case DiagonalUp => -1
  }

  function ColStep(d: Direction): int
  {
    if d == Vertical then 0 else 1
  }

  /** The test both sources make at one starting cell: the four cells from
      (r, c) onward in direction d all hold p. */
  predicate FourFrom(b: Board, p: int, r: int, c: int, d: Direction)
  {
    var dr, dc := RowStep(d), ColStep(d);
    && CellAt(b, r, c) == Some(p)
    && CellAt(b, r + dr, c + dc) == Some(p)
    && CellAt(b, r + 2 * dr, c + 2 * dc) == Some(p)
    && CellAt(b, r + 3 * dr, c + 3 * dc) == Some(p)
  }

  /** Cell (r, c) lies in the rows x cols region and holds p. */
  predicate HoldsIn(b: Board, p: int, rows: int, cols: int, r: int, c: int)
  {
    0 <= r < rows && 0 <= c < cols && CellAt(b, r, c) == Some(p)
  }

  /** Four consecutive cells of one straight line through (r, c), all inside
      the rows x cols region, all hold p. */
  predicate LineOfFour(b: Board, p: int, rows: int, cols: int, r: int, c: int, d: Direction)
  {
    var dr, dc := RowStep(d), ColStep(d);
    && HoldsIn(b, p, rows, cols, r, c)
    && HoldsIn(b, p, rows, cols, r + dr, c + dc)
    && HoldsIn(b, p, rows, cols, r + 2 * dr, c + 2 * dc)
    && HoldsIn(b, p, rows, cols, r + 3 * dr, c + 3 * dc)
  }

  /** Reference definition of a win: p holds four in a row horizontally,
      vertically or on either diagonal somewhere in the rows x cols region. */
  predicate HasFour(b: Board, p: int, rows: int, cols: int)
  {
    exists r, c, d :: 0 <= r < rows && 0 <= c < cols && LineOfFour(b, p, rows, cols, r, c, d)
  }

  /** The starting rows and columns each of the four loops visits:
      horizontal r < rows, c <= cols-4; vertical r <= rows-4, c < cols;
      diagonal down r <= rows-4, c <= cols-4; diagonal up 3 <= r < rows,
      c <= cols-4. */
  function FirstRow(d: Direction): int { if d == DiagonalUp then 3 else 0 }

  function RowLimit(d: Direction, rows: int): int
  {
    if d == Vertical || d == DiagonalDown then rows - 3 else rows
  }

  function ColLimit(d: Direction, cols: int): int
  {
    if d == Vertical then cols else cols - 3
  }

  /** The loop bounds are exact: a start cell inside them passes the
      four-cell test iff it starts a line of four inside the region. */
  lemma LoopBoundsExact(b: Board, p: int, rows: int, cols: int, d: Direction)
    ensures (exists r, c :: FirstRow(d) <= r < RowLimit(d, rows) && 0 <= c < ColLimit(d, cols) && FourFrom(b, p, r, c, d))
            <==> (exists r, c :: LineOfFour(b, p, rows, cols, r, c, d))
  {
    if exists r, c :: LineOfFour(b, p, rows, cols, r, c, d) {
      var r, c :| LineOfFour(b, p, rows, cols, r, c, d);
      StartInBounds(b, p, rows, cols, r, c, d);
    }
    if exists r, c :: FirstRow(d) <= r < RowLimit(d, rows) && 0 <= c < ColLimit(d, cols) && FourFrom(b, p, r, c, d) {
      var r, c :| FirstRow(d) <= r < RowLimit(d, rows) && 0 <= c < ColLimit(d, cols) && FourFrom(b, p, r, c, d);
      StartInBounds(b, p, rows, cols, r, c, d);
    }
  }

  /** At one start cell: inside the loop bounds and passing the test is
      the same as starting a line of four inside the region. */
  lemma StartInBounds(b: Board, p: int, rows: int, cols: int, r: int, c: int, d: Direction)
    ensures (FirstRow(d) <= r < RowLimit(d, rows) && 0 <= c < ColLimit(d, cols) && FourFrom(b, p, r, c, d))
            <==> LineOfFour(b, p, rows, cols, r, c, d)
  {
  }

  /** One of the four nested-loop searches: start rows rLo <= r < rHi, start
      columns 0 <= c < cHi, stopping at the first start that passes.
      (The vertical search in both sources runs columns in the outer loop;
      only the boolean answer is observable, so the order is immaterial.) */
  method ScanDirection(b: Board, p: int, d: Direction, rLo: int, rHi: int, cHi: int) returns (found: bool)
    ensures found <==> exists r, c :: rLo <= r < rHi && 0 <= c < cHi && FourFrom(b, p, r, c, d)
  {
    var r := rLo;
    while r < rHi
      invariant rLo <= r && (r <= rHi || r == rLo)
      invariant forall r', c' :: rLo <= r' < r && 0 <= c' < cHi ==> !FourFrom(b, p, r', c', d)
    {
      var c := 0;
      while c < cHi
        invariant 0 <= c && (c <= cHi || c == 0)
        invariant forall c' :: 0 <= c' < c ==> !FourFrom(b, p, r, c', d)
      {
        if FourFrom(b, p, r, c, d) {
          return true;
        }
        c := c + 1;
      }
      r := r + 1;
    }
    return false;
  }

  /** The whole search, in source order: horizontal, vertical, diagonal
      down, diagonal up, returning at the first line found. */
  method FourInARow(b: Board, p: int, rows: int, cols: int) returns (won: bool)
    ensures won <==> HasFour(b, p, rows, cols)
  {
    LoopBoundsExact(b, p, rows, cols, Horizontal);
    LoopBoundsExact(b, p, rows, cols, Vertical);
    LoopBoundsExact(b, p, rows, cols, DiagonalDown);
    LoopBoundsExact(b, p, rows, cols, DiagonalUp);
    won := ScanDirection(b, p, Horizontal, 0, rows, cols - 3);
    if won { return; }
    won := ScanDirection(b, p, Vertical, 0, rows - 3, cols);
    if won { return; }
    won := ScanDirection(b, p, DiagonalDown, 0, rows - 3, cols - 3);
    if won { return; }
    won := ScanDirection(b, p, DiagonalUp, 3, rows, cols - 3);
    if !won {
      forall r, c, d ensures !LineOfFour(b, p, rows, cols, r, c, d) {
        LoopBoundsExact(b, p, rows, cols, d);
      }
    }
  }
}
