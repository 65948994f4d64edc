/** The client's offline opponent (src/utils/mockBot.ts): the same
    win / block / centre-first rule as the server's bot, run on the
    client's board helpers, so on boards of any size. */
module MockBot {
  import opened Wrappers
  import opened Grid
  import ClientBoard
  import Engine
  import Bot

  type PlayerId = ClientBoard.PlayerId

  /** The mark the mock bot plays. */
  const MockBotPlayer: PlayerId := 2

  /** The opponent whose wins the bot blocks. */
  const Opponent: PlayerId := 1

  /** Centre-out order of the fallback choice. */
  const PriorityOrder: seq<int> := [3, 2, 4, 1, 5, 0, 6]

  /** findAvailableRow(board, col) !== -1 */
  predicate Available(b: Board, col: int)
  {
    LandingRow(b, col, |b| - 1) != -1
  }

  /** Dropping mark p into col lands, and checkWin then finds four of p. */
  predicate WinsAt(b: Board, col: int, p: PlayerId)
    requires |b| > 0
  {
    var d := ClientBoard.Drop(b, col, p);
    d.Some? && HasFour(d.value.nextBoard, p, |b|, |b[0]|)
  }

  /** The columns below n with an available row, in increasing order: what
      the first loop of selectMockBotColumn pushes after n rounds. */
  function AvailableBelow(b: Board, n: nat): (cols: seq<int>)
    ensures forall c :: c in cols <==> 0 <= c < n && Available(b, c)
    ensures forall i, j :: 0 <= i < j < |cols| ==> cols[i] < cols[j]
  {
    if n == 0 then []
    else
      var prefix := AvailableBelow(b, n - 1);
      assert forall i :: 0 <= i < |prefix| ==> prefix[i] in prefix;
      if Available(b, n - 1) then prefix + [n - 1] else prefix
  }

  /** availableColumns: every column of the first row's width with an
      available row. */
  function AvailableColumns(b: Board): seq<int>
    requires |b| > 0
  {
    AvailableBelow(b, |b[0]|)
  }

  /** The first column of cols where mark p wins at once. */
  function FirstWinIn(b: Board, cols: seq<int>, p: PlayerId): (r: Option<int>)
    requires |b| > 0
    ensures r.Some? ==> r.value in cols
    ensures r.Some? ==>
              exists i :: 0 <= i < |cols| && cols[i] == r.value && WinsAt(b, r.value, p)
                       && forall j :: 0 <= j < i ==> !WinsAt(b, cols[j], p)
    ensures r.None? ==> forall i :: 0 <= i < |cols| ==> !WinsAt(b, cols[i], p)
  {
    if cols == [] then None
    else if WinsAt(b, cols[0], p) then
      assert cols[0] == cols[0];
      Some(cols[0])
    else
      var rest := FirstWinIn(b, cols[1..], p);
      assert forall i :: 1 <= i < |cols| ==> cols[i] == cols[1..][i - 1];
      if rest.Some? then
        var i :| 0 <= i < |cols[1..]| && cols[1..][i] == rest.value && WinsAt(b, rest.value, p)
                 && forall j :: 0 <= j < i ==> !WinsAt(b, cols[1..][j], p);
        assert cols[i + 1] == rest.value;
        rest
      else rest
  }

  /** The first entry of PriorityOrder, from index k on, that is among cols. */
  function FirstPreferredIn(cols: seq<int>, k: nat): (r: Option<int>)
    requires k <= |PriorityOrder|
    decreases |PriorityOrder| - k
    ensures r.Some? ==>
              exists i :: k <= i < |PriorityOrder| && PriorityOrder[i] == r.value && r.value in cols
                       && forall j :: k <= j < i ==> PriorityOrder[j] !in cols
    ensures r.None? ==> forall j :: k <= j < |PriorityOrder| ==> PriorityOrder[j] !in cols
  {
    if k == |PriorityOrder| then None
    else if PriorityOrder[k] in cols then Some(PriorityOrder[k])
    else FirstPreferredIn(cols, k + 1)
  }

  /** Specification of selectMockBotColumn (mockBot.ts:15-60): null when no
      column is available; otherwise the first available column where the
      bot wins, else the first where the opponent would win, else the first
      available entry of PriorityOrder, else the first available column.
      MockChoicePriority states what it picks. */
  function MockChoice(b: Board): (r: Option<int>)
    requires |b| > 0
    ensures r.Some? ==> 0 <= r.value < |b[0]| && Available(b, r.value)
  {
    var avail := AvailableColumns(b);
    if avail == [] then None
    else
      match FirstWinIn(b, avail, MockBotPlayer)
      case Some(c) => Some(c)
      case None =>
        match FirstWinIn(b, avail, Opponent)
        case Some(c) => Some(c)
        case None =>
          match FirstPreferredIn(avail, 0)
          case Some(c) => Some(c)
          case None => assert avail[0] in avail; Some(avail[0])
  }

  /** One of the two simulation loops of selectMockBotColumn
      (mockBot.ts:27-37 for the bot, 40-50 for the opponent): try each
      column of cols on a clone of the board and stop at the first win. */
  method ScanForWin(board: Board, cols: seq<int>, mark: PlayerId) returns (found: Option<int>)
    requires |board| > 0
    ensures found == FirstWinIn(board, cols, mark)
  {
    var i := 0;
    while i < |cols|
      invariant 0 <= i <= |cols|
      invariant FirstWinIn(board, cols[i..], mark) == FirstWinIn(board, cols, mark)
    {
      var column := cols[i];
      assert cols[i..][1..] == cols[i + 1..];
      var simulated := ClientBoard.CloneBoard(board);
      var row := ClientBoard.FindAvailableRow(simulated, column);
      if row != -1 {
        simulated := simulated[row := simulated[row][column := mark]];
        assert simulated == ClientBoard.Drop(board, column, mark).value.nextBoard;
        var won := ClientBoard.CheckWin(simulated, mark);
        if won {
          return Some(column);
        }
      }
      i := i + 1;
    }
    return None;
  }

  /** selectMockBotColumn (mockBot.ts:15-60). */
  method SelectMockBotColumn(board: Board) returns (column: Option<int>)
    requires |board| > 0
    ensures column == MockChoice(board)
  {
    var availableColumns: seq<int> := [];
    var col := 0;
    while col < |board[0]|
      invariant 0 <= col <= |board[0]|
      invariant availableColumns == AvailableBelow(board, col)
    {
      var row := ClientBoard.FindAvailableRow(board, col);
      if row != -1 {
        availableColumns := availableColumns + [col];
      }
      col := col + 1;
    }
    if |availableColumns| == 0 {
      return None;
    }
    column := ScanForWin(board, availableColumns, MockBotPlayer);
    if column.Some? {
      return;
    }
    column := ScanForWin(board, availableColumns, Opponent);
    if column.Some? {
      return;
    }
    var k := 0;
    while k < |PriorityOrder|
      invariant 0 <= k <= |PriorityOrder|
      invariant FirstPreferredIn(availableColumns, k) == FirstPreferredIn(availableColumns, 0)
    {
      if PriorityOrder[k] in availableColumns {
        return Some(PriorityOrder[k]);
      }
      k := k + 1;
    }
    return Some(availableColumns[0]);
  }

  /** A column where some mark wins is an available one. */
  lemma WinningColumnIsAvailable(b: Board, col: int, p: PlayerId)
    requires |b| > 0 && WinsAt(b, col, p)
    ensures Available(b, col)
  {
  }

  /** Every column in range where a mark wins is listed as available. */
  lemma WinnersAreListed(b: Board, p: PlayerId)
    requires |b| > 0
    ensures forall c :: 0 <= c < |b[0]| && WinsAt(b, c, p) ==> c in AvailableColumns(b)
  {
    forall c | 0 <= c < |b[0]| && WinsAt(b, c, p)
      ensures c in AvailableColumns(b)
    {
      WinningColumnIsAvailable(b, c, p);
    }
  }

  /** In a strictly increasing sequence the first element with a property
      is the smallest element with it. */
  lemma FirstIsLowest(b: Board, cols: seq<int>, p: PlayerId, r: Option<int>)
    requires |b| > 0 && r == FirstWinIn(b, cols, p) && r.Some?
    requires forall i, j :: 0 <= i < j < |cols| ==> cols[i] < cols[j]
    ensures forall c :: c in cols && c < r.value ==> !WinsAt(b, c, p)
  {
    var i :| 0 <= i < |cols| && cols[i] == r.value && WinsAt(b, r.value, p)
             && forall j :: 0 <= j < i ==> !WinsAt(b, cols[j], p);
    forall c | c in cols && c < r.value
      ensures !WinsAt(b, c, p)
    {
      var j :| 0 <= j < |cols| && cols[j] == c;
      assert j < i;
    }
  }

  /** The mock bot's priority rule: the choice is an available column, it
      is null only when no column is available, and it is the lowest
      winning column, else the lowest blocking column, else the first
      available entry of PriorityOrder, else the lowest available column. */
  lemma MockChoicePriority(b: Board, r: Option<int>)
    requires |b| > 0 && r == MockChoice(b)
    ensures r.Some? ==> 0 <= r.value < |b[0]| && Available(b, r.value)
    ensures r.None? <==> forall c :: 0 <= c < |b[0]| ==> !Available(b, c)
    ensures (exists c :: 0 <= c < |b[0]| && WinsAt(b, c, 2)) ==>
              r.Some? && WinsAt(b, r.value, 2) && forall c :: 0 <= c < r.value ==> !WinsAt(b, c, 2)
    ensures (forall c :: 0 <= c < |b[0]| ==> !WinsAt(b, c, 2)) ==>
              (exists c :: 0 <= c < |b[0]| && WinsAt(b, c, 1)) ==>
                r.Some? && WinsAt(b, r.value, 1) && forall c :: 0 <= c < r.value ==> !WinsAt(b, c, 1)
    ensures (forall c :: 0 <= c < |b[0]| ==> !WinsAt(b, c, 2) && !WinsAt(b, c, 1)) ==> r.Some? ==>
              || (exists k :: 0 <= k < |PriorityOrder| && PriorityOrder[k] == r.value
                            && forall j :: 0 <= j < k ==> !(0 <= PriorityOrder[j] < |b[0]| && Available(b, PriorityOrder[j])))
              || ((forall j :: 0 <= j < |PriorityOrder| ==> !(0 <= PriorityOrder[j] < |b[0]| && Available(b, PriorityOrder[j])))
                  && forall c :: 0 <= c < r.value ==> !Available(b, c))
  {
    MockChoiceNone(b);
    MockChoiceTakesWin(b);
    MockChoiceBlocks(b);
    MockChoicePrefers(b);
  }

  lemma MockChoiceNone(b: Board)
    requires |b| > 0
    ensures MockChoice(b).None? <==> forall c :: 0 <= c < |b[0]| ==> !Available(b, c)
  {
    var avail := AvailableColumns(b);
    if avail != [] {
      assert avail[0] in avail;
    }
  }

  lemma MockChoiceTakesWin(b: Board)
    requires |b| > 0
    ensures var r := MockChoice(b);
            (exists c :: 0 <= c < |b[0]| && WinsAt(b, c, 2)) ==>
              r.Some? && WinsAt(b, r.value, 2) && forall c :: 0 <= c < r.value ==> !WinsAt(b, c, 2)
  {
    var avail := AvailableColumns(b);
    WinnersAreListed(b, 2);
    var win := FirstWinIn(b, avail, 2);
    if avail != [] && win.Some? {
      FirstIsLowest(b, avail, 2, win);
    }
  }

  lemma MockChoiceBlocks(b: Board)
    requires |b| > 0
    ensures var r := MockChoice(b);
            (forall c :: 0 <= c < |b[0]| ==> !WinsAt(b, c, 2)) ==>
              (exists c :: 0 <= c < |b[0]| && WinsAt(b, c, 1)) ==>
                r.Some? && WinsAt(b, r.value, 1) && forall c :: 0 <= c < r.value ==> !WinsAt(b, c, 1)
  {
    var avail := AvailableColumns(b);
    WinnersAreListed(b, 2);
    WinnersAreListed(b, 1);
    var win := FirstWinIn(b, avail, 2);
    var block := FirstWinIn(b, avail, 1);
    if avail != [] && win.None? && block.Some? {
      FirstIsLowest(b, avail, 1, block);
    }
  }

  lemma MockChoicePrefers(b: Board)
    requires |b| > 0
    ensures var r := MockChoice(b);
            (forall c :: 0 <= c < |b[0]| ==> !WinsAt(b, c, 2) && !WinsAt(b, c, 1)) ==> r.Some? ==>
              || (exists k :: 0 <= k < |PriorityOrder| && PriorityOrder[k] == r.value
                            && forall j :: 0 <= j < k ==> !(0 <= PriorityOrder[j] < |b[0]| && Available(b, PriorityOrder[j])))
              || ((forall j :: 0 <= j < |PriorityOrder| ==> !(0 <= PriorityOrder[j] < |b[0]| && Available(b, PriorityOrder[j])))
                  && forall c :: 0 <= c < r.value ==> !Available(b, c))
  {
    var avail := AvailableColumns(b);
    WinnersAreListed(b, 2);
    WinnersAreListed(b, 1);
    if avail != [] {
      assert avail[0] in avail;
    }
  }

  // ----- The mock bot plays like the server's bot on a 6 x 7 board -----

  /** On a Rows x Columns board the client's tests of a column are the
      server bot's. */
  lemma ColumnTestsAgree(b: Board, c: int)
    requires Engine.IsGrid(b) && 0 <= c < Engine.Columns
    ensures Available(b, c) <==> Bot.Playable(b, c, 2)
    ensures WinsAt(b, c, 2) <==> Bot.WinningDrop(b, c, 2)
    ensures WinsAt(b, c, 1) <==> Bot.WinningDrop(b, c, 1)
  {
    ClientBoard.DropAgreesWithServer(b, c, 1);
    ClientBoard.DropAgreesWithServer(b, c, 2);
  }

  /** On a Rows x Columns board the mock bot picks the column the server's
      bot picks. */
  lemma MockChoiceAgreesWithServer(b: Board)
    requires Engine.IsGrid(b)
    ensures MockChoice(b) == Bot.Choose(b)
  {
    if exists c :: 0 <= c < Engine.Columns && WinsAt(b, c, 2) {
      AgreeOnWin(b);
    } else if exists c :: 0 <= c < Engine.Columns && WinsAt(b, c, 1) {
      AgreeOnBlock(b);
    } else {
      AgreeOnPreference(b);
    }
  }

  lemma AllColumnTestsAgree(b: Board)
    requires Engine.IsGrid(b)
    ensures forall c :: 0 <= c < Engine.Columns ==>
              && (Available(b, c) <==> Bot.Playable(b, c, 2))
              && (WinsAt(b, c, 2) <==> Bot.WinningDrop(b, c, 2))
              && (WinsAt(b, c, 1) <==> Bot.WinningDrop(b, c, 1))
  {
    forall c | 0 <= c < Engine.Columns
      ensures (Available(b, c) <==> Bot.Playable(b, c, 2))
      ensures (WinsAt(b, c, 2) <==> Bot.WinningDrop(b, c, 2))
      ensures (WinsAt(b, c, 1) <==> Bot.WinningDrop(b, c, 1))
    {
      ColumnTestsAgree(b, c);
    }
  }

  lemma AgreeOnWin(b: Board)
    requires Engine.IsGrid(b) && exists c :: 0 <= c < Engine.Columns && WinsAt(b, c, 2)
    ensures MockChoice(b) == Bot.Choose(b)
  {
    var r := MockChoice(b);
    var q := Bot.Choose(b);
    Bot.ChoosePriority(b, q);
    AllColumnTestsAgree(b);
    MockChoiceTakesWin(b);
    SameLowest(b, r.value, q.value, 2);
  }

  lemma AgreeOnBlock(b: Board)
    requires Engine.IsGrid(b)
    requires forall c :: 0 <= c < Engine.Columns ==> !WinsAt(b, c, 2)
    requires exists c :: 0 <= c < Engine.Columns && WinsAt(b, c, 1)
    ensures MockChoice(b) == Bot.Choose(b)
  {
    var r := MockChoice(b);
    var q := Bot.Choose(b);
    Bot.ChoosePriority(b, q);
    AllColumnTestsAgree(b);
    MockChoiceBlocks(b);
    SameLowest(b, r.value, q.value, 1);
  }

  lemma AgreeOnPreference(b: Board)
    requires Engine.IsGrid(b)
    requires forall c :: 0 <= c < Engine.Columns ==> !WinsAt(b, c, 2) && !WinsAt(b, c, 1)
    ensures MockChoice(b) == Bot.Choose(b)
  {
    var r := MockChoice(b);
    var q := Bot.Choose(b);
    Bot.ChoosePriority(b, q);
    AllColumnTestsAgree(b);
    MockChoiceNone(b);
    if r.Some? {
      MockChoicePrefers(b);
      PreferredAgree(b, r.value, q.value);
    }
  }

  /** The lowest column where mark p wins is the same under either test. */
  lemma SameLowest(b: Board, rv: int, qv: int, p: PlayerId)
    requires Engine.IsGrid(b) && 0 <= rv < Engine.Columns && 0 <= qv < Engine.Columns
    requires WinsAt(b, rv, p) && forall c :: 0 <= c < rv ==> !WinsAt(b, c, p)
    requires Bot.WinningDrop(b, qv, p) && forall c :: 0 <= c < qv ==> !Bot.WinningDrop(b, c, p)
    ensures rv == qv
  {
    ColumnTestsAgree(b, rv);
    ColumnTestsAgree(b, qv);
  }

  /** The preference step: the first available entry of PriorityOrder is
      the first playable one, and on seven columns one always exists. */
  lemma PreferredAgree(b: Board, rv: int, qv: int)
    requires Engine.IsGrid(b)
    requires forall c :: 0 <= c < Engine.Columns ==> (Available(b, c) <==> Bot.Playable(b, c, 2))
    requires 0 <= rv < Engine.Columns && Available(b, rv)
    requires || (exists k :: 0 <= k < |PriorityOrder| && PriorityOrder[k] == rv
                          && forall j :: 0 <= j < k ==> !(0 <= PriorityOrder[j] < |b[0]| && Available(b, PriorityOrder[j])))
             || ((forall j :: 0 <= j < |PriorityOrder| ==> !(0 <= PriorityOrder[j] < |b[0]| && Available(b, PriorityOrder[j])))
                 && forall c :: 0 <= c < rv ==> !Available(b, c))
    requires exists k :: 0 <= k < |Bot.PreferenceOrder| && Bot.PreferenceOrder[k] == qv
                       && forall j :: 0 <= j < k ==> !Bot.Playable(b, Bot.PreferenceOrder[j], 2)
    requires 0 <= qv < Engine.Columns && Bot.Playable(b, qv, 2)
    ensures rv == qv
  {
    assert Bot.PreferenceOrder == PriorityOrder;
    Bot.PreferenceCoversColumns(rv);
    var kq :| 0 <= kq < |PriorityOrder| && PriorityOrder[kq] == qv
              && forall j :: 0 <= j < kq ==> !Bot.Playable(b, PriorityOrder[j], 2);
    var kr :| 0 <= kr < |PriorityOrder| && PriorityOrder[kr] == rv;
    if kq < kr {
      assert 0 <= PriorityOrder[kq] < |b[0]| && Available(b, PriorityOrder[kq]);
    }
  }

  datatype MockBotMoveStatus = WIN | LOSS | DRAW | CONTINUE | BLOCKED

  datatype MockBotMoveResult = MockBotMoveResult(status: MockBotMoveStatus, board: Board)

  /** evaluateMockBotMove (mockBot.ts:62-84): BLOCKED with the board as it
      was when no column is available (the second BLOCKED branch, a failed
      drop into the chosen column, cannot happen); otherwise the bot's disc
      is dropped and the result is LOSS (for the human) if the bot now has
      four in a row, else DRAW if the board is full, else CONTINUE. */
  function EvaluateMockBotMove(b: Board): (r: MockBotMoveResult)
    requires |b| > 0
    ensures r.status == BLOCKED <==> forall c :: 0 <= c < |b[0]| ==> !Available(b, c)
    ensures r.status == BLOCKED ==> r.board == b
    ensures r.status != BLOCKED ==>
              && MockChoice(b).Some?
              && ClientBoard.Drop(b, MockChoice(b).value, MockBotPlayer).Some?
              && r.board == ClientBoard.Drop(b, MockChoice(b).value, MockBotPlayer).value.nextBoard
    ensures |r.board| == |b| && |r.board[0]| == |b[0]|
    ensures r.status == LOSS <==> r.status != BLOCKED && HasFour(r.board, MockBotPlayer, |b|, |b[0]|)
    ensures r.status == DRAW <==>
              r.status != BLOCKED && !HasFour(r.board, MockBotPlayer, |b|, |b[0]|) && ClientBoard.IsBoardFull(r.board)
    ensures r.status == CONTINUE <==>
              r.status != BLOCKED && !HasFour(r.board, MockBotPlayer, |b|, |b[0]|) && !ClientBoard.IsBoardFull(r.board)
    ensures r.status != WIN
  {
    MockChoicePriority(b, MockChoice(b));
    match MockChoice(b)
    case None => MockBotMoveResult(BLOCKED, b)
    case Some(column) =>
      match ClientBoard.Drop(b, column, MockBotPlayer)
      case None => MockBotMoveResult(BLOCKED, b)
      case Some(drop) =>
        var updated := drop.nextBoard;
        if HasFour(updated, MockBotPlayer, |updated|, |updated[0]|) then MockBotMoveResult(LOSS, updated)
        else if ClientBoard.IsBoardFull(updated) then MockBotMoveResult(DRAW, updated)
        else MockBotMoveResult(CONTINUE, updated)
  }
}
