/** The server's bot (backend/internal/bot/bot.go): a fixed priority rule
    for choosing a column, and TakeTurn, which plays that column as
    Player2 through the game store. */
module Bot {
  import opened Wrappers
  import opened Grid
  import Engine
  import Sessions

  /** The username that marks a game as a bot game. */
  const BotName: string := "BOT"

  /** Centre-out order of the fallback choice. */
  const PreferenceOrder: seq<int> := [3, 2, 4, 1, 5, 0, 6]

  datatype TurnError =
    | NotConfigured
    | GameMissing
    | NotABotGame
    | NoValidMoves
    | MoveFailed(cause: Sessions.MoveError)

  function TurnErrorText(e: TurnError): string
  {
    match e
    case NotConfigured => "bot not configured"
    case GameMissing => "game not found"
    case NotABotGame => "game is not against bot"
    case NoValidMoves => "bot has no valid moves"
    case MoveFailed(cause) => Sessions.MoveErrorText(cause)
  }

  /** Dropping mark p into col is accepted and gives p four in a row. */
  predicate WinningDrop(b: Board, col: int, p: int)
    requires Engine.RowsFit(b)
  {
    var d := Engine.Drop(b, col, p);
    d.Dropped? && HasFour(d.board, p, Engine.Rows, Engine.Columns)
  }

  /** Mark p can be dropped into col. */
  predicate Playable(b: Board, col: int, p: int)
    requires Engine.RowsFit(b)
  {
    Engine.Drop(b, col, p).Dropped?
  }

  /** The lowest column at or after from where p wins at once. */
  function FirstWinning(b: Board, p: int, from: int): (r: Option<int>)
    requires Engine.RowsFit(b) && 0 <= from <= Engine.Columns
    decreases Engine.Columns - from
    ensures r.Some? ==>
              && from <= r.value < Engine.Columns && WinningDrop(b, r.value, p)
              && forall c :: from <= c < r.value ==> !WinningDrop(b, c, p)
    ensures r.None? ==> forall c :: from <= c < Engine.Columns ==> !WinningDrop(b, c, p)
  {
    if from == Engine.Columns then None
    else if WinningDrop(b, from, p) then Some(from)
    else FirstWinning(b, p, from + 1)
  }

  /** The first entry of PreferenceOrder, from index i on, that mark 2 can be dropped into. */
  function FirstPreferred(b: Board, i: int): (r: Option<int>)
    requires Engine.RowsFit(b) && 0 <= i <= |PreferenceOrder|
    decreases |PreferenceOrder| - i
    ensures r.Some? ==>
              exists k :: i <= k < |PreferenceOrder| && PreferenceOrder[k] == r.value && Playable(b, r.value, 2)
                       && forall j :: i <= j < k ==> !Playable(b, PreferenceOrder[j], 2)
    ensures r.None? ==> forall j :: i <= j < |PreferenceOrder| ==> !Playable(b, PreferenceOrder[j], 2)
  {
    if i == |PreferenceOrder| then None
    else if Playable(b, PreferenceOrder[i], 2) then Some(PreferenceOrder[i])
    else FirstPreferred(b, i + 1)
  }

  /** A column is playable for one mark exactly when it is for the other. */
  lemma PlayableEitherMark(b: Board, col: int)
    requires Engine.RowsFit(b)
    ensures Playable(b, col, 1) <==> Playable(b, col, 2)
  {
    if Playable(b, col, 1) {
      var n := Engine.Copied(b);
      var row := Engine.Drop(b, col, 1).row;
      assert n[row][col] == 0;
    }
  }

  /** Every column appears in PreferenceOrder. */
  lemma PreferenceCoversColumns(c: int)
    requires 0 <= c < Engine.Columns
    ensures exists k :: 0 <= k < |PreferenceOrder| && PreferenceOrder[k] == c
  {
    if c == 3 { assert PreferenceOrder[0] == c; }
    else if c == 2 { assert PreferenceOrder[1] == c; }
    else if c == 4 { assert PreferenceOrder[2] == c; }
    else if c == 1 { assert PreferenceOrder[3] == c; }
    else if c == 5 { assert PreferenceOrder[4] == c; }
    else if c == 0 { assert PreferenceOrder[5] == c; }
    else { assert PreferenceOrder[6] == c; }
  }

  /** Specification of chooseColumn (bot.go:45-76): win now, else block,
      else the first playable column in PreferenceOrder; None when there
      is none. ChoosePriority states what it picks. */
  function Choose(b: Board): (r: Option<int>)
    requires Engine.RowsFit(b)
    ensures r.Some? ==> 0 <= r.value < Engine.Columns
  {
    match FirstWinning(b, 2, 0)
    case Some(c) => Some(c)
    case None =>
      match FirstWinning(b, 1, 0)
      case Some(c) => Some(c)
      case None => FirstPreferred(b, 0)
  }

  /** The bot's priority rule: what Choose picks is playable, it picks
      nothing only when every column is full, and it takes the lowest
      immediate win, else blocks the opponent's lowest immediate win, else
      takes the first playable column of PreferenceOrder. */
  lemma ChoosePriority(b: Board, r: Option<int>)
    requires Engine.RowsFit(b) && r == Choose(b)
    // Whatever is chosen can be played by the bot.
    ensures r.Some? ==> 0 <= r.value < Engine.Columns && Playable(b, r.value, 2)
    // No column only when every column is full.
    ensures r.None? <==> forall c :: 0 <= c < Engine.Columns ==> !Playable(b, c, 2)
    // An immediate win is taken, the lowest one.
    ensures (exists c :: 0 <= c < Engine.Columns && WinningDrop(b, c, 2)) ==>
              r.Some? && WinningDrop(b, r.value, 2) && forall c :: 0 <= c < r.value ==> !WinningDrop(b, c, 2)
    // Otherwise the opponent's lowest immediate win is blocked.
    ensures (forall c :: 0 <= c < Engine.Columns ==> !WinningDrop(b, c, 2)) ==>
              (exists c :: 0 <= c < Engine.Columns && WinningDrop(b, c, 1)) ==>
                r.Some? && WinningDrop(b, r.value, 1) && forall c :: 0 <= c < r.value ==> !WinningDrop(b, c, 1)
    // Otherwise the first playable column of the preference order.
    ensures (forall c :: 0 <= c < Engine.Columns ==> !WinningDrop(b, c, 2) && !WinningDrop(b, c, 1)) ==>
              r.Some? ==> exists k :: 0 <= k < |PreferenceOrder| && PreferenceOrder[k] == r.value
                                   && forall j :: 0 <= j < k ==> !Playable(b, PreferenceOrder[j], 2)
  {
    match FirstWinning(b, 2, 0)
    case Some(c) =>
      assert Playable(b, c, 2);
    case None =>
      match FirstWinning(b, 1, 0)
      case Some(c) =>
        PlayableEitherMark(b, c);
      case None =>
        if r.None? {
          forall c | 0 <= c < Engine.Columns
            ensures !Playable(b, c, 2)
          {
            PreferenceCoversColumns(c);
          }
        }
  }

  /** On an empty board nobody can win in one move, so the bot takes the centre. */
  lemma EmptyBoardPrefersCenter()
    ensures Choose(Engine.NewBoard()) == Some(3)
  {
    var b := Engine.NewBoard();
    forall c, p | 0 <= c < Engine.Columns && (p == 1 || p == 2)
      ensures !WinningDrop(b, c, p)
    {
      var nb := Engine.Drop(b, c, p).board;
      Engine.EmptyBoardLandsAtBottom(c, p);
      forall r, k, d | 0 <= r < Engine.Rows && 0 <= k < Engine.Columns
        ensures !LineOfFour(nb, p, Engine.Rows, Engine.Columns, r, k, d)
      {
        OneDiscNoLine(nb, p, Engine.Rows - 1, c, r, k, d);
      }
    }
    assert Playable(b, 3, 2);
  }

  /** A region holding a single disc of mark p has no line of four for p. */
  lemma OneDiscNoLine(b: Board, p: int, row: int, col: int, r: int, c: int, d: Direction)
    requires p != 0
    requires forall i, j :: 0 <= i < Engine.Rows && 0 <= j < Engine.Columns && (i != row || j != col) ==>
               CellAt(b, i, j) != Some(p)
    ensures !LineOfFour(b, p, Engine.Rows, Engine.Columns, r, c, d)
  {
    // The first two cells of any line are distinct, so they cannot both be the one disc.
    assert r != row || c != col || r + RowStep(d) != row || c + ColStep(d) != col;
  }

  /** One of the two column scans of chooseColumn (bot.go:47-55 for the
      bot's mark, 58-66 for the opponent's): the lowest column where
      dropping p makes four in a row for p. */
  method WinningColumn(board: Board, p: int) returns (found: bool, col: int)
    requires Engine.RowsFit(board)
    ensures found <==> FirstWinning(board, p, 0).Some?
    ensures found ==> col == FirstWinning(board, p, 0).value
  {
    col := 0;
    while col < Engine.Columns
      invariant 0 <= col <= Engine.Columns
      invariant FirstWinning(board, p, col) == FirstWinning(board, p, 0)
    {
      var d := Engine.DropDisc(board, col, p);
      if d.Dropped? {
        var won := Engine.CheckWin(d.board, p);
        if won {
          return true, col;
        }
      }
      col := col + 1;
    }
    return false, 0;
  }

  /** The last search of chooseColumn (bot.go:69-73): the first column of
      PreferenceOrder the bot's mark can be dropped into. */
  method PreferredColumn(board: Board) returns (found: bool, col: int)
    requires Engine.RowsFit(board)
    ensures found <==> FirstPreferred(board, 0).Some?
    ensures found ==> col == FirstPreferred(board, 0).value
  {
    var i := 0;
    while i < |PreferenceOrder|
      invariant 0 <= i <= |PreferenceOrder|
      invariant FirstPreferred(board, i) == FirstPreferred(board, 0)
    {
      var d := Engine.DropDisc(board, PreferenceOrder[i], 2);
      if d.Dropped? {
        return true, PreferenceOrder[i];
      }
      i := i + 1;
    }
    return false, 0;
  }

  /** chooseColumn (bot.go:45-76): three searches with early return,
      dropping on copies of the board; (0, error) when all are full. */
  method ChooseColumn(board: Board) returns (col: int, err: Option<TurnError>)
    requires Engine.RowsFit(board)
    ensures Choose(board).Some? ==> col == Choose(board).value && err.None?
    ensures Choose(board).None? ==> col == 0 && err == Some(NoValidMoves)
  {
    var found;
    found, col := WinningColumn(board, 2);
    if found {
      return col, None;
    }
    found, col := WinningColumn(board, 1);
    if found {
      return col, None;
    }
    found, col := PreferredColumn(board);
    if found {
      return col, None;
    }
    return 0, Some(NoValidMoves);
  }

  /** What TakeTurn does to a stored game that exists. */
  datatype BotDecision =
    | Refused(error: TurnError)
    | Played(col: int, move: Sessions.Transition)

  /** Specification of TakeTurn past the configuration and lookup checks
      (bot.go:32-42): only a game whose Player2 is BotName, and only when a
      column is available; the move goes through Apply as Player2. */
  function BotMove(s: Sessions.Session): (d: BotDecision)
    requires Engine.RowsFit(s.board)
    ensures d.Refused? <==> s.player2 != BotName || Choose(s.board).None?
    ensures d.Refused? ==> d.error == (if s.player2 != BotName then NotABotGame else NoValidMoves)
    ensures d.Played? ==> Choose(s.board) == Some(d.col) && d.move == Sessions.Apply(s, s.player2, d.col)
  {
    if s.player2 != BotName then Refused(NotABotGame)
    else match Choose(s.board)
      case None => Refused(NoValidMoves)
      case Some(c) => Played(c, Sessions.Apply(s, s.player2, c))
  }

  /** When it is the bot's turn in an unfinished bot game (with a human as
      Player1) and some column has room, the bot's move is accepted. */
  lemma BotTurnIsAccepted(s: Sessions.Session)
    requires Engine.RowsFit(s.board)
    requires s.player2 == BotName && s.player1 != BotName
    requires s.winner.None? && s.currentTurn == 2
    requires exists c :: 0 <= c < Engine.Columns && Playable(s.board, c, 2)
    ensures BotMove(s).Played? && BotMove(s).move.result != Sessions.Invalid
  {
    ChoosePriority(s.board, Choose(s.board));
    var c := Choose(s.board).value;
    assert Sessions.Seat(s, s.player2) == 2;
    Sessions.ApplySpec(s, s.player2, c, Sessions.Apply(s, s.player2, c));
  }

  /** The Go Bot: a handle on the game store it plays in. */
  class Bot {
    const gm: Sessions.GameManager?

    constructor (gm: Sessions.GameManager?)
      ensures this.gm == gm
    {
      this.gm := gm;
    }

    /** TakeTurn (bot.go:22-43): returns the stored game, the move result,
        the column (-1 when refused) and the error. The column is returned
        even when ApplyMove refuses the move. */
    method TakeTurn(gameID: string) returns (g: Sessions.Game?, result: Sessions.MoveResult, col: int, err: Option<TurnError>)
      requires gm != null ==> gm.Valid()
      modifies if gm != null && gameID in gm.games then {gm.games[gameID]} else {}
      ensures gm != null ==> gm.Valid() && gm.games == old(gm.games)
      ensures gm == null ==> g == null && result == Sessions.Invalid && col == -1 && err == Some(NotConfigured)
      ensures gm != null && gameID !in gm.games ==>
                g == null && result == Sessions.Invalid && col == -1 && err == Some(GameMissing)
      ensures gm != null && gameID in gm.games ==>
                && g == gm.games[gameID]
                && match BotMove(old(gm.games[gameID].Snapshot()))
                   case Refused(e) =>
                     result == Sessions.Invalid && col == -1 && err == Some(e)
                     && g.Snapshot() == old(gm.games[gameID].Snapshot())
                   case Played(c, t) =>
                     && col == c && result == t.result && g.Snapshot() == t.after
                     && err == (if t.error.Some? then Some(MoveFailed(t.error.value)) else None)
    {
      if gm == null {
        return null, Sessions.Invalid, -1, Some(NotConfigured);
      }
      var current, ok := gm.GetGame(gameID);
      if !ok {
        return null, Sessions.Invalid, -1, Some(GameMissing);
      }
      if current.Player2 != BotName {
        return current, Sessions.Invalid, -1, Some(NotABotGame);
      }
      var chooseErr;
      col, chooseErr := ChooseColumn(current.Board);
      if chooseErr.Some? {
        return current, Sessions.Invalid, -1, chooseErr;
      }
      var moveErr;
      g, result, moveErr := gm.ApplyMove(gameID, current.Player2, col);
      err := if moveErr.Some? then Some(MoveFailed(moveErr.value)) else None;
    }
  }
}
