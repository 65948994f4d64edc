/** The websocket message router (backend/internal/ws/handler.go): how a
    client message is dispatched, and which server messages go to whom, in
    what order, after a move. Sends are appends to the connection
    registry's outbox; the read loop, JSON and the socket are not modelled. */
module Router {
  import opened Wrappers
  import opened Messages
  import Engine
  import Sessions
  import Bots = Bot
  import Connections

  /** The errors handleMessage returns to the read loop. */
  datatype HandlerError =
    | Unsupported
    | MissingCol
    | MissingGameId
    | NoGameManager
    | UnknownGame
    | MissingUsername

  function HandlerErrorText(e: HandlerError): string
  {
    match e
    case Unsupported => "unsupported message type"
    case MissingCol => "MAKE_MOVE missing col"
    case MissingGameId => "MAKE_MOVE missing gameId"
    case NoGameManager => "game manager unavailable"
    case UnknownGame => "unknown game"
    case MissingUsername => "RECONNECT missing username"
  }

  const ReconnectAck: string := "Reconnect acknowledged"

  /** Specification of sendToPlayers (handler.go:226-238): msgP1 to Player1,
      then msgP2 to Player2 unless Player2 is the bot or there is no msgP2;
      a player without a connection is skipped. */
  function ToPlayers(byU: map<string, Connections.Connection>, player1: string, player2: string,
                     msgP1: ServerMessage, msgP2: Option<ServerMessage>): seq<Delivery>
  {
    Connections.Routed(byU, player1, msgP1)
      + if player2 == Bots.BotName || msgP2.None? then [] else Connections.Routed(byU, player2, msgP2.value)
  }

  /** Specification of sendBoardUpdate (handler.go:187-199): the same
      BOARD_UPDATE, with the board and the turn to play, to both seats. */
  function BoardUpdateNotices(byU: map<string, Connections.Connection>, id: string, s: Sessions.Session): seq<Delivery>
  {
    var msg := BoardUpdate(id, s.board, s.currentTurn);
    ToPlayers(byU, s.player1, s.player2, msg, Some(msg))
  }

  /** The GAME_OVER result sendGameOver gives each seat (handler.go:201-215):
      DRAW to both; otherwise WIN to the seat of winner (Player1 checked
      first) and LOSS to the other. */
  function SeatResult(s: Sessions.Session, seat: int, winner: string, draw: bool): (result: ResultCode)
    requires seat == 1 || seat == 2
    ensures draw ==> result == DRAW
    ensures !draw ==> result != DRAW && (result == WIN <==> if seat == 1 then winner == s.player1
                                                            else winner == s.player2 && winner != s.player1)
  {
    if draw then DRAW
    else if seat == 1 && winner == s.player1 then WIN
    else if seat == 2 && winner != s.player1 && winner == s.player2 then WIN
    else LOSS
  }

  /** Specification of sendGameOver (handler.go:201-224): a bot game only
      messages Player1. */
  function GameOverNotices(byU: map<string, Connections.Connection>, id: string, s: Sessions.Session,
                           winner: string, draw: bool): (ds: seq<Delivery>)
  {
    var msgP1 := GameOver(id, s.board, SeatResult(s, 1, winner, draw));
    var msgP2 := GameOver(id, s.board, SeatResult(s, 2, winner, draw));
    if draw then ToPlayers(byU, s.player1, s.player2, msgP1, Some(msgP1))
    else if s.player2 == Bots.BotName then ToPlayers(byU, s.player1, s.player2, msgP1, None)
    else ToPlayers(byU, s.player1, s.player2, msgP1, Some(msgP2))
  }

  /** Specification of handleGameOutcome (handler.go:175-185): a WIN names
      the mover as winner, a DRAW is a draw, anything else sends nothing. */
  function OutcomeNotices(byU: map<string, Connections.Connection>, id: string, s: Sessions.Session,
                          mover: string, result: Sessions.MoveResult): seq<Delivery>
  {
    match result
    case Win => GameOverNotices(byU, id, s, mover, false)
    case Draw => GameOverNotices(byU, id, s, "", true)
    case _ => []
  }

  /** What a MAKE_MOVE that reaches ApplyMove sends, and the game after it. */
  datatype Reply = Reply(sent: seq<Delivery>, after: Sessions.Session)

  /** The bot replies when the human's move continued a bot game whose turn
      is now the bot's, and a bot is configured (handler.go:152). */
  predicate BotReplies(t: Sessions.Transition, botOn: bool)
  {
    t.result == Sessions.Continue && t.after.player2 == Bots.BotName && botOn && t.after.currentTurn == 2
  }

  /** The notices of an accepted move: its BOARD_UPDATE, then its outcome. */
  function MoveNotices(byU: map<string, Connections.Connection>, id: string, s: Sessions.Session,
                       mover: string, result: Sessions.MoveResult): (ds: seq<Delivery>)
  {
    BoardUpdateNotices(byU, id, s) + OutcomeNotices(byU, id, s, mover, result)
  }

  /** Specification of handleBotTurn (handler.go:240-262) for a configured
      bot and the game s stored under id: when the bot plays and its move
      is accepted, its BOARD_UPDATE and any GAME_OVER, Player2 being the
      winner of a WIN; otherwise nothing is sent and the game is unchanged. */
  function BotReply(byU: map<string, Connections.Connection>, id: string, s: Sessions.Session): (r: Reply)
    requires Engine.RowsFit(s.board)
  {
    match Bots.BotMove(s)
    case Refused(_) => Reply([], s)
    case Played(_, b) =>
      if b.error.Some? then Reply([], s)
      else Reply(MoveNotices(byU, id, b.after, s.player2, b.result), b.after)
  }

  /** When the bot refuses or its move fails, nothing is sent and the game stays as it was. */
  lemma BotReplyRefused(byU: map<string, Connections.Connection>, id: string, s: Sessions.Session)
    requires Engine.RowsFit(s.board)
    requires Bots.BotMove(s).Refused? || Bots.BotMove(s).move.error.Some?
    ensures BotReply(byU, id, s) == Reply([], s)
  {
  }

  /** When the bot's move is accepted, its notices are sent and its game is the result. */
  lemma BotReplyPlayed(byU: map<string, Connections.Connection>, id: string, s: Sessions.Session)
    requires Engine.RowsFit(s.board)
    requires Bots.BotMove(s).Played? && Bots.BotMove(s).move.error.None?
    ensures BotReply(byU, id, s) ==
              Reply(MoveNotices(byU, id, Bots.BotMove(s).move.after, s.player2, Bots.BotMove(s).move.result),
                    Bots.BotMove(s).move.after)
  {
  }

  /** What an accepted move t by mover sends, and the game after it
      (handler.go:149-154): the move's BOARD_UPDATE and any GAME_OVER,
      then the bot's reply when BotReplies. */
  function AcceptedReply(byU: map<string, Connections.Connection>, id: string, t: Sessions.Transition,
                         mover: string, botOn: bool): Reply
    requires Engine.RowsFit(t.after.board)
  {
    var first := MoveNotices(byU, id, t.after, mover, t.result);
    if BotReplies(t, botOn) then
      var bot := BotReply(byU, id, t.after);
      Reply(first + bot.sent, bot.after)
    else Reply(first, t.after)
  }

  /** The two shapes of an accepted move's reply. */
  lemma AcceptedReplyShape(byU: map<string, Connections.Connection>, id: string, t: Sessions.Transition,
                           mover: string, botOn: bool)
    requires Engine.RowsFit(t.after.board)
    ensures var first := MoveNotices(byU, id, t.after, mover, t.result);
            AcceptedReply(byU, id, t, mover, botOn) ==
              if BotReplies(t, botOn) then Reply(first + BotReply(byU, id, t.after).sent, BotReply(byU, id, t.after).after)
              else Reply(first, t.after)
  {
  }

  /** Every notice to a seat is addressed to that seat's own connection. */
  lemma ToPlayersAddressed(byU: map<string, Connections.Connection>, player1: string, player2: string,
                           msgP1: ServerMessage, msgP2: Option<ServerMessage>)
    requires Connections.NamesMatch(byU)
    ensures var ds := ToPlayers(byU, player1, player2, msgP1, msgP2);
            && |ds| == (if player1 in byU then 1 else 0)
                       + (if player2 != Bots.BotName && msgP2.Some? && player2 in byU then 1 else 0)
            && forall d :: d in ds ==>
                 || (d.username == player1 && d.msg == msgP1)
                 || (d.username == player2 && player2 != Bots.BotName && msgP2.Some? && d.msg == msgP2.value)
  {
  }

  /** sendGameOver's recipients and results: Player1 gets its seat's
      result and Player2, unless it is the bot, gets its own; each message
      carries the game id and the final board. */
  lemma GameOverRecipients(byU: map<string, Connections.Connection>, id: string, s: Sessions.Session,
                           winner: string, draw: bool)
    requires Connections.NamesMatch(byU) && s.player1 != s.player2
    ensures var ds := GameOverNotices(byU, id, s, winner, draw);
            && |ds| == (if s.player1 in byU then 1 else 0) + (if s.player2 != Bots.BotName && s.player2 in byU then 1 else 0)
            && forall d :: d in ds ==>
                 || (d.username == s.player1 && d.msg == GameOver(id, s.board, SeatResult(s, 1, winner, draw)))
                 || (d.username == s.player2 && s.player2 != Bots.BotName
                     && d.msg == GameOver(id, s.board, SeatResult(s, 2, winner, draw)))
  {
    var msgP1 := GameOver(id, s.board, SeatResult(s, 1, winner, draw));
    var msgP2 := GameOver(id, s.board, SeatResult(s, 2, winner, draw));
    if draw {
      assert msgP1 == msgP2;
      ToPlayersAddressed(byU, s.player1, s.player2, msgP1, Some(msgP1));
    } else if s.player2 == Bots.BotName {
      ToPlayersAddressed(byU, s.player1, s.player2, msgP1, None);
    } else {
      ToPlayersAddressed(byU, s.player1, s.player2, msgP1, Some(msgP2));
    }
  }

  /** After a move every BOARD_UPDATE comes before every GAME_OVER, and a
      GAME_OVER is sent only for a WIN or a DRAW (and then to Player1
      whenever it is connected). */
  lemma UpdatesBeforeGameOver(byU: map<string, Connections.Connection>, id: string, s: Sessions.Session,
                              mover: string, result: Sessions.MoveResult)
    requires Connections.NamesMatch(byU)
    ensures var ds := MoveNotices(byU, id, s, mover, result);
            && (forall i :: 0 <= i < |ds| ==> ds[i].msg.kind == BOARD_UPDATE || ds[i].msg.kind == GAME_OVER)
            && (forall i, j :: 0 <= i < j < |ds| && ds[i].msg.kind == GAME_OVER ==> ds[j].msg.kind == GAME_OVER)
            && ((exists i :: 0 <= i < |ds| && ds[i].msg.kind == GAME_OVER) ==> result == Sessions.Win || result == Sessions.Draw)
            && ((result == Sessions.Win || result == Sessions.Draw) && s.player1 in byU ==>
                  exists i :: 0 <= i < |ds| && ds[i].msg.kind == GAME_OVER)
  {
    var msg := BoardUpdate(id, s.board, s.currentTurn);
    var updates := BoardUpdateNotices(byU, id, s);
    var outcome := OutcomeNotices(byU, id, s, mover, result);
    ToPlayersAddressed(byU, s.player1, s.player2, msg, Some(msg));
    if result == Sessions.Win {
      OutcomeIsGameOver(byU, id, s, mover, false);
    } else if result == Sessions.Draw {
      OutcomeIsGameOver(byU, id, s, "", true);
    } else {
      assert outcome == [];
    }
    KindsInOrder(updates, outcome);
    if (result == Sessions.Win || result == Sessions.Draw) && s.player1 in byU {
      assert (updates + outcome)[|updates|] == outcome[0];
    }
  }

  /** Updates followed by game-overs: each message is one of the two, and
      no update follows a game-over. */
  lemma KindsInOrder(updates: seq<Delivery>, outcome: seq<Delivery>)
    requires forall d :: d in updates ==> d.msg.kind == BOARD_UPDATE
    requires forall d :: d in outcome ==> d.msg.kind == GAME_OVER
    ensures forall i :: 0 <= i < |updates + outcome| ==>
              (updates + outcome)[i].msg.kind == if i < |updates| then BOARD_UPDATE else GAME_OVER
  {
    var ds := updates + outcome;
    forall i | 0 <= i < |ds|
      ensures ds[i].msg.kind == if i < |updates| then BOARD_UPDATE else GAME_OVER
    {
      if i < |updates| {
        assert ds[i] == updates[i];
      } else {
        assert ds[i] == outcome[i - |updates|];
      }
    }
  }

  /** The notices of sendGameOver are GAME_OVERs, at least one when Player1 is connected. */
  lemma OutcomeIsGameOver(byU: map<string, Connections.Connection>, id: string, s: Sessions.Session,
                          winner: string, draw: bool)
    requires Connections.NamesMatch(byU)
    ensures var ds := GameOverNotices(byU, id, s, winner, draw);
            && (forall d :: d in ds ==> d.msg.kind == GAME_OVER)
            && (s.player1 in byU ==> |ds| > 0)
  {
    var msgP1 := GameOver(id, s.board, SeatResult(s, 1, winner, draw));
    var msgP2 := GameOver(id, s.board, SeatResult(s, 2, winner, draw));
    ToPlayersAddressed(byU, s.player1, s.player2, msgP1, Some(msgP1));
    ToPlayersAddressed(byU, s.player1, s.player2, msgP1, None);
    ToPlayersAddressed(byU, s.player1, s.player2, msgP1, Some(msgP2));
  }

  /** In a bot game the notices of a move go to Player1 alone. */
  lemma BotGameNoticesPlayer1(byU: map<string, Connections.Connection>, id: string, s: Sessions.Session,
                              mover: string, result: Sessions.MoveResult)
    requires Connections.NamesMatch(byU) && s.player2 == Bots.BotName
    ensures forall d :: d in MoveNotices(byU, id, s, mover, result) ==> d.username == s.player1
  {
    var msg := BoardUpdate(id, s.board, s.currentTurn);
    ToPlayersAddressed(byU, s.player1, s.player2, msg, Some(msg));
    var winner := if result == Sessions.Win then mover else "";
    var draw := result != Sessions.Win;
    var msgP1 := GameOver(id, s.board, SeatResult(s, 1, winner, draw));
    ToPlayersAddressed(byU, s.player1, s.player2, msgP1, Some(msgP1));
    ToPlayersAddressed(byU, s.player1, s.player2, msgP1, None);
  }

  /** In a bot game everything a human's accepted move sends, the bot's
      reply included, goes to Player1 alone. */
  lemma BotGameTellsOnlyPlayer1(byU: map<string, Connections.Connection>, id: string, t: Sessions.Transition,
                                mover: string, botOn: bool)
    requires Connections.NamesMatch(byU) && Engine.RowsFit(t.after.board)
    requires t.after.player2 == Bots.BotName
    ensures forall d :: d in AcceptedReply(byU, id, t, mover, botOn).sent ==> d.username == t.after.player1
  {
    BotGameNoticesPlayer1(byU, id, t.after, mover, t.result);
    if BotReplies(t, botOn) {
      match Bots.BotMove(t.after)
      case Refused(_) =>
      case Played(_, b) =>
        if b.error.None? {
          BotGameNoticesPlayer1(byU, id, b.after, t.after.player2, b.result);
        }
    }
  }

  /** Specification of handleMakeMove past its checks (handler.go:144-156)
      for the game s stored under id, moved in by the user of conn: an
      error is reported to conn alone and changes nothing; otherwise the
      accepted move's replies. */
  function MoveReplies(byU: map<string, Connections.Connection>, conn: Connections.Connection, id: string,
                       s: Sessions.Session, col: int, botOn: bool): (r: Reply)
    requires Engine.RowsFit(s.board)
  {
    var t := Sessions.Apply(s, conn.Username, col);
    if t.error.Some? then
      Reply([Delivery(conn.ID, conn.Username, Info(Sessions.MoveErrorText(t.error.value)))], s)
    else AcceptedReply(byU, id, t, conn.Username, botOn)
  }

  /** The checks handleMakeMove makes before touching a game
      (handler.go:127-142), in order. */
  function MoveCheck(msg: ClientMessage, haveManager: bool, known: bool): (e: Option<HandlerError>)
    ensures e.None? <==> msg.col.Some? && msg.gameId != "" && haveManager && known
    ensures msg.col.None? ==> e == Some(MissingCol)
    ensures msg.col.Some? && msg.gameId == "" ==> e == Some(MissingGameId)
    ensures msg.col.Some? && msg.gameId != "" && !haveManager ==> e == Some(NoGameManager)
    ensures msg.col.Some? && msg.gameId != "" && haveManager && !known ==> e == Some(UnknownGame)
  {
    if msg.col.None? then Some(MissingCol)
    else if msg.gameId == "" then Some(MissingGameId)
    else if !haveManager then Some(NoGameManager)
    else if !known then Some(UnknownGame)
    else None
  }

  class Handler {
    const Manager: Connections.Manager
    const GameMgr: Sessions.GameManager?
    const Bot: Bots.Bot?

    /** The registry and the store are consistent, and the bot plays in
        the handler's own store, as the server wires them. */
    ghost predicate Valid()
      reads Manager, GameMgr
    {
      && Manager.Valid()
      && (GameMgr != null ==> GameMgr.Valid())
      && (Bot != null ==> Bot.gm == GameMgr)
    }

    /** NewHandler (handler.go:35-37); the matchmaker is used only by the
        connection handshake, which is not modelled. */
    constructor (manager: Connections.Manager, gameMgr: Sessions.GameManager?, bot: Bots.Bot?)
      ensures Manager == manager && GameMgr == gameMgr && Bot == bot
    {
      Manager := manager;
      GameMgr := gameMgr;
      Bot := bot;
    }

    /** sendInfo (handler.go:168-173): an INFO to that connection. */
    method SendInfo(conn: Connections.Connection, text: string)
      modifies Manager
      ensures Manager.connections == old(Manager.connections) && Manager.byUsername == old(Manager.byUsername)
      ensures Manager.outbox == old(Manager.outbox) + [Delivery(conn.ID, conn.Username, Info(text))]
    {
      Manager.Send(conn, Info(text));
    }

    /** sendToPlayers (handler.go:226-238). */
    method SendToPlayers(g: Sessions.Game, msgP1: ServerMessage, msgP2: Option<ServerMessage>)
      modifies Manager
      ensures Manager.connections == old(Manager.connections) && Manager.byUsername == old(Manager.byUsername)
      ensures Manager.outbox == old(Manager.outbox) + ToPlayers(old(Manager.byUsername), g.Player1, g.Player2, msgP1, msgP2)
    {
      Manager.SendToUsername(g.Player1, msgP1);
      if g.Player2 == Bots.BotName || msgP2.None? {
        return;
      }
      Manager.SendToUsername(g.Player2, msgP2.value);
    }

    /** sendBoardUpdate (handler.go:187-199). */
    method SendBoardUpdate(g: Sessions.Game)
      modifies Manager
      ensures Manager.connections == old(Manager.connections) && Manager.byUsername == old(Manager.byUsername)
      ensures Manager.outbox == old(Manager.outbox) + BoardUpdateNotices(old(Manager.byUsername), g.ID, g.Snapshot())
    {
      var msg := BoardUpdate(g.ID, g.Board, g.CurrentTurn);
      SendToPlayers(g, msg, Some(msg));
    }

    /** sendGameOver (handler.go:201-224). */
    method SendGameOver(g: Sessions.Game, winner: string, draw: bool)
      modifies Manager
      ensures Manager.connections == old(Manager.connections) && Manager.byUsername == old(Manager.byUsername)
      ensures Manager.outbox == old(Manager.outbox) + GameOverNotices(old(Manager.byUsername), g.ID, g.Snapshot(), winner, draw)
    {
      if draw {
        var msg := GameOver(g.ID, g.Board, DRAW);
        SendToPlayers(g, msg, Some(msg));
        return;
      }
      var msgP1 := GameOver(g.ID, g.Board, LOSS);
      var msgP2 := GameOver(g.ID, g.Board, LOSS);
      if winner == g.Player1 {
        msgP1 := msgP1.(result := WIN);
      } else if winner == g.Player2 {
        msgP2 := msgP2.(result := WIN);
      }
      if g.Player2 == Bots.BotName {
        SendToPlayers(g, msgP1, None);
        return;
      }
      SendToPlayers(g, msgP1, Some(msgP2));
    }

    /** handleGameOutcome (handler.go:175-185). */
    method HandleGameOutcome(g: Sessions.Game, mover: string, result: Sessions.MoveResult)
      modifies Manager
      ensures Manager.connections == old(Manager.connections) && Manager.byUsername == old(Manager.byUsername)
      ensures Manager.outbox == old(Manager.outbox) + OutcomeNotices(old(Manager.byUsername), g.ID, g.Snapshot(), mover, result)
    {
      match result
      case Win =>
        SendGameOver(g, mover, false);
      case Draw =>
        SendGameOver(g, "", true);
      case _ =>
    }
    /** The notices of an accepted move (handler.go:149-150 for the
        player's move, 254-261 for the bot's): the BOARD_UPDATE, then the
        outcome with mover as the winner of a WIN. */
    method SendMoveNotices(g: Sessions.Game, mover: string, result: Sessions.MoveResult)
      modifies Manager
      ensures Manager.connections == old(Manager.connections) && Manager.byUsername == old(Manager.byUsername)
      ensures Manager.outbox == old(Manager.outbox) + MoveNotices(old(Manager.byUsername), g.ID, g.Snapshot(), mover, result)
    {
      SendBoardUpdate(g);
      HandleGameOutcome(g, mover, result);
    }

    /** handleBotTurn (handler.go:240-262): the bot plays in g. */
    method HandleBotTurn(g: Sessions.Game)
      requires Valid() && GameMgr != null && g.ID in GameMgr.games && GameMgr.games[g.ID] == g
      modifies Manager, g
      ensures Valid() && GameMgr.games == old(GameMgr.games)
      ensures Manager.connections == old(Manager.connections) && Manager.byUsername == old(Manager.byUsername)
      ensures Bot == null ==> Manager.outbox == old(Manager.outbox) && g.Snapshot() == old(g.Snapshot())
      ensures Bot != null ==>
                && Manager.outbox == old(Manager.outbox) + BotReply(old(Manager.byUsername), g.ID, old(g.Snapshot())).sent
                && g.Snapshot() == BotReply(old(Manager.byUsername), g.ID, old(g.Snapshot())).after
    {
      if Bot == null {
        return;
      }
      ghost var s0 := g.Snapshot();
      ghost var byU := Manager.byUsername;
      var botGame, result, _, err := Bot.TakeTurn(g.ID);
      if err.Some? {
        BotReplyRefused(byU, g.ID, s0);
        return;
      }
      BotReplyPlayed(byU, g.ID, s0);
      SendMoveNotices(botGame, botGame.Player2, result);
    }

    /** What handleMakeMove sends after an accepted move (handler.go:149-154):
        the move's notices with the user as mover, then the bot's reply when
        it is now the bot's turn in a bot game. */
    method Announce(g: Sessions.Game, mover: string, result: Sessions.MoveResult, ghost t: Sessions.Transition)
      requires Valid() && GameMgr != null && g.ID in GameMgr.games && GameMgr.games[g.ID] == g
      requires t.error.None? && t.result == result && t.after == g.Snapshot()
      modifies Manager, g
      ensures Valid() && GameMgr.games == old(GameMgr.games)
      ensures Manager.connections == old(Manager.connections) && Manager.byUsername == old(Manager.byUsername)
      ensures var r := AcceptedReply(old(Manager.byUsername), g.ID, t, mover, Bot != null);
              Manager.outbox == old(Manager.outbox) + r.sent && g.Snapshot() == r.after
    {
      ghost var byU := Manager.byUsername;
      AcceptedReplyShape(byU, g.ID, t, mover, Bot != null);
      SendMoveNotices(g, mover, result);
      if result == Sessions.Continue && g.Player2 == Bots.BotName && Bot != null && g.CurrentTurn == 2 {
        ghost var sent := Manager.outbox;
        HandleBotTurn(g);
        AppendAssoc(old(Manager.outbox), MoveNotices(byU, g.ID, t.after, mover, result), BotReply(byU, g.ID, t.after).sent);
      }
    }

    /** The rest of handleMakeMove once the game is known (handler.go:144-156):
        ApplyMove as the connection's user; an error goes back to that
        connection as an INFO; otherwise the move is announced. */
    method PlayMove(conn: Connections.Connection, id: string, col: int)
      requires Valid() && GameMgr != null && id in GameMgr.games
      modifies Manager, GameMgr.games[id]
      ensures Valid() && GameMgr.games == old(GameMgr.games)
      ensures Manager.connections == old(Manager.connections) && Manager.byUsername == old(Manager.byUsername)
      ensures var r := MoveReplies(old(Manager.byUsername), conn, id, old(GameMgr.games[id].Snapshot()), col, Bot != null);
              Manager.outbox == old(Manager.outbox) + r.sent && GameMgr.games[id].Snapshot() == r.after
    {
      ghost var t := Sessions.Apply(GameMgr.games[id].Snapshot(), conn.Username, col);
      var g, result, moveErr := GameMgr.ApplyMove(id, conn.Username, col);
      if moveErr.Some? {
        SendInfo(conn, Sessions.MoveErrorText(moveErr.value));
        return;
      }
      Announce(g, conn.Username, result, t);
    }

    /** handleMakeMove (handler.go:126-157): four checks that touch nothing,
        then the move as the connection's user, with its replies. */
    method HandleMakeMove(conn: Connections.Connection, msg: ClientMessage) returns (err: Option<HandlerError>)
      requires Valid()
      modifies Manager, if GameMgr != null && msg.gameId in GameMgr.games then {GameMgr.games[msg.gameId]} else {}
      ensures Valid() && (GameMgr != null ==> GameMgr.games == old(GameMgr.games))
      ensures Manager.connections == old(Manager.connections) && Manager.byUsername == old(Manager.byUsername)
      ensures err == MoveCheck(msg, GameMgr != null, GameMgr != null && msg.gameId in GameMgr.games)
      ensures err.Some? ==> Manager.outbox == old(Manager.outbox)
      ensures err.Some? && GameMgr != null && msg.gameId in GameMgr.games ==>
                GameMgr.games[msg.gameId].Snapshot() == old(GameMgr.games[msg.gameId].Snapshot())
      ensures err.None? ==>
                && GameMgr != null && msg.gameId in GameMgr.games && msg.col.Some?
                && var r := MoveReplies(old(Manager.byUsername), conn, msg.gameId,
                                        old(GameMgr.games[msg.gameId].Snapshot()), msg.col.value, Bot != null);
                   Manager.outbox == old(Manager.outbox) + r.sent && GameMgr.games[msg.gameId].Snapshot() == r.after
    {
      if msg.col.None? {
        return Some(MissingCol);
      }
      if msg.gameId == "" {
        return Some(MissingGameId);
      }
      if GameMgr == null {
        return Some(NoGameManager);
      }
      var _, ok := GameMgr.GetGame(msg.gameId);
      if !ok {
        return Some(UnknownGame);
      }
      PlayMove(conn, msg.gameId, msg.col.value);
      return None;
    }

    /** handleReconnect (handler.go:159-166). */
    method HandleReconnect(conn: Connections.Connection, msg: ClientMessage) returns (err: Option<HandlerError>)
      modifies Manager
      ensures Manager.connections == old(Manager.connections) && Manager.byUsername == old(Manager.byUsername)
      ensures msg.username == "" ==> err == Some(MissingUsername) && Manager.outbox == old(Manager.outbox)
      ensures msg.username != "" ==>
                err.None? && Manager.outbox == old(Manager.outbox) + [Delivery(conn.ID, conn.Username, Info(ReconnectAck))]
    {
      if msg.username == "" {
        return Some(MissingUsername);
      }
      SendInfo(conn, ReconnectAck);
      return None;
    }

    /** handleMessage (handler.go:115-124): dispatch on the message type. */
    method HandleMessage(conn: Connections.Connection, msg: ClientMessage) returns (err: Option<HandlerError>)
      requires Valid()
      modifies Manager, if GameMgr != null && msg.gameId in GameMgr.games then {GameMgr.games[msg.gameId]} else {}
      ensures Valid() && (GameMgr != null ==> GameMgr.games == old(GameMgr.games))
      ensures Manager.connections == old(Manager.connections) && Manager.byUsername == old(Manager.byUsername)
      ensures msg.kind != "MAKE_MOVE" && msg.kind != "RECONNECT" ==>
                err == Some(Unsupported) && Manager.outbox == old(Manager.outbox)
      ensures msg.kind == "MAKE_MOVE" ==> err == MoveCheck(msg, GameMgr != null, GameMgr != null && msg.gameId in GameMgr.games)
      ensures msg.kind == "MAKE_MOVE" && err.Some? ==> Manager.outbox == old(Manager.outbox)
      ensures msg.kind == "MAKE_MOVE" && err.Some? && GameMgr != null && msg.gameId in GameMgr.games ==>
                GameMgr.games[msg.gameId].Snapshot() == old(GameMgr.games[msg.gameId].Snapshot())
      ensures msg.kind == "MAKE_MOVE" && err.None? ==>
                && GameMgr != null && msg.gameId in GameMgr.games && msg.col.Some?
                && var r := MoveReplies(old(Manager.byUsername), conn, msg.gameId,
                                        old(GameMgr.games[msg.gameId].Snapshot()), msg.col.value, Bot != null);
                   Manager.outbox == old(Manager.outbox) + r.sent && GameMgr.games[msg.gameId].Snapshot() == r.after
      ensures msg.kind == "RECONNECT" && msg.username == "" ==>
                err == Some(MissingUsername) && Manager.outbox == old(Manager.outbox)
      ensures msg.kind == "RECONNECT" && msg.username != "" ==>
                err.None? && Manager.outbox == old(Manager.outbox) + [Delivery(conn.ID, conn.Username, Info(ReconnectAck))]
      ensures msg.kind != "MAKE_MOVE" && GameMgr != null && msg.gameId in GameMgr.games ==>
                GameMgr.games[msg.gameId].Snapshot() == old(GameMgr.games[msg.gameId].Snapshot())
    {
      if msg.kind == "MAKE_MOVE" {
        err := HandleMakeMove(conn, msg);
      } else if msg.kind == "RECONNECT" {
        err := HandleReconnect(conn, msg);
      } else {
        err := Some(Unsupported);
      }
    }
  }
}
