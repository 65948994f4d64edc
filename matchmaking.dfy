/** The matchmaker (backend/internal/matchmaking/matchmaker.go): a FIFO
    waiting list without duplicate usernames, and a tick that pairs the two
    oldest entries repeatedly and gives a lone entry older than the
    threshold a bot game. The clock reading and the new game ids are
    parameters. */
module Matchmaking {
  import opened Wrappers
  import opened Messages
  import Engine
  import Sessions
  import Connections

  /** botFallbackThreshold, 10 seconds, in nanoseconds like Go's time.Duration. */
  const BotFallbackThreshold: int := 10_000_000_000

  datatype WaitingPlayer = WaitingPlayer(username: string, enqueuedAt: int)

  /** A game a tick creates: two waiting players, or one player against the bot. */
  datatype NewGame =
    | HumanGame(player1: string, player2: string)
    | BotGame(player: string, bot: string)

  function Usernames(w: seq<WaitingPlayer>): (names: seq<string>)
    ensures |names| == |w|
  {
    seq(|w|, i requires 0 <= i < |w| => w[i].username)
  }

  predicate IsWaiting(w: seq<WaitingPlayer>, username: string)
  {
    exists i :: 0 <= i < |w| && w[i].username == username
  }

  /** No username waits twice. */
  predicate Distinct(w: seq<WaitingPlayer>)
  {
    forall i, j :: 0 <= i < j < |w| ==> w[i].username != w[j].username
  }

  lemma DistinctSuffix(w: seq<WaitingPlayer>, n: int)
    requires Distinct(w) && 0 <= n <= |w|
    ensures Distinct(w[n..])
  {
    forall i, j | 0 <= i < j < |w| - n
      ensures w[n..][i].username != w[n..][j].username
    {
      assert w[n..][i] == w[n + i] && w[n..][j] == w[n + j];
    }
  }

  /** The games the pairing loop creates, oldest pair first. */
  function HumanPairs(w: seq<WaitingPlayer>): (gs: seq<NewGame>)
    decreases |w|
    ensures |gs| == |w| / 2
  {
    if |w| < 2 then [] else [HumanGame(w[0].username, w[1].username)] + HumanPairs(w[2..])
  }

  /** The i-th game pairs the entries at 2i and 2i+1: the earlier one is Player1. */
  lemma {:induction false} HumanPairsIndexed(w: seq<WaitingPlayer>, i: int)
    requires 0 <= i < |w| / 2
    decreases i
    ensures HumanPairs(w)[i] == HumanGame(w[2 * i].username, w[2 * i + 1].username)
  {
    if i > 0 {
      HumanPairsIndexed(w[2..], i - 1);
    }
  }

  /** What the pairing loop leaves: the last entry when the count is odd. */
  function Leftover(w: seq<WaitingPlayer>): (rest: seq<WaitingPlayer>)
    ensures |rest| == |w| % 2
    ensures rest == w[|w| - |rest|..]
  {
    if |w| % 2 == 1 then [w[|w| - 1]] else []
  }

  /** A single entry that has waited at least the threshold. */
  predicate BotDue(rest: seq<WaitingPlayer>, now: int)
  {
    |rest| == 1 && now - rest[0].enqueuedAt >= BotFallbackThreshold
  }

  /** Specification of the games one tick creates (matchmaker.go:80-101). */
  function TickGames(w: seq<WaitingPlayer>, now: int, botName: string): (gs: seq<NewGame>)
    ensures |gs| == |w| / 2 + (if BotDue(Leftover(w), now) then 1 else 0)
    ensures gs[..|w| / 2] == HumanPairs(w)
    ensures BotDue(Leftover(w), now) ==> gs[|gs| - 1] == BotGame(w[|w| - 1].username, botName)
  {
    var rest := Leftover(w);
    HumanPairs(w) + (if BotDue(rest, now) then [BotGame(rest[0].username, botName)] else [])
  }

  /** Specification of the waiting list after one tick: at most one entry,
      the last one, and none if it was given a bot game. */
  function TickRemaining(w: seq<WaitingPlayer>, now: int): (rest: seq<WaitingPlayer>)
    ensures |rest| <= 1 && |rest| <= |w|
    ensures rest == w[|w| - |rest|..]
    ensures |rest| == 1 <==> |w| % 2 == 1 && now - w[|w| - 1].enqueuedAt < BotFallbackThreshold
  {
    if BotDue(Leftover(w), now) then [] else Leftover(w)
  }

  /** The players a new game seats; the bot is not counted. */
  function SeatsOf(g: NewGame): seq<string>
  {
    match g
    case HumanGame(p1, p2) => [p1, p2]
    case BotGame(p, _) => [p]
  }

  /** Everyone a list of new games seats, in order. */
  function Seated(gs: seq<NewGame>): seq<string>
    decreases |gs|
  {
    if gs == [] then [] else SeatsOf(gs[0]) + Seated(gs[1..])
  }

  lemma {:induction false} SeatedAppend(a: seq<NewGame>, b: seq<NewGame>)
    decreases |a|
    ensures Seated(a + b) == Seated(a) + Seated(b)
  {
    if a != [] {
      assert (a + b)[0] == a[0];
      assert (a + b)[1..] == a[1..] + b;
      SeatedAppend(a[1..], b);
      calc {
        Seated(a + b);
        SeatsOf(a[0]) + Seated(a[1..] + b);
        SeatsOf(a[0]) + (Seated(a[1..]) + Seated(b));
        (SeatsOf(a[0]) + Seated(a[1..])) + Seated(b);
      }
    } else {
      assert a + b == b;
    }
  }

  /** Usernames of a list of two or more: the first two, then the rest. */
  lemma UsernamesFront(w: seq<WaitingPlayer>)
    requires |w| >= 2
    ensures Usernames(w) == [w[0].username, w[1].username] + Usernames(w[2..])
  {
    var front := [w[0].username, w[1].username];
    forall i | 0 <= i < |w|
      ensures Usernames(w)[i] == (front + Usernames(w[2..]))[i]
    {
      if i >= 2 {
        assert w[2..][i - 2] == w[i];
      }
    }
  }

  /** The pairing loop seats every entry but the leftover, in queue order. */
  lemma {:induction false} PairsConserve(w: seq<WaitingPlayer>)
    decreases |w|
    ensures Seated(HumanPairs(w)) + Usernames(Leftover(w)) == Usernames(w)
  {
    if |w| >= 2 {
      var first := HumanGame(w[0].username, w[1].username);
      var front := [w[0].username, w[1].username];
      var tail := w[2..];
      PairsConserve(tail);
      assert HumanPairs(w) == [first] + HumanPairs(tail);
      assert |tail| % 2 == |w| % 2;
      assert Leftover(w) == Leftover(tail);
      SeatedAppend([first], HumanPairs(tail));
      assert Seated([first]) == front;
      UsernamesFront(w);
      calc {
        Seated(HumanPairs(w)) + Usernames(Leftover(w));
        (front + Seated(HumanPairs(tail))) + Usernames(Leftover(tail));
        front + (Seated(HumanPairs(tail)) + Usernames(Leftover(tail)));
        Usernames(w);
      }
    }
  }

  /** A tick loses nobody: the players it seats, followed by those still
      waiting, are exactly the waiting list in order. */
  lemma TickConserves(w: seq<WaitingPlayer>, now: int, botName: string)
    ensures Seated(TickGames(w, now, botName)) + Usernames(TickRemaining(w, now)) == Usernames(w)
  {
    PairsConserve(w);
    var rest := Leftover(w);
    if BotDue(rest, now) {
      var bot := BotGame(rest[0].username, botName);
      SeatedAppend(HumanPairs(w), [bot]);
      assert Seated([bot]) == Usernames(rest);
      assert Usernames(TickRemaining(w, now)) == [];
    } else {
      assert TickGames(w, now, botName) == HumanPairs(w);
    }
  }

  /** The queue alice, bob, charlie, all younger than the threshold, pairs
      alice with bob and leaves charlie waiting. */
  lemma RetainsUnpairedPlayer(a: string, b: string, c: string, t: int, now: int)
    requires now - t < BotFallbackThreshold
    ensures TickGames([WaitingPlayer(a, t), WaitingPlayer(b, t), WaitingPlayer(c, t)], now, "BOT") == [HumanGame(a, b)]
    ensures TickRemaining([WaitingPlayer(a, t), WaitingPlayer(b, t), WaitingPlayer(c, t)], now) == [WaitingPlayer(c, t)]
  {
    var w := [WaitingPlayer(a, t), WaitingPlayer(b, t), WaitingPlayer(c, t)];
    assert HumanPairs(w[2..]) == [];
  }

  /** The GAME_START messages for one new game with the given id: each
      human seat gets its seat number and the other player's name; in a
      bot game only the player is told. */
  function StartNotices(byU: map<string, Connections.Connection>, g: NewGame, id: string): (ds: seq<Delivery>)
    ensures forall d :: d in ds ==> d.msg.kind == GAME_START && d.msg.gameId == id
    ensures g.HumanGame? && Connections.NamesMatch(byU) && g.player1 != g.player2 ==>
              |ds| == (if g.player1 in byU then 1 else 0) + (if g.player2 in byU then 1 else 0)
              && forall d :: d in ds ==>
                   || (d.username == g.player1 && d.msg.you == 1 && d.msg.opponent == g.player2)
                   || (d.username == g.player2 && d.msg.you == 2 && d.msg.opponent == g.player1)
    ensures g.BotGame? && Connections.NamesMatch(byU) ==>
              |ds| == (if g.player in byU then 1 else 0)
              && forall d :: d in ds ==> d.username == g.player && d.msg.you == 1 && d.msg.opponent == g.bot
  {
    match g
    case HumanGame(p1, p2) =>
      Connections.Routed(byU, p1, GameStart(id, 1, p2)) + Connections.Routed(byU, p2, GameStart(id, 2, p1))
    case BotGame(p, bot) =>
      Connections.Routed(byU, p, GameStart(id, 1, bot))
  }

  /** The notices for a list of new games, the i-th under ids[i]. */
  function AllStartNotices(byU: map<string, Connections.Connection>, gs: seq<NewGame>, ids: seq<string>): seq<Delivery>
    requires |ids| >= |gs|
    decreases |gs|
  {
    if gs == [] then []
    else AllStartNotices(byU, gs[..|gs| - 1], ids) + StartNotices(byU, gs[|gs| - 1], ids[|gs| - 1])
  }

  /** Only seated players are sent a GAME_START. */
  lemma {:induction false} NoticesGoToSeated(byU: map<string, Connections.Connection>, gs: seq<NewGame>, ids: seq<string>)
    requires |ids| >= |gs|
    requires Connections.NamesMatch(byU)
    decreases |gs|
    ensures forall d :: d in AllStartNotices(byU, gs, ids) ==> d.username in Seated(gs)
  {
    if gs != [] {
      var init := gs[..|gs| - 1];
      NoticesGoToSeated(byU, init, ids);
      SeatedAppend(init, [gs[|gs| - 1]]);
      assert init + [gs[|gs| - 1]] == gs;
    }
  }

  /** Two parts of a list of distinct usernames share no name. */
  lemma PartsDisjoint(w: seq<WaitingPlayer>, a: seq<string>, b: seq<string>)
    requires Distinct(w) && a + b == Usernames(w)
    ensures forall x :: x in a ==> x !in b
  {
    forall i, j | 0 <= i < |a| && 0 <= j < |b|
      ensures a[i] != b[j]
    {
      assert a[i] == Usernames(w)[i];
      assert b[j] == Usernames(w)[|a| + j];
    }
  }

  /** The players a tick leaves waiting are sent nothing by it. */
  lemma WaitingPlayersGetNoNotice(byU: map<string, Connections.Connection>, w: seq<WaitingPlayer>, now: int, botName: string, ids: seq<string>)
    requires Distinct(w) && Connections.NamesMatch(byU)
    requires |ids| >= |TickGames(w, now, botName)|
    ensures forall d :: d in AllStartNotices(byU, TickGames(w, now, botName), ids) ==>
              d.username !in Usernames(TickRemaining(w, now))
  {
    var gs := TickGames(w, now, botName);
    NoticesGoToSeated(byU, gs, ids);
    TickConserves(w, now, botName);
    PartsDisjoint(w, Seated(gs), Usernames(TickRemaining(w, now)));
  }

  /** The games of a tick are stored under their ids, each as CreateGame
      builds it: created now for its two players, on the empty board,
      Player1 to move, no winner. Older entries are untouched and nothing
      else is added. */
  ghost predicate Created(games: map<string, Sessions.Game>, before: map<string, Sessions.Game>, gs: seq<NewGame>, ids: seq<string>, now: int)
    requires |ids| >= |gs|
    reads games.Values
  {
    && (forall id :: id in games <==> id in before || id in ids[..|gs|])
    && (forall id :: id in before ==> id in games && games[id] == before[id])
    && forall i :: 0 <= i < |gs| ==>
         ids[i] in games && StartsAs(games[ids[i]], gs[i], now)
  }

  /** Game g is the new game ng as CreateGame leaves it at time now. */
  ghost predicate StartsAs(g: Sessions.Game, ng: NewGame, now: int)
    reads g
  {
    g.CreatedAt == now && g.Snapshot() == Sessions.Session(Players(ng).0, Players(ng).1, Engine.NewBoard(), 1, None)
  }

  /** The two names a new game is created with. */
  function Players(g: NewGame): (string, string)
  {
    match g
    case HumanGame(p1, p2) => (p1, p2)
    case BotGame(p, bot) => (p, bot)
  }

  /** When the pairing loop stops after k pairs, the rest is the leftover. */
  lemma LeftoverAtExit(w: seq<WaitingPlayer>, k: int)
    requires 0 <= 2 * k <= |w| && |w| - 2 * k < 2
    ensures Leftover(w) == w[2 * k..]
  {
    assert |w| % 2 == |w| - 2 * k;
  }

  /** When the pairing loop stops after k pairs, it has made exactly
      HumanPairs and left exactly Leftover. */
  lemma PairingLoopExit(w: seq<WaitingPlayer>, k: int, done: seq<NewGame>)
    requires 0 <= 2 * k <= |w| && |w| - 2 * k < 2 && |done| == k
    requires forall i :: 0 <= i < k ==> done[i] == HumanGame(w[2 * i].username, w[2 * i + 1].username)
    ensures HumanPairs(w) == done
  {
    forall i | 0 <= i < k
      ensures HumanPairs(w)[i] == done[i]
    {
      HumanPairsIndexed(w, i);
    }
  }

  /** The notices for one more game follow those of the games before it. */
  lemma AllStartNoticesSnoc(byU: map<string, Connections.Connection>, done: seq<NewGame>, g: NewGame, ids: seq<string>)
    requires |ids| > |done|
    ensures AllStartNotices(byU, done + [g], ids) == AllStartNotices(byU, done, ids) + StartNotices(byU, g, ids[|done|])
  {
    assert (done + [g])[..|done|] == done;
  }

  /** The outbox after one more game's notices is the outbox of all games so far. */
  lemma OutboxStep(start: seq<Delivery>, before: seq<Delivery>, after: seq<Delivery>,
                   byU: map<string, Connections.Connection>, done: seq<NewGame>, g: NewGame, ids: seq<string>)
    requires |ids| > |done|
    requires before == start + AllStartNotices(byU, done, ids)
    requires after == before + StartNotices(byU, g, ids[|done|])
    ensures after == start + AllStartNotices(byU, done + [g], ids)
  {
    AllStartNoticesSnoc(byU, done, g, ids);
    AppendAssoc(start, AllStartNotices(byU, done, ids), StartNotices(byU, g, ids[|done|]));
  }

  /** Storing one more new game under the next id extends Created. */
  lemma CreatedStep(games: map<string, Sessions.Game>, before: map<string, Sessions.Game>, done: seq<NewGame>,
                    ids: seq<string>, ng: NewGame, g: Sessions.Game, now: int)
    requires |ids| > |done|
    requires forall i, j :: 0 <= i < j < |ids| ==> ids[i] != ids[j]
    requires forall i :: 0 <= i < |ids| ==> ids[i] !in before
    requires Created(games, before, done, ids, now)
    requires StartsAs(g, ng, now)
    ensures Created(games[ids[|done|] := g], before, done + [ng], ids, now)
  {
    var k := |done|;
    assert ids[..k + 1] == ids[..k] + [ids[k]];
    assert ids[k] !in games;
    var games' := games[ids[k] := g];
    forall i | 0 <= i < k + 1
      ensures ids[i] in games' && StartsAs(games'[ids[i]], (done + [ng])[i], now)
    {
      if i < k {
        assert ids[i] != ids[k];
        assert ids[i] in games;
      }
    }
  }


  class Matchmaker {
    var waiting: seq<WaitingPlayer>
    const gameMgr: Sessions.GameManager
    const wsMgr: Connections.Manager
    const botName: string

    ghost predicate Valid()
      reads this, gameMgr, wsMgr
    {
      Distinct(waiting) && gameMgr.Valid() && wsMgr.Valid()
    }

    /** NewMatchmaker (matchmaker.go:37-44). */
    constructor (gameMgr: Sessions.GameManager, wsMgr: Connections.Manager, botName: string)
      requires gameMgr.Valid() && wsMgr.Valid()
      ensures Valid()
      ensures waiting == [] && this.gameMgr == gameMgr && this.wsMgr == wsMgr && this.botName == botName
    {
      waiting := [];
      this.gameMgr := gameMgr;
      this.wsMgr := wsMgr;
      this.botName := botName;
    }

    /** Enqueue (matchmaker.go:47-59): a username already waiting is
        ignored; otherwise it joins the tail, stamped with now. */
    method Enqueue(username: string, now: int)
      requires Valid()
      modifies this
      ensures Valid()
      ensures IsWaiting(old(waiting), username) ==> waiting == old(waiting)
      ensures !IsWaiting(old(waiting), username) ==> waiting == old(waiting) + [WaitingPlayer(username, now)]
    {
      var i := 0;
      while i < |waiting|
        invariant 0 <= i <= |waiting|
        invariant forall j :: 0 <= j < i ==> waiting[j].username != username
      {
        if waiting[i].username == username {
          return;
        }
        i := i + 1;
      }
      waiting := waiting + [WaitingPlayer(username, now)];
    }

    /** WaitingCount (matchmaker.go:105-110). */
    method WaitingCount() returns (n: int)
      ensures n == |waiting|
    {
      return |waiting|;
    }

    /** notifyPlayers (matchmaker.go:112-138): a GAME_START to each seat
        that has a connection. */
    method NotifyPlayers(g: Sessions.Game)
      modifies wsMgr
      ensures wsMgr.connections == old(wsMgr.connections) && wsMgr.byUsername == old(wsMgr.byUsername)
      ensures wsMgr.outbox == old(wsMgr.outbox) + StartNotices(wsMgr.byUsername, HumanGame(g.Player1, g.Player2), g.ID)
    {
      wsMgr.SendToUsername(g.Player1, GameStart(g.ID, 1, g.Player2));
      wsMgr.SendToUsername(g.Player2, GameStart(g.ID, 2, g.Player1));
    }

    /** notifyBotGame (matchmaker.go:140-151): only the human is told. */
    method NotifyBotGame(g: Sessions.Game)
      modifies wsMgr
      ensures wsMgr.connections == old(wsMgr.connections) && wsMgr.byUsername == old(wsMgr.byUsername)
      ensures wsMgr.outbox == old(wsMgr.outbox) + StartNotices(wsMgr.byUsername, BotGame(g.Player1, g.Player2), g.ID)
    {
      wsMgr.SendToUsername(g.Player1, GameStart(g.ID, 1, g.Player2));
    }

    /** One game of a tick (matchmaker.go:85-88 and 96-99): create it
        under the next id, then send its GAME_START notices. The games and
        notices of the tick so far (done) grow by this one. */
    method Launch(ng: NewGame, id: string, ghost ids: seq<string>, ghost done: seq<NewGame>, ghost before: map<string, Sessions.Game>,
                  ghost start: seq<Delivery>, now: int) returns (g: Sessions.Game)
      requires gameMgr.Valid() && wsMgr.Valid()
      requires |ids| > |done| && id == ids[|done|]
      requires forall i, j :: 0 <= i < j < |ids| ==> ids[i] != ids[j]
      requires forall i :: 0 <= i < |ids| ==> ids[i] !in before
      requires Created(gameMgr.games, before, done, ids, now)
      requires wsMgr.outbox == start + AllStartNotices(wsMgr.byUsername, done, ids)
      modifies gameMgr, wsMgr
      ensures gameMgr.Valid() && wsMgr.Valid() && fresh(g)
      ensures gameMgr.games == old(gameMgr.games)[id := g]
      ensures StartsAs(g, ng, now)
      ensures Created(gameMgr.games, before, done + [ng], ids, now)
      ensures wsMgr.connections == old(wsMgr.connections) && wsMgr.byUsername == old(wsMgr.byUsername)
      ensures wsMgr.outbox == start + AllStartNotices(wsMgr.byUsername, done + [ng], ids)
    {
      ghost var games0 := gameMgr.games;
      ghost var sent := wsMgr.outbox;
      g := gameMgr.CreateGame(Players(ng).0, Players(ng).1, id, now);
      if ng.HumanGame? {
        NotifyPlayers(g);
      } else {
        NotifyBotGame(g);
      }
      CreatedStep(games0, before, done, ids, ng, g, now);
      OutboxStep(start, sent, wsMgr.outbox, wsMgr.byUsername, done, ng, ids);
    }

    /** The pairing loop of tick (matchmaker.go:80-89): while two or more
        wait, the two oldest get a game, the i-th under ids[i]. */
    method PairOff(now: int, ids: seq<string>) returns (k: int)
      requires Valid()
      requires |ids| >= |waiting| / 2
      requires forall i, j :: 0 <= i < j < |ids| ==> ids[i] != ids[j]
      requires forall i :: 0 <= i < |ids| ==> ids[i] !in gameMgr.games
      modifies this, gameMgr, wsMgr
      ensures Valid()
      ensures k == |old(waiting)| / 2 && waiting == Leftover(old(waiting))
      ensures Created(gameMgr.games, old(gameMgr.games), HumanPairs(old(waiting)), ids, now)
      ensures wsMgr.connections == old(wsMgr.connections) && wsMgr.byUsername == old(wsMgr.byUsername)
      ensures wsMgr.outbox == old(wsMgr.outbox) + AllStartNotices(old(wsMgr.byUsername), HumanPairs(old(waiting)), ids)
    {
      ghost var w0 := waiting;
      ghost var byU := wsMgr.byUsername;
      ghost var done: seq<NewGame> := [];
      k := 0;
      while |waiting| >= 2
        invariant 0 <= 2 * k <= |w0| && waiting == w0[2 * k..]
        invariant k == |done|
        invariant forall i :: 0 <= i < k ==> done[i] == HumanGame(w0[2 * i].username, w0[2 * i + 1].username)
        invariant gameMgr.Valid()
        invariant wsMgr.Valid()
        invariant wsMgr.connections == old(wsMgr.connections) && wsMgr.byUsername == byU
        invariant wsMgr.outbox == old(wsMgr.outbox) + AllStartNotices(byU, done, ids)
        invariant Created(gameMgr.games, old(gameMgr.games), done, ids, now)
        decreases |waiting|
      {
        var p1 := waiting[0];
        var p2 := waiting[1];
        var ng := HumanGame(p1.username, p2.username);
        assert p1 == w0[2 * k] && p2 == w0[2 * k + 1];
        assert k < |w0| / 2 <= |ids|;
        waiting := waiting[2..];
        var g := Launch(ng, ids[k], ids, done, old(gameMgr.games), old(wsMgr.outbox), now);
        done := done + [ng];
        k := k + 1;
      }
      PairingLoopExit(w0, k, done);
      LeftoverAtExit(w0, k);
      DistinctSuffix(w0, 2 * k);
    }

    /** tick (matchmaker.go:76-102). The i-th game created takes ids[i],
        standing for the uuid CreateGame draws; send errors are ignored, so
        only the outbox records the notices. */
    method Tick(now: int, ids: seq<string>)
      requires Valid()
      requires |ids| >= |TickGames(waiting, now, botName)|
      requires forall i, j :: 0 <= i < j < |ids| ==> ids[i] != ids[j]
      requires forall i :: 0 <= i < |ids| ==> ids[i] !in gameMgr.games
      modifies this, gameMgr, wsMgr
      ensures Valid()
      ensures waiting == TickRemaining(old(waiting), now)
      ensures Created(gameMgr.games, old(gameMgr.games), TickGames(old(waiting), now, botName), ids, now)
      ensures wsMgr.connections == old(wsMgr.connections) && wsMgr.byUsername == old(wsMgr.byUsername)
      ensures wsMgr.outbox ==
                old(wsMgr.outbox) + AllStartNotices(old(wsMgr.byUsername), TickGames(old(waiting), now, botName), ids)
    {
      ghost var w0 := waiting;
      ghost var pairs := HumanPairs(w0);
      var k := PairOff(now, ids);
      assert k == |pairs|;
      if |waiting| == 1 {
        var player := waiting[0];
        if now - player.enqueuedAt >= BotFallbackThreshold {
          var ng := BotGame(player.username, botName);
          assert BotDue(Leftover(w0), now) && |pairs| < |ids|;
          assert TickGames(w0, now, botName) == pairs + [ng];
          waiting := waiting[1..];
          var g := Launch(ng, ids[k], ids, pairs, old(gameMgr.games), old(wsMgr.outbox), now);
          return;
        }
      }
      assert TickGames(w0, now, botName) == pairs + [];
      assert pairs + [] == pairs;
    }
  }
}
