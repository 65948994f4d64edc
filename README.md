# Connect Four: a verified model of the rules, sessions and message routing

This project models the core of a Connect Four system in Dafny: the Go
game server and the TypeScript client's offline mode.

On the server side it models:

- the rules engine, which drops a disc under gravity into a copy of a
  6 x 7 board, looks for four in a row in the four directions and detects
  a full board;
- the game store, with `ApplyMove`, the move state machine (a fail-fast
  validation chain, then WIN, DRAW or CONTINUE with the turn passing
  between the seats);
- the bot's column choice (win now, else block, else centre-out) and its
  turn;
- the matchmaker's FIFO waiting list, its tick that pairs players or
  gives a lone player a bot game, and its GAME_START notices;
- the connection registry, with its two tables (by id and by username);
- the websocket handler's decisions about which message goes to whom,
  in which order, after a move.

On the client side it models the board helpers, the offline move judge,
the mock bot and the state reducer.

Each source file is one module:

| module | source |
|---|---|
| `Grid` | what the two rules engines share: cell access, the landing row, the four-cell test, the reference predicate `HasFour` and the nested-loop search |
| `Engine` | `backend/internal/game/engine.go` |
| `Sessions` | `backend/internal/game/manager.go` |
| `Bot` | `backend/internal/bot/bot.go` |
| `Connections` | `backend/internal/ws/manager.go` |
| `Matchmaking` | `backend/internal/matchmaking/matchmaker.go` |
| `Router` | `backend/internal/ws/handler.go` |
| `Messages` | the shape of the wire messages |
| `ClientBoard` | `src/utils/board.ts` |
| `PlayerMoves` | `src/state/playerMoves.ts` |
| `MockBot` | `src/utils/mockBot.ts` |
| `GameState` | `src/state/gameState.ts` |

How the source maps onto Dafny:

- **Boards** are values of type `seq<seq<int>>`. So "the input board is
  never changed" holds by construction, and a clone equals its input.
- **Objects the server updates in place** are classes whose methods
  carry `modifies` clauses: `Game`, `GameManager`, the connection
  `Manager`, the `Matchmaker`, the `Bot` and the `Handler`.
- **`ApplyMove` aliasing.** `ApplyMove` returns the stored `Game` object
  itself, and the model keeps that aliasing.
- **Sends** append to the registry's `outbox`, a sequence of
  (connection, message) deliveries. The order of the sends is therefore
  part of every contract.
- **Clock and ids.** The clock (`now`, in nanoseconds as Go's
  `time.Duration`) and the fresh ids that `uuid` would draw are
  parameters.
- **Loops.** Every loop of the source is a method with invariants, proved
  equal to a specification function. The properties are proved about
  those functions.
- **The two implementations agree.** Lemmas prove that on a 6 x 7 board
  the client's rules and the server's coincide:
  - the same drop, row and board;
  - the same full-board test;
  - the same win test;
  - the same move classification;
  - the same bot choice.

The client's board helpers take the board's dimensions from the board
itself. An index past a row's end reads `undefined` in TypeScript, which
`Grid.CellAt` returns as `None`.

## Model

| member | source | states |
|---|---|---|
| Grid.LandingRow | src/utils/board.ts:7-14 | the result is the largest row at most `top` whose cell in the column is 0, or -1; every row between the result and `top` is occupied or has no such column |
| Grid.ScanDirection | backend/internal/game/engine.go:41-47 | one nested search returns true exactly when some start cell within its bounds passes the four-cell test |
| Grid.FourInARow | backend/internal/game/engine.go:39-77 | the four searches, in source order, return true exactly when the player holds four in a row horizontally, vertically or on either diagonal inside the region (`HasFour`) |
| Grid.LoopBoundsExact | src/utils/board.ts:27-84 | the loop bounds of each direction are exact: a start inside them passes the test iff a line of four starts there inside the region |
| Grid.StartInBounds | backend/internal/game/engine.go:68-74 | the same, at one start cell (the diagonal-up search starts at row 3) |
| Engine.NewBoard | backend/internal/game/manager.go:135-141 | the new board is 6 x 7 and all zeros |
| Engine.Copied | backend/internal/game/engine.go:19-26 | the working copy has exactly 6 rows: the board's own rows, then zero rows for missing ones |
| Engine.Drop | backend/internal/game/engine.go:11-36 | the column is checked before the player; "column is full" exactly when the column has no 0; otherwise the row is the lowest empty cell and the new board differs from the copy only there |
| Engine.DropDisc | backend/internal/game/engine.go:11-36 | the copy loop and the upward scan return exactly `Drop` |
| Engine.CheckWin | backend/internal/game/engine.go:39-77 | true iff the player has four in a row in the 6 x 7 region |
| Engine.IsBoardFull | backend/internal/game/engine.go:80-92 | true iff the board has at least 6 rows and no cell of the 6 x 7 region is 0 |
| Engine.FullColumnIffTopOccupied | backend/internal/game/engine.go:28-35 | on a board where discs rest on discs, a legal drop is refused as full exactly when the column's top cell is taken |
| Engine.DropKeepsSettled | backend/internal/game/engine.go:28-33 | a drop keeps every disc resting on a disc or on the bottom row |
| Engine.DropStacks | backend/internal/game/engine.go:28-33 | a column holding h < 6 discs takes the next one in row 5 - h and then holds h + 1 |
| Engine.DropAllStacks | backend/internal/game/engine.go:28-33 | a column with room for k discs accepts k drops and fills from the bottom |
| Engine.ColumnFillsAfterRowsDrops | backend/internal/game/engine.go:28-35 | six drops into an empty column succeed and the seventh is refused as full |
| Engine.EmptyBoardLandsAtBottom | backend/internal/game/engine.go:28-33 | on the empty board a disc lands in row 5 |
| Engine.EmptyBoardHasNoFour | backend/internal/game/engine.go:39-77 | nobody wins on the empty board |
| Sessions.Apply | backend/internal/game/manager.go:90-132 | a move is INVALID exactly when it carries an error, and then the game is unchanged; the players never change |
| Sessions.ApplySpec | backend/internal/game/manager.go:90-132 | the checks in order (finished, not a participant, not your turn, the drop's error); an accepted move puts the dropped board in place; WIN iff four in a row, recording the mover and keeping the turn; DRAW for a full board without four, keeping the turn; otherwise CONTINUE, passing the turn to the other seat |
| Sessions.NoMoveAfterWin | backend/internal/game/manager.go:90-92 | once a game is won, every later move is refused with "game already finished" and changes nothing |
| Sessions.NoMoveAfterDraw | backend/internal/game/manager.go:108-124 | after a DRAW no winner is recorded, every later move is INVALID, and a move in range by the seat to play fails only because the column is full |
| Sessions.LegalMoveApplies | backend/internal/game/manager.go:104-132 | the seat to play, moving into a column with room in an unfinished game, gets CONTINUE, WIN or DRAW, and the board changes |
| Sessions.MakeBoard | backend/internal/game/manager.go:135-141 | the row loop builds the 6 x 7 all-zero board |
| Sessions.Game.constructor | backend/internal/game/manager.go:38-45 | a new game has the given id, players, board and creation time, turn 1 and no winner |
| Sessions.GameManager.constructor | backend/internal/game/manager.go:30-34 | the table starts empty |
| Sessions.GameManager.CreateGame | backend/internal/game/manager.go:37-52 | a fresh game with an empty board, turn 1 and no winner is stored under the new id; every other entry stays |
| Sessions.GameManager.GetGame | backend/internal/game/manager.go:55-61 | found iff the id is stored, and then the stored object itself is returned |
| Sessions.GameManager.RemoveGame | backend/internal/game/manager.go:64-68 | exactly that id is deleted |
| Sessions.GameManager.ApplyMove | backend/internal/game/manager.go:81-133 | an unknown id gives nil, INVALID and "game not found"; otherwise the stored object is returned, updated in place as `Apply` says; the table itself is unchanged |
| Sessions.GameManager.FindGameByPlayers | backend/internal/game/manager.go:144-155 | succeeds iff some stored game seats the two players in either order, and then returns such a game |
| Bot.FirstWinning | backend/internal/bot/bot.go:47-55 | the lowest column from which dropping the mark is accepted and gives it four in a row, or none if there is no such column |
| Bot.FirstPreferred | backend/internal/bot/bot.go:69-73 | the first entry of the preference order where the bot's drop is accepted, or none |
| Bot.PlayableEitherMark | backend/internal/bot/bot.go:58-66 | a column accepts one mark iff it accepts the other, so a blocking column is playable by the bot |
| Bot.PreferenceCoversColumns | backend/internal/bot/bot.go:9 | every column appears in the preference order |
| Bot.Choose | backend/internal/bot/bot.go:45-76 | any choice is a column in range |
| Bot.ChoosePriority | backend/internal/bot/bot.go:45-76 | the choice is playable; there is none iff every column is full; it is the lowest winning column, else the lowest column where the opponent would win, else the first playable column of [3,2,4,1,5,0,6] |
| Bot.EmptyBoardPrefersCenter | backend/internal/bot/bot.go:69-73 | on the empty board the bot plays column 3 |
| Bot.WinningColumn | backend/internal/bot/bot.go:47-55 | the win scan (and, with mark 1, the block scan) finds exactly `FirstWinning` |
| Bot.PreferredColumn | backend/internal/bot/bot.go:69-73 | the preference loop finds exactly `FirstPreferred` |
| Bot.ChooseColumn | backend/internal/bot/bot.go:45-76 | returns the column `Choose` picks, or 0 and "bot has no valid moves" iff it picks none |
| Bot.BotMove | backend/internal/bot/bot.go:32-42 | refused with "game is not against bot" unless Player2 is BOT, or with "bot has no valid moves"; otherwise the chosen column is applied as Player2 |
| Bot.BotTurnIsAccepted | backend/internal/bot/bot.go:36-42 | in an unfinished bot game where it is the bot's turn and a column has room, the bot's move is accepted |
| Bot.Bot.constructor | backend/internal/bot/bot.go:17-19 | the bot holds the given store |
| Bot.Bot.TakeTurn | backend/internal/bot/bot.go:22-43 | no store, a missing game, a non-bot game or no column: INVALID, column -1 and the error, with no game changed; otherwise the stored game is updated by the move, and the column is returned even when the move is refused |
| Connections.Connection.constructor | backend/internal/ws/manager.go:41-45 | a connection carries its id, username and socket |
| Connections.Routed | backend/internal/ws/manager.go:94-104 | sending to a username delivers exactly one message iff the username has an entry, and it goes to that entry's connection |
| Connections.Manager.constructor | backend/internal/ws/manager.go:32-37 | both tables start empty |
| Connections.Manager.Register | backend/internal/ws/manager.go:40-54 | the new connection is entered under its id and its username; an older connection of the user keeps its id entry but loses the username entry |
| Connections.Manager.Unregister | backend/internal/ws/manager.go:57-68 | nil changes nothing; otherwise the id entry and the username entry are deleted, whoever the username entry points at |
| Connections.UnregisterTwice | backend/internal/ws/manager.go:62-65 | a second `Unregister` of the same connection leaves both tables as the first left them |
| Connections.StaleDisconnect | backend/internal/ws/manager.go:57-68 | a user reconnects and the first connection is then unregistered: the newer connection is still registered by id but the user has no username entry |
| Connections.Manager.UnregisterOwn | backend/internal/ws/manager.go:57-68 | corrected `Unregister`: the id entry goes, the username entry goes only if it points at this connection, and every other user's entry is kept |
| Connections.StaleDisconnectOwn | backend/internal/ws/manager.go:57-68 | the same sequence with `UnregisterOwn` leaves the newer connection as the user's entry |
| Connections.Manager.Send | backend/internal/ws/manager.go:71-91 | nil sends nothing; otherwise exactly one delivery to that connection is appended |
| Connections.Manager.FindByUsername | backend/internal/ws/manager.go:99-104 | the username's entry, or nil when it has none |
| Connections.Manager.SendToUsername | backend/internal/ws/manager.go:94-96 | appends `Routed`: one message to the user's connection, none to an unknown user |
| Connections.Manager.Shutdown | backend/internal/ws/manager.go:119-133 | both tables are empty afterwards |
| Matchmaking.HumanPairs | backend/internal/matchmaking/matchmaker.go:80-89 | the pairing loop makes half as many games as there are entries |
| Matchmaking.HumanPairsIndexed | backend/internal/matchmaking/matchmaker.go:80-89 | the i-th game seats entries 2i and 2i+1, the earlier one as Player1 |
| Matchmaking.Leftover | backend/internal/matchmaking/matchmaker.go:80-91 | the pairing loop leaves the last entry when the count is odd and nothing otherwise |
| Matchmaking.TickGames | backend/internal/matchmaking/matchmaker.go:80-101 | a tick makes the pair games, then one bot game for the leftover iff it has waited at least 10 seconds |
| Matchmaking.TickRemaining | backend/internal/matchmaking/matchmaker.go:80-101 | at most the last entry is left waiting, and it is left iff the count was odd and it has waited less than 10 seconds |
| Matchmaking.PairsConserve | backend/internal/matchmaking/matchmaker.go:80-89 | the pairing loop seats every entry but the leftover, in queue order |
| Matchmaking.TickConserves | backend/internal/matchmaking/matchmaker.go:80-101 | a tick loses nobody: the seated players followed by those still waiting are the old list in order |
| Matchmaking.RetainsUnpairedPlayer | backend/internal/matchmaking/matchmaker.go:80-93 | alice, bob and charlie, all recent, give one game (alice, bob) and leave charlie waiting |
| Matchmaking.StartNotices | backend/internal/matchmaking/matchmaker.go:112-151 | each connected human seat gets a GAME_START with the game id, its seat and the other player's name; in a bot game only the player is told, as seat 1 facing the bot |
| Matchmaking.NoticesGoToSeated | backend/internal/matchmaking/matchmaker.go:112-151 | only players seated in the new games are sent a GAME_START |
| Matchmaking.WaitingPlayersGetNoNotice | backend/internal/matchmaking/matchmaker.go:91-93 | a player the tick leaves waiting is sent nothing |
| Matchmaking.Matchmaker.constructor | backend/internal/matchmaking/matchmaker.go:37-44 | an empty waiting list with the given store, registry and bot name |
| Matchmaking.Matchmaker.Enqueue | backend/internal/matchmaking/matchmaker.go:47-59 | a username already waiting changes nothing; otherwise one entry stamped `now` joins the tail |
| Matchmaking.Matchmaker.WaitingCount | backend/internal/matchmaking/matchmaker.go:105-110 | the length of the waiting list |
| Matchmaking.Matchmaker.NotifyPlayers | backend/internal/matchmaking/matchmaker.go:112-138 | appends the two seats' GAME_STARTs, Player1's first |
| Matchmaking.Matchmaker.NotifyBotGame | backend/internal/matchmaking/matchmaker.go:140-151 | appends the human's GAME_START only |
| Matchmaking.Matchmaker.Launch | backend/internal/matchmaking/matchmaker.go:85-88 | one more game is stored under the next id, created now for its players on the empty board with Player1 to move and no winner, and its notices follow those of the games before it |
| Matchmaking.Matchmaker.PairOff | backend/internal/matchmaking/matchmaker.go:80-89 | the pairing loop stores `HumanPairs` under the ids in order, each created now on the empty board with Player1 to move and no winner, sends their notices and leaves `Leftover` |
| Matchmaking.Matchmaker.Tick | backend/internal/matchmaking/matchmaker.go:76-102 | stores exactly `TickGames` under the given ids, each created now on the empty board with Player1 to move and no winner, keeps every older game, leaves `TickRemaining` waiting and appends the games' notices in order |
| Router.SeatResult | backend/internal/ws/handler.go:208-215 | DRAW to both seats of a draw; otherwise WIN to the seat of the winner (Player1 checked first) and LOSS to the other |
| Router.MoveCheck | backend/internal/ws/handler.go:127-142 | a MAKE_MOVE passes iff it has a column, a game id, a store and a known game; the first missing one names the error |
| Router.BotReplyRefused | backend/internal/ws/handler.go:245-249 | when the bot refuses or its move fails, nothing is sent and the game stays as it was |
| Router.BotReplyPlayed | backend/internal/ws/handler.go:254-261 | an accepted bot move sends its BOARD_UPDATE and outcome, with the bot (Player2) as the winner of a WIN |
| Router.ToPlayersAddressed | backend/internal/ws/handler.go:226-238 | Player1 gets its message if connected; Player2 gets its own only if it is not BOT, there is one and it is connected |
| Router.GameOverRecipients | backend/internal/ws/handler.go:201-224 | each connected seat (not the bot) gets a GAME_OVER with the game id, the final board and its own seat's result |
| Router.OutcomeIsGameOver | backend/internal/ws/handler.go:175-185 | the outcome notices are GAME_OVERs, at least one when Player1 is connected |
| Router.UpdatesBeforeGameOver | backend/internal/ws/handler.go:149-150 | after a move, every BOARD_UPDATE precedes every GAME_OVER, and a GAME_OVER is sent iff the result is WIN or DRAW (given Player1 is connected) |
| Router.BotGameNoticesPlayer1 | backend/internal/ws/handler.go:217-233 | in a bot game the notices of a move reach Player1 alone |
| Router.BotGameTellsOnlyPlayer1 | backend/internal/ws/handler.go:149-154 | in a bot game everything a move sends, the bot's reply included, reaches Player1 alone |
| Router.Handler.constructor | backend/internal/ws/handler.go:35-37 | the handler holds the given registry, store and bot |
| Router.Handler.SendInfo | backend/internal/ws/handler.go:168-173 | one INFO with the text to that connection |
| Router.Handler.SendToPlayers | backend/internal/ws/handler.go:226-238 | appends `ToPlayers`: Player1's message, then Player2's unless it is BOT or absent |
| Router.Handler.SendBoardUpdate | backend/internal/ws/handler.go:187-199 | the same BOARD_UPDATE, with the board and the turn, to both seats |
| Router.Handler.SendGameOver | backend/internal/ws/handler.go:201-224 | appends the per-seat GAME_OVERs of `GameOverNotices` |
| Router.Handler.HandleGameOutcome | backend/internal/ws/handler.go:175-185 | WIN sends GAME_OVER naming the mover, DRAW a draw, CONTINUE nothing |
| Router.Handler.SendMoveNotices | backend/internal/ws/handler.go:149-150 | the BOARD_UPDATE, then the outcome |
| Router.Handler.HandleBotTurn | backend/internal/ws/handler.go:240-262 | without a bot nothing happens; otherwise the deliveries and the game after them are those of `BotReply` |
| Router.Handler.Announce | backend/internal/ws/handler.go:149-154 | the move's notices, then the bot's reply exactly when the move continued a bot game, a bot is configured and it is seat 2's turn |
| Router.Handler.PlayMove | backend/internal/ws/handler.go:144-156 | a refused move sends only an INFO with the error text to the mover and changes nothing; an accepted one sends its replies |
| Router.Handler.HandleMakeMove | backend/internal/ws/handler.go:126-157 | the four checks fail before any game is touched or anything is sent; otherwise the move is played as the connection's user |
| Router.Handler.HandleReconnect | backend/internal/ws/handler.go:159-166 | no username is an error; otherwise an INFO "Reconnect acknowledged" to that connection |
| Router.Handler.HandleMessage | backend/internal/ws/handler.go:115-124 | MAKE_MOVE gives `MoveCheck`'s error with nothing sent and the game unchanged, or else the move's `MoveReplies`; RECONNECT without a username is an error that sends nothing, and otherwise sends the "Reconnect acknowledged" INFO; any other type is "unsupported message type" and sends nothing |
| ClientBoard.CloneBoard | src/utils/board.ts:3-5 | the clone equals the board cell by cell |
| ClientBoard.FindAvailableRow | src/utils/board.ts:7-14 | the largest row whose cell in the column is 0, or -1; a column outside the rows counts as full |
| ClientBoard.Drop | src/utils/board.ts:16-25 | null iff the column has no empty cell; otherwise the lowest empty cell's row and a board differing from the input only there |
| ClientBoard.DropDisc | src/utils/board.ts:16-25 | find, clone and write give exactly `Drop` |
| ClientBoard.CheckWin | src/utils/board.ts:27-84 | true iff four in a row exist inside the board's own height and first-row width |
| ClientBoard.RowFull | src/utils/board.ts:86-88 | a row is full iff none of its cells is 0 |
| ClientBoard.IsBoardFull | src/utils/board.ts:86-88 | full iff no cell of any row is 0 |
| ClientBoard.DropAgreesWithServer | src/utils/board.ts:16-25 | on a 6 x 7 board the client accepts exactly the moves the server accepts, landing in the same row with the same board |
| ClientBoard.FullAgreesWithServer | src/utils/board.ts:86-88 | on a 6 x 7 board the client's full test is the server's |
| ClientBoard.WinAgreesWithServer | src/utils/board.ts:27-84 | on a 6 x 7 board the client's win test is the server's |
| PlayerMoves.EvaluatePlayerMove | src/state/playerMoves.ts:9-26 | COLUMN_FULL iff the drop fails; otherwise the dropped board with WIN iff four in a row, DRAW iff no four and full, else CONTINUE; never LOSS |
| PlayerMoves.EvaluationAgreesWithServer | src/state/playerMoves.ts:9-26 | for the seat to play on a 6 x 7 board, the client classifies a move exactly as `ApplyMove` does and leaves the same board |
| MockBot.AvailableBelow | src/utils/mockBot.ts:16-21 | the first loop collects exactly the available columns, in increasing order |
| MockBot.FirstWinIn | src/utils/mockBot.ts:27-37 | the first listed column where the mark wins, or none if no listed column wins |
| MockBot.FirstPreferredIn | src/utils/mockBot.ts:52-57 | the first entry of [3,2,4,1,5,0,6] that is listed, or none |
| MockBot.MockChoice | src/utils/mockBot.ts:15-60 | any choice is an available column in range |
| MockBot.ScanForWin | src/utils/mockBot.ts:27-37 | the simulation loop finds exactly `FirstWinIn` |
| MockBot.SelectMockBotColumn | src/utils/mockBot.ts:15-60 | the loops return exactly `MockChoice` |
| MockBot.WinningColumnIsAvailable | src/utils/mockBot.ts:27-37 | a column where some mark wins is available |
| MockBot.WinnersAreListed | src/utils/mockBot.ts:16-37 | every winning column in range is among the available columns |
| MockBot.FirstIsLowest | src/utils/mockBot.ts:27-37 | in the increasing list, the first winning column is the lowest one |
| MockBot.MockChoicePriority | src/utils/mockBot.ts:15-60 | null iff no column is available; the lowest winning column, else the lowest blocking column, else the first available entry of the priority order, else the lowest available column |
| MockBot.MockChoiceNone | src/utils/mockBot.ts:16-25 | null iff no column is available |
| MockBot.MockChoiceTakesWin | src/utils/mockBot.ts:27-37 | a win is taken, the lowest one |
| MockBot.MockChoiceBlocks | src/utils/mockBot.ts:39-50 | without a win, the opponent's lowest win is blocked |
| MockBot.MockChoicePrefers | src/utils/mockBot.ts:52-59 | otherwise the priority order, then the lowest available column |
| MockBot.MockChoiceAgreesWithServer | src/utils/mockBot.ts:15-60 | on a 6 x 7 board the mock bot picks the column the server's bot picks |
| MockBot.AgreeOnWin | src/utils/mockBot.ts:27-37 | on a 6 x 7 board with a winning column both bots pick the same one |
| MockBot.AgreeOnBlock | src/utils/mockBot.ts:39-50 | on a 6 x 7 board without a win but with a block, both bots block in the same column |
| MockBot.AgreeOnPreference | src/utils/mockBot.ts:52-59 | on a 6 x 7 board with neither, both bots fall back to the same column |
| MockBot.EvaluateMockBotMove | src/utils/mockBot.ts:62-84 | BLOCKED with the board unchanged iff no column is available; otherwise the bot's drop, with LOSS iff the bot has four, DRAW iff not and full, else CONTINUE; never WIN; the dimensions are kept |
| GameState.CreateEmptyBoard | src/state/gameState.ts:82-84 | the requested number of rows (none if negative), each of the requested number of zeros |
| GameState.SetUsername | src/state/gameState.ts:99-104 | only the username changes |
| GameState.ChangeScreen | src/state/gameState.ts:106-112 | the screen changes, the message only when one is given, nothing else |
| GameState.StartGame | src/state/gameState.ts:114-128 | the game screen with no result; the turn is `firstTurn` or else the seat; the board is the payload's or else empty; the opponent and message are kept when absent; the game id is the payload's even when absent |
| GameState.UpdateBoard | src/state/gameState.ts:130-137 | the board and the turn are replaced, the message only when given, nothing else changes |
| GameState.EndGame | src/state/gameState.ts:139-147 | the game-over screen with the result; the old board is kept when the payload has none |
| GameState.ResetGame | src/state/gameState.ts:149-158 | the game screen with an empty board, the local seat to move and no result |
| GameState.SetMessage | src/state/gameState.ts:160-165 | only the message changes |
| GameState.GameReducer | src/state/gameState.ts:167-208 | each server action is the matching start, update or end transition on the converted payload; an unknown action returns the state unchanged |
| GameState.ServerStartShowsGame | src/state/gameState.ts:183-191 | a server start shows the game screen, the game id, the opponent, the seat, the first turn and no result |
| GameState.ServerUpdateKeepsScreen | src/state/gameState.ts:193-198 | a server board update keeps the screen and the result and shows the new board |
| GameState.ServerOverShowsFinalBoard | src/state/gameState.ts:199-204 | a server game-over shows the game-over screen, its result and its board |
| GameState.ResultChangesOnlyAtGameBoundaries | src/state/gameState.ts:167-208 | the result is set only by ending a game and cleared only by starting or resetting one |
| GameState.GameOverOnlyByEnding | src/state/gameState.ts:167-208 | the game-over screen is entered only by ending a game or by asking for that screen |
| GameState.RepeatedMessagesAreIdempotent | src/state/gameState.ts:167-208 | repeating a start, update, end or reset action changes nothing further |
| GameState.ResetStartsFresh | src/state/gameState.ts:149-158 | after a reset the local player moves first on an empty 6 x 7 board |

## Left out

- Concurrency: the mutexes, the per-connection send lock, goroutines and the ticker loop `Matchmaker.Start` (backend/internal/matchmaking/matchmaker.go:62-74). Each operation is one sequential step.
- The websocket transport:
  - the upgrade and handshake in `accept` (registration, welcome INFO, reconnect notice, enqueue);
  - the `listen` read loop with its deadlines and pongs, and the `Unregister` it defers;
  - JSON encoding and decoding.
- Socket writes: they are deliveries appended to an outbox, and a send never fails. So the "send errors are ignored" paths in the matchmaker and the handler are the only paths.
- `Broadcast` (backend/internal/ws/manager.go:107-116). Only the socket close frames of `Shutdown` are omitted; its table reset is modelled.
- UUIDs and `time.Now`: they are parameters (fresh distinct ids, `now` in nanoseconds).
- Logging.
- Persistence, the leaderboard HTTP endpoint and the server's `main` wiring. `NewHandler` is modelled with the arguments its own declaration takes.
- The React UI, the game controller hook, the websocket client stubs, and the mock bot's timers (src/utils/mockBot.ts:86-92).
- The `gameActions` creators (src/state/gameState.ts:210-218): they only build action records.
- Numbers in TypeScript are floating point; the model uses integers. Player marks are 1 or 2, as the `PlayerId` type says.
- ClientBoard.CloneBoard: it shows only that the clone equals the board. That the rows are new arrays, so writes into the clone leave the input alone, holds here because boards are values.
- Engine.DropDisc: it requires each present row among the first six to hold at least seven cells, so it excludes boards with a short row. Go copies rows of any length and reads only the cells its scan reaches, so it handles some of those boards, for instance six rows of four zeros with column 2, and panics on others. No caller passes such a board: every stored board is built by `newBoard` or returned by `DropDisc` from a 6 x 7 board.
- Engine.CheckWin: it requires six rows of at least seven cells, so it excludes boards with a short or missing row. Go's `&&` chains stop at the first mismatch, so it does not panic on all of them. Its callers pass only stored 6 x 7 boards.
- Engine.IsBoardFull: it requires each present row among the first six to hold at least seven cells. Go returns false at the first empty cell or missing row, so it handles some boards with a short row without panicking. Its callers pass only stored 6 x 7 boards.
- ClientBoard.CheckWin: it requires a board with at least one row. On an empty board `board[0].length` throws, which is not modelled. `MockBot.SelectMockBotColumn` and `MockBot.EvaluateMockBotMove` require the same.
- Sessions.Apply: its own contract states only the invariants. Everything `ApplyMove` decides is proved in `Sessions.ApplySpec`.
- Bot.Choose: its own contract states only the range. The priority rule is proved in `Bot.ChoosePriority`.
- MockBot.MockChoice: its own contract states only availability. The priority rule is proved in `MockBot.MockChoicePriority`.
- Sessions.GameManager.FindGameByPlayers: which matching game it returns is left open, because Go's map iteration order is unspecified.
- Matchmaking.Matchmaker.Tick: it requires enough fresh, distinct game ids for the games it creates, standing for `uuid.NewString`.

## Findings

| source | as written | input that shows it | evidently intended | confidence | as-written member | corrected member |
|---|---|---|---|---|---|---|
| backend/internal/ws/manager.go:62-65 | `Unregister` deletes `byUsername[conn.Username]` whoever that entry points at | "alice" connects (c1), reconnects (c2), then c1's read loop ends and its deferred `Unregister(c1)` runs: c2 stays registered by id but "alice" has no username entry, so every later `SendToUsername("alice", …)` is silently dropped | delete the username entry only while it still points at the connection being removed | medium; not executed | Connections.StaleDisconnect | Connections.Manager.UnregisterOwn |

`Connections.Manager.Unregister` keeps the behaviour as written.
`Connections.Manager.UnregisterOwn` is the corrected operation. Its
contract keeps every other user's entry, and
`Connections.StaleDisconnectOwn` replays the same sequence with it. No
other modelled operation unregisters connections, because the read loop
is not modelled.
