# Tic-tac-toe: evaluator, AI, rooms and clients

This project models the game logic of the SimpleTicTacToe repository in Dafny. It has three parts.

- **The backend** (`backend/server.py`):
  - `check_winner`, `is_board_full` and `get_available_moves`.
  - The alpha-beta `minimax` search, which writes a trial symbol into the board and then undoes it.
  - `get_ai_move` with its three difficulties, and the `/api/ai-move` reply.
  - The multiplayer rooms: `create_room` and the `join_room`, `make_move` and `reset_game` websocket messages.
- **The single-player React component** (`frontend/src/components/SinglePlayerGame.js`):
  - its own `checkWinner` and `isBoardFull`;
  - the component's state hooks, driven by `makeMove`, by the reply callback of the AI request, by `resetGame` and by `resetScore`.
- **The original single-page game** (`script.js`): the `gameStatus` array, `turn` and `counter`, changed by `placeCellValue` and `resetGame`.

Files:

| file | module | contents |
|---|---|---|
| `board.dfy` | `Board` | Cells ("-", "X", "O"), the 3x3 board stored row-major in 9 cells, the eight lines, counting. |
| `server.dfy` | `Server` | The evaluator functions, and `GetAvailableMoves` as a loop over the board array. |
| `server_ai.dfy` | `ServerAi` | See below. |
| `room.dfy` | `Room` | The room collection, as a map from room id to room document, and the message handlers as transitions. |
| `single_player.dfy` | `SinglePlayer` | The component's transitions as functions on a `GameView` value, and the class `SinglePlayerGame`, whose fields are the state hooks. |
| `legacy.dfy` | `Legacy` | The page's transitions as functions on a `PageState` value, and the class `LegacyPage`, whose `gameStatus` is an array updated in place. |

`server_ai.dfy` holds:
- `MinimaxValue`, `MaxScan` and `MinScan`: the value `minimax` computes, as functions.
- `Minimax`, `TryCell`, `SearchBestMove` and `GetAiMove`: methods on the board array, proved against those functions. Each one restores the array it writes into.

Randomness becomes inputs:
- `random.choice(moves)` becomes `moves[pick % |moves|]`.
- `random.random() < 0.7` becomes the boolean `coin`.

The infinities become integer sentinels:
- `-float('inf')` becomes `NegInf` = -100 and `float('inf')` becomes `PosInf` = 100.
- Every score lies in [-10, 10] (`MinimaxRange`). So these sentinels compare with scores exactly as the infinities do.

## Model

| member | source | states |
|---|---|---|
| Board.Place | backend/server.py:259 | The written cell holds the new symbol; every other cell is unchanged. |
| Board.PlaceKeepsOtherLines | backend/server.py:258-262 | Writing p into a cell can complete a line only for p: any line of another symbol was already on the board. |
| Server.RowWinner | backend/server.py:82-84 | A row found by the row loop holds a non-"-" symbol on a real line. If the loop finds none, no symbol fills any row. |
| Server.ColWinner | backend/server.py:87-89 | A column found by the column loop holds a non-"-" symbol on a real line. If the loop finds none, no symbol fills any column. |
| Server.CheckWinner | backend/server.py:80-97 | A returned symbol is not "-" and has a completed line. None is returned exactly when neither "X" nor "O" has a line. |
| Server.CheckWinnerScansLinesInOrder | backend/server.py:80-97 | check_winner equals a reference scan that takes the first monochrome line among rows, then columns, then diagonals. |
| Server.RowsScanFirst | backend/server.py:82-84 | The row loop decides exactly the first three lines of the reference scan. |
| Server.ColsScanNext | backend/server.py:87-89 | The column loop decides exactly lines four to six of the reference scan. |
| Server.RowsFull | backend/server.py:100-102 | From row r on, the loop reports full exactly when no later cell is "-". |
| Server.IsBoardFull | backend/server.py:99-103 | Full exactly when no cell is "-", that is, when the count of "-" cells is 0. |
| Server.MovesFromLegal | backend/server.py:105-111 | Every appended move is in range, targets a "-" cell, and lies at or after the loop position. |
| Server.MovesFromComplete | backend/server.py:105-111 | Every "-" cell at or after the loop position is appended. |
| Server.MovesFromOrdered | backend/server.py:105-111 | The appended moves are in strictly increasing row-major order. |
| Server.AvailableMovesCorrect | backend/server.py:105-111 | get_available_moves lists exactly the "-" cells, all in range, each once, in row-major order. |
| Server.FullIffNoMoves | backend/server.py:99-111 | is_board_full holds exactly when get_available_moves is empty. |
| Server.AppendStep | backend/server.py:108-110 | One inner-loop step keeps "moves so far + moves still to come" equal to the final list. |
| Server.GetAvailableMoves | backend/server.py:105-111 | The loops over the board array return the list above: legal, complete and row-major. |
| ServerAi.MinimaxTerminalScores | backend/server.py:115-122 | A board won by "O" scores 10 - depth. A board won by "X" scores depth - 10. A full board without a line scores 0. |
| ServerAi.MaxScanAtLeast | backend/server.py:125-136 | The running max_eval never decreases during the maximizing loops. |
| ServerAi.MinScanAtMost | backend/server.py:138-149 | The running min_eval never increases during the minimizing loops. |
| ServerAi.MinimaxBounds | backend/server.py:114-149 | After depth plies, with at most 9 in all, the score lies in [depth - 10, 10 - depth]. Without a winner it lies in [depth - 9, 9 - depth]. This holds for any alpha and beta. |
| ServerAi.MaxScanBounds | backend/server.py:124-136 | The maximizing loops end inside the bounds above once a "-" cell has been scored. |
| ServerAi.MaxStepBounds | backend/server.py:128-135 | One maximizing trial keeps max_eval inside the bounds. |
| ServerAi.MinScanBounds | backend/server.py:137-149 | The minimizing loops end inside the bounds above once a "-" cell has been scored. |
| ServerAi.MinStepBounds | backend/server.py:141-148 | One minimizing trial keeps min_eval inside the bounds. |
| ServerAi.MinimaxRange | backend/server.py:114-149 | A search from depth 0 scores within [-10, 10], so the infinities are never returned. |
| ServerAi.Minimax | backend/server.py:114-149 | The in-place search returns MinimaxValue of the board it was given. It leaves the board exactly as it found it. |
| ServerAi.TryCell | backend/server.py:128-131 | Writing a symbol into a "-" cell, scoring, and writing "-" back yields the score of the placed board. The board is restored. |
| ServerAi.ScoreRange | backend/server.py:179-182 | Every move scores within [-10, 10]. |
| ServerAi.BestFromFirstArgmax | backend/server.py:183-185 | The strict `score > best_score` update keeps the first move of highest score. |
| ServerAi.BestFromStart | backend/server.py:177-186 | Starting from available_moves[0] and -infinity, the scan returns the first move of highest score. |
| ServerAi.OptimalMoveIsFirstBest | backend/server.py:177-186 | The chosen move scores at least as much as every listed move, and strictly more than every move listed before it. |
| ServerAi.AiMoveLegal | backend/server.py:151-186 | get_ai_move returns None exactly when the board is full. Otherwise it returns an in-range "-" cell, for every difficulty and every random outcome. |
| ServerAi.AiMoveIsBest | backend/server.py:157-186 | Any difficulty other than "easy" (for "medium", when the coin is below 0.7) plays a "-" cell that no other "-" cell outscores. Every "-" cell before it in row-major order scores strictly less. |
| ServerAi.BestMoveTakesWin | backend/server.py:175-186 | When some "-" cell completes a line for "O", the optimal move completes a line for "O". |
| ServerAi.TopScoreIsWin | backend/server.py:117-118 | Only a move that wins for "O" at once can score 10. |
| ServerAi.ThreatCompletes | backend/server.py:138-149 | With "X" on (0, 0) and (0, 1), (0, 2) free and no line yet, the minimizing search scores at most -9. |
| ServerAi.UnblockedThreatLoses | backend_test.py:126-141 | On the blocking test board, every "O" move except (0, 2) scores at most -9. |
| ServerAi.BlockScoresAtLeast | backend_test.py:126-141 | On the blocking test board, blocking at (0, 2) scores at least -9. |
| ServerAi.BlockIsChosen | backend/server.py:175-186 | When (0, 2) is the first "-" cell, scores at least -9, and every other "-" cell scores at most -9, the optimal choice is (0, 2). |
| ServerAi.BestMoveBlocksThreat | backend_test.py:126-141 | "hard", and "medium" with the optimal branch, answer the blocking test board with (0, 2) whatever the random inputs. |
| ServerAi.SearchBestMove | backend/server.py:177-186 | The scoring loop over the board array returns the optimal move of the specification and restores the board. |
| ServerAi.GetAiMove | backend/server.py:151-186 | The in-place get_ai_move returns AiMoveChoice of the board it was given and leaves the board unchanged. |
| ServerAi.AiReplyFor | backend/server.py:223-228 | The endpoint answers "No moves available" exactly on a full board. Otherwise it answers with a row and column of a "-" cell. |
| Room.CreateRoom | backend/server.py:193-212 | A new id gets a room with no players and the initial state. Every existing room is unchanged. |
| Room.ApplyMove | backend/server.py:255-273 | A move on a taken cell or a finished game changes nothing. Otherwise: the mover's symbol is written, the turn passes, the winner is recomputed, a draw means full with no winner, and over means won or drawn. |
| Room.InitialConsistent | backend/server.py:196-202 | The initial game state satisfies the room invariant. |
| Room.ApplyMovePreservesConsistent | backend/server.py:258-273 | make_move keeps the invariant: marks alternate starting with "X", the outcome fields agree with the board, at most one symbol has a line, and a winner is the symbol that moved last. |
| Room.TurnAlternates | backend/server.py:265 | The player to move flips on an accepted move and on nothing else. |
| Room.OverIsFinal | backend/server.py:258 | A finished game accepts no move. |
| Room.AddPlayer | backend/server.py:241-245 | With fewer than two players, the name is added as to a set. A listed name is not duplicated. With two players, nothing changes. |
| Room.AddPlayerKeepsRoster | backend/server.py:241-245 | Joining never lists more than two players or any name twice. |
| Room.Handle | backend/server.py:238-303 | join_room: on a known room with fewer than two players, the roster becomes AddPlayer of the old roster and the name is broadcast. Otherwise nothing changes. make_move: on an accepted move, the room gets ApplyMove and the new state is broadcast. Otherwise nothing changes. reset_game: the room gets the initial state, and it is always broadcast. Only the addressed room can change. |
| Room.CreateRoomKeepsValid | backend/server.py:193-212 | Creating a room keeps every room valid. |
| Room.HandleKeepsValid | backend/server.py:238-303 | Every message keeps every room valid. |
| Room.FirstMoveScenario | backend/server.py:238-280 | Two players join a fresh room and both are listed. "X" then plays (0, 0). The update broadcast shows "X" at (0, 0), "O" to move, and the game still on. |
| Room.SingleJoinMoveScenario | backend_test.py:251-290 | One player joins a fresh room and the join is broadcast. That connection plays (0, 0), and the update broadcast shows "X" at (0, 0) with "O" to move. |
| SinglePlayer.RowWinner | frontend/src/components/SinglePlayerGame.js:23-27 | A row found holds a non-"-" symbol on a real line. If none is found, no symbol fills any row. |
| SinglePlayer.ColWinner | frontend/src/components/SinglePlayerGame.js:30-34 | A column found holds a non-"-" symbol on a real line. If none is found, no symbol fills any column. |
| SinglePlayer.CheckWinner | frontend/src/components/SinglePlayerGame.js:21-45 | A returned symbol is not "-" and has a line. null is returned exactly when neither symbol has a line. |
| SinglePlayer.CheckWinnerAgreesWithServer | frontend/src/components/SinglePlayerGame.js:21-45 | The client's checkWinner names the same winner as the server's check_winner on every board. |
| SinglePlayer.RowsFull | frontend/src/components/SinglePlayerGame.js:48-52 | From row r on, the loop reports full exactly when no later cell is "-". |
| SinglePlayer.IsBoardFull | frontend/src/components/SinglePlayerGame.js:47-54 | Full exactly when no cell is "-". |
| SinglePlayer.IsBoardFullAgreesWithServer | frontend/src/components/SinglePlayerGame.js:47-54 | The client and the server agree on every board. |
| SinglePlayer.Credit | frontend/src/components/SinglePlayerGame.js:71-75 | A win raises exactly one counter: the player's for "X", the AI's otherwise. |
| SinglePlayer.OutcomeOf | frontend/src/components/SinglePlayerGame.js:65-84 | The outcome is a win exactly when a symbol has a line. It is a draw exactly when the board is full and nobody has a line. |
| SinglePlayer.HumanMove | frontend/src/components/SinglePlayerGame.js:56-89 | A refused click changes nothing. An accepted one writes "X". A request goes to the AI exactly when the game goes on. It carries the new board, with "O" to move and the AI thinking. On that path the winner, game over, draw flag and score are kept. A click that ends the game keeps the player to move and the thinking flag, and a win also keeps the draw flag. |
| SinglePlayer.AiReply | frontend/src/components/SinglePlayerGame.js:97-121 | A reply cell is written as "O" into the board that was sent. A line ends the game with that winner and credits it. Otherwise a full board ends it as a draw and counts the draw. Otherwise "X" moves next, and winner, game over, draw and score are kept. A reply with no cell only drops the thinking flag. The flag always drops. |
| SinglePlayer.Reset | frontend/src/components/SinglePlayerGame.js:130-141 | The initial state, keeping the score. |
| SinglePlayer.ResetScores | frontend/src/components/SinglePlayerGame.js:143-146 | The initial state, score included. |
| SinglePlayer.InitialValid | frontend/src/components/SinglePlayerGame.js:6-17 | The initial hooks satisfy the component invariant. |
| SinglePlayer.HumanMoveKeepsValid | frontend/src/components/SinglePlayerGame.js:56-89 | makeMove keeps the invariant: someone is to move, over means won or drawn, and the AI thinks only on "O"'s turn of a live game. |
| SinglePlayer.AiReplyKeepsValid | frontend/src/components/SinglePlayerGame.js:97-121 | The reply callback keeps the invariant. |
| SinglePlayer.ResetKeepsValid | frontend/src/components/SinglePlayerGame.js:130-146 | resetGame and resetScore keep the invariant. |
| SinglePlayer.HumanMoveScores | frontend/src/components/SinglePlayerGame.js:68-84 | An accepted click whose board is won or full ends the game and sends no request. A win records the winner and credits it. A draw sets the draw flag and adds one draw. Any click raises at most one counter, and only when it ends the game. |
| SinglePlayer.AiReplyScores | frontend/src/components/SinglePlayerGame.js:104-118 | A reply that ends the game raises exactly one counter. Any other reply leaves the score alone. |
| SinglePlayer.WinBeatsDraw | frontend/src/components/SinglePlayerGame.js:65-77 | When the player's mark completes a line, the game is a win for "X" and not a draw, even on a full board. The player's counter goes up. |
| SinglePlayer.SinglePlayerGame.constructor | frontend/src/components/SinglePlayerGame.js:6-17 | The hooks start in the initial state. |
| SinglePlayer.SinglePlayerGame.MakeMove | frontend/src/components/SinglePlayerGame.js:56-89 | The setter calls of makeMove produce HumanMove's new state and request. |
| SinglePlayer.SinglePlayerGame.ReceiveAiMove | frontend/src/components/SinglePlayerGame.js:97-121 | The callback's setter calls produce AiReply's new state. |
| SinglePlayer.SinglePlayerGame.ResetGame | frontend/src/components/SinglePlayerGame.js:130-141 | The setters produce Reset's state. |
| SinglePlayer.SinglePlayerGame.ResetScore | frontend/src/components/SinglePlayerGame.js:143-146 | The setters produce ResetScores' state. |
| Legacy.Mark | script.js:74 | The mark written is never "-". |
| Legacy.Click | script.js:68-91 | A filled cell is ignored. On an empty cell the mark of the side to move is written. The outcome is a win exactly when that mark completes a line, and the page is cleared. It is a Cat's Game exactly when there is no line and this is the ninth mark, and the page is cleared. Otherwise it is a placement: the turn flips and the counter goes up. |
| Legacy.ClearedValid | script.js:15-22 | The cleared page satisfies the page invariant. |
| Legacy.ClickKeepsValid | script.js:74-88 | Every click keeps the invariant: the counter stays below 9 and counts the marks, "X" and "O" alternate starting with "X", and no line is left on the board. |
| Legacy.PlacedCounts | script.js:74-79 | Writing the mark for `turn` adds one to that mark's count and flips the parity. |
| Legacy.CounterCountsMarks | script.js:11-12 | Between clicks the counter equals the number of marks, and some cell is still "-". |
| Legacy.MarksAlternate | script.js:74-78 | On a valid page the mark written is "X" after an even number of marks and "O" after an odd number. |
| Legacy.NinthMarkWinIsWin | script.js:80-88 | A ninth mark that completes a line is reported as a win, not a Cat's Game. |
| Legacy.NinthMarkResets | script.js:80-88 | The ninth mark always ends the game and clears the page. |
| Legacy.LegacyPage.constructor | script.js:6-12 | The page starts cleared. |
| Legacy.LegacyPage.ResetGame | script.js:15-22 | The loop sets all nine cells to "-", then clears turn and counter. |
| Legacy.LegacyPage.CheckWinner | script.js:31-58 | True exactly when the given symbol fills one of the eight lines. |
| Legacy.LegacyPage.PlaceCellValue | script.js:68-91 | The handler produces Click's new state and outcome, and keeps the page invariant. |

## Left out

- I/O is not modelled: MongoDB, the websocket connection manager, FastAPI routing, HTTP, JSON, `uuid` and the React rendering. A handler's broadcast is returned as a value, and the generated room id is an input.
- `get_room`, `health_check` and the `created_at` timestamp are left out. They are reads and metadata with no game logic.
- The `MultiPlayerGame` component is not part of this model.
- The multiplayer server does not assign symbols to players and does not check who sends `make_move`. The model follows the code, so any connection may move for the side to move.
- The server has no "room full" error and no leave message. A third `join_room` is silently ignored. A repeated name is broadcast again without being listed twice.
- `reset_game` broadcasts even for an unknown room id, whose update matches no document. The model keeps that broadcast.
- An unknown difficulty does not produce an error: `get_ai_move` falls into its optimal branch, and so does the model.
- Python's `break` inside `minimax` leaves only the inner `for j` loop. After a cutoff the scan resumes at the next row. `MaxScan` and `MinScan` model exactly that. The model does not claim that the result equals textbook minimax.
- A second room document under an id already in use is not modelled: a lookup finds the first one, so `CreateRoom` keeps the existing room.
- A message that lacks a field raises a KeyError in the server and is not modelled.
- A `make_move` whose row or column is 3 or more, or -4 or less, raises an IndexError.
- A `make_move` whose row or column is -3 to -1 is accepted by the server, because Python wraps a negative index to index + 3. The move then lands on the wrapped cell.
- The model covers neither case: `Room.WellFormed` requires the row and column to be in 0..2.
- Board cells other than "-", "X" and "O" are not modelled.
- The AI reply callback writes "O" into the board captured when the request was sent, not the current board. The model keeps this, as the `sent` argument of `ReceiveAiMove`.
- A reply without a cell leaves `currentPlayer` at "O" and only drops the thinking flag, as the code does.
- The `catch` around the AI request is left out. It cannot catch errors raised inside the `setTimeout` callback, and a failed request leaves the component thinking.
- The reply delay (500, 1000 or 1500 ms) and the difficulty selector are left out.
- In `script.js`, the DOM is not modelled. A clicked cell is given as (row, col), a cell's empty `innerText` stands for its "-" entry, and the alerts are the `ClickOutcome` values. Colours, `printStatus` and the class-name parsing of row and column are left out.
