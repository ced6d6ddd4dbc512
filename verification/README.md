# Othello player: move selection

A Dafny model of the move-selection engine of an Othello player (`player.cpp`).
The engine never owns the game rules. It reads and advances boards through an
external `Board` class. Here that class is an abstract **position oracle**
(`Board.Oracle<B>`): a record of total functions over an arbitrary board
type `B`.

- `legal` models `checkMove`.
- `apply` models `copy()` followed by `doMove`, so it returns a fresh board.
- `occupied` models `get`.
- `countBlack` and `countWhite` model the piece counts.

The model covers five parts:

- **Move generator** (`MoveGen`). It scans the 64 cells row by row and
  column by column, keeping each cell the oracle accepts.
- **Evaluators** (`Evaluate`).
  - The positional evaluator applies the candidate move. It then takes the
    weighted sum of the fixed 8x8 table over the engine's cells, minus the
    same sum over the opponent's cells.
  - The material evaluator applies the move and returns black pieces minus
    white pieces.
- **Search** (`Search`). The two-ply minimax is one function, generic over
  the evaluator, so it covers both `miniMax` and `miniMaxNaive`. The module
  also holds the single-ply pick.
- **Player** (`Agent`). It covers side assignment and the turn driver.

The process-wide `my_side`/`opp_side` pair is an explicit
`Perspective(mine, theirs)` value. A pass, like a NULL `Move*`, is `None`.
Each loop nest of the original appears twice:

- as a pure definition, which the properties are stated against;
- as a method with the original's loops, proved equal to that definition.

Some behaviour of the code is easy to misread, and the model keeps it as
written:

- A candidate's two-ply value is the minimum of its own immediate score and
  the scores after each opponent reply (player.cpp:93-107). The immediate
  score is part of the minimum even when replies exist. It is not only a
  fallback for the no-reply case.
- The material evaluator always scores black minus white (player.cpp:204).
  Swapping the engine's side does not negate it, unlike the positional
  score.
- The final pick keeps the first index of maximal value, because the
  comparison is strict (player.cpp:111).

## Model

| member | source | states |
|---|---|---|
| MoveGen.PossibleMoves | player.cpp:161-172 | Defines the move list as the grid's cells filtered by `checkMove` for the side, in scan order; it never has more than 64 entries |
| MoveGen.GridIsScan | player.cpp:163-165 | The scan visits every on-board cell and only those, in strictly increasing row-major order |
| MoveGen.FilterKeeps | player.cpp:166-168 | Keeping the cells that `checkMove` accepts keeps exactly those cells, in their scan order, and never lengthens the list |
| MoveGen.PossibleMovesExact | player.cpp:161-172 | The generated list holds a cell exactly when it is on the board and legal for the side; it is in row-major order without repeats and has at most 64 entries |
| MoveGen.PossibleMovesScan | player.cpp:161-172 | The nested row/column loops build exactly the generator's list |
| MoveGen.ScanRowInto | player.cpp:164-169 | One pass of the inner loop extends the list collected so far by the legal cells of that row, in order |
| Evaluate.BoardValues | player.cpp:6-13 | Defines the fixed 8x8 weight table, indexed by row then column |
| Evaluate.Heuristic | player.cpp:179-195 | Defines the positional score of a candidate: the weighted sum over the engine's cells minus the opponent's, on the board after the move. Every such score lies within plus or minus 784 |
| Evaluate.NaiveHeuristic | player.cpp:200-205 | Defines the material score of a candidate: black pieces minus white pieces on the board after the move |
| Evaluate.HeuristicScan | player.cpp:179-195 | The evaluator's loop computes the table-weighted sum over the engine's cells minus that over the opponent's cells, both on the board after the candidate move |
| Evaluate.HeuristicSwapNegates | player.cpp:186-194 | Swapping the engine's and the opponent's sides on the same post-move board negates the positional score exactly |
| Evaluate.ScoreCellDelta | player.cpp:184-194 | Changing the pieces on one cell changes the score by that cell's weight for each piece the engine gains or the opponent loses, and by minus that weight for the converse |
| Evaluate.ScoreDependsOnlyOnOccupancy | player.cpp:184-193 | Two boards with the same pieces on every cell score the same |
| Evaluate.ScoreBounded | player.cpp:6-13 | Every positional score lies within plus or minus 784, the sum of the absolute table weights |
| Evaluate.AbsWeightTotal | player.cpp:6-13 | The absolute values of the weight table add up to 784 |
| Evaluate.NaiveBounded | player.cpp:200-205 | If the piece counts agree with the board's cells, the material score lies in [-64, 64] |
| Evaluate.MaterialIgnoresPerspective | player.cpp:200-205 | The material score is unchanged by swapping the engine's side, while the positional score is negated |
| Search.ReplyMin | player.cpp:100-107 | The reply loop's result is at most its starting value and at most every reply's score, and it equals the start or one of those scores |
| Search.CandidateValue | player.cpp:93-107 | A candidate's value is the minimum of its immediate score and the score after each legal opponent reply on the board it leads to |
| Search.ArgMaxFrom | player.cpp:109-114 | The selection loop, which moves only on a strictly greater value, ends on the first position holding the maximum |
| Search.FirstMaxIndex | player.cpp:109-114 | Selection from the start returns the first position of the maximum |
| Search.FirstMaxUnique | player.cpp:109-114 | At most one position can be the first maximum |
| Search.MiniMax | player.cpp:86-117 | Returns a pass exactly when the engine has no legal move. Otherwise it returns a legal move of greatest value, and every legal move earlier in row-major order has strictly smaller value |
| Search.MiniMaxUnique | player.cpp:109-115 | Any legal move of greatest value that beats every earlier legal move is the move the search returns |
| Search.MiniMaxSearch | player.cpp:86-117 | The original's loops, run in sequence, return exactly the minimax pick |
| Search.ImmediateValues | player.cpp:93-95 | The first loop gives each candidate its immediate score |
| Search.LowerToReplies | player.cpp:96-107 | The reply loop for one candidate ends on that candidate's two-ply value |
| Search.SelectHighest | player.cpp:109-114 | The selection loop ends on the first position holding the maximum |
| Search.LastAboveFirst | player.cpp:72-80 | The single-ply loop ends on 0 or on a position scoring above position 0, and nothing after it scores above position 0 |
| Search.SingleHeuristic | player.cpp:69-82 | Returns a pass exactly when there is no legal move. Otherwise it returns the first legal move or one that outscores it, and no later legal move outscores the first |
| Search.SingleHeuristicScan | player.cpp:69-82 | The original's single-ply loop, comparing every candidate with the first one, returns exactly the single-ply pick |
| Search.BestImmediate | player.cpp:66-82 | Returns a pass exactly when there is no legal move. Otherwise it returns the legal move of greatest immediate score, the first such in row-major order |
| Search.SingleHeuristicMissesBest | player.cpp:74-79 | With scores 0, 5, 3 the loop as written picks position 2, while the best is position 1 |
| Agent.FirstConstructionAssignsSides | player.cpp:4-5 | From the initial globals, one construction assigns the intended side pair |
| Agent.WhiteAfterBlackPlaysBlack | player.cpp:24-27 | A white player constructed after a black one is left playing black |
| Agent.PerspectiveFor | player.cpp:20-28 | A player of a side plays that side against the other one |
| Agent.NewPlayer | player.cpp:20-28 | A new player holds the starting position, plays its own side against the other one, and starts with the testing flag off |
| Agent.Strategy | player.cpp:51-58 | Defines the evaluator a turn's search runs with: material when the testing flag is set, positional otherwise |
| Agent.StrategySelects | player.cpp:51-58 | With the testing flag set the search scores black minus white; otherwise it scores positionally from the player's own side pair |
| Agent.DoMove | player.cpp:48-64 | A turn records the opponent's move (a pass changes nothing) and runs the minimax with the evaluator the flag selects. It passes exactly when the engine has no legal move. Otherwise it returns a legal move and records it on the player's board. Sides and flag are unchanged |
| Agent.DoublePassKeepsBoard | player.cpp:48-64 | If the opponent passed and the engine has no legal move, the turn passes and leaves the player unchanged |
| Agent.DoMoveScan | player.cpp:48-64 | The turn run with the looping search is the same turn |

## Left out

- The `Board` class (`checkMove`, `doMove`, `copy`, `get`, `countBlack`, `countWhite`): board.h and board.cpp are not part of this model. They become the oracle's functions, and the capture rule is not modelled.
- A pass on the board: `ApplyOpt` leaves the board unchanged for `None`. This is how the turn driver's call with a NULL opponent move is read, since `Board::doMove` is not part of this model.
- Illegal moves given to the evaluators: `apply` is total in the model, and the engine only passes moves that the generator produced.
- Memory: `new`-allocated `Move`/`Board` copies and their leaks become values.
- Timing: `msLeft` and `<chrono>` are never consulted.
- player.h: it only declares the class.
- Agent.NewPlayer: takes the starting position `start` as a parameter. It stands for the default `Board()` position, which board.cpp defines and which is not part of this model.
- Scenario checks on concrete positions (opening moves, trap positions): these depend on the capture rule, which is outside the model.
- Machine integers: scores are unbounded `int`. No C++ `int` overflow can occur, because positional scores stay within ±784 (`Evaluate.ScoreBounded`) and a candidate's value is one of those scores.
- Evaluate.NaiveBounded: assumes that the oracle's counts agree with its cells, because the counting code is in the `Board` class, which is not part of this model.
- The duplicate evaluator calls at player.cpp:101-105 and player.cpp:75-76 return the same value both times, because the evaluator is pure. Each is modelled as one call.
- The evaluator inside the looping search is the pure function. `Evaluate.HeuristicScan` separately proves the evaluator's own loop equal to it.

## Findings

| source | as written | input that shows it | evidently intended | confidence | as-written member | corrected member |
|---|---|---|---|---|---|---|
| player.cpp:74-79 | Each candidate is compared with the first candidate's score, not the best so far, so the pick is the last candidate that beats the first | Candidates scoring 0, 5, 3 in scan order: the third (3) is picked over the second (5) | Pick the candidate with the highest score, the first such on ties | high; not executed | Search.SingleHeuristic, Search.SingleHeuristicMissesBest | Search.BestImmediate |
| player.cpp:20-28 | The constructor writes the process-wide side pair only for a black player; a white player keeps whatever pair is already there | Construct a black player, then a white player, in one process: the white player scores and searches as black | Each player plays the side it was constructed with | medium (only matters when two players share a process); not executed | Agent.ConstructSidesAsWritten, Agent.WhiteAfterBlackPlaysBlack | Agent.PerspectiveFor |

The turn driver never calls `singleHeuristic`, so no other member uses either single-ply pick. Player construction (`Agent.NewPlayer`) uses the corrected side assignment.
