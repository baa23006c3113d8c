# Reversi: board rules, minimax search and match loop in Dafny

This project models the core of a C++ Reversi (Othello) program and proves
properties of the model. The core has three parts:

- **The board** (`src/board.cpp`). This is an 8x8 grid of disks, indexed
  `[column][row]`. Dark is stored as +1, light as -1 and an empty square as 0.
  The model covers the starting position, `legal_move`, `legal_moves`,
  `game_over`, `disk_no`, `next_board` and `next_boards`.
- **The computer player** (`src/minimax.cpp`). It has three pieces:
  - `minimax_depth`, a negamax alpha-beta search with the forced-pass rule;
  - the root pass and iterative-deepening loop of `generic_minimax_actor`, and the
    `minimax_actor` wrapper;
  - the board evaluator `composite_heuristic` and its five sub-scores: corners,
    stability, disk parity, static square weights and mobility. These include the
    fixpoint computation `stable_disks` and the one-ply lookahead
    `semi_stable_disks`.
- **The match loop** `play_reversi` (`src/reversi.cpp`). It asks the two actors
  for moves and charges their time budgets. It forfeits an invalid move, passes
  the turn and decides the winner.

The model follows the form of the source.

- Loops are Dafny methods with loop invariants. Each method is proved equal to a
  specification function: ray walks, board scans, the flag-setting passes of the
  stability masks and the heuristic accumulators.
- The boards are values (`seq<seq<Disk>>`), as `Board` is copied by value in the
  source.
- `next_board` keeps the copy-then-write shape: a working copy of the board is
  updated square by square, and is proved equal to `NextBoard`.
- The search is stated over a ghost record `GameRules.Rules`. It holds the views
  `game_over`, `legal_moves`, `next_boards` and `next_board`. `IsReversi(g)` ties
  those views to the board functions, and `ReversiRules` is proved to satisfy it.
  This keeps the search proofs independent of the board proofs.

Files:

| file | what it holds |
|---|---|
| `sums.dfy` | sums over an 8x8 grid in the order of the source's nested loops |
| `board.dfy` | disks, moves, rays, captures, `NextBoard`, the scans, and the board methods |
| `rules.dfy` | the rules record the search and match loop consult |
| `stability.dfy` | `in_full_row`, `neighbours_stable`, `stable_disks` as a least fixpoint, `semi_stable_disks` |
| `evaluation.dfy` | the five sub-scores and `composite_heuristic` |
| `search.dfy` | `minimax_depth`, the root pass, iterative deepening, `minimax_actor` |
| `reversi.dfy` | `play_reversi` and the bound on the length of a game |

Where the code and its documentation differ, the model follows the code.

- `minimax_actor` takes three arguments in `src/minimax.cpp`, although
  `src/minimax.hpp` declares two.
- `tests/test_reversi.cpp` calls `play_reversi` with arguments that do not match
  its declaration, so it is not used as evidence of expected behaviour.

## Model

| member | source | states |
|---|---|---|
| Board.Opponent | src/minimax.cpp:35 | the opponent is the other colour, and its disk value is the negation |
| Board.SetSquare | src/board.cpp:131-132 | writing one square sets it and leaves every other square as it was |
| Board.DiskNoIsTally | src/board.cpp:93-105 | the number of disks is the dark count plus the light count |
| Board.DiskNoBounds | src/board.cpp:93-105 | disk_no lies between 0 and 64 |
| Board.DiskSumIsDifference | src/reversi.cpp:145-150 | the sum of disk values is the dark count minus the light count |
| Board.DirectionsAreAllSteps | src/board.cpp:35-40 | the direction loops visit exactly the eight unit steps, each once, skipping (0, 0) |
| Board.RayShape | src/board.cpp:45-48 | the walk from m along d starts next to m, moves one step at a time and stops where the next step leaves the board |
| Board.OriginNotOnRay | src/board.cpp:164 | a ray never returns to its origin, so the walk back stops at m |
| Board.RayFacts | src/board.cpp:35-48 | each of the eight rays from m is a ray in the above sense and avoids m |
| Board.OpponentRun | src/board.cpp:49-57 | the run of opponent disks at the start of a ray: its squares are opponent disks and the next square is not |
| Board.CapturedIffBrackets | src/board.cpp:49-64 | a ray captures something exactly when an opponent run is closed by a disk of p; the capture is the run before the closing disk |
| Board.CaptureFacts | src/board.cpp:150-176 | a direction captures exactly when its ray brackets; captured squares are on the board, differ from m and hold opponent disks |
| Board.FlipsAreCaptures | src/board.cpp:137-182 | the flipped squares are the union of the eight directions' captures, all opponent disks other than m |
| Board.FlipsIffBrackets | src/board.cpp:137-182 | something flips exactly when some direction's ray brackets |
| Board.NextBoardIffLegal | src/board.cpp:126-129 | next_board gives a board exactly when legal_move holds |
| Board.NextBoardSquares | src/board.cpp:131-188 | in the result, m and the flipped squares hold p and every other square is unchanged |
| Board.NextBoardEffect | src/board.cpp:158-170 | the target becomes p, each captured opponent disk becomes p, every uncaptured square other than m keeps its disk, and any changed square became p |
| Board.NextBoardCounts | src/board.cpp:132 | a move adds exactly one disk, the mover gains at least two and the opponent loses at least one |
| Board.ReplacesAddsOne | src/board.cpp:161-169 | placing on an empty square and flipping occupied ones adds exactly one disk |
| Board.ReplacesMoverGains | src/board.cpp:161-169 | the mover's count rises by at least two |
| Board.ReplacesOpponentLoses | src/board.cpp:161-169 | the opponent's count falls by at least one |
| Board.RowsScanMembers | src/board.cpp:79-81 | the row-major scan lists only on-board squares that pass the test |
| Board.RowsScanComplete | src/board.cpp:79-81 | the row-major scan lists every square that passes the test |
| Board.RowsScanSorted | src/board.cpp:79-80 | the row-major scan lists squares in strictly increasing (row, column) order |
| Board.ColumnsScanMembers | src/board.cpp:110-115 | the column-major scan lists only on-board moves, each with its board |
| Board.ColumnsScanComplete | src/board.cpp:110-115 | the column-major scan lists every move that has a board |
| Board.ColumnsScanSorted | src/board.cpp:110-111 | the column-major scan lists moves in strictly increasing (column, row) order |
| Board.LegalMovesSpec | src/board.cpp:76-86 | legal_moves holds exactly the on-board squares where legal_move holds |
| Board.LegalMovesOrder | src/board.cpp:79-80 | legal_moves is in row-major order without duplicates |
| Board.NextBoardsSpec | src/board.cpp:107-120 | each entry of next_boards is a legal move paired with its next_board result, and every legal move is listed |
| Board.NextBoardsOrder | src/board.cpp:110-111 | next_boards is in column-major order without duplicate moves |
| Board.ListedIsLegal | src/board.cpp:113-114 | a move listed by next_boards is on the board and legal |
| Board.SameMoves | src/board.cpp:76-120 | legal_moves and next_boards have the same moves, and one is empty exactly when the other is |
| Board.GameOverSpec | src/board.cpp:88-91 | the game is over exactly when no square is legal for dark or for light |
| Board.InitialDiskNo | src/board.cpp:5-14 | the starting position has four disks |
| Board.InitialTally | src/board.cpp:10-13 | the starting position has two disks of each colour |
| Board.NoCapture | src/board.cpp:49-64 | a walk that stops at an empty square, stops at the mover's own disk before any opponent disk, or runs off the board captures nothing |
| Board.BlockedNotLegal | src/board.cpp:25-74 | a square whose every ray is blocked is not legal |
| Board.StartCornerIllegal | tests/test_board.cpp:8 | (0, 0) is not legal for dark at the start |
| Board.StartDarkIllegal | tests/test_board.cpp:10 | (4, 2) is not legal for dark at the start |
| Board.StartLightIllegal | tests/test_board.cpp:11 | (3, 2) is not legal for light at the start |
| Board.StartDarkLegal | tests/test_board.cpp:13 | (3, 2) is legal for dark at the start |
| Board.StartLightLegal | tests/test_board.cpp:14 | (4, 2) is legal for light at the start |
| Board.StartLightNoBoard | tests/test_board.cpp:20 | next_board((3, 2), light) gives no board at the start |
| Board.StartDarkFlips | tests/test_board.cpp:22-24 | dark playing (3, 2) at the start flips (3, 3) |
| Board.StartDarkBoard | tests/test_board.cpp:22-24 | dark playing (3, 2) at the start gives a board with dark on [3][2] and [3][3] |
| Board.NewBoard | src/board.cpp:5-14 | the constructor builds the starting position: light on [3][3] and [4][4], dark on [4][3] and [3][4], the rest empty |
| Board.RayBrackets | src/board.cpp:42-68 | the ray walk of legal_move returns true exactly when the ray brackets |
| Board.LegalMove | src/board.cpp:25-74 | legal_move is false on an occupied square and otherwise true exactly when some direction brackets |
| Board.FlipBack | src/board.cpp:164-169 | the walk back sets every square from the closing disk back to m, m excluded, to p |
| Board.FlipRay | src/board.cpp:144-180 | one direction of next_board reports a flip exactly when that direction captures, and sets exactly the captured squares |
| Board.ClosedFlips | src/board.cpp:158-169 | rewriting the closing disk, which already is p, changes nothing beyond the capture |
| Board.FlipStep | src/board.cpp:137-182 | each direction adds its captures to what the earlier directions set |
| Board.ComputeNextBoard | src/board.cpp:122-189 | next_board computes NextBoard: none on an occupied square or when nothing flips, else the board with m and the flips set to p |
| Board.NextBoardFound | src/board.cpp:184-188 | after the eight directions the working copy is NextBoard's board when something flipped, and none is returned otherwise |
| Board.ListLegalMoves | src/board.cpp:76-86 | the nested loops of legal_moves build LegalMoves |
| Board.ScanRow | src/board.cpp:80-82 | the inner loop adds one row's legal squares in column order |
| Board.ListNextBoards | src/board.cpp:107-120 | the nested loops of next_boards build NextBoards |
| Board.ScanColumn | src/board.cpp:111-116 | the inner loop adds one column's moves and boards in row order |
| Board.CheckGameOver | src/board.cpp:88-91 | game_over computes GameOver |
| Board.CountDisks | src/board.cpp:93-105 | disk_no counts the occupied squares |
| Board.DiskDifference | src/reversi.cpp:145-150 | the disk_diff loop sums the disk values |
| GameRules.RulesAreReversi | src/board.cpp:76-189 | the board's own functions are rules of reversi |
| GameRules.OverIffStuck | src/board.cpp:88-91 | under reversi rules the game is over exactly when neither side has a move |
| GameRules.NextIffLegal | src/board.cpp:122-189 | under reversi rules a move is played exactly when it is on the board and legal |
| GameRules.NextAddsDisk | src/board.cpp:132 | a move played under reversi rules adds one disk |
| GameRules.IsOver | src/board.cpp:88-91 | the game_over call yields the rules' view |
| GameRules.Children | src/board.cpp:107-120 | the next_boards call yields the rules' view |
| GameRules.Moves | src/board.cpp:76-86 | the legal_moves call yields the rules' view |
| GameRules.Apply | src/reversi.cpp:127 | the next_board call yields the rules' view |
| Stability.IsEdgeIsOffBoard | src/minimax.cpp:279-281 | is_edge holds exactly off the board |
| Stability.NeighboursStableMono | src/minimax.cpp:287-303 | more stable flags never make neighbours_stable false |
| Stability.StepLeast | src/minimax.cpp:326-335 | the promotion rule stays inside every closed mask containing its input |
| Stability.IterateCounts | src/minimax.cpp:323-336 | until the mask is closed, every round flags one more square |
| Stability.StableGridClosed | src/minimax.cpp:323-336 | the stable mask admits no further promotion |
| Stability.StableGridSeed | src/minimax.cpp:315-319 | the stable mask contains every full-row disk |
| Stability.StableGridOccupied | src/minimax.cpp:315-335 | the stable mask flags only occupied squares |
| Stability.StableGridLeast | src/minimax.cpp:309-339 | the stable mask is the least closed mask containing the seed |
| Stability.ChangedIffFlipped | src/minimax.cpp:213 | a move changes an occupied square exactly when it flips it |
| Stability.UntouchedIffNeverFlipped | src/minimax.cpp:209-217 | no board of next_boards(p) changes an occupied square exactly when no legal move of p flips it |
| Stability.SemiStableMeaning | src/minimax.cpp:192-222 | a square is semi-stable exactly when it is occupied and no legal move of either player flips it |
| Stability.FullRow | src/minimax.cpp:228-276 | in_full_row holds exactly when the column, the row and both diagonals through the square are full |
| Stability.NeighboursStableCheck | src/minimax.cpp:287-303 | the loop of neighbours_stable computes NeighboursStable |
| Stability.SeedMask | src/minimax.cpp:315-319 | the first loop of stable_disks sets every flag to in_full_row |
| Stability.StableColumn | src/minimax.cpp:327-334 | one column of a pass flags only stable occupied disks and grows the mask; with no change, no square of the column can be promoted |
| Stability.StablePass | src/minimax.cpp:324-335 | one pass grows the mask inside the stable mask, and a pass without change leaves it closed |
| Stability.StableDisks | src/minimax.cpp:309-339 | stable_disks returns the stable mask after at most 65 passes |
| Stability.ClearChanged | src/minimax.cpp:211-217 | one board clears exactly the occupied squares it changes |
| Stability.ClearAll | src/minimax.cpp:209-218 | the loop over next_boards keeps exactly the flags no board changes |
| Stability.ClearFlippable | src/minimax.cpp:209-218 | one player's pass keeps exactly the flags none of its boards change |
| Stability.OccupiedMask | src/minimax.cpp:201-205 | the first loop of semi_stable_disks flags exactly the occupied squares |
| Stability.ClearedBoth | src/minimax.cpp:208-221 | after the dark and the light pass the mask is the semi-stable mask |
| Stability.SemiStableDisks | src/minimax.cpp:196-222 | semi_stable_disks computes the semi-stable mask |
| Evaluation.RatioFacts | src/minimax.cpp:374-379 | a score player·(a−c)/(\|a\|+\|c\|), or 0, lies in [−1, 1]; it is antisymmetric in player, 0 when the denominator is 0, and follows the sign of player·(a−c) |
| Evaluation.RatioZeroIff | src/minimax.cpp:374-379 | such a score is 0 exactly when a equals c |
| Evaluation.RatioOfCounts | src/minimax.cpp:435-440 | for counts the score is player·(a−c)/(a+c), and 0 when both are 0 |
| Evaluation.CornerCounts | src/minimax.cpp:176-183 | corner_diff is dark corners minus light corners, and corners_captured is their sum |
| Evaluation.CornerScoreIsRatio | src/minimax.cpp:185-189 | corners_captured is the ratio score of the dark and light corner counts |
| Evaluation.CornersCaptured | src/minimax.cpp:167-190 | the loop over the four corners computes the corner score |
| Evaluation.ColourScores | src/minimax.cpp:405-420 | the accumulating loop sums the weights of dark and of light squares |
| Evaluation.ScoreRatio | src/minimax.cpp:422-427 | the final division computes the ratio score with its 0 fallback |
| Evaluation.StabilityHeuristic | src/minimax.cpp:342-380 | stability scores +1 for a stable disk and −1 for one that is not semi-stable, per colour, and returns their ratio |
| Evaluation.ParityIsRatio | src/minimax.cpp:383-392 | disk_parity is the ratio score of the dark and light counts |
| Evaluation.DiskParity | src/minimax.cpp:383-392 | disk_parity computes player·disk_sum/disk_no on a non-empty board |
| Evaluation.StaticHeuristic | src/minimax.cpp:395-428 | static_heuristic sums the fixed square weights per colour and returns their ratio |
| Evaluation.Mobility | src/minimax.cpp:431-441 | mobility is the ratio score of the two players' move counts |
| Evaluation.CornerScoreFacts | src/minimax.cpp:167-190 | the corner score lies in [−1, 1] and is antisymmetric |
| Evaluation.StabilityScoreFacts | src/minimax.cpp:342-380 | the stability score lies in [−1, 1] and is antisymmetric |
| Evaluation.ParityFacts | src/minimax.cpp:383-392 | disk parity lies in [−1, 1] and is antisymmetric |
| Evaluation.StaticScoreFacts | src/minimax.cpp:395-428 | the static score lies in [−1, 1] and is antisymmetric |
| Evaluation.MobilityScoreFacts | src/minimax.cpp:431-441 | mobility lies in [−1, 1] and is antisymmetric |
| Evaluation.CornerScoreZero | src/minimax.cpp:185-189 | the corner score is 0 when no corner is taken |
| Evaluation.MobilityScoreZero | src/minimax.cpp:435-440 | mobility is 0 when neither side can move |
| Evaluation.StaticScoreZero | src/minimax.cpp:422-427 | the static score is 0 when both weight sums are 0 |
| Evaluation.StabilityScoreZero | src/minimax.cpp:374-379 | the stability score is 0 when both stability sums are 0 |
| Evaluation.ParityZero | src/minimax.cpp:391 | disk parity is 0 exactly when both colours have as many disks |
| Evaluation.CombineBounds | src/minimax.cpp:159-162 | the 6/5/1/5/1 average over 18 of scores in [−1, 1] lies in [−1, 1] |
| Evaluation.CombineNegate | src/minimax.cpp:159-162 | negating every sub-score negates the average |
| Evaluation.OverflowUnreachable | src/minimax.cpp:156 | the branch for more disks than squares is never taken |
| Evaluation.CompositeCases | src/minimax.cpp:155-164 | composite_heuristic is disk parity once the game is over, and otherwise the weighted average |
| Evaluation.CompositeBounds | src/minimax.cpp:150-164 | composite_heuristic lies in [−1, 1] |
| Evaluation.CompositeAntisymmetry | tests/test_minimax.cpp:23 | composite_heuristic for dark is minus that for light |
| Evaluation.HeuristicFacts | tests/test_minimax.cpp:20-23 | the heuristic the search uses lies in [−1, 1], is antisymmetric and equals composite_heuristic on non-empty boards |
| Search.NegamaxBounds | src/minimax.cpp:60-64 | with a heuristic in [−1, 1] the plain negamax value lies in [−1, 1] |
| Search.BestOfUpper | src/minimax.cpp:43-45 | the best child value is at least −1 and at least every child's value |
| Search.MinimaxDepth | src/minimax.cpp:20-58 | minimax_depth returns the heuristic exactly at depth 0 or the end of the game, and otherwise at least alpha; for a window inside [−1, 1] it is at most alpha when the plain value is, equal to it strictly inside (alpha, beta), and at least beta when the plain value is; with an admissible heuristic it lies in [−1, 1] |
| Search.SearchChild | src/minimax.cpp:35-41 | a child is searched for the opponent with the negated window when the opponent can move, else for the same player with the same window; the result keeps the window promise for the child's plain value |
| Search.RootMoveFirstMax | src/minimax.cpp:109-133 | the root pass keeps its previous move when no value beats −1, else picks the first board of greatest value |
| Search.RootMoveFrom | src/minimax.cpp:125-128 | the root pass returns its previous move or a move of next_boards |
| Search.RootPass | src/minimax.cpp:105-133 | one root pass with window [−1, 1] and no cutoff picks the move RootMove describes |
| Search.LastDepthBounds | src/minimax.cpp:99-102 | the deepening loop runs depth 1, and no depth beyond the remaining moves after it |
| Search.ChainFrom | src/minimax.cpp:80 | every pass keeps the sentinel or a move of next_boards |
| Search.ActorLegal | src/minimax.cpp:68-140 | the actor returns the sentinel or a legal move |
| Search.GenericMinimaxActor | src/minimax.cpp:68-140 | the actor returns legal_moves[0] on the opening board, and otherwise the move of the last completed pass |
| Search.ActorDeepens | src/minimax.cpp:88-139 | past the opening the actor's move is the move of the last pass the loop runs |
| Search.Deepen | src/minimax.cpp:98-137 | the deepening loop runs passes at depths 1, 2, … while the loop condition holds, each from the move of the one before |
| Search.CompositeAdmissible | src/minimax.cpp:150-153 | composite_heuristic meets the actor's demand that ratings lie in [−1, 1] |
| Search.MinimaxActor | src/minimax.cpp:145-148 | minimax_actor is the generic actor with composite_heuristic on the board's own rules |
| Reversi.InitialBoard | src/reversi.cpp:54 | the game starts from the starting position |
| Reversi.Forfeit | src/reversi.cpp:71-132 | a call over budget, an off-board move or an illegal move ends the game with the opponent as winner |
| Reversi.TurnRule | src/reversi.cpp:126-160 | after an accepted move the game goes on exactly when it is not over; the opponent moves next exactly when it has a move; the mover's budget is charged and the other budget is kept; at the end the winner is the sign of the disk sum |
| Reversi.ContinueAddsDisk | src/reversi.cpp:127-128 | a turn that goes on played a legal move, added one disk, and the next player has a move |
| Reversi.WinnerMeaning | src/reversi.cpp:145-159 | the winner is dark exactly when dark has more disks, light exactly when light has more, and none on a tie |
| Reversi.PlayUnfold | src/reversi.cpp:62-161 | one turn of the loop: a finished turn gives the winner after one call; otherwise the game continues from the next state with one more disk |
| Reversi.StartCanMove | src/reversi.cpp:54-60 | dark has a move in the starting position |
| Reversi.CallsBound | src/reversi.cpp:62-161 | a game from a state whose player can move makes at most as many actor calls as there are empty squares |
| Reversi.GameLength | src/reversi.cpp:62-161 | every game makes at most 60 actor calls |
| Reversi.PlayTurn | src/reversi.cpp:71-160 | the code after an actor call checks and charges the budget, applies the move and passes the turn as TakeTurn says |
| Reversi.Round | src/reversi.cpp:64-124 | one pass of the loop asks the current player's actor and takes the turn |
| Reversi.PlayReversi | src/reversi.cpp:51-162 | play_reversi returns the winner the turn rule gives after at most 60 actor calls |

## Left out

- Wall-clock timing: the model has no `steady_clock`.
  - The deepening loop's time test is a caller-supplied predicate `keepGoing(depth)`.
  - The duration of the n-th actor call in `play_reversi` is a caller-supplied `elapsed(n)`.
  - The per-turn time share that `generic_minimax_actor` computes from the budget is not modelled, because it feeds only the time test.
- IEEE-754 rounding: scores are exact `real` ratios of small integers.
- Printing: `operator<<`, the `verbose` output of `play_reversi`, and `Board::begin`/`end`. These are text I/O and iteration plumbing.
- `src/human.cpp`, `src/main.cpp` and `tests/test_reversi.cpp` are not part of this model.
- `Board` values are Dafny sequences; copying one is free. The `size_t` coordinates of a `Move` are `int`, and the sentinel `{-1, -1}` is `Move(-1, -1)` without the unsigned wrap-around.
- `neighbours_stable` stores its offsets in `size_t` and relies on wrap-around. The model uses `int` offsets with the same meaning.
- Reversi.TakeTurn: an off-board move makes the source index out of range. The model treats such a move as the invalid move it is, so the opponent wins.
- Evaluation.CompositeHeuristic: on the empty board, which no game reaches, `disk_parity` would divide by zero. The model rates that board 0. `Composite` itself requires `disk_no() > 0`.
- The stability masks and the heuristic accumulators are `seq` values that each loop reassigns, not in-place C arrays. The `for (Player player : {dark, light})` loop of `semi_stable_disks` is written as two calls, one per player.
- Search.MinimaxDepth: "at least alpha" is stated for nodes with depth > 0 that are not game over. At the leaves the source returns the heuristic value, which can be below alpha.
- The search and the match loop are stated over the ghost rules record. `IsReversi(g)` makes that record agree with the board's functions, and `MinimaxActor` instantiates it with `ReversiRules`.
- Reversi.PlayReversi: the loop state is a `State` record that each turn replaces, rather than four local variables updated in place.
