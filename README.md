# Tic-tac-toe game logic (tic-react-toe), modelled in Dafny

The repository is a React tic-tac-toe game whose logic lives in one file, `src/index.js`. This
project models that logic and proves properties of it:

- **Win detector** (`calculateWinner`): scans eight fixed lines in a fixed order (three rows,
  three columns, two diagonals) and reports the first line whose three squares hold the same
  mark, with that mark. Otherwise it reports nothing. Modelled in `win_detector.dfy` in two
  forms. `CalculateWinner` is a function. `ScanForWinner` is the source's loop with its early
  return, proved to compute that function.
- **Game controller** (`Game`): the mutable state `history`, `stepNumber` and `xIsNext`, plus the
  two handlers `handleClick(i)` and `jumpTo(step)`. `game_component.dfy` holds a class with those
  three fields. Each handler is proved to perform a transition function on the state value
  (`Click`, `Jump` in `game_logic.dfy`). The lemmas about the game are stated over those
  functions. `Render` returns what `render` derives: the board rows, the winning line and the
  status.
- **Derived view data**: the status selection (`StatusOf`, with `Winner`, `Draw` and `Next`
  in place of the three strings). Also the board layout of `renderBoard` (`RenderBoard` in
  `board_view.dfy`), which puts square `3r + c` at row `r`, column `c`.

The central invariant is `Good`. A reachable state has a history that starts with the empty
board and grows one legal move at a time. For each move, the previous board had no winner, the
square was empty, the mover was X on even steps and O on odd ones, and the coordinates name the
square. The step lies inside the history, and `xIsNext` equals the parity of the step. From this
invariant the model derives:

- the mark counts at every step;
- a history of at most ten records;
- the meaning of the status line (a draw exactly when the board is full with no line complete);
- the fact that the reported winner is always the player who moved last.

`scenarios.dfy` plays concrete games on the class:

- a win down the first column, after which a further click is ignored;
- a jump back to the start after that win, followed by a new branch;
- a drawn game of nine moves;
- a last move that completes two lines at once (the top row and the diagonal 2-4-6), where the
  line handed to the board is the top row, the first complete line in scan order.

Two facts about the state that the model makes explicit:

- `xIsNext` is stored next to `stepNumber`. The invariant `Good` says it equals the step's parity,
  and `ClickPreservesGood` and `JumpPreservesGood` prove every handler keeps it so.
- The history holds at most ten records, the initial one plus nine moves; `ChainCounts` proves
  that bound.

## Model

| member | source | states |
|---|---|---|
| `Cells.EmptyBoard` | src/index.js:55 | the starting board has nine squares, all empty |
| `WinDetector.FirstWinningLine` | src/index.js:148-156 | the scan stops at the least line index, at or after the start, whose line qualifies; every line it passes over does not qualify; it returns the table length when none qualifies |
| `WinDetector.CalculateWinner` | src/index.js:137-158 | a reported win names a line of the table whose three squares are non-empty and equal, and the winner is the mark on them; no earlier line in the scan order qualifies; the result is null exactly when no line of the table is complete (`HasLine`, an independent statement of "some line is complete") |
| `WinDetector.ScanForWinner` | src/index.js:148-157 | the loop with early return over the line table returns exactly the first qualifying line and its mark, or null |
| `WinDetector.WinnerOwnsLine` | src/index.js:150-154 | a reported line is one of the eight table lines, and all three of its squares hold the winner's mark |
| `WinDetector.NoWinnerOnEmptyBoard` | src/index.js:138-157 | the all-empty initial board has no winner |
| `BoardView.RenderBoard` | src/index.js:32-43 | the nested loops with a running index produce 3 rows of 3 squares; the square at row r, column c carries index 3r+c and shows board square 3r+c |
| `BoardView.CoordinatesRoundTrip` | src/index.js:77-80 | for a square 0..8, the recorded row floor(i/3)+1 and column i%3+1 lie in 1..3 and name square i again |
| `BoardView.GridMatchesCoordinates` | src/index.js:78-79 | the square drawn at grid row r, column c records coordinates (r+1, c+1) when it is played |
| `GameLogic.InitialIsGood` | src/index.js:53-63 | the constructor's state (one empty-board record, step 0, X to move) satisfies the invariant; it shows the empty board with status "next player X" |
| `GameLogic.MoveCounts` | src/index.js:69-76 | writing the mover's mark on an empty square leaves one empty square fewer, adds one mark of the mover and leaves the other player's count unchanged |
| `GameLogic.CountsAt` | src/index.js:66-84 | in a legal history the board at step k holds 9-k empty squares, ceil(k/2) X marks and floor(k/2) O marks (by induction over the moves) |
| `GameLogic.ChainCounts` | src/index.js:66-84 | along any history the moves can build, the board at step k has 9-k empty squares, ceil(k/2) X and floor(k/2) O; the history never exceeds ten records |
| `GameLogic.ClickPreservesGood` | src/index.js:66-84 | handleClick keeps the invariant: legal history, step within it, xIsNext equal to step parity |
| `GameLogic.JumpPreservesGood` | src/index.js:87-92 | jumpTo to any listed step keeps the invariant, with xIsNext recomputed from parity |
| `GameLogic.ClickNoOpIffBlocked` | src/index.js:67-72 | a click leaves history, stepNumber and xIsNext unchanged exactly when the displayed board has a winner or the square is occupied |
| `GameLogic.ClickEffect` | src/index.js:67-84 | an accepted click yields the old history cut to stepNumber+1 records plus one record, and moves the step onto that record (old step + 1); it flips the player; the new board equals the old one except square i, which was empty and now holds X on even steps and O on odd ones; the record's coordinates are in 1..3 and name square i |
| `GameLogic.JumpEffect` | src/index.js:87-96 | jumpTo sets the step, leaves history unchanged, gives the turn by parity, and the displayed board is the one recorded at that step |
| `GameLogic.JumpToStartRestores` | src/index.js:87-92 | jumping to step 0 always shows the empty board with X to move |
| `GameLogic.JumpThenClickBranches` | src/index.js:67-92 | jumping to any step k of a reachable state keeps the invariant; a move accepted there keeps records 0..k, discards the later ones and appends the step-k board plus the mark of the player whose turn step k is |
| `GameLogic.WinnerIsLastMover` | src/index.js:110-112 | in a reachable state, the winner shown is the player who made the last move, and there has been at least one move |
| `GameLogic.StatusMeaning` | src/index.js:110-117 | the status is "winner" exactly when some line is complete. It is "draw" exactly when no line is complete and the board is full. Otherwise it is "next player", and that player is X exactly when X and O have placed equally many marks |
| `GameLogic.Play` | src/index.js:66-84 | every sequence of clicks on squares 0..8 from a new game reaches a state satisfying the invariant |
| `GameLogic.PlayCounts` | src/index.js:74-82 | after N clicks from a new game, each accepted when made, the history holds N+1 records and the step is N; no game accepts more than nine moves |
| `GameComponent.Game.constructor` | src/index.js:51-64 | a new component holds the initial state and satisfies the invariant |
| `GameComponent.Game.HandleClick` | src/index.js:66-85 | the handler performs Click on the state and keeps the invariant. A blocked click changes none of the three fields. Otherwise the history becomes the old history cut at the step plus the record with the board marked for the player to move and coordinates (i/3+1, i%3+1); the step becomes the new last index and xIsNext flips |
| `GameComponent.Game.JumpTo` | src/index.js:87-92 | the handler performs Jump: step set, xIsNext equal to the step's parity, history unchanged, invariant kept |
| `GameComponent.Game.Render` | src/index.js:94-124 | the status is the one selected in order (winner, then draw at step 9, then next player). The line passed to the board is exactly the line calculateWinner reports for the current board (the first complete line in scan order), or none; it is present exactly when there is a winner, and it is a complete line of the winner's mark. The rows hand square 3r+c of the current board to row r, column c |

## Left out

- The markup: the `Square` component, the JSX, the button class names and the highlighting of the winning squares. These are view output.
- The `Move` component: the "Go to move #k (row, column)" label and the bold current entry are presentation only. The coordinates they print are the recorded ones, which `ClickEffect` covers.
- The status strings ("Winner: X", "Draw!", "Next player: O"). They are modelled as the `Status` datatype with one case per string.
- `ReactDOM.render`, the DOM mount and the stylesheet import. These are host I/O.
- React's asynchronous `setState`: each handler is modelled as one atomic update of the state.
- `Math.floor`: the coordinates are `Math.floor(i / 3) + 1` and `Math.floor(i % 3) + 1`. For 0 <= i, flooring the JavaScript quotient `i / 3` gives Dafny's integer `i / 3`, and `i % 3` is already an integer equal to Dafny's `i % 3`. So no floating point is modelled.
- The copied board (`slice()` followed by an in-place write) is modelled as an immutable sequence updated at one index. `slice()` makes a fresh copy, so no aliasing between history records is lost.
- GameComponent.Game.HandleClick: requires a square index 0..8, because the board only dispatches those indices. The JavaScript behaviour for other indices is not modelled.
- GameComponent.Game.JumpTo: requires a step inside the history, because the move list only offers those steps. The JavaScript behaviour for other steps is not modelled.
