# Tic-Tac-Toe Classic: the game logic as a Dafny model

The repository is a single React component for two-player tic-tac-toe on a
3x3 grid. Its logic is small: two scans over the eight winning lines
(`calculateWinner` and `calculateWinnerLine`), a draw test, and a turn state
machine made of the `squares` array and the `xIsNext` flag, changed by
`handleClick` and reset by `handleRestart`. The status line shows the
winner, a draw, or whose turn it is, in that order of priority.

This project models that logic with immutable values and pure functions:

- `board.dfy` (module `Board`): `Player` (X, O), `Cell` (`Empty` for
  App.js's `null`, `Filled(p)` for `"X"`/`"O"`), `Board` as a sequence of
  exactly nine cells, the empty board, `EveryFilled` (the `every(Boolean)`
  scan) and `Count`.
- `outcome.dfy` (module `Outcome`): the eight `Lines` in scan order, the
  scan test `Complete`, the order-free reference notions `OwnedBy` and
  `HasLine`, the two scans `CalculateWinner` / `CalculateWinnerLine` (each a
  recursion over the line number that mirrors the `for` loop), and the draw
  test `IsDraw`.
- `game.dfy` (module `Game`): `State(squares, xIsNext)`, `Initial`,
  `Click` (`handleClick`), `Restart` (`handleRestart`) and `StatusOf` (the
  status selection).
- `play.dfy` (module `Play`): `Run`, which applies a sequence of clicks,
  and the invariants every reachable state keeps.
- `scenarios.dfy` (module `Scenarios`): concrete positions and one whole
  game, with their outcomes proved from the model.

React's `useState` is replaced by passing the state explicitly: a click is
`Click(s, i)`, which returns the next state, and a restart is `Restart(s)`.

Three points about App.js that the model makes explicit:

- A click after a draw is ignored, although the guard at App.js:21 only
  tests for a winner and a filled cell, because a drawn board is full
  (`Game.ClickAfterDrawIsNoOp`).
- `handleClick` never checks the index. For an index outside 0..8,
  `squares[index]` is `undefined`, so the guard at App.js:21 lets the click
  through. The write at App.js:25 then lands outside the nine cells: an
  integer index of 9 or more grows the copied array, and a negative or
  fractional index sets a property that is not an array element, leaving
  `length` at 9. Either way App.js:27 still flips `xIsNext`, so the turn
  passes although no mark was placed on the nine cells. The model states
  the index range as a precondition of `Click` (`0 <= i < 9`); the board
  component only ever passes indices 0..8.
- Both scans return a single value for any board, even one on which both
  players own a line; such a board picks the owner of the line scanned
  first. Both players can own a line only on boards that play cannot
  reach (`Play.ReachableValid`).

## Model

| member | source | states |
|---|---|---|
| Board.EveryFilled | tic_tac_toe/src/App.js:16 | `squares.every(Boolean)` holds exactly when every cell is filled, which is exactly when no cell is empty |
| Outcome.WinnerFrom | tic_tac_toe/src/App.js:189-194 | the loop from line `k` on answers none iff no later line passes the test; otherwise the answer owns some line `j >= k` and no line between `k` and `j` passes the test |
| Outcome.CalculateWinner | tic_tac_toe/src/App.js:183-195 | the result is none iff neither player owns any of the eight lines; a returned player owns a line |
| Outcome.WinnerLineFrom | tic_tac_toe/src/App.js:207-213 | the line loop from `k` on answers none iff no later line passes the test; otherwise it answers the first line at or after `k` that passes |
| Outcome.CalculateWinnerLine | tic_tac_toe/src/App.js:201-214 | a returned line is one of the eight and passes the test; the result is none iff neither player owns a line |
| Outcome.WinnerLineAgrees | tic_tac_toe/src/App.js:183-214 | `calculateWinnerLine` is non-null exactly when `calculateWinner` is, and all three cells of the returned line hold the winner |
| Outcome.WinnerLineIsFirst | tic_tac_toe/src/App.js:207-212 | the returned line is complete and no line earlier in the list is complete |
| Outcome.WinnerIsSoleOwner | tic_tac_toe/src/App.js:189-194 | when only one player owns a line, that player is the winner whatever the scan order |
| Outcome.DrawCharacterisation | tic_tac_toe/src/App.js:15-16 | a draw holds iff no player owns a line and all nine cells are filled; a draw never comes with a winner or a winning line |
| Game.Click | tic_tac_toe/src/App.js:20-28 | a click on a filled cell, or once a player owns a line, returns the state unchanged; otherwise cell `i` gets the mover's mark, every other cell is kept and the turn flag flips |
| Game.Restart | tic_tac_toe/src/App.js:31-34 | from any state, the result has all nine cells empty and X to move |
| Game.StatusOf | tic_tac_toe/src/App.js:36-55 | the status is a win iff some player owns a line (and names an owner); a draw iff no line is owned and the board is full; a turn iff no line is owned and some cell is empty, naming X exactly when `xIsNext` |
| Game.ClickAfterDrawIsNoOp | tic_tac_toe/src/App.js:16-23 | a click after a draw leaves the state unchanged, although the guard only tests for a winner and a filled cell |
| Play.Run | tic_tac_toe/src/App.js:20-28 | along any sequence of clicks, a filled cell is never overwritten |
| Play.InitialValid | tic_tac_toe/src/App.js:11-13 | the start state has no marks of either player and satisfies the game invariant |
| Play.ClickPreservesValid | tic_tac_toe/src/App.js:20-28 | one click keeps the invariant: X has as many marks as O or one more, X moves iff the counts are equal, and at most one player owns a line |
| Play.RunPreservesValid | tic_tac_toe/src/App.js:20-28 | any sequence of clicks keeps the invariant |
| Play.ReachableValid | tic_tac_toe/src/App.js:11-28 | every state reached from the start by clicks satisfies the invariant |
| Play.ReachableWinnerIsOwner | tic_tac_toe/src/App.js:183-214 | in a reached state, a player who owns a line is the reported winner, and the reported line is owned by that player |
| Play.WonGameIsFinal | tic_tac_toe/src/App.js:21-23 | once some player owns a line, any further clicks leave the state unchanged |
| Play.DrawnGameIsFinal | tic_tac_toe/src/App.js:16-23 | once the game is drawn, any further clicks leave the state unchanged |
| Play.RestartIsValid | tic_tac_toe/src/App.js:31-34 | a restart from any state gives the start of a game, which satisfies the invariant again |
| Scenarios.EmptyBoardIsOpen | tic_tac_toe/src/App.js:11-16 | the empty board has no winner, is not a draw, and the status shows X to move |
| Scenarios.TopRowWins | tic_tac_toe/src/App.js:183-214 | X on the top row of `[X,X,X,O,O,_,_,_,_]` wins with line `[0,1,2]` |
| Scenarios.FullBoardDraw | tic_tac_toe/src/App.js:15-16 | the full board `[X,O,X,O,X,O,O,X,O]` has no winner and is a draw |
| Scenarios.OpenClick | tic_tac_toe/src/App.js:24-27 | on a board where no line is complete, a click on an empty cell writes the mover's mark and passes the turn |
| Scenarios.DiagonalGameRun | tic_tac_toe/src/App.js:20-28 | clicks 0, 1, 4, 2, 8 from the start reach the position with X on the main diagonal |
| Scenarios.DiagonalGameOutcome | tic_tac_toe/src/App.js:183-214 | in that position X wins with line `[0,4,8]`, the status shows the win, and a further click on cell 0 changes nothing |

## Left out

- The JSX markup, inline styles, the `<style>` block and the navigation bar (App.js lines 36-146 apart from the status choice): presentation only.
- The `TicTacToeBoard` component: its `disabled` flag repeats the guard of `handleClick` (filled cell or winner), and its highlight reads `calculateWinnerLine`; neither adds logic beyond what `Click` and `CalculateWinnerLine` model.
- The text and colours of the status line: `StatusOf` returns which of the three messages is shown and the player it names, not the rendered string.
- React's `useState` and re-rendering: state is passed explicitly, and the winner the click handler sees is recomputed from the state passed in, as a render would do.
- Game.Click: an out-of-range index is excluded by the precondition `0 <= i < 9`. `handleClick` would accept such a click: the mark lands outside the nine cells (an integer index of 9 or more grows the array; a negative or fractional index sets a non-element property and `length` stays 9), and App.js:27 still flips `xIsNext`. Such a click breaks the count/turn relation `Play.Balanced`, so `Play.ReachableValid` holds only for clicks on cells 0..8.
