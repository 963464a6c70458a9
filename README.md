# Tic-tac-toe game engine in Dafny

This project models the game-state engine of a Swing tic-tac-toe program.
The program has two copies of the engine: `TicTacToe` and
`ThreadedTicTacToe`. Both keep a 3×3 board of `CellState` values (`X`, `O`,
`EMPTY`) and a cached flag, `fullBoard`. Both answer `gameStatus(player)`
with `WIN`, `DRAW` or `CONTINUE` by scanning the 3 rows, 3 columns and 2
diagonals.

`TicTacToe` also tracks the player to move (X first) and a move entered in
two steps. The row comes first, then the column, and -1 means "not entered
yet". Its `actionPerformed` handler reacts to every line typed into the
input field.

`ThreadedTicTacToe` starts from a board with an X in the centre, places a
mark given coordinates passed as arguments, and has a `runTests` routine.

Files and modules:

- `cells.dfy`, module `Cells`: the cell and game-state enumerations, and the
  board as a value. `Grid` holds the nine cells in row-major order.
  - The rules are stated independently of the scans: `HasLine`, `IsFull`
    and `Status`.
  - The helpers both engines share: `threeInARow`, `hasEmpty` and
    `changePlayer`.
  - Lemmas showing that the engines' hand-written scans of rows, columns,
    diagonals and fullness compute exactly those rules.
- `board.dfy`, module `Boards`: class `Board`.
  - It holds the `array2` of cells and the `fullBoard` flag.
  - It holds the checks that the two Java classes each define: `rowCheck`
    (a method, because it writes `fullBoard`), `colCheck`, `diagCheck` and
    `gameStatus`, which are identical in both classes, and
    `validMove(row, col)`.
  - `validMove` differs in signature. `ThreadedTicTacToe.validMove(row, col)`
    takes the coordinates as parameters. `TicTacToe.validMove()` has none
    and reads its `row` and `col` fields. The bodies match
    (src/TicTacToe.java:107-109 and src/ThreadedTicTacToe.java:172-174).
    `TicTacToe.ValidMove()` passes its fields to the shared check.
  - Both engines own one `Board`. `fullBoard` is a field of each engine in
    the Java program; it sits with the board here because only the board checks
    write or read it.
- `tictactoe.dfy`, module `Engine`: class `TicTacToe`.
  - Its fields are the board, `player`, `row` and `col`.
  - Its methods are `validMove`, `getGameStatus`, `invalidMove`,
    `resetBoard`, `makeMove` and `actionPerformed`.
  - `actionPerformed` takes already-classified input: `Go`, `End`, a
    numeral, or other text. `ParseInt` stands for `Integer.parseInt`.
  - Messages are not written to widgets. `MakeMove` returns a `Report`
    and `ActionPerformed` returns a `Response`; each names the message the
    engine would show. "Invalid move. Try again." appears only as
    `ActionPerformed`'s `Invalid` response. `InvalidMove` and `ResetBoard`
    return nothing.
- `threaded.dfy`, module `ThreadedEngine`: class `ThreadedTicTacToe`.
  - It models `emptyBoard`, which puts an X in the centre, as the code
    does.
  - It models the board write at the end of `makeMove`.
  - It models `runTests` as a method that returns its score.
  - It holds the three `runTests` boards as constants, with lemmas that give
    their status.

What the proofs establish, beyond each operation's contract:

- **The cached flag is never stale when read.**
  - `gameStatus` always runs the row scan first, and that scan refreshes
    `fullBoard` whenever no row wins.
  - So `gameStatus(p)` is `WIN` exactly when p has a line, `DRAW` exactly
    when p has no line and no cell is empty, and `CONTINUE` otherwise.
  - The result never depends on the flag's earlier value.
- **The defensive check in `makeMove` is dead in every reachable state.**
  - Every reachable state satisfies `OtherHasNoLine`: the player who is not
    to move has no line. `TicTacToe`'s constructor establishes it, and
    `MakeMove` and `ActionPerformed` keep it.
  - Under that invariant, `makeMove`'s extra check
    `gameStatus(changePlayer(player))` never changes the message.
- **The last branch of `actionPerformed` never runs.**
  - `col` is -1 again after every event. So the final branch, for both
    coordinates already set, cannot be reached from a fresh engine.
- **A fresh `ThreadedTicTacToe` scores 5 of 7 in `runTests`.**
  - The checks expecting `validMove(3, 3)` to be false and `validMove(2, 2)`
    to be true fail on the `emptyBoard` board. There the corner is empty and
    the centre holds an X.

Behaviour of the Java program that the model keeps as it is:

- The program has no terminal lock. After a win or a draw, any line other
  than "go" or "end" is still read as a row or a column.
  - After a win, moves go on with the same player.
  - After a draw the board is full, so the cell test of `validMove`
    (src/TicTacToe.java:109) fails for every column entry, and each entry
    ends in `invalidMove`.
- There is a single "invalid move" outcome. Text that does not parse, an
  out-of-range coordinate and an occupied cell all lead to the same
  outcome.
- The `fullBoard` cache is not a source of stale results. See above.

## Model

| member | source | states |
|---|---|---|
| `Cells.ThreeInARow` | src/TicTacToe.java:190-195 | true iff p occurs three times among the three cells of the line. `threeInARow` in src/ThreadedTicTacToe.java:255-260 is the same |
| `Cells.HasEmpty` | src/TicTacToe.java:197-202 | true iff EMPTY is among the three cells of the line. The threaded copy, src/ThreadedTicTacToe.java:262-267, is the same |
| `Cells.ChangePlayer` | src/TicTacToe.java:243-249 | never EMPTY; O exactly when the argument is X; differs from any non-EMPTY argument |
| `Cells.ChangePlayerTwice` | src/TicTacToe.java:244-249 | changing player twice gives X or O back |
| `Cells.RowScan` | src/TicTacToe.java:127-142 | the three `threeInARow` row tests together are true iff some row holds three marks of p |
| `Cells.ColScan` | src/TicTacToe.java:152-170 | the three column tests together are true iff some column holds three marks of p |
| `Cells.DiagScan` | src/TicTacToe.java:173-188 | the two diagonal tests together are true iff a diagonal holds three marks of p |
| `Cells.FullScan` | src/TicTacToe.java:144-146 | "no row has an empty cell" is exactly "the board is full" |
| `Cells.PlaceKeepsLineFree` | src/TicTacToe.java:252-253 | writing p's mark into any cell cannot give another player q a line that q did not have |
| `Cells.EmptyGridHasNoLine` | src/TicTacToe.java:235-241 | the reset board has no line for X or O and is not full |
| `Boards.Board.constructor` | src/TicTacToe.java:13-17 | a fresh 3×3 cell array, with `fullBoard` false |
| `Boards.Board.ValidMove` | src/ThreadedTicTacToe.java:170-175 | false whenever row or col is outside 1..3; otherwise true iff that cell, 1-indexed, is EMPTY |
| `Boards.Board.RowCheck` | src/TicTacToe.java:126-149 | WIN iff some row is all p, else CONTINUE, never DRAW; `fullBoard` is refreshed to "board is full" exactly when no row wins, and otherwise left as it was |
| `Boards.Board.ColCheck` | src/TicTacToe.java:151-170 | WIN iff some column is all p, else CONTINUE |
| `Boards.Board.DiagCheck` | src/TicTacToe.java:172-188 | WIN iff some diagonal is all p, else CONTINUE |
| `Boards.Board.GameStatus` | src/TicTacToe.java:112-124 | WIN iff p has a line; DRAW iff p has no line and the board is full; CONTINUE iff p has no line and a cell is empty. `fullBoard` ends equal to fullness unless a row of p wins |
| `Engine.ParseInt` | src/TicTacToe.java:42-48 | a value exactly for a numeral in the 32-bit int range, and then that numeral's value; "go", "end" and other text give none |
| `Engine.NextPlayerAlternates` | src/TicTacToe.java:257-261 | after a move the turn passes, to the other player, exactly when the mover's status is CONTINUE |
| `Engine.AnnouncementUnderInvariant` | src/TicTacToe.java:262-273 | when the other player has no line, "wins" is shown iff the mover's status is WIN, "Draw" iff it is DRAW, and a turn message iff it is CONTINUE |
| `Engine.TicTacToe.constructor` | src/TicTacToe.java:12-25 | empty board, X to move, row and col -1, `fullBoard` false; the other player has no line |
| `Engine.TicTacToe.ValidMove` | src/TicTacToe.java:105-110 | false whenever the entered row or col is outside 1..3; otherwise true iff the cell at (row-1, col-1) is EMPTY |
| `Engine.TicTacToe.GetGameStatus` | src/TicTacToe.java:215-218 | the status of the game for the current player; `fullBoard` is unchanged when a row of the player wins, and otherwise equals fullness |
| `Engine.TicTacToe.InvalidMove` | src/TicTacToe.java:220-225 | row and col become -1; board and player are untouched |
| `Engine.TicTacToe.ResetBoard` | src/TicTacToe.java:234-241 | all nine cells EMPTY, row and col -1, player unchanged |
| `Engine.TicTacToe.MakeMove` | src/TicTacToe.java:251-274 | exactly the entered cell gets the player's mark, the other 8 cells are unchanged, row and col become -1. The player switches iff the new status is CONTINUE, and otherwise still names the mover. The message is the turn, win or draw message, with the defensive check of the other player. The invariant "the other player has no line" is kept, and under it the win message is shown iff the mover's status is WIN and the draw message iff it is DRAW, so the defensive check never changes the message |
| `Engine.TicTacToe.ActionPerformed` | src/TicTacToe.java:27-68 | "go" after a win or draw resets the board and keeps the player. "end" ends the game and changes nothing. A row entry never changes the board or the player. A column entry changes the board only through `makeMove`, and only when `validMove` holds. Unparsable or invalid input forgets the coordinates and leaves board and player alone. `col` is -1 afterwards whenever it was -1 before. The "other player has no line" invariant is kept |
| `ThreadedEngine.TopRowWins` | src/ThreadedTicTacToe.java:118-121 | with p in all of row 1, the status for p is WIN |
| `ThreadedEngine.DrawFixtureIsDraw` | src/ThreadedTicTacToe.java:123-128 | O O X / X X O / O O X has status DRAW for X |
| `ThreadedEngine.ContinueFixtureContinues` | src/ThreadedTicTacToe.java:130-139 | the same board with the centre EMPTY has status CONTINUE for X |
| `ThreadedEngine.ThreadedTicTacToe.constructor` | src/ThreadedTicTacToe.java:41-47 | the board is the `emptyBoard` board; O is the current player, as set at line 9; `fullBoard` is false |
| `ThreadedEngine.ThreadedTicTacToe.EmptyBoard` | src/ThreadedTicTacToe.java:280-285 | every cell is EMPTY except the centre, which is X |
| `ThreadedEngine.ThreadedTicTacToe.MakeMove` | src/ThreadedTicTacToe.java:295-312 | when `validMove(row, col)` holds, exactly that cell gets the mover's mark; otherwise the board is unchanged |
| `ThreadedEngine.ThreadedTicTacToe.RunTests` | src/ThreadedTicTacToe.java:99-142 | the score is 5, plus 1 if (3,3) was not a valid move, plus 1 if (2,2) was. A fresh engine scores 5. The board ends as the "not over" board, with `fullBoard` false |

## Left out

- Swing widgets are not modelled: `printBoard` and its text block, `startGame`, `postGame`, `getCellText`, the prompts and every `gameOut`/`boardOut`/`playerIn` call. This is presentation only; the returned `Report` and `Response` values name the message shown instead.
- `System.exit(0)` on "end" becomes the `Exited` response with no state change. The end of the process is outside the model.
- `Integer.parseInt` is not modelled on text. Input arrives already classified as `Input`, and `ParseInt` gives its result, with the 32-bit range that Java's `int` imposes.
- `ThreadedTicTacToe`'s `run()` loop, with its `this.wait()` that nothing signals, and its `actionPerformed` are not modelled. They are concurrency and widget input.
- `getTextFieldInput` and `processInput` are not modelled: they only read the text field.
- `BoardGUI.java` is window construction and thread start, and is not modelled.
- `ThreadedEngine.ThreadedTicTacToe.MakeMove`: the retry loop that re-reads the text field until the move is valid is GUI input and is not modelled. An invalid move here leaves the board unchanged and returns `placed == false` instead.
- `ThreadedEngine.ThreadedTicTacToe.RunTests`: the printed per-test scores are left out. Only the total is returned.
- `Engine.TicTacToe.ActionPerformed`: the value of the cached `fullBoard` flag after the call is not stated. The flag is always refreshed before it is read (`Boards.Board.GameStatus`), so no result depends on it.
- `Engine.TicTacToe.MakeMove`: the flag's final value is stated only for the case where the mover has no row line.
