/** The board both engines own: a fixed 3x3 array of cells and the cached
    "board is full" flag that the row scan refreshes as a side effect. The
    checks here are the ones TicTacToe and ThreadedTicTacToe each define,
    written once. */
module Boards {
  import opened Cells

  class Board {
    const cells: array2<CellState>
    /** Cache written by RowCheck and read by GameStatus. */
    var fullBoard: bool

    ghost predicate Valid() {
      cells.Length0 == 3 && cells.Length1 == 3
    }

    /** A fresh board; the engines' constructors fill in the cells. */
    constructor ()
      ensures Valid() && fresh(cells) && !fullBoard
    {
      cells := new CellState[3, 3]((r, c) => EMPTY);
      fullBoard := false;
    }

    /** The nine cells in row-major order (the cells array of printBoard). */
    function Snapshot(): (g: Grid)
      reads cells
      requires Valid()
    {
      [cells[0, 0], cells[0, 1], cells[0, 2],
       cells[1, 0], cells[1, 1], cells[1, 2],
       cells[2, 0], cells[2, 1], cells[2, 2]]
    }

    /** validMove: the 1-indexed coordinates are on the board and name an
        empty cell. */
    function ValidMove(row: int, col: int): (ok: bool)
      reads cells
      requires Valid()
      ensures !(1 <= row <= 3 && 1 <= col <= 3) ==> !ok
      ensures 1 <= row <= 3 && 1 <= col <= 3 ==> (ok <==> Snapshot()[Index(row, col)] == EMPTY)
    {
      if row <= 0 || row >= 4 then false
      else if col <= 0 || col >= 4 then false
      else cells[row - 1, col - 1] == EMPTY
    }

    /** rowCheck: WIN when a row holds three marks of p; otherwise it
        refreshes fullBoard and says CONTINUE. */
    method RowCheck(p: CellState) returns (state: GameState)
      requires Valid()
      modifies this`fullBoard
      ensures state != DRAW
      ensures state == WIN <==> HasRowLine(Snapshot(), p)
      ensures fullBoard == if state == WIN then old(fullBoard) else IsFull(Snapshot())
    {
      var row1 := [cells[0, 0], cells[0, 1], cells[0, 2]];
      var row2 := [cells[1, 0], cells[1, 1], cells[1, 2]];
      var row3 := [cells[2, 0], cells[2, 1], cells[2, 2]];
      RowScan(Snapshot(), p);
      if ThreeInARow(row1, p) || ThreeInARow(row2, p) || ThreeInARow(row3, p) {
        return WIN;
      }
      FullScan(Snapshot());
      fullBoard := !HasEmpty(row1) && !HasEmpty(row2) && !HasEmpty(row3);
      return CONTINUE;
    }

    /** colCheck: WIN exactly when a column holds three marks of p. */
    function ColCheck(p: CellState): (state: GameState)
      reads cells
      requires Valid()
      ensures state != DRAW
      ensures state == WIN <==> HasColLine(Snapshot(), p)
    {
      var col1 := [cells[0, 0], cells[1, 0], cells[2, 0]];
      var col2 := [cells[0, 1], cells[1, 1], cells[2, 1]];
      var col3 := [cells[0, 2], cells[1, 2], cells[2, 2]];
      ColScan(Snapshot(), p);
      if ThreeInARow(col1, p) || ThreeInARow(col2, p) || ThreeInARow(col3, p) then WIN
      else CONTINUE
    }

    /** diagCheck: WIN exactly when a diagonal holds three marks of p. */
    function DiagCheck(p: CellState): (state: GameState)
      reads cells
      requires Valid()
      ensures state != DRAW
      ensures state == WIN <==> HasDiagLine(Snapshot(), p)
    {
      var diag1 := [cells[0, 0], cells[1, 1], cells[2, 2]];
      var diag2 := [cells[0, 2], cells[1, 1], cells[2, 0]];
      DiagScan(Snapshot(), p);
      if ThreeInARow(diag1, p) || ThreeInARow(diag2, p) then WIN
      else CONTINUE
    }

    /** gameStatus: the status of the game for p. The row scan always runs
        first and refreshes fullBoard whenever no row wins, so the flag is
        current whenever it is read and the result depends on the cells
        alone, never on the flag's earlier value. */
    method GameStatus(p: CellState) returns (state: GameState)
      requires Valid()
      modifies this`fullBoard
      ensures state == Status(Snapshot(), p)
      ensures fullBoard == if HasRowLine(Snapshot(), p) then old(fullBoard) else IsFull(Snapshot())
    {
      var rows := RowCheck(p);
      if rows == WIN || ColCheck(p) == WIN || DiagCheck(p) == WIN {
        return WIN;
      }
      if fullBoard {
        return DRAW;
      }
      return CONTINUE;
    }
  }
}
