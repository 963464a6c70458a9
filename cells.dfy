/** Values shared by both tic-tac-toe engines: the state of a cell (which is
    also the mark of a player), the three game states, and the rules of the
    game stated over a row-major snapshot of the 3x3 board. */
module Cells {

  /** A board cell. X and O double as the two players. */
  datatype CellState = X | O | EMPTY

  /** The outcome of a status query for one player. */
  datatype GameState = WIN | DRAW | CONTINUE

  /** The nine cells of the board in row-major order, the order in which
      printBoard lists them. */
  type Grid = g: seq<CellState> | |g| == 9
    witness [EMPTY, EMPTY, EMPTY, EMPTY, EMPTY, EMPTY, EMPTY, EMPTY, EMPTY]

  const EmptyGrid: Grid := [EMPTY, EMPTY, EMPTY, EMPTY, EMPTY, EMPTY, EMPTY, EMPTY, EMPTY]

  /** The cell in 0-indexed row r and column c. */
  function At(g: Grid, r: int, c: int): (cell: CellState)
    requires 0 <= r < 3 && 0 <= c < 3
  {
    g[3 * r + c]
  }

  /** The cell in row i of the anti-diagonal (top right to bottom left). */
  function AntiDiagonal(g: Grid, i: int): (cell: CellState)
    requires 0 <= i < 3
  {
    At(g, i, 2 - i)
  }

  /** Position in the grid of the 1-indexed coordinates used by the engines. */
  function Index(row: int, col: int): (i: nat)
    requires 1 <= row <= 3 && 1 <= col <= 3
    ensures i < 9
  {
    3 * (row - 1) + (col - 1)
  }

  // ---------------------------------------------------------------------------
  // The rules, stated independently of how the engines scan the board.

  ghost predicate RowFilled(g: Grid, r: int, p: CellState)
    requires 0 <= r < 3
  {
    forall c :: 0 <= c < 3 ==> At(g, r, c) == p
  }

  ghost predicate ColFilled(g: Grid, c: int, p: CellState)
    requires 0 <= c < 3
  {
    forall r :: 0 <= r < 3 ==> At(g, r, c) == p
  }

  ghost predicate HasRowLine(g: Grid, p: CellState) {
    exists r :: 0 <= r < 3 && RowFilled(g, r, p)
  }

  ghost predicate HasColLine(g: Grid, p: CellState) {
    exists c :: 0 <= c < 3 && ColFilled(g, c, p)
  }

  ghost predicate HasDiagLine(g: Grid, p: CellState) {
    (forall i :: 0 <= i < 3 ==> At(g, i, i) == p) ||
    (forall i :: 0 <= i < 3 ==> AntiDiagonal(g, i) == p)
  }

  /** Some row, column or diagonal holds three marks of p. */
  ghost predicate HasLine(g: Grid, p: CellState) {
    HasRowLine(g, p) || HasColLine(g, p) || HasDiagLine(g, p)
  }

  /** No cell is empty. */
  ghost predicate IsFull(g: Grid) {
    EMPTY !in g
  }

  /** The status of the game as seen by player p: p has won, the board is
      full without a line of p, or play goes on. */
  ghost function Status(g: Grid, p: CellState): (state: GameState) {
    if HasLine(g, p) then WIN else if IsFull(g) then DRAW else CONTINUE
  }

  /** The game is over for p: a status query for p does not say CONTINUE. */
  ghost predicate GameOver(g: Grid, p: CellState) {
    HasLine(g, p) || IsFull(g)
  }

  // ---------------------------------------------------------------------------
  // The helpers both engines use on one row, column or diagonal.

  /** threeInARow: the first three cells of the line all hold p. */
  function ThreeInARow(line: seq<CellState>, p: CellState): (r: bool)
    requires |line| >= 3
    ensures r <==> multiset(line[..3])[p] == 3
  {
    assert line[..3] == [line[0], line[1], line[2]];
    line[0] == p && line[1] == p && line[2] == p
  }

  /** hasEmpty: one of the first three cells of the line is empty. */
  function HasEmpty(line: seq<CellState>): (r: bool)
    requires |line| >= 3
    ensures r <==> EMPTY in line[..3]
  {
    assert line[..3] == [line[0], line[1], line[2]];
    line[0] == EMPTY || line[1] == EMPTY || line[2] == EMPTY
  }

  /** changePlayer: X hands over to O; anything else (O, and EMPTY, which
      no caller passes) hands over to X. */
  function ChangePlayer(player: CellState): (next: CellState)
    ensures next != EMPTY
    ensures next == O <==> player == X
    ensures player != EMPTY ==> next != player
  {
    if player == X then O else X
  }

  lemma ChangePlayerTwice(player: CellState)
    requires player != EMPTY
    ensures ChangePlayer(ChangePlayer(player)) == player
  {
  }

  // ---------------------------------------------------------------------------
  // Facts about the rules.

  /** The three row scans of rowCheck find exactly the row lines. */
  lemma RowScan(g: Grid, p: CellState)
    ensures HasRowLine(g, p) <==>
      ThreeInARow([g[0], g[1], g[2]], p) ||
      ThreeInARow([g[3], g[4], g[5]], p) ||
      ThreeInARow([g[6], g[7], g[8]], p)
  {
    if g[0] == p && g[1] == p && g[2] == p { assert RowFilled(g, 0, p); }
    if g[3] == p && g[4] == p && g[5] == p { assert RowFilled(g, 1, p); }
    if g[6] == p && g[7] == p && g[8] == p { assert RowFilled(g, 2, p); }
    if HasRowLine(g, p) {
      var r :| 0 <= r < 3 && RowFilled(g, r, p);
      assert At(g, r, 0) == p && At(g, r, 1) == p && At(g, r, 2) == p;
    }
  }

  /** The three column scans of colCheck find exactly the column lines. */
  lemma ColScan(g: Grid, p: CellState)
    ensures HasColLine(g, p) <==>
      ThreeInARow([g[0], g[3], g[6]], p) ||
      ThreeInARow([g[1], g[4], g[7]], p) ||
      ThreeInARow([g[2], g[5], g[8]], p)
  {
    if g[0] == p && g[3] == p && g[6] == p { assert ColFilled(g, 0, p); }
    if g[1] == p && g[4] == p && g[7] == p { assert ColFilled(g, 1, p); }
    if g[2] == p && g[5] == p && g[8] == p { assert ColFilled(g, 2, p); }
    if HasColLine(g, p) {
      var c :| 0 <= c < 3 && ColFilled(g, c, p);
      assert At(g, 0, c) == p && At(g, 1, c) == p && At(g, 2, c) == p;
    }
  }

  /** The two diagonal scans of diagCheck find exactly the diagonal lines. */
  lemma DiagScan(g: Grid, p: CellState)
    ensures HasDiagLine(g, p) <==>
      ThreeInARow([g[0], g[4], g[8]], p) ||
      ThreeInARow([g[2], g[4], g[6]], p)
  {
    assert At(g, 0, 0) == g[0] && At(g, 1, 1) == g[4] && At(g, 2, 2) == g[8];
    assert AntiDiagonal(g, 0) == g[2] && AntiDiagonal(g, 1) == g[4] && AntiDiagonal(g, 2) == g[6];
  }

  /** The fullness test of rowCheck (no row has an empty cell) is IsFull. */
  lemma FullScan(g: Grid)
    ensures IsFull(g) <==>
      !HasEmpty([g[0], g[1], g[2]]) && !HasEmpty([g[3], g[4], g[5]]) && !HasEmpty([g[6], g[7], g[8]])
  {
  }

  /** A mark of p never completes a line of another player q: if q has no
      line, it still has none after p is written into any cell. */
  lemma PlaceKeepsLineFree(g: Grid, i: nat, p: CellState, q: CellState)
    requires i < 9 && p != q && !HasLine(g, q)
    ensures !HasLine(g[i := p], q)
  {
    var h: Grid := g[i := p];
    RowScan(g, q); ColScan(g, q); DiagScan(g, q);
    RowScan(h, q); ColScan(h, q); DiagScan(h, q);
  }

  /** The empty board has no line for anyone. */
  lemma EmptyGridHasNoLine(p: CellState)
    requires p != EMPTY
    ensures !HasLine(EmptyGrid, p) && !IsFull(EmptyGrid)
  {
    RowScan(EmptyGrid, p); ColScan(EmptyGrid, p); DiagScan(EmptyGrid, p);
  }
}
