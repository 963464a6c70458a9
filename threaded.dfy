/** The ThreadedTicTacToe engine: the same board checks as TicTacToe, a
    board that starts with an X in the centre, a move that takes its
    coordinates as arguments, and runTests, whose board set-ups and expected
    statuses are the test vectors of the game rules. */
module ThreadedEngine {
  import opened Cells
  import opened Boards

  /** The board emptyBoard leaves: every cell empty except the centre, X. */
  const CentreX: Grid := [EMPTY, EMPTY, EMPTY, EMPTY, X, EMPTY, EMPTY, EMPTY, EMPTY]

  /** The full board of the draw test: O O X / X X O / O O X. */
  const DrawFixture: Grid := [O, O, X, X, X, O, O, O, X]

  /** The same board with the centre empty, from the "not over" test. */
  const ContinueFixture: Grid := [O, O, X, X, EMPTY, O, O, O, X]

  /** A top row of p is a win for p, whatever the other cells hold. */
  lemma TopRowWins(g: Grid, p: CellState)
    requires g[0] == p && g[1] == p && g[2] == p
    ensures Status(g, p) == WIN
  {
    assert RowFilled(g, 0, p);
  }

  /** O O X / X X O / O O X is a draw for X: full, and no line of X. */
  lemma DrawFixtureIsDraw()
    ensures Status(DrawFixture, X) == DRAW
  {
    RowScan(DrawFixture, X); ColScan(DrawFixture, X); DiagScan(DrawFixture, X);
  }

  /** The same board with an empty centre goes on for X: no line of X and
      an empty cell. */
  lemma ContinueFixtureContinues()
    ensures Status(ContinueFixture, X) == CONTINUE
  {
    RowScan(ContinueFixture, X); ColScan(ContinueFixture, X); DiagScan(ContinueFixture, X);
    assert ContinueFixture[4] == EMPTY;
  }

  class ThreadedTicTacToe {
    const board: Board
    var player: CellState

    ghost predicate Valid()
      reads this
    {
      board.Valid() && player != EMPTY
    }

    /** A new engine: the emptyBoard board, O as the current player. */
    constructor ()
      ensures Valid() && fresh(board) && fresh(board.cells)
      ensures board.Snapshot() == CentreX && player == O && !board.fullBoard
    {
      board := new Board();
      player := O;
      new;
      EmptyBoard();
    }

    /** emptyBoard: every cell empty except the centre, which gets an X. */
    method EmptyBoard()
      requires board.Valid()
      modifies board.cells
      ensures board.Snapshot() == CentreX
    {
      board.cells[0, 0], board.cells[0, 1], board.cells[0, 2] := EMPTY, EMPTY, EMPTY;
      board.cells[1, 0], board.cells[1, 1], board.cells[1, 2] := EMPTY, X, EMPTY;
      board.cells[2, 0], board.cells[2, 1], board.cells[2, 2] := EMPTY, EMPTY, EMPTY;
    }

    /** makeMove: once validMove(row, col) holds, the mover's mark goes into
        exactly that cell. When it does not hold, the Java method re-reads
        the text field until it does; here the board is left alone and `placed`
        is false. */
    method MakeMove(mover: CellState, row: int, col: int) returns (placed: bool)
      requires board.Valid()
      modifies board.cells
      ensures placed == old(board.ValidMove(row, col))
      ensures placed ==> board.Snapshot() == old(board.Snapshot())[Index(row, col) := mover]
      ensures !placed ==> board.Snapshot() == old(board.Snapshot())
    {
      placed := board.ValidMove(row, col);
      if placed {
        board.cells[row - 1, col - 1] := mover;
      }
    }

    /** runTests: four validMove checks on the board as it stands, then
        three gameStatus checks on boards it sets up, one point each. The
        gameStatus checks always score; validMove(0, 1) and validMove(1, 4)
        are always rejected; the two checks that expect (3, 3) occupied and
        (2, 2) free score only when the board agrees, which the emptyBoard
        board does not, so a fresh engine scores 5 of 7. */
    method RunTests() returns (scoreTotal: int)
      requires board.Valid()
      modifies board`fullBoard, board.cells
      ensures scoreTotal == 5 + (if old(board.ValidMove(3, 3)) then 0 else 1)
                              + (if old(board.ValidMove(2, 2)) then 1 else 0)
      ensures old(board.Snapshot()) == CentreX ==> scoreTotal == 5
      ensures board.Snapshot() == ContinueFixture
      ensures !board.fullBoard
    {
      var player := X;
      scoreTotal := 0;

      if !board.ValidMove(0, 1) { scoreTotal := scoreTotal + 1; }
      if !board.ValidMove(1, 4) { scoreTotal := scoreTotal + 1; }
      if !board.ValidMove(3, 3) { scoreTotal := scoreTotal + 1; }
      if board.ValidMove(2, 2) { scoreTotal := scoreTotal + 1; }

      board.cells[0, 0], board.cells[0, 1], board.cells[0, 2] := player, player, player;
      TopRowWins(board.Snapshot(), player);
      var status := board.GameStatus(player);
      if status == WIN { scoreTotal := scoreTotal + 1; }

      board.cells[0, 0], board.cells[0, 1], board.cells[0, 2] := O, O, X;
      board.cells[1, 0], board.cells[1, 1], board.cells[1, 2] := X, X, O;
      board.cells[2, 0], board.cells[2, 1], board.cells[2, 2] := O, O, X;
      assert board.Snapshot() == DrawFixture;
      DrawFixtureIsDraw();
      status := board.GameStatus(player);
      if status == DRAW { scoreTotal := scoreTotal + 1; }

      board.cells[0, 0], board.cells[0, 1], board.cells[0, 2] := O, O, X;
      board.cells[1, 0], board.cells[1, 1], board.cells[1, 2] := X, EMPTY, O;
      board.cells[2, 0], board.cells[2, 1], board.cells[2, 2] := O, O, X;
      assert board.Snapshot() == ContinueFixture;
      ContinueFixtureContinues();
      status := board.GameStatus(player);
      if status == CONTINUE { scoreTotal := scoreTotal + 1; }
    }
  }
}
