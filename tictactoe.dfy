/** The TicTacToe engine: the board, the player to move (X first), a move
    entered in two steps (row first, then column; -1 means "not entered
    yet"), and the handler that reacts to every line the player types. The
    text the engine writes to its widgets is replaced by a returned value
    that says which message the engine would show. */
module Engine {
  import opened Cells
  import opened Boards

  datatype Option<T> = None | Some(value: T)

  /** A line typed into the input field as far as the engine tells lines
      apart: the two commands, a decimal numeral, or any other text. */
  datatype Input = Go | End | Numeral(value: int) | Other

  const INT_MIN: int := -0x8000_0000
  const INT_MAX: int := 0x7fff_ffff

  /** Integer.parseInt: only a numeral that fits a 32-bit int parses; every
      other line, "go" and "end" among them, raises NumberFormatException. */
  function ParseInt(s: Input): (n: Option<int>)
    ensures n.Some? <==> s.Numeral? && INT_MIN <= s.value <= INT_MAX
    ensures n.Some? ==> n.value == s.value
  {
    match s
    case Numeral(v) => if INT_MIN <= v <= INT_MAX then Some(v) else None
    case _ => None
  }

  /** The message makeMove shows after a move. */
  datatype Report =
    | TurnOf(next: CellState)     // "Player <next>'s turn."
    | Wins(winner: CellState)     // "Player <winner> wins!"
    | Drawn                       // "Draw. "

  /** What actionPerformed did with one line of input. */
  datatype Response =
    | Restarted                   // "go" after the game ended: new game
    | Exited                      // "end" after the game ended: System.exit
    | ColumnPrompt                // a row was read: "Enter column 1, 2, or 3: "
    | Invalid                     // "Invalid move. Try again."
    | Moved(report: Report)       // a column completed a valid move
    | Ignored                     // row and column both already set

  /** The player who moves after `mover` has put a mark, leaving board g. */
  ghost function NextPlayer(g: Grid, mover: CellState): (next: CellState) {
    if GameOver(g, mover) then mover else ChangePlayer(mover)
  }

  /** The message makeMove shows after `mover` has put a mark, leaving
      board g. The win branch also asks whether the other player has a line. */
  ghost function Announcement(g: Grid, mover: CellState): (report: Report) {
    if !GameOver(g, mover) then TurnOf(ChangePlayer(mover))
    else if HasLine(g, mover) || HasLine(g, ChangePlayer(mover)) then Wins(mover)
    else Drawn
  }

  /** The turn passes exactly when the game goes on, and then to the other
      player; on a win or a draw the mover stays current. */
  lemma NextPlayerAlternates(g: Grid, mover: CellState)
    requires mover != EMPTY
    ensures NextPlayer(g, mover) != EMPTY
    ensures NextPlayer(g, mover) != mover <==> Status(g, mover) == CONTINUE
    ensures NextPlayer(g, mover) != mover ==> NextPlayer(g, mover) == ChangePlayer(mover)
  {
  }

  /** While the other player has no line, the defensive check of makeMove
      changes nothing: the engine announces a win exactly when the mover has
      a line, a draw exactly when the board is full without one. */
  lemma AnnouncementUnderInvariant(g: Grid, mover: CellState)
    requires mover != EMPTY && !HasLine(g, ChangePlayer(mover))
    ensures Announcement(g, mover).Wins? <==> Status(g, mover) == WIN
    ensures Announcement(g, mover) == Drawn <==> Status(g, mover) == DRAW
    ensures Announcement(g, mover).TurnOf? <==> Status(g, mover) == CONTINUE
  {
  }

  class TicTacToe {
    const board: Board
    var player: CellState
    var row: int
    var col: int

    ghost predicate Valid()
      reads this
    {
      board.Valid() && player != EMPTY
    }

    /** The board's nine cells in row-major order. */
    ghost function Snapshot(): (g: Grid)
      reads board.cells
      requires board.Valid()
    {
      board.Snapshot()
    }

    /** The player who is not to move has no line. Every reachable state
        has this property; it makes the defensive check of makeMove dead. */
    ghost predicate OtherHasNoLine()
      reads this, board.cells
      requires Valid()
    {
      !HasLine(Snapshot(), ChangePlayer(player))
    }

    /** A new game: empty board, X to move, no coordinate entered. */
    constructor ()
      ensures Valid() && fresh(board) && fresh(board.cells)
      ensures Snapshot() == EmptyGrid && player == X
      ensures row == -1 && col == -1 && !board.fullBoard
      ensures OtherHasNoLine()
    {
      board := new Board();
      player := X;
      row, col := -1, -1;
      new;
      ResetBoard();
      EmptyGridHasNoLine(O);
    }

    /** validMove: the entered row and column are in 1..3 and name an empty
        cell. */
    function ValidMove(): (ok: bool)
      reads this, board.cells
      requires Valid()
      ensures !(1 <= row <= 3 && 1 <= col <= 3) ==> !ok
      ensures 1 <= row <= 3 && 1 <= col <= 3 ==> (ok <==> Snapshot()[Index(row, col)] == EMPTY)
    {
      board.ValidMove(row, col)
    }

    /** getGameStatus: the status of the game for the current player. */
    method GetGameStatus() returns (state: GameState)
      requires Valid()
      modifies board`fullBoard
      ensures state == Status(Snapshot(), player)
      ensures board.fullBoard == if HasRowLine(Snapshot(), player) then old(board.fullBoard) else IsFull(Snapshot())
    {
      state := board.GameStatus(player);
    }

    /** invalidMove: forget the coordinates entered so far. */
    method InvalidMove()
      modifies this`row, this`col
      ensures row == -1 && col == -1
    {
      row, col := -1, -1;
    }

    /** resetBoard: empty every cell and forget the coordinates; the player
        to move is kept. */
    method ResetBoard()
      requires board.Valid()
      modifies this`row, this`col, board.cells
      ensures Snapshot() == EmptyGrid
      ensures row == -1 && col == -1 && player == old(player)
    {
      row, col := -1, -1;
      board.cells[0, 0], board.cells[0, 1], board.cells[0, 2] := EMPTY, EMPTY, EMPTY;
      board.cells[1, 0], board.cells[1, 1], board.cells[1, 2] := EMPTY, EMPTY, EMPTY;
      board.cells[2, 0], board.cells[2, 1], board.cells[2, 2] := EMPTY, EMPTY, EMPTY;
    }

    /** makeMove: write the current player's mark into the entered cell,
        forget the coordinates, then pass the turn if the game goes on. */
    method MakeMove() returns (report: Report)
      requires Valid() && ValidMove()
      modifies this`player, this`row, this`col, board`fullBoard, board.cells
      ensures Valid()
      ensures Snapshot() == old(Snapshot())[Index(old(row), old(col)) := old(player)]
      ensures row == -1 && col == -1
      ensures player == NextPlayer(Snapshot(), old(player))
      ensures report == Announcement(Snapshot(), old(player))
      ensures !HasRowLine(Snapshot(), old(player)) ==> board.fullBoard == IsFull(Snapshot())
      ensures old(OtherHasNoLine()) ==> OtherHasNoLine()
      // the defensive check of the other player never changes the message
      ensures old(OtherHasNoLine()) ==>
        (report.Wins? <==> Status(Snapshot(), old(player)) == WIN) &&
        (report == Drawn <==> Status(Snapshot(), old(player)) == DRAW)
    {
      ghost var before := Snapshot();
      ghost var mover := player;
      board.cells[row - 1, col - 1] := player;
      ghost var after := Snapshot();
      assert after == before[Index(old(row), old(col)) := mover];
      row, col := -1, -1;

      var status := GetGameStatus();
      assert status == Status(after, mover);
      if status == CONTINUE {
        player := ChangePlayer(player);
        report := TurnOf(player);
        ChangePlayerTwice(mover);
      } else {
        var again := GetGameStatus();
        var other := CONTINUE;
        if again != WIN {
          other := board.GameStatus(ChangePlayer(player));
        }
        assert again == WIN || other == WIN <==> HasLine(after, mover) || HasLine(after, ChangePlayer(mover));
        if again == WIN || other == WIN {
          report := Wins(player);
        } else {
          report := Drawn;
        }
        if !HasLine(before, ChangePlayer(mover)) {
          PlaceKeepsLineFree(before, Index(old(row), old(col)), mover, ChangePlayer(mover));
        }
      }
    }

    /** actionPerformed: react to one line of input. After a win or a draw
        "go" starts a new game and "end" exits; any other line is read as
        the row when none is entered yet, else as the column, and a column
        completes the move when the coordinates are valid. A line that does
        not parse, or completes an invalid move, forgets the coordinates. */
    method ActionPerformed(s: Input) returns (response: Response)
      requires Valid()
      modifies this`player, this`row, this`col, board`fullBoard, board.cells
      ensures Valid()
      // "go" once the game is over: new game, same player to move
      ensures old(GameOver(Snapshot(), player)) && s == Go ==>
        response == Restarted && Snapshot() == EmptyGrid &&
        player == old(player) && row == -1 && col == -1
      // "end" once the game is over: the process exits, nothing changes
      ensures old(GameOver(Snapshot(), player)) && s == End ==>
        response == Exited && Snapshot() == old(Snapshot()) &&
        player == old(player) && row == old(row) && col == old(col)
      // a line read as the row never touches the board or the player
      ensures !(old(GameOver(Snapshot(), player)) && (s == Go || s == End)) && old(row) == -1 ==>
        Snapshot() == old(Snapshot()) && player == old(player) &&
        match ParseInt(s)
        case None => response == Invalid && row == -1 && col == -1
        case Some(n) => response == ColumnPrompt && row == n && col == old(col)
      // a line read as the column: a move if it parses and is valid
      ensures !(old(GameOver(Snapshot(), player)) && (s == Go || s == End)) &&
              old(row) != -1 && old(col) == -1 ==>
        row == -1 && col == -1 &&
        match ParseInt(s)
        case None =>
          response == Invalid && Snapshot() == old(Snapshot()) && player == old(player)
        case Some(n) =>
          if old(board.ValidMove(row, n)) then
            Snapshot() == old(Snapshot())[Index(old(row), n) := old(player)] &&
            player == NextPlayer(Snapshot(), old(player)) &&
            response == Moved(Announcement(Snapshot(), old(player)))
          else
            response == Invalid && Snapshot() == old(Snapshot()) && player == old(player)
      // both coordinates already set: nothing happens
      ensures !(old(GameOver(Snapshot(), player)) && (s == Go || s == End)) &&
              old(row) != -1 && old(col) != -1 ==>
        response == Ignored && Snapshot() == old(Snapshot()) &&
        player == old(player) && row == old(row) && col == old(col)
      // the board changes only through a move or a restart
      ensures Snapshot() != old(Snapshot()) ==> response.Moved? || response == Restarted
      // the column is always forgotten again, so the last case never arises
      ensures old(col) == -1 ==> col == -1
      ensures old(OtherHasNoLine()) ==> OtherHasNoLine()
    {
      var status := GetGameStatus();
      var gameOver := status == WIN;
      if !gameOver {
        status := GetGameStatus();
        gameOver := status == DRAW;
      }
      assert gameOver == old(GameOver(Snapshot(), player));

      if gameOver && s == Go {
        ResetBoard();
        EmptyGridHasNoLine(ChangePlayer(player));
        response := Restarted;
      } else if gameOver && s == End {
        response := Exited;
      } else if row == -1 {
        var parsed := ParseInt(s);
        if parsed.None? {
          InvalidMove();
          return Invalid;
        }
        row := parsed.value;
        response := ColumnPrompt;
      } else if col == -1 {
        var parsed := ParseInt(s);
        if parsed.None? {
          InvalidMove();
          return Invalid;
        }
        col := parsed.value;
        if ValidMove() {
          var report := MakeMove();
          response := Moved(report);
        } else {
          InvalidMove();
          response := Invalid;
        }
      } else {
        response := Ignored;
      }
    }
  }
}
