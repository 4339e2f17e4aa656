/*
 * The Tic-Tac-Toe board of the Command demo (Command/Board.cs and
 * Command/MoveCommand.cs). A cell holds 0 when empty, 1 for the player's
 * cross and 2 for the AI's nought. Every move made through the board is
 * recorded as a `MoveCommand`; executing the recorded commands in order on
 * a reset board replays the game. The static `Program.BoardInstance` the
 * commands act on is passed to them explicitly, and `Program.EndGame` is
 * the result of `EvaluateBoard`.
 */
module TicTacToe {

  /** The stored arguments of a move: cell `(x, y)` gets `value`. */
  datatype Move = Move(x: int, y: int, value: int)

  /** `(x, y)` indexes the 3 by 3 board. */
  predicate OnBoard(x: int, y: int) {
    0 <= x < 3 && 0 <= y < 3
  }

  /** The nine cells of an empty board. */
  const Empty: seq<int> := [0, 0, 0, 0, 0, 0, 0, 0, 0]

  /** What `DoMove` does to the cells, listed row by row: an occupied cell
      refuses the move, an empty one takes the value. */
  function Apply(cells: seq<int>, m: Move): (r: seq<int>)
    requires |cells| == 9 && OnBoard(m.x, m.y)
    ensures |r| == 9
    ensures r[3 * m.x + m.y] == if cells[3 * m.x + m.y] == 0 then m.value else cells[3 * m.x + m.y]
    ensures forall k :: 0 <= k < 9 && k != 3 * m.x + m.y ==> r[k] == cells[k]
  {
    var k := 3 * m.x + m.y;
    if cells[k] != 0 then cells else cells[k := m.value]
  }

  /** The cells after the moves `ms`, in order, starting from `cells`:
      an occupied cell keeps its value, and a cell that changed holds the
      value of a move aimed at it. */
  function ApplyAll(cells: seq<int>, ms: seq<Move>): (r: seq<int>)
    requires |cells| == 9 && forall i :: 0 <= i < |ms| ==> OnBoard(ms[i].x, ms[i].y)
    ensures |r| == 9
    ensures forall k :: 0 <= k < 9 && cells[k] != 0 ==> r[k] == cells[k]
    ensures forall k :: 0 <= k < 9 && r[k] != cells[k] ==>
      exists i :: 0 <= i < |ms| && 3 * ms[i].x + ms[i].y == k && r[k] == ms[i].value
  {
    if ms == [] then cells
    else
      var prev := ApplyAll(cells, ms[..|ms| - 1]);
      assert forall i :: 0 <= i < |ms| - 1 ==> ms[..|ms| - 1][i] == ms[i];
      Apply(prev, ms[|ms| - 1])
  }

  /** The eight lines of three cells, as indices into the cells listed row
      by row: three rows, three columns and two diagonals. */
  const Lines: seq<seq<int>> := [
    [0, 1, 2], [3, 4, 5], [6, 7, 8],
    [0, 3, 6], [1, 4, 7], [2, 5, 8],
    [0, 4, 8], [6, 4, 2]
  ]

  /** Some line of `cells` holds `value` three times. */
  predicate HasLine(cells: seq<int>, value: int)
    requires |cells| == 9
  {
    exists i :: 0 <= i < |Lines| && LineHolds(cells, Lines[i], value)
  }

  /** The three cells of `line` all hold `value`. */
  predicate LineHolds(cells: seq<int>, line: seq<int>, value: int)
    requires |cells| == 9 && |line| == 3 && forall j :: 0 <= j < 3 ==> 0 <= line[j] < 9
  {
    cells[line[0]] == value && cells[line[1]] == value && cells[line[2]] == value
  }

  /** `HasLine` line by line: the three rows, the three columns and the
      two diagonals, as the board checks them. */
  lemma LinesSpelledOut(cells: seq<int>, value: int)
    requires |cells| == 9
    ensures HasLine(cells, value) <==>
      (cells[0] == value && cells[1] == value && cells[2] == value) ||
      (cells[3] == value && cells[4] == value && cells[5] == value) ||
      (cells[6] == value && cells[7] == value && cells[8] == value) ||
      (cells[0] == value && cells[3] == value && cells[6] == value) ||
      (cells[1] == value && cells[4] == value && cells[7] == value) ||
      (cells[2] == value && cells[5] == value && cells[8] == value) ||
      (cells[0] == value && cells[4] == value && cells[8] == value) ||
      (cells[6] == value && cells[4] == value && cells[2] == value)
  {
    assert LineHolds(cells, Lines[0], value) <==> cells[0] == value && cells[1] == value && cells[2] == value;
    assert LineHolds(cells, Lines[1], value) <==> cells[3] == value && cells[4] == value && cells[5] == value;
    assert LineHolds(cells, Lines[2], value) <==> cells[6] == value && cells[7] == value && cells[8] == value;
    assert LineHolds(cells, Lines[3], value) <==> cells[0] == value && cells[3] == value && cells[6] == value;
    assert LineHolds(cells, Lines[4], value) <==> cells[1] == value && cells[4] == value && cells[7] == value;
    assert LineHolds(cells, Lines[5], value) <==> cells[2] == value && cells[5] == value && cells[8] == value;
    assert LineHolds(cells, Lines[6], value) <==> cells[0] == value && cells[4] == value && cells[8] == value;
    assert LineHolds(cells, Lines[7], value) <==> cells[6] == value && cells[4] == value && cells[2] == value;
  }

  /** A stored move. Its fields never change after construction. */
  class MoveCommand {
    const x: int
    const y: int
    const value: int

    constructor (x: int, y: int, value: int)
      ensures this.x == x && this.y == y && this.value == value
    {
      this.x := x;
      this.y := y;
      this.value := value;
    }

    /** The move this command stores. */
    function AsMove(): Move {
      Move(x, y, value)
    }

    /** `Execute`: the move goes through `DoMove` without being recorded. */
    method Execute(board: Board)
      requires board.Valid() && OnBoard(x, y)
      modifies board, board.state
      ensures board.Valid() && board.state == old(board.state)
      ensures board.Cells() == Apply(old(board.Cells()), AsMove())
      ensures board.replay == old(board.replay)
    {
      var ok := board.DoMove(x, y, value, true);
    }
  }

  /** The moves the commands `cs` store, in order. */
  function Moves(cs: seq<MoveCommand>): (ms: seq<Move>)
    ensures |ms| == |cs| && forall i :: 0 <= i < |cs| ==> ms[i] == cs[i].AsMove()
  {
    if cs == [] then [] else Moves(cs[..|cs| - 1]) + [cs[|cs| - 1].AsMove()]
  }

  class Board {
    /** `State`: the cells, `state[x, y]` for row `x` and column `y`. */
    var state: array2<int>
    /** `Replay`: the recorded moves, oldest first. */
    var replay: seq<MoveCommand>

    /** A 3 by 3 board whose recorded moves all lie on the board. */
    ghost predicate Valid()
      reads this
    {
      state.Length0 == 3 && state.Length1 == 3 &&
      forall i :: 0 <= i < |replay| ==> OnBoard(replay[i].x, replay[i].y)
    }

    /** The nine cells, row by row. */
    ghost function Cells(): (cells: seq<int>)
      requires Valid()
      reads this, state
      ensures |cells| == 9 && forall x, y :: OnBoard(x, y) ==> cells[3 * x + y] == state[x, y]
    {
      [state[0, 0], state[0, 1], state[0, 2],
       state[1, 0], state[1, 1], state[1, 2],
       state[2, 0], state[2, 1], state[2, 2]]
    }

    /** The board shows exactly what its recorded moves, replayed on an
        empty board, produce: true from construction on, as long as every
        move goes through `DoMove` with recording on. */
    ghost predicate Recorded()
      requires Valid()
      reads this, state
    {
      Cells() == ApplyAll(Empty, Moves(replay))
    }

    /** `new Board()`: all cells empty, nothing recorded. */
    constructor ()
      ensures Valid() && fresh(state) && replay == []
      ensures Cells() == Empty && Recorded()
    {
      state := new int[3, 3]((x, y) => 0);
      replay := [];
    }

    /** `Reset`: a new array of empty cells; the recorded moves stay. */
    method Reset()
      requires Valid()
      modifies this
      ensures Valid() && fresh(state) && replay == old(replay)
      ensures Cells() == Empty
    {
      state := new int[3, 3]((x, y) => 0);
    }

    /** `DoMove`: an occupied cell refuses the move and nothing changes;
        an empty one takes `value`, and unless `command` is set the move is
        recorded. The bounds checks in the source run after the cell has
        been read, so a cell off the board faults before them: the caller
        must stay on the board. */
    method DoMove(x: int, y: int, value: int, command: bool) returns (ok: bool)
      requires Valid() && OnBoard(x, y)
      modifies this, state
      ensures Valid() && state == old(state)
      ensures ok <==> old(state[x, y]) == 0
      ensures Cells() == Apply(old(Cells()), Move(x, y, value))
      ensures Moves(replay) == if ok && !command then old(Moves(replay)) + [Move(x, y, value)] else old(Moves(replay))
      ensures ok && !command ==> |replay| == |old(replay)| + 1 && replay[..|old(replay)|] == old(replay)
      ensures !(ok && !command) ==> replay == old(replay)
      ensures old(Recorded()) && !command ==> Recorded()
    {
      if state[x, y] != 0 {
        return false;
      }
      state[x, y] := value;
      if !command {
        var move := new MoveCommand(x, y, value);
        replay := replay + [move];
        assert replay[..|replay| - 1] == old(replay);
      }
      return true;
    }

    /** `GetSymbol`: 'X' for the player's 1, 'O' for the AI's 2, blank for
        anything else. */
    function GetSymbol(x: int, y: int): (c: char)
      requires Valid() && OnBoard(x, y)
      reads this, state
      ensures c == 'X' <==> state[x, y] == 1
      ensures c == 'O' <==> state[x, y] == 2
      ensures c == ' ' <==> state[x, y] != 1 && state[x, y] != 2
    {
      match state[x, y]
      case 1 => 'X'
      case 2 => 'O'
      case _ => ' '
    }

    /** `CheckRow`: row `x` holds `value` three times. */
    predicate CheckRow(x: int, value: int)
      requires Valid() && 0 <= x < 3
      reads this, state
      ensures CheckRow(x, value) <==> LineHolds(Cells(), Lines[x], value)
    {
      state[x, 0] == value && state[x, 1] == value && state[x, 2] == value
    }

    /** `CheckColumn`: column `y` holds `value` three times. */
    predicate CheckColumn(y: int, value: int)
      requires Valid() && 0 <= y < 3
      reads this, state
      ensures CheckColumn(y, value) <==> LineHolds(Cells(), Lines[3 + y], value)
    {
      state[0, y] == value && state[1, y] == value && state[2, y] == value
    }

    /** `CheckDiagonals`: either diagonal holds `value` three times. */
    predicate CheckDiagonals(value: int)
      requires Valid()
      reads this, state
      ensures CheckDiagonals(value) <==> LineHolds(Cells(), Lines[6], value) || LineHolds(Cells(), Lines[7], value)
    {
      (state[0, 0] == value && state[1, 1] == value && state[2, 2] == value) ||
      (state[2, 0] == value && state[1, 1] == value && state[0, 2] == value)
    }

    /** `CheckPlayerWin`: the rows, then the columns, then the diagonals.
        It finds a win exactly when one of the eight lines holds `value`
        three times. */
    predicate CheckPlayerWin(value: int)
      requires Valid()
      reads this, state
      ensures CheckPlayerWin(value) <==> HasLine(Cells(), value)
    {
      LinesSpelledOut(Cells(), value);
      CheckRow(0, value) || CheckRow(1, value) || CheckRow(2, value) ||
      CheckColumn(0, value) || CheckColumn(1, value) || CheckColumn(2, value) ||
      CheckDiagonals(value)
    }

    /** `FlattenState`: the cells copied, row by row, into a new array of
        nine. */
    method FlattenState() returns (flat: array<int>)
      requires Valid()
      ensures fresh(flat) && flat.Length == 9 && flat[..] == Cells()
    {
      flat := new int[state.Length0 * state.Length1];
      var counter := 0;
      var x := 0;
      while x < 3
        invariant 0 <= x <= 3 && counter == 3 * x
        invariant forall k :: 0 <= k < counter ==> flat[k] == Cells()[k]
      {
        var y := 0;
        while y < 3
          invariant 0 <= y <= 3 && counter == 3 * x + y
          invariant forall k :: 0 <= k < counter ==> flat[k] == Cells()[k]
        {
          flat[counter] := state[x, y];
          counter := counter + 1;
          y := y + 1;
        }
        x := x + 1;
      }
    }

    /** `EvaluateBoard`: the game ends when either player has a line or
        no cell is empty. */
    method EvaluateBoard() returns (gameOver: bool)
      requires Valid()
      ensures gameOver <==> HasLine(Cells(), 1) || HasLine(Cells(), 2) || 0 !in Cells()
    {
      if CheckPlayerWin(1) || CheckPlayerWin(2) {
        return true;
      }
      var flat := FlattenState();
      gameOver := true;
      var k := 0;
      while k < flat.Length
        invariant 0 <= k <= flat.Length
        invariant gameOver <==> 0 !in flat[..k]
      {
        if flat[k] == 0 {
          gameOver := false;
        }
        assert flat[..k + 1] == flat[..k] + [flat[k]];
        k := k + 1;
      }
      assert flat[..k] == flat[..];
    }
  }

  /** The replay at the end of the game (`Program.Replay` without its
      timer and printing): the board is reset, then every recorded command
      is executed in order. The board ends as its recorded moves produce
      from empty, so a board that had only ever moved through `DoMove`
      with recording on is restored as it was. */
  method Replay(board: Board)
    requires board.Valid()
    modifies board
    ensures board.Valid() && board.replay == old(board.replay)
    ensures board.Cells() == ApplyAll(Empty, Moves(board.replay))
    ensures old(board.Recorded()) ==> board.Cells() == old(board.Cells())
  {
    var commands := board.replay;
    board.Reset();
    ExecuteAll(board, commands);
  }

  /** The loop of the replay: the commands, executed in order on a board
      that starts empty and keeps them as its recording, leave the cells
      their moves produce from empty. */
  method ExecuteAll(board: Board, commands: seq<MoveCommand>)
    requires board.Valid() && board.replay == commands && board.Cells() == Empty
    modifies board, board.state
    ensures board.Valid() && board.replay == commands && board.state == old(board.state)
    ensures board.Cells() == ApplyAll(Empty, Moves(commands))
  {
    ghost var ms := Moves(commands);
    var i := 0;
    while i < |commands|
      invariant 0 <= i <= |commands| && board.Valid() && board.replay == commands && board.state == old(board.state)
      invariant board.Cells() == ApplyAll(Empty, ms[..i])
    {
      assert ms[..i + 1][..i] == ms[..i];
      commands[i].Execute(board);
      i := i + 1;
    }
    assert ms[..i] == ms;
  }
}
