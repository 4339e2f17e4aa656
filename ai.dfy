/*
 * The AI opponent of the Command demo (Command/AI.cs). It reads the board
 * cells (0 empty, 1 the player's cross, 2 its own nought) and picks a
 * square: one that wins, else one that blocks, else the centre, else a
 * random empty square. The line checks are kept exactly as written,
 * including the guards that compare with 1 where the opposing symbol was
 * meant, the middle-row guard that reads cell (2, 1) instead of (1, 2) and
 * the middle-column section that lists (1, 2) instead of (2, 1); the lemmas
 * at the end of the module show what these do to the AI's choices.
 */
module TicTacToeAI {

  /** A square `(row, column)`; `(-1, -1)` stands for "none found". */
  type Square = (int, int)

  const NoSquare: Square := (-1, -1)

  predicate OnBoard(sq: Square) {
    0 <= sq.0 < 3 && 0 <= sq.1 < 3
  }

  /** The position of `sq` when the squares are listed row by row. */
  function Index(sq: Square): int {
    3 * sq.0 + sq.1
  }

  /** The board the AI reads is 3 by 3. */
  predicate Is3x3(b: array2<int>) {
    b.Length0 == 3 && b.Length1 == 3
  }

  /** The empty squares among the first `k` squares, listed row by row. */
  function EmptyBefore(b: array2<int>, k: int): (empty: seq<Square>)
    requires Is3x3(b) && 0 <= k <= 9
    reads b
    ensures forall i :: 0 <= i < |empty| ==> OnBoard(empty[i]) && Index(empty[i]) < k && b[empty[i].0, empty[i].1] == 0
  {
    if k == 0 then []
    else EmptyBefore(b, k - 1) + if b[(k - 1) / 3, (k - 1) % 3] == 0 then [((k - 1) / 3, (k - 1) % 3)] else []
  }

  /** The list holds exactly the empty squares before position `k`, in
      strictly increasing row-by-row order. */
  lemma {:induction false} EmptyBeforeSpec(b: array2<int>, k: int)
    requires Is3x3(b) && 0 <= k <= 9
    ensures forall sq :: sq in EmptyBefore(b, k) <==> OnBoard(sq) && Index(sq) < k && b[sq.0, sq.1] == 0
    ensures forall i, j :: 0 <= i < j < |EmptyBefore(b, k)| ==> Index(EmptyBefore(b, k)[i]) < Index(EmptyBefore(b, k)[j])
  {
    if k > 0 {
      EmptyBeforeSpec(b, k - 1);
      var sq := ((k - 1) / 3, (k - 1) % 3);
      assert Index(sq) == k - 1;
      forall s | OnBoard(s) && Index(s) == k - 1
        ensures s == sq
      {
      }
    }
  }

  /** `GetEmptySquares`: the empty squares, found row by row. */
  method GetEmptySquares(b: array2<int>) returns (empty: seq<Square>)
    requires Is3x3(b)
    ensures empty == EmptyBefore(b, 9)
  {
    empty := [];
    var x := 0;
    while x < b.Length0
      invariant 0 <= x <= 3 && empty == EmptyBefore(b, 3 * x)
    {
      var y := 0;
      while y < b.Length1
        invariant 0 <= y <= 3 && empty == EmptyBefore(b, 3 * x + y)
      {
        assert (3 * x + y) / 3 == x && (3 * x + y) % 3 == y;
        if b[x, y] == 0 {
          empty := empty + [(x, y)];
        }
        y := y + 1;
      }
      x := x + 1;
    }
  }

  /** The symbol whose cells spoil a line for `symbol`. */
  function Opposing(symbol: int): (o: int)
    ensures o != symbol && (o == 1 || o == 2)
  {
    if symbol == 1 then 2 else 1
  }

  /** `CheckDiagonalForSymbol`: `move` completes a diagonal of `symbol`.
      Only corners can: an edge or the centre is refused, and so is any
      move while the centre holds the opposing symbol. */
  predicate CheckDiagonalForSymbol(move: Square, b: array2<int>, symbol: int)
    requires Is3x3(b)
    reads b
    ensures CheckDiagonalForSymbol(move, b, symbol) <==>
      move in {(0, 0), (0, 2), (2, 0), (2, 2)} && b[1, 1] == symbol && b[2 - move.0, 2 - move.1] == symbol
  {
    var opposing := Opposing(symbol);
    if move != (0, 0) && move != (0, 2) && move != (2, 0) && move != (2, 2) && move != (1, 1) then false
    else if b[1, 1] == opposing then false
    else if move == (0, 0) then b[1, 1] == symbol && b[2, 2] == symbol
    else if move == (0, 2) then b[1, 1] == symbol && b[2, 0] == symbol
    else if move == (2, 0) then b[1, 1] == symbol && b[0, 2] == symbol
    else if move == (2, 2) then b[1, 1] == symbol && b[0, 0] == symbol
    else false
  }

  /** One section of the row or column checks: when the move lies in the
      section, a spoiled line returns false and a completed line returns
      true; in every other case control falls through to `rest`. */
  function Section(inSection: bool, spoiled: bool, completes: bool, rest: bool): bool {
    if inSection then (if spoiled then false else if completes then true else rest) else rest
  }

  /** `CheckRowForSymbol`, as written: the top, middle and bottom sections
      in turn. Whatever the guards, a check that passes has `symbol` in the
      other two cells of the move's row. */
  predicate CheckRowForSymbol(move: Square, b: array2<int>, symbol: int)
    requires Is3x3(b)
    reads b
    ensures CheckRowForSymbol(move, b, symbol) ==>
      OnBoard(move) && forall y :: 0 <= y < 3 && y != move.1 ==> b[move.0, y] == symbol
  {
    var opposing := Opposing(symbol);
    Section(move == (0, 0) || move == (0, 1) || move == (0, 2),
      b[0, 0] == 1 || b[0, 1] == 1 || b[0, 2] == opposing,
      (move == (0, 0) && b[0, 1] == symbol && b[0, 2] == symbol) ||
      (move == (0, 1) && b[0, 0] == symbol && b[0, 2] == symbol) ||
      (move == (0, 2) && b[0, 0] == symbol && b[0, 1] == symbol),
    Section(move == (1, 0) || move == (1, 1) || move == (1, 2),
      b[1, 0] == 1 || b[1, 1] == 1 || b[2, 1] == opposing,
      (move == (1, 0) && b[1, 1] == symbol && b[1, 2] == symbol) ||
      (move == (1, 1) && b[1, 0] == symbol && b[1, 2] == symbol) ||
      (move == (1, 2) && b[1, 0] == symbol && b[1, 1] == symbol),
    Section(move == (2, 0) || move == (2, 1) || move == (2, 2),
      b[2, 0] == 1 || b[2, 1] == 1 || b[2, 2] == opposing,
      (move == (2, 0) && b[2, 1] == symbol && b[2, 2] == symbol) ||
      (move == (2, 1) && b[2, 0] == symbol && b[2, 2] == symbol) ||
      (move == (2, 2) && b[2, 0] == symbol && b[2, 1] == symbol),
    false)))
  }

  /** `CheckColumnnForSymbol`, as written: the left, middle and right
      sections in turn. A check that passes has `symbol` in the other two
      cells of the move's column. */
  predicate CheckColumnForSymbol(move: Square, b: array2<int>, symbol: int)
    requires Is3x3(b)
    reads b
    ensures CheckColumnForSymbol(move, b, symbol) ==>
      OnBoard(move) && forall x :: 0 <= x < 3 && x != move.0 ==> b[x, move.1] == symbol
  {
    var opposing := Opposing(symbol);
    Section(move == (0, 0) || move == (1, 0) || move == (2, 0),
      b[0, 0] == 1 || b[1, 0] == 1 || b[2, 0] == opposing,
      (move == (0, 0) && b[1, 0] == symbol && b[2, 0] == symbol) ||
      (move == (1, 0) && b[0, 0] == symbol && b[2, 0] == symbol) ||
      (move == (2, 0) && b[0, 0] == symbol && b[1, 0] == symbol),
    Section(move == (0, 1) || move == (1, 1) || move == (1, 2),
      b[0, 1] == 1 || b[1, 1] == 1 || b[2, 1] == opposing,
      (move == (0, 1) && b[1, 1] == symbol && b[2, 1] == symbol) ||
      (move == (1, 1) && b[0, 1] == symbol && b[2, 1] == symbol) ||
      (move == (2, 1) && b[0, 1] == symbol && b[1, 1] == symbol),
    Section(move == (0, 2) || move == (1, 2) || move == (2, 2),
      b[0, 2] == 1 || b[1, 2] == 1 || b[2, 2] == opposing,
      (move == (0, 2) && b[1, 2] == symbol && b[2, 2] == symbol) ||
      (move == (1, 2) && b[0, 2] == symbol && b[2, 2] == symbol) ||
      (move == (2, 2) && b[0, 2] == symbol && b[1, 2] == symbol),
    false)))
  }

  /** `CheckSquareForWinningMove` (symbol 2) and `CheckSquareForBlockingMove`
      (symbol 1): the diagonal, then the row, then the column check. A
      square that passes completes a row, a column or a diagonal of
      `symbol` through it. */
  predicate CheckSquareForSymbol(square: Square, b: array2<int>, symbol: int)
    requires Is3x3(b)
    reads b
    ensures CheckSquareForSymbol(square, b, symbol) ==>
      OnBoard(square) &&
      ((forall y :: 0 <= y < 3 && y != square.1 ==> b[square.0, y] == symbol) ||
       (forall x :: 0 <= x < 3 && x != square.0 ==> b[x, square.1] == symbol) ||
       (square.0 != 1 && square.1 != 1 && b[1, 1] == symbol && b[2 - square.0, 2 - square.1] == symbol))
  {
    CheckDiagonalForSymbol(square, b, symbol) || CheckRowForSymbol(square, b, symbol) ||
    CheckColumnForSymbol(square, b, symbol)
  }

  /** The first of `squares` that the check passes for `symbol`, or
      `NoSquare` when none does. */
  function FirstFor(squares: seq<Square>, b: array2<int>, symbol: int): (r: Square)
    requires Is3x3(b) && forall i :: 0 <= i < |squares| ==> OnBoard(squares[i])
    reads b
    ensures r == NoSquare <==> forall i :: 0 <= i < |squares| ==> !CheckSquareForSymbol(squares[i], b, symbol)
    ensures r != NoSquare ==> r in squares
    ensures r != NoSquare ==>
      exists i :: 0 <= i < |squares| && squares[i] == r && CheckSquareForSymbol(r, b, symbol) &&
                  forall j :: 0 <= j < i ==> !CheckSquareForSymbol(squares[j], b, symbol)
  {
    if squares == [] then NoSquare
    else if CheckSquareForSymbol(squares[0], b, symbol) then squares[0]
    else
      var r := FirstFor(squares[1..], b, symbol);
      assert forall i :: 0 < i < |squares| ==> squares[i] == squares[1..][i - 1];
      r
  }

  /** `CheckWinningMove` (symbol 2) and `CheckBlockingMove` (symbol 1): the
      first empty square, row by row, that the check passes, or `NoSquare`. */
  method CheckMove(b: array2<int>, symbol: int) returns (r: Square)
    requires Is3x3(b)
    ensures r == FirstFor(EmptyBefore(b, 9), b, symbol)
  {
    var empty := GetEmptySquares(b);
    EmptyBeforeSpec(b, 9);
    var i := 0;
    while i < |empty|
      invariant 0 <= i <= |empty|
      invariant FirstFor(empty, b, symbol) == FirstFor(empty[i..], b, symbol)
    {
      assert empty[i..][1..] == empty[i + 1..];
      if CheckSquareForSymbol(empty[i], b, symbol) {
        return empty[i];
      }
      i := i + 1;
    }
    return NoSquare;
  }

  /** `GetMove`: a winning square, else a blocking square, else the centre
      when it is empty, else any empty square (the source draws it from a
      seeded random generator; here the choice is left open). The last step
      indexes the list of empty squares, so the board must have one. */
  method GetMove(b: array2<int>) returns (r: Square)
    requires Is3x3(b) && exists x, y :: 0 <= x < 3 && 0 <= y < 3 && b[x, y] == 0
    ensures OnBoard(r) && b[r.0, r.1] == 0
    ensures FirstFor(EmptyBefore(b, 9), b, 2) != NoSquare ==> r == FirstFor(EmptyBefore(b, 9), b, 2)
    ensures FirstFor(EmptyBefore(b, 9), b, 2) == NoSquare && FirstFor(EmptyBefore(b, 9), b, 1) != NoSquare ==>
      r == FirstFor(EmptyBefore(b, 9), b, 1)
    ensures (FirstFor(EmptyBefore(b, 9), b, 2) == NoSquare && FirstFor(EmptyBefore(b, 9), b, 1) == NoSquare &&
             b[1, 1] == 0) ==> r == (1, 1)
  {
    var winningMove := CheckMove(b, 2);
    if winningMove.0 != -1 {
      return winningMove;
    }
    var blockingMove := CheckMove(b, 1);
    if blockingMove.0 != -1 {
      return blockingMove;
    }
    if b[1, 1] == 0 {
      return (1, 1);
    }
    var emptySquares := GetEmptySquares(b);
    SomeEmptySquare(b);
    var pick :| 0 <= pick < |emptySquares|;
    r := emptySquares[pick];
  }

  /** A board with an empty cell has a nonempty list of empty squares. */
  lemma SomeEmptySquare(b: array2<int>)
    requires Is3x3(b) && exists x, y :: 0 <= x < 3 && 0 <= y < 3 && b[x, y] == 0
    ensures |EmptyBefore(b, 9)| > 0
  {
    var x, y :| 0 <= x < 3 && 0 <= y < 3 && b[x, y] == 0;
    EmptyBeforeSpec(b, 9);
    assert (x, y) in EmptyBefore(b, 9);
  }

  // What the checks as written do and do not find.

  /** Blocking looks only at the diagonals: with symbol 1 every row and
      column guard rejects the line on the very cells that would complete
      it, because the guards compare with 1 rather than with the opposing
      symbol. */
  lemma BlockingNeverByRowOrColumn(move: Square, b: array2<int>)
    requires Is3x3(b)
    ensures !CheckRowForSymbol(move, b, 1) && !CheckColumnForSymbol(move, b, 1)
    ensures CheckSquareForSymbol(move, b, 1) <==> CheckDiagonalForSymbol(move, b, 1)
  {
  }

  /** For its own symbol 2 the row check finds an empty square that
      completes its row, unless the square is in the middle row and cell
      (2, 1) holds a 1: the middle-row guard reads (2, 1) instead of (1, 2). */
  lemma WinningRowFound(move: Square, b: array2<int>)
    requires Is3x3(b) && OnBoard(move) && b[move.0, move.1] == 0
    requires forall y :: 0 <= y < 3 && y != move.1 ==> b[move.0, y] == 2
    requires move.0 == 1 ==> b[2, 1] != 1
    ensures CheckRowForSymbol(move, b, 2)
  {
  }

  /** The exception above does happen: with (1, 1) and (1, 2) holding 2 and
      (2, 1) holding 1, the empty square (1, 0) completes the middle row but
      the row check refuses it. */
  lemma MissedMiddleRowWin(b: array2<int>)
    requires Is3x3(b) && b[1, 0] == 0 && b[1, 1] == 2 && b[1, 2] == 2 && b[2, 1] == 1
    ensures !CheckRowForSymbol((1, 0), b, 2)
  {
  }

  /** For symbol 2 the column check finds an empty square that completes
      its column, except at (2, 1), which the middle-column section does
      not list, and at (1, 2) when the middle column holds a 1, because that
      section lists (1, 2) and its guard returns before the right column is
      looked at. */
  lemma WinningColumnFound(move: Square, b: array2<int>)
    requires Is3x3(b) && OnBoard(move) && b[move.0, move.1] == 0
    requires forall x :: 0 <= x < 3 && x != move.0 ==> b[x, move.1] == 2
    requires move != (2, 1)
    requires move == (1, 2) ==> b[0, 1] != 1 && b[1, 1] != 1 && b[2, 1] != 1
    ensures CheckColumnForSymbol(move, b, 2)
  {
  }

  /** Both exceptions happen: (2, 1) never passes the column check, and
      (1, 2) is refused when (0, 1) holds a 1 even though (0, 2) and (2, 2)
      hold 2. */
  lemma MissedColumnWins(b: array2<int>, symbol: int)
    requires Is3x3(b)
    ensures !CheckColumnForSymbol((2, 1), b, symbol)
    ensures b[0, 1] == 1 ==> !CheckColumnForSymbol((1, 2), b, symbol)
  {
  }
}
