/**
 * The read-only computations over the simulation's map
 * (CsharpPatterns/State/World.cs): the row-major scans behind `FoodSpots`
 * and `freeSpaces`, and the greedy one-step `MoveTowards`.
 * The map is the world's `string[,]`; cells hold "  " (free), "FD" (food)
 * or an agent's two-letter short name. Every mark written on the map has
 * exactly two characters, so a mark is modelled as a pair of characters.
 */
module WorldGrid {
  import opened Vectors

  /** A two-character mark of the map. */
  datatype Label = Label(first: char, second: char)

  /** The mark of a free cell, "  ". */
  const Blank := Label(' ', ' ')
  /** The mark of a food cell, "FD". */
  const Food := Label('F', 'D')
  /** `World.maxFoodPieces`. */
  const MaxFoodPieces: int := 4

  /** `(c.X, c.Y)` indexes the grid without fault. */
  predicate InMap(grid: array2<Label>, c: Vector2Int) {
    0 <= c.x < grid.Length0 && 0 <= c.y < grid.Length1
  }

  /** The cell `c` lies inside the grid and carries `mark`. */
  predicate Marked(grid: array2<Label>, mark: Label, c: Vector2Int)
    reads grid
  {
    InMap(grid, c) && grid[c.x, c.y] == mark
  }

  /** The order in which the nested `for x { for y { … } }` loops visit cells. */
  predicate RowMajorBefore(a: Vector2Int, b: Vector2Int) {
    a.x < b.x || (a.x == b.x && a.y < b.y)
  }

  /** The cells `(x, y)` with `y < n` whose mark is `mark`, in increasing `y`. */
  ghost function RowCells(grid: array2<Label>, mark: Label, x: int, n: int): seq<Vector2Int>
    requires 0 <= x < grid.Length0 && 0 <= n <= grid.Length1
    reads grid
    decreases n
  {
    if n == 0 then []
    else RowCells(grid, mark, x, n - 1) + (if grid[x, n - 1] == mark then [Vector2Int(x, n - 1)] else [])
  }

  /** The cells of the rows `x < rows` whose mark is `mark`, in row-major order. */
  ghost function RowsCells(grid: array2<Label>, mark: Label, rows: int): seq<Vector2Int>
    requires 0 <= rows <= grid.Length0
    reads grid
    decreases rows
  {
    if rows == 0 then []
    else RowsCells(grid, mark, rows - 1) + RowCells(grid, mark, rows - 1, grid.Length1)
  }

  /** Every cell of the grid labelled `mark`, in row-major order. */
  ghost function Labelled(grid: array2<Label>, mark: Label): seq<Vector2Int>
    reads grid
  {
    RowsCells(grid, mark, grid.Length0)
  }

  lemma {:induction false} RowCellsIff(grid: array2<Label>, mark: Label, x: int, n: int, c: Vector2Int)
    requires 0 <= x < grid.Length0 && 0 <= n <= grid.Length1
    ensures c in RowCells(grid, mark, x, n) <==> c.x == x && c.y < n && Marked(grid, mark, c)
  {
    if n > 0 {
      RowCellsIff(grid, mark, x, n - 1, c);
    }
  }

  lemma {:induction false} RowsCellsIff(grid: array2<Label>, mark: Label, rows: int, c: Vector2Int)
    requires 0 <= rows <= grid.Length0
    ensures c in RowsCells(grid, mark, rows) <==> c.x < rows && Marked(grid, mark, c)
  {
    if rows > 0 {
      var before, last := RowsCells(grid, mark, rows - 1), RowCells(grid, mark, rows - 1, grid.Length1);
      assert RowsCells(grid, mark, rows) == before + last;
      RowsCellsIff(grid, mark, rows - 1, c);
      RowCellsIff(grid, mark, rows - 1, grid.Length1, c);
    }
  }

  /** A cell is listed exactly when it is inside the grid and carries the mark. */
  lemma LabelledIff(grid: array2<Label>, mark: Label, c: Vector2Int)
    ensures c in Labelled(grid, mark) <==> InMap(grid, c) && grid[c.x, c.y] == mark
  {
    RowsCellsIff(grid, mark, grid.Length0, c);
  }

  lemma {:induction false} RowCellsSorted(grid: array2<Label>, mark: Label, x: int, n: int)
    requires 0 <= x < grid.Length0 && 0 <= n <= grid.Length1
    ensures forall i, j :: 0 <= i < j < |RowCells(grid, mark, x, n)| ==>
      RowMajorBefore(RowCells(grid, mark, x, n)[i], RowCells(grid, mark, x, n)[j])
  {
    if n > 0 {
      RowCellsSorted(grid, mark, x, n - 1);
      forall c | c in RowCells(grid, mark, x, n - 1) ensures c.x == x && c.y < n - 1 {
        RowCellsIff(grid, mark, x, n - 1, c);
      }
    }
  }

  lemma {:induction false} RowsCellsSorted(grid: array2<Label>, mark: Label, rows: int)
    requires 0 <= rows <= grid.Length0
    ensures forall i, j :: 0 <= i < j < |RowsCells(grid, mark, rows)| ==>
      RowMajorBefore(RowsCells(grid, mark, rows)[i], RowsCells(grid, mark, rows)[j])
  {
    if rows > 0 {
      RowsCellsSorted(grid, mark, rows - 1);
      RowCellsSorted(grid, mark, rows - 1, grid.Length1);
      forall c | c in RowsCells(grid, mark, rows - 1) ensures c.x < rows - 1 {
        RowsCellsIff(grid, mark, rows - 1, c);
      }
      forall c | c in RowCells(grid, mark, rows - 1, grid.Length1) ensures c.x == rows - 1 {
        RowCellsIff(grid, mark, rows - 1, grid.Length1, c);
      }
    }
  }

  /** The scan lists cells in strictly increasing row-major order, so no cell twice. */
  lemma LabelledSorted(grid: array2<Label>, mark: Label)
    ensures forall i, j :: 0 <= i < j < |Labelled(grid, mark)| ==>
      RowMajorBefore(Labelled(grid, mark)[i], Labelled(grid, mark)[j])
  {
    RowsCellsSorted(grid, mark, grid.Length0);
  }

  /** The nested loop shared by `freeSpaces` and `FoodSpots`: collect every
      cell whose mark equals `mark`, visiting `x` in the outer loop. */
  method CellsLabelled(grid: array2<Label>, mark: Label) returns (result: seq<Vector2Int>)
    ensures result == Labelled(grid, mark)
  {
    result := [];
    var x := 0;
    while x < grid.Length0
      invariant 0 <= x <= grid.Length0
      invariant result == RowsCells(grid, mark, x)
    {
      var y := 0;
      while y < grid.Length1
        invariant 0 <= y <= grid.Length1
        invariant result == RowsCells(grid, mark, x) + RowCells(grid, mark, x, y)
      {
        if grid[x, y] == mark {
          result := result + [Vector2Int(x, y)];
        }
        y := y + 1;
      }
      x := x + 1;
    }
  }

  /** `World.FoodSpots`: exactly the "FD" cells, in row-major order. */
  method FoodSpots(grid: array2<Label>) returns (spots: seq<Vector2Int>)
    ensures spots == Labelled(grid, Food)
    ensures forall c :: c in spots <==> InMap(grid, c) && grid[c.x, c.y] == Food
  {
    spots := CellsLabelled(grid, Food);
    forall c ensures c in spots <==> InMap(grid, c) && grid[c.x, c.y] == Food {
      LabelledIff(grid, Food, c);
    }
  }

  /** `World.freeSpaces`: exactly the "  " cells, in row-major order. */
  method FreeSpaces(grid: array2<Label>) returns (free: seq<Vector2Int>)
    ensures free == Labelled(grid, Blank)
    ensures forall c :: c in free <==> InMap(grid, c) && grid[c.x, c.y] == Blank
  {
    free := CellsLabelled(grid, Blank);
    forall c ensures c in free <==> InMap(grid, c) && grid[c.x, c.y] == Blank {
      LabelledIff(grid, Blank, c);
    }
  }

  /** Lines 131-136 of `MoveTowards`: one clamped step toward the destination
      on each axis independently. */
  function GreedyStep(grid: array2<Label>, xStart: int, yStart: int, xDest: int, yDest: int): (r: Vector2Int)
    requires InMap(grid, Vector2Int(xStart, yStart))
    ensures InMap(grid, r)
    ensures xStart - 1 <= r.x <= xStart + 1 && yStart - 1 <= r.y <= yStart + 1
    ensures (xStart <= r.x <= xDest) || (xDest <= r.x <= xStart)
    ensures (yStart <= r.y <= yDest) || (yDest <= r.y <= yStart)
    ensures xDest == xStart ==> r.x == xStart
    ensures yDest == yStart ==> r.y == yStart
    ensures 0 <= xDest < grid.Length0 && xDest != xStart ==> r.x != xStart
    ensures 0 <= yDest < grid.Length1 && yDest != yStart ==> r.y != yStart
  {
    var xTarget :=
      if xDest > xStart then Min(xStart + 1, grid.Length0 - 1)
      else if xDest < xStart then Max(0, xStart - 1)
      else xStart;
    var yTarget :=
      if yDest > yStart then Min(yStart + 1, grid.Length1 - 1)
      else if yDest < yStart then Max(0, yStart - 1)
      else yStart;
    Vector2Int(xTarget, yTarget)
  }

  /** A cell is taken by an agent when its mark contains 'A' (agents are
      named "Agent1", "Agent2", so their short names are "A1", "A2"). */
  predicate HasAgent(grid: array2<Label>, c: Vector2Int)
    requires InMap(grid, c)
    reads grid
  {
    grid[c.x, c.y].first == 'A' || grid[c.x, c.y].second == 'A'
  }

  /** `World.MoveTowards`. `dx` and `dy` are the two draws of
      `random.Next(-1, 1)`, which lie in `[-1, 0]`; they are used only when
      the greedy step lands on an agent's cell. */
  function MoveTowards(grid: array2<Label>, xStart: int, yStart: int, xDest: int, yDest: int, dx: int, dy: int): (r: Vector2Int)
    requires InMap(grid, Vector2Int(xStart, yStart))
    requires -1 <= dx <= 0 && -1 <= dy <= 0
    reads grid
    ensures InMap(grid, r)
    ensures var g := GreedyStep(grid, xStart, yStart, xDest, yDest);
      && (!HasAgent(grid, g) ==> r == g)
      && g.x - 1 <= r.x <= g.x && g.y - 1 <= r.y <= g.y
  {
    var g := GreedyStep(grid, xStart, yStart, xDest, yDest);
    if HasAgent(grid, g) then
      Vector2Int(Clamp(g.x + dx, 0, grid.Length0 - 1), Clamp(g.y + dy, 0, grid.Length1 - 1))
    else
      g
  }
}
