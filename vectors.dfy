/**
 * The integer vector of the agent simulation (CsharpPatterns/State/Vector2Int.cs).
 * Its arithmetic operators clamp against the running world's extents,
 * which are fixed at 10 by 10.
 */
module Vectors {
  import opened Wrappers

  /** `Program.World.XMax`: the width the world is built with. */
  const XMax: int := 10
  /** `Program.World.YMax`: the height the world is built with. */
  const YMax: int := 10

  /** A readonly value struct; equality is component-wise. */
  datatype Vector2Int = Vector2Int(x: int, y: int)

  /** `Vector2Int.Zero`, the default-constructed vector. */
  const Zero: Vector2Int := Vector2Int(0, 0)
  /** `Vector2Int.MinusOne`, used as the "no target" marker. */
  const MinusOne: Vector2Int := Vector2Int(-1, -1)

  function Min(a: int, b: int): int { if a <= b then a else b }
  function Max(a: int, b: int): int { if a >= b then a else b }
  /** `Math.Clamp(v, lo, hi)` for `lo <= hi`. */
  function Clamp(v: int, lo: int, hi: int): int
    requires lo <= hi
  {
    if v < lo then lo else if v > hi then hi else v
  }

  /** `operator +`: component sums, clamped from above only. */
  function Add(a: Vector2Int, b: Vector2Int): (r: Vector2Int)
    ensures r.x <= XMax && r.y <= YMax
    ensures r.x <= a.x + b.x && r.y <= a.y + b.y
    ensures a.x + b.x <= XMax ==> r.x == a.x + b.x
    ensures a.y + b.y <= YMax ==> r.y == a.y + b.y
    ensures a.x + b.x > XMax ==> r.x == XMax
    ensures a.y + b.y > YMax ==> r.y == YMax
  {
    Vector2Int(Min(a.x + b.x, XMax), Min(a.y + b.y, YMax))
  }

  /** `operator -`: component differences, clamped from below only. */
  function Sub(a: Vector2Int, b: Vector2Int): (r: Vector2Int)
    ensures r.x >= 0 && r.y >= 0
    ensures r.x >= a.x - b.x && r.y >= a.y - b.y
    ensures a.x - b.x >= 0 ==> r.x == a.x - b.x
    ensures a.y - b.y >= 0 ==> r.y == a.y - b.y
    ensures a.x - b.x < 0 ==> r.x == 0
    ensures a.y - b.y < 0 ==> r.y == 0
  {
    Vector2Int(Max(a.x - b.x, 0), Max(a.y - b.y, 0))
  }

  /** `operator *`: scaled components, clamped into `[0, XMax] x [0, YMax]`. */
  function Scale(a: Vector2Int, scalar: int): (r: Vector2Int)
    ensures 0 <= r.x <= XMax && 0 <= r.y <= YMax
    ensures 0 <= a.x * scalar <= XMax ==> r.x == a.x * scalar
    ensures 0 <= a.y * scalar <= YMax ==> r.y == a.y * scalar
    ensures a.x * scalar < 0 ==> r.x == 0
    ensures a.x * scalar > XMax ==> r.x == XMax
    ensures a.y * scalar < 0 ==> r.y == 0
    ensures a.y * scalar > YMax ==> r.y == YMax
  {
    Vector2Int(Clamp(a.x * scalar, 0, XMax), Clamp(a.y * scalar, 0, YMax))
  }

  /** `operator ==`. */
  function Eq(a: Vector2Int, b: Vector2Int): (r: bool)
    ensures r <==> a == b
  {
    a.x == b.x && a.y == b.y
  }

  /** `operator !=`, written out on its own in the source. */
  function NotEq(a: Vector2Int, b: Vector2Int): (r: bool)
    ensures r <==> !Eq(a, b)
  {
    a.x != b.x || a.y != b.y
  }

  /** `Equals(object?)`: `None` stands for null or an object of another type. */
  function EqualsObject(self: Vector2Int, obj: Option<Vector2Int>): (r: bool)
    ensures r <==> obj == Some(self)
  {
    match obj
    case Some(other) => Eq(other, self)
    case None => false
  }

  /** The upper clamp of `+` does not apply from below, and the lower clamp
      of `-` does not apply from above: neither operator keeps a vector in
      the grid on its own. */
  lemma OneSidedClamps()
    ensures Add(Vector2Int(-3, 0), Zero) == Vector2Int(-3, 0)
    ensures Sub(Vector2Int(XMax + 5, 0), Zero) == Vector2Int(XMax + 5, 0)
  {
  }
}
