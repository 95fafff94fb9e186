/** Grid helpers: converting between a cell index and (x, y) coordinates. */
module Coordinates {

  datatype Vec2 = Vec2(x: int, y: int)

  function Abs(a: int): nat { if a < 0 then -a else a }

  /** C++ integer division: truncates toward zero. */
  function CDiv(a: int, b: int): int
    requires b != 0
  {
    var q := Abs(a) / Abs(b);
    if (a < 0) != (b < 0) then -q else q
  }

  /** C++ remainder: takes the sign of the dividend. */
  function CMod(a: int, b: int): int
    requires b != 0
  {
    a - b * CDiv(a, b)
  }

  /**
   * Row-major index of a cell. A cell inside a row of positive length gets
   * an index inside that row's block of `rowLength` indices, non-negative
   * exactly when the row is.
   */
  function GetIndex(c: Vec2, rowLength: int): (r: int)
    ensures rowLength > 0 && 0 <= c.x < rowLength ==>
      c.y * rowLength <= r < c.y * rowLength + rowLength && (r >= 0 <==> c.y >= 0)
  {
    RowSign(c.y, rowLength);
    c.y * rowLength + c.x
  }

  /**
   * Coordinates of a row-major index; division by zero is undefined in C++.
   * The column is the C++ remainder: smaller than the row length in size,
   * and never of the opposite sign to the index.
   */
  function GetCoords(index: int, rowLength: int): (r: Vec2)
    requires rowLength != 0
    ensures Abs(r.x) < Abs(rowLength)
    ensures index >= 0 ==> r.x >= 0
    ensures index < 0 ==> r.x <= 0
  {
    CModSign(index, rowLength);
    Vec2(CMod(index, rowLength), CDiv(index, rowLength))
  }

  /** The cell one row up: its index is one row length lower, whatever the row length. */
  function NorthOf(c: Vec2): (r: Vec2)
    ensures forall w :: GetIndex(r, w) == GetIndex(c, w) - w
  {
    Vec2(c.x, c.y - 1)
  }

  /** The cell one row down: its index is one row length higher. */
  function SouthOf(c: Vec2): (r: Vec2)
    ensures forall w :: GetIndex(r, w) == GetIndex(c, w) + w
  {
    Vec2(c.x, c.y + 1)
  }

  /** The cell one column right: its index is one higher. */
  function EastOf(c: Vec2): (r: Vec2)
    ensures forall w :: GetIndex(r, w) == GetIndex(c, w) + 1
  {
    Vec2(c.x + 1, c.y)
  }

  /** The cell one column left: its index is one lower. */
  function WestOf(c: Vec2): (r: Vec2)
    ensures forall w :: GetIndex(r, w) == GetIndex(c, w) - 1
  {
    Vec2(c.x - 1, c.y)
  }

  /** A cell outside the grid of `size`; a cell inside exists only when the grid is not empty. */
  predicate CoordsOutOfRange(c: Vec2, size: Vec2)
    ensures !CoordsOutOfRange(c, size) ==> size.x >= 1 && size.y >= 1
  {
    c.x < 0 || c.y < 0 || c.x >= size.x || c.y >= size.y
  }

  /** An index outside [0, width·height − 1]; an index inside names a cell inside the grid. */
  predicate IndexOutOfRange(index: int, size: Vec2)
    ensures size.x > 0 && !IndexOutOfRange(index, size) ==> !CoordsOutOfRange(GetCoords(index, size.x), size)
  {
    InRangeIndexHasInRangeCell(index, size);
    index < 0 || index > size.x * size.y - 1
  }

  /** The sign of a row's first index is the sign of the row. */
  lemma RowSign(y: int, w: int)
    ensures w > 0 && y >= 0 ==> y * w >= 0
    ensures w > 0 && y < 0 ==> y * w <= -w
  {
    if w > 0 && y < 0 {
      MulAtLeast(-y, w);
      assert (-y) * w == -(y * w);
    }
  }

  /** The C++ remainder is smaller than the divisor in size and takes the sign of the dividend. */
  lemma CModSign(a: int, b: int)
    requires b != 0
    ensures Abs(CMod(a, b)) < Abs(b)
    ensures a >= 0 ==> CMod(a, b) >= 0
    ensures a < 0 ==> CMod(a, b) <= 0
  {
    var q, m := Abs(a) / Abs(b), Abs(a) % Abs(b);
    assert Abs(a) == q * Abs(b) + m && 0 <= m < Abs(b);
    if b > 0 {
      assert Abs(b) == b;
    } else {
      assert Abs(b) == -b;
      assert b * q == -(q * Abs(b));
      assert b * -q == q * Abs(b);
    }
    assert b * CDiv(a, b) == if a < 0 then -(q * Abs(b)) else q * Abs(b);
    assert CMod(a, b) == if a < 0 then -m else m;
  }

  /** An index in [0, width·height − 1] lies in a row below the grid's height. */
  lemma InRangeIndexHasInRangeCell(index: int, size: Vec2)
    ensures size.x > 0 && 0 <= index <= size.x * size.y - 1 ==> !CoordsOutOfRange(GetCoords(index, size.x), size)
  {
    if size.x > 0 && 0 <= index <= size.x * size.y - 1 {
      var w := size.x;
      CoordsInRow(index, w);
      CDivModNonNegative(index, w);
      var y := index / w;
      assert index == y * w + index % w;
    }
  }

  /** For non-negative operands the C++ operators agree with Euclidean ones. */
  lemma CDivModNonNegative(a: int, b: int)
    requires a >= 0 && b > 0
    ensures CDiv(a, b) == a / b && CMod(a, b) == a % b
  {
  }

  /** The coordinates of a cell's index are the cell itself. */
  lemma CoordsOfIndex(c: Vec2, w: int)
    requires w > 0 && 0 <= c.x < w && c.y >= 0
    ensures GetCoords(GetIndex(c, w), w) == c
  {
    var i := GetIndex(c, w);
    assert i >= 0 by {
      assert c.y * w >= 0;
    }
    CDivModNonNegative(i, w);
    DivModUnique(i, w, c.y, c.x);
  }

  /** The index of a non-negative index's coordinates is the index itself. */
  lemma IndexOfCoords(i: int, w: int)
    requires w > 0 && i >= 0
    ensures GetIndex(GetCoords(i, w), w) == i
  {
    CDivModNonNegative(i, w);
  }

  lemma DivModUnique(i: int, w: int, q: int, r: int)
    requires w > 0 && 0 <= r < w && i == q * w + r
    ensures i / w == q && i % w == r
  {
    var q', r' := i / w, i % w;
    assert (q - q') * w == r' - r;
    SmallMultipleIsZero(q - q', w, r' - r);
  }

  lemma SmallMultipleIsZero(d: int, w: int, x: int)
    requires w > 0 && -w < x < w && d * w == x
    ensures d == 0
  {
    if d >= 1 {
      MulAtLeast(d, w);
      assert false;
    } else if d <= -1 {
      assert (-d) * w == -x;
      MulAtLeast(-d, w);
      assert false;
    }
  }

  lemma MulAtLeast(d: int, w: int)
    requires d >= 1 && w > 0
    ensures d * w >= w
  {
    assert d * w == (d - 1) * w + w;
    assert (d - 1) * w >= 0;
  }

  /** The coordinates of an index lie in its row and in a non-negative row. */
  lemma CoordsInRow(i: int, w: int)
    requires w > 0 && i >= 0
    ensures 0 <= GetCoords(i, w).x < w && GetCoords(i, w).y >= 0
  {
    CDivModNonNegative(i, w);
    var q, r := i / w, i % w;
    assert GetCoords(i, w) == Vec2(r, q);
    assert q * w + r == i && 0 <= r < w;
    if q < 0 {
      MulAtLeast(-q, w);
      assert false;
    }
  }

  /** North/south and east/west each move along one axis and undo each other. */
  lemma NeighboursInverse(c: Vec2)
    ensures SouthOf(NorthOf(c)) == c && NorthOf(SouthOf(c)) == c
    ensures WestOf(EastOf(c)) == c && EastOf(WestOf(c)) == c
    ensures NorthOf(c).x == c.x && SouthOf(c).x == c.x
    ensures EastOf(c).y == c.y && WestOf(c).y == c.y
  {
  }

  /** An in-range cell has an in-range index. */
  lemma InRangeCellHasInRangeIndex(c: Vec2, size: Vec2)
    requires !CoordsOutOfRange(c, size)
    ensures !IndexOutOfRange(GetIndex(c, size.x), size)
  {
    assert 0 <= c.y * size.x by {
      assert c.y >= 0 && size.x > 0;
    }
    assert c.y * size.x <= (size.y - 1) * size.x by {
      assert c.y <= size.y - 1 && size.x > 0;
    }
    assert (size.y - 1) * size.x == size.x * size.y - size.x;
  }

  /** Moving one step north from row 0 leaves the grid. */
  lemma NorthOfTopRowIsOutOfRange(c: Vec2, size: Vec2)
    requires c.y == 0
    ensures CoordsOutOfRange(NorthOf(c), size)
  {
  }
}
