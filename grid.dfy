/** The partition grid: the world is cut into a cellCount x cellCount grid
    of half-open cells, laid out row-major, where cellCount is the integer
    square root of the number of workers. Cells start at the origin and
    have integer sides; the world's X axis is the grid's x, the world's Z
    axis is the grid's y. */
module Grid {
  import opened GoStd
  import opened Geometry
  import opened ServerScene

  /** Min is inclusive and Max exclusive on both axes; the box's y range is
      compared with the point's Z coordinate. */
  predicate AabbContains(aabb: Aabb, pt: Coordinates)
  {
    aabb.min.x <= pt.x && aabb.max.x > pt.x && aabb.min.y <= pt.z && aabb.max.y > pt.z
  }

  /** Side length of a cell along one axis: the world extent, converted to
      int, divided by the number of cells per row. */
  function CellSize(lo: real, hi: real, cellCount: nat): int
    requires cellCount > 0
  {
    TruncDiv(TruncToInt(hi - lo), cellCount)
  }

  /** The cell in column x and row y. */
  function CellBounds(x: int, y: int, xSize: int, ySize: int): Aabb
  {
    Aabb(Point((x * xSize) as real, (y * ySize) as real),
         Point((x * xSize + xSize) as real, (y * ySize + ySize) as real))
  }

  /** The cell of worker i in a grid with cellCount cells per row. */
  function GridCell(i: nat, cellCount: nat, xSize: int, ySize: int): Aabb
    requires cellCount > 0
  {
    CellBounds(i % cellCount, i / cellCount, xSize, ySize)
  }

  /** The index of the cell a point falls in. */
  function CellIndex(pt: Coordinates, cellCount: nat, xSize: int, ySize: int): int
    requires xSize > 0 && ySize > 0
  {
    (pt.z.Floor / ySize) * cellCount + pt.x.Floor / xSize
  }

  lemma MulMonotone(a: int, b: int, c: nat)
    requires a <= b
    ensures a * c <= b * c
  {
  }

  /** Euclidean division is pinned down by its bracket. */
  lemma DivBracket(a: int, b: int, q: int)
    requires b > 0
    ensures a / b == q <==> q * b <= a < q * b + b
  {
    var r := a / b;
    assert a == r * b + a % b;
    if q < r {
      MulMonotone(q + 1, r, b);
      assert (q + 1) * b == q * b + b;
    } else if q > r {
      MulMonotone(r + 1, q, b);
      assert (r + 1) * b == r * b + b;
    }
  }

  /** A real lies in a half-open interval with integer ends exactly when its
      floor does. */
  lemma FloorInInterval(v: real, lo: int, hi: int)
    ensures lo as real <= v < hi as real <==> lo <= v.Floor < hi
  {
  }

  /** A point lies in cell (x, y) exactly when its floored X and Z divided by
      the cell sides give x and y. */
  lemma CellContainsIff(x: int, y: int, xSize: int, ySize: int, pt: Coordinates)
    requires xSize > 0 && ySize > 0
    ensures AabbContains(CellBounds(x, y, xSize, ySize), pt)
        <==> pt.x.Floor / xSize == x && pt.z.Floor / ySize == y
  {
    FloorInInterval(pt.x, x * xSize, x * xSize + xSize);
    FloorInInterval(pt.z, y * ySize, y * ySize + ySize);
    DivBracket(pt.x.Floor, xSize, x);
    DivBracket(pt.z.Floor, ySize, y);
  }

  lemma RowMajor(x: int, y: int, cellCount: nat)
    requires 0 <= x < cellCount && 0 <= y
    ensures (y * cellCount + x) % cellCount == x && (y * cellCount + x) / cellCount == y
  {
    DivBracket(y * cellCount + x, cellCount, y);
  }

  /** The row after row y < cc starts cc cells later and ends inside the
      cc x cc grid. */
  lemma RowAfter(y: nat, first: nat, cellCount: nat)
    requires y < cellCount && first == y * cellCount
    ensures first + cellCount == (y + 1) * cellCount <= cellCount * cellCount
  {
    MulMonotone(y + 1, cellCount, cellCount);
  }

  /** Cell y*cc + x of the grid is the cell in column x and row y. */
  lemma GridCellAt(x: int, y: int, first: nat, cellCount: nat, xSize: int, ySize: int)
    requires 0 <= x < cellCount && 0 <= y && first == y * cellCount
    ensures GridCell(first + x, cellCount, xSize, ySize) == CellBounds(x, y, xSize, ySize)
  {
    RowMajor(x, y, cellCount);
  }

  /** A grid cell that contains a point is the cell CellIndex names. */
  lemma GridCellUnique(i: nat, cellCount: nat, xSize: int, ySize: int, pt: Coordinates)
    requires cellCount > 0 && xSize > 0 && ySize > 0
    requires AabbContains(GridCell(i, cellCount, xSize, ySize), pt)
    ensures i == CellIndex(pt, cellCount, xSize, ySize)
  {
    CellContainsIff(i % cellCount, i / cellCount, xSize, ySize, pt);
  }

  /** Distinct cells share no point. */
  lemma CellsDisjoint(i: nat, j: nat, cellCount: nat, xSize: int, ySize: int, pt: Coordinates)
    requires cellCount > 0 && xSize > 0 && ySize > 0 && i != j
    ensures !(AabbContains(GridCell(i, cellCount, xSize, ySize), pt)
              && AabbContains(GridCell(j, cellCount, xSize, ySize), pt))
  {
    if AabbContains(GridCell(i, cellCount, xSize, ySize), pt) {
      GridCellUnique(i, cellCount, xSize, ySize, pt);
      if AabbContains(GridCell(j, cellCount, xSize, ySize), pt) {
        GridCellUnique(j, cellCount, xSize, ySize, pt);
      }
    }
  }

  /** A coordinate in [0, count*size) falls in one of the count columns. */
  lemma ColumnInRange(v: real, size: int, count: nat)
    requires size > 0 && count > 0
    requires 0.0 <= v < (count * size) as real
    ensures 0 <= v.Floor / size < count
  {
    FloorInInterval(v, 0, count * size);
    var c := v.Floor / size;
    DivBracket(v.Floor, size, c);
    if c >= count {
      MulMonotone(count, c, size);
      assert false;
    }
  }

  lemma RowMajorBound(x: int, y: int, cellCount: nat)
    requires 0 <= x < cellCount && 0 <= y < cellCount
    ensures 0 <= y * cellCount + x < cellCount * cellCount
  {
    MulMonotone(y, cellCount - 1, cellCount);
  }

  /** Every point of [0, cellCount*xSize) x [0, cellCount*ySize) lies in
      exactly one of the cellCount^2 cells: the one at column X/xSize and
      row Z/ySize. */
  lemma GridLookup(cellCount: nat, xSize: int, ySize: int, pt: Coordinates)
    requires cellCount > 0 && xSize > 0 && ySize > 0
    requires 0.0 <= pt.x < (cellCount * xSize) as real
    requires 0.0 <= pt.z < (cellCount * ySize) as real
    ensures var i := CellIndex(pt, cellCount, xSize, ySize);
      && 0 <= i < cellCount * cellCount
      && i % cellCount == pt.x.Floor / xSize && i / cellCount == pt.z.Floor / ySize
      && AabbContains(GridCell(i, cellCount, xSize, ySize), pt)
      && forall j: nat :: AabbContains(GridCell(j, cellCount, xSize, ySize), pt) ==> j == i
  {
    var cx := pt.x.Floor / xSize;
    var cy := pt.z.Floor / ySize;
    ColumnInRange(pt.x, xSize, cellCount);
    ColumnInRange(pt.z, ySize, cellCount);
    RowMajorBound(cx, cy, cellCount);
    RowMajor(cx, cy, cellCount);
    CellContainsIff(cx, cy, xSize, ySize, pt);
    forall j: nat | AabbContains(GridCell(j, cellCount, xSize, ySize), pt)
      ensures j == CellIndex(pt, cellCount, xSize, ySize)
    {
      GridCellUnique(j, cellCount, xSize, ySize, pt);
    }
  }

  lemma RowInRange(i: nat, cellCount: nat)
    requires cellCount > 0 && i < cellCount * cellCount
    ensures i / cellCount < cellCount
  {
    var y := i / cellCount;
    DivBracket(i, cellCount, y);
    if y >= cellCount {
      MulMonotone(cellCount, y, cellCount);
      assert false;
    }
  }

  lemma CellEdgeInRange(x: int, count: nat, size: int)
    requires 0 <= x < count && size > 0
    ensures 0 <= x * size && x * size + size <= count * size
  {
    MulMonotone(x + 1, count, size);
    assert (x + 1) * size == x * size + size;
  }

  /** Every cell of the grid lies inside [0, cellCount*xSize) x
      [0, cellCount*ySize): the cells tile that rectangle with no gaps
      (GridLookup) and no overlaps (CellsDisjoint). */
  lemma CellInsideGrid(i: nat, cellCount: nat, xSize: int, ySize: int, pt: Coordinates)
    requires cellCount > 0 && xSize > 0 && ySize > 0 && i < cellCount * cellCount
    requires AabbContains(GridCell(i, cellCount, xSize, ySize), pt)
    ensures 0.0 <= pt.x < (cellCount * xSize) as real
    ensures 0.0 <= pt.z < (cellCount * ySize) as real
  {
    RowInRange(i, cellCount);
    CellEdgeInRange(i % cellCount, cellCount, xSize);
    CellEdgeInRange(i / cellCount, cellCount, ySize);
  }

  /** The balancer's world, 2048 x 1024, split for four workers. */
  lemma FourWorkerCells()
    ensures FloorSqrt(4) == 2
    ensures CellSize(0.0, 2048.0, 2) == 1024 && CellSize(0.0, 1024.0, 2) == 512
    ensures GridCell(0, 2, 1024, 512) == Aabb(Point(0.0, 0.0), Point(1024.0, 512.0))
    ensures GridCell(1, 2, 1024, 512) == Aabb(Point(1024.0, 0.0), Point(2048.0, 512.0))
    ensures GridCell(2, 2, 1024, 512) == Aabb(Point(0.0, 512.0), Point(1024.0, 1024.0))
    ensures GridCell(3, 2, 1024, 512) == Aabb(Point(1024.0, 512.0), Point(2048.0, 1024.0))
  {
    FloorSqrtOfSquare(2);
  }
}
