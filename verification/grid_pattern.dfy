/**
 One frame of the evolving grid pattern: a 16 x 16 grid of 30-pixel cells,
 each filled with the colour of its pattern value.

 The pattern value uses `sin` and `cos`; they are parameters here, so the
 facts below hold for any functions the caller supplies, and the bound on the
 value holds whenever both stay within [-1, 1].
 */
module GridPattern {
  import opened ColorMap

  /** Cells along each side of the grid. */
  const GridSize: nat := 16
  /** Side of one cell, in pixels. */
  const CellSize: nat := 30
  const ImageWidth: nat := GridSize * CellSize
  const ImageHeight: nat := GridSize * CellSize
  /** The colour a new image is filled with before any cell is drawn. */
  const Background: Rgb := Rgb(255, 255, 255)

  /** A grid position. */
  datatype Cell = Cell(row: int, col: int)

  /** An axis-aligned rectangle given by its top-left and bottom-right corners. */
  datatype Rect = Rect(x1: int, y1: int, x2: int, y2: int)

  /** One `rectangle` drawing call: the box and its fill colour. */
  datatype Paint = Paint(box: Rect, fill: Rgb)

  /** A real function of a real argument, such as `sin` or `cos`. */
  type Wave = real -> real

  predicate InGrid(cell: Cell)
  {
    0 <= cell.row < GridSize && 0 <= cell.col < GridSize
  }

  /** The wave never leaves [-1, 1], as `sin` and `cos` do not. */
  ghost predicate UnitBounded(f: Wave)
  {
    forall x :: -1.0 <= f(x) <= 1.0
  }

  function Abs(n: int): nat
  {
    if n < 0 then -n else n
  }

  /** The pattern value of cell (row, col) at time `time`: the mean of a sine and
      a cosine of mixtures of the cell's coordinates and the time, moved from
      [-1, 1] into [0, 1]. */
  function PatternValue(sin: Wave, cos: Wave, row: int, col: int, time: real): (v: real)
    ensures UnitBounded(sin) && UnitBounded(cos) ==> 0.0 <= v <= 1.0
  {
    var baseValue := (row + col) as real * 0.1;
    var noise := Abs(row - col) as real * 0.2 + row as real * 0.3 + col as real * 0.4 + time * 0.5;
    var wave1 := sin(baseValue + noise);
    var wave2 := cos(noise * 1.5);
    var combined := wave1 * 0.5 + wave2 * 0.5;
    (combined + 1.0) / 2.0
  }

  /** The pixel rectangle of a cell: `CellSize` wide and high, at column and row
      multiples of `CellSize`. */
  function CellRect(cell: Cell): (r: Rect)
    ensures r.x2 - r.x1 == CellSize && r.y2 - r.y1 == CellSize
    ensures InGrid(cell) ==> 0 <= r.x1 && 0 <= r.y1 && r.x2 <= ImageWidth && r.y2 <= ImageHeight
  {
    var x1 := cell.col * CellSize;
    var y1 := cell.row * CellSize;
    Rect(x1, y1, x1 + CellSize, y1 + CellSize)
  }

  /** The pixel (px, py) lies in the rectangle, counting its top and left edges
      but not its bottom and right ones. */
  predicate Covers(r: Rect, px: int, py: int)
  {
    r.x1 <= px < r.x2 && r.y1 <= py < r.y2
  }

  /** The cells tile the image: every pixel lies in exactly one cell, the one
      whose row and column are its coordinates divided by the cell size. */
  lemma CellTiling(cell: Cell, px: int, py: int)
    requires 0 <= px < ImageWidth && 0 <= py < ImageHeight
    ensures Covers(CellRect(cell), px, py) <==> cell == Cell(py / CellSize, px / CellSize)
    ensures InGrid(Cell(py / CellSize, px / CellSize))
  {
    var r := CellRect(cell);
    if Covers(r, px, py) {
      DivBetween(px, cell.col);
      DivBetween(py, cell.row);
    }
  }

  /** A coordinate between `k` and `k + 1` cell sizes lies in cell `k`. */
  lemma DivBetween(p: int, k: int)
    requires 0 <= p && k * CellSize <= p < k * CellSize + CellSize
    ensures p / CellSize == k
  {
  }

  /** The drawing call for one cell at time `time`. */
  function CellPaint(sin: Wave, cos: Wave, time: real, cell: Cell): Paint
  {
    Paint(CellRect(cell), MapValueToColor(PatternValue(sin, cos, cell.row, cell.col, time)))
  }

  /** The i-th cell of the grid in row-major order. */
  function RowMajor(i: int): Cell
  {
    Cell(i / GridSize, i % GridSize)
  }

  /** Row-major order numbers the cells of the grid 0 .. 255 one-to-one. */
  lemma RowMajorBijection(i: int, cell: Cell)
    requires 0 <= i < GridSize * GridSize
    ensures InGrid(RowMajor(i))
    ensures RowMajor(i) == cell <==> InGrid(cell) && i == cell.row * GridSize + cell.col
  {
  }

  /** Row-major order goes through the grid row by row, each row left to right. */
  lemma RowMajorAscending(i: int, j: int)
    requires 0 <= i < j
    ensures var a, b := RowMajor(i), RowMajor(j);
      a.row < b.row || (a.row == b.row && a.col < b.col)
  {
  }

  /** A sequence of 256 cells in row-major order holds every cell of the grid,
      each exactly once, and nothing outside it. */
  lemma RowMajorExactlyOnce(visited: seq<Cell>)
    requires |visited| == GridSize * GridSize
    requires forall i :: 0 <= i < |visited| ==> visited[i] == RowMajor(i)
    ensures forall i :: 0 <= i < |visited| ==> InGrid(visited[i])
    ensures forall cell :: InGrid(cell) ==> visited[cell.row * GridSize + cell.col] == cell
    ensures forall i, j :: 0 <= i < j < |visited| ==> visited[i] != visited[j]
  {
    forall i | 0 <= i < |visited|
      ensures InGrid(visited[i])
    {
      RowMajorBijection(i, visited[i]);
    }
    forall cell | InGrid(cell)
      ensures visited[cell.row * GridSize + cell.col] == cell
    {
      RowMajorBijection(cell.row * GridSize + cell.col, cell);
    }
    forall i, j | 0 <= i < j < |visited|
      ensures visited[i] != visited[j]
    {
      RowMajorAscending(i, j);
    }
  }

  /** The drawing calls of one frame: one per cell, in row-major order, so every
      cell of the grid is painted exactly once. */
  method DrawGridPattern(sin: Wave, cos: Wave, time: real) returns (paints: seq<Paint>, visited: seq<Cell>)
    ensures |paints| == |visited| == GridSize * GridSize
    ensures forall i :: 0 <= i < |visited| ==> visited[i] == RowMajor(i)
    ensures forall i :: 0 <= i < |paints| ==> paints[i] == CellPaint(sin, cos, time, visited[i])
    ensures forall cell :: InGrid(cell) ==> visited[cell.row * GridSize + cell.col] == cell
    ensures forall i, j :: 0 <= i < j < |visited| ==> visited[i] != visited[j]
  {
    paints, visited := [], [];
    var row := 0;
    while row < GridSize
      invariant 0 <= row <= GridSize
      invariant |paints| == |visited| == row * GridSize
      invariant forall i :: 0 <= i < |visited| ==> visited[i] == RowMajor(i)
      invariant forall i :: 0 <= i < |paints| ==> paints[i] == CellPaint(sin, cos, time, visited[i])
    {
      var col := 0;
      while col < GridSize
        invariant 0 <= col <= GridSize
        invariant |paints| == |visited| == row * GridSize + col
        invariant forall i :: 0 <= i < |visited| ==> visited[i] == RowMajor(i)
        invariant forall i :: 0 <= i < |paints| ==> paints[i] == CellPaint(sin, cos, time, visited[i])
      {
        var cell := Cell(row, col);
        assert RowMajor(|visited|) == cell;
        paints := paints + [CellPaint(sin, cos, time, cell)];
        visited := visited + [cell];
        col := col + 1;
      }
      row := row + 1;
    }
    RowMajorExactlyOnce(visited);
  }
}
