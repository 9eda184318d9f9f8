/** The `View` of the current frontend: the camera over the universe, the
    mapping between screen pixels and cells, and the cells a frame paints.
    The engine behind it is abstract: the view records, in order, the calls
    it makes into the engine (`effects`), and holds the last snapshot of the
    engine's cell buffer (`grid`). */
module Canvas {
  import opened Arith
  import opened Viewport
  import Engine

  /** The interface modes; the strings `"NORMAL"` and `"INSERT"` of the source. */
  datatype Mode = Normal | Insert

  /** A call into the engine, or a redraw of the canvas. */
  datatype Effect = Tick | Toggle(x: int, y: int) | Reset | Render

  /** `toIndex`: the row-major index of cell `(x, y)` in an `n`-by-`n` buffer. */
  function ToIndex(x: int, y: int, n: nat): (idx: int)
    ensures 0 <= x < n && 0 <= y < n ==> 0 <= idx < n * n
  {
    if 0 <= x < n && 0 <= y < n then RowMajorBound(x, y, n); x * n + y
    else x * n + y
  }

  /** `toIndex` is undone by division and remainder: distinct cells of the
      grid have distinct indices. */
  lemma {:induction false} ToIndexInverse(x: int, y: int, n: nat)
    requires 0 <= x < n && 0 <= y < n
    ensures ToIndex(x, y, n) / n == x && ToIndex(x, y, n) % n == y
  {
    var idx := ToIndex(x, y, n);
    var q, r := idx / n, idx % n;
    assert idx == q * n + r;
    assert (q - x) * n == y - r;
    MultipleOf(q - x, n);
  }

  /** A non-zero multiple of `n` is at least `n` away from zero. */
  lemma MultipleOf(d: int, n: int)
    requires n > 0
    ensures d == 0 || d * n >= n || d * n <= -n
  {
    if d > 0 {
      AtLeastOnce(d, n);
    } else if d < 0 {
      AtLeastOnce(-d, n);
      assert d * n == -((-d) * n);
    }
  }

  lemma {:induction false} AtLeastOnce(d: int, n: int)
    requires d >= 1 && n > 0
    ensures d * n >= n
    decreases d
  {
    if d > 1 {
      AtLeastOnce(d - 1, n);
      assert d * n == (d - 1) * n + n;
    }
  }

  /** `grid[idx] == 1` in the source: a read outside the buffer yields
      `undefined`, which is never `1`. */
  function Lookup(grid: seq<int>, idx: int): (v: int)
    ensures v == 1 ==> 0 <= idx < |grid| && grid[idx] == 1
  {
    if 0 <= idx < |grid| then grid[idx] else -1
  }

  /** The engine `Universe.new(levels + 1)` makes for a view with `levels`:
      its visible width is `1 << levels`, the view's `NUM_ROWS`, and its cell
      buffer, which the view reads as an array of `NUM_ROWS * NUM_ROWS`
      bytes, has exactly that length and starts all dead. */
  method EngineForView(levels: nat) returns (visibleWidth: nat, bufferLength: nat, allDead: bool)
    requires levels + 1 <= 16
    ensures visibleWidth == Pow2(levels)
    ensures bufferLength == Pow2(levels) * Pow2(levels)
    ensures allDead
  {
    var u := new Engine.Universe(levels + 1);
    visibleWidth := u.visibleWidth;
    bufferLength := u.cells.Length;
    allDead := forall i :: 0 <= i < u.cells.Length ==> u.cells[i] == 0;
  }

  class View {
    var canvasWidth: real
    var canvasHeight: real
    var vpOx: real
    var vpOy: real
    var vpW: real
    var vpH: real
    const blockWidth: real
    const numRows: nat
    const universeWidth: real
    const engineLevels: nat
    var mode: Mode
    var grid: seq<int>
    var effects: seq<Effect>

    /** The canvas and the viewport have positive size. */
    ghost predicate Valid()
      reads this
    {
      canvasWidth > 0.0 && canvasHeight > 0.0 && vpW > 0.0 && vpH > 0.0 && blockWidth > 0.0 && numRows >= 1
    }

    /** The viewport has the canvas's aspect ratio: the constructor and a
        resize set it to the canvas, a zoom scales both spans by one factor and
        a pan keeps them. */
    ghost predicate Proportional()
      reads this
    {
      SameAspect(Cam(), canvasWidth, canvasHeight)
    }

    /** The viewport lies inside the universe, `NUM_ROWS` blocks wide, on
        both axes; panning and zooming keep it there, a resize may not. */
    ghost predicate InUniverse()
      reads this
    {
      universeWidth == blockWidth * numRows as real && Inside(Cam(), universeWidth)
    }

    /** The viewport as a value. */
    function Cam(): Camera
      reads this
    {
      Camera(vpOx, vpOy, vpW, vpH)
    }

    /** The engine the view creates has `levels + 1` levels, which
        `Universe::new` admits up to 16 (`EngineForView`); its buffer is all
        dead, and the first snapshot reads it. */
    constructor (width: real, height: real, blockSize: real, levels: nat)
      requires width > 0.0 && height > 0.0 && blockSize > 0.0 && levels + 1 <= 16
      ensures Valid() && Proportional()
      ensures canvasWidth == width && canvasHeight == height
      ensures vpOx == 0.0 && vpOy == 0.0 && vpW == width && vpH == height
      ensures blockWidth == blockSize && numRows == Pow2(levels)
      ensures universeWidth == blockSize * numRows as real && engineLevels == levels + 1
      ensures mode == Normal && effects == []
      ensures |grid| == numRows * numRows && forall i :: 0 <= i < |grid| ==> grid[i] == 0
    {
      var n := Pow2(levels);
      var cellCount := n * n;
      var side := blockSize * n as real;
      canvasHeight := height;
      canvasWidth := width;
      engineLevels := levels + 1;
      vpOx := 0.0;
      vpOy := 0.0;
      vpW := width;
      vpH := height;
      blockWidth := blockSize;
      numRows := n;
      universeWidth := side;
      mode := Normal;
      grid := seq(cellCount, _ => 0);
      effects := [];
    }

    /** The scale `k` from world to screen pixels. */
    function K(): (k: real)
      reads this
      requires Valid()
      ensures k > 0.0 && k * vpW == canvasWidth
    {
      Scale(canvasWidth, vpW)
    }

    /** A resize: the spans follow the new canvas size, the origin stays. */
    method SetCanvasDimensions(width: real, height: real)
      requires Valid() && width > 0.0 && height > 0.0
      modifies this
      ensures Valid() && Proportional()
      ensures canvasWidth == width && canvasHeight == height && vpW == width && vpH == height
      ensures vpOx == old(vpOx) && vpOy == old(vpOy)
      ensures mode == old(mode) && grid == old(grid) && effects == old(effects)
    {
      canvasWidth := width;
      canvasHeight := height;
      vpW := width;
      vpH := height;
    }

    method SetMode(m: Mode)
      modifies this
      ensures mode == m
      ensures canvasWidth == old(canvasWidth) && canvasHeight == old(canvasHeight)
      ensures vpOx == old(vpOx) && vpOy == old(vpOy) && vpW == old(vpW) && vpH == old(vpH)
      ensures grid == old(grid) && effects == old(effects)
    {
      mode := m;
    }

    /** `updateGrid`: a fresh snapshot of the engine's buffer. */
    method UpdateGrid(snapshot: seq<int>)
      requires |snapshot| == numRows * numRows
      modifies this
      ensures grid == snapshot
      ensures canvasWidth == old(canvasWidth) && canvasHeight == old(canvasHeight)
      ensures vpOx == old(vpOx) && vpOy == old(vpOy) && vpW == old(vpW) && vpH == old(vpH)
      ensures mode == old(mode) && effects == old(effects)
    {
      grid := snapshot;
    }

    /** `locToIndex`: the cell whose painted square holds screen point `(x, y)`. */
    function LocToIndex(x: real, y: real): (cell: (int, int))
      reads this
      requires Valid()
      ensures CellStart(vpOx, K(), blockWidth, cell.0) <= x < CellStart(vpOx, K(), blockWidth, cell.0 + 1)
      ensures CellStart(vpOy, K(), blockWidth, cell.1) <= y < CellStart(vpOy, K(), blockWidth, cell.1 + 1)
    {
      var k := K();
      var i := AxisIndex(vpOx, k, blockWidth, x);
      var j := AxisIndex(vpOy, k, blockWidth, y);
      AxisIndexIff(vpOx, k, blockWidth, x, i);
      AxisIndexIff(vpOy, k, blockWidth, y, j);
      (i, j)
    }

    /** The cells a frame paints: the visible ones whose snapshot value is 1. */
    ghost function Painted(): set<(int, int)>
      reads this
      requires Valid()
    {
      set i, j | AxisFirst(vpOx, blockWidth) <= i < AxisEnd(vpOx, vpW, blockWidth)
                 && AxisFirst(vpOy, blockWidth) <= j < AxisEnd(vpOy, vpH, blockWidth)
                 && Lookup(grid, ToIndex(i, j, numRows)) == 1 :: (i, j)
    }

    /** The cells of columns `[from, to)` that a frame paints, among the
        visible rows. */
    ghost function PaintedColumns(from: int, to: int): set<(int, int)>
      reads this
      requires Valid()
    {
      set i, j | from <= i < to
                 && AxisFirst(vpOy, blockWidth) <= j < AxisEnd(vpOy, vpH, blockWidth)
                 && Lookup(grid, ToIndex(i, j, numRows)) == 1 :: (i, j)
    }

    /** Adding one column to a run of painted columns. */
    lemma PaintedColumnsStep(from: int, to: int)
      requires Valid() && from <= to
      ensures PaintedColumns(from, to + 1)
              == PaintedColumns(from, to) + PaintedColumn(to, AxisFirst(vpOy, blockWidth), AxisEnd(vpOy, vpH, blockWidth))
    {
    }

    /** The cells of column `i` that a frame paints, among rows `[from, to)`. */
    ghost function PaintedColumn(i: int, from: int, to: int): set<(int, int)>
      reads this
    {
      set j | from <= j < to && Lookup(grid, ToIndex(i, j, numRows)) == 1 :: (i, j)
    }

    /** `drawCells`: walks the columns from the first visible one while its
        screen position is inside the canvas and, in each, the rows likewise,
        painting each cell whose snapshot value is 1. */
    method DrawCells() returns (painted: set<(int, int)>)
      requires Valid()
      ensures painted == Painted()
    {
      var xInd := (vpOx / blockWidth).Floor;
      var xCoordStart := xInd as real * blockWidth - vpOx;
      var yInd := (vpOy / blockWidth).Floor;
      var yIndStart := yInd;
      var yCoordStart := yInd as real * blockWidth - vpOy;
      var k := canvasWidth / vpW;
      var tbw := blockWidth * k;
      ghost var xEnd := AxisEnd(vpOx, vpW, blockWidth);
      ghost var yEnd := AxisEnd(vpOy, vpH, blockWidth);
      painted := {};
      var x := k * xCoordStart;
      var xLimit := vpW * k;
      AxisOrder(vpOx, vpW, blockWidth);
      WalkStart(vpOx, vpW, k, blockWidth, xInd, x);
      while x < xLimit
        invariant AxisFirst(vpOx, blockWidth) <= xInd <= xEnd
        invariant x == CellStart(vpOx, k, blockWidth, xInd)
        invariant x < xLimit <==> xInd < xEnd
        invariant yInd == yIndStart
        invariant painted == PaintedColumns(AxisFirst(vpOx, blockWidth), xInd)
        decreases xEnd - xInd
      {
        var column := DrawColumn(k, xInd, yInd, yCoordStart);
        PaintedColumnsStep(AxisFirst(vpOx, blockWidth), xInd);
        painted := painted + column;
        WalkStep(vpOx, vpW, k, blockWidth, xInd, x);
        x := x + tbw;
        yInd := yIndStart;
        xInd := xInd + 1;
      }
    }

    /** The inner loop of `drawCells`: one column, rows from the first visible one. */
    method DrawColumn(k: real, xInd: int, yStart: int, yCoordStart: real) returns (column: set<(int, int)>)
      requires Valid() && k == canvasWidth / vpW
      requires yStart == AxisFirst(vpOy, blockWidth) && yCoordStart == yStart as real * blockWidth - vpOy
      ensures column == PaintedColumn(xInd, yStart, AxisEnd(vpOy, vpH, blockWidth))
    {
      var tbw := blockWidth * k;
      ghost var yEnd := AxisEnd(vpOy, vpH, blockWidth);
      var yInd := yStart;
      column := {};
      var y := k * yCoordStart;
      var yLimit := vpH * k;
      AxisOrder(vpOy, vpH, blockWidth);
      WalkStart(vpOy, vpH, k, blockWidth, yInd, y);
      while y < yLimit
        invariant yStart <= yInd <= yEnd
        invariant y == CellStart(vpOy, k, blockWidth, yInd)
        invariant y < yLimit <==> yInd < yEnd
        invariant column == PaintedColumn(xInd, yStart, yInd)
        decreases yEnd - yInd
      {
        if Lookup(grid, ToIndex(xInd, yInd, numRows)) == 1 {
          column := column + {(xInd, yInd)};
        }
        WalkStep(vpOy, vpH, k, blockWidth, yInd, y);
        y := y + tbw;
        yInd := yInd + 1;
      }
    }

    /** The vertical gridlines of `drawGrid`: one at the left edge of every
        visible cell after the first boundary at or right of the origin. */
    method Gridlines(origin: real, span: real) returns (lines: seq<real>)
      requires Valid() && span > 0.0
      ensures |lines| == AxisEnd(origin, span, blockWidth) - Ceil(origin / blockWidth)
      ensures forall n :: 0 <= n < |lines| ==>
                lines[n] == CellStart(origin, K(), blockWidth, Ceil(origin / blockWidth) + n)
      ensures forall n :: 0 <= n < |lines| ==> 0.0 <= lines[n] < span * K()
    {
      var start := Ceil(origin / blockWidth) as real * blockWidth - origin;
      var k := canvasWidth / vpW;
      var tbw := blockWidth * k;
      ghost var first := Ceil(origin / blockWidth);
      ghost var end := AxisEnd(origin, span, blockWidth);
      ghost var idx := first;
      GridlineStartBounds(origin, k, blockWidth);
      AxisOrder(origin, span, blockWidth);
      lines := [];
      var x := k * start;
      WalkStart(origin, span, k, blockWidth, idx, x);
      while x < span * k
        invariant first <= idx <= end
        invariant |lines| == idx - first
        invariant x == CellStart(origin, k, blockWidth, idx)
        invariant 0.0 <= x
        invariant x < span * k <==> idx < end
        invariant forall n :: 0 <= n < |lines| ==> lines[n] == CellStart(origin, k, blockWidth, first + n)
        invariant forall n :: 0 <= n < |lines| ==> 0.0 <= lines[n] < span * k
        decreases end - idx
      {
        lines := lines + [x];
        WalkStep(origin, span, k, blockWidth, idx, x);
        x := x + tbw;
        idx := idx + 1;
      }
    }

    /** `drawGrid` (and `render`): a redraw from the current snapshot, with the
        gridlines across both axes and the painted cells. */
    method DrawGrid() returns (columns: seq<real>, rows: seq<real>, painted: set<(int, int)>)
      requires Valid()
      modifies this
      ensures Valid()
      ensures effects == old(effects) + [Render]
      ensures canvasWidth == old(canvasWidth) && canvasHeight == old(canvasHeight)
      ensures vpOx == old(vpOx) && vpOy == old(vpOy) && vpW == old(vpW) && vpH == old(vpH)
      ensures mode == old(mode) && grid == old(grid)
      ensures forall n :: 0 <= n < |columns| ==> 0.0 <= columns[n] < canvasWidth
      ensures Proportional() ==> forall n :: 0 <= n < |rows| ==> 0.0 <= rows[n] < canvasHeight
      ensures painted == Painted()
    {
      effects := effects + [Render];
      columns := Gridlines(vpOx, vpW);
      rows := Gridlines(vpOy, vpH);
      if Proportional() {
        ProportionalScale(canvasWidth, canvasHeight, vpW, vpH);
      }
      painted := DrawCells();
    }

    /** `clearUniverse`: resets the engine, then redraws. */
    method ClearUniverse()
      requires Valid()
      modifies this
      ensures Valid()
      ensures effects == old(effects) + [Reset, Render]
      ensures canvasWidth == old(canvasWidth) && canvasHeight == old(canvasHeight)
      ensures vpOx == old(vpOx) && vpOy == old(vpOy) && vpW == old(vpW) && vpH == old(vpH)
      ensures mode == old(mode) && grid == old(grid)
    {
      effects := effects + [Reset];
      var _, _, _ := DrawGrid();
    }

    /** A painted cell is visible (its square starts inside the viewport) and
        live in the snapshot. */
    lemma {:induction false} PaintedVisible(i: int, j: int)
      requires Valid() && (i, j) in Painted()
      ensures AxisFirst(vpOx, blockWidth) <= i && i as real * blockWidth - vpOx < vpW
      ensures AxisFirst(vpOy, blockWidth) <= j && j as real * blockWidth - vpOy < vpH
      ensures 0 <= ToIndex(i, j, numRows) < |grid| && grid[ToIndex(i, j, numRows)] == 1
    {
      AxisEndIff(vpOx, vpW, blockWidth, i);
      AxisEndIff(vpOy, vpH, blockWidth, j);
    }

    /** While the viewport lies inside the universe, a click on the canvas
        maps to a cell of the grid. */
    lemma {:induction false} ClickInRange(cx: real, cy: real)
      requires Valid() && InUniverse() && Proportional()
      requires 0.0 <= cx < canvasWidth && 0.0 <= cy < canvasHeight
      ensures 0 <= LocToIndex(cx, cy).0 < numRows && 0 <= LocToIndex(cx, cy).1 < numRows
    {
      var k := K();
      ProportionalScale(canvasWidth, canvasHeight, vpW, vpH);
      AxisIndexInRange(vpOx, vpW, k, blockWidth, cx, numRows);
      AxisIndexInRange(vpOy, vpH, k, blockWidth, cy, numRows);
    }

    /** While the viewport lies inside the universe, every cell the walk of
        `drawCells` visits is a cell of the grid, so each read is in range and
        reads that very cell. */
    lemma {:induction false} ReadsInRange(i: int, j: int)
      requires Valid() && InUniverse()
      requires AxisFirst(vpOx, blockWidth) <= i < AxisEnd(vpOx, vpW, blockWidth)
      requires AxisFirst(vpOy, blockWidth) <= j < AxisEnd(vpOy, vpH, blockWidth)
      ensures 0 <= i < numRows && 0 <= j < numRows
      ensures 0 <= ToIndex(i, j, numRows) < numRows * numRows
    {
      VisibleCellsInRange(vpOx, vpW, blockWidth, numRows);
      VisibleCellsInRange(vpOy, vpH, blockWidth, numRows);
    }
  }
}
