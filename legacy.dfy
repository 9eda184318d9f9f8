/** The older, self-contained frontend: a 1024-by-1024 grid of numbers held in
    the page itself, a fixed EDIT mode in which a press flips the cell under
    the cursor, dragging pans, and the wheel zooms about the viewport centre. */
module Legacy {
  import opened Viewport

  const NumRows: nat := 1024
  const NumCols: nat := 1024
  const BlockWidth: real := 10.0
  const UniverseWidth: real := 10240.0
  const UniverseHeight: real := 10240.0
  /** `MAX_ZOOM_F`: the smallest span is this many blocks. */
  const MaxZoomF: real := 10.0
  /** `MIN_ZOOM_F`: the largest span is the universe divided by this. */
  const MinZoomF: real := 4.0

  /** The initial value of cell `(i, j)`: 1 where `(i * j) % 7 == 0`. */
  function InitialCell(i: nat, j: nat): (v: int)
    ensures v == 0 || v == 1
  {
    if (i * j) % 7 == 0 then 1 else 0
  }

  /** A cell starts live exactly on the rows and columns whose number is a
      multiple of 7, since 7 is prime. */
  lemma {:induction false} InitialCellIff(i: nat, j: nat)
    ensures InitialCell(i, j) == 1 <==> i % 7 == 0 || j % 7 == 0
  {
    var a, r := i / 7, i % 7;
    var b, s := j / 7, j % 7;
    assert i == a * 7 + r && j == b * 7 + s;
    var rs := r * s;
    assert i * j == (a * b * 7 + a * s + r * b) * 7 + rs by {
      assert i * j == (a * 7 + r) * (b * 7 + s);
    }
    assert rs == (rs / 7) * 7 + rs % 7;
    assert i * j == (a * b * 7 + a * s + r * b + rs / 7) * 7 + rs % 7;
    ModOfDecomposition(i * j, a * b * 7 + a * s + r * b + rs / 7, rs % 7);
    SmallProducts(r, s);
  }

  /** The remainder by 7 of a number written as a multiple of 7 plus an
      in-range rest is that rest. */
  lemma {:induction false} ModOfDecomposition(v: int, q: int, rest: int)
    requires 0 <= rest < 7 && v == q * 7 + rest
    ensures v % 7 == rest
  {
    var q', r' := v / 7, v % 7;
    assert v == q' * 7 + r';
    assert (q' - q) * 7 == rest - r';
  }

  /** For residues below 7 the product is a multiple of 7 only when one of
      them is zero. */
  lemma SmallProducts(r: int, s: int)
    requires 0 <= r < 7 && 0 <= s < 7
    ensures (r * s) % 7 == 0 <==> r == 0 || s == 0
  {
    if r == 0 || s == 0 {
    } else if r == 1 {
    } else if r == 2 {
    } else if r == 3 {
    } else if r == 4 {
    } else if r == 5 {
    } else {
      assert r == 6;
    }
  }

  /** The initialisation loops of the older frontend. */
  method InitialGrid() returns (g: array2<int>)
    ensures fresh(g) && g.Length0 == NumRows && g.Length1 == NumCols
    ensures forall i, j :: 0 <= i < NumRows && 0 <= j < NumCols ==> g[i, j] == InitialCell(i, j)
  {
    g := new int[NumRows, NumCols];
    var i := 0;
    while i < NumRows
      invariant 0 <= i <= NumRows
      invariant forall a, b :: 0 <= a < i && 0 <= b < NumCols ==> g[a, b] == InitialCell(a, b)
    {
      var j := 0;
      while j < NumCols
        invariant 0 <= j <= NumCols
        invariant forall a, b :: 0 <= a < i && 0 <= b < NumCols ==> g[a, b] == InitialCell(a, b)
        invariant forall b :: 0 <= b < j ==> g[i, b] == InitialCell(i, b)
      {
        g[i, j] := 0;
        if (i * j) % 7 == 0 {
          g[i, j] := 1;
        }
        j := j + 1;
      }
      i := i + 1;
    }
  }

  /** The zoom guard of the older frontend: both new spans `span - delta` lie
      in `[MAX_ZOOM_F * BLOCK_WIDTH, UNIVERSE / MIN_ZOOM_F]`. */
  predicate LegacyZoomAccepted(w: real, h: real, dw: real, dh: real)
  {
    !(w - dw > UniverseWidth / MinZoomF || w - dw < MaxZoomF * BlockWidth
      || h - dh > UniverseHeight / MinZoomF || h - dh < MaxZoomF * BlockWidth)
  }

  /** The guard's bounds are 100 and 2560 world pixels. */
  lemma LegacyZoomBounds(w: real, h: real, dw: real, dh: real)
    ensures LegacyZoomAccepted(w, h, dw, dh) <==>
              100.0 <= w - dw <= 2560.0 && 100.0 <= h - dh <= 2560.0
  {
  }

  /** The zoom of `handleWheel`: scrolling down grows both spans by a tenth,
      up shrinks them by a tenth, and each origin moves by half the change so
      that the centre stays, then is clamped into the universe; a change that
      would take a span outside `[100, 2560]` is refused. */
  function LegacyZoom(c: Camera, deltaY: real): (r: Camera)
    requires c.w > 0.0 && c.h > 0.0
    ensures r.w > 0.0 && r.h > 0.0
    ensures var d := LegacyWheelStep(deltaY);
            LegacyZoomAccepted(c.w, c.h, d * c.w, d * c.h) ==>
              r.w == c.w - d * c.w && r.h == c.h - d * c.h
              && 100.0 <= r.w <= 2560.0 && 100.0 <= r.h <= 2560.0
              && 0.0 <= r.ox && r.ox + r.w <= UniverseWidth
              && 0.0 <= r.oy && r.oy + r.h <= UniverseHeight
    ensures var d := LegacyWheelStep(deltaY);
            !LegacyZoomAccepted(c.w, c.h, d * c.w, d * c.h) ==> r == c
  {
    var d := LegacyWheelStep(deltaY);
    var dw := d * c.w;
    var dh := d * c.h;
    LegacyZoomBounds(c.w, c.h, dw, dh);
    if !LegacyZoomAccepted(c.w, c.h, dw, dh) then c
    else
      var w := c.w - dw;
      var h := c.h - dh;
      Camera(Clamp(LegacyZoomOrigin(c.ox, dw), UniverseWidth - w, 0.0),
             Clamp(LegacyZoomOrigin(c.oy, dh), UniverseHeight - h, 0.0), w, h)
  }

  /** When the clamp does not bite, an accepted zoom keeps the centre of the
      viewport where it was. */
  lemma LegacyZoomCentre(c: Camera, deltaY: real)
    requires c.w > 0.0 && c.h > 0.0
    requires var d := LegacyWheelStep(deltaY);
             LegacyZoomAccepted(c.w, c.h, d * c.w, d * c.h)
             && 0.0 <= LegacyZoomOrigin(c.ox, d * c.w) <= UniverseWidth - (c.w - d * c.w)
             && 0.0 <= LegacyZoomOrigin(c.oy, d * c.h) <= UniverseHeight - (c.h - d * c.h)
    ensures var r := LegacyZoom(c, deltaY);
            r.ox + r.w / 2.0 == c.ox + c.w / 2.0 && r.oy + r.h / 2.0 == c.oy + c.h / 2.0
  {
    var d := LegacyWheelStep(deltaY);
    LegacyZoomKeepsCentre(c.ox, c.w, d * c.w);
    LegacyZoomKeepsCentre(c.oy, c.h, d * c.h);
  }

  class LegacyViewer {
    const grid: array2<int>
    var canvasWidth: real
    var canvasHeight: real
    var vpOx: real
    var vpOy: real
    var vpW: real
    var vpH: real
    var isDragging: bool
    var dragStartX: real
    var dragStartY: real
    /** How many times the page has been redrawn. */
    var redraws: nat

    ghost predicate Valid()
      reads this
    {
      grid.Length0 == NumRows && grid.Length1 == NumCols
      && canvasWidth > 0.0 && canvasHeight > 0.0 && vpW > 0.0 && vpH > 0.0
    }

    /** The page setup and the first `run`: the grid is initialised, the
        canvas takes the client size in whole blocks, the viewport is 128
        blocks wide with the canvas's aspect ratio, and the page is drawn. */
    constructor (clientWidth: real, clientHeight: real)
      requires Round(clientWidth / 10.0) >= 1 && Round(clientHeight / 10.0) >= 1
      ensures Valid() && fresh(grid)
      ensures forall i, j :: 0 <= i < NumRows && 0 <= j < NumCols ==> grid[i, j] == InitialCell(i, j)
      ensures canvasWidth == Round(clientWidth / 10.0) as real * BlockWidth
      ensures canvasHeight == Round(clientHeight / 10.0) as real * BlockWidth
      ensures vpOx == 0.0 && vpOy == 0.0 && vpW == 1280.0 && vpH * canvasWidth == vpW * canvasHeight
      ensures !isDragging && redraws == 1
    {
      var g := InitialGrid();
      var cw := Round(clientWidth / 10.0) as real * BlockWidth;
      var ch := Round(clientHeight / 10.0) as real * BlockWidth;
      var w := 128.0 * BlockWidth;
      grid := g;
      canvasWidth := cw;
      canvasHeight := ch;
      vpOx := 0.0;
      vpOy := 0.0;
      vpW := w;
      vpH := w * ch / cw;
      isDragging := false;
      dragStartX := 0.0;
      dragStartY := 0.0;
      redraws := 1;
    }

    /** `locToIndex` of the older frontend. */
    function LocToIndex(x: real, y: real): (cell: (int, int))
      reads this
      requires Valid()
      ensures var k := Scale(canvasWidth, vpW);
              CellStart(vpOx, k, BlockWidth, cell.0) <= x < CellStart(vpOx, k, BlockWidth, cell.0 + 1)
              && CellStart(vpOy, k, BlockWidth, cell.1) <= y < CellStart(vpOy, k, BlockWidth, cell.1 + 1)
    {
      var k := Scale(canvasWidth, vpW);
      var i := AxisIndex(vpOx, k, BlockWidth, x);
      var j := AxisIndex(vpOy, k, BlockWidth, y);
      AxisIndexIff(vpOx, k, BlockWidth, x, i);
      AxisIndexIff(vpOy, k, BlockWidth, y, j);
      (i, j)
    }

    /** `handleMouseDown`: starts a drag and, the mode being always EDIT,
        flips the cell under the cursor between 0 and 1 and redraws. A
        cursor on a row outside the grid makes the source throw; a column
        outside the grid on a valid row stores `NaN` in that row, which a
        fixed-size grid cannot hold. Both are excluded. */
    method HandleMouseDown(cx: real, cy: real)
      requires Valid()
      requires 0 <= LocToIndex(cx, cy).0 < NumRows && 0 <= LocToIndex(cx, cy).1 < NumCols
      modifies this, grid
      ensures Valid()
      ensures isDragging && dragStartX == cx && dragStartY == cy
      ensures var c := old(LocToIndex(cx, cy));
              grid[c.0, c.1] == 1 - old(grid[c.0, c.1])
              && forall i, j :: 0 <= i < NumRows && 0 <= j < NumCols && (i, j) != c ==> grid[i, j] == old(grid[i, j])
      ensures canvasWidth == old(canvasWidth) && canvasHeight == old(canvasHeight)
      ensures vpOx == old(vpOx) && vpOy == old(vpOy) && vpW == old(vpW) && vpH == old(vpH)
      ensures redraws == old(redraws) + 1
    {
      isDragging := true;
      dragStartX := cx;
      dragStartY := cy;
      var cell := LocToIndex(cx, cy);
      grid[cell.0, cell.1] := 1 - grid[cell.0, cell.1];
      redraws := redraws + 1;
    }

    /** Two presses at the same point leave the grid as it was. */
    method PressTwice(cx: real, cy: real)
      requires Valid()
      requires 0 <= LocToIndex(cx, cy).0 < NumRows && 0 <= LocToIndex(cx, cy).1 < NumCols
      modifies this, grid
      ensures forall i, j :: 0 <= i < NumRows && 0 <= j < NumCols ==> grid[i, j] == old(grid[i, j])
      ensures redraws == old(redraws) + 2
    {
      HandleMouseDown(cx, cy);
      HandleMouseDown(cx, cy);
    }

    /** `handleWheel`: the viewport follows `LegacyZoom` and the page is
        redrawn whether or not the zoom was refused. */
    method HandleWheel(deltaY: real)
      requires Valid()
      modifies this
      ensures Valid()
      ensures Camera(vpOx, vpOy, vpW, vpH) == LegacyZoom(Camera(old(vpOx), old(vpOy), old(vpW), old(vpH)), deltaY)
      ensures canvasWidth == old(canvasWidth) && canvasHeight == old(canvasHeight)
      ensures isDragging == old(isDragging) && redraws == old(redraws) + 1
      ensures dragStartX == old(dragStartX) && dragStartY == old(dragStartY)
    {
      var r := LegacyZoom(Camera(vpOx, vpOy, vpW, vpH), deltaY);
      vpOx, vpOy, vpW, vpH := r.ox, r.oy, r.w, r.h;
      redraws := redraws + 1;
    }

    /** `handleMouseMove`: while dragging, pans against the cursor, clamping
        the origin into the universe, moves the anchor and redraws. */
    method HandleMouseMove(cx: real, cy: real)
      requires Valid()
      modifies this
      ensures Valid()
      ensures old(isDragging) ==>
                vpOx == PanAxis(old(vpOx), cx - old(dragStartX), Scale(canvasWidth, vpW), UniverseWidth, vpW)
                && vpOy == PanAxis(old(vpOy), cy - old(dragStartY), Scale(canvasWidth, vpW), UniverseHeight, vpH)
                && dragStartX == cx && dragStartY == cy && redraws == old(redraws) + 1
      ensures !old(isDragging) ==>
                vpOx == old(vpOx) && vpOy == old(vpOy) && dragStartX == old(dragStartX)
                && dragStartY == old(dragStartY) && redraws == old(redraws)
      ensures isDragging == old(isDragging)
      ensures canvasWidth == old(canvasWidth) && canvasHeight == old(canvasHeight) && vpW == old(vpW) && vpH == old(vpH)
    {
      if isDragging {
        var deltaX := cx - dragStartX;
        var deltaY := cy - dragStartY;
        var k := canvasWidth / vpW;
        vpOx := Clamp(vpOx - deltaX / k, UniverseWidth - vpW, 0.0);
        vpOy := Clamp(vpOy - deltaY / k, UniverseHeight - vpH, 0.0);
        dragStartX := cx;
        dragStartY := cy;
        redraws := redraws + 1;
      }
    }

    /** `handleMouseUp`: ends the drag. */
    method HandleMouseUp()
      modifies this
      ensures !isDragging
      ensures vpOx == old(vpOx) && vpOy == old(vpOy) && vpW == old(vpW) && vpH == old(vpH)
      ensures canvasWidth == old(canvasWidth) && canvasHeight == old(canvasHeight)
      ensures redraws == old(redraws)
      ensures dragStartX == old(dragStartX) && dragStartY == old(dragStartY)
    {
      isDragging := false;
    }

    /** The resize listener of the older frontend: only the canvas changes;
        the viewport keeps its spans, so the scale follows the new width. */
    method Resize(clientWidth: real, clientHeight: real)
      requires Valid() && Round(clientWidth / 10.0) >= 1 && Round(clientHeight / 10.0) >= 1
      modifies this
      ensures Valid()
      ensures canvasWidth == Round(clientWidth / 10.0) as real * BlockWidth
      ensures canvasHeight == Round(clientHeight / 10.0) as real * BlockWidth
      ensures vpOx == old(vpOx) && vpOy == old(vpOy) && vpW == old(vpW) && vpH == old(vpH)
      ensures redraws == old(redraws) + 1
      ensures isDragging == old(isDragging)
      ensures dragStartX == old(dragStartX) && dragStartY == old(dragStartY)
    {
      canvasWidth := Round(clientWidth / 10.0) as real * BlockWidth;
      canvasHeight := Round(clientHeight / 10.0) as real * BlockWidth;
      redraws := redraws + 1;
    }
  }
}
