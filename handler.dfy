/** The `MouseHandler` of the current frontend: dragging pans the view in
    NORMAL mode and toggles the cells under the cursor in INSERT mode, once
    per cell entered; the wheel zooms about the cursor. */
module Handler {
  import opened Viewport
  import opened Canvas

  class MouseHandler {
    const view: View
    var isDragging: bool
    var dragStartX: real
    var dragStartY: real
    var lastToggled: (int, int)

    constructor (v: View)
      ensures view == v && !isDragging && dragStartX == 0.0 && dragStartY == 0.0
      ensures lastToggled == (-1, -1)
    {
      view := v;
      isDragging := false;
      dragStartX := 0.0;
      dragStartY := 0.0;
      lastToggled := (-1, -1);
    }

    /** `handleMouseMove`. A NORMAL drag moves the origin against the cursor
        and clamps it into the universe, then redraws; an INSERT drag toggles
        the cell under the cursor unless it is the one toggled last, then
        redraws; anything else does nothing. */
    method HandleMouseMove(cx: real, cy: real)
      requires view.Valid()
      modifies this, view
      ensures view.Valid() && isDragging == old(isDragging)
      ensures old(view.InUniverse()) ==> view.InUniverse()
      ensures view.mode == old(view.mode) && view.grid == old(view.grid)
      ensures view.canvasWidth == old(view.canvasWidth) && view.canvasHeight == old(view.canvasHeight)
      ensures view.vpW == old(view.vpW) && view.vpH == old(view.vpH)
      ensures old(view.mode) == Normal && old(isDragging) ==>
                view.vpOx == PanAxis(old(view.vpOx), cx - old(dragStartX), old(view.K()), view.universeWidth, view.vpW)
                && view.vpOy == PanAxis(old(view.vpOy), cy - old(dragStartY), old(view.K()), view.universeWidth, view.vpH)
                && dragStartX == cx && dragStartY == cy && lastToggled == old(lastToggled)
                && view.effects == old(view.effects) + [Render]
      ensures old(view.mode) == Insert && old(isDragging) ==>
                var cell := old(view.LocToIndex(cx, cy));
                view.vpOx == old(view.vpOx) && view.vpOy == old(view.vpOy)
                && dragStartX == old(dragStartX) && dragStartY == old(dragStartY)
                && lastToggled == cell
                && view.effects == old(view.effects) + (if cell == old(lastToggled) then [] else [Toggle(cell.0, cell.1), Render])
      ensures !old(isDragging) ==>
                view.vpOx == old(view.vpOx) && view.vpOy == old(view.vpOy) && view.effects == old(view.effects)
                && dragStartX == old(dragStartX) && dragStartY == old(dragStartY) && lastToggled == old(lastToggled)
    {
      if view.mode == Normal && isDragging {
        var deltaX := cx - dragStartX;
        var deltaY := cy - dragStartY;
        var k := view.canvasWidth / view.vpW;
        view.vpOx := Clamp(view.vpOx - deltaX / k, view.universeWidth - view.vpW, 0.0);
        view.vpOy := Clamp(view.vpOy - deltaY / k, view.universeWidth - view.vpH, 0.0);
        dragStartX := cx;
        dragStartY := cy;
        var _, _, _ := view.DrawGrid();
      } else if view.mode == Insert && isDragging {
        var cell := view.LocToIndex(cx, cy);
        if cell == lastToggled {
          return;
        }
        view.effects := view.effects + [Toggle(cell.0, cell.1)];
        lastToggled := cell;
        var _, _, _ := view.DrawGrid();
      }
    }

    /** `handleMouseDown` as written: starts a drag at the cursor and, in
        INSERT mode, toggles the cell under it and redraws, without recording
        that cell in `lastToggled`. */
    method HandleMouseDown(cx: real, cy: real)
      requires view.Valid()
      modifies this, view
      ensures view.Valid()
      ensures isDragging && dragStartX == cx && dragStartY == cy
      ensures lastToggled == old(lastToggled)
      ensures view.mode == old(view.mode) && view.grid == old(view.grid)
      ensures view.canvasWidth == old(view.canvasWidth) && view.canvasHeight == old(view.canvasHeight)
      ensures view.vpOx == old(view.vpOx) && view.vpOy == old(view.vpOy)
      ensures view.vpW == old(view.vpW) && view.vpH == old(view.vpH)
      ensures view.effects == old(view.effects) +
                (if old(view.mode) == Insert
                 then [Toggle(old(view.LocToIndex(cx, cy)).0, old(view.LocToIndex(cx, cy)).1), Render]
                 else [])
    {
      isDragging := true;
      dragStartX := cx;
      dragStartY := cy;
      if view.mode == Insert {
        var cell := view.LocToIndex(cx, cy);
        view.effects := view.effects + [Toggle(cell.0, cell.1)];
        var _, _, _ := view.DrawGrid();
      }
    }

    /** `handleMouseDown` as evidently intended: the cell toggled on the press
        is recorded, so moving inside it does not toggle it back. */
    method HandleMouseDownIntended(cx: real, cy: real)
      requires view.Valid()
      modifies this, view
      ensures view.Valid()
      ensures isDragging && dragStartX == cx && dragStartY == cy
      ensures lastToggled == if old(view.mode) == Insert then old(view.LocToIndex(cx, cy)) else old(lastToggled)
      ensures view.mode == old(view.mode) && view.grid == old(view.grid)
      ensures view.canvasWidth == old(view.canvasWidth) && view.canvasHeight == old(view.canvasHeight)
      ensures view.vpOx == old(view.vpOx) && view.vpOy == old(view.vpOy)
      ensures view.vpW == old(view.vpW) && view.vpH == old(view.vpH)
      ensures view.effects == old(view.effects) +
                (if old(view.mode) == Insert
                 then [Toggle(old(view.LocToIndex(cx, cy)).0, old(view.LocToIndex(cx, cy)).1), Render]
                 else [])
    {
      isDragging := true;
      dragStartX := cx;
      dragStartY := cy;
      if view.mode == Insert {
        var cell := view.LocToIndex(cx, cy);
        view.effects := view.effects + [Toggle(cell.0, cell.1)];
        lastToggled := cell;
        var _, _, _ := view.DrawGrid();
      }
    }

    /** `handleWheel`: zooms by `WheelFactor(deltaY)` about the cursor when
        both scaled spans stay within bounds, clamps the origin into the
        universe, and redraws in either case. */
    method HandleWheel(cx: real, cy: real, deltaY: real)
      requires view.Valid()
      modifies view
      ensures view.Valid()
      ensures view.Cam() == WheelZoom(old(view.Cam()), view.canvasWidth, view.canvasHeight, cx, cy, deltaY,
                                      view.universeWidth, view.blockWidth)
      ensures old(view.InUniverse()) ==> view.InUniverse()
      ensures old(view.Proportional()) ==> view.Proportional()
      ensures view.mode == old(view.mode) && view.grid == old(view.grid)
      ensures view.canvasWidth == old(view.canvasWidth) && view.canvasHeight == old(view.canvasHeight)
      ensures view.effects == old(view.effects) + [Render]
    {
      // the cursor offsets `x`, `nx` and the shift `dx = x - nx` are those of `ZoomOrigin`
      var cam := view.Cam();
      if view.Proportional() {
        WheelZoomProportional(cam, view.canvasWidth, view.canvasHeight, cx, cy, deltaY,
                              view.universeWidth, view.blockWidth);
      }
      var r := WheelZoom(cam, view.canvasWidth, view.canvasHeight, cx, cy, deltaY,
                         view.universeWidth, view.blockWidth);
      view.vpOx, view.vpOy, view.vpW, view.vpH := r.ox, r.oy, r.w, r.h;
      var _, _, _ := view.DrawGrid();
    }

    /** `handleMouseUp`: ends the drag; `lastToggled` is kept. */
    method HandleMouseUp()
      modifies this
      ensures !isDragging
      ensures dragStartX == old(dragStartX) && dragStartY == old(dragStartY) && lastToggled == old(lastToggled)
    {
      isDragging := false;
    }
  }

  /** The number of times `Toggle(x, y)` occurs in an effect log. */
  function Toggles(effects: seq<Effect>, x: int, y: int): (n: nat)
    ensures n == 0 <==> Toggle(x, y) !in effects
  {
    multiset(effects)[Toggle(x, y)]
  }

  /** A press in INSERT mode on the cell at `(55, 55)` of a 100-by-100 canvas
      with 10-pixel blocks, followed by a move to `(56, 56)` inside the same
      cell: the handler as written toggles that cell twice, so it ends as it
      started. */
  method PressAndJitterAsWritten() returns (toggles: nat)
    ensures toggles == 2
  {
    var v := new View(100.0, 100.0, 10.0, 4);
    v.SetMode(Insert);
    assert v.K() == 1.0;
    assert v.LocToIndex(55.0, 55.0) == (5, 5) by {
      AxisIndexIff(0.0, 1.0, 10.0, 55.0, 5);
    }
    assert v.LocToIndex(56.0, 56.0) == (5, 5) by {
      AxisIndexIff(0.0, 1.0, 10.0, 56.0, 5);
    }
    var h := new MouseHandler(v);
    h.HandleMouseDown(55.0, 55.0);
    h.HandleMouseMove(56.0, 56.0);
    assert v.effects == [Toggle(5, 5), Render, Toggle(5, 5), Render];
    toggles := Toggles(v.effects, 5, 5);
  }

  /** The same press and move with the press recording its cell: the cell is
      toggled once. */
  method PressAndJitterIntended() returns (toggles: nat)
    ensures toggles == 1
  {
    var v := new View(100.0, 100.0, 10.0, 4);
    v.SetMode(Insert);
    assert v.K() == 1.0;
    assert v.LocToIndex(55.0, 55.0) == (5, 5) by {
      AxisIndexIff(0.0, 1.0, 10.0, 55.0, 5);
    }
    assert v.LocToIndex(56.0, 56.0) == (5, 5) by {
      AxisIndexIff(0.0, 1.0, 10.0, 56.0, 5);
    }
    var h := new MouseHandler(v);
    h.HandleMouseDownIntended(55.0, 55.0);
    h.HandleMouseMove(56.0, 56.0);
    assert v.effects == [Toggle(5, 5), Render];
    toggles := Toggles(v.effects, 5, 5);
  }
}
