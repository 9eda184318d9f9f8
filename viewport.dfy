/** The viewport arithmetic of both frontends, on exact reals: the camera is an
    origin `(ox, oy)` and spans `(w, h)` in world pixels, a cell is a square of
    `BLOCK_WIDTH` world pixels, and the canvas shows the camera scaled by
    `k = canvas.width / w`. */
module Viewport {

  /** `Math.min`. */
  function Min(a: real, b: real): real
  {
    if a <= b then a else b
  }

  /** `Math.max`. */
  function Max(a: real, b: real): real
  {
    if a >= b then a else b
  }

  /** `clamp(x, max, min)`: `Math.max(min, Math.min(x, max))`. The lower bound
      wins when the bounds cross. */
  function Clamp(x: real, max: real, min: real): (r: real)
    ensures r >= min
    ensures min <= max ==> r <= max
    ensures min <= x <= max ==> r == x
    ensures max < min ==> r == min
  {
    Max(min, Min(x, max))
  }

  /** `Math.ceil`. */
  function Ceil(r: real): (c: int)
    ensures r <= c as real < r + 1.0
  {
    -((-r).Floor)
  }

  /** `Math.round`: the nearest integer, halves rounding up. */
  function Round(r: real): (c: int)
    ensures r - 0.5 < c as real <= r + 0.5
  {
    (r + 0.5).Floor
  }

  /** The scale `k = canvas.width / vp_w` from world to screen pixels. */
  function Scale(canvasWidth: real, span: real): (k: real)
    requires canvasWidth > 0.0 && span > 0.0
    ensures k > 0.0 && k * span == canvasWidth
  {
    canvasWidth / span
  }

  /** When the viewport has the canvas's aspect ratio, the scale `k` of the
      width also maps the viewport height onto the canvas height. */
  lemma ProportionalScale(canvasWidth: real, canvasHeight: real, w: real, h: real)
    requires canvasWidth > 0.0 && w > 0.0 && h * canvasWidth == w * canvasHeight
    ensures h * Scale(canvasWidth, w) == canvasHeight
  {
    var k := Scale(canvasWidth, w);
    assert w * (h * k) == h * canvasWidth;
  }

  /** Scaling both spans by one factor keeps their aspect ratio. */
  lemma ScaledProportional(canvasWidth: real, canvasHeight: real, w: real, h: real, f: real)
    ensures h * canvasWidth == w * canvasHeight ==> (h * f) * canvasWidth == (w * f) * canvasHeight
  {
    if h * canvasWidth == w * canvasHeight {
      calc {
        (h * f) * canvasWidth;
        == f * (h * canvasWidth);
        == f * (w * canvasHeight);
        == (w * f) * canvasHeight;
      }
    }
  }

  /** One axis of `locToIndex`: `Math.floor(origin / BLOCK_WIDTH + s / (k * BLOCK_WIDTH))`. */
  function AxisIndex(origin: real, k: real, bw: real, s: real): int
    requires k > 0.0 && bw > 0.0
  {
    AxisValue(origin, k, bw, s).Floor
  }

  /** The screen position where `drawCells` starts painting cell `i` on one
      axis: `k * (i * BLOCK_WIDTH - origin)`. */
  function CellStart(origin: real, k: real, bw: real, i: int): real
  {
    k * (i as real * bw - origin)
  }

  /** `a < b` scaled by a positive factor. */
  lemma ScaleLess(a: real, b: real, c: real)
    requires c > 0.0
    ensures a < b <==> a * c < b * c
    ensures a <= b <==> a * c <= b * c
  {
  }

  /** The unfloored cell coordinate of `locToIndex` on one axis. */
  function AxisValue(origin: real, k: real, bw: real, s: real): real
    requires k > 0.0 && bw > 0.0
  {
    origin / bw + s / (k * bw)
  }

  /** Scaling the unfloored coordinate back to screen pixels. */
  lemma {:induction false} AxisValueScaled(origin: real, k: real, bw: real, s: real)
    requires k > 0.0 && bw > 0.0
    ensures AxisValue(origin, k, bw, s) * (k * bw) == k * origin + s
  {
    var kb := k * bw;
    assert (origin / bw) * kb == k * origin;
    assert (s / kb) * kb == s;
  }

  /** A cell's screen position, expanded. */
  lemma CellStartScaled(origin: real, k: real, bw: real, i: int)
    ensures CellStart(origin, k, bw, i) == i as real * (k * bw) - k * origin
  {
  }

  /** Comparing a screen position with a cell edge is comparing the unfloored
      coordinate with the cell number. */
  lemma {:induction false} EdgeIff(origin: real, k: real, bw: real, s: real, i: int)
    requires k > 0.0 && bw > 0.0
    ensures CellStart(origin, k, bw, i) <= s <==> i as real <= AxisValue(origin, k, bw, s)
    ensures s < CellStart(origin, k, bw, i) <==> AxisValue(origin, k, bw, s) < i as real
    ensures s <= CellStart(origin, k, bw, i) <==> AxisValue(origin, k, bw, s) <= i as real
  {
    var kb := k * bw;
    var v := AxisValue(origin, k, bw, s);
    AxisValueScaled(origin, k, bw, s);
    CellStartScaled(origin, k, bw, i);
    ScaleLess(i as real, v, kb);
    ScaleLess(v, i as real, kb);
    Shift(v * kb, i as real * kb, k * origin, s, CellStart(origin, k, bw, i));
  }

  /** Moving a common offset across a comparison. */
  lemma Shift(vk: real, ik: real, ko: real, s: real, a: real)
    requires vk == ko + s && a == ik - ko
    ensures a <= s <==> ik <= vk
    ensures s < a <==> vk < ik
    ensures s <= a <==> vk <= ik
  {
  }

  /** `locToIndex` maps a screen position to cell `i` exactly when the position
      lies in the square `drawCells` paints for cell `i`, of side `k * BLOCK_WIDTH`. */
  lemma {:induction false} AxisIndexIff(origin: real, k: real, bw: real, s: real, i: int)
    requires k > 0.0 && bw > 0.0
    ensures AxisIndex(origin, k, bw, s) == i <==>
              CellStart(origin, k, bw, i) <= s < CellStart(origin, k, bw, i + 1)
  {
    var v := AxisValue(origin, k, bw, s);
    EdgeIff(origin, k, bw, s, i);
    EdgeIff(origin, k, bw, s, i + 1);
    assert AxisIndex(origin, k, bw, s) == v.Floor;
    assert v.Floor == i <==> i as real <= v < (i + 1) as real;
  }

  /** The first cell `drawCells` visits on one axis: `Math.floor(origin / BLOCK_WIDTH)`. */
  function AxisFirst(origin: real, bw: real): int
    requires bw > 0.0
  {
    (origin / bw).Floor
  }

  /** One past the last cell visible on one axis: the least cell whose left
      edge is at or beyond the far side of the viewport. */
  function AxisEnd(origin: real, span: real, bw: real): int
    requires bw > 0.0
  {
    Ceil((origin + span) / bw)
  }

  /** The viewport's first boundary and its first cell both come no later
      than `AxisEnd`, and the first cell comes strictly before it. */
  lemma {:induction false} AxisOrder(origin: real, span: real, bw: real)
    requires bw > 0.0 && span > 0.0
    ensures AxisFirst(origin, bw) <= Ceil(origin / bw) <= AxisEnd(origin, span, bw)
    ensures AxisFirst(origin, bw) < AxisEnd(origin, span, bw)
  {
    var a := origin / bw;
    var b := (origin + span) / bw;
    assert b == a + span / bw;
    assert span / bw > 0.0;
    assert a < b;
  }

  /** An integer lies below a real exactly when it lies below its ceiling. */
  lemma BelowCeil(i: int, r: real)
    ensures i as real < r <==> i < Ceil(r)
  {
  }

  /** The cells before `AxisEnd` are those whose left edge lies inside the
      viewport: `i * BLOCK_WIDTH - origin < span`. */
  lemma {:induction false} AxisEndIff(origin: real, span: real, bw: real, i: int)
    requires bw > 0.0
    ensures i < AxisEnd(origin, span, bw) <==> i as real * bw - origin < span
  {
    var e := (origin + span) / bw;
    BelowCeil(i, e);
    assert e * bw == origin + span;
    ScaleLess(i as real, e, bw);
  }

  /** The loop guard of `drawCells` and `drawGrid`, `x < vp_w * k` with
      `x = k * (i * BLOCK_WIDTH - origin)`, holds exactly before `AxisEnd`. */
  lemma {:induction false} LoopGuardIff(origin: real, span: real, k: real, bw: real, i: int)
    requires k > 0.0 && bw > 0.0
    ensures CellStart(origin, k, bw, i) < span * k <==> i < AxisEnd(origin, span, bw)
  {
    ScaleLess(i as real * bw - origin, span, k);
    AxisEndIff(origin, span, bw, i);
  }

  /** Adding `BLOCK_WIDTH * k` to a cell's screen position gives the next cell's. */
  lemma CellStartNext(origin: real, k: real, bw: real, i: int)
    ensures CellStart(origin, k, bw, i + 1) == CellStart(origin, k, bw, i) + bw * k
  {
  }

  /** One step of the walks of `drawCells` and `drawGrid`: adding
      `BLOCK_WIDTH * k` to cell `i`'s screen position gives cell `i + 1`'s, and
      the loop guard on it holds exactly before `AxisEnd`. */
  lemma {:induction false} WalkStep(origin: real, span: real, k: real, bw: real, i: int, x: real)
    requires k > 0.0 && bw > 0.0 && x == CellStart(origin, k, bw, i)
    ensures x + bw * k == CellStart(origin, k, bw, i + 1)
    ensures x + bw * k < span * k <==> i + 1 < AxisEnd(origin, span, bw)
  {
    CellStartNext(origin, k, bw, i);
    LoopGuardIff(origin, span, k, bw, i + 1);
  }

  /** The start of those walks: cell `i`'s screen position, computed as
      `k * (i * BLOCK_WIDTH - origin)`, and the loop guard on it. */
  lemma {:induction false} WalkStart(origin: real, span: real, k: real, bw: real, i: int, x: real)
    requires k > 0.0 && bw > 0.0 && x == k * (i as real * bw - origin)
    ensures x == CellStart(origin, k, bw, i)
    ensures x < span * k <==> i < AxisEnd(origin, span, bw)
  {
    LoopGuardIff(origin, span, k, bw, i);
  }

  /** The first gridline of `drawGrid`, `k * (Math.ceil(origin / BLOCK_WIDTH) * BLOCK_WIDTH - origin)`,
      lies in `[0, k * BLOCK_WIDTH)`. */
  lemma {:induction false} GridlineStartBounds(origin: real, k: real, bw: real)
    requires k > 0.0 && bw > 0.0
    ensures 0.0 <= CellStart(origin, k, bw, Ceil(origin / bw)) < k * bw
  {
    var c := Ceil(origin / bw);
    EdgeIff(origin, k, bw, 0.0, c);
    EdgeIff(origin, k, bw, k * bw, c);
    assert k * bw != 0.0;
    assert AxisValue(origin, k, bw, 0.0) == origin / bw;
    var kb := k * bw;
    assert kb / kb == 1.0;
    assert AxisValue(origin, k, bw, kb) == origin / bw + 1.0;
  }

  /** When the viewport lies inside `[0, BLOCK_WIDTH * n]` on an axis, every
      visited cell on that axis is in `[0, n)`. */
  lemma {:induction false} VisibleCellsInRange(origin: real, span: real, bw: real, n: nat)
    requires bw > 0.0 && 0.0 <= origin && origin + span <= bw * n as real
    ensures 0 <= AxisFirst(origin, bw) && AxisEnd(origin, span, bw) <= n
  {
    ScaleLess(0.0, origin / bw, bw);
    assert (origin / bw) * bw == origin;
    AxisEndIff(origin, span, bw, n);
    BelowCeil(n, (origin + span) / bw);
    ScaleLess((origin + span) / bw, n as real, bw);
    assert ((origin + span) / bw) * bw == origin + span;
  }

  /** A screen position inside the canvas, over a viewport that lies inside a
      universe of `n` cells on that axis, maps to a cell in `[0, n)`. */
  lemma {:induction false} AxisIndexInRange(origin: real, span: real, k: real, bw: real, s: real, n: nat)
    requires k > 0.0 && bw > 0.0 && span > 0.0
    requires 0.0 <= s < span * k
    requires 0.0 <= origin && origin + span <= bw * n as real
    ensures 0 <= AxisIndex(origin, k, bw, s) < n
  {
    var i := AxisIndex(origin, k, bw, s);
    AxisIndexIff(origin, k, bw, s, i);
    LoopGuardIff(origin, span, k, bw, i);
    VisibleCellsInRange(origin, span, bw, n);
    EdgeIff(origin, k, bw, 0.0, i + 1);
    assert AxisValue(origin, k, bw, 0.0) == origin / bw;
    assert origin / bw >= 0.0;
  }

  /** One axis of a drag: move the origin against the cursor by `delta / k` and
      clamp it to `[0, universe - span]`. */
  function PanAxis(origin: real, delta: real, k: real, universe: real, span: real): (r: real)
    requires k > 0.0
    ensures r >= 0.0
    ensures span <= universe ==> r + span <= universe
    ensures 0.0 <= origin - delta / k <= universe - span ==> r == origin - delta / k
  {
    Clamp(origin - delta / k, universe - span, 0.0)
  }

  /** The world coordinate under screen position `client` on one axis. */
  function WorldAt(origin: real, span: real, canvasSide: real, client: real): real
    requires canvasSide > 0.0
  {
    origin + (client / canvasSide) * span
  }

  /** One axis of the wheel zoom of `handler.ts`, before clamping: the span is
      scaled by `factor` and the origin moves by `x - nx`, the change of the
      cursor's offset into the viewport; the world point under the cursor stays
      where it was. */
  function ZoomOrigin(origin: real, span: real, canvasSide: real, client: real, factor: real): (r: real)
    requires canvasSide > 0.0
    ensures WorldAt(r, span * factor, canvasSide, client) == WorldAt(origin, span, canvasSide, client)
  {
    var x := (client / canvasSide) * span;
    var nx := (client / canvasSide) * (span * factor);
    origin + (x - nx)
  }

  /** The wheel zoom factor of `handler.ts`: out by 10% when scrolling down. */
  function WheelFactor(deltaY: real): (f: real)
    ensures f == 1.1 || f == 0.9
  {
    if deltaY > 0.0 then 1.1 else 0.9
  }

  /** The guard of `handler.ts`: a zoom is applied only when both scaled spans
      lie in `[10 * BLOCK_WIDTH, UNIVERSE_WIDTH]`. */
  predicate ZoomAccepted(w: real, h: real, factor: real, universe: real, bw: real)
  {
    !(w * factor > universe || w * factor < 10.0 * bw || h * factor > universe || h * factor < 10.0 * bw)
  }

  /** The guard accepts exactly the zooms that leave both spans within the bounds. */
  lemma ZoomAcceptedBounds(w: real, h: real, factor: real, universe: real, bw: real)
    ensures ZoomAccepted(w, h, factor, universe, bw) <==>
              10.0 * bw <= w * factor <= universe && 10.0 * bw <= h * factor <= universe
  {
  }

  /** A viewport: origin and spans in world pixels. */
  datatype Camera = Camera(ox: real, oy: real, w: real, h: real)

  /** The viewport lies inside a square universe `universe` pixels wide. */
  predicate Inside(c: Camera, universe: real)
  {
    0.0 <= c.ox && c.ox + c.w <= universe && 0.0 <= c.oy && c.oy + c.h <= universe
  }

  /** The zoom of `handler.ts`'s `handleWheel` on a canvas of the given size,
      with the cursor at `(cx, cy)`: both spans are scaled by `WheelFactor`,
      each origin is moved so that the world point under the cursor stays
      (`ZoomOrigin`) and then clamped into the universe; a zoom the guard
      refuses changes nothing. It keeps the viewport inside the universe and
      keeps its aspect ratio. */
  function WheelZoom(c: Camera, canvasWidth: real, canvasHeight: real, cx: real, cy: real,
                     deltaY: real, universe: real, bw: real): (r: Camera)
    requires c.w > 0.0 && c.h > 0.0 && canvasWidth > 0.0 && canvasHeight > 0.0
    ensures r.w > 0.0 && r.h > 0.0
    ensures r == c || (r.w == c.w * WheelFactor(deltaY) && r.h == c.h * WheelFactor(deltaY))
    ensures var f := WheelFactor(deltaY);
            if ZoomAccepted(c.w, c.h, f, universe, bw) then
              r.w == c.w * f && r.h == c.h * f
              && r.ox == Clamp(ZoomOrigin(c.ox, c.w, canvasWidth, cx, f), universe - r.w, 0.0)
              && r.oy == Clamp(ZoomOrigin(c.oy, c.h, canvasHeight, cy, f), universe - r.h, 0.0)
            else r == c
    ensures Inside(c, universe) ==> Inside(r, universe)
  {
    var f := WheelFactor(deltaY);
    if !ZoomAccepted(c.w, c.h, f, universe, bw) then c
    else
      var w, h := c.w * f, c.h * f;
      Camera(Clamp(ZoomOrigin(c.ox, c.w, canvasWidth, cx, f), universe - w, 0.0),
             Clamp(ZoomOrigin(c.oy, c.h, canvasHeight, cy, f), universe - h, 0.0), w, h)
  }

  /** The viewport has the aspect ratio of a canvas of the given size. */
  predicate SameAspect(c: Camera, canvasWidth: real, canvasHeight: real)
  {
    c.h * canvasWidth == c.w * canvasHeight
  }

  /** A viewport that is kept, or whose spans are both scaled by `f`, keeps
      its aspect ratio. */
  lemma ScaledOrKept(c: Camera, r: Camera, f: real, canvasWidth: real, canvasHeight: real)
    requires SameAspect(c, canvasWidth, canvasHeight)
    requires r == c || (r.w == c.w * f && r.h == c.h * f)
    ensures SameAspect(r, canvasWidth, canvasHeight)
  {
    ScaledProportional(canvasWidth, canvasHeight, c.w, c.h, f);
  }

  /** A wheel zoom keeps the viewport's aspect ratio. */
  lemma WheelZoomProportional(c: Camera, canvasWidth: real, canvasHeight: real, cx: real, cy: real,
                              deltaY: real, universe: real, bw: real)
    requires c.w > 0.0 && c.h > 0.0 && canvasWidth > 0.0 && canvasHeight > 0.0
    requires SameAspect(c, canvasWidth, canvasHeight)
    ensures SameAspect(WheelZoom(c, canvasWidth, canvasHeight, cx, cy, deltaY, universe, bw), canvasWidth, canvasHeight)
  {
    var r := WheelZoom(c, canvasWidth, canvasHeight, cx, cy, deltaY, universe, bw);
    ScaledOrKept(c, r, WheelFactor(deltaY), canvasWidth, canvasHeight);
  }

  /** The additive zoom step of the older frontend: `-0.1` of the span when
      scrolling down, `+0.1` otherwise. */
  function LegacyWheelStep(deltaY: real): (d: real)
    ensures d == -0.1 || d == 0.1
  {
    if deltaY > 0.0 then -0.1 else 0.1
  }

  /** One axis of the older frontend's zoom, before clamping: the span shrinks
      by `delta` and the origin moves by `delta / 2`, so the centre of the
      viewport stays where it was. */
  function LegacyZoomOrigin(origin: real, delta: real): real
  {
    origin + delta / 2.0
  }

  /** The centre of the viewport is fixed by the older frontend's zoom. */
  lemma LegacyZoomKeepsCentre(origin: real, span: real, delta: real)
    ensures LegacyZoomOrigin(origin, delta) + (span - delta) / 2.0 == origin + span / 2.0
  {
  }
}
