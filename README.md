# hashlife: a Dafny model

This project models the core of *hashlife*, a Game of Life played in the
browser. The engine is a Rust crate compiled to WebAssembly. It stores the
universe as a quadtree of cells. A node is a single cell (a leaf), an `Empty`
placeholder for an all-dead square, or a `MacroCell` made of four children
one level lower. Two TypeScript frontends draw the universe on a canvas.

- The current frontend (`frontend/src`) has three parts:
  - a `View` holds the camera (origin and spans in world pixels), a snapshot
    of the engine's cell buffer, and the drawing walk over the visible cells;
  - a `MouseHandler` pans, zooms and toggles cells;
  - an entry point switches between NORMAL and INSERT mode from the keyboard,
    starts and stops the animation, and handles resizes.
- The older frontend (`frontend/index.ts`) keeps its own 1024-by-1024 grid of
  numbers. Every press flips a cell, dragging pans, and the wheel zooms about
  the centre of the view.

The modules follow the source files:

| module | file | models |
|---|---|---|
| `Arith` | `arith.dfy` | `1 << n`, `u32` wrap-around, halving a coordinate, the row-major bound |
| `Wrappers` | `wrappers.dfy` | `Option` |
| `Cells` | `cell.dfy` | `src/cell.rs`: `Node`, `Leaf`, `get_size`, `is_dead`, `state_at`, `MacroCell::new`, `new_empty` |
| `Manager` | `cell_manager.dfy` | `src/cell_manager.rs`: `setup`, `_toggle`, `toggle` |
| `Factory` | `cell_factory.dfy` | `src/cell_factory.rs`: the node, result, empty and leaf caches |
| `Engine` | `universe.dfy` | `src/lib.rs`: `Universe::new`, `toggle`, `sync_to_buf` |
| `Viewport` | `viewport.dfy` | the camera arithmetic both frontends share |
| `Canvas` | `canvas.dfy` | `frontend/src/canvas.ts`: `View` |
| `Handler` | `handler.dfy` | `frontend/src/handler.ts`: `MouseHandler` |
| `App` | `app.dfy` | `frontend/src/index.ts`: keys, `run`, resize |
| `Legacy` | `legacy.dfy` | `frontend/index.ts` |

How the source is represented:

- Quadtree nodes are immutable datatype values. The `Box` and `Rc` sharing of
  the Rust code does not show in the model.
- Objects whose fields the source updates become classes:
  - `CellManager`, `CellFactory` and `Universe` in the engine;
  - `View`, `MouseHandler` and `App` in the current frontend;
  - `LegacyViewer` for the older frontend's page-level state.
- The engine buffer is an `array<byte>`. The older frontend's grid is an
  `array2<int>`.
- Numbers are exact reals, not IEEE doubles.
- The current frontend's calls into the engine (`tick`, `toggle`, `reset`)
  and its redraws are recorded in order in `View.effects`.

## Model

| member | source | states |
|---|---|---|
| `Arith.Pow2` | src/lib.rs:81-82 | `1 << n` is at least 1 |
| `Arith.Pow2Add` | src/lib.rs:81-82 | shifting by `a + b` multiplies by `2^a * 2^b`, so `width = 1 << levels` is twice `visible_width = 1 << (levels - 1)` |
| `Arith.Wrap32` | src/lib.rs:47-49 | a `u32` result lies below 2^32 and equals the mathematical value when that fits |
| `Arith.DivModHalf` | src/cell.rs:47-51 | for a coordinate below `2h`, `x / h` and `x % h` are its half and its offset in that half |
| `Arith.Join` | src/cell.rs:52-56 | half and offset determine the coordinate, and `Half`/`Offset` recover them |
| `Arith.RowMajorBound` | frontend/src/canvas.ts:132-134 | the index `x * n + y` of a grid cell lies in `[0, n * n)` |
| `Cells.Flip` | src/cell.rs:67-72 | toggling a leaf changes its state |
| `Cells.GetSize` | src/cell.rs:25-31 | `get_size`: the `size` of a macro cell or `Empty`, 0 for a leaf; `Side` is `2^GetSize` |
| `Cells.IsDead` | src/cell.rs:34-42 | `is_dead`: a dead leaf, any `Empty`, or a macro cell of four dead children; exact by `IsDeadIffAllDead` |
| `Cells.StateAt` | src/cell.rs:44-63 | `state_at`: a leaf's state, `Dead` for `Empty`, and for a macro cell the quadrant and offset of `StateAtStep` |
| `Cells.HalfSide` | src/cell.rs:47 | `child_block_size` is half the side of the node |
| `Cells.Child` | src/cell.rs:52-56 | a quadrant of a well-formed macro cell is well formed, one level lower, with half the side |
| `Cells.WithChild` | src/cell_manager.rs:29-36 | replacing one quadrant changes only that quadrant and keeps the node well formed |
| `Cells.StateAtStep` | src/cell.rs:44-63 | `state_at` on a macro cell reads the quadrant holding the cell, at its offset, and never reaches the `panic!` |
| `Cells.NewMacroCell` | src/cell.rs:76-93 | four children of one level make a well-formed node one level higher |
| `Cells.NewEmpty` | src/cell.rs:95-111 | `new_empty(size)` is a well-formed, dead macro cell of level `size` |
| `Cells.StateAtQuadrant` | src/cell.rs:46-58 | cell `r` of quadrant `q` is cell `Join(q, r)` of the node |
| `Cells.DeadStateAt` | src/cell.rs:34-63 | a node that `is_dead` reads `Dead` everywhere |
| `Cells.IsDeadIffAllDead` | src/cell.rs:34-42 | `is_dead` holds exactly when every covered cell is `Dead` |
| `Manager.Collapse` | src/cell_manager.rs:59-61 | a dead node becomes `Empty` of the same level; a live one is kept |
| `Manager.CollapseStateAt` | src/cell_manager.rs:59-61 | collapsing changes no cell |
| `Manager.Expand` | src/cell_manager.rs:38-39 | an `Empty` node is expanded to a well-formed macro cell of the same level and side |
| `Manager.ExpandStateAt` | src/cell_manager.rs:38-49 | expanding changes no cell |
| `Manager.Rebuild` | src/cell_manager.rs:27-61 | putting a rebuilt quadrant back keeps the node well formed and of the same side; if the result is dead it is `Empty` |
| `Manager.RebuildStateAt` | src/cell_manager.rs:27-61 | after a rebuild, the cells of the rebuilt quadrant come from the new child and all other cells are unchanged |
| `Manager.ToggleAt` | src/cell_manager.rs:18-63 | the corrected `_toggle` returns a well-formed tree of the same level; a dead result is always `Empty` |
| `Manager.ToggleAsWritten` | src/cell_manager.rs:18-63 | `_toggle` as written, with its shift-precedence descent; when it returns without a `panic!`, the result is well formed and of the same level |
| `Manager.Descend` | src/cell_manager.rs:22-49 | the quadrant `_toggle` descends into, with the coordinate's offset, holds the cell being toggled |
| `Manager.ToggleAtInside` | src/cell_manager.rs:27-51 | a cell in the toggled quadrant is read from the toggled child |
| `Manager.ToggleAtOutside` | src/cell_manager.rs:27-51 | a cell in another quadrant is unchanged |
| `Manager.ToggleAtFlips` | src/cell_manager.rs:18-63 | the toggled cell is flipped |
| `Manager.ToggleAtElsewhere` | src/cell_manager.rs:18-63 | every other cell keeps its state |
| `Manager.ToggleTwiceRestores` | src/cell_manager.rs:78-87 | toggling a cell twice restores every cell |
| `Manager.AsWrittenAtOrigin` | src/cell_manager.rs:23-26 | at `(0, 0)`, where the as-written descent does not panic, it agrees with the corrected toggle |
| `Manager.PrecedenceCounterexample` | src/cell_manager.rs:23-26 | cell `(1, 0)` of a level-4 root makes the as-written toggle panic; the corrected toggle flips it |
| `Manager.AsWrittenLevelOne` | src/cell_manager.rs:22-36 | on a level-1 macro cell, the as-written toggle flips the leaf of the addressed quadrant |
| `Manager.EmptyLeafCounterexample` | src/cell_manager.rs:52-61 | on a level-1 root, toggling `(0,0)`, `(0,1)`, `(0,0)` leaves `Empty(0)` as a quadrant |
| `Manager.EmptyLeafPanics` | src/cell_manager.rs:53-56 | toggling that `Empty(0)` quadrant again reaches the level-0 `panic!` |
| `Manager.EmptyLeafIntended` | src/cell_manager.rs:52-61 | the corrected toggle brings that cell back to life |
| `Manager.CellManager.Setup` | src/cell_manager.rs:11-16 | the root is the dead `new_empty(size)` |
| `Manager.CellManager.Toggle` | src/cell_manager.rs:65-70 | `toggle` flips exactly the cell `(x, y)`; the root stays a macro cell of the same level |
| `Manager.ToggleScenario` | src/cell_manager.rs:78-87 | `test_toggle`: alive after one toggle; dead, with level 4, after two |
| `Factory.CanonicalEmpty` | src/cell_factory.rs:74-87 | `get_empty(size)` is dead and well formed at level `size`: the dead leaf at level 0, a macro cell above |
| `Factory.NodeOf` | src/cell_factory.rs:35-61 | `node_from` returns a macro cell one level above its children; it is dead exactly when all four children are |
| `Factory.NodeOfStateAt` | src/cell_factory.rs:35-61 | the node `node_from` returns holds every cell of its four children in place |
| `Factory.CellFactory.constructor` | src/cell_factory.rs:18-28 | all caches empty, 64 empty slots |
| `Factory.CellFactory.GetLeaf` | src/cell_factory.rs:90-95 | the cached leaf of the variant |
| `Factory.CellFactory.GetEmpty` | src/cell_factory.rs:74-87 | returns `CanonicalEmpty(size)`, stores it in slot `size` when `size >= 1`, and leaves the other slots alone |
| `Factory.CellFactory.NodeFrom` | src/cell_factory.rs:35-61 | returns `NodeOf` of the children; caches the key unless all four children are dead, in which case `get_empty` fills the next level's empty slot and no other |
| `Factory.CellFactory.GetResult` | src/cell_factory.rs:64-66 | a result exactly when one is cached, and that result |
| `Factory.CellFactory.CacheResult` | src/cell_factory.rs:69-71 | records the result and nothing else |
| `Factory.CellFactory.GetQuad` | src/cell_factory.rs:101-115 | returns `Quadrant(node, x, y)`; touches at most the empty slot one level below an `Empty` node |
| `Factory.Quadrant` | src/cell_factory.rs:101-115 | `get_quad` returns a well-formed node one level lower |
| `Factory.QuadrantStateAt` | src/cell_factory.rs:101-115 | every cell of that quadrant is the corresponding cell of the node, including for `Empty` |
| `Factory.CacheScenario` | src/cell_factory.rs:35-71 | a second `node_from` returns the first result; `get_result` after `cache_result` returns the result, and an uncached node returns none |
| `Engine.NeighbourWrite` | src/lib.rs:44-64 | a neighbour write stores 0 exactly where the region is `Dead`, and 1 otherwise |
| `Engine.NeighbourX` | src/lib.rs:44-47 | `(cell / width + dx) as u32`: below 2^32, the exact row when it is not negative, and 2^32 - 1 for row -1 |
| `Engine.NeighbourY` | src/lib.rs:45-48 | `(cell % width + dy) as u32`: below 2^32, the exact column when it is not negative, and 2^32 - 1 for column -1 |
| `Engine.Target` | src/lib.rs:49 | `actual` in `u32`: below 2^32, and the row-major position in the visible centre whenever both coordinates lie at or after the offset and the position fits |
| `Engine.WrapProductSum` | src/lib.rs:49 | `a * w + b` computed in `u32` step by step is exact when it fits |
| `Engine.LinearIndex` | src/lib.rs:55 | `nx * width + ny` in `u32`: below 2^32, and exact when it fits |
| `Engine.InBounds` | src/lib.rs:53-59 | the intended check: the position lies in `cells` |
| `Engine.InBoundsAsWritten` | src/lib.rs:53-59 | the check as written, `actual <= len`: it also admits the position `len` |
| `Engine.NeighbourWrites` | src/lib.rs:46-65 | at most nine writes per tracked index, each inside the buffer |
| `Engine.NeighbourWritesAsWritten` | src/lib.rs:53-59 | under the check `actual <= len`, each write lies at most at `len` |
| `Engine.NeighbourWritesComplete` | src/lib.rs:46-65 | every neighbour write that passes the check is made |
| `Engine.NeighbourWritesAsWrittenComplete` | src/lib.rs:46-65 | every neighbour write that passes the as-written check is made |
| `Engine.BoundsCheckCounterexample` | src/lib.rs:49-59 | in a level-1 universe, the neighbour `(1, 0)` of tracked cell `(0, 0)` is written to `cells[1]` of the 1-cell buffer: the as-written check passes it and the intended one does not |
| `Engine.SyncWrites` | src/lib.rs:43-66 | the writes of all tracked indices together: at most nine per index, each inside the buffer |
| `Engine.SyncWritesAppend` | src/lib.rs:43-66 | one more tracked index appends its writes |
| `Engine.Apply` | src/lib.rs:54-60 | writing the buffer keeps its length |
| `Engine.RemovedMembers` | src/lib.rs:55 | `to_remove` holds exactly the linear indices written with 0 |
| `Engine.AddedMembers` | src/lib.rs:61 | `to_add` holds exactly the linear indices written with 1 |
| `Engine.Removed` | src/lib.rs:55 | `to_remove`: no more entries than writes |
| `Engine.Added` | src/lib.rs:61 | `to_add`: no more entries than writes |
| `Engine.ApplyUntouched` | src/lib.rs:54-60 | a position no write touches keeps its value |
| `Engine.ApplyLastWins` | src/lib.rs:54-60 | the last write to a position decides its value |
| `Engine.MinOf` | src/lib.rs:43 | a non-empty `BTreeSet` has a least element |
| `Engine.AscendingMembers` | src/lib.rs:43 | iterating over `update_indices` visits each element once and nothing else |
| `Engine.AscendingSorted` | src/lib.rs:43 | the iteration is strictly ascending |
| `Engine.AscendingStep` | src/lib.rs:43 | the iteration visits the least element first |
| `Engine.Universe.constructor` | src/lib.rs:79-93 | `width = 2^levels`, `visible_width = 2^(levels-1)`, a zeroed buffer, a dead root and no tracked index |
| `Engine.Universe.Toggle` | src/lib.rs:95-107 | flips the centred cell of the root and no other; flips whether its linear index is tracked; writes that membership to exactly one buffer position |
| `Engine.Universe.VisitNeighbour` | src/lib.rs:46-64 | one neighbour: a guarded write and a push to `to_remove` or `to_add` |
| `Engine.Universe.SyncCell` | src/lib.rs:46-65 | the nine neighbours in order: the buffer becomes `Apply` of their writes, and the lists grow by `Removed` and `Added` of them |
| `Engine.Universe.SyncTracked` | src/lib.rs:43-66 | every tracked index in ascending order: the buffer and the lists follow `SyncWrites` |
| `Engine.Universe.SyncToBuf` | src/lib.rs:36-74 | `sync_to_buf`: the buffer after all writes; the tracked set loses the removed indices, then gains the added ones |
| `Engine.Universe.Tick` | src/lib.rs:109-112 | `tick`: after the abstract step, the buffer and tracked set are those `sync_to_buf` leaves for the stepped root `region` |
| `Engine.Universe.UpdateIndices` | src/lib.rs:68-73 | the tracked set minus `to_remove`, plus `to_add` |
| `Engine.RowMajor` | src/lib.rs:102-105 | `x * visible_width + y`: inside the buffer for a cell of the visible centre |
| `Engine.OverrunScenario` | src/lib.rs:79-107 | `new(1)` then `toggle(0, 0)` tracks `{0}`; the next `sync_to_buf` targets position 1 of a 1-cell buffer, whatever the root it reads |
| `Engine.OutOfRootRead` | src/lib.rs:47-51 | in a level-1 universe the neighbour `(-1, 0)` of tracked index 0 is read at `(2^32 - 1, 0)`, outside every root of level 1 |
| `Engine.OverrunToggleAsWritten` | src/cell_manager.rs:18-36 | on the root of `new(1)`, `_toggle(0, 0)` as written does not panic and gives the same tree as the corrected descent |
| `Viewport.Clamp` | frontend/src/handler.ts:3-5 | the result is at least `min`; at most `max` when the bounds are ordered; `x` itself when `x` is already in range; `min` when the bounds cross |
| `Viewport.Ceil` | frontend/src/canvas.ts:69 | `Math.ceil`: the least integer at or above `r` |
| `Viewport.Round` | frontend/src/index.ts:49-50 | `Math.round`: within half a unit, with halves rounding up |
| `Viewport.Scale` | frontend/src/canvas.ts:72 | `k` is positive and maps the viewport width onto the canvas width |
| `Viewport.ProportionalScale` | frontend/src/canvas.ts:72 | when the viewport has the canvas's aspect ratio, `k` also maps the viewport height onto the canvas height |
| `Viewport.ScaledProportional` | frontend/src/handler.ts:63-64 | scaling both spans by one factor keeps their aspect ratio |
| `Viewport.EdgeIff` | frontend/src/canvas.ts:120-130 | a screen position compared with a cell edge gives the same answer as the unfloored coordinate compared with the cell number |
| `Viewport.AxisIndexIff` | frontend/src/canvas.ts:120-130 | `locToIndex` gives cell `i` exactly when the point lies in the square `drawCells` paints for `i` |
| `Viewport.AxisOrder` | frontend/src/canvas.ts:90-102 | the first cell visited comes no later than the first gridline, and strictly before the end of the walk |
| `Viewport.AxisEndIff` | frontend/src/canvas.ts:102 | the cells before `AxisEnd` are exactly those whose left edge lies inside the viewport |
| `Viewport.LoopGuardIff` | frontend/src/canvas.ts:102-103 | the loop guard `x < vp_w * k` holds exactly before `AxisEnd` |
| `Viewport.WalkStep` | frontend/src/canvas.ts:102-103 | adding `BLOCK_WIDTH * k` moves to the next cell's position, and the guard holds exactly before the end |
| `Viewport.WalkStart` | frontend/src/canvas.ts:90-102 | the walk starts at the first cell's position |
| `Viewport.GridlineStartBounds` | frontend/src/canvas.ts:69-75 | the first gridline lies in `[0, k * BLOCK_WIDTH)` |
| `Viewport.VisibleCellsInRange` | frontend/src/canvas.ts:89-118 | with the viewport inside the universe, every visited cell lies in `[0, NUM_ROWS)` |
| `Viewport.AxisIndexInRange` | frontend/src/canvas.ts:120-130 | with the viewport inside the universe, a click on the canvas maps to a cell in `[0, NUM_ROWS)` |
| `Viewport.PanAxis` | frontend/src/handler.ts:22-26 | a pan keeps the origin in `[0, universe - span]`, and equals the unclamped move when that is in range |
| `Viewport.ZoomOrigin` | frontend/src/handler.ts:57-69 | the world point under the cursor stays fixed through a zoom |
| `Viewport.WheelFactor` | frontend/src/handler.ts:56 | the factor is 1.1 or 0.9 |
| `Viewport.ZoomAccepted` | frontend/src/handler.ts:59-61 | the guard of `handleWheel`, negated: the zoom is applied when neither span leaves `[10 * BLOCK_WIDTH, UNIVERSE_WIDTH]` |
| `Viewport.ZoomAcceptedBounds` | frontend/src/handler.ts:59-61 | the guard accepts exactly the zooms that keep both spans in `[10 * BLOCK_WIDTH, UNIVERSE_WIDTH]` |
| `Viewport.WheelZoom` | frontend/src/handler.ts:56-71 | an accepted zoom scales both spans by the factor and moves each origin to `ZoomOrigin`, clamped into the universe; a refused zoom changes nothing; a viewport inside the universe stays inside |
| `Viewport.ScaledOrKept` | frontend/src/handler.ts:59-64 | a viewport that is kept, or whose spans are both scaled by one factor, keeps its aspect ratio |
| `Viewport.WheelZoomProportional` | frontend/src/handler.ts:63-64 | the zoom keeps the viewport's aspect ratio |
| `Viewport.LegacyWheelStep` | frontend/index.ts:98 | the step is -0.1 or 0.1 |
| `Viewport.LegacyZoomKeepsCentre` | frontend/index.ts:104-107 | moving the origin by half the change in span keeps the viewport centre fixed |
| `Canvas.ToIndex` | frontend/src/canvas.ts:132-134 | a grid cell's index lies in the buffer |
| `Canvas.ToIndexInverse` | frontend/src/canvas.ts:132-134 | division and remainder recover the cell, so distinct cells have distinct indices |
| `Canvas.Lookup` | frontend/src/canvas.ts:104 | a read that yields 1 lies in the buffer and reads a 1 there; an out-of-range read never yields 1 |
| `Canvas.EngineForView` | frontend/src/canvas.ts:30-59 | the engine `Universe.new(levels + 1)` has visible width `NUM_ROWS` and a zeroed buffer of `NUM_ROWS * NUM_ROWS` cells, matching the view's snapshot |
| `Canvas.View.constructor` | frontend/src/canvas.ts:22-43 | for the levels whose engine `Universe::new` can build: the viewport is the canvas at the origin, with its aspect ratio; `NUM_ROWS = 1 << levels`; `UNIVERSE_WIDTH = block_size * NUM_ROWS`; an all-dead snapshot of `NUM_ROWS^2` cells |
| `Canvas.View.K` | frontend/src/canvas.ts:72 | the scale is positive and maps `vp_w` onto `canvas.width` |
| `Canvas.View.SetCanvasDimensions` | frontend/src/canvas.ts:45-50 | canvas and spans take the new size, so the viewport has the canvas's aspect ratio; the origin stays |
| `Canvas.View.SetMode` | frontend/src/canvas.ts:52-55 | only the mode changes |
| `Canvas.View.UpdateGrid` | frontend/src/canvas.ts:57-60 | the snapshot is replaced |
| `Canvas.View.LocToIndex` | frontend/src/canvas.ts:120-130 | the returned cell's painted square contains the point on both axes |
| `Canvas.View.PaintedColumnsStep` | frontend/src/canvas.ts:102-117 | the outer loop adds one column of painted cells per step |
| `Canvas.View.DrawCells` | frontend/src/canvas.ts:89-118 | paints exactly the visible cells whose snapshot value is 1 |
| `Canvas.View.DrawColumn` | frontend/src/canvas.ts:103-114 | the inner loop paints exactly the live visible cells of one column |
| `Canvas.View.Gridlines` | frontend/src/canvas.ts:69-83 | one line at each cell edge from the first boundary at or after the origin; every line lies in `[0, span * k)` |
| `Canvas.View.DrawGrid` | frontend/src/canvas.ts:63-87 | a redraw: gridlines on both axes, the painted cells, one `Render`, and no other change; the column lines lie on the canvas, and so do the row lines while the viewport has the canvas's aspect ratio |
| `Canvas.View.ClearUniverse` | frontend/src/canvas.ts:136-139 | a reset of the engine, then a redraw |
| `Canvas.View.PaintedVisible` | frontend/src/canvas.ts:89-118 | every painted cell is visible and reads 1 in the snapshot |
| `Canvas.View.ClickInRange` | frontend/src/canvas.ts:120-130 | with the viewport inside the universe and of the canvas's aspect ratio, a click anywhere on the canvas maps to a grid cell |
| `Canvas.View.ReadsInRange` | frontend/src/canvas.ts:102-104 | with the viewport inside the universe, every read of `drawCells` is inside the buffer |
| `Handler.MouseHandler.constructor` | frontend/src/handler.ts:8-16 | not dragging, anchor at 0, `lastToggled = [-1, -1]` |
| `Handler.MouseHandler.HandleMouseMove` | frontend/src/handler.ts:18-37 | a NORMAL drag pans by `PanAxis` and moves the anchor; an INSERT drag toggles a newly entered cell and records it; the viewport stays inside the universe |
| `Handler.MouseHandler.HandleMouseDown` | frontend/src/handler.ts:39-51 | as written: starts a drag; in INSERT mode toggles the cell under the cursor without recording it |
| `Handler.MouseHandler.HandleMouseDownIntended` | frontend/src/handler.ts:39-51 | corrected: an INSERT press also records the cell it toggled |
| `Handler.MouseHandler.HandleWheel` | frontend/src/handler.ts:53-73 | the viewport becomes `WheelZoom` of the old one; it stays inside the universe and keeps the canvas's aspect ratio; always one redraw |
| `Handler.MouseHandler.HandleMouseUp` | frontend/src/handler.ts:75-77 | ends the drag |
| `Handler.PressAndJitterAsWritten` | frontend/src/handler.ts:30-51 | a press and a move inside one INSERT-mode cell toggle it twice |
| `Handler.PressAndJitterIntended` | frontend/src/handler.ts:30-51 | with the corrected press, the same gesture toggles it once |
| `App.KeyStep` | frontend/src/index.ts:12-43 | only Space starts or stops the animation; apart from KeyR, a key either changes no engine state or ticks and redraws |
| `App.SpaceToggles` | frontend/src/index.ts:14-24 | Space forces NORMAL and flips the animation; it ticks only when starting |
| `App.KeyITwice` | frontend/src/index.ts:25-31 | KeyI twice restores the state |
| `App.EscapeIdempotent` | frontend/src/index.ts:32-34 | Escape returns to NORMAL, and a second Escape does nothing more |
| `App.ResetOnlyInInsert` | frontend/src/index.ts:35-38 | KeyR resets exactly in INSERT mode |
| `App.OtherKeyInert` | frontend/src/index.ts:39-41 | any other key does nothing |
| `App.ResizedSide` | frontend/src/index.ts:49-50 | the new side is the client size rounded to whole blocks, within 5 pixels of it |
| `App.App.constructor` | frontend/src/index.ts:7-10 | no animation pending |
| `App.App.Run` | frontend/src/index.ts:103-108 | one tick and one redraw; the next frame is recorded |
| `App.App.HandleKeyDown` | frontend/src/index.ts:12-43 | follows `KeyStep` in mode, animation state and effects |
| `App.App.Resize` | frontend/src/index.ts:48-53 | the canvas and the spans take the rounded client size; the origin stays; one redraw |
| `Legacy.InitialCell` | frontend/index.ts:13 | the initial value is 0 or 1 |
| `Legacy.InitialCellIff` | frontend/index.ts:8-15 | a cell starts live exactly when its row or column is a multiple of 7 |
| `Legacy.InitialGrid` | frontend/index.ts:8-15 | the 1024-by-1024 grid holds `InitialCell` everywhere |
| `Legacy.LegacyZoomBounds` | frontend/index.ts:101-102 | the guard accepts exactly when both new spans lie in `[100, 2560]` |
| `Legacy.LegacyZoomAccepted` | frontend/index.ts:101-102 | the guard of `handleWheel`, negated: the zoom is applied when neither span leaves `[MAX_ZOOM_F * BLOCK_WIDTH, UNIVERSE_WIDTH / MIN_ZOOM_F]` |
| `Legacy.LegacyZoom` | frontend/index.ts:97-110 | an accepted zoom scales both spans by `1 - step`, keeps them in `[100, 2560]` and keeps the viewport inside the universe; a refused zoom changes nothing |
| `Legacy.LegacyZoomCentre` | frontend/index.ts:104-107 | an accepted zoom whose origin needs no clamping keeps the centre of the viewport |
| `Legacy.LegacyViewer.constructor` | frontend/index.ts:17-34 | the initial grid; the canvas rounded to whole blocks; a 1280-pixel viewport with the canvas's aspect ratio; one draw |
| `Legacy.LegacyViewer.LocToIndex` | frontend/index.ts:85-95 | the returned cell's square contains the point on both axes |
| `Legacy.LegacyViewer.HandleMouseDown` | frontend/index.ts:113-123 | starts a drag and flips exactly the cell under the cursor between 0 and 1 |
| `Legacy.LegacyViewer.PressTwice` | frontend/index.ts:120 | two presses at one point restore the grid |
| `Legacy.LegacyViewer.HandleWheel` | frontend/index.ts:97-110 | the viewport follows `LegacyZoom`; one redraw either way; the drag state and anchor are untouched |
| `Legacy.LegacyViewer.HandleMouseMove` | frontend/index.ts:129-140 | while dragging, pans by `PanAxis` on both axes and moves the anchor; otherwise nothing |
| `Legacy.LegacyViewer.HandleMouseUp` | frontend/index.ts:142-144 | ends the drag; the anchor, viewport and canvas are untouched |
| `Legacy.LegacyViewer.Resize` | frontend/index.ts:152-156 | only the canvas size changes; the viewport, drag state and anchor are kept |

## Left out

- The `hash` field of `MacroCell` is left out. It is always the empty string and is never read.
- `CellManager.cache` is left out. It is never used.
- The `dbg!` call in `_toggle` is left out: it is output only.
- The `Timer` module, `set_panic_hook`, `greet` and `get_cells` are left out. They are wasm glue and I/O.
- `CellManager::step` and `root_ref` are called from `src/lib.rs` but not defined in the crate. `Engine.Universe.Tick` therefore models the step as abstract: the root it leaves is the parameter `region`, which `Engine.Universe.SyncToBuf` reads, and the manager's tree is not updated.
- `View.clearUniverse` calls `universe.reset()`, which `src/lib.rs` does not define. The model records the call as a `Reset` effect.
- `View.animation_id` is left out. It is never read.
- The `FPS` class of `frontend/src/index.ts` is left out: it only measures and displays timings.
- `requestAnimationFrame` and `cancelAnimationFrame` are left out. The frame handle is a parameter of `App.App.Run`.
- The DOM is left out: element lookups, `mode_box`, the 2D context, and the `moveTo`/`lineTo`/`arc`/`fill` calls. A frame is modelled by what it draws: gridline positions and the set of painted cells.
- The wasm memory is not modelled. The view's snapshot is replaced through `Canvas.View.UpdateGrid`.
- Canvas.View.DrawGrid: `drawGrid` first re-reads the engine's buffer (`updateGrid`). The model draws from the last snapshot, because the engine behind the view is abstract.
- Legacy drawing (`drawGrid` and `drawCells` of `frontend/index.ts`) follows the same walk as `Canvas.View.DrawCells`. Only its redraw count is modelled, `LegacyViewer.redraws`.
- `frontend/src/temp.ts`, `webpack.config.js`, `src/main.rs` and `src/node_factory.rs` are not part of this model.
- Numbers are exact reals: IEEE rounding in the zoom and pan arithmetic is not modelled.
- Engine integers are unbounded, except where `src/lib.rs` computes in `u32`: those values are wrapped explicitly with `Wrap32`.
- Canvas.View.constructor requires `levels + 1 <= 16`. For larger levels the engine's buffer size `visible_width * visible_width` overflows `u32` in `Universe::new`, so the buffer no longer holds the `NUM_ROWS * NUM_ROWS` bytes the view reads, and the source throws when it builds that view.
- Canvas.View.constructor requires positive canvas and block sizes. A zero-size canvas divides by zero in the source.
- Canvas.EngineForView requires `levels + 1 <= 16`, the range `Engine.Universe.constructor` admits.
- Engine.Universe.constructor requires `1 <= levels <= 16`. `levels = 0` underflows `levels - 1`, and larger levels overflow the buffer size in `u32`.
- Engine.Universe.Toggle requires the coordinates to lie inside the tree and the buffer. Outside them the source panics.
- Factory.CellFactory.NodeFrom requires four children of one level even when all four are dead. On that path the source returns `get_empty(ul.get_size() + 1)` without the equal-size assert of `MacroCell::new`, so the model does not cover dead children of mixed levels.
- Factory.CellFactory.GetEmpty requires `size < 64`. Larger sizes index past `empty_cache` and panic.
- Factory.CellFactory.GetQuad requires a non-leaf node, quadrant indices 0 or 1, and `Empty` of level at least 1. The other inputs panic in the source.
- Manager.CellManager.Toggle requires the cell to lie in the root; the source panics outside it. It is modelled with the corrected descent `ToggleAt`. The as-written descent is `Manager.ToggleAsWritten`.
- Legacy.LegacyViewer.HandleMouseDown requires the cursor to map to a cell of the grid, because the model's grid is the fixed 1024-by-1024 array. Outside it, a row index outside `[0, 1024)` throws on `my_grid[x][y]`; a column index outside `[0, 1024)` on a valid row stores `NaN` in a new slot of that row, which the model cannot hold.
- Legacy.LegacyViewer.constructor requires a client area of at least half a block on each side. With a zero-width canvas, `vp_w * canvas.height / canvas.width` divides by zero and `vp_h` is not a number.
- App.App.Resize requires a client area of at least half a block on each side, so that the canvas is not empty.
- Legacy.LegacyViewer.Resize requires a client area of at least half a block on each side, so that the canvas is not empty.
- Engine.Universe.SyncToBuf takes the root it reads as a total function `region` from coordinates to states. `state_at` panics for a coordinate outside the root, and `sync_to_buf` can ask for one: after `new(1)` and `toggle(0, 0)`, index 0 is tracked, and the next sync visits its neighbour `(-1, 0)` and reads `state_at(2^32 - 1, 0)`, outside the root of side 2 (`Engine.OutOfRootRead`). Under the corrected `<` check that read panics; as written, the overrun of Findings row 3 panics first. That panic is not modelled.
- The order in which `sync_to_buf` visits `BTreeSet` elements is modelled as ascending, by `Engine.Ascending`.

## Findings

| source | as written | input that shows it | evidently intended | confidence | as-written member | corrected member |
|---|---|---|---|---|---|---|
| src/cell_manager.rs:23-26 | `x / 1 << (s - 1)` parses as `(x / 1) << (s - 1)`, so the quadrant index is the coordinate shifted left, and `x % 1 << (s - 1)` is always 0 | `setup(4)`, then `toggle(1, 0)`: the quadrant index is 8 and `_toggle` panics | descend into the quadrant `x / (1 << (s - 1))` at the offset `x % (1 << (s - 1))`, both taken from the original coordinate: parentheses alone are not enough, because line 23 reassigns `x` before line 25 reads it, so `nx`/`ny` must be computed before `x`/`y` are reassigned (as `Manager.ToggleAt` does with `Half`/`Offset`) | not executed | `Manager.ToggleAsWritten`, `Manager.PrecedenceCounterexample` | `Manager.ToggleAt`, `Manager.ToggleAtFlips`, `Manager.ToggleAtElsewhere` |
| src/cell_manager.rs:52-61 | a leaf toggled back to dead is collapsed to `Empty(0)`; the level-0 branch accepts only `Leaf` and panics on it | `setup(1)`, then toggles of `(0,0)`, `(0,1)`, `(0,0)`, `(0,0)`: the fourth toggle panics | treat `Empty(0)` as a dead leaf and make it alive | not executed | `Manager.EmptyLeafCounterexample`, `Manager.EmptyLeafPanics` | `Manager.ToggleAt`, `Manager.EmptyLeafIntended` |
| src/lib.rs:53-59 | the bounds check `actual <= self.cells.len()` lets `actual == len` through, so `self.cells[actual]` is indexed out of range | `Universe::new(1)`, then `toggle(0, 0)`, then `sync_to_buf` (as `tick` calls it): the write for the neighbour `(1, 0)` goes to `cells[1]` of a 1-cell buffer | `actual < self.cells.len()` | not executed | `Engine.NeighbourWritesAsWritten`, `Engine.BoundsCheckCounterexample`, `Engine.OverrunScenario`, `Engine.OverrunToggleAsWritten` | `Engine.NeighbourWrites`, `Engine.Universe.SyncToBuf` |
| frontend/src/handler.ts:45-50 | an INSERT-mode press toggles the cell under the cursor but does not set `lastToggled`, so the first move inside the same cell toggles it back | INSERT mode on a 100-by-100 canvas with 10-pixel blocks: press at `(55, 55)`, move to `(56, 56)`; cell `(5, 5)` is toggled twice | record the pressed cell in `lastToggled` | not executed | `Handler.MouseHandler.HandleMouseDown`, `Handler.PressAndJitterAsWritten` | `Handler.MouseHandler.HandleMouseDownIntended`, `Handler.PressAndJitterIntended` |
