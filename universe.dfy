/** `Universe` of `lib.rs`: the quadtree root of `2^levels` cells a side, a flat
    buffer of the visible centre (`2^(levels-1)` a side, starting `width / 4`
    cells in on both axes), and the ordered set of linear indices
    `x * width + y` that `sync_to_buf` revisits. All `u32` arithmetic wraps. */
module Engine {
  import opened Arith
  import opened Cells
  import opened Manager
  import opened Wrappers

  newtype byte = x: int | 0 <= x < 256

  /** The nine offsets `sync_to_buf` visits around a tracked cell, itself first. */
  const DX: seq<int> := [0, 1, 0, -1, 0, 1, 1, -1, -1]
  const DY: seq<int> := [0, 0, 1, 0, -1, 1, -1, -1, 1]

  /** The numbers `sync_to_buf` computes with: `width`, `visible_width` and the
      length of `cells`. */
  datatype Geometry = Geometry(width: nat, visibleWidth: nat, len: nat)

  /** `width >> 2`: where the visible centre starts on each axis. */
  function CentreOffset(g: Geometry): nat
  {
    g.width / 4
  }

  /** One buffer write of `sync_to_buf`: position, value, and the linear index
      pushed to `to_remove` (value 0) or `to_add` (value 1). */
  datatype Write = Write(pos: nat, val: byte, lin: nat)

  /** Neighbour `k` of tracked index `cell`: `(cell / width + dx) as u32` and
      `(cell % width + dy) as u32`. */
  function NeighbourX(g: Geometry, cell: nat, k: nat): (nx: nat)
    requires g.width > 0 && k < 9
    ensures nx < U32
    ensures 0 <= cell / g.width + DX[k] < U32 ==> nx == cell / g.width + DX[k]
    ensures cell / g.width + DX[k] == -1 ==> nx == U32 - 1
  {
    Wrap32(cell / g.width + DX[k])
  }

  function NeighbourY(g: Geometry, cell: nat, k: nat): (ny: nat)
    requires g.width > 0 && k < 9
    ensures ny < U32
    ensures 0 <= cell % g.width + DY[k] < U32 ==> ny == cell % g.width + DY[k]
    ensures cell % g.width + DY[k] == -1 ==> ny == U32 - 1
  {
    Wrap32(cell % g.width + DY[k])
  }

  /** `actual`: `(nx - offset) * visible_width + (ny - offset)`, each step wrapping. */
  function Target(g: Geometry, nx: nat, ny: nat): (pos: nat)
    ensures pos < U32
    ensures var off := CentreOffset(g);
      off <= nx && off <= ny && (nx - off) * g.visibleWidth + (ny - off) < U32 ==>
        pos == (nx - off) * g.visibleWidth + (ny - off)
  {
    var off := CentreOffset(g);
    if off <= nx && off <= ny && (nx - off) * g.visibleWidth + (ny - off) < U32 then
      WrapProductSum(nx - off, g.visibleWidth, ny - off);
      Wrap32(Wrap32(Wrap32(nx - off) * g.visibleWidth) + Wrap32(ny - off))
    else
      Wrap32(Wrap32(Wrap32(nx - off) * g.visibleWidth) + Wrap32(ny - off))
  }

  /** `a * w + b` computed in `u32` step by step is exact when the
      mathematical value fits. */
  lemma WrapProductSum(a: nat, w: nat, b: nat)
    requires a * w + b < U32
    ensures Wrap32(Wrap32(Wrap32(a) * w) + Wrap32(b)) == a * w + b
  {
    if w > 0 {
      assert a <= a * w;
    }
  }

  /** `nx * width + ny` in `u32`. */
  function LinearIndex(g: Geometry, nx: nat, ny: nat): (lin: nat)
    ensures lin < U32
    ensures nx * g.width + ny < U32 ==> lin == nx * g.width + ny
  {
    Wrap32(Wrap32(nx * g.width) + ny)
  }

  /** The write for neighbour `k`: 0 where the region is `Dead`, 1 otherwise. */
  function NeighbourWrite(g: Geometry, region: (nat, nat) -> Leaf, cell: nat, k: nat): (w: Write)
    requires g.width > 0 && k < 9
    ensures w.val == 0 <==> region(NeighbourX(g, cell, k), NeighbourY(g, cell, k)) == Dead
    ensures w.val <= 1
  {
    var nx, ny := NeighbourX(g, cell, k), NeighbourY(g, cell, k);
    Write(Target(g, nx, ny), if region(nx, ny) == Dead then 0 else 1, LinearIndex(g, nx, ny))
  }

  /** The bounds check of `sync_to_buf` as intended: the position lies in `cells`. */
  predicate InBounds(g: Geometry, w: Write)
  {
    w.pos < g.len
  }

  /** The bounds check as written, `actual <= self.cells.len()`. */
  predicate InBoundsAsWritten(g: Geometry, w: Write)
    ensures InBounds(g, w) ==> InBoundsAsWritten(g, w)
    ensures InBoundsAsWritten(g, w) && !InBounds(g, w) ==> w.pos == g.len
  {
    w.pos <= g.len
  }

  /** The writes of neighbours `0 .. k - 1` of `cell` that pass the bounds check,
      in visiting order. */
  function NeighbourWrites(g: Geometry, region: (nat, nat) -> Leaf, cell: nat, k: nat): (ws: seq<Write>)
    requires g.width > 0 && k <= 9
    ensures |ws| <= k
    ensures forall i :: 0 <= i < |ws| ==> InBounds(g, ws[i])
  {
    if k == 0 then []
    else
      var w := NeighbourWrite(g, region, cell, k - 1);
      NeighbourWrites(g, region, cell, k - 1) + (if InBounds(g, w) then [w] else [])
  }

  /** The writes of neighbours `0 .. k - 1` under the as-written check. */
  function NeighbourWritesAsWritten(g: Geometry, region: (nat, nat) -> Leaf, cell: nat, k: nat): (ws: seq<Write>)
    requires g.width > 0 && k <= 9
    ensures |ws| <= k
    ensures forall i :: 0 <= i < |ws| ==> InBoundsAsWritten(g, ws[i])
  {
    if k == 0 then []
    else
      var w := NeighbourWrite(g, region, cell, k - 1);
      NeighbourWritesAsWritten(g, region, cell, k - 1) + (if InBoundsAsWritten(g, w) then [w] else [])
  }

  /** Every neighbour write whose position passes the bounds check is among
      the writes of `cell` (and every write there passes it, by the contract of
      `NeighbourWrites`). */
  lemma {:induction false} NeighbourWritesComplete(g: Geometry, region: (nat, nat) -> Leaf, cell: nat, k: nat, j: nat)
    requires g.width > 0 && j < k <= 9
    requires InBounds(g, NeighbourWrite(g, region, cell, j))
    ensures NeighbourWrite(g, region, cell, j) in NeighbourWrites(g, region, cell, k)
  {
    var front := NeighbourWrites(g, region, cell, k - 1);
    var last := NeighbourWrite(g, region, cell, k - 1);
    assert NeighbourWrites(g, region, cell, k) == front + (if InBounds(g, last) then [last] else []);
    if j < k - 1 {
      NeighbourWritesComplete(g, region, cell, k - 1, j);
    }
  }

  /** Every neighbour write that passes the as-written check is among the
      as-written writes. */
  lemma {:induction false} NeighbourWritesAsWrittenComplete(g: Geometry, region: (nat, nat) -> Leaf, cell: nat, k: nat, j: nat)
    requires g.width > 0 && j < k <= 9
    requires InBoundsAsWritten(g, NeighbourWrite(g, region, cell, j))
    ensures NeighbourWrite(g, region, cell, j) in NeighbourWritesAsWritten(g, region, cell, k)
  {
    var front := NeighbourWritesAsWritten(g, region, cell, k - 1);
    var last := NeighbourWrite(g, region, cell, k - 1);
    assert NeighbourWritesAsWritten(g, region, cell, k) == front + (if InBoundsAsWritten(g, last) then [last] else []);
    if j < k - 1 {
      NeighbourWritesAsWrittenComplete(g, region, cell, k - 1, j);
    }
  }

  /** The geometry of a level-1 universe: width 2, a 1-by-1 visible centre
      starting at offset `2 >> 2 = 0`. */
  const SmallGeometry: Geometry := Geometry(2, 1, 1)

  /** In a level-1 universe, the neighbour `(+1, 0)` of tracked index 0 (root
      cell `(0, 0)`, the one `toggle(0, 0)` tracks) is root cell `(1, 0)`, whose
      position `(1 - 0) * 1 + (0 - 0)` is 1: the as-written check `1 <= 1` lets
      the write to `cells[1]` of the 1-cell buffer through, the intended check
      `1 < 1` drops it. */
  lemma BoundsCheckCounterexample(region: (nat, nat) -> Leaf)
    ensures var w := NeighbourWrite(SmallGeometry, region, 0, 1);
      && w.pos == SmallGeometry.len
      && w in NeighbourWritesAsWritten(SmallGeometry, region, 0, 9)
      && w !in NeighbourWrites(SmallGeometry, region, 0, 9)
  {
    var g := SmallGeometry;
    var w := NeighbourWrite(g, region, 0, 1);
    assert NeighbourX(g, 0, 1) == 1 && NeighbourY(g, 0, 1) == 0;
    assert w.pos == 1;
    NeighbourWritesAsWrittenComplete(g, region, 0, 9, 1);
  }

  /** In a level-1 universe, the neighbour `(-1, 0)` of tracked index 0 is read
      at `((0 - 1) as u32, 0)`, that is `(2^32 - 1, 0)`: a coordinate outside
      every root of level 1, where `state_at` panics. */
  lemma OutOfRootRead(root: Node)
    requires GetSize(root) == 1
    ensures NeighbourX(SmallGeometry, 0, 3) == U32 - 1 && NeighbourY(SmallGeometry, 0, 3) == 0
    ensures !Covers(root, NeighbourX(SmallGeometry, 0, 3), NeighbourY(SmallGeometry, 0, 3))
  {
    assert Side(root) == 2;
  }

  /** The writes `sync_to_buf` makes for the tracked indices `cs`, in order. */
  function SyncWrites(g: Geometry, region: (nat, nat) -> Leaf, cs: seq<nat>): (ws: seq<Write>)
    requires g.width > 0
    ensures |ws| <= 9 * |cs|
    ensures forall i :: 0 <= i < |ws| ==> InBounds(g, ws[i])
  {
    if cs == [] then []
    else SyncWrites(g, region, cs[..|cs| - 1]) + NeighbourWrites(g, region, cs[|cs| - 1], 9)
  }

  /** Visiting one more tracked index appends its writes. */
  lemma SyncWritesAppend(g: Geometry, region: (nat, nat) -> Leaf, cs: seq<nat>, c: nat)
    requires g.width > 0
    ensures SyncWrites(g, region, cs + [c]) == SyncWrites(g, region, cs) + NeighbourWrites(g, region, c, 9)
  {
    assert (cs + [c])[..|cs|] == cs;
  }

  /** The buffer after the writes, in order: a later write to a position wins. */
  function Apply(buf: seq<byte>, ws: seq<Write>): (r: seq<byte>)
    requires forall i :: 0 <= i < |ws| ==> ws[i].pos < |buf|
    ensures |r| == |buf|
  {
    if ws == [] then buf
    else
      var last := ws[|ws| - 1];
      Apply(buf, ws[..|ws| - 1])[last.pos := last.val]
  }

  /** `to_remove`: the linear indices of the writes of 0, in order. */
  function Removed(ws: seq<Write>): (r: seq<nat>)
    ensures |r| <= |ws|
  {
    if ws == [] then []
    else
      var last := ws[|ws| - 1];
      Removed(ws[..|ws| - 1]) + (if last.val == 0 then [last.lin] else [])
  }

  /** `to_add`: the linear indices of the writes of anything but 0, in order. */
  function Added(ws: seq<Write>): (r: seq<nat>)
    ensures |r| <= |ws|
  {
    if ws == [] then []
    else
      var last := ws[|ws| - 1];
      Added(ws[..|ws| - 1]) + (if last.val != 0 then [last.lin] else [])
  }

  /** One more write, kept or dropped by the bounds check: when kept it is
      applied last and its index is pushed to one of the lists. */
  lemma WriteStep(buf: seq<byte>, rem: seq<nat>, add: seq<nat>, ws: seq<Write>, w: Write, kept: bool)
    requires forall i :: 0 <= i < |ws| ==> ws[i].pos < |buf|
    requires kept ==> w.pos < |buf|
    ensures var ws' := ws + (if kept then [w] else []);
      && (forall i :: 0 <= i < |ws'| ==> ws'[i].pos < |buf|)
      && Apply(buf, ws') == (if kept then Apply(buf, ws)[w.pos := w.val] else Apply(buf, ws))
      && rem + Removed(ws') == (if kept && w.val == 0 then (rem + Removed(ws)) + [w.lin] else rem + Removed(ws))
      && add + Added(ws') == (if kept && w.val != 0 then (add + Added(ws)) + [w.lin] else add + Added(ws))
  {
    if kept {
      assert (ws + [w])[..|ws|] == ws;
    } else {
      assert ws + [] == ws;
    }
  }

  /** Applying two runs of writes is applying the first, then the second. */
  lemma {:induction false} ApplyConcat(buf: seq<byte>, ws1: seq<Write>, ws2: seq<Write>)
    requires forall i :: 0 <= i < |ws1| ==> ws1[i].pos < |buf|
    requires forall i :: 0 <= i < |ws2| ==> ws2[i].pos < |buf|
    ensures forall i :: 0 <= i < |ws1 + ws2| ==> (ws1 + ws2)[i].pos < |buf|
    ensures Apply(buf, ws1 + ws2) == Apply(Apply(buf, ws1), ws2)
    decreases |ws2|
  {
    if ws2 == [] {
      assert ws1 + ws2 == ws1;
    } else {
      var front := ws2[..|ws2| - 1];
      assert (ws1 + ws2)[..|ws1 + ws2| - 1] == ws1 + front;
      ApplyConcat(buf, ws1, front);
    }
  }

  /** `to_remove` of two runs of writes is the list of each, joined. */
  lemma {:induction false} RemovedConcat(ws1: seq<Write>, ws2: seq<Write>)
    ensures Removed(ws1 + ws2) == Removed(ws1) + Removed(ws2)
    decreases |ws2|
  {
    if ws2 == [] {
      assert ws1 + ws2 == ws1;
    } else {
      var front := ws2[..|ws2| - 1];
      assert (ws1 + ws2)[..|ws1 + ws2| - 1] == ws1 + front;
      RemovedConcat(ws1, front);
    }
  }

  /** `to_add` of two runs of writes is the list of each, joined. */
  lemma {:induction false} AddedConcat(ws1: seq<Write>, ws2: seq<Write>)
    ensures Added(ws1 + ws2) == Added(ws1) + Added(ws2)
    decreases |ws2|
  {
    if ws2 == [] {
      assert ws1 + ws2 == ws1;
    } else {
      var front := ws2[..|ws2| - 1];
      assert (ws1 + ws2)[..|ws1 + ws2| - 1] == ws1 + front;
      AddedConcat(ws1, front);
    }
  }

  /** `to_remove` holds exactly the linear indices of the writes of 0. */
  lemma {:induction false} RemovedMembers(ws: seq<Write>, l: nat)
    ensures l in Removed(ws) <==> exists i :: 0 <= i < |ws| && ws[i].val == 0 && ws[i].lin == l
    decreases |ws|
  {
    if ws != [] {
      var front, last := ws[..|ws| - 1], ws[|ws| - 1];
      RemovedMembers(front, l);
      if l in Removed(ws) && l in Removed(front) {
        var i :| 0 <= i < |front| && front[i].val == 0 && front[i].lin == l;
        assert ws[i] == front[i];
      }
      if i :| 0 <= i < |ws| && ws[i].val == 0 && ws[i].lin == l {
        if i < |front| {
          assert front[i] == ws[i];
        }
      }
    }
  }

  /** `to_add` holds exactly the linear indices of the writes of anything but 0. */
  lemma {:induction false} AddedMembers(ws: seq<Write>, l: nat)
    ensures l in Added(ws) <==> exists i :: 0 <= i < |ws| && ws[i].val != 0 && ws[i].lin == l
    decreases |ws|
  {
    if ws != [] {
      var front, last := ws[..|ws| - 1], ws[|ws| - 1];
      AddedMembers(front, l);
      if l in Added(ws) && l in Added(front) {
        var i :| 0 <= i < |front| && front[i].val != 0 && front[i].lin == l;
        assert ws[i] == front[i];
      }
      if i :| 0 <= i < |ws| && ws[i].val != 0 && ws[i].lin == l {
        if i < |front| {
          assert front[i] == ws[i];
        }
      }
    }
  }

  function Elems(s: seq<nat>): (r: set<nat>)
    ensures forall l :: l in r <==> l in s
  {
    set l | l in s
  }

  /** A position no write touches keeps its value. */
  lemma {:induction false} ApplyUntouched(buf: seq<byte>, ws: seq<Write>, p: nat)
    requires forall i :: 0 <= i < |ws| ==> ws[i].pos < |buf|
    requires p < |buf| && forall i :: 0 <= i < |ws| ==> ws[i].pos != p
    ensures Apply(buf, ws)[p] == buf[p]
    decreases |ws|
  {
    if ws != [] {
      ApplyUntouched(buf, ws[..|ws| - 1], p);
    }
  }

  /** The last write to a position decides its value. */
  lemma {:induction false} ApplyLastWins(buf: seq<byte>, ws: seq<Write>, i: nat)
    requires forall j :: 0 <= j < |ws| ==> ws[j].pos < |buf|
    requires i < |ws| && forall j :: i < j < |ws| ==> ws[j].pos != ws[i].pos
    ensures Apply(buf, ws)[ws[i].pos] == ws[i].val
    decreases |ws|
  {
    if i < |ws| - 1 {
      ApplyLastWins(buf, ws[..|ws| - 1], i);
    }
  }

  /** `m` is the least element of `s`. */
  predicate IsLeast(s: set<nat>, m: nat)
  {
    m in s && forall x :: x in s ==> m <= x
  }

  /** The least element of a non-empty set of indices exists. */
  lemma {:induction false} MinExists(s: set<nat>)
    requires s != {}
    ensures exists m :: IsLeast(s, m)
    decreases |s|
  {
    var a :| a in s;
    if s == {a} {
      assert IsLeast(s, a);
    } else {
      var t := s - {a};
      MinExists(t);
      var m :| IsLeast(t, m);
      var least := if a < m then a else m;
      forall x | x in s ensures least <= x {
        if x != a {
          assert x in t;
        }
      }
      assert IsLeast(s, least);
    }
  }

  /** The least element of a non-empty set. */
  ghost function MinOf(s: set<nat>): (m: nat)
    requires s != {}
    ensures IsLeast(s, m)
  {
    MinExists(s);
    var m :| IsLeast(s, m);
    m
  }

  /** The elements of a set in the ascending order of `BTreeSet` iteration. */
  ghost function Ascending(s: set<nat>): (r: seq<nat>)
    decreases |s|
  {
    if s == {} then [] else [MinOf(s)] + Ascending(s - {MinOf(s)})
  }

  /** Iteration visits each element of the set, and nothing else. */
  lemma {:induction false} AscendingMembers(s: set<nat>)
    ensures forall l :: l in Ascending(s) <==> l in s
    decreases |s|
  {
    if s != {} {
      AscendingMembers(s - {MinOf(s)});
    }
  }

  /** Iteration is strictly ascending. */
  lemma {:induction false} AscendingSorted(s: set<nat>)
    ensures forall i, j :: 0 <= i < j < |Ascending(s)| ==> Ascending(s)[i] < Ascending(s)[j]
    decreases |s|
  {
    if s != {} {
      var m := MinOf(s);
      var rest := Ascending(s - {m});
      AscendingSorted(s - {m});
      AscendingMembers(s - {m});
      forall j | 0 <= j < |rest| ensures m < rest[j] {
        assert rest[j] in s - {m};
      }
    }
  }

  /** Iteration takes the least element first, then the rest in order. */
  lemma AscendingStep(s: set<nat>, m: nat)
    requires IsLeast(s, m)
    ensures Ascending(s) == [m] + Ascending(s - {m})
  {
    assert m == MinOf(s);
  }

  /** Universe state: `levels`, `width`, `visible_width`, `cells`, the cell
      manager and `update_indices`. */
  class Universe {
    const levels: nat
    const width: nat
    const visibleWidth: nat
    const cells: array<byte>
    const manager: CellManager
    var updateIndices: set<nat>

    ghost predicate Valid()
      reads this, cells, manager
    {
      && 1 <= levels <= 16
      && width == Pow2(levels) && visibleWidth == Pow2(levels - 1) && width == 2 * visibleWidth
      && cells.Length == visibleWidth * visibleWidth
      && manager.Valid() && GetSize(manager.parent) == levels && Side(manager.parent) == width
    }

    /** The numbers `sync_to_buf` works with. */
    function Geo(): (g: Geometry)
      ensures g.width == width && g.visibleWidth == visibleWidth && g.len == cells.Length
    {
      Geometry(width, visibleWidth, cells.Length)
    }

    /** The state of cell `(x, y)` of the root. */
    ghost function CellAt(x: nat, y: nat): Leaf
      reads manager
      requires manager.Valid() && Side(manager.parent) == width
      requires x < width && y < width
    {
      StateAt(manager.parent, x, y)
    }

    /** Coordinate `v` of the visible centre as a coordinate of the root. */
    function Centred(v: nat): nat
    {
      v + width / 4
    }

    /** `Universe::new`: an all-dead root of `levels`, a zeroed buffer of the
        visible centre and no tracked index. A level of 0 underflows and one above
        16 makes the buffer size wrap in the source. */
    constructor (lv: nat)
      requires 1 <= lv <= 16
      ensures Valid() && fresh(cells) && fresh(manager)
      ensures levels == lv && width == Pow2(lv) && visibleWidth == Pow2(lv - 1)
      ensures forall i :: 0 <= i < cells.Length ==> cells[i] == 0
      ensures updateIndices == {} && manager.parent == NewEmpty(lv)
    {
      var w, vw := Pow2(lv), Pow2(lv - 1);
      assert w == 2 * vw;
      levels := lv;
      width := w;
      visibleWidth := vw;
      cells := new byte[vw * vw](_ => 0);
      manager := new CellManager.Setup(lv);
      updateIndices := {};
    }

    /** `Universe::toggle`: flip cell `(Centred(x), Centred(y))` of the root,
        flip the membership of its linear index, and write the new membership
        to `cells[x * visible_width + y]`. Coordinates the tree or the
        buffer does not hold panic in the source. */
    method Toggle(x: nat, y: nat)
      requires Valid()
      requires Centred(x) < width && Centred(y) < width
      requires RowMajor(x, y, visibleWidth) < cells.Length
      modifies this, cells, manager
      ensures Valid()
      ensures var lin := LinearIndex(Geo(), Centred(x), Centred(y));
        && updateIndices == (if lin in old(updateIndices) then old(updateIndices) - {lin}
                             else old(updateIndices) + {lin})
        && cells[RowMajor(x, y, visibleWidth)] == (if lin in updateIndices then 1 else 0)
      ensures forall i :: 0 <= i < cells.Length && i != RowMajor(x, y, visibleWidth) ==> cells[i] == old(cells[i])
      ensures CellAt(Centred(x), Centred(y)) == Flip(old(CellAt(Centred(x), Centred(y))))
      ensures forall x2: nat, y2: nat :: x2 < width && y2 < width && (x2 != Centred(x) || y2 != Centred(y)) ==>
                CellAt(x2, y2) == old(CellAt(x2, y2))
    {
      var offset := width / 4;
      var nx, ny := x + offset, y + offset;
      assert nx == Centred(x) && ny == Centred(y);
      manager.Toggle(nx, ny);
      var linearIndex := LinearIndex(Geo(), nx, ny);
      if linearIndex in updateIndices {
        updateIndices := updateIndices - {linearIndex};
        cells[RowMajor(x, y, visibleWidth)] := 0;
      } else {
        updateIndices := updateIndices + {linearIndex};
        cells[RowMajor(x, y, visibleWidth)] := 1;
      }
    }

    /** The closure `sync_to_buf` runs on neighbour `k` of tracked index
        `cell`: when the neighbour's position passes the bounds check, write 0
        (the region is `Dead` there) or 1 to `cells` and push the neighbour's
        linear index to `to_remove` or `to_add`. */
    method VisitNeighbour(g: Geometry, region: (nat, nat) -> Leaf, cell: nat, k: nat, toRemove: seq<nat>, toAdd: seq<nat>)
      returns (removeAfter: seq<nat>, addAfter: seq<nat>)
      requires g.width > 0 && k < 9 && g.len == cells.Length
      modifies cells
      ensures var w := NeighbourWrite(g, region, cell, k);
        && cells[..] == (if InBounds(g, w) then old(cells[..])[w.pos := w.val] else old(cells[..]))
        && removeAfter == (if InBounds(g, w) && w.val == 0 then toRemove + [w.lin] else toRemove)
        && addAfter == (if InBounds(g, w) && w.val != 0 then toAdd + [w.lin] else toAdd)
    {
      removeAfter, addAfter := toRemove, toAdd;
      var nx, ny := NeighbourX(g, cell, k), NeighbourY(g, cell, k);
      var actual := Target(g, nx, ny);
      if region(nx, ny) == Dead {
        if actual < cells.Length {
          cells[actual] := 0;
          removeAfter := removeAfter + [LinearIndex(g, nx, ny)];
        }
      } else {
        if actual < cells.Length {
          cells[actual] := 1;
          addAfter := addAfter + [LinearIndex(g, nx, ny)];
        }
      }
    }

    /** The `for_each` of `sync_to_buf` over the nine neighbours of one tracked
        index `cell`, in order. */
    method SyncCell(g: Geometry, region: (nat, nat) -> Leaf, cell: nat, toRemove: seq<nat>, toAdd: seq<nat>)
      returns (removeAfter: seq<nat>, addAfter: seq<nat>)
      requires g.width > 0 && g.len == cells.Length
      modifies cells
      ensures var ws := NeighbourWrites(g, region, cell, 9);
        && cells[..] == Apply(old(cells[..]), ws)
        && removeAfter == toRemove + Removed(ws)
        && addAfter == toAdd + Added(ws)
    {
      ghost var start := cells[..];
      removeAfter, addAfter := toRemove, toAdd;
      var k := 0;
      while k < 9
        invariant k <= 9
        invariant cells[..] == Apply(start, NeighbourWrites(g, region, cell, k))
        invariant removeAfter == toRemove + Removed(NeighbourWrites(g, region, cell, k))
        invariant addAfter == toAdd + Added(NeighbourWrites(g, region, cell, k))
      {
        ghost var w := NeighbourWrite(g, region, cell, k);
        WriteStep(start, toRemove, toAdd, NeighbourWrites(g, region, cell, k), w, InBounds(g, w));
        removeAfter, addAfter := VisitNeighbour(g, region, cell, k, removeAfter, addAfter);
        k := k + 1;
      }
    }

    /** The `for cell in &self.update_indices` loop of `sync_to_buf`: each
        tracked index, in ascending order, through `SyncCell`, collecting the
        `to_remove` and `to_add` lists. */
    method SyncTracked(region: (nat, nat) -> Leaf) returns (toRemove: seq<nat>, toAdd: seq<nat>)
      requires width > 0
      modifies cells
      ensures var ws := SyncWrites(Geo(), region, Ascending(updateIndices));
        && cells[..] == Apply(old(cells[..]), ws)
        && toRemove == Removed(ws) && toAdd == Added(ws)
    {
      var g := Geometry(width, visibleWidth, cells.Length);
      ghost var start := cells[..];
      var remaining := updateIndices;
      ghost var visited: seq<nat> := [];
      toRemove, toAdd := [], [];
      while remaining != {}
        invariant Ascending(updateIndices) == visited + Ascending(remaining)
        invariant cells[..] == Apply(start, SyncWrites(g, region, visited))
        invariant toRemove == Removed(SyncWrites(g, region, visited))
        invariant toAdd == Added(SyncWrites(g, region, visited))
        decreases |remaining|
      {
        MinExists(remaining);
        var cell :| IsLeast(remaining, cell);
        AscendingStep(remaining, cell);
        assert visited + ([cell] + Ascending(remaining - {cell})) == (visited + [cell]) + Ascending(remaining - {cell});
        ghost var before := SyncWrites(g, region, visited);
        ghost var ws := NeighbourWrites(g, region, cell, 9);
        SyncWritesAppend(g, region, visited, cell);
        ApplyConcat(start, before, ws);
        RemovedConcat(before, ws);
        AddedConcat(before, ws);
        toRemove, toAdd := SyncCell(g, region, cell, toRemove, toAdd);
        visited := visited + [cell];
        remaining := remaining - {cell};
      }
      assert visited + [] == visited;
    }

    /** `Universe::sync_to_buf`, with `region` the state of the root it reads:
        `SyncTracked`, then `UpdateIndices` with the lists it collected. */
    method SyncToBuf(region: (nat, nat) -> Leaf)
      requires Valid()
      modifies this, cells
      ensures Valid()
      ensures var ws := SyncWrites(Geo(), region, Ascending(old(updateIndices)));
        && cells[..] == Apply(old(cells[..]), ws)
        && updateIndices == (old(updateIndices) - Elems(Removed(ws))) + Elems(Added(ws))
    {
      var toRemove, toAdd := SyncTracked(region);
      UpdateIndices(toRemove, toAdd);
    }

    /** `Universe::tick`: one generation of `CellManager::step`, which the crate
        does not define, then `sync_to_buf`. The step is abstract: `region` is
        the state of the root it leaves, and the manager's tree is not changed. */
    method Tick(region: (nat, nat) -> Leaf)
      requires Valid()
      modifies this, cells
      ensures Valid()
      ensures var ws := SyncWrites(Geo(), region, Ascending(old(updateIndices)));
        && cells[..] == Apply(old(cells[..]), ws)
        && updateIndices == (old(updateIndices) - Elems(Removed(ws))) + Elems(Added(ws))
    {
      SyncToBuf(region);
    }

    /** The two closing loops of `sync_to_buf`: remove each index of
        `toRemove` from the tracked set, then insert each index of `toAdd`. */
    method UpdateIndices(toRemove: seq<nat>, toAdd: seq<nat>)
      modifies this
      ensures updateIndices == (old(updateIndices) - Elems(toRemove)) + Elems(toAdd)
    {
      ghost var tracked := updateIndices;
      var i := 0;
      while i < |toRemove|
        invariant i <= |toRemove|
        invariant updateIndices == tracked - Elems(toRemove[..i])
      {
        assert toRemove[..i + 1] == toRemove[..i] + [toRemove[i]];
        updateIndices := updateIndices - {toRemove[i]};
        i := i + 1;
      }
      assert toRemove[..i] == toRemove;
      var j := 0;
      while j < |toAdd|
        invariant j <= |toAdd|
        invariant updateIndices == (tracked - Elems(toRemove)) + Elems(toAdd[..j])
      {
        assert toAdd[..j + 1] == toAdd[..j] + [toAdd[j]];
        updateIndices := updateIndices + {toAdd[j]};
        j := j + 1;
      }
      assert toAdd[..j] == toAdd;
    }
  }

  /** `x * n + y`: the row-major position of `(x, y)`. */
  function RowMajor(x: nat, y: nat, n: nat): (i: nat)
    ensures x < n && y < n ==> i < n * n
  {
    if x < n && y < n then RowMajorBound(x, y, n); x * n + y
    else x * n + y
  }

  /** On the root of `Universe::new(1)`, `_toggle(0, 0)` as written does not
      panic and agrees with the corrected descent that `Universe.Toggle` uses. */
  lemma OverrunToggleAsWritten()
    ensures ToggleAsWritten(NewEmpty(1), 0, 0) == Some(ToggleAt(NewEmpty(1), 0, 0))
  {
    AsWrittenLevelOne(NewEmpty(1), 0, 0);
    AsWrittenAtOrigin(NewEmpty(1));
  }

  /** `Universe::new(1)` followed by `toggle(0, 0)`: the buffer has 1 cell, the
      tracked set is `{0}`, and the next `sync_to_buf` reaches the write of
      `BoundsCheckCounterexample`, at position 1, whatever the root it reads.
      `OverrunToggleAsWritten` shows that this toggle is the one the source
      makes. */
  method OverrunScenario() returns (len: nat, tracked: set<nat>, pos: nat)
    ensures len == 1
    ensures tracked == {0}
    ensures pos == len
  {
    var u := new Universe(1);
    assert u.width == 2 && u.visibleWidth == 1 && u.cells.Length == 1;
    u.Toggle(0, 0);
    assert u.Centred(0) == 0 && u.Geo() == SmallGeometry;
    assert LinearIndex(u.Geo(), u.Centred(0), u.Centred(0)) == 0;
    len, tracked := u.cells.Length, u.updateIndices;
    assert tracked == {0};
    var region := (x: nat, y: nat) => Dead;
    BoundsCheckCounterexample(region);
    pos := NeighbourWrite(SmallGeometry, region, 0, 1).pos;
  }
}
