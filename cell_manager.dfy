/** `CellManager`: the root of the quadtree and the toggle of one cell, which
    rebuilds the path from the root to that cell and collapses every subtree that
    has become all dead into an `Empty` placeholder. */
module Manager {
  import opened Arith
  import opened Wrappers
  import opened Cells

  /** The last step of `_toggle`: a dead node is replaced by `Empty` of its level. */
  function Collapse(n: Node): (r: Node)
    ensures GetSize(r) == GetSize(n)
    ensures IsDead(r) <==> IsDead(n)
    ensures IsDead(r) ==> r.Empty?
    ensures WellFormed(n) ==> WellFormed(r)
  {
    if IsDead(n) then Empty(GetSize(n)) else n
  }

  /** Collapsing changes no cell. */
  lemma CollapseStateAt(n: Node, x: nat, y: nat)
    requires WellFormed(n) && Covers(n, x, y)
    ensures StateAt(Collapse(n), x, y) == StateAt(n, x, y)
  {
    if IsDead(n) {
      DeadStateAt(n, x, y);
    }
  }

  /** The node `_toggle` descends into: an `Empty` node is expanded to `new_empty`. */
  function Expand(n: Node): (mc: Node)
    requires WellFormed(n) && GetSize(n) >= 1
    ensures mc.MacroCell? && WellFormed(mc) && GetSize(mc) == GetSize(n)
    ensures Side(mc) == Side(n) && HalfSide(mc) == HalfSide(n)
  {
    if n.Empty? then NewEmpty(n.size) else n
  }

  /** Expanding changes no cell. */
  lemma ExpandStateAt(n: Node, x: nat, y: nat)
    requires WellFormed(n) && GetSize(n) >= 1 && Covers(n, x, y)
    ensures StateAt(Expand(n), x, y) == StateAt(n, x, y)
  {
    if n.Empty? {
      DeadStateAt(NewEmpty(n.size), x, y);
    }
  }

  /** Put the rebuilt quadrant `(qx, qy)` back and collapse the result if it is dead. */
  function Rebuild(mc: Node, qx: nat, qy: nat, c: Node): (r: Node)
    requires mc.MacroCell? && WellFormed(mc) && qx <= 1 && qy <= 1
    requires WellFormed(c) && GetSize(c) == mc.size - 1
    ensures WellFormed(r) && GetSize(r) == GetSize(mc)
    ensures Side(r) == Side(mc)
    ensures IsDead(r) ==> r.Empty?
  {
    Collapse(WithChild(mc, qx, qy, c))
  }

  /** After a rebuild, the cells of quadrant `(qx, qy)` are those of `c` and all
      other cells are unchanged. */
  lemma RebuildStateAt(mc: Node, qx: nat, qy: nat, c: Node, x: nat, y: nat)
    requires mc.MacroCell? && WellFormed(mc) && qx <= 1 && qy <= 1
    requires WellFormed(c) && GetSize(c) == mc.size - 1
    requires Covers(mc, x, y)
    ensures var half := HalfSide(mc);
      StateAt(Rebuild(mc, qx, qy, c), x, y)
      == if Half(x, half) == qx && Half(y, half) == qy then StateAt(c, Offset(x, half), Offset(y, half))
         else StateAt(mc, x, y)
  {
    var m := WithChild(mc, qx, qy, c);
    assert WellFormed(m) && Side(m) == Side(mc) && HalfSide(m) == HalfSide(mc);
    CollapseStateAt(m, x, y);
    StateAtStep(m, x, y);
    var px, py := Half(x, HalfSide(mc)), Half(y, HalfSide(mc));
    if px != qx || py != qy {
      assert Child(m, px, py) == Child(mc, px, py);
      StateAtStep(mc, x, y);
    }
  }

  /** `CellManager::_toggle` with the quadrant descent of `state_at`: flip cell
      `(x, y)` of `n`. A leaf is flipped; an `Empty` node is first expanded to
      `new_empty` of its level; the one quadrant holding the cell is rebuilt; any
      result that is dead is collapsed to `Empty`. An `Empty` node of level 0
      stands for a dead leaf and becomes a live one. */
  function ToggleAt(n: Node, x: nat, y: nat): (r: Node)
    requires WellFormed(n)
    requires GetSize(n) >= 1 ==> Covers(n, x, y)
    ensures WellFormed(r) && GetSize(r) == GetSize(n)
    ensures IsDead(r) ==> r.Empty?
    decreases GetSize(n)
  {
    if GetSize(n) == 0 then
      match n
      case LeafNode(l) => Collapse(LeafNode(Flip(l)))
      case Empty(_) => LeafNode(Alive)
    else
      var half := HalfSide(n);
      var mc := Expand(n);
      var qx, qy := Half(x, half), Half(y, half);
      Rebuild(mc, qx, qy, ToggleAt(Child(mc, qx, qy), Offset(x, half), Offset(y, half)))
  }

  /** `CellManager::_toggle` as written. `x / 1 << (s - 1)` parses as
      `(x / 1) << (s - 1)`, a left shift of the `u32` coordinate, and the offset
      `x % 1 << (s - 1)` is always 0; a quadrant index other than 0 or 1, and a
      level-0 node that is not a leaf, reach `panic!`, modelled as `None`. */
  function ToggleAsWritten(n: Node, x: nat, y: nat): (r: Option<Node>)
    requires WellFormed(n)
    ensures r.Some? ==> WellFormed(r.value) && GetSize(r.value) == GetSize(n)
    decreases GetSize(n)
  {
    if GetSize(n) >= 1 then
      var qx := Wrap32(x * HalfSide(n));
      var qy := Wrap32(y * HalfSide(n));
      if qx > 1 || qy > 1 then None
      else
        var mc := Expand(n);
        match ToggleAsWritten(Child(mc, qx, qy), 0, 0)
        case None => None
        case Some(c) => Some(Rebuild(mc, qx, qy, c))
    else
      match n
      case LeafNode(l) => Some(Collapse(LeafNode(Flip(l))))
      case Empty(_) => None
  }

  /** Reading a cell of a node of level at least 1 reads the quadrant `Half` of its
      coordinates at their `Offset`, whether or not the node is first expanded. */
  lemma Descend(n: Node, x: nat, y: nat)
    requires WellFormed(n) && GetSize(n) >= 1 && Covers(n, x, y)
    ensures var half := HalfSide(n);
      var c := Child(Expand(n), Half(x, half), Half(y, half));
      && Covers(c, Offset(x, half), Offset(y, half))
      && StateAt(n, x, y) == StateAt(c, Offset(x, half), Offset(y, half))
  {
    ExpandStateAt(n, x, y);
    StateAtStep(Expand(n), x, y);
  }

  /** Reading a cell of the toggled quadrant after a toggle above level 0 reads the
      toggled child. */
  lemma ToggleAtInside(n: Node, x: nat, y: nat, x2: nat, y2: nat)
    requires WellFormed(n) && GetSize(n) >= 1 && Covers(n, x, y) && Covers(n, x2, y2)
    requires Half(x2, HalfSide(n)) == Half(x, HalfSide(n)) && Half(y2, HalfSide(n)) == Half(y, HalfSide(n))
    ensures var half := HalfSide(n);
      var c := Child(Expand(n), Half(x, half), Half(y, half));
      && Covers(c, Offset(x, half), Offset(y, half))
      && Covers(c, Offset(x2, half), Offset(y2, half))
      && StateAt(ToggleAt(n, x, y), x2, y2)
         == StateAt(ToggleAt(c, Offset(x, half), Offset(y, half)), Offset(x2, half), Offset(y2, half))
  {
    var half := HalfSide(n);
    var mc := Expand(n);
    var qx, qy := Half(x, half), Half(y, half);
    Descend(n, x, y);
    Descend(n, x2, y2);
    var t := ToggleAt(Child(mc, qx, qy), Offset(x, half), Offset(y, half));
    RebuildStateAt(mc, qx, qy, t, x2, y2);
  }

  /** Reading a cell of another quadrant after a toggle above level 0 reads the
      node as it was. */
  lemma ToggleAtOutside(n: Node, x: nat, y: nat, x2: nat, y2: nat)
    requires WellFormed(n) && GetSize(n) >= 1 && Covers(n, x, y) && Covers(n, x2, y2)
    requires Half(x2, HalfSide(n)) != Half(x, HalfSide(n)) || Half(y2, HalfSide(n)) != Half(y, HalfSide(n))
    ensures StateAt(ToggleAt(n, x, y), x2, y2) == StateAt(n, x2, y2)
  {
    var half := HalfSide(n);
    var mc := Expand(n);
    var qx, qy := Half(x, half), Half(y, half);
    Descend(n, x, y);
    var t := ToggleAt(Child(mc, qx, qy), Offset(x, half), Offset(y, half));
    RebuildStateAt(mc, qx, qy, t, x2, y2);
    ExpandStateAt(n, x2, y2);
  }

  /** The toggled cell is flipped. */
  lemma {:induction false} ToggleAtFlips(n: Node, x: nat, y: nat)
    requires WellFormed(n) && Covers(n, x, y)
    ensures StateAt(ToggleAt(n, x, y), x, y) == Flip(StateAt(n, x, y))
    decreases GetSize(n)
  {
    if GetSize(n) >= 1 {
      var half := HalfSide(n);
      var c := Child(Expand(n), Half(x, half), Half(y, half));
      Descend(n, x, y);
      ToggleAtFlips(c, Offset(x, half), Offset(y, half));
      ToggleAtInside(n, x, y, x, y);
    }
  }

  /** Every other cell keeps its state. */
  lemma {:induction false} ToggleAtElsewhere(n: Node, x: nat, y: nat, x2: nat, y2: nat)
    requires WellFormed(n) && Covers(n, x, y) && Covers(n, x2, y2) && (x2 != x || y2 != y)
    ensures StateAt(ToggleAt(n, x, y), x2, y2) == StateAt(n, x2, y2)
    decreases GetSize(n)
  {
    if GetSize(n) >= 1 {
      var half := HalfSide(n);
      if Half(x2, half) == Half(x, half) && Half(y2, half) == Half(y, half) {
        var c := Child(Expand(n), Half(x, half), Half(y, half));
        ToggleAtInside(n, x, y, x2, y2);
        ToggleAtElsewhere(c, Offset(x, half), Offset(y, half), Offset(x2, half), Offset(y2, half));
        Descend(n, x2, y2);
      } else {
        ToggleAtOutside(n, x, y, x2, y2);
      }
    }
  }

  /** Toggling the same cell twice restores every cell, although the tree may
      differ (a dead leaf can come back as `Empty(0)`). */
  lemma ToggleTwiceRestores(n: Node, x: nat, y: nat, x2: nat, y2: nat)
    requires WellFormed(n) && Covers(n, x, y) && Covers(n, x2, y2)
    ensures StateAt(ToggleAt(ToggleAt(n, x, y), x, y), x2, y2) == StateAt(n, x2, y2)
  {
    var once := ToggleAt(n, x, y);
    if x2 == x && y2 == y {
      ToggleAtFlips(n, x, y);
      ToggleAtFlips(once, x, y);
    } else {
      ToggleAtElsewhere(n, x, y, x2, y2);
      ToggleAtElsewhere(once, x, y, x2, y2);
    }
  }

  /** Where `_toggle` as written does not panic at coordinate `(0, 0)`, it agrees
      with `ToggleAt`: the shift leaves 0 unchanged, so only the cell at the
      origin is reached. */
  lemma {:induction false} AsWrittenAtOrigin(n: Node)
    requires WellFormed(n)
    requires ToggleAsWritten(n, 0, 0).Some?
    ensures ToggleAsWritten(n, 0, 0).value == ToggleAt(n, 0, 0)
    decreases GetSize(n)
  {
    if GetSize(n) >= 1 {
      var mc := Expand(n);
      assert Half(0, HalfSide(n)) == 0 && Offset(0, HalfSide(n)) == 0;
      AsWrittenAtOrigin(Child(mc, 0, 0));
    }
  }

  /** Finding: the precedence of `x / 1 << (s - 1)` sends cell (1, 0) of a level-4
      root to quadrant 8 and the `panic!`, where the intended descent flips it. */
  lemma PrecedenceCounterexample()
    ensures ToggleAsWritten(NewEmpty(4), 1, 0).None?
    ensures StateAt(ToggleAt(NewEmpty(4), 1, 0), 1, 0) == Alive
  {
    var n := NewEmpty(4);
    assert HalfSide(n) == 8;
    ToggleAtFlips(n, 1, 0);
    DeadStateAt(n, 1, 0);
  }

  /** One as-written toggle of quadrant `(qx, qy)` of a level-1 macro cell whose
      quadrant holds a leaf: the shift is by 0, so the leaf is flipped in place. */
  lemma AsWrittenLevelOne(mc: Node, qx: nat, qy: nat)
    requires mc.MacroCell? && WellFormed(mc) && mc.size == 1 && qx <= 1 && qy <= 1
    requires Child(mc, qx, qy).LeafNode?
    ensures ToggleAsWritten(mc, qx, qy)
         == Some(Rebuild(mc, qx, qy, Collapse(LeafNode(Flip(Child(mc, qx, qy).state)))))
  {
    assert HalfSide(mc) == 1;
    assert Expand(mc) == mc;
  }

  /** Finding: a leaf toggled back to dead is collapsed to `Empty(0)`, which the
      level-0 branch of `_toggle` does not accept. On a level-1 root the shift is by
      0, so the as-written toggle reaches it: toggling (0, 0), (0, 1), (0, 0) leaves
      `ul` as `Empty(0)` beside a live `ur` (see `EmptyLeafPanics` for the fourth
      toggle of (0, 0)). */
  lemma EmptyLeafCounterexample()
    ensures ToggleAsWritten(NewEmpty(1), 0, 0) == Some(MacroCell(LeafNode(Alive), LeafNode(Dead), LeafNode(Dead), LeafNode(Dead), 1))
    ensures ToggleAsWritten(MacroCell(LeafNode(Alive), LeafNode(Dead), LeafNode(Dead), LeafNode(Dead), 1), 0, 1)
         == Some(MacroCell(LeafNode(Alive), LeafNode(Alive), LeafNode(Dead), LeafNode(Dead), 1))
    ensures ToggleAsWritten(MacroCell(LeafNode(Alive), LeafNode(Alive), LeafNode(Dead), LeafNode(Dead), 1), 0, 0)
         == Some(MacroCell(Empty(0), LeafNode(Alive), LeafNode(Dead), LeafNode(Dead), 1))
  {
    var d, a := LeafNode(Dead), LeafNode(Alive);
    AsWrittenLevelOne(MacroCell(d, d, d, d, 1), 0, 0);
    AsWrittenLevelOne(MacroCell(a, d, d, d, 1), 0, 1);
    AsWrittenLevelOne(MacroCell(a, a, d, d, 1), 0, 0);
  }

  /** The fourth toggle of `EmptyLeafCounterexample` descends into `Empty(0)` and
      panics. */
  lemma EmptyLeafPanics()
    ensures ToggleAsWritten(MacroCell(Empty(0), LeafNode(Alive), LeafNode(Dead), LeafNode(Dead), 1), 0, 0).None?
  {
    var stuck := MacroCell(Empty(0), LeafNode(Alive), LeafNode(Dead), LeafNode(Dead), 1);
    assert HalfSide(stuck) == 1 && Wrap32(0) == 0;
    assert Expand(stuck) == stuck && Child(stuck, 0, 0) == Empty(0);
    assert ToggleAsWritten(Empty(0), 0, 0).None?;
  }

  /** The corrected toggle on the tree of `EmptyLeafCounterexample` makes the
      collapsed cell alive again. */
  lemma EmptyLeafIntended()
    ensures StateAt(ToggleAt(MacroCell(Empty(0), LeafNode(Alive), LeafNode(Dead), LeafNode(Dead), 1), 0, 0), 0, 0) == Alive
  {
    var stuck := MacroCell(Empty(0), LeafNode(Alive), LeafNode(Dead), LeafNode(Dead), 1);
    assert HalfSide(stuck) == 1;
    ToggleAtFlips(stuck, 0, 0);
  }

  /** The root of the universe: always a well-formed macro cell. */
  class CellManager {
    var parent: Node

    ghost predicate Valid()
      reads this
    {
      WellFormed(parent) && parent.MacroCell?
    }

    /** `CellManager::setup`: an all-dead root of level `size`. */
    constructor Setup(size: nat)
      requires size >= 1
      ensures Valid() && GetSize(parent) == size && IsDead(parent)
      ensures parent == NewEmpty(size)
    {
      parent := NewEmpty(size);
    }

    /** `CellManager::toggle`: flip one cell; a root that collapsed to `Empty` is
        expanded again so that the root stays a macro cell of the same level. */
    method Toggle(x: nat, y: nat)
      requires Valid() && Covers(parent, x, y)
      modifies this
      ensures Valid() && GetSize(parent) == old(GetSize(parent)) && Side(parent) == old(Side(parent))
      ensures StateAt(parent, x, y) == Flip(old(StateAt(parent, x, y)))
      ensures forall x2: nat, y2: nat :: Covers(parent, x2, y2) && (x2 != x || y2 != y) ==>
                StateAt(parent, x2, y2) == old(StateAt(parent, x2, y2))
    {
      ghost var before := parent;
      parent := ToggleAt(parent, x, y);
      ghost var toggled := parent;
      if parent.Empty? {
        parent := NewEmpty(parent.size);
      }
      assert parent == Expand(toggled);
      ToggleAtFlips(before, x, y);
      ExpandStateAt(toggled, x, y);
      forall x2: nat, y2: nat | Covers(parent, x2, y2) && (x2 != x || y2 != y)
        ensures StateAt(parent, x2, y2) == StateAt(before, x2, y2)
      {
        ToggleAtElsewhere(before, x, y, x2, y2);
        ExpandStateAt(toggled, x2, y2);
      }
    }
  }

  /** The `test_toggle` scenario: on a level-4 root, toggling (0, 0) makes it
      alive; toggling it again makes it dead and the root keeps level 4. */
  method ToggleScenario() returns (first: Leaf, size: nat, second: Leaf)
    ensures first == Alive && size == 4 && second == Dead
  {
    var cm := new CellManager.Setup(4);
    DeadStateAt(cm.parent, 0, 0);
    cm.Toggle(0, 0);
    first := StateAt(cm.parent, 0, 0);
    cm.Toggle(0, 0);
    size := GetSize(cm.parent);
    second := StateAt(cm.parent, 0, 0);
  }
}
