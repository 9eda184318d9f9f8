/** The quadtree of the hashlife engine: a node is a single cell (`LeafNode`), a
    placeholder for an all-dead square (`Empty`), or a `MacroCell` of level `size`
    made of four children of level `size - 1`; a node of level `s` covers a
    `2^s`-by-`2^s` square of cells. Coordinates are `(x, y)` with `x` selecting
    the upper (`ul`, `ur`) or lower (`ll`, `lr`) half and `y` the left or right half. */
module Cells {
  import opened Arith

  /** The state of one cell. */
  datatype Leaf = Dead | Alive

  datatype Node =
    | MacroCell(ul: Node, ur: Node, ll: Node, lr: Node, size: nat)
    | LeafNode(state: Leaf)
    | Empty(size: nat)

  /** `Leaf::toggle`: the other state. */
  function Flip(l: Leaf): (r: Leaf)
    ensures r != l
  {
    match l
    case Dead => Alive
    case Alive => Dead
  }

  /** `Node::get_size`: the level of a node. */
  function GetSize(n: Node): nat
  {
    match n
    case MacroCell(_, _, _, _, s) => s
    case LeafNode(_) => 0
    case Empty(s) => s
  }

  /** `Node::is_dead`: a structural test for "no live cell". */
  predicate IsDead(n: Node)
  {
    match n
    case LeafNode(l) => l == Dead
    case MacroCell(ul, ur, ll, lr, _) => IsDead(ul) && IsDead(ur) && IsDead(ll) && IsDead(lr)
    case Empty(_) => true
  }

  /** Every `MacroCell` has level at least 1 and four children one level lower:
      what `MacroCell::new` asserts of each node it builds. */
  predicate WellFormed(n: Node)
  {
    match n
    case MacroCell(ul, ur, ll, lr, s) =>
      && s >= 1
      && GetSize(ul) == s - 1 && GetSize(ur) == s - 1
      && GetSize(ll) == s - 1 && GetSize(lr) == s - 1
      && WellFormed(ul) && WellFormed(ur) && WellFormed(ll) && WellFormed(lr)
    case LeafNode(_) => true
    case Empty(_) => true
  }

  /** The side of the square a node covers: `2^size`. */
  function Side(n: Node): (r: nat)
    ensures r >= 1
  {
    Pow2(GetSize(n))
  }

  /** The side of a quadrant of a node of level at least 1: `1 << (size - 1)`,
      the `child_block_size` of `state_at`. */
  function HalfSide(n: Node): (r: nat)
    requires GetSize(n) >= 1
    ensures r >= 1 && Side(n) == 2 * r
  {
    Pow2(GetSize(n) - 1)
  }

  /** `(x, y)` is a cell of the square a node covers. */
  predicate Covers(n: Node, x: nat, y: nat)
  {
    x < Side(n) && y < Side(n)
  }

  /** The quadrant `(qx, qy)` of a macro cell: (0,0) ul, (0,1) ur, (1,0) ll, (1,1) lr. */
  function Child(n: Node, qx: nat, qy: nat): (c: Node)
    requires n.MacroCell? && qx <= 1 && qy <= 1
    ensures c < n
    ensures WellFormed(n) ==> WellFormed(c) && GetSize(c) == n.size - 1 && Side(c) == HalfSide(n)
  {
    if qx == 0 then (if qy == 0 then n.ul else n.ur)
    else (if qy == 0 then n.ll else n.lr)
  }

  /** The macro cell with quadrant `(qx, qy)` replaced by `c`. */
  function WithChild(n: Node, qx: nat, qy: nat, c: Node): (r: Node)
    requires n.MacroCell? && qx <= 1 && qy <= 1
    ensures r.MacroCell? && r.size == n.size && GetSize(r) == GetSize(n)
    ensures Child(r, qx, qy) == c
    ensures forall px: nat, py: nat :: px <= 1 && py <= 1 && (px != qx || py != qy) ==>
              Child(r, px, py) == Child(n, px, py)
    ensures WellFormed(n) && WellFormed(c) && GetSize(c) == n.size - 1 ==> WellFormed(r)
  {
    if qx == 0 && qy == 0 then n.(ul := c)
    else if qx == 0 then n.(ur := c)
    else if qy == 0 then n.(ll := c)
    else n.(lr := c)
  }

  /** `Node::state_at`: the state of cell `(x, y)`. A macro cell splits the
      coordinates by `HalfSide` into a quadrant and an offset inside it; a
      quadrant index other than 0 or 1 panics in the source, hence the bound. */
  function StateAt(n: Node, x: nat, y: nat): Leaf
    requires WellFormed(n)
    requires n.MacroCell? ==> Covers(n, x, y)
    decreases n
  {
    match n
    case MacroCell(_, _, _, _, _) =>
      var half := HalfSide(n);
      StateAt(Child(n, Half(x, half), Half(y, half)), Offset(x, half), Offset(y, half))
    case LeafNode(l) => l
    case Empty(_) => Dead
  }

  /** One step of `StateAt` on a macro cell. */
  lemma StateAtStep(n: Node, x: nat, y: nat)
    requires WellFormed(n) && n.MacroCell? && Covers(n, x, y)
    ensures var half := HalfSide(n);
      var c := Child(n, Half(x, half), Half(y, half));
      && Covers(c, Offset(x, half), Offset(y, half))
      && StateAt(n, x, y) == StateAt(c, Offset(x, half), Offset(y, half))
  {
  }

  /** `MacroCell::new`: four children of one level make a node one level higher. */
  function NewMacroCell(ul: Node, ur: Node, ll: Node, lr: Node): (r: Node)
    requires GetSize(ul) == GetSize(ur) == GetSize(ll) == GetSize(lr)
    ensures r.MacroCell? && GetSize(r) == GetSize(ul) + 1
    ensures r.ul == ul && r.ur == ur && r.ll == ll && r.lr == lr
    ensures WellFormed(ul) && WellFormed(ur) && WellFormed(ll) && WellFormed(lr) ==> WellFormed(r)
  {
    MacroCell(ul, ur, ll, lr, GetSize(ul) + 1)
  }

  /** `MacroCell::new_empty`: an all-dead macro cell of level `size`, built from
      dead leaves at level 1 and from `Empty` placeholders above. */
  function NewEmpty(size: nat): (r: Node)
    requires size >= 1
    ensures r.MacroCell? && GetSize(r) == size && WellFormed(r) && IsDead(r)
  {
    if size == 1 then
      NewMacroCell(LeafNode(Dead), LeafNode(Dead), LeafNode(Dead), LeafNode(Dead))
    else
      NewMacroCell(Empty(size - 1), Empty(size - 1), Empty(size - 1), Empty(size - 1))
  }

  /** Every cell of a well-formed node holds `Dead`. */
  ghost predicate AllDead(n: Node)
    requires WellFormed(n)
  {
    forall x: nat, y: nat :: Covers(n, x, y) ==> StateAt(n, x, y) == Dead
  }

  /** Cell `r` of quadrant `q` of a macro cell is cell `Join(q, r)` of the macro cell. */
  lemma StateAtQuadrant(n: Node, qx: nat, qy: nat, rx: nat, ry: nat)
    requires WellFormed(n) && n.MacroCell? && qx <= 1 && qy <= 1
    requires rx < HalfSide(n) && ry < HalfSide(n)
    ensures Covers(n, Join(qx, rx, HalfSide(n)), Join(qy, ry, HalfSide(n)))
    ensures Covers(Child(n, qx, qy), rx, ry)
    ensures StateAt(n, Join(qx, rx, HalfSide(n)), Join(qy, ry, HalfSide(n)))
         == StateAt(Child(n, qx, qy), rx, ry)
  {
    StateAtStep(n, Join(qx, rx, HalfSide(n)), Join(qy, ry, HalfSide(n)));
  }

  /** A node that `is_dead` reads `Dead` at every coordinate `state_at` accepts. */
  lemma {:induction false} DeadStateAt(n: Node, x: nat, y: nat)
    requires WellFormed(n) && IsDead(n)
    requires n.MacroCell? ==> Covers(n, x, y)
    ensures StateAt(n, x, y) == Dead
    decreases n
  {
    match n
    case MacroCell(_, _, _, _, _) =>
      var half := HalfSide(n);
      var c := Child(n, Half(x, half), Half(y, half));
      assert IsDead(c);
      StateAtStep(n, x, y);
      DeadStateAt(c, Offset(x, half), Offset(y, half));
    case LeafNode(_) =>
    case Empty(_) =>
  }

  /** `is_dead` is exact for well-formed nodes: a node is dead if and only if every
      cell it covers is `Dead`. */
  lemma {:induction false} IsDeadIffAllDead(n: Node)
    requires WellFormed(n)
    ensures IsDead(n) <==> AllDead(n)
    decreases n
  {
    if IsDead(n) {
      forall x: nat, y: nat | Covers(n, x, y) ensures StateAt(n, x, y) == Dead {
        DeadStateAt(n, x, y);
      }
    } else if n.MacroCell? {
      var qx: nat, qy: nat :| qx <= 1 && qy <= 1 && !IsDead(Child(n, qx, qy));
      var c := Child(n, qx, qy);
      IsDeadIffAllDead(c);
      var rx: nat, ry: nat :| Covers(c, rx, ry) && StateAt(c, rx, ry) != Dead;
      StateAtQuadrant(n, qx, qy, rx, ry);
    } else {
      assert n.LeafNode? && Covers(n, 0, 0) && StateAt(n, 0, 0) == Alive;
    }
  }
}
