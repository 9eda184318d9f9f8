/** `CellFactory`: hash-consing of quadtree nodes. Nodes are immutable values,
    so a cache hit and a freshly built node are the same value; the caches are
    modelled by what they store, and the node a call returns is fixed by its
    arguments alone. */
module Factory {
  import opened Arith
  import opened Wrappers
  import opened Cells

  /** The number of slots of `empty_cache`. */
  const EmptySlots: nat := 64

  /** The key of `node_cache`: the four children, by value. */
  datatype Quad = Quad(ul: Node, ur: Node, ll: Node, lr: Node)

  /** The four children have one level, as `MacroCell::new` asserts. */
  predicate SameLevel(q: Quad)
  {
    GetSize(q.ul) == GetSize(q.ur) == GetSize(q.ll) == GetSize(q.lr)
  }

  predicate QuadWellFormed(q: Quad)
  {
    WellFormed(q.ul) && WellFormed(q.ur) && WellFormed(q.ll) && WellFormed(q.lr)
  }

  predicate QuadDead(q: Quad)
  {
    IsDead(q.ul) && IsDead(q.ur) && IsDead(q.ll) && IsDead(q.lr)
  }

  /** Quadrant `(qx, qy)` of a key. */
  function QuadChild(q: Quad, qx: nat, qy: nat): Node
    requires qx <= 1 && qy <= 1
  {
    if qx == 0 then (if qy == 0 then q.ul else q.ur)
    else (if qy == 0 then q.ll else q.lr)
  }

  /** What `get_empty(size)` returns: the dead leaf at level 0 and `new_empty`
      above. */
  function CanonicalEmpty(size: nat): (r: Node)
    ensures GetSize(r) == size && WellFormed(r) && IsDead(r)
    ensures size >= 1 ==> r.MacroCell?
  {
    if size == 0 then LeafNode(Dead) else NewEmpty(size)
  }

  /** What `node_from` returns for four children: the empty node of the next
      level when all four are dead, otherwise the macro cell built from them;
      either way a macro cell one level above its children, dead exactly when
      all four are. */
  function NodeOf(q: Quad): (r: Node)
    requires SameLevel(q)
    ensures r.MacroCell? && GetSize(r) == GetSize(q.ul) + 1
    ensures QuadWellFormed(q) ==> WellFormed(r)
    ensures IsDead(r) <==> QuadDead(q)
  {
    if QuadDead(q) then CanonicalEmpty(GetSize(q.ul) + 1)
    else NewMacroCell(q.ul, q.ur, q.ll, q.lr)
  }

  /** Reading cell `(Join(qx, rx), Join(qy, ry))` of the node `node_from` returns
      reads cell `(rx, ry)` of child `(qx, qy)`: hash-consing loses no cell. */
  lemma NodeOfStateAt(q: Quad, qx: nat, qy: nat, rx: nat, ry: nat)
    requires SameLevel(q) && QuadWellFormed(q) && qx <= 1 && qy <= 1
    requires rx < Side(q.ul) && ry < Side(q.ul)
    ensures var n := NodeOf(q);
      && Covers(n, Join(qx, rx, Side(q.ul)), Join(qy, ry, Side(q.ul)))
      && StateAt(n, Join(qx, rx, Side(q.ul)), Join(qy, ry, Side(q.ul))) == StateAt(QuadChild(q, qx, qy), rx, ry)
  {
    var n := NodeOf(q);
    var c := QuadChild(q, qx, qy);
    assert HalfSide(n) == Side(q.ul);
    if QuadDead(q) {
      DeadStateAt(n, Join(qx, rx, Side(q.ul)), Join(qy, ry, Side(q.ul)));
      DeadStateAt(c, rx, ry);
    } else {
      assert Child(n, qx, qy) == c;
      StateAtQuadrant(n, qx, qy, rx, ry);
    }
  }

  /** The node caches of a `CellFactory`. */
  class CellFactory {
    /** `node_cache`: keys are the four children of a macro cell it built. */
    var nodeCache: map<Quad, Node>
    /** `result_cache`: the result computed for a node. */
    var resultCache: map<Node, Node>
    /** `empty_cache`: slot `s` holds the empty node of level `s` once built. */
    const emptyCache: array<Option<Node>>
    /** `leaf_cache`: the dead and the live leaf. */
    const leafCache: seq<Node>

    ghost predicate Valid()
      reads this, emptyCache
    {
      && emptyCache.Length == EmptySlots
      && emptyCache[0].None?
      && (forall s :: 1 <= s < EmptySlots && emptyCache[s].Some? ==> emptyCache[s].value == NewEmpty(s))
      && leafCache == [LeafNode(Dead), LeafNode(Alive)]
      && (forall q :: q in nodeCache ==>
            SameLevel(q) && !QuadDead(q) && nodeCache[q] == NewMacroCell(q.ul, q.ur, q.ll, q.lr))
    }

    /** `CellFactory::new`: empty caches, 64 empty slots, the two leaves. */
    constructor ()
      ensures Valid() && fresh(emptyCache)
      ensures nodeCache == map[] && resultCache == map[]
      ensures forall s :: 0 <= s < EmptySlots ==> emptyCache[s].None?
    {
      nodeCache := map[];
      resultCache := map[];
      emptyCache := new Option<Node>[EmptySlots](_ => None);
      leafCache := [LeafNode(Dead), LeafNode(Alive)];
    }

    /** `CellFactory::get_leaf`: the cached leaf of the variant. */
    method GetLeaf(variant: Leaf) returns (r: Node)
      requires Valid()
      ensures r == LeafNode(variant)
    {
      match variant
      case Alive => r := leafCache[1];
      case Dead => r := leafCache[0];
    }

    /** `CellFactory::get_empty`: the cached empty node of level `size`, built
        and stored on first use; level 0 is the dead leaf and is not stored.
        An index past the 64 slots panics in the source. */
    method GetEmpty(size: nat) returns (r: Node)
      requires Valid() && size < EmptySlots
      modifies emptyCache
      ensures Valid()
      ensures r == CanonicalEmpty(size)
      ensures size >= 1 ==> emptyCache[size] == Some(r)
      ensures forall s :: 0 <= s < EmptySlots && s != size ==> emptyCache[s] == old(emptyCache[s])
      ensures size == 0 ==> emptyCache[..] == old(emptyCache[..])
    {
      var cached := emptyCache[size];
      if cached.Some? {
        r := cached.value;
      } else if size == 0 {
        r := GetLeaf(Dead);
      } else {
        r := NewEmpty(size);
        emptyCache[size] := Some(r);
      }
    }

    /** `CellFactory::node_from`: the cached macro cell of these four children,
        or a new one that is then cached; four dead children give the empty node
        of the next level instead, which is not put in `node_cache`. */
    method NodeFrom(ul: Node, ur: Node, ll: Node, lr: Node) returns (r: Node)
      requires Valid() && SameLevel(Quad(ul, ur, ll, lr))
      requires QuadDead(Quad(ul, ur, ll, lr)) ==> GetSize(ul) + 1 < EmptySlots
      modifies this, emptyCache
      ensures Valid()
      ensures r == NodeOf(Quad(ul, ur, ll, lr))
      ensures nodeCache == if QuadDead(Quad(ul, ur, ll, lr)) then old(nodeCache)
                           else old(nodeCache)[Quad(ul, ur, ll, lr) := r]
      ensures resultCache == old(resultCache)
      ensures !QuadDead(Quad(ul, ur, ll, lr)) ==> emptyCache[..] == old(emptyCache[..])
      ensures QuadDead(Quad(ul, ur, ll, lr)) ==>
                forall s :: 0 <= s < EmptySlots && s != GetSize(ul) + 1 ==> emptyCache[s] == old(emptyCache[s])
      ensures QuadDead(Quad(ul, ur, ll, lr)) ==> emptyCache[GetSize(ul) + 1] == Some(r)
    {
      var key := Quad(ul, ur, ll, lr);
      if key in nodeCache {
        r := nodeCache[key];
        assert nodeCache == nodeCache[key := r];
      } else if QuadDead(key) {
        r := GetEmpty(GetSize(ul) + 1);
      } else {
        r := NewMacroCell(ul, ur, ll, lr);
        nodeCache := nodeCache[key := r];
      }
    }

    /** `CellFactory::get_result`: the cached result of a node, if any. */
    method GetResult(node: Node) returns (r: Option<Node>)
      requires Valid()
      ensures r.Some? <==> node in resultCache
      ensures r.Some? ==> r.value == resultCache[node]
    {
      if node in resultCache {
        r := Some(resultCache[node]);
      } else {
        r := None;
      }
    }

    /** `CellFactory::cache_result`: record the result of a node. */
    method CacheResult(node: Node, result: Node)
      requires Valid()
      modifies this
      ensures Valid()
      ensures resultCache == old(resultCache)[node := result]
      ensures nodeCache == old(nodeCache)
    {
      resultCache := resultCache[node := result];
    }

    /** `CellFactory::get_quad`: quadrant `(x, y)` of a macro cell, or the empty
        node one level down for an `Empty` node (whatever `x` and `y`). A leaf, a
        quadrant index above 1, and `Empty(0)` (whose level minus one underflows)
        panic in the source. */
    method GetQuad(node: Node, x: nat, y: nat) returns (r: Node)
      requires Valid() && WellFormed(node) && !node.LeafNode?
      requires node.MacroCell? ==> x <= 1 && y <= 1
      requires node.Empty? ==> 1 <= node.size <= EmptySlots
      modifies emptyCache
      ensures Valid()
      ensures r == Quadrant(node, x, y)
      ensures node.MacroCell? ==> emptyCache[..] == old(emptyCache[..])
      ensures node.Empty? ==>
                forall s :: 0 <= s < EmptySlots && s != node.size - 1 ==> emptyCache[s] == old(emptyCache[s])
    {
      match node
      case MacroCell(_, _, _, _, _) =>
        r := Child(node, x, y);
      case Empty(size) =>
        r := GetEmpty(size - 1);
    }
  }

  /** What `get_quad` returns. */
  function Quadrant(node: Node, x: nat, y: nat): (r: Node)
    requires WellFormed(node) && !node.LeafNode?
    requires node.MacroCell? ==> x <= 1 && y <= 1
    requires node.Empty? ==> node.size >= 1
    ensures WellFormed(r) && GetSize(r) == GetSize(node) - 1
  {
    if node.MacroCell? then Child(node, x, y) else CanonicalEmpty(node.size - 1)
  }

  /** Every cell of the quadrant `get_quad` returns is the cell of the node it
      stands for: cell `(rx, ry)` of quadrant `(x, y)` is cell
      `(Join(x, rx), Join(y, ry))` of the node. */
  lemma QuadrantStateAt(node: Node, x: nat, y: nat, rx: nat, ry: nat)
    requires WellFormed(node) && !node.LeafNode? && x <= 1 && y <= 1
    requires node.Empty? ==> node.size >= 1
    requires rx < Side(Quadrant(node, x, y)) && ry < Side(Quadrant(node, x, y))
    ensures Covers(node, Join(x, rx, HalfSide(node)), Join(y, ry, HalfSide(node)))
    ensures StateAt(Quadrant(node, x, y), rx, ry)
         == StateAt(node, Join(x, rx, HalfSide(node)), Join(y, ry, HalfSide(node)))
  {
    var r := Quadrant(node, x, y);
    if node.MacroCell? {
      StateAtQuadrant(node, x, y, rx, ry);
    } else {
      assert Side(r) == HalfSide(node);
      DeadStateAt(r, rx, ry);
    }
  }

  /** A second `node_from` with the same children returns the node the first
      call cached and leaves `node_cache` as it was; `cache_result` followed by
      `get_result` returns the cached result, and a node never cached has none. */
  method CacheScenario(ul: Node, ur: Node, ll: Node, lr: Node, n: Node, res: Node, other: Node)
    returns (first: Node, second: Node, hit: Option<Node>, miss: Option<Node>)
    requires SameLevel(Quad(ul, ur, ll, lr)) && GetSize(ul) + 1 < EmptySlots
    requires other != n
    ensures first == second == NodeOf(Quad(ul, ur, ll, lr))
    ensures hit == Some(res) && miss == None
  {
    var f := new CellFactory();
    first := f.NodeFrom(ul, ur, ll, lr);
    ghost var cached := f.nodeCache;
    second := f.NodeFrom(ul, ur, ll, lr);
    assert !QuadDead(Quad(ul, ur, ll, lr)) ==> f.nodeCache == cached;
    f.CacheResult(n, res);
    hit := f.GetResult(n);
    miss := f.GetResult(other);
  }
}
