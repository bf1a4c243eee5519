/** The authentication path of a leaf inside an accepted partial tree. */
module BranchPath {
  import opened MerkleTree
  import opened PartialTree
  import opened Position
  import opened StackParser
  import opened Word32
  import opened Wrappers

  // ----- which positions a subtree records -----

  /** Index of a position within its level. */
  function IndexOf(d: nat, pos: nat): nat
    requires pos <= Pow2(d + 1) - 2
  {
    PositionsAreNodes(d, pos);
    pos - Base(d, LevelOf(d, pos))
  }

  /** Node (h, i) is the node at pos or an ancestor of it. */
  predicate Under(d: nat, pos: nat, h: nat, i: nat) {
    pos <= Pow2(d + 1) - 2 && LevelOf(d, pos) <= h && Up(IndexOf(d, pos), h - LevelOf(d, pos)) == i
  }

  lemma {:induction false} FlatIsUnder(d: nat, h: nat, i: nat)
    requires h <= d && i < Pow2(d - h)
    ensures Under(d, Flat(d, h, i), h, i)
  {
    FlatBelow(d, h, i);
    LevelOfFlat(d, h, i);
    assert Pow2(d + 1) - 2 >= Flat(d, h, i) by {
      assert Pow2(d - h + 1) == 2 * Pow2(d - h);
    }
  }

  lemma {:induction false} NodesAreUnder(t: PTree, n: nat, pair: PairHash, h: nat, i: nat)
    requires Shaped(t, n, h, i) && h <= Depth(n)
    ensures forall p :: p in Nodes(t, Depth(n), pair, h, i) ==> Under(Depth(n), p, h, i)
    decreases t
  {
    hide Under, Flat, Pow2, Depth, Width;
    WidthFits(n, h);
    FlatIsUnder(Depth(n), h, i);
    match t
    case Pruned(_) =>
    case Leaf(_, _) =>
    case Single(left) =>
      NodesAreUnder(left, n, pair, h - 1, 2 * i);
      UnderParent(Depth(n), h, i, 2 * i, 2 * i + 1);
    case Both(left, right) =>
      NodesAreUnder(left, n, pair, h - 1, 2 * i);
      NodesAreUnder(right, n, pair, h - 1, 2 * i + 1);
      UnderParent(Depth(n), h, i, 2 * i, 2 * i + 1);
  }

  /** What is below a child is below its parent, and below one child only. */
  lemma {:induction false} UnderParent(d: nat, h: nat, i: nat, l: nat, r: nat)
    requires h > 0 && l == 2 * i && r == 2 * i + 1
    ensures forall p :: Under(d, p, h - 1, l) ==> Under(d, p, h, i) && !Under(d, p, h - 1, r)
    ensures forall p :: Under(d, p, h - 1, r) ==> Under(d, p, h, i)
  {
    hide Pow2, LevelOf, IndexOf;
    forall p | Under(d, p, h - 1, l) || Under(d, p, h - 1, r) ensures Under(d, p, h, i) {
      var k := h - LevelOf(d, p);
      assert Up(IndexOf(d, p), k) == Up(IndexOf(d, p), k - 1) / 2;
    }
  }

  ghost predicate Includes(nodes: map<nat, Hash>, part: map<nat, Hash>) {
    forall p :: p in part ==> p in nodes && nodes[p] == part[p]
  }

  /** A parent records its own hash and everything its children record. */
  lemma {:induction false} RecordsOwnHash(t: PTree, d: nat, pair: PairHash, h: nat, i: nat)
    requires h <= d && (t.Single? || t.Both? ==> h > 0)
    ensures Flat(d, h, i) in Nodes(t, d, pair, h, i)
    ensures Nodes(t, d, pair, h, i)[Flat(d, h, i)] == Root(t, pair)
  {
    hide Flat;
  }

  lemma {:induction false} IncludesChildren(t: PTree, n: nat, pair: PairHash, h: nat, i: nat, nodes: map<nat, Hash>)
    requires Shaped(t, n, h, i) && 0 < h <= Depth(n)
    requires Includes(nodes, Nodes(t, Depth(n), pair, h, i))
    ensures t.Single? || t.Both? ==> Includes(nodes, Nodes(t.left, Depth(n), pair, h - 1, 2 * i))
    ensures t.Both? ==> Includes(nodes, Nodes(t.right, Depth(n), pair, h - 1, 2 * i + 1))
  {
    if t.Single? || t.Both? {
      hide Under, Flat, Pow2, Depth, Width, Nodes;
      ShapeBounds(t, n, h, i);
      OwnIsNotBelow(n, h, i);
      UnderParent(Depth(n), h, i, 2 * i, 2 * i + 1);
      NodesAreUnder(t.left, n, pair, h - 1, 2 * i);
      if t.Both? {
        NodesAreUnder(t.right, n, pair, h - 1, 2 * i + 1);
        var b := Nodes(t.right, Depth(n), pair, h - 1, 2 * i + 1);
        forall p | p in b ensures p in nodes && nodes[p] == b[p] {
          NodesStep(t, Depth(n), pair, h, i, p);
        }
      }
      var a := Nodes(t.left, Depth(n), pair, h - 1, 2 * i);
      forall p | p in a ensures p in nodes && nodes[p] == a[p] {
        NodesStep(t, Depth(n), pair, h, i, p);
      }
    }
  }

  lemma {:induction false} OwnIsNotBelow(n: nat, h: nat, i: nat)
    requires 0 < h <= Depth(n) && i < Width(n, h)
    ensures !Under(Depth(n), Flat(Depth(n), h, i), h - 1, 2 * i)
    ensures !Under(Depth(n), Flat(Depth(n), h, i), h - 1, 2 * i + 1)
  {
    WidthFits(n, h);
    FlatBelow(Depth(n), h, i);
    LevelOfFlat(Depth(n), h, i);
    hide Pow2;
  }

  // ----- leaves of a partial tree -----

  /** The hash of leaf x, if the tree shows it. */
  function LeafAt(t: PTree, h: nat, i: nat, x: nat): Option<Hash> {
    match t
    case Pruned(_) => None
    case Leaf(hash, _) => if i == x then Some(hash) else None
    case Single(left) => if h > 0 then LeafAt(left, h - 1, 2 * i, x) else None
    case Both(left, right) =>
      if h == 0 then None
      else if Up(x, h - 1) == 2 * i then LeafAt(left, h - 1, 2 * i, x)
      else LeafAt(right, h - 1, 2 * i + 1, x)
  }

  lemma {:induction false} LeafIsBelow(t: PTree, n: nat, h: nat, i: nat, x: nat)
    requires Shaped(t, n, h, i) && LeafAt(t, h, i, x).Some?
    ensures Up(x, h) == i && x < n
    decreases t
  {
    match t
    case Leaf(_, _) =>
    case Single(left) => LeafIsBelow(left, n, h - 1, 2 * i, x);
    case Both(left, right) =>
      if Up(x, h - 1) == 2 * i {
        LeafIsBelow(left, n, h - 1, 2 * i, x);
      } else {
        LeafIsBelow(right, n, h - 1, 2 * i + 1, x);
      }
  }

  lemma {:induction false} MatchedIsLeaf(t: PTree, n: nat, h: nat, i: nat, f: Found)
    requires Shaped(t, n, h, i) && f in Matched(t, i)
    ensures LeafAt(t, h, i, f.index) == Some(f.id)
    decreases t
  {
    match t
    case Leaf(_, _) =>
    case Single(left) => MatchedIsLeaf(left, n, h - 1, 2 * i, f);
    case Both(left, right) =>
      if f in Matched(left, 2 * i) {
        MatchedIsLeaf(left, n, h - 1, 2 * i, f);
        LeafIsBelow(left, n, h - 1, 2 * i, f.index);
      } else {
        MatchedIsLeaf(right, n, h - 1, 2 * i + 1, f);
        LeafIsBelow(right, n, h - 1, 2 * i + 1, f.index);
      }
  }

  /** Below msb the recorded positions are the shown leaves. */
  lemma {:induction false} LowNodesAreLeaves(t: PTree, n: nat, pair: PairHash, h: nat, i: nat, x: nat)
    requires Shaped(t, n, h, i) && h <= Depth(n) && x < Pow2(Depth(n))
    ensures x in Nodes(t, Depth(n), pair, h, i) <==> LeafAt(t, h, i, x).Some?
    ensures x in Nodes(t, Depth(n), pair, h, i) ==>
      LeafAt(t, h, i, x) == Some(Nodes(t, Depth(n), pair, h, i)[x])
    decreases t
  {
    hide Pow2, Width, Depth, Under, Flat, Nodes;
    ShapeBounds(t, n, h, i);
    WidthFits(n, h);
    FlatBelow(Depth(n), h, i);
    NodesStep(t, Depth(n), pair, h, i, x);
    match t
    case Pruned(_) =>
    case Leaf(_, _) => LeavesLackTopBit(Depth(n), i);
    case Single(left) => LowNodesAreLeaves(left, n, pair, h - 1, 2 * i, x);
    case Both(left, right) =>
      LowNodesAreLeaves(left, n, pair, h - 1, 2 * i, x);
      LowNodesAreLeaves(right, n, pair, h - 1, 2 * i + 1, x);
      if LeafAt(left, h - 1, 2 * i, x).Some? {
        LeafIsBelow(left, n, h - 1, 2 * i, x);
      }
      if LeafAt(right, h - 1, 2 * i + 1, x).Some? {
        LeafIsBelow(right, n, h - 1, 2 * i + 1, x);
      }
  }

  lemma {:induction false} ShapeBounds(t: PTree, n: nat, h: nat, i: nat)
    requires Shaped(t, n, h, i)
    ensures i < Width(n, h) && (t.Leaf? <==> h == 0)
  {
  }

  /** One position of the record of a node, in terms of its children. */
  lemma {:induction false} NodesStep(t: PTree, d: nat, pair: PairHash, h: nat, i: nat, x: nat)
    requires h <= d && (t.Single? || t.Both? ==> h > 0)
    ensures t.Pruned? || t.Leaf? ==> Nodes(t, d, pair, h, i) == map[Flat(d, h, i) := t.hash]
    ensures t.Single? && x != Flat(d, h, i) ==>
      var part := Nodes(t.left, d, pair, h - 1, 2 * i);
      && (x in Nodes(t, d, pair, h, i) <==> x in part)
      && (x in part ==> Nodes(t, d, pair, h, i)[x] == part[x])
    ensures t.Both? && x != Flat(d, h, i) ==>
      var a := Nodes(t.left, d, pair, h - 1, 2 * i);
      var b := Nodes(t.right, d, pair, h - 1, 2 * i + 1);
      && (x in Nodes(t, d, pair, h, i) <==> x in a || x in b)
      && (x in b ==> Nodes(t, d, pair, h, i)[x] == b[x])
      && (x in a && x !in b ==> Nodes(t, d, pair, h, i)[x] == a[x])
  {
    hide Flat;
  }

  // ----- the path -----

  /** Index at level g of the node that is hashed with the ancestor of leaf x: its sibling, or
      itself when it is an unpaired last node. */
  function PartnerIndex(n: nat, x: nat, g: nat): nat {
    var a := Up(x, g);
    if a % 2 == 1 then a - 1 else if a + 1 == Width(n, g) then a else a + 1
  }

  function RoutePosition(n: nat, x: nat, g: nat): nat
    requires g <= Depth(n)
  {
    Flat(Depth(n), g, PartnerIndex(n, x, g))
  }

  ghost predicate RoutePresent(nodes: map<nat, Hash>, n: nat, x: nat, h: nat)
    requires h <= Depth(n)
  {
    forall g :: 0 <= g < h ==> RoutePosition(n, x, g) in nodes
  }

  /** Hashing leaf hash v upwards through h levels. */
  function Climb(v: Hash, nodes: map<nat, Hash>, n: nat, pair: PairHash, x: nat, h: nat): Hash
    requires h <= Depth(n) && RoutePresent(nodes, n, x, h)
  {
    if h == 0 then v
    else
      var w := Climb(v, nodes, n, pair, x, h - 1);
      var b := nodes[RoutePosition(n, x, h - 1)];
      if PartnerIndex(n, x, h - 1) % 2 == 0 then pair(b, w) else pair(w, b)
  }

  lemma {:induction false} ClimbToRoot(
    t: PTree, n: nat, pair: PairHash, h: nat, i: nat, x: nat, nodes: map<nat, Hash>)
    requires Shaped(t, n, h, i) && h <= Depth(n)
    requires LeafAt(t, h, i, x).Some? && Includes(nodes, Nodes(t, Depth(n), pair, h, i))
    ensures RoutePresent(nodes, n, x, h)
    ensures Climb(LeafAt(t, h, i, x).value, nodes, n, pair, x, h) == Root(t, pair)
    decreases t
  {
    hide Nodes, Includes, Flat, Depth, Width, RoutePresent, Climb;
    if h == 0 {
      ClimbStart(LeafAt(t, h, i, x).value, nodes, n, pair, x);
    } else {
      IncludesChildren(t, n, pair, h, i, nodes);
      LeafIsBelow(t, n, h, i, x);
      ChildHash(t.left, n, pair, h - 1, 2 * i, nodes);
      if t.Single? {
        ClimbToRoot(t.left, n, pair, h - 1, 2 * i, x, nodes);
        LeafIsBelow(t.left, n, h - 1, 2 * i, x);
        NodeBounds(n, h, i);
      } else {
        ChildHash(t.right, n, pair, h - 1, 2 * i + 1, nodes);
        ShapeBounds(t.right, n, h - 1, 2 * i + 1);
        if Up(x, h - 1) == 2 * i {
          ClimbToRoot(t.left, n, pair, h - 1, 2 * i, x, nodes);
        } else {
          ClimbToRoot(t.right, n, pair, h - 1, 2 * i + 1, x, nodes);
        }
      }
      ClimbStep(LeafAt(t, h, i, x).value, nodes, n, pair, x, h);
    }
  }

  lemma {:induction false} ClimbStart(v: Hash, nodes: map<nat, Hash>, n: nat, pair: PairHash, x: nat)
    ensures RoutePresent(nodes, n, x, 0) && Climb(v, nodes, n, pair, x, 0) == v
  {
  }

  lemma {:induction false} ClimbStep(v: Hash, nodes: map<nat, Hash>, n: nat, pair: PairHash, x: nat, h: nat)
    requires 0 < h <= Depth(n) && RoutePresent(nodes, n, x, h - 1) && RoutePosition(n, x, h - 1) in nodes
    ensures RoutePresent(nodes, n, x, h)
    ensures Climb(v, nodes, n, pair, x, h) ==
      var w := Climb(v, nodes, n, pair, x, h - 1);
      var b := nodes[RoutePosition(n, x, h - 1)];
      if PartnerIndex(n, x, h - 1) % 2 == 0 then pair(b, w) else pair(w, b)
  {
    hide RoutePosition, PartnerIndex;
  }

  lemma {:induction false} ChildHash(c: PTree, n: nat, pair: PairHash, h: nat, i: nat, nodes: map<nat, Hash>)
    requires Shaped(c, n, h, i) && h <= Depth(n) && Includes(nodes, Nodes(c, Depth(n), pair, h, i))
    ensures Flat(Depth(n), h, i) in nodes && nodes[Flat(Depth(n), h, i)] == Root(c, pair)
  {
    RecordsOwnHash(c, Depth(n), pair, h, i);
    hide Nodes;
    IncludesAt(nodes, Nodes(c, Depth(n), pair, h, i), Flat(Depth(n), h, i));
  }

  lemma {:induction false} IncludesAt(nodes: map<nat, Hash>, part: map<nat, Hash>, p: nat)
    requires Includes(nodes, part) && p in part
    ensures p in nodes && nodes[p] == part[p]
  {
  }

  lemma {:induction false} NodeBounds(n: nat, h: nat, i: nat)
    requires h > 0 && i < Width(n, h)
    ensures 2 * i < Width(n, h - 1)
  {
  }
}
