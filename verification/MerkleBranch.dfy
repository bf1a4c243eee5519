/** bloom/merklebranch.go: extracting the authentication path of one transaction from a
    merkle block, by a second copy of the parser that records every node it fills. */
module MerkleBranch {
  import opened BranchPath
  import opened FlagBits
  import opened MerkleBlock
  import opened MerkleTree
  import opened PartialTree
  import opened Position
  import opened StackParser
  import opened Word32
  import opened Wrappers

  datatype Branch = Branch(branches: seq<Hash>, index: nat)

  /** Recompute the root from a leaf: bit i of the index says the i-th partner is on the left. */
  function RootFromBranch(leaf: Hash, branches: seq<Hash>, index: nat, pair: PairHash): Hash
    decreases |branches|
  {
    if branches == [] then leaf
    else
      var up := if index % 2 == 1 then pair(branches[0], leaf) else pair(leaf, branches[0]);
      RootFromBranch(up, branches[1..], index / 2, pair)
  }

  /** The number whose binary digits, least significant first, are the given bits. */
  function FromBits(bits: seq<bool>): nat {
    if bits == [] then 0 else (if bits[0] then 1 else 0) + 2 * FromBits(bits[1..])
  }

  lemma {:induction false} FromBitsSnoc(bits: seq<bool>, b: bool)
    ensures FromBits(bits + [b]) == FromBits(bits) + if b then Pow2(|bits|) else 0
  {
    if bits == [] {
      assert FromBits([b]) == if b then 1 else 0;
    } else {
      FromBitsSnoc(bits[1..], b);
      assert (bits + [b])[1..] == bits[1..] + [b];
    }
  }

  lemma {:induction false} RootFromBranchSnoc(leaf: Hash, branches: seq<Hash>, bits: seq<bool>, c: Hash, b: bool, pair: PairHash)
    requires |branches| == |bits|
    ensures RootFromBranch(leaf, branches + [c], FromBits(bits + [b]), pair) ==
      var w := RootFromBranch(leaf, branches, FromBits(bits), pair);
      if b then pair(c, w) else pair(w, c)
    decreases |branches|
  {
    FromBitsHead(bits + [b]);
    if bits == [] {
      assert branches + [c] == [c] && bits + [b] == [b];
      assert FromBits([]) == 0;
    } else {
      FromBitsHead(bits);
      assert (branches + [c])[1..] == branches[1..] + [c];
      assert (bits + [b])[1..] == bits[1..] + [b];
      hide FromBits;
      var up := if bits[0] then pair(branches[0], leaf) else pair(leaf, branches[0]);
      RootFromBranchSnoc(up, branches[1..], bits[1..], c, b, pair);
    }
  }

  lemma {:induction false} FromBitsHead(bits: seq<bool>)
    requires bits != []
    ensures FromBits(bits) % 2 == (if bits[0] then 1 else 0) && FromBits(bits) / 2 == FromBits(bits[1..])
  {
  }

  // ----- the path as the source computes it -----

  /** Positions of the partners of leaf x, level by level. For x beyond the last leaf this is
      still what the source computes. */
  function Route(n: nat, x: nat, h: nat): (route: seq<nat>)
    requires h <= Depth(n)
    ensures |route| == h
  {
    seq(h, g requires 0 <= g < h => RoutePosition(n, x, g))
  }

  function Sides(route: seq<nat>): seq<bool> {
    seq(|route|, k requires 0 <= k < |route| => route[k] % 2 == 0)
  }

  function Picked(route: seq<nat>, nodes: map<nat, Hash>): seq<Hash>
    requires forall p :: p in route ==> p in nodes
  {
    seq(|route|, k requires 0 <= k < |route| => nodes[route[k]])
  }

  /** The branch along a route; a position without a node is a nil dereference in the source. */
  function BranchAlong(route: seq<nat>, nodes: map<nat, Hash>): Result<Branch> {
    if forall p :: p in route ==> p in nodes
    then Ok(Branch(Picked(route, nodes), FromBits(Sides(route))))
    else Err(NilNode)
  }

  /** The route of a real leaf, parity included, is the climb of BranchPath. */
  lemma {:induction false} RouteParity(n: nat, x: nat, g: nat)
    requires x < n && g < Depth(n)
    ensures PartnerIndex(n, x, g) < Pow2(Depth(n) - g)
    ensures RoutePosition(n, x, g) % 2 == PartnerIndex(n, x, g) % 2
  {
    AncestorExists(n, 0, x, g);
    WidthFits(n, g);
    hide Pow2, Depth, Width;
    FlatBelow(Depth(n), g, PartnerIndex(n, x, g));
  }

  lemma {:induction false} BranchIsClimb(v: Hash, nodes: map<nat, Hash>, n: nat, pair: PairHash, x: nat, h: nat)
    requires x < n && h <= Depth(n) && RoutePresent(nodes, n, x, h)
    ensures forall p :: p in Route(n, x, h) ==> p in nodes
    ensures RootFromBranch(v, Picked(Route(n, x, h), nodes), FromBits(Sides(Route(n, x, h))), pair)
         == Climb(v, nodes, n, pair, x, h)
  {
    hide RoutePosition, PartnerIndex, Depth, RootFromBranch, FromBits;
    if h == 0 {
      EmptyBranch(v, pair);
      assert Route(n, x, 0) == [] && Picked([], nodes) == [] && Sides([]) == [];
    } else {
      BranchIsClimb(v, nodes, n, pair, x, h - 1);
      RouteParity(n, x, h - 1);
      var route, p := Route(n, x, h - 1), RoutePosition(n, x, h - 1);
      assert Route(n, x, h) == route + [p];
      assert Picked(route + [p], nodes) == Picked(route, nodes) + [nodes[p]];
      assert Sides(route + [p]) == Sides(route) + [p % 2 == 0];
      RootFromBranchSnoc(v, Picked(route, nodes), Sides(route), nodes[p], p % 2 == 0, pair);
    }
  }

  /** The fold, from the leaf up: an odd index puts the partner on the left. */
  lemma {:induction false} FoldIs(leaf: Hash, c: Hash, rest: seq<Hash>, index: nat, pair: PairHash)
    ensures RootFromBranch(leaf, [], index, pair) == leaf
    ensures RootFromBranch(leaf, [c] + rest, 2 * index, pair) == RootFromBranch(pair(leaf, c), rest, index, pair)
    ensures RootFromBranch(leaf, [c] + rest, 2 * index + 1, pair) == RootFromBranch(pair(c, leaf), rest, index, pair)
  {
    assert ([c] + rest)[1..] == rest;
  }

  /** Bit g of the index is set when the ancestor of the leaf at level g is a right child or has no
      sibling. */
  lemma {:induction false} SidesAre(n: nat, x: nat, h: nat, g: nat)
    requires x < n && g < h <= Depth(n)
    ensures Sides(Route(n, x, h))[g] <==> ((x / Pow2(g)) % 2 == 1 || x / Pow2(g) + 1 == Width(n, g))
  {
    hide Up, Width, Depth, Pow2, Route, Sides;
    UpIsShift(x, g);
    SidesOfUp(n, x, h, g);
  }

  lemma {:induction false} SidesOfUp(n: nat, x: nat, h: nat, g: nat)
    requires x < n && g < h <= Depth(n)
    ensures Sides(Route(n, x, h))[g] <==> (Up(x, g) % 2 == 1 || Up(x, g) + 1 == Width(n, g))
  {
    hide Up, Width, Depth, Pow2, RoutePosition;
    RouteParity(n, x, g);
  }

  /** In a full tree the index is the position of the transaction. */
  lemma {:induction false} IndexIsPosition(n: nat, x: nat)
    requires n == Pow2(Depth(n)) && x < n
    ensures FromBits(Sides(Route(n, x, Depth(n)))) == x
  {
    hide FromBits, Sides, Route, Depth, Pow2;
    LowBits(n, x, Depth(n));
    DivUnique(x, n, 0, x);
  }

  lemma {:induction false} LowBits(n: nat, x: nat, h: nat)
    requires n == Pow2(Depth(n)) && x < n && h <= Depth(n)
    ensures FromBits(Sides(Route(n, x, h))) == x % Pow2(h)
  {
    hide FromBits, RoutePosition, Depth;
    if h == 0 {
      assert Sides(Route(n, x, 0)) == [];
      assert FromBits([]) == 0 by { NoBits(); }
    } else {
      LowBits(n, x, h - 1);
      SidesAre(n, x, h, h - 1);
      LastIsRight(n, x, h - 1);
      var bits := Sides(Route(n, x, h - 1));
      assert Sides(Route(n, x, h)) == bits + [Sides(Route(n, x, h))[h - 1]];
      FromBitsSnoc(bits, Sides(Route(n, x, h))[h - 1]);
      NextBit(x, Pow2(h - 1));
    }
  }

  lemma {:induction false} NoBits()
    ensures FromBits([]) == 0
  {
  }

  lemma {:induction false} NextBit(x: nat, p: nat)
    requires p > 0
    ensures x % (2 * p) == x % p + if (x / p) % 2 == 1 then p else 0
  {
    var q := x / p;
    MulAssociate(q / 2, 2, p);
    MulDistribute(2 * (q / 2), q % 2, p);
    assert x == q * p + x % p;
    assert x == (q / 2) * (2 * p) + ((q % 2) * p + x % p);
    DivUnique(x, 2 * p, q / 2, (q % 2) * p + x % p);
  }

  /** The last node of a full level below the root is a right child. */
  lemma {:induction false} LastIsRight(n: nat, x: nat, g: nat)
    requires n == Pow2(Depth(n)) && x < n && g < Depth(n)
    ensures x / Pow2(g) + 1 == Width(n, g) ==> (x / Pow2(g)) % 2 == 1
  {
    FullWidth(Depth(n), g);
    assert Pow2(Depth(n) - g) == 2 * Pow2(Depth(n) - g - 1);
    hide Pow2, Width, Depth;
    BeforeEven(x / Pow2(g), Pow2(Depth(n) - g - 1));
  }

  lemma {:induction false} BeforeEven(a: int, half: int)
    ensures a + 1 == 2 * half ==> a % 2 == 1
  {
  }

  lemma {:induction false} FullWidth(d: nat, g: nat)
    requires g <= d
    ensures Width(Pow2(d), g) == Pow2(d - g)
  {
    if g > 0 {
      FullWidth(d, g - 1);
      assert Pow2(d - g + 1) == 2 * Pow2(d - g);
    }
  }

  lemma {:induction false} EmptyBranch(v: Hash, pair: PairHash)
    ensures RootFromBranch(v, [], FromBits([]), pair) == v
  {
  }

  // ----- the theorems about accepted messages -----

  /** For every accepted message, honest or not, and every leaf it shows, the branch is complete
      and recomputes the header's Merkle root. */
  lemma {:induction false} BranchGivesRoot(m: Message, pair: PairHash, x: nat)
    requires Check(m, pair).Accepted?
    requires var nodes := Nodes(Check(m, pair).tree, Depth(m.transactions), pair, Depth(m.transactions), 0);
      x < m.transactions && x in nodes
    ensures var nodes := Nodes(Check(m, pair).tree, Depth(m.transactions), pair, Depth(m.transactions), 0);
      var b := BranchAlong(Route(m.transactions, x, Depth(m.transactions)), nodes);
      && b.Ok?
      && |b.value.branches| == Depth(m.transactions)
      && RootFromBranch(nodes[x], b.value.branches, b.value.index, pair) == m.root
  {
    var n, t := m.transactions, Check(m, pair).tree;
    var d := Depth(n);
    hide Check, Shaped, RootFromBranch, FromBits, Sides, Climb, Root;
    AcceptedIsShaped(m, pair);
    DepthIsLeast(n);
    LowNodesAreLeaves(t, n, pair, d, 0, x);
    hide Nodes, Pow2, Width, Depth;
    ClimbToRoot(t, n, pair, d, 0, x, Nodes(t, d, pair, d, 0));
    BranchIsClimb(Nodes(t, d, pair, d, 0)[x], Nodes(t, d, pair, d, 0), n, pair, x, d);
  }

  /** Every id that the check returns is the hash of a recorded leaf. */
  lemma {:induction false} ReturnedIdIsRecorded(m: Message, pair: PairHash, id: Hash) returns (x: nat)
    requires Check(m, pair).Accepted? && id in Answer(Check(m, pair)).value
    ensures var nodes := Nodes(Check(m, pair).tree, Depth(m.transactions), pair, Depth(m.transactions), 0);
      x < m.transactions && x in nodes && nodes[x] == id
  {
    var n, t := m.transactions, Check(m, pair).tree;
    var d := Depth(n);
    hide Check, Shaped, Nodes, Matched;
    AcceptedIsShaped(m, pair);
    var found := Matched(t, 0);
    var k :| 0 <= k < |found| && Ids(found)[k] == id;
    x := found[k].index;
    MatchedIsLeaf(t, n, d, 0, found[k]);
    LeafIsBelow(t, n, d, 0, x);
    DepthIsLeast(n);
    LowNodesAreLeaves(t, n, pair, d, 0, x);
  }

  /** The search for the transaction also looks at position n. A recorded node there is the
      parent of the first two leaves of a full tree; if it is picked, the route leaves the tree
      at the last level below the root. */
  lemma {:induction false} RouteOfExtraPosition(m: Message, pair: PairHash)
    requires Check(m, pair).Accepted?
    requires m.transactions in Nodes(Check(m, pair).tree, Depth(m.transactions), pair, Depth(m.transactions), 0)
    ensures BranchAlong(Route(m.transactions, m.transactions, Depth(m.transactions)),
                        Nodes(Check(m, pair).tree, Depth(m.transactions), pair, Depth(m.transactions), 0))
         == Err(NilNode)
  {
    AcceptedIsShaped(m, pair);
    ExtraRoute(Check(m, pair).tree, m.transactions, pair);
  }

  lemma {:induction false} ExtraRoute(t: PTree, n: nat, pair: PairHash)
    requires n >= 1 && Shaped(t, n, Depth(n), 0) && n in Nodes(t, Depth(n), pair, Depth(n), 0)
    ensures BranchAlong(Route(n, n, Depth(n)), Nodes(t, Depth(n), pair, Depth(n), 0)) == Err(NilNode)
  {
    hide Nodes, Shaped, RoutePosition, Pow2, LevelOf, IndexOf;
    ExtraPositionIsFull(t, n, pair);
    NodesAreUnder(t, n, pair, Depth(n), 0);
    OutsideTree(n);
    assert Route(n, n, Depth(n))[Depth(n) - 1] == RoutePosition(n, n, Depth(n) - 1);
    assert !Under(Depth(n), RoutePosition(n, n, Depth(n) - 1), Depth(n), 0);
  }

  lemma {:induction false} AcceptedIsShaped(m: Message, pair: PairHash)
    requires Check(m, pair).Accepted?
    ensures m.transactions >= 1 && Shaped(Check(m, pair).tree, m.transactions, Depth(m.transactions), 0)
    ensures Root(Check(m, pair).tree, pair) == m.root
  {
    hide Parse, Unpack, NoTwins, Bits, Hashes, Shaped, Root;
    WidthAtDepth(m.transactions, Depth(m.transactions));
    ParseIsSound(m.transactions, pair, Depth(m.transactions), 0, Unpack(m.flags), m.hashes);
  }

  /** Position n is recorded only when n is a power of two above one. */
  lemma {:induction false} ExtraPositionIsFull(t: PTree, n: nat, pair: PairHash)
    requires n >= 1 && Shaped(t, n, Depth(n), 0) && n in Nodes(t, Depth(n), pair, Depth(n), 0)
    ensures n == Pow2(Depth(n)) && Depth(n) > 0
  {
    var d := Depth(n);
    hide Nodes;
    DepthIsLeast(n);
    NodesAreUnder(t, n, pair, d, 0);
    if n < Pow2(d) {
      LowNodesAreLeaves(t, n, pair, d, 0, n);
      LeafIsBelow(t, n, d, 0, n);
    }
    assert Pow2(1) == 2;
  }

  lemma {:induction false} OutsideTree(n: nat)
    requires n == Pow2(Depth(n)) && Depth(n) > 0
    ensures RoutePosition(n, n, Depth(n) - 1) > Pow2(Depth(n) + 1) - 2
  {
    var d := Depth(n);
    FullUp(d, d - 1);
    assert Pow2(1) == 2 && Pow2(2) == 4;
    WidthFits(n, d - 1);
  }

  lemma {:induction false} FullUp(d: nat, k: nat)
    requires k <= d
    ensures Up(Pow2(d), k) == Pow2(d - k)
  {
    if k > 0 {
      FullUp(d, k - 1);
    }
  }

  /** All nodes the accepted message shows. */
  function Shown(m: Message, pair: PairHash): map<nat, Hash>
    requires Check(m, pair).Accepted?
  {
    Nodes(Check(m, pair).tree, Depth(m.transactions), pair, Depth(m.transactions), 0)
  }

  /** The branch extracted for position p. */
  function BranchAt(m: Message, pair: PairHash, p: nat): Result<Branch>
    requires Check(m, pair).Accepted?
  {
    BranchAlong(Route(m.transactions, p, Depth(m.transactions)), Shown(m, pair))
  }

  /** The branch extracted for position p is complete and leads from the node there to the header's
      Merkle root. */
  predicate RightAt(m: Message, pair: PairHash, p: nat)
    requires Check(m, pair).Accepted? && p in Shown(m, pair)
  {
    var b := BranchAt(m, pair, p);
    b.Ok? && RootFromBranch(Shown(m, pair)[p], b.value.branches, b.value.index, pair) == m.root
  }

  /** The search looks at position p and finds the id there. */
  predicate ShowsAt(m: Message, pair: PairHash, id: Hash, p: nat)
    requires Check(m, pair).Accepted?
  {
    p <= m.transactions && p in Shown(m, pair) && Shown(m, pair)[p] == id
  }

  /** The extraction may end up at position p: any that shows the id, in whatever order the map is
      walked; position 0 when none does, because the error of the search is dropped. */
  ghost predicate MayPick(m: Message, pair: PairHash, id: Hash, p: nat)
    requires Check(m, pair).Accepted?
  {
    if exists q: nat :: ShowsAt(m, pair, id, q) then ShowsAt(m, pair, id, p) else p == 0
  }

  ghost predicate LeafShows(m: Message, pair: PairHash, id: Hash)
    requires Check(m, pair).Accepted?
  {
    exists x: nat :: x < m.transactions && ShowsAt(m, pair, id, x)
  }

  /** The branch for a position the search may pick is right if and only if that position is a
      leaf. */
  lemma {:induction false} RightAtIff(m: Message, pair: PairHash, p: nat)
    requires Check(m, pair).Accepted? && p <= m.transactions && p in Shown(m, pair)
    ensures RightAt(m, pair, p) <==> p < m.transactions
  {
    hide BranchAlong, Route, Nodes, Check, RootFromBranch;
    if p < m.transactions {
      BranchGivesRoot(m, pair, p);
    } else {
      RouteOfExtraPosition(m, pair);
    }
  }

  predicate ShowsRight(m: Message, pair: PairHash, id: Hash, p: nat)
    requires Check(m, pair).Accepted?
  {
    ShowsAt(m, pair, id, p) && RightAt(m, pair, p)
  }

  /** For every id: whichever position is picked shows the id and has a right branch, if and only if
      some leaf shows the id and the extra position does not. */
  lemma {:induction false} BranchIsRightIff(m: Message, pair: PairHash, id: Hash)
    requires Check(m, pair).Accepted?
    ensures
      (forall p: nat :: MayPick(m, pair, id, p) ==> ShowsRight(m, pair, id, p)) <==>
      (LeafShows(m, pair, id) && !ShowsAt(m, pair, id, m.transactions))
  {
    hide Check, MayPick, ShowsRight, ShowsAt, LeafShows;
    if q: nat :| ShowsAt(m, pair, id, q) {
      forall p: nat ensures MayPick(m, pair, id, p) <==> ShowsAt(m, pair, id, p) {
        PickOfShown(m, pair, id, q, p);
      }
      ShownIsRightIff(m, pair, id, q);
    } else {
      PickOfUnshown(m, pair, id);
    }
  }

  lemma {:induction false} PickOfShown(m: Message, pair: PairHash, id: Hash, q: nat, p: nat)
    requires Check(m, pair).Accepted? && ShowsAt(m, pair, id, q)
    ensures MayPick(m, pair, id, p) <==> ShowsAt(m, pair, id, p)
  {
    hide Check, ShowsAt;
  }

  lemma {:induction false} PickOfUnshown(m: Message, pair: PairHash, id: Hash)
    requires Check(m, pair).Accepted? && forall q: nat :: !ShowsAt(m, pair, id, q)
    ensures MayPick(m, pair, id, 0) && !ShowsRight(m, pair, id, 0) && !LeafShows(m, pair, id)
  {
    hide Check, ShowsAt, RightAt;
  }

  lemma {:induction false} ShownIsRightIff(m: Message, pair: PairHash, id: Hash, q: nat)
    requires Check(m, pair).Accepted? && ShowsAt(m, pair, id, q)
    ensures (forall p: nat :: ShowsAt(m, pair, id, p) ==> ShowsRight(m, pair, id, p)) <==>
      !ShowsAt(m, pair, id, m.transactions)
    ensures LeafShows(m, pair, id) || ShowsAt(m, pair, id, m.transactions)
  {
    hide Check, ShowsAt, RightAt, Shown;
    forall p: nat | ShowsAt(m, pair, id, p) ensures ShowsRight(m, pair, id, p) <==> p != m.transactions {
      ShowsRightIff(m, pair, id, p);
    }
    ShowsRightIff(m, pair, id, q);
  }

  lemma {:induction false} ShowsRightIff(m: Message, pair: PairHash, id: Hash, p: nat)
    requires Check(m, pair).Accepted? && ShowsAt(m, pair, id, p)
    ensures p <= m.transactions && (ShowsRight(m, pair, id, p) <==> p < m.transactions)
  {
    hide Check, RightAt, Shown;
    RightAtIff(m, pair, p);
  }

  /** An id no leaf shows is not refused: for the block of a single transaction a and any other id, the
      extraction answers with an empty branch, which does not lead from the id to the root. */
  lemma {:induction false} UnknownIdGetsABranch(a: Hash, id: Hash, pair: PairHash) returns (m: Message)
    requires id != a
    ensures m.transactions == 1 && m.root == MerkleRoot([a], pair) && Answer(Check(m, pair)) == Ok([a])
    ensures !LeafShows(m, pair, id) && (forall p: nat :: MayPick(m, pair, id, p) <==> p == 0)
    ensures BranchAt(m, pair, 0) == Ok(Branch([], 0)) && RootFromBranch(id, [], 0, pair) != m.root
  {
    var t := Leaf(a, true);
    m := Message(a, 1, [a], [1]);
    OneFlag();
    OneLeaf(a, pair);
    OneNode(a, pair);
    OneBranch(a);
    hide Unpack, Bits, Hashes, NoTwins, Root, Parse, Nodes, Matched, Depth, Width, Shaped, MerkleRoot;
    hide Ids, Route, Zeros, BranchAlong;
    ParseIsComplete(t, 1, pair, 0, 0, Zeros(7), []);
    assert Check(m, pair) == Accepted(t);
    assert Shown(m, pair) == map[0 := a];
    hide Check, Shown;
    assert forall q: nat :: !ShowsAt(m, pair, id, q);
  }

  lemma {:induction false} OneLeaf(a: Hash, pair: PairHash)
    ensures var t := Leaf(a, true);
      && Shaped(t, 1, 0, 0) && NoTwins(t, pair) && Root(t, pair) == a
      && Bits(t) == [true] && Hashes(t) + [] == [a] && Ids(Matched(t, 0)) == [a]
    ensures Depth(1) == 0 && MerkleRoot([a], pair) == a
  {
    hide Flat, Nodes;
    assert Matched(Leaf(a, true), 0) == [Found(0, a)];
  }

  lemma {:induction false} OneNode(a: Hash, pair: PairHash)
    ensures Nodes(Leaf(a, true), 0, pair, 0, 0) == map[0 := a]
  {
    assert Pow2(1) == 2;
  }

  lemma {:induction false} OneBranch(a: Hash)
    requires Depth(1) == 0
    ensures BranchAlong(Route(1, 0, 0), map[0 := a]) == Ok(Branch([], 0))
  {
    hide Depth, RoutePosition;
    assert Route(1, 0, 0) == [] && Sides([]) == [] && Picked([], map[0 := a]) == [];
  }

  lemma {:induction false} OneFlag()
    ensures Unpack([1]) == [true] + Zeros(7)
  {
    var x: byte := 1;
    assert Bit(x, 0) && !Bit(x, 1) && !Bit(x, 2) && !Bit(x, 3);
    assert !Bit(x, 4) && !Bit(x, 5) && !Bit(x, 6) && !Bit(x, 7);
    forall k | 0 <= k < 8 ensures Unpack([x])[k] == Bit(x, k) {
      assert k / 8 == 0 && k % 8 == k;
    }
  }

  /** A block can bring that about under every pair hash: four transactions, the third of which has the
      hash of the first two as its id. The check accepts the message and returns that id, and the extra
      position shows it as well. */
  lemma {:induction false} ExtraPositionCanCollide(a: Hash, b: Hash, c: Hash, pair: PairHash) returns (m: Message)
    requires a != b && pair(a, b) != c && pair(a, b) != pair(pair(a, b), c)
    ensures m.transactions == 4 && m.root == MerkleRoot([a, b, pair(a, b), c], pair)
    ensures Check(m, pair).Accepted? && pair(a, b) in Answer(Check(m, pair)).value
    ensures 4 in Shown(m, pair) && Shown(m, pair)[4] == pair(a, b)
  {
    var id := pair(a, b);
    var left, right := Both(Leaf(a, true), Leaf(b, false)), Both(Leaf(id, true), Leaf(c, false));
    var t := Both(left, right);
    m := Message(pair(id, pair(id, c)), 4, [a, b, id, c], [0x37]);
    FourLeafMessage(left, right, a, b, id, c);
    FourLeafTree(a, b, id, c, pair);
    FourLeaves();
    RootOfFour(a, b, id, c, pair);
    hide Unpack, Bits, Hashes, NoTwins, Root, Parse, Nodes, Matched, Depth, Width, Shaped, MerkleRoot, Ids;
    ParseIsComplete(t, 4, pair, 2, 0, [false], []);
    assert Check(m, pair) == Accepted(t);
    ExtraIsShown(left, right, pair);
  }

  lemma {:induction false} ExtraIsShown(left: PTree, right: PTree, pair: PairHash)
    requires left.Both? && Shaped(right, 4, 1, 1)
    ensures var nodes := Nodes(Both(left, right), 2, pair, 2, 0); 4 in nodes && nodes[4] == Root(left, pair)
  {
    hide Nodes, Root, Shaped, Flat;
    FourLeaves();
    RecordsOwnHash(left, 2, pair, 1, 0);
    NodesStep(Both(left, right), 2, pair, 2, 0, 4);
    ExtraIsNotRight(right, pair);
  }

  lemma {:induction false} FourLeafTree(a: Hash, b: Hash, id: Hash, c: Hash, pair: PairHash)
    requires a != b && id == pair(a, b) && id != c && id != pair(id, c)
    ensures var left, right := Both(Leaf(a, true), Leaf(b, false)), Both(Leaf(id, true), Leaf(c, false));
      && Shaped(Both(left, right), 4, 2, 0) && Shaped(right, 4, 1, 1) && NoTwins(Both(left, right), pair)
      && Root(left, pair) == id && Root(Both(left, right), pair) == pair(id, pair(id, c))
      && id in Ids(Matched(Both(left, right), 0))
  {
    var left, right := Both(Leaf(a, true), Leaf(b, false)), Both(Leaf(id, true), Leaf(c, false));
    FourLeaves();
    LeavesShaped(4, 0, a, true, b, false);
    LeavesShaped(4, 1, id, true, c, false);
    TwoLeaves(a, true, b, false, pair);
    TwoLeaves(id, true, c, false, pair);
    assert Matched(left, 0) == [Found(0, a)] + [] && Matched(right, 1) == [Found(2, id)] + [];
    assert Matched(Both(left, right), 0) == [Found(0, a), Found(2, id)];
    assert Ids([Found(0, a), Found(2, id)])[1] == id;
  }

  lemma {:induction false} LeavesShaped(n: nat, i: nat, a: Hash, x: bool, b: Hash, y: bool)
    requires 2 * i + 1 < n
    ensures Shaped(Both(Leaf(a, x), Leaf(b, y)), n, 1, i)
  {
    assert Width(n, 0) == n && Width(n, 1) == (n + 1) / 2;
    assert Shaped(Leaf(a, x), n, 0, 2 * i) && Shaped(Leaf(b, y), n, 0, 2 * i + 1);
  }

  lemma {:induction false} TwoLeaves(a: Hash, x: bool, b: Hash, y: bool, pair: PairHash)
    ensures Root(Both(Leaf(a, x), Leaf(b, y)), pair) == pair(a, b)
    ensures NoTwins(Both(Leaf(a, x), Leaf(b, y)), pair) <==> a != b
  {
    assert Root(Leaf(a, x), pair) == a && Root(Leaf(b, y), pair) == b;
    assert NoTwins(Leaf(a, x), pair) && NoTwins(Leaf(b, y), pair);
  }

  lemma {:induction false} FourLeaves()
    ensures Depth(4) == 2 && Width(4, 2) == 1 && Width(4, 1) == 2 && Width(4, 0) == 4
    ensures Flat(2, 1, 0) == 4 && Flat(2, 2, 0) == 6
  {
    assert Depth(2) == 1 && Depth(1) == 0;
    assert Pow2(1) == 2 && Pow2(2) == 4 && Pow2(3) == 8;
  }

  lemma {:induction false} FourLeafMessage(left: PTree, right: PTree, a: Hash, b: Hash, id: Hash, c: Hash)
    requires left == Both(Leaf(a, true), Leaf(b, false)) && right == Both(Leaf(id, true), Leaf(c, false))
    ensures Unpack([0x37]) == Bits(Both(left, right)) + [false]
    ensures [a, b, id, c] == Hashes(Both(left, right)) + []
  {
    BitsOfFlag();
    TwoLeafForm(a, true, b, false);
    TwoLeafForm(id, true, c, false);
    hide Bits, Hashes, Unpack;
    BothBits(left, right, [false], []);
  }

  lemma {:induction false} TwoLeafForm(a: Hash, x: bool, b: Hash, y: bool)
    ensures var t := Both(Leaf(a, x), Leaf(b, y)); Bits(t) == [true, x, y] && Hashes(t) == [a, b]
  {
    assert Bits(Leaf(a, x)) == [x] && Bits(Leaf(b, y)) == [y];
  }

  lemma {:induction false} BitsOfFlag()
    ensures Unpack([0x37]) == [true, true, true, false, true, true, false, false]
  {
    var x: byte := 0x37;
    assert Bit(x, 0) && Bit(x, 1) && Bit(x, 2) && !Bit(x, 3);
    assert Bit(x, 4) && Bit(x, 5) && !Bit(x, 6) && !Bit(x, 7);
    forall k | 0 <= k < 8 ensures Unpack([x])[k] == Bit(x, k) {
      assert k / 8 == 0 && k % 8 == k;
    }
  }

  lemma {:induction false} RootOfFour(a: Hash, b: Hash, c: Hash, d: Hash, pair: PairHash)
    ensures MerkleRoot([a, b, c, d], pair) == pair(pair(a, b), pair(c, d))
  {
    var two := NextLevel([a, b, c, d], pair);
    PairOnNextLevel([a, b, c, d], pair, 0);
    PairOnNextLevel([a, b, c, d], pair, 1);
    assert two == [pair(a, b), pair(c, d)];
    PairOnNextLevel(two, pair, 0);
    var one := NextLevel(two, pair);
    assert one == [pair(pair(a, b), pair(c, d))];
    assert MerkleRoot([a, b, c, d], pair) == MerkleRoot(two, pair) == MerkleRoot(one, pair) == one[0];
  }

  /** Position 4 is not below the right half of a tree of four leaves. */
  lemma {:induction false} ExtraIsNotRight(right: PTree, pair: PairHash)
    requires Shaped(right, 4, 1, 1)
    ensures 4 !in Nodes(right, 2, pair, 1, 1)
  {
    FourLeaves();
    FlatIsUnder(2, 1, 0);
    NodesAreUnder(right, 4, pair, 1, 1);
    LevelOfFlat(2, 1, 0);
  }

  // ----- the extractor itself -----

  /** The flag bits the extractor keeps: eight times the number of bytes is computed in 32 bits. */
  function SeenBits(flags: seq<byte>): seq<bool> {
    Unpack(flags)[..8 * |flags| % WORD]
  }

  /** What the extractor's copy of the parser decides. */
  function Extracted(m: Message, pair: PairHash): Verdict {
    Decide(m.root, m.transactions, m.hashes, SeenBits(m.flags), pair)
  }

  /** Below 2^29 flag bytes the extractor decides as the check does. */
  lemma {:induction false} ExtractedIsCheck(m: Message, pair: PairHash)
    requires 8 * |m.flags| < WORD
    ensures Extracted(m, pair) == Check(m, pair)
  {
    hide Unpack, Decide;
    assert Unpack(m.flags)[..8 * |m.flags|] == Unpack(m.flags);
  }

  /** It never accepts anything else, and accepts what the check accepts exactly when it keeps all the
      bits of the tree. */
  lemma {:induction false} ExtractedIff(m: Message, pair: PairHash)
    ensures Extracted(m, pair).Accepted? ==> Extracted(m, pair) == Check(m, pair)
    ensures Check(m, pair).Accepted? ==>
      (Extracted(m, pair).Accepted? <==> |Bits(Check(m, pair).tree)| <= |SeenBits(m.flags)|)
  {
    hide Check, Extracted, SeenBits, Bits;
    if Extracted(m, pair).Accepted? {
      ExtractedIsAccepted(m, pair);
    }
    if Check(m, pair).Accepted? && |Bits(Check(m, pair).tree)| <= |SeenBits(m.flags)| {
      EnoughIsAccepted(m, pair);
    }
  }

  lemma {:induction false} ExtractedIsAccepted(m: Message, pair: PairHash)
    requires Extracted(m, pair).Accepted?
    ensures Extracted(m, pair) == Check(m, pair)
    ensures |Bits(Extracted(m, pair).tree)| <= |SeenBits(m.flags)|
  {
    var n, d, all, seen := m.transactions, Depth(m.transactions), Unpack(m.flags), SeenBits(m.flags);
    assert seen <= all;
    hide Unpack, SeenBits, Parse, Bits, Hashes, NoTwins, Shaped, Root, Depth;
    WidthAtDepth(n, d);
    ParseIsSound(n, pair, d, 0, seen, m.hashes);
    var p := Parse(n, pair, d, 0, seen, m.hashes);
    var rest := SplitPrefix(Bits(p.tree), p.bits, all);
    ParseIsComplete(p.tree, n, pair, d, 0, rest, p.hashes);
  }

  lemma {:induction false} EnoughIsAccepted(m: Message, pair: PairHash)
    requires Check(m, pair).Accepted? && |Bits(Check(m, pair).tree)| <= |SeenBits(m.flags)|
    ensures Extracted(m, pair).Accepted?
  {
    var n, d, all, seen := m.transactions, Depth(m.transactions), Unpack(m.flags), SeenBits(m.flags);
    assert seen <= all;
    hide Unpack, SeenBits, Parse, Bits, Hashes, NoTwins, Shaped, Root, Depth;
    WidthAtDepth(n, d);
    ParseIsSound(n, pair, d, 0, all, m.hashes);
    var p := Parse(n, pair, d, 0, all, m.hashes);
    var rest := PrefixRest(Bits(p.tree), p.bits, seen);
    BitsNonEmpty(p.tree);
    ParseIsComplete(p.tree, n, pair, d, 0, rest, p.hashes);
  }

  lemma {:induction false} PrefixRest(front: seq<bool>, back: seq<bool>, seen: seq<bool>) returns (rest: seq<bool>)
    requires seen <= front + back && |front| <= |seen|
    ensures seen == front + rest
  {
    rest := seen[|front|..];
    forall k | 0 <= k < |front| ensures seen[k] == front[k] {
      assert seen[k] == (front + back)[k];
    }
    assert seen[..|front|] == front;
  }

  lemma {:induction false} SplitPrefix(front: seq<bool>, back: seq<bool>, all: seq<bool>) returns (rest: seq<bool>)
    requires front + back <= all
    ensures all == front + rest
  {
    rest := all[|front|..];
    assert all[..|front|] == (front + back)[..|front|] == front;
  }

  /** A tree of height h has at most 2^(h+1) - 1 flags. */
  lemma {:induction false} BitsBound(t: PTree, n: nat, h: nat, i: nat)
    requires Shaped(t, n, h, i)
    ensures 1 <= |Bits(t)| <= Pow2(h + 1) - 1
  {
    match t
    case Pruned(_) =>
    case Leaf(_, _) => assert Pow2(1) == 2;
    case Single(left) => BitsBound(left, n, h - 1, 2 * i);
    case Both(left, right) =>
      BitsBound(left, n, h - 1, 2 * i);
      BitsBound(right, n, h - 1, 2 * i + 1);
  }

  function Recorded(v: Verdict, n: nat, pair: PairHash): Result<map<nat, Hash>> {
    match v
    case Accepted(t) => Ok(Nodes(t, Depth(n), pair, Depth(n), 0))
    case Rejected(e) => Err(e)
  }

  class MerkleNodes {
    const root: Hash
    const numTxs: uint32
    const pair: PairHash
    var hashes: seq<Hash>
    var bits: seq<byte>
    var txIndex: nat
    var route: seq<nat>
    var allNodes: map<nat, Hash>

    constructor (root: Hash, numTxs: uint32, pair: PairHash)
      ensures this.root == root && this.numTxs == numTxs && this.pair == pair
      ensures txIndex == 0 && route == []
    {
      this.root, this.numTxs, this.pair := root, numTxs, pair;
      hashes, bits, txIndex, route, allNodes := [], [], 0, [], map[];
    }

    method SetHashes(hashes: seq<Hash>)
      modifies this`hashes
      ensures this.hashes == hashes
    {
      this.hashes := [];
      for i := 0 to |hashes|
        invariant this.hashes == hashes[..i]
      {
        this.hashes := this.hashes + [hashes[i]];
      }
    }

    method SetBits(flags: seq<byte>)
      modifies this`bits
      ensures bits == AsBytes(SeenBits(flags))
    {
      SeenLength(flags);
      hide Shl, SeenBits;
      bits := [];
      for i := 0 to Shl(|flags| % WORD, 3)
        invariant |bits| == i && forall k :: 0 <= k < i ==> bits[k] == AsByte(Unpack(flags)[k])
      {
        ShiftReadsBit(flags[i / 8], i % 8);
        bits := bits + [(flags[i / 8] >> (i % 8)) & 1];
      }
    }

    /** The second copy of the parser; it accepts what CheckMerkleBlock accepts. */
    method GetNodes(ghost bools: seq<bool>) returns (res: Result<map<nat, Hash>>)
      requires numTxs <= MAX_TXS && bits == AsBytes(bools)
      ensures res == Recorded(Decide(root, numTxs, hashes, bools, pair), numTxs, pair)
    {
      if numTxs == 0 {
        return Err(NoTransactions);
      }
      if bits == [] {
        return Err(NoFlags);
      }
      hide Parse, Matched, Root, Simulates, Pow2, Depth, Nodes, AsBytes, Config.FoundSoFar, Config.NodesSoFar;
      ghost var n := numTxs;
      ghost var whole := Parse(n, pair, Depth(n), 0, bools, hashes);
      var s: seq<Node> := [];
      var r: map<nat, Hash> := map[];
      var hashes, bits := this.hashes, this.bits;
      ghost var rest := bools;
      var msb := NextPowerOfTwo(numTxs);
      var pos := Sub(Shl(msb, 1), 2);
      ghost var c := Config(Done, Depth(n), 0, None);
      DepthAtMost31(n);
      TopPosition(Depth(n));
      Start(n, pair, bools, hashes);
      NothingRecorded(c, n, pair);
      while true
        invariant bits == AsBytes(rest)
        invariant Simulates(c, n, pair, s, pos, rest, hashes, whole)
        invariant r == c.NodesSoFar(n, pair)
        decreases |bits|, |s|
      {
        IsDone(c, n, pair, s, pos, rest, hashes, whole);
        if |s| == 1 && s[0].h.Some? {
          Conclude(c, n, pair, s, pos, rest, hashes, whole);
          if s[0].h.value == root {
            return Ok(r);
          }
          return Err(RootMismatch);
        }
        var op;
        op, c := Reduce(numTxs, pair, s, pos, c, rest, hashes, whole);
        if op.Failed? {
          return Err(op.error);
        }
        if op.Moved? {
          s, pos := op.s, op.pos;
          r := r[s[|s| - 1].p := s[|s| - 1].h.value];
          continue;
        }
        AtEnd(c, n, pair, s, pos, rest, hashes, whole);
        if hashes == [] {
          return Err(RanOutOfHashes);
        }
        if bits == [] {
          return Err(RanOutOfBits);
        }
        FirstByte(rest);
        var node, next, found;
        node, next, found, c := ReadNode(numTxs, pair, s, pos, bits[0] != 0, hashes, c, rest, whole);
        if node.h.Some? {
          hashes := hashes[1..];
          r := r[node.p := node.h.value];
        }
        s, pos, bits, rest := s + [node], next, bits[1..], rest[1..];
      }
    }

    /** The map is walked in an arbitrary order; the index stays put when nothing is found. */
    method CalcTxIndex(txId: Hash) returns (found: bool)
      modifies this`txIndex
      ensures found <==> exists p :: p in allNodes && p <= numTxs && allNodes[p] == txId
      ensures found ==> txIndex in allNodes && txIndex <= numTxs && allNodes[txIndex] == txId
      ensures !found ==> txIndex == old(txIndex)
    {
      var rest := allNodes.Keys;
      while rest != {}
        invariant rest <= allNodes.Keys && txIndex == old(txIndex)
        invariant forall p :: p in allNodes && p !in rest ==> p > numTxs || allNodes[p] != txId
        decreases rest
      {
        var p :| p in rest;
        rest := rest - {p};
        if p <= numTxs && allNodes[p] == txId {
          txIndex := p;
          assert p in allNodes;
          return true;
        }
      }
      return false;
    }

    /** Position of node (height, pos), found by stepping down from the root level. */
    method CalcNodeIndex(height: nat, pos: nat) returns (index: nat)
      requires numTxs <= MAX_TXS && height <= Depth(numTxs)
      ensures index == Flat(Depth(numTxs), height, pos)
    {
      hide Pow2, Depth;
      var msb: nat := NextPowerOfTwo(numTxs);
      msb := Sub(Shl(msb, 1), 2);
      var depth := TreeDepth(numTxs);
      TopPosition(depth);
      IndexStart(depth);
      var levels := depth - height;
      var i := 1;
      while i <= levels
        invariant 1 <= i <= levels + 1
        invariant msb == Pow2(depth + 1) - Pow2(i)
        decreases levels - i
      {
        IndexStep(depth, i);
        msb := msb - Shl(1, i);
        i := i + 1;
      }
      index := msb + pos;
    }

    method CalcBranchRoute()
      requires numTxs <= MAX_TXS
      modifies this`route
      ensures route == old(route) + Route(numTxs, txIndex, Depth(numTxs))
    {
      hide Flat, Width, Pow2, Depth, CalcTreeWidth, Up;
      var depth := TreeDepth(numTxs);
      ghost var before := route;
      var height := 0;
      while height < depth
        invariant 0 <= height <= depth
        invariant route == before + Route(numTxs, txIndex, height)
      {
        UpIsShift(txIndex, height);
        CalcTreeWidthIsWidth(numTxs, height);
        var index := txIndex / Pow2(height);
        var next;
        if index == CalcTreeWidth(numTxs, height) - 1 && index % 2 == 0 {
          next := CalcNodeIndex(height, index);
        } else if index % 2 == 0 {
          next := CalcNodeIndex(height, index + 1);
        } else {
          next := CalcNodeIndex(height, index - 1);
        }
        assert Route(numTxs, txIndex, height + 1) == Route(numTxs, txIndex, height) + [next];
        route := route + [next];
        height := height + 1;
      }
    }

    /** Collect the nodes along the route and the sides they are on. */
    method FollowRoute() returns (res: Result<Branch>)
      ensures res == BranchAlong(route, allNodes)
    {
      var branches, index := [], 0;
      var i := 0;
      while i < |route|
        invariant 0 <= i <= |route|
        invariant forall k :: 0 <= k < i ==> route[k] in allNodes
        invariant branches == Picked(route[..i], allNodes)
        invariant index == FromBits(Sides(route[..i]))
      {
        if route[i] !in allNodes {
          assert route[i] in route;
          return Err(NilNode);
        }
        assert route[..i + 1] == route[..i] + [route[i]];
        assert Sides(route[..i + 1]) == Sides(route[..i]) + [route[i] % 2 == 0];
        FromBitsSnoc(Sides(route[..i]), route[i] % 2 == 0);
        branches := branches + [allNodes[route[i]]];
        if route[i] % 2 == 0 {
          index := index + Pow2(i);
        }
        i := i + 1;
      }
      assert route[..|route|] == route;
      forall p | p in route ensures p in allNodes {
        var k :| 0 <= k < |route| && route[k] == p;
      }
      return Ok(Branch(branches, index));
    }

    /** The whole extraction: the transaction found (index 0 if none is), and its branch. */
    method GetMerkleBranch(txId: Hash, ghost bools: seq<bool>) returns (res: Result<Branch>)
      requires numTxs <= MAX_TXS && bits == AsBytes(bools)
      requires txIndex == 0 && route == []
      modifies this
      ensures Decide(root, numTxs, hashes, bools, pair).Rejected? ==>
        res == Err(Decide(root, numTxs, hashes, bools, pair).error)
      ensures Decide(root, numTxs, hashes, bools, pair).Accepted? ==>
        var nodes := Nodes(Decide(root, numTxs, hashes, bools, pair).tree, Depth(numTxs), pair, Depth(numTxs), 0);
        && res == BranchAlong(Route(numTxs, txIndex, Depth(numTxs)), nodes)
        && ((exists p :: p in nodes && p <= numTxs && nodes[p] == txId) ==>
              txIndex in nodes && txIndex <= numTxs && nodes[txIndex] == txId)
        && ((forall p :: p in nodes && p <= numTxs ==> nodes[p] != txId) ==> txIndex == 0)
      ensures hashes == old(hashes)
    {
      hide Decide, Nodes, Depth, Route;
      var nodes := GetNodes(bools);
      if nodes.Err? {
        return Err(nodes.error);
      }
      allNodes := nodes.value;
      var found := CalcTxIndex(txId);
      CalcBranchRoute();
      assert route == Route(numTxs, txIndex, Depth(numTxs));
      res := FollowRoute();
    }
  }

  lemma {:induction false} SeenLength(flags: seq<byte>)
    ensures Shl(|flags| % WORD, 3) == |SeenBits(flags)| <= 8 * |flags|
    ensures SeenBits(flags) <= Unpack(flags)
  {
    assert Pow2(3) == 8;
    EightTimes(|flags|);
  }

  /** Wrapping before and after the shift is wrapping after it. */
  lemma {:induction false} EightTimes(n: nat)
    ensures ((n % WORD) * 8) % WORD == 8 * n % WORD
  {
    var q := n / WORD;
    assert n == q * WORD + n % WORD;
    assert 8 * n == (8 * q) * WORD + 8 * (n % WORD);
  }

  lemma {:induction false} IndexStart(d: nat)
    ensures Pow2(d + 1) - 2 == Pow2(d + 1) - Pow2(1)
  {
  }

  lemma {:induction false} IndexStep(d: nat, i: nat)
    requires i <= d <= 31
    ensures Shl(1, i) == Pow2(i) && Pow2(i + 1) == 2 * Pow2(i) <= Pow2(d + 1)
  {
    ShlOne(i);
    Pow2Monotone(i + 1, d + 1);
  }

  lemma {:induction false} NothingRecorded(c: Config, n: nat, pair: PairHash)
    requires c.Valid(n) && c.k.Done? && c.focus.None?
    ensures c.NodesSoFar(n, pair) == map[]
  {
  }

  lemma {:induction false} FirstByte(bits: seq<bool>)
    ensures AsBytes(bits) == [] <==> bits == []
    ensures bits != [] ==> (AsBytes(bits)[0] != 0 <==> bits[0]) && AsBytes(bits[1..]) == AsBytes(bits)[1..]
  {
  }

  /** A complete branch from the id to the message's Merkle root. */
  predicate Leads(id: Hash, res: Result<Branch>, m: Message, pair: PairHash) {
    && res.Ok? && |res.value.branches| == Depth(m.transactions)
    && RootFromBranch(id, res.value.branches, res.value.index, pair) == m.root
  }

  /** GetTxMerkleBranch, for every message and id: the error of the extractor's parse, or the branch of a
      position it may pick. For an id that the check returned and the extra position does not show, the
      branch leads to the root. */
  method GetTxMerkleBranch(m: Message, txId: Hash, pair: PairHash) returns (res: Result<Branch>)
    requires m.transactions <= MAX_TXS
    ensures Extracted(m, pair).Rejected? ==> res == Err(Extracted(m, pair).error)
    ensures Extracted(m, pair).Accepted? ==>
      && Check(m, pair) == Extracted(m, pair)
      && exists p: nat :: MayPick(m, pair, txId, p) && res == BranchAt(m, pair, p)
    ensures Extracted(m, pair).Accepted? && txId in Answer(Check(m, pair)).value ==>
      ShowsAt(m, pair, txId, m.transactions) || Leads(txId, res, m, pair)
  {
    hide Decide, Nodes, Depth, Route, RootFromBranch, BranchAlong, AsBytes, Unpack, SeenBits;
    var mNodes := new MerkleNodes(m.root, m.transactions, pair);
    mNodes.SetHashes(m.hashes);
    mNodes.SetBits(m.flags);
    res := mNodes.GetMerkleBranch(txId, SeenBits(m.flags));
    ExtractedIff(m, pair);
    if Extracted(m, pair).Accepted? {
      assert MayPick(m, pair, txId, mNodes.txIndex) && res == BranchAt(m, pair, mNodes.txIndex);
      if txId in Answer(Check(m, pair)).value && !ShowsAt(m, pair, txId, m.transactions) {
        var x := ReturnedIdIsRecorded(m, pair, txId);
        assert ShowsAt(m, pair, txId, x);
        BranchGivesRoot(m, pair, mNodes.txIndex);
      }
    }
  }
}
