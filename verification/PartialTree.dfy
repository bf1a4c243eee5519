/** Partial Merkle trees (BIP 37, "Partial Merkle branch format"): their depth-first
    serialisation, the recursive parser that inverts it, and what accepting one proves. */
module PartialTree {
  import opened MerkleTree
  import opened Word32

  /** A partial tree. `Single` is a node whose right child does not exist. */
  datatype PTree =
    | Pruned(hash: Hash)
    | Leaf(hash: Hash, matched: bool)
    | Single(left: PTree)
    | Both(left: PTree, right: PTree)

  /** A transaction id together with its position in the block. */
  datatype Found = Found(index: nat, id: Hash)

  datatype ParseError =
    | NoTransactions
    | NoFlags
    | RanOutOfHashes
    | RanOutOfBits
    | DuplicateHash
    | LeftChildNil
    | RootMismatch
    | NilNode

  datatype Parsed =
    | Good(tree: PTree, bits: seq<bool>, hashes: seq<Hash>)
    | Bad(error: ParseError)

  function Root(t: PTree, pair: PairHash): Hash {
    match t
    case Pruned(hash) => hash
    case Leaf(hash, _) => hash
    case Single(left) => pair(Root(left, pair), Root(left, pair))
    case Both(left, right) => pair(Root(left, pair), Root(right, pair))
  }

  /** t has the shape of node (h, i) in a tree of n leaves. */
  predicate Shaped(t: PTree, n: nat, h: nat, i: nat) {
    i < Width(n, h) &&
    match t
    case Pruned(_) => h > 0
    case Leaf(_, _) => h == 0
    case Single(left) => h > 0 && 2 * i + 1 >= Width(n, h - 1) && Shaped(left, n, h - 1, 2 * i)
    case Both(left, right) =>
      h > 0 && Shaped(left, n, h - 1, 2 * i) && Shaped(right, n, h - 1, 2 * i + 1)
  }

  /** No node has two equal children (the guard against CVE-2012-2459). */
  predicate NoTwins(t: PTree, pair: PairHash) {
    match t
    case Pruned(_) => true
    case Leaf(_, _) => true
    case Single(left) => NoTwins(left, pair)
    case Both(left, right) =>
      Root(left, pair) != Root(right, pair) && NoTwins(left, pair) && NoTwins(right, pair)
  }

  /** The serialised form: one flag per node in depth-first order, one hash per stopped node. */
  function Bits(t: PTree): seq<bool> {
    match t
    case Pruned(_) => [false]
    case Leaf(_, matched) => [matched]
    case Single(left) => [true] + Bits(left)
    case Both(left, right) => [true] + Bits(left) + Bits(right)
  }

  function Hashes(t: PTree): seq<Hash> {
    match t
    case Pruned(hash) => [hash]
    case Leaf(hash, _) => [hash]
    case Single(left) => Hashes(left)
    case Both(left, right) => Hashes(left) + Hashes(right)
  }

  /** The flagged leaves, left to right. */
  function Matched(t: PTree, i: nat): seq<Found> {
    match t
    case Pruned(_) => []
    case Leaf(hash, matched) => if matched then [Found(i, hash)] else []
    case Single(left) => Matched(left, 2 * i)
    case Both(left, right) => Matched(left, 2 * i) + Matched(right, 2 * i + 1)
  }

  function Ids(found: seq<Found>): (ids: seq<Hash>)
    ensures |ids| == |found|
  {
    seq(|found|, k requires 0 <= k < |found| => found[k].id)
  }

  // ----- the recursive parser -----

  function JoinRight(left: PTree, right: Parsed, pair: PairHash): Parsed {
    match right
    case Bad(_) => right
    case Good(t, bits, hashes) =>
      if Root(left, pair) == Root(t, pair) then Bad(DuplicateHash) else Good(Both(left, t), bits, hashes)
  }

  function Parse(n: nat, pair: PairHash, h: nat, i: nat, bits: seq<bool>, hashes: seq<Hash>): Parsed
    decreases h
  {
    if hashes == [] then Bad(RanOutOfHashes)
    else if bits == [] then Bad(RanOutOfBits)
    else if h == 0 then Good(Leaf(hashes[0], bits[0]), bits[1..], hashes[1..])
    else if !bits[0] then Good(Pruned(hashes[0]), bits[1..], hashes[1..])
    else
      match Parse(n, pair, h - 1, 2 * i, bits[1..], hashes)
      case Bad(e) => Bad(e)
      case Good(left, bits', hashes') =>
        if 2 * i + 1 < Width(n, h - 1) then
          JoinRight(left, Parse(n, pair, h - 1, 2 * i + 1, bits', hashes'), pair)
        else Good(Single(left), bits', hashes')
  }

  /** The equation of the parser at a node whose children are in the message. */
  lemma {:induction false} ParseInner(n: nat, pair: PairHash, h: nat, i: nat, bits: seq<bool>, hashes: seq<Hash>)
    requires h > 0 && hashes != [] && bits != [] && bits[0]
    ensures Parse(n, pair, h, i, bits, hashes) ==
      var l := Parse(n, pair, h - 1, 2 * i, bits[1..], hashes);
      if l.Bad? then l
      else if 2 * i + 1 < Width(n, h - 1) then
        JoinRight(l.tree, Parse(n, pair, h - 1, 2 * i + 1, l.bits, l.hashes), pair)
      else Good(Single(l.tree), l.bits, l.hashes)
  {
  }

  /** ... and at a node that ends the descent. */
  lemma {:induction false} ParseOuter(n: nat, pair: PairHash, h: nat, i: nat, bits: seq<bool>, hashes: seq<Hash>)
    requires hashes == [] || bits == [] || h == 0 || !bits[0]
    ensures Parse(n, pair, h, i, bits, hashes) ==
      if hashes == [] then Bad(RanOutOfHashes)
      else if bits == [] then Bad(RanOutOfBits)
      else Good(if h == 0 then Leaf(hashes[0], bits[0]) else Pruned(hashes[0]), bits[1..], hashes[1..])
  {
  }

  /** t is node (h, i) of an n-leaf tree, without twins, and starts the message (bits, hashes). */
  predicate Reads(t: PTree, n: nat, pair: PairHash, h: nat, i: nat,
                  bits: seq<bool>, hashes: seq<Hash>, bits': seq<bool>, hashes': seq<Hash>) {
    && Shaped(t, n, h, i) && NoTwins(t, pair)
    && bits == Bits(t) + bits' && hashes == Hashes(t) + hashes'
  }

  lemma {:induction false} ReadsOuter(n: nat, pair: PairHash, h: nat, i: nat, bits: seq<bool>, hashes: seq<Hash>)
    requires i < Width(n, h) && bits != [] && hashes != [] && (h == 0 || !bits[0])
    ensures Reads(if h == 0 then Leaf(hashes[0], bits[0]) else Pruned(hashes[0]),
                  n, pair, h, i, bits, hashes, bits[1..], hashes[1..])
  {
  }

  lemma {:induction false} ReadsSingle(l: PTree, n: nat, pair: PairHash, h: nat, i: nat,
                    bits: seq<bool>, hashes: seq<Hash>, bits': seq<bool>, hashes': seq<Hash>)
    requires h > 0 && i < Width(n, h) && 2 * i + 1 >= Width(n, h - 1)
    requires bits != [] && bits[0] && Reads(l, n, pair, h - 1, 2 * i, bits[1..], hashes, bits', hashes')
    ensures Reads(Single(l), n, pair, h, i, bits, hashes, bits', hashes')
  {
    assert bits == [true] + bits[1..];
    hide Bits;
    assert Bits(Single(l)) == [true] + Bits(l) by { SingleBits(l); }
    assert [true] + (Bits(l) + bits') == ([true] + Bits(l)) + bits';
  }

  lemma {:induction false} SingleBits(l: PTree)
    ensures Bits(Single(l)) == [true] + Bits(l)
  {
  }

  lemma {:induction false} BothBits(l: PTree, r: PTree, bits: seq<bool>, hashes: seq<Hash>)
    ensures Bits(Both(l, r)) + bits == [true] + (Bits(l) + (Bits(r) + bits))
    ensures Hashes(Both(l, r)) + hashes == Hashes(l) + (Hashes(r) + hashes)
  {
    Regroup([true], Bits(l), Bits(r), bits);
    Regroup([], Hashes(l), Hashes(r), hashes);
  }

  lemma {:induction false} Regroup<T>(a: seq<T>, b: seq<T>, c: seq<T>, d: seq<T>)
    ensures (a + b + c) + d == a + (b + (c + d))
    ensures (b + c) + d == b + (c + d)
  {
  }

  lemma {:induction false} ReadsBoth(l: PTree, r: PTree, n: nat, pair: PairHash, h: nat, i: nat,
                  bits: seq<bool>, hashes: seq<Hash>,
                  bits1: seq<bool>, hashes1: seq<Hash>, bits2: seq<bool>, hashes2: seq<Hash>)
    requires h > 0 && i < Width(n, h) && Root(l, pair) != Root(r, pair)
    requires bits != [] && bits[0] && Reads(l, n, pair, h - 1, 2 * i, bits[1..], hashes, bits1, hashes1)
    requires Reads(r, n, pair, h - 1, 2 * i + 1, bits1, hashes1, bits2, hashes2)
    ensures Reads(Both(l, r), n, pair, h, i, bits, hashes, bits2, hashes2)
  {
    assert bits == [true] + bits[1..];
    hide Bits, Hashes;
    BothBits(l, r, bits2, hashes2);
  }

  /** Whatever the parser accepts is the serialised form of the tree it returns. */
  lemma {:induction false} ParseIsSound(n: nat, pair: PairHash, h: nat, i: nat, bits: seq<bool>, hashes: seq<Hash>)
    requires i < Width(n, h)
    ensures var p := Parse(n, pair, h, i, bits, hashes);
      p.Good? ==> Reads(p.tree, n, pair, h, i, bits, hashes, p.bits, p.hashes)
    decreases h
  {
    hide Parse, Reads, Root;
    if h > 0 && hashes != [] && bits != [] && bits[0] {
      ParseInner(n, pair, h, i, bits, hashes);
      var l := Parse(n, pair, h - 1, 2 * i, bits[1..], hashes);
      ParseIsSound(n, pair, h - 1, 2 * i, bits[1..], hashes);
      if l.Good? {
        if 2 * i + 1 < Width(n, h - 1) {
          var r := Parse(n, pair, h - 1, 2 * i + 1, l.bits, l.hashes);
          ParseIsSound(n, pair, h - 1, 2 * i + 1, l.bits, l.hashes);
          if r.Good? && Root(l.tree, pair) != Root(r.tree, pair) {
            ReadsBoth(l.tree, r.tree, n, pair, h, i, bits, hashes, l.bits, l.hashes, r.bits, r.hashes);
          }
        } else {
          ReadsSingle(l.tree, n, pair, h, i, bits, hashes, l.bits, l.hashes);
        }
      }
    } else {
      ParseOuter(n, pair, h, i, bits, hashes);
      if hashes != [] && bits != [] {
        ReadsOuter(n, pair, h, i, bits, hashes);
      }
    }
  }

  /** The serialised form of every well-shaped tree without twins is accepted, whatever follows it. */
  lemma {:induction false} ParseIsComplete(
    t: PTree, n: nat, pair: PairHash, h: nat, i: nat, bits: seq<bool>, hashes: seq<Hash>)
    requires Shaped(t, n, h, i)
    ensures Parse(n, pair, h, i, Bits(t) + bits, Hashes(t) + hashes)
         == if NoTwins(t, pair) then Good(t, bits, hashes) else Bad(DuplicateHash)
    decreases t
  {
    hide Parse;
    HashesNonEmpty(t);
    match t
    case Pruned(_) => ParseOuter(n, pair, h, i, Bits(t) + bits, Hashes(t) + hashes);
    case Leaf(_, _) => ParseOuter(n, pair, h, i, Bits(t) + bits, Hashes(t) + hashes);
    case Single(left) =>
      hide Bits;
      SingleBits(left);
      assert (Bits(t) + bits)[1..] == Bits(left) + bits;
      ParseInner(n, pair, h, i, Bits(t) + bits, Hashes(t) + hashes);
      ParseIsComplete(left, n, pair, h - 1, 2 * i, bits, hashes);
    case Both(left, right) =>
      hide Bits, Hashes, Root;
      BothBits(left, right, bits, hashes);
      assert (Bits(t) + bits)[1..] == Bits(left) + (Bits(right) + bits);
      ParseInner(n, pair, h, i, Bits(t) + bits, Hashes(t) + hashes);
      ParseIsComplete(left, n, pair, h - 1, 2 * i, Bits(right) + bits, Hashes(right) + hashes);
      ParseIsComplete(right, n, pair, h - 1, 2 * i + 1, bits, hashes);
  }

  lemma {:induction false} RestOfPrefix<T>(a: seq<T>, b: seq<T>, s: seq<T>) returns (more: seq<T>)
    requires s < a + b
    ensures s < a || (s == a + more && more < b)
  {
    if |s| < |a| {
      more := [];
      assert (a + b)[..|s|] == a[..|s|];
    } else {
      more := s[|a|..];
      assert s == (a + b)[..|s|] == a + b[..|s| - |a|];
    }
  }

  /** With all the flags but not all the hashes the parser runs out of hashes. */
  lemma {:induction false} OutOfHashes(
    t: PTree, n: nat, pair: PairHash, h: nat, i: nat, bits: seq<bool>, hashes: seq<Hash>)
    requires Shaped(t, n, h, i) && NoTwins(t, pair) && hashes < Hashes(t)
    ensures Parse(n, pair, h, i, Bits(t) + bits, hashes) == Bad(RanOutOfHashes)
    decreases t
  {
    hide Parse;
    if hashes == [] {
      ParseOuter(n, pair, h, i, Bits(t) + bits, hashes);
    } else if t.Single? {
      hide Bits;
      SingleBits(t.left);
      assert (Bits(t) + bits)[1..] == Bits(t.left) + bits;
      ParseInner(n, pair, h, i, Bits(t) + bits, hashes);
      OutOfHashes(t.left, n, pair, h - 1, 2 * i, bits, hashes);
    } else if t.Both? {
      var more := RestOfPrefix(Hashes(t.left), Hashes(t.right), hashes);
      hide Bits, Hashes, Root;
      BothBits(t.left, t.right, bits, []);
      assert (Bits(t) + bits)[1..] == Bits(t.left) + (Bits(t.right) + bits);
      ParseInner(n, pair, h, i, Bits(t) + bits, hashes);
      if hashes < Hashes(t.left) {
        OutOfHashes(t.left, n, pair, h - 1, 2 * i, Bits(t.right) + bits, hashes);
      } else {
        ParseIsComplete(t.left, n, pair, h - 1, 2 * i, Bits(t.right) + bits, more);
        OutOfHashes(t.right, n, pair, h - 1, 2 * i + 1, bits, more);
      }
    }
  }

  /** ... and with all the hashes but not all the flags it runs out of flags. */
  lemma {:induction false} OutOfBits(
    t: PTree, n: nat, pair: PairHash, h: nat, i: nat, bits: seq<bool>, hashes: seq<Hash>)
    requires Shaped(t, n, h, i) && NoTwins(t, pair) && bits < Bits(t)
    ensures Parse(n, pair, h, i, bits, Hashes(t) + hashes) == Bad(RanOutOfBits)
    decreases t
  {
    hide Parse;
    HashesNonEmpty(t);
    if bits == [] {
      ParseOuter(n, pair, h, i, bits, Hashes(t) + hashes);
    } else if t.Single? {
      hide Bits;
      SingleBits(t.left);
      assert bits[0] && bits[1..] < Bits(t.left);
      ParseInner(n, pair, h, i, bits, Hashes(t) + hashes);
      OutOfBits(t.left, n, pair, h - 1, 2 * i, bits[1..], hashes);
    } else if t.Both? {
      hide Bits, Hashes, Root;
      BothBits(t.left, t.right, [], hashes);
      BothBitsTail(t.left, t.right, bits);
      var more := RestOfPrefix(Bits(t.left), Bits(t.right), bits[1..]);
      ParseInner(n, pair, h, i, bits, Hashes(t) + hashes);
      if bits[1..] < Bits(t.left) {
        OutOfBits(t.left, n, pair, h - 1, 2 * i, bits[1..], Hashes(t.right) + hashes);
      } else {
        ParseIsComplete(t.left, n, pair, h - 1, 2 * i, more, Hashes(t.right) + hashes);
        OutOfBits(t.right, n, pair, h - 1, 2 * i + 1, more, hashes);
      }
    }
  }

  lemma {:induction false} BothBitsTail(l: PTree, r: PTree, bits: seq<bool>)
    requires [] < bits < Bits(Both(l, r))
    ensures bits[0] && bits[1..] < Bits(l) + Bits(r)
  {
    assert Bits(Both(l, r)) == [true] + (Bits(l) + Bits(r));
  }

  lemma {:induction false} BitsNonEmpty(t: PTree)
    ensures |Bits(t)| >= 1
  {
  }

  lemma {:induction false} HashesNonEmpty(t: PTree)
    ensures |Hashes(t)| >= 1
  {
    match t
    case Pruned(_) =>
    case Leaf(_, _) =>
    case Single(left) => HashesNonEmpty(left);
    case Both(left, _) => HashesNonEmpty(left);
  }

  // ----- soundness against a real tree -----

  /** The pair (a, b) hashes to node (h, i) of the real tree over `leaves`, but is not the pair of its
      children. */
  ghost predicate Forges(leaves: seq<Hash>, pair: PairHash, h: nat, i: nat, a: Hash, b: Hash) {
    && 0 < h <= Depth(|leaves|) && i < Width(|leaves|, h) && pair(a, b) == CalcHash(leaves, pair, h, i)
    && !AreChildren(leaves, pair, h, i, a, b)
  }

  ghost predicate AreChildren(leaves: seq<Hash>, pair: PairHash, h: nat, i: nat, a: Hash, b: Hash)
    requires 0 < h && i < Width(|leaves|, h)
  {
    && a == CalcHash(leaves, pair, h - 1, 2 * i)
    && b == if 2 * i + 1 < Width(|leaves|, h - 1) then CalcHash(leaves, pair, h - 1, 2 * i + 1) else a
  }

  /** No node of the real tree over `leaves` has a second preimage under `pair`.
      Every injective `pair` satisfies this; a real hash function only has to resist
      second-preimage search at these nodes. */
  ghost predicate NoSecondPreimage(leaves: seq<Hash>, pair: PairHash) {
    forall h: nat, i: nat, a: Hash, b: Hash :: !Forges(leaves, pair, h, i, a, b)
  }

  /** With an injective pair hash the assumption holds of every tree. */
  lemma {:induction false} InjectiveHasNoSecondPreimage(leaves: seq<Hash>, pair: PairHash)
    requires forall a, b, c, d :: pair(a, b) == pair(c, d) ==> a == c && b == d
    ensures NoSecondPreimage(leaves, pair)
  {
    forall h: nat, i: nat, a: Hash, b: Hash ensures !Forges(leaves, pair, h, i, a, b) {
      if 0 < h && i < Width(|leaves|, h) {
        CalcHashStep(leaves, pair, h, i);
      }
    }
  }

  ghost predicate RealLeaves(found: seq<Found>, leaves: seq<Hash>) {
    forall k :: 0 <= k < |found| ==> found[k].index < |leaves| && found[k].id == leaves[found[k].index]
  }

  predicate StrictlyIncreasing(found: seq<Found>) {
    forall j, k :: 0 <= j < k < |found| ==> found[j].index < found[k].index
  }

  /** Some node of t has children with the hashes a and b; an unpaired child counts twice. */
  predicate HasChildren(t: PTree, pair: PairHash, a: Hash, b: Hash) {
    match t
    case Pruned(_) => false
    case Leaf(_, _) => false
    case Single(left) => a == b == Root(left, pair) || HasChildren(left, pair, a, b)
    case Both(left, right) =>
      || (a == Root(left, pair) && b == Root(right, pair))
      || HasChildren(left, pair, a, b) || HasChildren(right, pair, a, b)
  }

  /** A partial tree with the hash of node (h, i) shows real leaves only, or the two children of one of
      its nodes forge a node of the real tree. */
  lemma {:induction false} SubtreeIsSoundOrForges(t: PTree, leaves: seq<Hash>, pair: PairHash, h: nat, i: nat)
    returns (g: nat, j: nat, a: Hash, b: Hash)
    requires Shaped(t, |leaves|, h, i) && h <= Depth(|leaves|) && Root(t, pair) == CalcHash(leaves, pair, h, i)
    ensures RealLeaves(Matched(t, i), leaves) || (Forges(leaves, pair, g, j, a, b) && HasChildren(t, pair, a, b))
    decreases t
  {
    g, j, a, b := h, i, Root(t, pair), Root(t, pair);
    match t
    case Pruned(_) =>
    case Leaf(_, _) =>
    case Single(left) =>
      a, b := Root(left, pair), Root(left, pair);
      if AreChildren(leaves, pair, h, i, a, b) {
        g, j, a, b := SubtreeIsSoundOrForges(left, leaves, pair, h - 1, 2 * i);
      }
    case Both(left, right) =>
      a, b := Root(left, pair), Root(right, pair);
      if AreChildren(leaves, pair, h, i, a, b) {
        g, j, a, b := SubtreeIsSoundOrForges(left, leaves, pair, h - 1, 2 * i);
        if RealLeaves(Matched(left, 2 * i), leaves) {
          g, j, a, b := SubtreeIsSoundOrForges(right, leaves, pair, h - 1, 2 * i + 1);
        }
      }
  }

  /** Leaf positions under (h, i) lie in [i * 2^h, (i + 1) * 2^h), and come out in order. */
  lemma {:induction false} MatchedInRange(t: PTree, n: nat, h: nat, i: nat)
    requires Shaped(t, n, h, i)
    ensures forall k :: 0 <= k < |Matched(t, i)| ==>
      First(h, i) <= Matched(t, i)[k].index < First(h, i + 1)
    ensures StrictlyIncreasing(Matched(t, i))
    decreases t
  {
    match t
    case Pruned(_) =>
    case Leaf(_, _) =>
    case Single(left) =>
      HalvesOfRange(h, i);
      MatchedInRange(left, n, h - 1, 2 * i);
    case Both(left, right) =>
      HalvesOfRange(h, i);
      MatchedInRange(left, n, h - 1, 2 * i);
      MatchedInRange(right, n, h - 1, 2 * i + 1);
  }

  /** Position of the first leaf below node (h, i). */
  function First(h: nat, i: nat): nat { i * Pow2(h) }

  lemma {:induction false} HalvesOfRange(h: nat, i: nat)
    ensures First(h, i) <= First(h, i + 1)
    ensures h > 0 ==>
      First(h - 1, 2 * i) == First(h, i) <= First(h - 1, 2 * i + 1) <= First(h - 1, 2 * i + 2) == First(h, i + 1)
  {
    MulMonotone(i, i + 1, Pow2(h));
    if h > 0 {
      MulMonotone(2 * i, 2 * i + 1, Pow2(h - 1));
      MulMonotone(2 * i + 1, 2 * i + 2, Pow2(h - 1));
      MulAssociate(i, 2, Pow2(h - 1));
      MulAssociate(i + 1, 2, Pow2(h - 1));
    }
  }

  // ----- the tree a block and its matches determine -----

  /** Some transaction below node (h, i) matched. */
  predicate AnyMatch(matches: seq<bool>, h: nat, i: nat)
    decreases h
  {
    if h == 0 then i < |matches| && matches[i]
    else AnyMatch(matches, h - 1, 2 * i) || AnyMatch(matches, h - 1, 2 * i + 1)
  }

  lemma {:induction false} AnyMatchScans(matches: seq<bool>, h: nat, i: nat)
    ensures AnyMatch(matches, h, i) <==>
      exists k :: First(h, i) <= k < First(h, i + 1) && k < |matches| && matches[k]
    decreases h
  {
    if h > 0 {
      HalvesOfRange(h, i);
      AnyMatchScans(matches, h - 1, 2 * i);
      AnyMatchScans(matches, h - 1, 2 * i + 1);
    }
  }

  function Build(leaves: seq<Hash>, matches: seq<bool>, pair: PairHash, h: nat, i: nat): (t: PTree)
    requires |matches| == |leaves| && i < Width(|leaves|, h)
    ensures Shaped(t, |leaves|, h, i)
    decreases h
  {
    if h == 0 then Leaf(leaves[i], matches[i])
    else if !AnyMatch(matches, h, i) then Pruned(CalcHash(leaves, pair, h, i))
    else
      var left := Build(leaves, matches, pair, h - 1, 2 * i);
      if 2 * i + 1 < Width(|leaves|, h - 1) then Both(left, Build(leaves, matches, pair, h - 1, 2 * i + 1))
      else Single(left)
  }

  lemma {:induction false} BuildHasRealRoot(leaves: seq<Hash>, matches: seq<bool>, pair: PairHash, h: nat, i: nat)
    requires |matches| == |leaves| && i < Width(|leaves|, h)
    ensures Root(Build(leaves, matches, pair, h, i), pair) == CalcHash(leaves, pair, h, i)
    decreases h
  {
    if h > 0 {
      BuildHasRealRoot(leaves, matches, pair, h - 1, 2 * i);
      if 2 * i + 1 < Width(|leaves|, h - 1) {
        BuildHasRealRoot(leaves, matches, pair, h - 1, 2 * i + 1);
      }
    }
  }

  /** The matched leaves with lo <= position < hi, in block order. */
  function Select(leaves: seq<Hash>, matches: seq<bool>, lo: nat, hi: nat): seq<Found>
    requires |matches| == |leaves| && lo <= hi
    decreases hi - lo
  {
    if lo == hi then []
    else (if lo < |leaves| && matches[lo] then [Found(lo, leaves[lo])] else [])
         + Select(leaves, matches, lo + 1, hi)
  }

  lemma {:induction false} SelectSplit(leaves: seq<Hash>, matches: seq<bool>, lo: nat, mid: nat, hi: nat)
    requires |matches| == |leaves| && lo <= mid <= hi
    ensures Select(leaves, matches, lo, hi) == Select(leaves, matches, lo, mid) + Select(leaves, matches, mid, hi)
    decreases mid - lo
  {
    if lo < mid {
      SelectSplit(leaves, matches, lo + 1, mid, hi);
    }
  }

  lemma {:induction false} SelectNone(leaves: seq<Hash>, matches: seq<bool>, lo: nat, hi: nat)
    requires |matches| == |leaves| && lo <= hi
    requires forall k :: lo <= k < hi && k < |matches| ==> !matches[k]
    ensures Select(leaves, matches, lo, hi) == []
    decreases hi - lo
  {
    if lo < hi {
      SelectNone(leaves, matches, lo + 1, hi);
    }
  }

  lemma {:induction false} BuildMatchesSelected(leaves: seq<Hash>, matches: seq<bool>, pair: PairHash, h: nat, i: nat)
    requires |matches| == |leaves| && i < Width(|leaves|, h)
    ensures First(h, i) <= First(h, i + 1)
    ensures Matched(Build(leaves, matches, pair, h, i), i)
         == Select(leaves, matches, First(h, i), First(h, i + 1))
    decreases h
  {
    HalvesOfRange(h, i);
    if h == 0 {
      assert Select(leaves, matches, i + 1, i + 1) == [];
    } else {
      hide First, Select, AnyMatch;
      if !AnyMatch(matches, h, i) {
        AnyMatchScans(matches, h, i);
        SelectNone(leaves, matches, First(h, i), First(h, i + 1));
      } else {
        SelectSplit(leaves, matches, First(h, i), First(h - 1, 2 * i + 1), First(h, i + 1));
        BuildMatchesSelected(leaves, matches, pair, h - 1, 2 * i);
        if 2 * i + 1 < Width(|leaves|, h - 1) {
          BuildMatchesSelected(leaves, matches, pair, h - 1, 2 * i + 1);
        } else {
          BeyondLastNode(|leaves|, h - 1, 2 * i + 1);
          SelectNone(leaves, matches, First(h - 1, 2 * i + 1), First(h, i + 1));
        }
      }
    }
  }

  lemma {:induction false} BeyondLastNode(n: nat, h: nat, i: nat)
    ensures i >= Width(n, h) <==> First(h, i) >= n
  {
    NodeExists(n, h, i);
  }

  /** The two children of every node that has a match below it hash differently. */
  ghost predicate ExposedSiblingsDiffer(leaves: seq<Hash>, matches: seq<bool>, pair: PairHash) {
    forall h: nat, i: nat :: 2 * i + 1 < Width(|leaves|, h) && AnyMatch(matches, h + 1, i) ==>
      CalcHash(leaves, pair, h, 2 * i) != CalcHash(leaves, pair, h, 2 * i + 1)
  }

  lemma {:induction false} TwinlessIfSiblingsDiffer(
    leaves: seq<Hash>, matches: seq<bool>, pair: PairHash, h: nat, i: nat)
    requires |matches| == |leaves| && i < Width(|leaves|, h)
    requires ExposedSiblingsDiffer(leaves, matches, pair)
    ensures NoTwins(Build(leaves, matches, pair, h, i), pair)
    decreases h
  {
    if h > 0 && AnyMatch(matches, h, i) {
      TwinlessIfSiblingsDiffer(leaves, matches, pair, h - 1, 2 * i);
      BuildHasRealRoot(leaves, matches, pair, h - 1, 2 * i);
      if 2 * i + 1 < Width(|leaves|, h - 1) {
        TwinlessIfSiblingsDiffer(leaves, matches, pair, h - 1, 2 * i + 1);
        BuildHasRealRoot(leaves, matches, pair, h - 1, 2 * i + 1);
      }
    }
  }

  /** Conversely, walk from the root down to the node (g, j) and find its children distinct. */
  lemma {:induction false} SiblingsDifferIfTwinless(
    leaves: seq<Hash>, matches: seq<bool>, pair: PairHash, h: nat, i: nat, g: nat, j: nat)
    requires |matches| == |leaves| && i < Width(|leaves|, h)
    requires NoTwins(Build(leaves, matches, pair, h, i), pair)
    requires g < h && 2 * j + 1 < Width(|leaves|, g) && AnyMatch(matches, g + 1, j)
    requires Up(j, h - g - 1) == i
    ensures CalcHash(leaves, pair, g, 2 * j) != CalcHash(leaves, pair, g, 2 * j + 1)
    ensures AnyMatch(matches, h, i)
    decreases h
  {
    if h == g + 1 {
      ChildrenDiffer(leaves, matches, pair, h, i);
    } else {
      var c := Up(j, h - g - 2);
      AncestorExists(|leaves|, g + 1, j, h - g - 2);
      AncestorMatches(matches, g + 1, j, h - g - 1);
      ChildIsTwinless(leaves, matches, pair, h, i, c);
      SiblingsDifferIfTwinless(leaves, matches, pair, h - 1, c, g, j);
    }
  }

  lemma {:induction false} ChildrenDiffer(leaves: seq<Hash>, matches: seq<bool>, pair: PairHash, h: nat, i: nat)
    requires |matches| == |leaves| && i < Width(|leaves|, h)
    requires NoTwins(Build(leaves, matches, pair, h, i), pair)
    requires h > 0 && AnyMatch(matches, h, i) && 2 * i + 1 < Width(|leaves|, h - 1)
    ensures CalcHash(leaves, pair, h - 1, 2 * i) != CalcHash(leaves, pair, h - 1, 2 * i + 1)
  {
    BuildHasRealRoot(leaves, matches, pair, h - 1, 2 * i);
    BuildHasRealRoot(leaves, matches, pair, h - 1, 2 * i + 1);
  }

  lemma {:induction false} ChildIsTwinless(leaves: seq<Hash>, matches: seq<bool>, pair: PairHash, h: nat, i: nat, c: nat)
    requires |matches| == |leaves| && i < Width(|leaves|, h)
    requires NoTwins(Build(leaves, matches, pair, h, i), pair)
    requires h > 0 && AnyMatch(matches, h, i) && c / 2 == i && c < Width(|leaves|, h - 1)
    ensures NoTwins(Build(leaves, matches, pair, h - 1, c), pair)
  {
    assert c == 2 * i || c == 2 * i + 1;
  }

  lemma {:induction false} AncestorExists(n: nat, h: nat, i: nat, k: nat)
    requires i < Width(n, h)
    ensures Up(i, k) < Width(n, h + k)
  {
    if k > 0 {
      AncestorExists(n, h, i, k - 1);
    }
  }

  lemma {:induction false} AncestorMatches(matches: seq<bool>, h: nat, i: nat, k: nat)
    requires AnyMatch(matches, h, i)
    ensures AnyMatch(matches, h + k, Up(i, k))
  {
    if k > 0 {
      AncestorMatches(matches, h, i, k - 1);
      var c := Up(i, k - 1);
      assert c == 2 * (c / 2) || c == 2 * (c / 2) + 1;
    }
  }

  lemma {:induction false} TwinlessIffSiblingsDiffer(leaves: seq<Hash>, matches: seq<bool>, pair: PairHash)
    requires |matches| == |leaves| >= 1
    ensures Width(|leaves|, Depth(|leaves|)) == 1
    ensures NoTwins(Build(leaves, matches, pair, Depth(|leaves|), 0), pair)
       <==> ExposedSiblingsDiffer(leaves, matches, pair)
  {
    var n := |leaves|;
    var d := Depth(n);
    WidthAtDepth(n, d);
    if ExposedSiblingsDiffer(leaves, matches, pair) {
      TwinlessIfSiblingsDiffer(leaves, matches, pair, d, 0);
    }
    if NoTwins(Build(leaves, matches, pair, d, 0), pair) {
      forall h: nat, i: nat | 2 * i + 1 < Width(n, h) && AnyMatch(matches, h + 1, i)
        ensures CalcHash(leaves, pair, h, 2 * i) != CalcHash(leaves, pair, h, 2 * i + 1)
      {
        WideOnlyBelowRoot(n, h);
        AncestorExists(n, h + 1, i, d - h - 1);
        SiblingsDifferIfTwinless(leaves, matches, pair, d, 0, h, i);
      }
    }
  }

  lemma {:induction false} WideOnlyBelowRoot(n: nat, h: nat)
    requires Width(n, h) > 1
    ensures h < Depth(n)
    decreases h
  {
    if h > 0 {
      WidthOfHalf(n, h - 1);
      WideOnlyBelowRoot((n + 1) / 2, h - 1);
      WidthMonotone(n, h);
    }
  }

  lemma {:induction false} WidthMonotone(n: nat, h: nat)
    ensures Width(n, h) <= n
  {
    if h > 0 {
      WidthMonotone(n, h - 1);
    }
  }
}
