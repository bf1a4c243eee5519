/** Branches of blocks that come from the builder: what the recording parser keeps is the real tree,
    so that the branch of a returned transaction leads to the real Merkle root. */
module BuiltBranch {
  import opened BlockBuilder
  import opened FlagBits
  import opened BranchPath
  import opened MerkleBlock
  import opened MerkleBranch
  import opened MerkleTree
  import opened PartialTree
  import opened Position
  import opened StackParser
  import opened Word32

  lemma {:induction false} FlatInjective(d: nat, h: nat, i: nat, g: nat, j: nat)
    requires h <= d && g <= d && i < Pow2(d - h) && j < Pow2(d - g) && Flat(d, h, i) == Flat(d, g, j)
    ensures h == g && i == j
  {
    hide Pow2, LevelOf, Base;
    LevelOfFlat(d, h, i);
    LevelOfFlat(d, g, j);
  }

  /** Every node the builder's tree records has the hash of the real tree. */
  lemma {:induction false} BuiltNode(leaves: seq<Hash>, matches: seq<bool>, pair: PairHash, h: nat, i: nat, g: nat, j: nat)
    requires |matches| == |leaves| && h <= Depth(|leaves|) && i < Width(|leaves|, h)
    requires g <= Depth(|leaves|) && j < Width(|leaves|, g)
    ensures
      var d := Depth(|leaves|);
      var nodes := Nodes(Build(leaves, matches, pair, h, i), d, pair, h, i);
      Flat(d, g, j) in nodes ==> nodes[Flat(d, g, j)] == CalcHash(leaves, pair, g, j)
    decreases h
  {
    var n, d, t := |leaves|, Depth(|leaves|), Build(leaves, matches, pair, h, i);
    var p := Flat(d, g, j);
    hide Nodes, CalcHash, Flat, AnyMatch, Width, Depth, Pow2, Root, Build, Shaped;
    BuildStep(leaves, matches, pair, h, i);
    if p == Flat(d, h, i) {
      OwnNode(leaves, matches, pair, h, i, g, j);
    } else {
      NodesStep(t, d, pair, h, i, p);
      if h > 0 && AnyMatch(matches, h, i) {
        BuiltNode(leaves, matches, pair, h - 1, 2 * i, g, j);
        if 2 * i + 1 < Width(n, h - 1) {
          BuiltNode(leaves, matches, pair, h - 1, 2 * i + 1, g, j);
        }
      }
    }
  }

  lemma {:induction false} BuildStep(leaves: seq<Hash>, matches: seq<bool>, pair: PairHash, h: nat, i: nat)
    requires |matches| == |leaves| && i < Width(|leaves|, h)
    ensures h > 0 ==> 2 * i < Width(|leaves|, h - 1)
    ensures Build(leaves, matches, pair, h, i) ==
      if h == 0 then Leaf(leaves[i], matches[i])
      else if !AnyMatch(matches, h, i) then Pruned(CalcHash(leaves, pair, h, i))
      else if 2 * i + 1 < Width(|leaves|, h - 1) then
        Both(Build(leaves, matches, pair, h - 1, 2 * i), Build(leaves, matches, pair, h - 1, 2 * i + 1))
      else Single(Build(leaves, matches, pair, h - 1, 2 * i))
  {
    hide CalcHash, AnyMatch;
    if h > 0 {
      NodeBounds(|leaves|, h, i);
    }
  }

  lemma {:induction false} OwnNode(leaves: seq<Hash>, matches: seq<bool>, pair: PairHash, h: nat, i: nat, g: nat, j: nat)
    requires |matches| == |leaves| && h <= Depth(|leaves|) && i < Width(|leaves|, h)
    requires g <= Depth(|leaves|) && j < Width(|leaves|, g)
    requires Flat(Depth(|leaves|), g, j) == Flat(Depth(|leaves|), h, i)
    ensures
      var d := Depth(|leaves|);
      var nodes := Nodes(Build(leaves, matches, pair, h, i), d, pair, h, i);
      Flat(d, g, j) in nodes && nodes[Flat(d, g, j)] == CalcHash(leaves, pair, g, j)
  {
    var n, d, t := |leaves|, Depth(|leaves|), Build(leaves, matches, pair, h, i);
    hide Nodes, CalcHash, Flat, Width, Depth, Pow2, Root, Build;
    WidthFits(n, h);
    WidthFits(n, g);
    FlatInjective(d, h, i, g, j);
    RecordsOwnHash(t, d, pair, h, i);
    BuildHasRealRoot(leaves, matches, pair, h, i);
  }

  /** The message shows the parent of the first two leaves of a full tree, and that node's hash is the
      id: the leaf row is full, and one of the first four leaves is matched or there are only two. */
  predicate IsShownParent(leaves: seq<Hash>, matches: seq<bool>, pair: PairHash, id: Hash) {
    && |leaves| >= 2 && |leaves| == Pow2(Depth(|leaves|)) && id == pair(leaves[0], leaves[1])
    && (|leaves| == 2 || AnyMatch(matches, 2, 0))
  }

  /** The first node above the leaves is recorded exactly when its parent is opened. */
  lemma {:induction false} FirstParentRecorded(leaves: seq<Hash>, matches: seq<bool>, pair: PairHash, h: nat)
    requires |matches| == |leaves| && 1 <= h <= Depth(|leaves|) && 0 < Width(|leaves|, h)
    ensures
      var d := Depth(|leaves|);
      Flat(d, 1, 0) in Nodes(Build(leaves, matches, pair, h, 0), d, pair, h, 0) <==> h == 1 || AnyMatch(matches, 2, 0)
    decreases h
  {
    var n, d, t := |leaves|, Depth(|leaves|), Build(leaves, matches, pair, h, 0);
    hide Nodes, CalcHash, Flat, Width, Depth, Root, Build, Shaped, AnyMatch, Pow2;
    BuildStep(leaves, matches, pair, h, 0);
    if h == 1 {
      RecordsOwnHash(t, d, pair, 1, 0);
    } else {
      OpenedAbove(matches, h);
      FirstNodesDiffer(d, h);
      NodesStep(t, d, pair, h, 0, Flat(d, 1, 0));
      if AnyMatch(matches, h, 0) {
        FirstParentRecorded(leaves, matches, pair, h - 1);
        if 1 < Width(n, h - 1) {
          RightHalfElsewhere(leaves, matches, pair, h - 1);
        }
      }
    }
  }

  lemma {:induction false} UpZero(k: nat)
    ensures Up(0, k) == 0
  {
    if k > 0 {
      UpZero(k - 1);
    }
  }

  lemma {:induction false} OpenedAbove(matches: seq<bool>, h: nat)
    requires h >= 2
    ensures AnyMatch(matches, 2, 0) ==> AnyMatch(matches, h, 0)
  {
    hide AnyMatch;
    UpZero(h - 2);
    if AnyMatch(matches, 2, 0) {
      AncestorMatches(matches, 2, 0, h - 2);
    }
  }

  lemma {:induction false} FirstNodesDiffer(d: nat, h: nat)
    requires 2 <= h <= d
    ensures Flat(d, 1, 0) != Flat(d, h, 0)
  {
    assert 0 < Pow2(d - h) && 0 < Pow2(d - 1);
    hide Flat, Pow2;
    if Flat(d, 1, 0) == Flat(d, h, 0) {
      FlatInjective(d, h, 0, 1, 0);
    }
  }

  lemma {:induction false} RightHalfElsewhere(leaves: seq<Hash>, matches: seq<bool>, pair: PairHash, h: nat)
    requires |matches| == |leaves| && 1 <= h < Depth(|leaves|) && 1 < Width(|leaves|, h)
    ensures
      var d := Depth(|leaves|);
      Flat(d, 1, 0) !in Nodes(Build(leaves, matches, pair, h, 1), d, pair, h, 1)
  {
    var d := Depth(|leaves|);
    var t := Build(leaves, matches, pair, h, 1);
    hide Nodes, CalcHash, Width, Depth, Root, Build, Shaped, AnyMatch, Flat, Base;
    NodesAreUnder(t, |leaves|, pair, h, 1);
    FlatIsUnder(d, 1, 0);
    LevelOfFlat(d, 1, 0);
    UpZero(h - 1);
  }

  /** In a block from the builder the search finds an interior node under the id exactly when the id
      is that parent's hash. */
  lemma {:induction false} SearchMeetsParentIff(m: Message, leaves: seq<Hash>, matches: seq<bool>, pair: PairHash, id: Hash)
    requires |matches| == |leaves| && 1 <= |leaves| <= MAX_TXS
    requires Carries(m, leaves, matches, pair) && m.root == MerkleRoot(leaves, pair)
    requires ExposedSiblingsDiffer(leaves, matches, pair)
    ensures m.transactions == |leaves| && Check(m, pair).Accepted?
    ensures ShowsAt(m, pair, id, m.transactions) <==> IsShownParent(leaves, matches, pair, id)
  {
    var n, d := |leaves|, Depth(|leaves|);
    CheckOfBuilt(m, leaves, matches, pair);
    var t := Build(leaves, matches, pair, d, 0);
    assert Shown(m, pair) == Nodes(t, d, pair, d, 0);
    hide Build, Check, MerkleRoot, ExposedSiblingsDiffer, Nodes, LevelOf, AnyMatch, Shown, Carries;
    if n in Nodes(t, d, pair, d, 0) {
      ExtraPositionIsFull(t, n, pair);
    }
    if n >= 2 && n == Pow2(d) {
      WidthAtDepth(n, 1);
      FirstAboveLeaves(d);
      BuiltNode(leaves, matches, pair, d, 0, 1, 0);
      FirstParentHash(leaves, pair);
      FirstParentRecorded(leaves, matches, pair, d);
      DepthOfTwo(n);
    }
  }

  lemma {:induction false} DepthOfTwo(n: nat)
    requires n >= 2
    ensures Depth(n) >= 1 && (Depth(n) == 1 <==> n == 2)
  {
    if n > 2 {
      assert Depth((n + 1) / 2) >= 1;
    } else {
      assert Depth(1) == 0;
    }
  }

  lemma {:induction false} FirstAboveLeaves(d: nat)
    requires d > 0
    ensures Flat(d, 1, 0) == Pow2(d)
  {
    LevelSizes(d, 0);
  }

  lemma {:induction false} FirstParentHash(leaves: seq<Hash>, pair: PairHash)
    requires |leaves| >= 2
    ensures 0 < Width(|leaves|, 1) && CalcHash(leaves, pair, 1, 0) == pair(leaves[0], leaves[1])
  {
    CalcHashStep(leaves, pair, 1, 0);
    LeafHash(leaves, pair, 0);
    LeafHash(leaves, pair, 1);
  }

  /** The extractor accepts a built message exactly when it keeps all the flags of the built tree. */
  lemma {:induction false} ExtractedOfBuilt(m: Message, leaves: seq<Hash>, matches: seq<bool>, pair: PairHash)
    requires |matches| == |leaves| && 1 <= |leaves| <= MAX_TXS
    requires Carries(m, leaves, matches, pair) && m.root == MerkleRoot(leaves, pair)
    requires ExposedSiblingsDiffer(leaves, matches, pair)
    ensures Check(m, pair).Accepted?
    ensures Extracted(m, pair).Accepted? <==> FlagCount(leaves, matches, pair) <= |SeenBits(m.flags)|
  {
    hide Build, Check, Extracted, MerkleRoot, ExposedSiblingsDiffer, Carries, SeenBits, Bits;
    CheckOfBuilt(m, leaves, matches, pair);
    ExtractedIff(m, pair);
  }

  /** The number of flags of the message built for a block. */
  function FlagCount(leaves: seq<Hash>, matches: seq<bool>, pair: PairHash): nat
    requires |matches| == |leaves| >= 1
  {
    |Bits(BuiltTree(leaves, matches, pair))|
  }

  /** Blocks of up to 2^30 transactions have fewer than 2^31 flags. */
  lemma {:induction false} FlagsFit(leaves: seq<Hash>, matches: seq<bool>, pair: PairHash)
    requires |matches| == |leaves| && 1 <= |leaves| <= 0x4000_0000
    ensures 1 <= FlagCount(leaves, matches, pair) < 0x8000_0000
  {
    var n, d := |leaves|, Depth(|leaves|);
    WidthAtDepth(n, d);
    Pow2Values();
    assert Pow2(31) == 2 * Pow2(30);
    DepthIsLeast(n);
    if d > 30 {
      Pow2Monotone(30, d - 1);
    }
    Pow2Monotone(d + 1, 31);
    hide Bits, Build, Shaped;
    BitsBound(Build(leaves, matches, pair, d, 0), n, d, 0);
  }

  /** For every block from the builder and every id the check returns: the extracted branch leads to the
      block's Merkle root, unless the id is the shown parent's hash; or the extractor has dropped flags
      of the tree, and refuses the message. */
  method BranchOfBuilt(m: Message, txId: Hash, pair: PairHash, ghost leaves: seq<Hash>, ghost matches: seq<bool>)
    returns (res: Result<Branch>)
    requires |matches| == |leaves| && 1 <= |leaves| <= MAX_TXS
    requires Carries(m, leaves, matches, pair) && m.root == MerkleRoot(leaves, pair)
    requires ExposedSiblingsDiffer(leaves, matches, pair)
    requires Answer(Check(m, pair)).Ok? && txId in Answer(Check(m, pair)).value
    ensures if FlagCount(leaves, matches, pair) <= |SeenBits(m.flags)|
            then IsShownParent(leaves, matches, pair, txId) || Leads(txId, res, m, pair)
            else res.Err?
  {
    hide Build, Check, Extracted, MerkleRoot, ExposedSiblingsDiffer, Nodes, Carries, SeenBits, Leads, FlagCount, IsShownParent;
    SearchMeetsParentIff(m, leaves, matches, pair, txId);
    ExtractedOfBuilt(m, leaves, matches, pair);
    res := GetTxMerkleBranch(m, txId, pair);
  }

  /** The branch leads from the id to the root. */
  ghost predicate Proves(id: Hash, b: Branch, root: Hash, pair: PairHash) {
    RootFromBranch(id, b.branches, b.index, pair) == root
  }

  ghost predicate NoneIsShownParent(leaves: seq<Hash>, matches: seq<bool>, pair: PairHash, ids: seq<Hash>) {
    forall id :: id in ids ==> !IsShownParent(leaves, matches, pair, id)
  }

  /** The message for given leaves and matches. */
  method BuildMessage(leaves: seq<Hash>, matches: seq<bool>, pair: PairHash) returns (m: Message)
    requires 1 <= |leaves| == |matches| <= MAX_TXS
    ensures m.transactions == |leaves| && Carries(m, leaves, matches, pair) && m.root == MerkleRoot(leaves, pair)
    ensures FlagCount(leaves, matches, pair) <= |SeenBits(m.flags)| <==> FlagCount(leaves, matches, pair) <= WORD - 8
  {
    hide Hashes, Bits, Build, Unpack, AsBytes, Zeros, MerkleRoot, CalcHash, SeenBits;
    var n := |leaves|;
    var height := TreeHeight(n);
    var mBlock := new MBlock(leaves, AsBytes(matches), matches, pair);
    WidthAtDepth(n, height);
    mBlock.TraverseAndBuild(height, 0);
    var depth := TreeDepth(n);
    CalcHashIsMerkleRoot(leaves, pair);
    ghost var t := BuiltTree(leaves, matches, pair);
    assert mBlock.bits == AsBytes(Bits(t)) && mBlock.finalHashes == Hashes(t);
    var flags := Pack(mBlock.bits, Bits(t));
    m := Message(CalcHash(leaves, pair, depth, 0), n, mBlock.finalHashes, flags);
    BitsBound(t, n, height, 0);
    DepthAtMost31(n);
    SeenOfPacked(m.flags, |Bits(t)|, height);
  }

  /** The repository's own test, on all inputs: build a block's message from leaves and matches, check
      it, and extract the branch of every id returned. The check returns the matched leaves, or the
      duplicate error exactly when two exposed siblings hash alike. Every branch leads to the block's
      Merkle root, if the flags fill fewer than 2^29 bytes; else there is no branch at all. */
  method BuildCheckExtract(leaves: seq<Hash>, matches: seq<bool>, pair: PairHash)
    returns (ids: Result<seq<Hash>>, branches: seq<Branch>)
    requires 1 <= |leaves| == |matches| <= MAX_TXS
    ensures ids ==
      if ExposedSiblingsDiffer(leaves, matches, pair) then Ok(Ids(Select(leaves, matches, 0, |leaves|)))
      else Err(DuplicateHash)
    ensures ids.Ok? && FlagCount(leaves, matches, pair) > WORD - 8 ==> branches == []
    ensures ids.Ok? && FlagCount(leaves, matches, pair) <= WORD - 8 && NoneIsShownParent(leaves, matches, pair, ids.value) ==>
      && |branches| == |ids.value|
      && forall k :: 0 <= k < |branches| ==> Proves(ids.value[k], branches[k], MerkleRoot(leaves, pair), pair)
  {
    hide Build, MerkleRoot, Check, Nodes, ExposedSiblingsDiffer, IsShownParent, Extracted, SeenBits, Leads;
    hide FlagCount, Carries, Proves;
    var m := BuildMessage(leaves, matches, pair);
    RoundTrip(m, leaves, matches, pair);
    ids := CheckMerkleBlock(m, pair);
    branches := [];
    if ids.Err? {
      return;
    }
    ghost var kept := FlagCount(leaves, matches, pair) <= |SeenBits(m.flags)|;
    var k := 0;
    while k < |ids.value|
      invariant 0 <= k <= |ids.value| && |branches| == k
      invariant kept || k == 0
      invariant forall j :: 0 <= j < k && !IsShownParent(leaves, matches, pair, ids.value[j]) ==>
        Proves(ids.value[j], branches[j], m.root, pair)
    {
      var res := BranchOfBuilt(m, ids.value[k], pair, leaves, matches);
      LeadsProves(ids.value[k], res, m, pair);
      if res.Err? {
        return;
      }
      branches := branches + [res.value];
      k := k + 1;
    }
  }

  lemma {:induction false} LeadsProves(id: Hash, res: Result<Branch>, m: Message, pair: PairHash)
    ensures Leads(id, res, m, pair) ==> res.Ok? && Proves(id, res.value, m.root, pair)
  {
    hide RootFromBranch;
  }

  /** Flags packed into as few bytes as possible are all kept exactly when they fill fewer than 2^29. */
  lemma {:induction false} SeenOfPacked(flags: seq<byte>, count: nat, height: nat)
    requires |flags| == (count + 7) / 8 && 1 <= count <= Pow2(height + 1) - 1 && height <= 31
    ensures count <= |SeenBits(flags)| <==> count <= WORD - 8
  {
    Pow2Values();
    Pow2Monotone(height + 1, 32);
    hide Pow2, Unpack;
  }
}
