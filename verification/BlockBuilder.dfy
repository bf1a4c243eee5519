/** bloom/merkleblock.go: NewMerkleBlock, and what the receiving side makes of its message. */
module BlockBuilder {
  import opened BloomFilter
  import opened FlagBits
  import opened MerkleBlock
  import opened MerkleTree
  import opened PartialTree
  import opened Position
  import opened Word32

  /** The intermediate state of the builder. */
  class MBlock {
    const numTx: uint32
    const allHashes: seq<Hash>
    const matchedBits: seq<byte>
    ghost const matches: seq<bool>
    const pair: PairHash
    var finalHashes: seq<Hash>
    var bits: seq<byte>

    constructor (allHashes: seq<Hash>, matchedBits: seq<byte>, ghost matches: seq<bool>, pair: PairHash)
      requires |allHashes| == |matches| <= MAX_TXS && matchedBits == AsBytes(matches)
      ensures Valid() && finalHashes == [] && bits == []
      ensures this.allHashes == allHashes && this.matches == matches && this.pair == pair
    {
      this.numTx, this.allHashes, this.matchedBits := |allHashes|, allHashes, matchedBits;
      this.matches, this.pair := matches, pair;
      this.finalHashes, this.bits := [], [];
    }

    ghost predicate Valid() {
      numTx == |allHashes| == |matches| <= MAX_TXS && matchedBits == AsBytes(matches)
    }

    /** OR of the match bits of all transactions below node (height, pos). */
    method IsParent(height: nat, pos: nat) returns (isParent: byte)
      requires Valid() && height <= Depth(numTx) && pos < Width(numTx, height)
      ensures isParent == AsByte(AnyMatch(matches, height, pos))
    {
      ShiftsInRange(numTx, height, pos);
      HalvesOfRange(height, pos);
      AnyMatchScans(matches, height, pos);
      hide AnyMatch, Shl, First;
      isParent := 0;
      var i: nat := Shl(pos, height);
      var end := Shl(pos + 1, height);
      while i < end && i < numTx
        invariant First(height, pos) <= i <= First(height, pos + 1)
        invariant isParent == AsByte(exists k :: First(height, pos) <= k < i && k < |matches| && matches[k])
      {
        isParent := isParent | matchedBits[i];
        i := i + 1;
      }
    }

    /** Append the partial tree below node (height, pos) in depth-first order. */
    method TraverseAndBuild(height: nat, pos: nat)
      requires Valid() && height <= Depth(numTx) && pos < Width(numTx, height)
      modifies this
      ensures bits == old(bits) + AsBytes(Bits(Build(allHashes, matches, pair, height, pos)))
      ensures finalHashes == old(finalHashes) + Hashes(Build(allHashes, matches, pair, height, pos))
      decreases height
    {
      hide AnyMatch, AsBytes, CalcHash, Hashes, Bits, Build;
      ghost var bits0, hashes0 := bits, finalHashes;
      BuildNode(allHashes, matches, pair, height, pos);
      var isParent := IsParent(height, pos);
      bits := bits + [isParent];
      if height == 0 || isParent == 0 {
        finalHashes := finalHashes + [CalcHash(allHashes, pair, height, pos)];
        return;
      }
      TraverseAndBuild(height - 1, 2 * pos);
      DepthAtMost31(numTx);
      CalcTreeWidthIsWidth(numTx, height - 1);
      if 2 * pos + 1 < CalcTreeWidth(numTx, height - 1) {
        TraverseAndBuild(height - 1, 2 * pos + 1);
      }
    }
  }

  /** The two shifts that bound the scan of IsParent do not wrap. */
  lemma {:induction false} ShiftsInRange(n: nat, h: nat, i: nat)
    requires n <= MAX_TXS && h <= Depth(n) && i < Width(n, h)
    ensures Shl(i, h) == First(h, i) && Shl(i + 1, h) == First(h, i + 1)
    ensures First(h, i) < n
  {
    DepthAtMost31(n);
    ShlOne(Depth(n));
    WidthFits(n, h);
    NodeExists(n, h, i);
    HalvesOfRange(h, i);
    Pow2Add(Depth(n) - h, h);
    MulMonotone(i + 1, Pow2(Depth(n) - h), Pow2(h));
    hide First, Shl;
    ShlFits(i, h);
    ShlFits(i + 1, h);
  }

  lemma {:induction false} ShlFits(i: nat, h: nat)
    requires First(h, i) < WORD
    ensures Shl(i, h) == First(h, i)
  {
  }

  /** One level of the built tree, serialised. */
  lemma {:induction false} BuildNode(leaves: seq<Hash>, matches: seq<bool>, pair: PairHash, h: nat, i: nat)
    requires |matches| == |leaves| && i < Width(|leaves|, h)
    ensures var t := Build(leaves, matches, pair, h, i);
      var b := AsByte(AnyMatch(matches, h, i));
      if h == 0 || !AnyMatch(matches, h, i) then
        AsBytes(Bits(t)) == [b] && Hashes(t) == [CalcHash(leaves, pair, h, i)]
      else
        && 2 * i < Width(|leaves|, h - 1)
        && var l := Build(leaves, matches, pair, h - 1, 2 * i);
        if 2 * i + 1 < Width(|leaves|, h - 1) then
          var r := Build(leaves, matches, pair, h - 1, 2 * i + 1);
          AsBytes(Bits(t)) == [b] + AsBytes(Bits(l)) + AsBytes(Bits(r)) && Hashes(t) == Hashes(l) + Hashes(r)
        else AsBytes(Bits(t)) == [b] + AsBytes(Bits(l)) && Hashes(t) == Hashes(l)
  {
    var t := Build(leaves, matches, pair, h, i);
    if h > 0 && AnyMatch(matches, h, i) {
      assert AsBytes([true]) == [AsByte(true)];
      if t.Both? {
        AsBytesConcat([true] + Bits(t.left), Bits(t.right));
      }
      AsBytesConcat([true], Bits(t.left));
    }
  }

  /** The partial tree that a block's matches select. */
  function BuiltTree(leaves: seq<Hash>, matches: seq<bool>, pair: PairHash): PTree
    requires |matches| == |leaves| >= 1
  {
    WidthAtDepth(|leaves|, Depth(|leaves|));
    Build(leaves, matches, pair, Depth(|leaves|), 0)
  }

  ghost predicate Carries(m: Message, leaves: seq<Hash>, matches: seq<bool>, pair: PairHash)
    requires |matches| == |leaves| >= 1
  {
    var t := BuiltTree(leaves, matches, pair);
    && m.transactions == |leaves|
    && m.hashes == Hashes(t)
    && Bits(t) <= Unpack(m.flags)
  }

  function TxIds(txs: seq<Tx>): (ids: seq<Hash>)
    ensures |ids| == |txs|
  {
    seq(|txs|, k requires 0 <= k < |txs| => txs[k].id)
  }

  /** Positions of the matches, in order. */
  function Positions(matches: seq<bool>): seq<nat> {
    if matches == [] then []
    else Positions(matches[..|matches| - 1])
         + if matches[|matches| - 1] then [|matches| - 1] else []
  }

  /** They are the positions of all matches, each once. */
  lemma {:induction false} PositionsAreMatches(matches: seq<bool>)
    ensures forall k :: k in Positions(matches) <==> 0 <= k < |matches| && matches[k]
    ensures forall i, j :: 0 <= i < j < |Positions(matches)| ==> Positions(matches)[i] < Positions(matches)[j]
  {
    if matches != [] {
      var front := Positions(matches[..|matches| - 1]);
      PositionsAreMatches(matches[..|matches| - 1]);
      forall i | 0 <= i < |front| ensures front[i] < |matches| - 1 {
        assert front[i] in front;
      }
    }
  }

  /** Filter completeness at the builder: a relevant transaction is among the matched indexes. */
  lemma {:induction false} RelevantIsIndexed(v: View, murmur: Murmur, txs: seq<Tx>, watched: set<Data>, k: nat)
    requires v.Valid() && k < |txs| && forall w :: w in watched ==> Matches(v, murmur, w)
    requires Relevant(watched, txs, k)
    ensures k in Positions(Scan(v, murmur, txs))
  {
    hide Relevant, Scan, Matches, Positions;
    RelevantIsMatched(v, murmur, txs, watched, k);
    PositionsAreMatches(Scan(v, murmur, txs));
  }

  /** The matching pass: the filter learns new outpoints as it goes. */
  method MatchAll(txs: seq<Tx>, bf: Filter)
    returns (allHashes: seq<Hash>, matchedBits: seq<byte>, matchedIndexes: seq<nat>)
    requires bf.Valid()
    modifies bf.Footprint()
    ensures allHashes == TxIds(txs)
    ensures matchedBits == AsBytes(Scan(old(bf.View()), bf.murmur, txs))
    ensures matchedIndexes == Positions(Scan(old(bf.View()), bf.murmur, txs))
    ensures bf.Valid() && bf.View() == Before(old(bf.View()), bf.murmur, txs, |txs|)
  {
    hide SomeOutput, TxMatches, AsBytes, Scan, TxIds, Positions, Before, AfterOutputs, SetBits;
    ghost var v := bf.View();
    allHashes, matchedBits, matchedIndexes := [], [], [];
    ScanStart(v, bf.murmur, txs);
    var i := 0;
    while i < |txs|
      invariant 0 <= i <= |txs| && bf.Valid()
      invariant matchedBits == AsBytes(Scan(v, bf.murmur, txs[..i]))
      invariant allHashes == TxIds(txs[..i])
      invariant matchedIndexes == Positions(Scan(v, bf.murmur, txs[..i]))
      invariant bf.View() == Before(v, bf.murmur, txs, i)
    {
      var matched := MatchFilter(txs[i], bf);
      ScanStep(v, bf.murmur, txs, i);
      if matched {
        matchedIndexes := matchedIndexes + [i];
      }
      matchedBits := matchedBits + [AsByte(matched)];
      allHashes := allHashes + [txs[i].id];
      i := i + 1;
    }
    assert txs[..|txs|] == txs;
  }

  lemma {:induction false} ScanStart(v: View, murmur: Murmur, txs: seq<Tx>)
    requires v.Valid()
    ensures AsBytes(Scan(v, murmur, txs[..0])) == [] && TxIds(txs[..0]) == []
    ensures Positions(Scan(v, murmur, txs[..0])) == [] && Before(v, murmur, txs, 0) == v
  {
  }

  lemma {:induction false} ScanStep(v: View, murmur: Murmur, txs: seq<Tx>, i: nat)
    requires v.Valid() && i < |txs|
    ensures var b := TxMatches(Before(v, murmur, txs, i), murmur, txs[i]);
      && AsBytes(Scan(v, murmur, txs[..i + 1])) == AsBytes(Scan(v, murmur, txs[..i])) + [AsByte(b)]
      && TxIds(txs[..i + 1]) == TxIds(txs[..i]) + [txs[i].id]
      && Before(v, murmur, txs, i + 1) == AfterOutputs(Before(v, murmur, txs, i), murmur, txs[i], |txs[i].outputs|)
      && Positions(Scan(v, murmur, txs[..i + 1]))
         == Positions(Scan(v, murmur, txs[..i])) + if b then [i] else []
  {
    var a, b := Scan(v, murmur, txs[..i]), TxMatches(Before(v, murmur, txs, i), murmur, txs[i]);
    hide Scan, Positions, TxMatches, AfterOutputs, AsBytes;
    assert TxIds(txs[..i + 1]) == TxIds(txs[..i]) + [txs[i].id];
    ScanSnoc(v, murmur, txs, i);
    AsBytesConcat(a, [b]);
    OneBit(b);
    PositionsSnoc(a, b);
  }

  lemma {:induction false} ScanSnoc(v: View, murmur: Murmur, txs: seq<Tx>, i: nat)
    requires v.Valid() && i < |txs|
    ensures Scan(v, murmur, txs[..i + 1])
         == Scan(v, murmur, txs[..i]) + [TxMatches(Before(v, murmur, txs, i), murmur, txs[i])]
  {
    hide TxMatches, Before;
    forall k | 0 <= k <= i
      ensures Before(v, murmur, txs[..i + 1], k) == Before(v, murmur, txs, k)
      ensures k < i ==> Before(v, murmur, txs[..i], k) == Before(v, murmur, txs, k)
    {
      BeforePrefix(v, murmur, txs, i + 1, k);
      if k < i {
        BeforePrefix(v, murmur, txs, i, k);
      }
    }
  }

  lemma {:induction false} BeforePrefix(v: View, murmur: Murmur, txs: seq<Tx>, n: nat, k: nat)
    requires v.Valid() && k <= n <= |txs|
    ensures Before(v, murmur, txs[..n], k) == Before(v, murmur, txs, k)
  {
    if k > 0 {
      BeforePrefix(v, murmur, txs, n, k - 1);
    }
  }

  lemma {:induction false} PositionsSnoc(a: seq<bool>, b: bool)
    ensures Positions(a + [b]) == Positions(a) + if b then [|a|] else []
  {
    assert (a + [b])[..|a|] == a;
  }

  /** The source builds a message for every non-empty block; an empty one has no leaf to hash. */
  method NewMerkleBlock(root: Hash, txs: seq<Tx>, bf: Filter, pair: PairHash)
    returns (m: Message, matchedIndexes: seq<nat>)
    requires 1 <= |txs| <= MAX_TXS && bf.Valid()
    modifies bf.Footprint()
    ensures m.root == root
    ensures Carries(m, TxIds(txs), Scan(old(bf.View()), bf.murmur, txs), pair)
    ensures var bits := Bits(BuiltTree(TxIds(txs), Scan(old(bf.View()), bf.murmur, txs), pair));
      |m.flags| == (|bits| + 7) / 8 && Unpack(m.flags) == bits + Zeros(8 * |m.flags| - |bits|)
    ensures matchedIndexes == Positions(Scan(old(bf.View()), bf.murmur, txs))
    ensures bf.Valid() && bf.View() == Before(old(bf.View()), bf.murmur, txs, |txs|)
  {
    hide Hashes, Bits, Build, Unpack, Width, Depth, SomeOutput, TxMatches, AsBytes, CalcTreeWidth, Scan, TxIds;
    hide Positions, Before, Zeros;
    ghost var matches := Scan(bf.View(), bf.murmur, txs);
    var allHashes, matchedBits;
    allHashes, matchedBits, matchedIndexes := MatchAll(txs, bf);
    var height := TreeHeight(|txs|);
    var mBlock := new MBlock(allHashes, matchedBits, matches, pair);
    WidthAtDepth(|txs|, height);
    mBlock.TraverseAndBuild(height, 0);
    ghost var t := Build(allHashes, matches, pair, height, 0);
    var flags := Pack(mBlock.bits, Bits(t));
    m := Message(root, |txs|, mBlock.finalHashes, flags);
  }

  lemma {:induction false} OneBit(b: bool)
    ensures AsBytes([b]) == [AsByte(b)]
  {
  }

  /** The builder's own height loop agrees with the parser's treeDepth. */
  method TreeHeight(n: uint32) returns (height: nat)
    requires 1 <= n <= MAX_TXS
    ensures height == Depth(n)
  {
    DepthAtMost31(n);
    height := 0;
    CalcTreeWidthIsWidth(n, 0);
    WidthAtDepth(n, 0);
    while CalcTreeWidth(n, height) > 1
      invariant height <= Depth(n) && CalcTreeWidth(n, height) == Width(n, height)
      invariant Width(n, height) == 1 <==> height == Depth(n)
      invariant Width(n, height) >= 1
      decreases Depth(n) - height
    {
      height := height + 1;
      CalcTreeWidthIsWidth(n, height);
      WidthAtDepth(n, height);
    }
  }

  // ----- what the receiver concludes -----

  /** Checked against the block's Merkle root, the message is parsed back into the very tree that was
      built, unless two exposed siblings hash alike. */
  lemma {:induction false} CheckOfBuilt(m: Message, leaves: seq<Hash>, matches: seq<bool>, pair: PairHash)
    requires |matches| == |leaves| && 1 <= |leaves| <= MAX_TXS
    requires Carries(m, leaves, matches, pair) && m.root == MerkleRoot(leaves, pair)
    ensures Width(|leaves|, Depth(|leaves|)) == 1
    ensures Check(m, pair) ==
      if ExposedSiblingsDiffer(leaves, matches, pair) then Accepted(Build(leaves, matches, pair, Depth(|leaves|), 0))
      else Rejected(DuplicateHash)
  {
    hide Build, Hashes, Bits, NoTwins, Unpack, ExposedSiblingsDiffer, MerkleRoot, CalcHash, Parse;
    var n := |leaves|;
    var d := Depth(n);
    CalcHashIsMerkleRoot(leaves, pair);
    var t := Build(leaves, matches, pair, d, 0);
    var rest := Unpack(m.flags)[|Bits(t)|..];
    assert Unpack(m.flags) == Bits(t) + rest && m.hashes == Hashes(t) + [];
    BitsNonEmpty(t);
    ParseIsComplete(t, n, pair, d, 0, rest, []);
    TwinlessIffSiblingsDiffer(leaves, matches, pair);
    BuildHasRealRoot(leaves, matches, pair, d, 0);
  }

  /** Round trip. A message carrying a block's matches, checked against the block's Merkle root,
      is accepted exactly when no two exposed siblings hash alike; then the ids returned are the
      matched transactions in block order. */
  lemma {:induction false} RoundTrip(m: Message, leaves: seq<Hash>, matches: seq<bool>, pair: PairHash)
    requires |matches| == |leaves| && 1 <= |leaves| <= MAX_TXS
    requires Carries(m, leaves, matches, pair) && m.root == MerkleRoot(leaves, pair)
    ensures Answer(Check(m, pair)) ==
      if ExposedSiblingsDiffer(leaves, matches, pair)
      then StackParser.Ok(Ids(Select(leaves, matches, 0, |leaves|)))
      else StackParser.Err(DuplicateHash)
  {
    hide Build, Check, Carries, Select, ExposedSiblingsDiffer, MerkleRoot, First;
    CheckOfBuilt(m, leaves, matches, pair);
    BuildMatchesSelected(leaves, matches, pair, Depth(|leaves|), 0);
    WholeRange(leaves, matches);
  }

  lemma {:induction false} WholeRange(leaves: seq<Hash>, matches: seq<bool>)
    requires |matches| == |leaves| >= 1
    ensures First(Depth(|leaves|), 0) == 0 <= First(Depth(|leaves|), 1)
    ensures Select(leaves, matches, 0, First(Depth(|leaves|), 1)) == Select(leaves, matches, 0, |leaves|)
  {
    DepthIsLeast(|leaves|);
    SelectSplit(leaves, matches, 0, |leaves|, First(Depth(|leaves|), 1));
    SelectNone(leaves, matches, |leaves|, First(Depth(|leaves|), 1));
  }

  /** The found leaves are the matched leaves of the range, each once, in increasing position. */
  ghost predicate Picks(sel: seq<Found>, leaves: seq<Hash>, matches: seq<bool>, lo: nat, hi: nat)
    requires |matches| == |leaves| && hi <= |leaves|
  {
    && StrictlyIncreasing(sel) && RealLeaves(sel, leaves)
    && (forall k :: 0 <= k < |sel| ==> lo <= sel[k].index < hi && matches[sel[k].index])
    && (forall j :: lo <= j < hi && matches[j] ==> Found(j, leaves[j]) in sel)
  }

  lemma {:induction false} SelectIsExact(leaves: seq<Hash>, matches: seq<bool>, lo: nat, hi: nat)
    requires |matches| == |leaves| && lo <= hi <= |leaves|
    ensures Picks(Select(leaves, matches, lo, hi), leaves, matches, lo, hi)
    decreases hi - lo
  {
    hide Picks;
    if lo < hi {
      SelectIsExact(leaves, matches, lo + 1, hi);
      var rest := Select(leaves, matches, lo + 1, hi);
      assert [] + rest == rest;
      PicksNext(rest, leaves, matches, lo, hi);
    } else {
      assert Picks([], leaves, matches, lo, hi) by { NoneSelected(leaves, matches, lo); }
    }
  }

  lemma {:induction false} PicksNext(rest: seq<Found>, leaves: seq<Hash>, matches: seq<bool>, lo: nat, hi: nat)
    requires |matches| == |leaves| && lo < hi <= |leaves| && Picks(rest, leaves, matches, lo + 1, hi)
    ensures Picks(if matches[lo] then [Found(lo, leaves[lo])] + rest else rest, leaves, matches, lo, hi)
  {
    hide RealLeaves, StrictlyIncreasing;
    if matches[lo] {
      ConsSelected(rest, leaves, lo);
      var sel := [Found(lo, leaves[lo])] + rest;
      forall j | lo <= j < hi && matches[j] ensures Found(j, leaves[j]) in sel {
        assert j == lo || Found(j, leaves[j]) in rest;
      }
    }
  }

  lemma {:induction false} NoneSelected(leaves: seq<Hash>, matches: seq<bool>, lo: nat)
    requires |matches| == |leaves| && lo <= |leaves|
    ensures Picks([], leaves, matches, lo, lo)
  {
  }

  lemma {:induction false} ConsSelected(rest: seq<Found>, leaves: seq<Hash>, lo: nat)
    requires StrictlyIncreasing(rest) && RealLeaves(rest, leaves) && lo < |leaves|
    requires forall k :: 0 <= k < |rest| ==> lo < rest[k].index
    ensures StrictlyIncreasing([Found(lo, leaves[lo])] + rest) && RealLeaves([Found(lo, leaves[lo])] + rest, leaves)
  {
  }

  /** Exactly the matched leaves come back. */
  lemma {:induction false} MatchedIsReturned(m: Message, leaves: seq<Hash>, matches: seq<bool>, pair: PairHash, k: nat)
    requires |matches| == |leaves| && 1 <= |leaves| <= MAX_TXS
    requires Carries(m, leaves, matches, pair) && m.root == MerkleRoot(leaves, pair)
    requires ExposedSiblingsDiffer(leaves, matches, pair)
    requires k < |leaves| && matches[k]
    ensures Answer(Check(m, pair)).Ok? && leaves[k] in Answer(Check(m, pair)).value
  {
    hide Select, Check, Carries, MerkleRoot, ExposedSiblingsDiffer, Width, Depth;
    RoundTrip(m, leaves, matches, pair);
    SelectIsExact(leaves, matches, 0, |leaves|);
    var sel := Select(leaves, matches, 0, |leaves|);
    var j :| 0 <= j < |sel| && sel[j] == Found(k, leaves[k]);
    assert Ids(sel)[j] == leaves[k];
  }

  /** End to end: a relevant transaction of a block is among the ids that the receiver extracts
      from the merkle block built for it. */
  lemma {:induction false} RelevantReachesReceiver(
    m: Message, txs: seq<Tx>, v: View, murmur: Murmur, watched: set<Data>, pair: PairHash, k: nat)
    requires 1 <= |txs| <= MAX_TXS && v.Valid() && k < |txs|
    requires Carries(m, TxIds(txs), Scan(v, murmur, txs), pair) && m.root == MerkleRoot(TxIds(txs), pair)
    requires ExposedSiblingsDiffer(TxIds(txs), Scan(v, murmur, txs), pair)
    requires forall w :: w in watched ==> Matches(v, murmur, w)
    requires Relevant(watched, txs, k)
    ensures Answer(Check(m, pair)).Ok? && txs[k].id in Answer(Check(m, pair)).value
  {
    hide Relevant, Scan, Matches, Check, Carries, MerkleRoot, ExposedSiblingsDiffer, Width, Depth;
    RelevantIsMatched(v, murmur, txs, watched, k);
    MatchedIsReturned(m, TxIds(txs), Scan(v, murmur, txs), pair, k);
  }

  /** Soundness of the check on arbitrary hashes and flags, for every pair hash: if it accepts against
      the root of a real tree, the ids are leaves of that tree at strictly increasing positions, or two
      siblings of the tree in the message hash to a node of the real tree without being its children. */
  lemma {:induction false} AcceptedIdsAreRealOrForged(m: Message, leaves: seq<Hash>, pair: PairHash)
    returns (h: nat, i: nat, a: Hash, b: Hash)
    requires 1 <= |leaves| <= MAX_TXS && m.transactions == |leaves| && m.root == MerkleRoot(leaves, pair)
    requires Check(m, pair).Accepted?
    ensures var found := Matched(Check(m, pair).tree, 0);
      && Answer(Check(m, pair)) == StackParser.Ok(Ids(found)) && StrictlyIncreasing(found)
      && (RealLeaves(found, leaves) ||
          (Forges(leaves, pair, h, i, a, b) && HasChildren(Check(m, pair).tree, pair, a, b)))
  {
    hide Matched, MerkleRoot, CalcHash, Parse, RealLeaves, StrictlyIncreasing, Unpack, Bits, Hashes, NoTwins, Forges, HasChildren;
    var n := |leaves|;
    var d := Depth(n);
    CalcHashIsMerkleRoot(leaves, pair);
    ParseIsSound(n, pair, d, 0, Unpack(m.flags), m.hashes);
    var t := Check(m, pair).tree;
    h, i, a, b := SubtreeIsSoundOrForges(t, leaves, pair, d, 0);
    MatchedInRange(t, n, d, 0);
  }

  /** If no node of the real tree has a second preimage, the ids are real. */
  lemma {:induction false} AcceptedIdsAreReal(m: Message, leaves: seq<Hash>, pair: PairHash)
    requires 1 <= |leaves| <= MAX_TXS && m.transactions == |leaves|
    requires m.root == MerkleRoot(leaves, pair) && NoSecondPreimage(leaves, pair)
    ensures Check(m, pair).Accepted? ==>
      var found := Matched(Check(m, pair).tree, 0);
      && Answer(Check(m, pair)) == StackParser.Ok(Ids(found))
      && RealLeaves(found, leaves) && StrictlyIncreasing(found)
  {
    hide Check, MerkleRoot, RealLeaves, StrictlyIncreasing, Forges, HasChildren, Matched;
    if Check(m, pair).Accepted? {
      var h, i, a, b := AcceptedIdsAreRealOrForged(m, leaves, pair);
    }
  }
}
