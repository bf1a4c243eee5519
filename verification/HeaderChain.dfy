/** Trees of stored headers, their paths to genesis, and the invariant of the best chain
    (blockchain/blockchain.go). */
module HeaderChain {
  import opened BloomFilter
  import opened Difficulty
  import opened MerkleTree
  import opened Word32

  /** A block as received. Its hash stands for the hash of its header. */
  datatype Block = Block(hash: Hash, previous: Hash, bits: uint32, powHash: seq<byte>, txs: seq<Tx>)

  datatype Header = Header(hash: Hash, previous: Hash, bits: uint32, height: nat, totalWork: nat)

  type Headers = map<Hash, Header>

  /** Everything is stored under its own hash and hangs, through valid headers, off genesis g. */
  ghost predicate Linked(H: Headers, g: Hash) {
    && g in H && H[g].hash == g && H[g].height == 0 && H[g].totalWork == 0 && H[g].previous !in H
    && forall x :: x in H && x != g ==> ChildOf(H, x)
  }

  ghost predicate ChildOf(H: Headers, x: Hash)
    requires x in H
  {
    && H[x].hash == x && H[x].previous in H
    && H[x].height == H[H[x].previous].height + 1
    && H[x].totalWork == H[H[x].previous].totalWork + CalcWork(H[x].bits)
    && CalcWork(H[x].bits) >= 2
  }

  // ----- ancestors -----

  /** The ancestor-or-self of x at height k. */
  ghost function At(H: Headers, g: Hash, x: Hash, k: nat): (a: Hash)
    requires Linked(H, g) && x in H && k <= H[x].height
    ensures a in H && H[a].height == k
    decreases H[x].height
  {
    if H[x].height == k then x else assert ChildOf(H, x); At(H, g, H[x].previous, k)
  }

  ghost predicate IsAncestor(H: Headers, g: Hash, a: Hash, x: Hash)
    requires Linked(H, g) && x in H
  {
    a in H && H[a].height <= H[x].height && At(H, g, x, H[a].height) == a
  }

  lemma {:induction false} OnlyGenesisAtZero(H: Headers, g: Hash, x: Hash)
    requires Linked(H, g) && x in H
    ensures H[x].height == 0 <==> x == g
    ensures x != g ==> H[x].previous in H && H[x].height == H[H[x].previous].height + 1
  {
    assert x != g ==> ChildOf(H, x);
  }

  lemma {:induction false} StoredHash(H: Headers, g: Hash, x: Hash)
    requires Linked(H, g) && x in H
    ensures H[x].hash == x
  {
    assert x != g ==> ChildOf(H, x);
  }

  lemma {:induction false} AtZero(H: Headers, g: Hash, x: Hash)
    requires Linked(H, g) && x in H
    ensures At(H, g, x, 0) == g
  {
    OnlyGenesisAtZero(H, g, At(H, g, x, 0));
  }

  lemma {:induction false} AtThrough(H: Headers, g: Hash, x: Hash, k: nat, j: nat)
    requires Linked(H, g) && x in H && j <= k <= H[x].height
    ensures At(H, g, At(H, g, x, k), j) == At(H, g, x, j)
    decreases H[x].height
  {
    if k < H[x].height {
      assert ChildOf(H, x);
      AtThrough(H, g, H[x].previous, k, j);
    }
  }

  /** Stepping back from the ancestor at height k + 1 gives the ancestor at height k. */
  lemma {:induction false} AtPrevious(H: Headers, g: Hash, x: Hash, k: nat)
    requires Linked(H, g) && x in H && k < H[x].height
    ensures H[At(H, g, x, k + 1)].previous == At(H, g, x, k)
  {
    hide Linked;
    var y := At(H, g, x, k + 1);
    AtThrough(H, g, x, k + 1, k);
    AtParent(H, g, y);
  }

  lemma {:induction false} AtParent(H: Headers, g: Hash, y: Hash)
    requires Linked(H, g) && y in H && H[y].height > 0
    ensures At(H, g, y, H[y].height - 1) == H[y].previous
  {
    OnlyGenesisAtZero(H, g, y);
    assert ChildOf(H, y);
  }

  /** Two paths that meet at height k agree below it. */
  lemma {:induction false} MeetOnce(H: Headers, g: Hash, x: Hash, y: Hash, k: nat, j: nat)
    requires Linked(H, g) && x in H && y in H
    requires j <= k <= H[x].height && k <= H[y].height && At(H, g, x, k) == At(H, g, y, k)
    ensures At(H, g, x, j) == At(H, g, y, j)
  {
    AtThrough(H, g, x, k, j);
    AtThrough(H, g, y, k, j);
  }

  /** Adding headers does not move the ancestors of those already there. */
  lemma {:induction false} AtStable(H: Headers, H': Headers, g: Hash, x: Hash, k: nat)
    requires Linked(H, g) && Linked(H', g) && x in H && k <= H[x].height
    requires forall y :: y in H ==> y in H' && H'[y] == H[y]
    ensures At(H', g, x, k) == At(H, g, x, k)
    decreases H[x].height
  {
    if H[x].height > k {
      assert ChildOf(H, x);
      AtStable(H, H', g, H[x].previous, k);
    }
  }

  // ----- work -----

  /** Sum of the work of the headers from x back to genesis, which counts nothing. */
  ghost function PathWork(H: Headers, g: Hash, x: Hash): nat
    requires Linked(H, g) && x in H
    decreases H[x].height
  {
    if x == g then 0 else assert ChildOf(H, x); CalcWork(H[x].bits) + PathWork(H, g, H[x].previous)
  }

  /** The recorded total work is the work of the whole path, and it grows strictly along it. */
  lemma {:induction false} TotalWorkIsPathWork(H: Headers, g: Hash, x: Hash)
    requires Linked(H, g) && x in H
    ensures H[x].totalWork == PathWork(H, g, x)
    decreases H[x].height
  {
    if x != g {
      assert ChildOf(H, x);
      TotalWorkIsPathWork(H, g, H[x].previous);
    }
  }

  lemma {:induction false} WorkGrows(H: Headers, g: Hash, x: Hash, k: nat)
    requires Linked(H, g) && x in H && k <= H[x].height
    ensures H[At(H, g, x, k)].totalWork + 2 * (H[x].height - k) <= H[x].totalWork
    decreases H[x].height
  {
    if k < H[x].height {
      assert ChildOf(H, x);
      WorkGrows(H, g, H[x].previous, k);
    }
  }

  // ----- the best chain -----

  /** The tip is stored and no stored header has more work. */
  ghost predicate Best(H: Headers, g: Hash, tip: Hash) {
    Linked(H, g) && tip in H && forall x :: x in H ==> H[x].totalWork <= H[tip].totalWork
  }

  datatype Outcome =
    | Orphan
    | Invalid
    | Known
    | Stored(newTip: bool, reorg: bool, newHeight: nat)

  function HeaderOf(b: Block, parent: Header): Header {
    Header(b.hash, b.previous, b.bits, parent.height + 1, parent.totalWork + CalcWork(b.bits))
  }

  /** What committing b does to the headers and the tip. */
  function CommitOutcome(H: Headers, tip: Hash, b: Block): Outcome
    requires tip in H
  {
    if b.previous !in H then Orphan
    else if !ValidPow(b.bits, b.powHash) then Invalid
    else if b.hash == tip then Known
    else
      var h := HeaderOf(b, H[b.previous]);
      var newTip := h.totalWork > H[tip].totalWork;
      Stored(newTip, newTip && tip != b.previous, h.height)
  }

  /** The rules of a commit, in terms of the stored headers and of numbers. */
  lemma {:induction false} OutcomeRules(H: Headers, tip: Hash, b: Block)
    requires tip in H
    ensures
      var passes := 0 < Target(b.bits) < Pow2(255) && LittleEndian(b.powHash) <= Target(b.bits);
      var H', tip' := NextHeaders(H, tip, b), NextTip(H, tip, b);
      match CommitOutcome(H, tip, b)
      case Orphan => b.previous !in H && H' == H && tip' == tip
      case Invalid => b.previous in H && !passes && H' == H && tip' == tip
      case Known => b.previous in H && passes && b.hash == tip && H' == H && tip' == tip
      case Stored(newTip, reorg, newHeight) =>
        && b.previous in H && passes && b.hash != tip
        && H'.Keys == H.Keys + {b.hash} && (forall x :: x in H && x != b.hash ==> H'[x] == H[x])
        && H'[b.hash].height == newHeight == H[b.previous].height + 1
        && H'[b.hash].totalWork == H[b.previous].totalWork + CalcWork(b.bits)
        && (newTip <==> H'[b.hash].totalWork > H[tip].totalWork) && tip' == (if newTip then b.hash else tip)
        && (reorg <==> newTip && tip != b.previous)
  {
    hide Target, LittleEndian, CalcWork, Pow2;
  }

  function NextHeaders(H: Headers, tip: Hash, b: Block): Headers
    requires tip in H
  {
    if CommitOutcome(H, tip, b).Stored? then H[b.hash := HeaderOf(b, H[b.previous])] else H
  }

  function NextTip(H: Headers, tip: Hash, b: Block): Hash
    requires tip in H
  {
    var o := CommitOutcome(H, tip, b);
    if o.Stored? && o.newTip then b.hash else tip
  }

  /** A block hash determines the block, and no block hashes to what genesis calls its parent. */
  ghost predicate Consistent(H: Headers, g: Hash, b: Block) {
    && (b.hash in H ==> b.previous == H[b.hash].previous && b.bits == H[b.hash].bits)
    && (g in H ==> b.hash != H[g].previous)
  }

  /** A block that is committed again changes nothing. */
  lemma {:induction false} AgainIsSame(H: Headers, g: Hash, tip: Hash, b: Block)
    requires Best(H, g, tip) && Consistent(H, g, b) && b.hash in H
    ensures NextHeaders(H, tip, b) == H && NextTip(H, tip, b) == tip
  {
    if CommitOutcome(H, tip, b).Stored? {
      assert b.hash != g;
      assert ChildOf(H, b.hash);
      assert H[b.hash] == HeaderOf(b, H[b.previous]);
    }
  }

  /** Every commit keeps the tree linked and the tip of maximal work; the tip moves only to a
      header of strictly more work; stored headers never change. */
  lemma {:induction false} CommitKeepsBest(H: Headers, g: Hash, tip: Hash, b: Block)
    requires Best(H, g, tip) && Consistent(H, g, b)
    ensures var H', tip' := NextHeaders(H, tip, b), NextTip(H, tip, b);
      && Best(H', g, tip')
      && (tip' != tip ==> H'[tip'].totalWork > H[tip].totalWork)
      && (forall x :: x in H ==> x in H' && H'[x] == H[x])
  {
    var H' := NextHeaders(H, tip, b);
    if b.hash in H {
      AgainIsSame(H, g, tip, b);
    } else if CommitOutcome(H, tip, b).Stored? {
      var h := HeaderOf(b, H[b.previous]);
      hide Linked, ChildOf, ValidPow, CalcWork;
      NewChild(H, b);
      LinkedGrows(H, g, h);
    }
  }

  lemma {:induction false} NewChild(H: Headers, b: Block)
    requires b.hash !in H && b.previous in H && ValidPow(b.bits, b.powHash)
    ensures ChildOf(H[b.hash := HeaderOf(b, H[b.previous])], b.hash)
  {
    ValidWorkBounds(b.bits, b.powHash);
    hide CalcWork, ValidPow;
  }

  lemma {:induction false} LinkedGrows(H: Headers, g: Hash, h: Header)
    requires Linked(H, g) && h.hash !in H && h.hash != H[g].previous && ChildOf(H[h.hash := h], h.hash)
    ensures Linked(H[h.hash := h], g)
  {
    hide CalcWork;
    var H' := H[h.hash := h];
    forall x | x in H' && x != g ensures ChildOf(H', x) {
      assert x in H ==> ChildOf(H, x);
    }
  }

  /** The headers after a run of commits from a lone genesis header. */
  function RunHeaders(g: Header, blocks: seq<Block>): (s: (Headers, Hash))
    ensures s.1 in s.0
  {
    if blocks == [] then (map[g.hash := g], g.hash)
    else
      var (H, tip) := RunHeaders(g, blocks[..|blocks| - 1]);
      (NextHeaders(H, tip, blocks[|blocks| - 1]), NextTip(H, tip, blocks[|blocks| - 1]))
  }

  /** What links a genesis header and blocks to the blocks their hashes stand for. */
  ghost predicate WorldOf(genesis: Header, blocks: seq<Block>, world: Hash -> Block) {
    && genesis.height == 0 && genesis.totalWork == 0 && genesis.hash != genesis.previous
    && world(genesis.hash).previous == genesis.previous && world(genesis.hash).bits == genesis.bits
    && forall b :: b in blocks ==> world(b.hash) == b && b.hash != genesis.previous
  }

  /** Every header comes from the block its hash stands for, and all but genesis have proof of work. */
  ghost predicate AsReceived(H: Headers, g: Hash, world: Hash -> Block) {
    && (forall x :: x in H ==> H[x].previous == world(x).previous && H[x].bits == world(x).bits)
    && (forall x :: x in H && x != g ==>
          0 < Target(H[x].bits) < Pow2(255) && LittleEndian(world(x).powHash) <= Target(H[x].bits))
  }

  lemma {:induction false} ReceivedNext(H: Headers, g: Hash, tip: Hash, b: Block, world: Hash -> Block)
    requires tip in H && AsReceived(H, g, world) && world(b.hash) == b
    ensures AsReceived(NextHeaders(H, tip, b), g, world)
  {
    hide Target, LittleEndian, Pow2, CalcWork;
  }

  lemma {:induction false} ReceivedIsConsistent(H: Headers, g: Hash, b: Block, world: Hash -> Block)
    requires AsReceived(H, g, world) && world(b.hash) == b && (g in H ==> b.hash != H[g].previous)
    ensures Consistent(H, g, b)
  {
    hide Target, LittleEndian, Pow2;
  }

  lemma {:induction false} ReceivedOverEveryRun(g: Header, blocks: seq<Block>, world: Hash -> Block)
    requires WorldOf(g, blocks, world)
    ensures var (H, tip) := RunHeaders(g, blocks);
      Best(H, g.hash, tip) && AsReceived(H, g.hash, world) && H[g.hash] == g
  {
    if blocks == [] {
      assert AsReceived(map[g.hash := g], g.hash, world);
    } else {
      var front, b := blocks[..|blocks| - 1], blocks[|blocks| - 1];
      assert b in blocks && forall c :: c in front ==> c in blocks;
      ReceivedOverEveryRun(g, front, world);
      var (H, tip) := RunHeaders(g, front);
      hide AsReceived, NextHeaders, NextTip;
      ReceivedIsConsistent(H, g.hash, b, world);
      CommitKeepsBest(H, g.hash, tip, b);
      ReceivedNext(H, g.hash, tip, b, world);
      NextKeepsGenesis(H, g, tip, b);
    }
  }

  lemma {:induction false} NextKeepsGenesis(H: Headers, g: Header, tip: Hash, b: Block)
    requires g.hash in H && H[g.hash] == g && Best(H, g.hash, tip) && Consistent(H, g.hash, b)
    ensures g.hash in NextHeaders(H, tip, b) && NextHeaders(H, tip, b)[g.hash] == g
  {
    CommitKeepsBest(H, g.hash, tip, b);
  }

  /** Over every run: closed under parents, heights and total work exact, tip maximal. */
  lemma {:induction false} BestOverEveryRun(g: Header, blocks: seq<Block>, world: Hash -> Block)
    requires WorldOf(g, blocks, world)
    ensures var (H, tip) := RunHeaders(g, blocks);
      && Best(H, g.hash, tip)
      && (forall x :: x in H ==> H[x].previous == world(x).previous && H[x].bits == world(x).bits)
      && (forall x :: x in H && x != g.hash ==>
            0 < Target(H[x].bits) < Pow2(255) && LittleEndian(world(x).powHash) <= Target(H[x].bits))
      && H[g.hash] == g
  {
    ReceivedOverEveryRun(g, blocks, world);
    hide RunHeaders, Best, Target, LittleEndian, Pow2;
  }

  // ----- the locator -----

  /** How far below the tip entry i of the locator is: gaps double every nine entries. */
  function LocatorGap(i: nat): nat {
    if i == 0 then 0 else LocatorGap(i - 1) + Pow2((i - 1) / 9)
  }

  /** Nine entries one apart, nine two apart, and so on. */
  lemma {:induction false} LocatorGapIs(k: nat, r: nat)
    requires r <= 9
    ensures LocatorGap(9 * k + r) == 9 * (Pow2(k) - 1) + r * Pow2(k)
    decreases k, r
  {
    if r > 0 {
      LocatorGapIs(k, r - 1);
      assert (9 * k + r - 1) / 9 == k;
      MulDistribute(r - 1, 1, Pow2(k));
    } else if k > 0 {
      LocatorGapIs(k - 1, 9);
      assert 9 * (k - 1) + 9 == 9 * k;
    }
  }

  lemma {:induction false} LocatorGapGrows(i: nat, j: nat)
    requires i < j
    ensures LocatorGap(i) < LocatorGap(j)
    decreases j - i
  {
    if i + 1 < j {
      LocatorGapGrows(i, j - 1);
    }
  }
}
