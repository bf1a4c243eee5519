/** The full Merkle tree over a list of leaves, in (level, index) coordinates:
    level 0 holds the leaves, and an odd last node is paired with itself. */
module MerkleTree {
  import opened Word32

  /** A hash. Only equality matters to the trees, so its length is not fixed here. */
  datatype Hash = Hash(bytes: seq<byte>)

  /** The hash of the concatenation of a left and a right node. */
  type PairHash = (Hash, Hash) -> Hash

  /** Largest transaction count for which the source's 32-bit shifts keep their meaning. */
  const MAX_TXS: nat := 0x8000_0000

  /** Number of nodes at level h of the tree over n leaves. */
  function Width(n: nat, h: nat): nat {
    if h == 0 then n else (Width(n, h - 1) + 1) / 2
  }

  /** Height of the tree over n leaves. */
  function Depth(n: nat): nat {
    if n <= 1 then 0 else 1 + Depth((n + 1) / 2)
  }

  /** The width as the source computes it, wrap-around included. */
  function CalcTreeWidth(n: uint32, height: nat): uint32 {
    Shr(Sub(Add(n, Shl(1, height)), 1), height)
  }

  lemma {:induction false} WidthRounded(n: nat, h: nat)
    ensures Width(n, h) == (n + Pow2(h) - 1) / Pow2(h)
  {
    if h > 0 {
      WidthRounded(n, h - 1);
      RoundUpStep(n, Pow2(h - 1));
    }
  }

  lemma {:induction false} RoundUpStep(n: nat, p: nat)
    requires p > 0
    ensures ((n + p - 1) / p + 1) / 2 == (n + 2 * p - 1) / (2 * p)
  {
    DivAddOne(n + p - 1, p);
    DivDiv(n + 2 * p - 1, p, 2);
  }

  lemma {:induction false} ShlOne(k: nat)
    requires k <= 31
    ensures Pow2(k) <= MAX_TXS && Shl(1, k) == Pow2(k)
  {
    Pow2Values();
    Pow2Monotone(k, 31);
    SmallMod(Pow2(k));
  }

  lemma {:induction false} SmallMod(x: nat)
    requires x <= MAX_TXS
    ensures (1 * x) % WORD == x
  {
  }

  lemma {:induction false} SubAfterAdd(a: uint32, b: uint32)
    requires 1 <= a + b <= WORD
    ensures Sub(Add(a, b), 1) == a + b - 1
  {
  }

  lemma {:induction false} CalcTreeWidthIsWidth(n: uint32, height: nat)
    requires n <= MAX_TXS && height <= 31
    ensures CalcTreeWidth(n, height) == Width(n, height)
  {
    ShlOne(height);
    WidthRounded(n, height);
    assert Sub(Add(n, Shl(1, height)), 1) == n + Pow2(height) - 1 by {
      SubAfterAdd(n, Pow2(height));
    }
  }

  /** Node (h, i) exists exactly when its leftmost leaf does. */
  lemma {:induction false} NodeExists(n: nat, h: nat, i: nat)
    ensures i < Width(n, h) <==> i * Pow2(h) < n
  {
    if h > 0 {
      NodeExists(n, h - 1, 2 * i);
      MulAssociate(i, 2, Pow2(h - 1));
    }
  }

  /** Bounds that pin the depth down: the least e with n <= 2^e. */
  lemma {:induction false} DepthIsLeast(n: nat)
    ensures n <= Pow2(Depth(n))
    ensures Depth(n) > 0 ==> Pow2(Depth(n) - 1) < n
  {
    if n > 1 {
      DepthIsLeast((n + 1) / 2);
    }
  }

  lemma {:induction false} DepthUnique(n: nat, e: nat)
    requires n <= Pow2(e)
    requires e > 0 ==> Pow2(e - 1) < n
    ensures e == Depth(n)
  {
    DepthIsLeast(n);
    if e < Depth(n) {
      Pow2Monotone(e, Depth(n) - 1);
    } else if Depth(n) < e {
      Pow2Monotone(Depth(n), e - 1);
    }
  }

  lemma {:induction false} WidthOfHalf(n: nat, h: nat)
    ensures Width((n + 1) / 2, h) == Width(n, h + 1)
  {
    if h > 0 {
      WidthOfHalf(n, h - 1);
    }
  }

  /** The root level is the only level of width one. */
  lemma {:induction false} WidthAtDepth(n: nat, h: nat)
    requires n >= 1 && h <= Depth(n)
    ensures Width(n, h) >= 1
    ensures Width(n, h) == 1 <==> h == Depth(n)
    decreases n
  {
    if h > 0 {
      WidthAtDepth((n + 1) / 2, h - 1);
      WidthOfHalf(n, h - 1);
    }
  }

  lemma {:induction false} DepthAtMost31(n: nat)
    requires n <= MAX_TXS
    ensures Depth(n) <= 31
  {
    DepthIsLeast(n);
    Pow2Values();
    if Depth(n) > 31 {
      Pow2Monotone(31, Depth(n) - 1);
    }
  }

  /** Hash of the subtree under node (h, i). */
  function CalcHash(leaves: seq<Hash>, pair: PairHash, h: nat, i: nat): Hash
    requires i < Width(|leaves|, h)
    decreases h
  {
    if h == 0 then leaves[i]
    else
      var left := CalcHash(leaves, pair, h - 1, 2 * i);
      var right := if 2 * i + 1 < Width(|leaves|, h - 1) then CalcHash(leaves, pair, h - 1, 2 * i + 1) else left;
      pair(left, right)
  }

  /** Independent definition of the root: hash level after level until one node remains. */
  function NextLevel(xs: seq<Hash>, pair: PairHash): (ys: seq<Hash>)
    ensures |ys| == (|xs| + 1) / 2
  {
    seq((|xs| + 1) / 2, k requires 0 <= k < (|xs| + 1) / 2 =>
      pair(xs[2 * k], if 2 * k + 1 < |xs| then xs[2 * k + 1] else xs[2 * k]))
  }

  function MerkleRoot(xs: seq<Hash>, pair: PairHash): Hash
    requires |xs| >= 1
    decreases |xs|
  {
    if |xs| == 1 then xs[0] else MerkleRoot(NextLevel(xs, pair), pair)
  }

  lemma {:induction false} PairOnNextLevel(xs: seq<Hash>, pair: PairHash, i: nat)
    requires i < (|xs| + 1) / 2
    ensures NextLevel(xs, pair)[i] == pair(xs[2 * i], if 2 * i + 1 < |xs| then xs[2 * i + 1] else xs[2 * i])
  {
  }

  lemma {:induction false} CalcHashOnNextLevel(xs: seq<Hash>, pair: PairHash, h: nat, i: nat)
    requires i < Width(|xs|, h + 1)
    ensures Width((|xs| + 1) / 2, h) == Width(|xs|, h + 1)
    ensures CalcHash(xs, pair, h + 1, i) == CalcHash(NextLevel(xs, pair), pair, h, i)
    decreases h
  {
    hide NextLevel, CalcHash;
    WidthOfHalf(|xs|, h);
    CalcHashStep(xs, pair, h + 1, i);
    if h == 0 {
      PairOnNextLevel(xs, pair, i);
      LeafHash(xs, pair, 2 * i);
      if 2 * i + 1 < |xs| {
        LeafHash(xs, pair, 2 * i + 1);
      }
      LeafHash(NextLevel(xs, pair), pair, i);
    } else {
      WidthOfHalf(|xs|, h - 1);
      CalcHashOnNextLevel(xs, pair, h - 1, 2 * i);
      if 2 * i + 1 < Width(|xs|, h) {
        CalcHashOnNextLevel(xs, pair, h - 1, 2 * i + 1);
      }
      CalcHashStep(NextLevel(xs, pair), pair, h, i);
    }
  }

  lemma {:induction false} LeafHash(leaves: seq<Hash>, pair: PairHash, i: nat)
    requires i < |leaves|
    ensures CalcHash(leaves, pair, 0, i) == leaves[i]
  {
  }

  lemma {:induction false} CalcHashStep(leaves: seq<Hash>, pair: PairHash, h: nat, i: nat)
    requires h > 0 && i < Width(|leaves|, h)
    ensures 2 * i < Width(|leaves|, h - 1)
    ensures CalcHash(leaves, pair, h, i) == pair(CalcHash(leaves, pair, h - 1, 2 * i),
      if 2 * i + 1 < Width(|leaves|, h - 1) then CalcHash(leaves, pair, h - 1, 2 * i + 1)
      else CalcHash(leaves, pair, h - 1, 2 * i))
  {
  }

  /** The recursive subtree hash at the root is the level-by-level Merkle root. */
  lemma {:induction false} CalcHashIsMerkleRoot(xs: seq<Hash>, pair: PairHash)
    requires |xs| >= 1
    ensures Width(|xs|, Depth(|xs|)) == 1
    ensures CalcHash(xs, pair, Depth(|xs|), 0) == MerkleRoot(xs, pair)
    decreases |xs|
  {
    hide NextLevel, Width;
    WidthAtDepth(|xs|, Depth(|xs|));
    if |xs| > 1 {
      CalcHashOnNextLevel(xs, pair, Depth(|xs|) - 1, 0);
      CalcHashIsMerkleRoot(NextLevel(xs, pair), pair);
    }
  }
}
