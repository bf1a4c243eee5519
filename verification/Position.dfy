/** The flat numbering of tree nodes used by the parsers: leaves first, then level after
    level, the root last. `msb` is the power of two that holds all the leaves. */
module Position {
  import opened MerkleTree
  import opened Word32

  // ----- (level, index) to flat position and back -----

  /** Position of the first node of level h in a tree of depth d. */
  function Base(d: nat, h: nat): nat
    requires h <= d
  {
    Pow2Monotone(d - h + 1, d + 1);
    Pow2(d + 1) - Pow2(d - h + 1)
  }

  /** First position above level h. */
  function End(d: nat, h: nat): nat
    requires h <= d
  {
    Base(d, h) + Pow2(d - h)
  }

  function Flat(d: nat, h: nat, i: nat): nat
    requires h <= d
  {
    Base(d, h) + i
  }

  /** Level of a position, found by stepping down to left children until a leaf is met. */
  function LevelOf(d: nat, pos: nat): nat
    requires pos < Pow2(d + 1)
    decreases pos
  {
    if pos < Pow2(d) then 0 else 1 + LevelOf(d, (pos - Pow2(d)) * 2)
  }

  lemma {:induction false} LevelSizes(d: nat, h: nat)
    requires h < d
    ensures Pow2(d - h) == 2 * Pow2(d - h - 1)
    ensures Base(d, h) + Pow2(d - h) == Base(d, h + 1)
    ensures Base(d, h) == 2 * (Base(d, h + 1) - Pow2(d)) && Base(d, h + 1) >= Pow2(d)
  {
    assert Pow2(d - h + 1) == 2 * Pow2(d - h);
    Pow2Monotone(d - h, d);
  }

  lemma {:induction false} RootPosition(d: nat)
    ensures Flat(d, d, 0) == Pow2(d + 1) - 2
  {
    assert Pow2(1) == 2;
  }

  lemma {:induction false} FlatBelow(d: nat, h: nat, i: nat)
    requires h <= d && i < Pow2(d - h)
    ensures Flat(d, h, i) < Pow2(d + 1)
    ensures Flat(d, h, i) + 1 < Pow2(d + 1)
    ensures Flat(d, h, i) < Pow2(d) <==> h == 0
    ensures Flat(d, h, i) % 2 == i % 2
  {
    assert Base(d, h) == 2 * (Pow2(d) - Pow2(d - h));
    hide Pow2, Base;
    Pow2Monotone(d - h, d);
  }

  lemma {:induction false} LevelOfFlat(d: nat, h: nat, i: nat)
    requires h <= d && i < Pow2(d - h)
    ensures Flat(d, h, i) < Pow2(d + 1) && LevelOf(d, Flat(d, h, i)) == h
  {
    FlatBelow(d, h, i);
    if h > 0 {
      LevelSizes(d, h - 1);
      LevelOfFlat(d, h - 1, 2 * i);
    }
  }

  /** Every position up to the root is the flat position of exactly one node. */
  lemma {:induction false} PositionsAreNodes(d: nat, pos: nat)
    requires pos <= Pow2(d + 1) - 2
    ensures var h := LevelOf(d, pos);
      h <= d && Base(d, h) <= pos < Base(d, h) + Pow2(d - h)
    decreases pos
  {
    if pos >= Pow2(d) {
      var q := (pos - Pow2(d)) * 2;
      PositionsAreNodes(d, q);
      var h := LevelOf(d, q);
      if h == d {
        RootPosition(d);
      } else {
        LevelSizes(d, h);
      }
    }
  }

  /** A position that no node of an n-leaf tree occupies. */
  predicate Dead(n: nat, pos: nat) {
    var d := Depth(n);
    pos > Pow2(d + 1) - 2
    || LevelOf(d, pos) > d
    || pos - Base(d, LevelOf(d, pos)) >= Width(n, LevelOf(d, pos))
  }

  lemma {:induction false} WidthFits(n: nat, h: nat)
    requires h <= Depth(n)
    ensures Width(n, h) <= Pow2(Depth(n) - h)
  {
    if h == 0 {
      DepthIsLeast(n);
    } else {
      WidthFits(n, h - 1);
    }
  }

  /** Dead positions below the root are exactly the missing right siblings. */
  lemma {:induction false} DeadIffBeyondWidth(n: nat, h: nat, i: nat)
    requires h <= Depth(n) && i < Pow2(Depth(n) - h)
    ensures Dead(n, Flat(Depth(n), h, i)) <==> i >= Width(n, h)
  {
    FlatBelow(Depth(n), h, i);
    LevelOfFlat(Depth(n), h, i);
  }

  // ----- the bit tricks of the source, on the flat numbering -----

  function Parent(pos: nat, msb: nat): nat
    requires msb > 0
  {
    OrBit(pos / 2, msb)
  }

  function LeftChild(pos: nat, msb: nat): uint32
    requires msb > 0
  {
    Shl(XorBit(pos, msb), 1)
  }

  function RightSibling(pos: nat): nat {
    OrBit(pos, 1)
  }

  lemma {:induction false} RightSiblingOf(pos: nat)
    ensures RightSibling(pos) == if pos % 2 == 0 then pos + 1 else pos
  {
  }

  lemma {:induction false} ParentOf(d: nat, h: nat, i: nat)
    requires h < d && i < Pow2(d - h)
    ensures i / 2 < Pow2(d - h - 1)
    ensures Parent(Flat(d, h, i), Pow2(d)) == Flat(d, h + 1, i / 2)
  {
    LevelSizes(d, h);
    FlatBelow(d, h, i);
    TopBit(Flat(d, h, i) / 2, Pow2(d));
  }

  lemma {:induction false} LeftChildOf(d: nat, h: nat, i: nat)
    requires 0 < h <= d <= 31 && i < Pow2(d - h)
    ensures 2 * i < Pow2(d - h + 1)
    ensures HasBit(Flat(d, h, i), Pow2(d))
    ensures LeftChild(Flat(d, h, i), Pow2(d)) == Flat(d, h - 1, 2 * i)
  {
    FlatBelow(d, h, i);
    LevelSizes(d, h - 1);
    FlatBelow(d, h - 1, 2 * i);
    ShlOne(d);
    assert Pow2(d + 1) == 2 * Pow2(d);
    hide Pow2;
    TopBit(Flat(d, h, i), Pow2(d));
    ShlByOne(Flat(d, h, i) - Pow2(d));
  }

  lemma {:induction false} ShlByOne(x: nat)
    requires 2 * x < WORD
    ensures Shl(x, 1) == 2 * x
  {
    assert Pow2(1) == 2;
  }

  lemma {:induction false} LeavesLackTopBit(d: nat, i: nat)
    requires i < Pow2(d)
    ensures !HasBit(Flat(d, 0, i), Pow2(d)) && Flat(d, 0, i) == i
  {
    TopBit(i, Pow2(d));
  }

  // ----- the loops of the source -----

  method TreeDepth(n: uint32) returns (e: nat)
    requires n <= MAX_TXS
    ensures e == Depth(n) && e <= 31
  {
    DepthAtMost31(n);
    DepthIsLeast(n);
    e := 0;
    ShlOne(0);
    while Shl(1, e) < n
      invariant e <= Depth(n)
      invariant e > 0 ==> Pow2(e - 1) < n
      decreases Depth(n) - e
    {
      ShlOne(e);
      if e >= Depth(n) {
        Pow2Monotone(Depth(n), e);
      }
      e := e + 1;
    }
    ShlOne(e);
    DepthUnique(n, e);
  }

  lemma {:induction false} HighShiftsVanish(e: nat)
    requires e >= 32
    ensures Shl(1, e) == 0
  {
    if e == 32 {
      Pow2Values();
    } else {
      HighShiftsVanish(e - 1);
      ModDoubles(Pow2(e - 1));
    }
  }

  lemma {:induction false} ModDoubles(x: nat)
    requires x % WORD == 0
    ensures (2 * x) % WORD == 0
  {
    assert 2 * x == (2 * (x / WORD)) * WORD;
  }

  /** The loop of `TreeDepth` ends for a count exactly when the count is at most 2^31. */
  lemma {:induction false} TreeDepthTerminatesIff(n: uint32)
    ensures (exists e: nat :: Shl(1, e) >= n) <==> n <= MAX_TXS
  {
    if n <= MAX_TXS {
      DepthAtMost31(n);
      DepthIsLeast(n);
      ShlOne(Depth(n));
    } else {
      forall e: nat ensures Shl(1, e) < n {
        if e <= 31 {
          ShlOne(e);
        } else {
          HighShiftsVanish(e);
        }
      }
    }
  }

  method NextPowerOfTwo(n: uint32) returns (p: uint32)
    requires n <= MAX_TXS
    ensures p == Pow2(Depth(n)) <= MAX_TXS
  {
    var e := TreeDepth(n);
    ShlOne(e);
    p := Shl(1, e);
  }

  /** Position of the root, `(msb << 1) - 2`; at msb = 2^31 both operations wrap. */
  lemma {:induction false} TopPosition(d: nat)
    requires d <= 31
    ensures Sub(Shl(Pow2(d), 1), 2) == Pow2(d + 1) - 2 == Flat(d, d, 0)
  {
    RootPosition(d);
    ShlOne(d);
    assert Pow2(1) == 2;
    SubTwo(Pow2(d));
  }

  lemma {:induction false} SubTwo(m: nat)
    requires 1 <= m <= MAX_TXS
    ensures Sub((m * 2) % WORD, 2) == 2 * m - 2
  {
  }

  lemma {:induction false} DeadZoneStart(n: nat, pos: nat)
    requires n >= 1 && pos <= Pow2(Depth(n) + 1) - 2
    ensures var d := Depth(n);
      End(d, 0) == Pow2(d) && Base(d, 0) == 0 && Width(n, 0) == n && pos < End(d, d)
  {
    assert Pow2(0) == 1 && Pow2(1) == 2;
  }

  lemma {:induction false} DeadAboveRoot(n: nat, pos: nat)
    requires pos > Pow2(Depth(n) + 1) - 2
    ensures Dead(n, pos)
  {
    hide Pow2, Depth;
  }

  lemma {:induction false} DeadInLevel(n: nat, k: nat, pos: nat)
    requires k <= Depth(n) && Base(Depth(n), k) <= pos < End(Depth(n), k)
    ensures Dead(n, pos) <==> pos > Base(Depth(n), k) + Width(n, k) - 1
  {
    hide Dead, Width, Depth;
    DeadIffBeyondWidth(n, k, pos - Base(Depth(n), k));
  }

  /** One round of the loop below moves both bounds up one level. */
  lemma {:induction false} DeadZoneStep(n: nat, k: nat)
    requires n >= 1 && k < Depth(n)
    ensures Width(n, k) >= 1 && Width(n, k + 1) >= 1
    ensures var d := Depth(n);
      && OrBit(End(d, k) / 2, Pow2(d)) == End(d, k + 1)
      && OrBit((Base(d, k) + Width(n, k) - 1) / 2, Pow2(d)) == Base(d, k + 1) + Width(n, k + 1) - 1
      && Base(d, k + 1) == End(d, k)
  {
    var d := Depth(n);
    LevelSizes(d, k);
    WidthFits(n, k);
    WidthAtDepth(n, k);
    WidthAtDepth(n, k + 1);
    assert Pow2(d - k) == 2 * Pow2(d - k - 1);
    TopBit(End(d, k) / 2, Pow2(d));
    TopBit((Base(d, k) + Width(n, k) - 1) / 2, Pow2(d));
  }

  method InDeadZone(pos: uint32, size: uint32) returns (dead: bool)
    requires 1 <= size <= MAX_TXS
    ensures dead <==> Dead(size, pos)
  {
    hide Pow2, Width, Depth, Dead, OrBit, Base, End, Flat;
    ghost var d := Depth(size);
    var msb := NextPowerOfTwo(size);
    var last: nat := Sub(size, 1);
    DepthAtMost31(size);
    TopPosition(d);
    if pos > Sub(Shl(msb, 1), 2) {
      DeadAboveRoot(size, pos);
      return true;
    }
    var h: nat := msb;
    ghost var k: nat := 0;
    DeadZoneStart(size, pos);
    while pos >= h
      invariant k <= d && Width(size, k) >= 1
      invariant h == End(d, k)
      invariant last == Base(d, k) + Width(size, k) - 1
      invariant Base(d, k) <= pos < End(d, d)
      decreases d - k
    {
      DeadZoneStep(size, k);
      h := OrBit(h / 2, msb);
      last := OrBit(last / 2, msb);
      k := k + 1;
    }
    DeadInLevel(size, k, pos);
    return pos > last;
  }
}
