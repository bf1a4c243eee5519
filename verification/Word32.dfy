/** Unsigned 32-bit arithmetic as Go defines it, on naturals below 2^32. */
module Word32 {

  function Pow2(k: nat): (p: nat)
    ensures p >= 1
  {
    if k == 0 then 1 else 2 * Pow2(k - 1)
  }

  type byte = bv8

  const WORD: nat := 0x1_0000_0000

  type uint32 = n: nat | n < 0x1_0000_0000

  function Add(a: uint32, b: uint32): uint32 { (a + b) % WORD }

  function Sub(a: uint32, b: uint32): uint32 { (a - b) % WORD }

  /** `a << k`: bits shifted past the top are lost, so a shift by 32 or more gives 0. */
  function Shl(a: nat, k: nat): uint32 { (a * Pow2(k)) % WORD }

  function Shr(a: uint32, k: nat): uint32 {
    DivNotAbove(a, Pow2(k));
    a / Pow2(k)
  }

  /** The bit operations below are used with a power of two `m` as one operand only. */
  predicate HasBit(a: nat, m: nat)
    requires m > 0
  {
    (a / m) % 2 == 1
  }

  function OrBit(a: nat, m: nat): nat
    requires m > 0
  {
    if HasBit(a, m) then a else a + m
  }

  function XorBit(a: nat, m: nat): nat
    requires m > 0
  {
    if HasBit(a, m) then (BitNotAbove(a, m); a - m) else a + m
  }

  lemma {:induction false} DivNotAbove(a: nat, m: nat)
    requires m > 0
    ensures 0 <= a / m <= a
  {
    MulMonotone(1, m, a / m);
  }

  lemma {:induction false} BitNotAbove(a: nat, m: nat)
    requires m > 0 && HasBit(a, m)
    ensures a >= m
  {
  }

  /** Below 2m the test for bit m is a comparison. */
  lemma {:induction false} TopBit(a: nat, m: nat)
    requires 0 < m && a < 2 * m
    ensures HasBit(a, m) <==> a >= m
  {
    if a < m {
      DivUnique(a, m, 0, a);
    } else {
      DivUnique(a, m, 1, a - m);
    }
  }

  lemma {:induction false} Pow2Values()
    ensures Pow2(8) == 0x100 && Pow2(16) == 0x1_0000
    ensures Pow2(24) == 0x100_0000 && Pow2(31) == 0x8000_0000 && Pow2(32) == WORD
  {
    assert Pow2(8) == 0x100;
    assert Pow2(12) == 16 * Pow2(8);
    assert Pow2(16) == 16 * Pow2(12);
    assert Pow2(20) == 16 * Pow2(16);
    assert Pow2(24) == 16 * Pow2(20);
    assert Pow2(28) == 16 * Pow2(24);
    assert Pow2(31) == 8 * Pow2(28);
    assert Pow2(32) == 2 * Pow2(31);
  }

  lemma {:induction false} Pow2Add(a: nat, b: nat)
    ensures Pow2(a + b) == Pow2(a) * Pow2(b)
  {
    if a > 0 {
      Pow2Add(a - 1, b);
      assert Pow2(a + b) == 2 * Pow2(a - 1 + b);
      assert 2 * (Pow2(a - 1) * Pow2(b)) == (2 * Pow2(a - 1)) * Pow2(b);
    }
  }

  lemma {:induction false} Pow2Monotone(a: nat, b: nat)
    requires a <= b
    ensures Pow2(a) <= Pow2(b)
    ensures a < b ==> 2 * Pow2(a) <= Pow2(b)
    decreases b - a
  {
    if a < b {
      Pow2Monotone(a + 1, b);
    }
  }

  /** Shifting right one place at a time. */
  lemma {:induction false} DivPow2Step(x: nat, k: nat)
    ensures x / Pow2(k + 1) == (x / Pow2(k)) / 2
  {
    DivDiv(x, Pow2(k), 2);
  }

  lemma {:induction false} DivDiv(x: nat, a: nat, b: nat)
    requires a > 0 && b > 0
    ensures a * b > 0 && x / (a * b) == (x / a) / b
  {
    var q, r := x / a, x % a;
    var q2, r2 := q / b, q % b;
    MulMonotone(r2, b - 1, a);
    MulMonotone(0, r2, a);
    MulDistribute(b, -1, a);
    MulDistribute(q2 * b, r2, a);
    MulAssociate(q2, b, a);
    assert x == q2 * (a * b) + (r2 * a + r);
    DivUnique(x, a * b, q2, r2 * a + r);
  }

  lemma {:induction false} MulMonotone(a: int, b: int, m: nat)
    requires a <= b
    ensures a * m <= b * m
  {
  }

  lemma {:induction false} MulDistribute(a: int, b: int, m: int)
    ensures (a + b) * m == a * m + b * m
  {
  }

  lemma {:induction false} MulAssociate(a: int, b: int, m: int)
    ensures (a * b) * m == a * (m * b)
  {
    assert (a * b) * m == a * (b * m);
  }

  lemma {:induction false} DivAddOne(x: nat, m: nat)
    requires m > 0
    ensures (x + m) / m == x / m + 1
  {
    MulDistribute(x / m, 1, m);
    DivUnique(x + m, m, x / m + 1, x % m);
  }

  lemma {:induction false} DivUnique(x: nat, m: nat, q: nat, r: nat)
    requires m > 0 && x == q * m + r && r < m
    ensures x / m == q && x % m == r
  {
    var d := x / m - q;
    assert d * m == r - x % m;
    MulMonotone(1, if d >= 1 then d else 1, m);
    MulMonotone(if d <= -1 then d else -1, -1, m);
  }

  /** `i >> k`, one place at a time. */
  function Up(i: nat, k: nat): nat {
    if k == 0 then i else Up(i, k - 1) / 2
  }

  lemma {:induction false} UpIsShift(i: nat, k: nat)
    ensures Up(i, k) == i / Pow2(k)
  {
    if k > 0 {
      UpIsShift(i, k - 1);
      DivPow2Step(i, k - 1);
    }
  }
}
