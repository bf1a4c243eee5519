/** blockchain/difficulty.go: compact targets, proof of work and the work of a header. */
module Difficulty {
  import opened Word32

  function Quotient(a: nat, b: nat): nat
    requires b > 0
  {
    DivNotAbove(a, b);
    a / b
  }

  function Product(a: nat, b: nat): nat {
    MulMonotone(0, a, b);
    a * b
  }

  // ----- compact targets -----

  function Mantissa(compact: uint32): nat { compact % 0x80_0000 }

  predicate Negative(compact: uint32) { HasBit(compact, 0x80_0000) }

  function Exponent(compact: uint32): nat { compact / 0x100_0000 }

  /** mantissa * 256^(exponent - 3), rounded down to a whole number. */
  function Magnitude(compact: uint32): nat {
    Quotient(Product(Mantissa(compact), Pow2(8 * Exponent(compact))), Pow2(24))
  }

  function Target(compact: uint32): int {
    var size: int := Magnitude(compact);
    if Negative(compact) then -size else size
  }

  /** The target is the signed mantissa times 256^(exponent - 3) without the fraction, in whole numbers. */
  lemma {:induction false} TargetIs(compact: uint32)
    ensures var size := if Target(compact) < 0 then -Target(compact) else Target(compact);
      size * Pow2(24) <= (compact % 0x80_0000) * Pow2(8 * (compact / 0x100_0000)) < (size + 1) * Pow2(24)
    ensures Target(compact) < 0 ==> (compact / 0x80_0000) % 2 == 1
    ensures Target(compact) > 0 ==> (compact / 0x80_0000) % 2 == 0
  {
    hide Pow2;
    QuotientBounds(Product(Mantissa(compact), Pow2(8 * Exponent(compact))), Pow2(24));
  }

  method CompactToBig(compact: uint32) returns (bn: int)
    ensures bn == Target(compact)
  {
    hide Pow2;
    var mantissa: nat := compact % 0x80_0000;
    var isNegative := HasBit(compact, 0x80_0000);
    var exponent := Shr(compact, 24);
    Pow2Values();
    if exponent <= 3 {
      ShiftedDown(mantissa, exponent);
      mantissa := mantissa / Pow2(8 * (3 - exponent));
      bn := mantissa;
    } else {
      ShiftedUp(mantissa, exponent);
      bn := mantissa * Pow2(8 * (exponent - 3));
    }
    if isNegative {
      bn := -bn;
    }
  }

  lemma {:induction false} ShiftedDown(m: nat, e: nat)
    requires e <= 3
    ensures (m * Pow2(8 * e)) / Pow2(24) == m / Pow2(8 * (3 - e))
  {
    var a, b := Pow2(8 * e), Pow2(8 * (3 - e));
    Pow2Add(8 * (3 - e), 8 * e);
    CancelFactor(m, b, a);
  }

  lemma {:induction false} ShiftedUp(m: nat, e: nat)
    requires e > 3
    ensures (m * Pow2(8 * e)) / Pow2(24) == m * Pow2(8 * (e - 3))
  {
    hide Pow2;
    Pow2Add(8 * (e - 3), 24);
    MulAssociate(m, Pow2(8 * (e - 3)), Pow2(24));
    ExactDivision(m * Pow2(8 * (e - 3)), Pow2(24));
    assert m * Pow2(8 * e) == (m * Pow2(8 * (e - 3))) * Pow2(24) by {
      MulRegroup(m, Pow2(8 * (e - 3)), Pow2(24));
    }
  }

  lemma {:induction false} MulRegroup(a: int, b: int, c: int)
    ensures (a * b) * c == a * (b * c)
  {
  }

  lemma {:induction false} ExactDivision(q: nat, m: nat)
    requires m > 0
    ensures (q * m) / m == q
  {
    DivUnique(q * m, m, q, 0);
  }

  lemma {:induction false} CancelFactor(x: nat, b: nat, a: nat)
    requires a > 0 && b > 0
    ensures b * a > 0 && (x * a) / (b * a) == x / b
  {
    DivDiv(x * a, a, b);
    ExactDivision(x, a);
    assert b * a == a * b;
  }

  // ----- hashes as numbers -----

  function LittleEndian(s: seq<byte>): nat {
    if s == [] then 0 else s[0] as nat + 256 * LittleEndian(s[1..])
  }

  /** The first byte is the least significant: a byte counts for itself, and what follows a prefix
      counts 256 times for each byte of it. */
  lemma {:induction false} LittleEndianIs(a: seq<byte>, b: seq<byte>)
    ensures |a| == 1 ==> LittleEndian(a) == a[0] as nat
    ensures LittleEndian(a + b) == LittleEndian(a) + Pow2(8 * |a|) * LittleEndian(b)
  {
    if a == [] {
      assert a + b == b;
    } else {
      LittleEndianIs(a[1..], b);
      assert (a + b)[1..] == a[1..] + b;
      assert LittleEndian(a[1..]) == 0 || |a| > 1;
      Pow2Add(8, 8 * |a[1..]|);
      MulRegroup(256, Pow2(8 * |a[1..]|), LittleEndian(b));
    }
  }

  /** What `big.Int.SetBytes` reads. */
  function BigEndian(s: seq<byte>): nat {
    if s == [] then 0 else 256 * BigEndian(s[..|s| - 1]) + s[|s| - 1] as nat
  }

  function Reversed(s: seq<byte>): (r: seq<byte>)
    ensures |r| == |s|
  {
    seq(|s|, k requires 0 <= k < |s| => s[|s| - 1 - k])
  }

  lemma {:induction false} BigEndianReversed(s: seq<byte>)
    ensures BigEndian(Reversed(s)) == LittleEndian(s)
  {
    if s != [] {
      BigEndianReversed(s[1..]);
      assert Reversed(s)[..|s| - 1] == Reversed(s[1..]);
    }
  }

  /** The hash is reversed in place in a copy before it is read as big-endian. */
  method HashToBig(hash: seq<byte>) returns (n: nat)
    ensures n == LittleEndian(hash)
  {
    var buf := new byte[|hash|](k requires 0 <= k < |hash| => hash[k]);
    var blen := buf.Length;
    var i := 0;
    while i < blen / 2
      invariant 0 <= i <= blen / 2
      invariant forall k :: 0 <= k < i ==> buf[k] == hash[blen - 1 - k] && buf[blen - 1 - k] == hash[k]
      invariant forall k :: i <= k < blen - i ==> buf[k] == hash[k]
    {
      buf[i], buf[blen - 1 - i] := buf[blen - 1 - i], buf[i];
      i := i + 1;
    }
    assert buf[..] == Reversed(hash);
    BigEndianReversed(hash);
    n := BigEndian(buf[..]);
  }

  // ----- work -----

  /** 2^256 / (target + 1) for a positive target, else no work at all. */
  function CalcWork(bits: uint32): (work: nat) {
    if Target(bits) <= 0 then 0 else Quotient(Pow2(256), Target(bits) + 1)
  }

  /** The target is positive, at most 2^255 - 1, and not below the hash. */
  predicate ValidPow(bits: uint32, powHash: seq<byte>) {
    0 < Target(bits) <= Pow2(255) - 1 && LittleEndian(powHash) <= Target(bits)
  }

  method CheckProofOfWork(bits: uint32, powHash: seq<byte>) returns (ok: bool)
    ensures ok == ValidPow(bits, powHash)
    ensures ok <==> 0 < Target(bits) < Pow2(255) && LittleEndian(powHash) <= Target(bits)
  {
    var target := CompactToBig(bits);
    if target <= 0 {
      return false;
    }
    if target > Pow2(255) - 1 {
      return false;
    }
    var hashNum := HashToBig(powHash);
    return hashNum <= target;
  }

  /** The work is the whole number of times that target + 1 goes into 2^256. */
  lemma {:induction false} WorkIsQuotient(bits: uint32)
    requires Target(bits) > 0
    ensures CalcWork(bits) * (Target(bits) + 1) <= Pow2(256) < (CalcWork(bits) + 1) * (Target(bits) + 1)
  {
    hide Pow2, Target;
    QuotientBounds(Pow2(256), Target(bits) + 1);
  }

  lemma {:induction false} QuotientBounds(a: nat, b: nat)
    requires b > 0
    ensures Quotient(a, b) * b <= a < (Quotient(a, b) + 1) * b
  {
    MulDistribute(a / b, 1, b);
  }

  /** A header that passes the check has work between 2 and 2^255. */
  lemma {:induction false} ValidWorkBounds(bits: uint32, powHash: seq<byte>)
    requires ValidPow(bits, powHash)
    ensures 2 <= CalcWork(bits) <= Pow2(255)
  {
    assert Pow2(256) == 2 * Pow2(255);
    hide Pow2, Target, LittleEndian;
    var t := Target(bits);
    QuotientAtLeast(Pow2(256), t + 1, 2);
    QuotientAtMost(Pow2(256), t + 1, 2);
    ExactDivision(Pow2(255), 2);
  }

  lemma {:induction false} QuotientAtLeast(a: nat, b: nat, q: nat)
    requires b > 0 && q * b <= a
    ensures Quotient(a, b) >= q
  {
    if a / b < q {
      MulMonotone(a / b + 1, q, b);
      MulDistribute(a / b, 1, b);
    }
  }

  lemma {:induction false} QuotientAtMost(a: nat, b: nat, c: nat)
    requires 0 < c <= b
    ensures Quotient(a, b) <= Quotient(a, c)
  {
    MulMonotone(c, b, a / b);
    QuotientAtLeast(a, c, a / b);
  }

  /** A harder (smaller) positive target never carries less work. */
  lemma {:induction false} WorkIsAntitone(bits: uint32, bits': uint32)
    requires 0 < Target(bits) <= Target(bits')
    ensures CalcWork(bits) >= CalcWork(bits')
  {
    QuotientAtMost(Pow2(256), Target(bits') + 1, Target(bits) + 1);
  }

  /** Two sample targets: 0x207fffff has work 2, 0x20010000 has work 255. */
  lemma {:induction false} SampleWorks()
    ensures 0 < Target(0x207fffff) <= Pow2(255) - 1 && CalcWork(0x207fffff) == 2
    ensures 0 < Target(0x20010000) <= Pow2(255) - 1 && CalcWork(0x20010000) == 255
  {
    hide Pow2, Target;
    SampleTarget(0x207fffff, 0x7fffff);
    SampleTarget(0x20010000, 0x10000);
    var p := Pow2(232);
    SamplePowers();
    DivUnique(0x100_0000 * p, 0x7fffff * p + 1, 2, 2 * p - 2);
    DivUnique(0x100_0000 * p, 0x10000 * p + 1, 255, 0x10000 * p - 255);
  }

  lemma {:induction false} SampleTarget(bits: uint32, mantissa: nat)
    requires bits == 0x2000_0000 + mantissa && mantissa < 0x80_0000
    ensures Target(bits) == mantissa * Pow2(232)
  {
    hide Pow2;
    ShiftedUp(mantissa, 32);
    assert Exponent(bits) == 32 && Mantissa(bits) == mantissa;
    assert !Negative(bits) by { assert bits / 0x80_0000 == 64; }
  }

  lemma {:induction false} SamplePowers()
    ensures Pow2(255) == 0x80_0000 * Pow2(232) && Pow2(256) == 0x100_0000 * Pow2(232)
  {
    Pow2Values();
    Pow2Add(23, 232);
    Pow2Add(24, 232);
    assert Pow2(24) == 2 * Pow2(23);
  }
}
