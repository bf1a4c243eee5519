/** Flag bits packed into bytes, least significant bit first. */
module FlagBits {
  import opened Word32

  /** `b & (1 << j) != 0` */
  predicate Bit(b: byte, j: nat)
    requires j < 8
  {
    b & ((1 as byte) << j) != 0
  }

  /** `(b >> j) & 1` reads the same bit. */
  lemma {:induction false} ShiftReadsBit(b: byte, j: nat)
    requires j < 8
    ensures (b >> j) & 1 == if Bit(b, j) then 1 else 0
  {
    if j == 0 {} else if j == 1 {} else if j == 2 {} else if j == 3 {}
    else if j == 4 {} else if j == 5 {} else if j == 6 {} else { assert j == 7; }
  }

  /** `b |= x << j` sets bit j when x is 1 and touches no other bit. */
  lemma {:induction false} OrSetsBit(b: byte, x: byte, j: nat, k: nat)
    requires j < 8 && k < 8 && x <= 1
    ensures Bit(b | (x << j), k) <==> Bit(b, k) || (j == k && x == 1)
  {
    if k == 0 { OrSetsBitAt(b, x, j, 0); } else if k == 1 { OrSetsBitAt(b, x, j, 1); }
    else if k == 2 { OrSetsBitAt(b, x, j, 2); } else if k == 3 { OrSetsBitAt(b, x, j, 3); }
    else if k == 4 { OrSetsBitAt(b, x, j, 4); } else if k == 5 { OrSetsBitAt(b, x, j, 5); }
    else if k == 6 { OrSetsBitAt(b, x, j, 6); } else { OrSetsBitAt(b, x, j, 7); }
  }

  lemma {:induction false} OrSetsBitAt(b: byte, x: byte, j: nat, k: nat)
    requires j < 8 && k < 8 && x <= 1
    ensures Bit(b | (x << j), k) <==> Bit(b, k) || (j == k && x == 1)
  {
    assert x == 0 || x == 1;
    if j == 0 {} else if j == 1 {} else if j == 2 {} else if j == 3 {}
    else if j == 4 {} else if j == 5 {} else if j == 6 {} else { assert j == 7; }
  }

  function AsByte(b: bool): (x: byte)
    ensures x <= 1
  {
    if b then 1 else 0
  }

  /** Bits held one to a byte, as the builder and the branch extractor hold them. */
  function AsBytes(bits: seq<bool>): (xs: seq<byte>)
    ensures |xs| == |bits|
  {
    seq(|bits|, k requires 0 <= k < |bits| => AsByte(bits[k]))
  }

  lemma {:induction false} AsBytesConcat(a: seq<bool>, b: seq<bool>)
    ensures AsBytes(a + b) == AsBytes(a) + AsBytes(b)
  {
  }

  /** All the bits of a byte string, in the order the parser consumes them. */
  function Unpack(flags: seq<byte>): (bits: seq<bool>)
    ensures |bits| == 8 * |flags|
  {
    seq(8 * |flags|, k requires 0 <= k < 8 * |flags| => Bit(flags[k / 8], k % 8))
  }

  lemma {:induction false} UnpackTail(flags: seq<byte>)
    requires |flags| > 0
    ensures Unpack(flags)[8..] == Unpack(flags[1..])
  {
  }

  /** The bits left when the cursor is at bit i of the first byte. */
  function Remaining(flags: seq<byte>, i: nat): seq<bool>
    requires i < 8 && (flags == [] ==> i == 0)
  {
    Unpack(flags)[i..]
  }

  lemma {:induction false} NextFlag(flags: seq<byte>, i: nat)
    requires |flags| > 0 && i < 8
    ensures Remaining(flags, i) != [] && Remaining(flags, i)[0] == Bit(flags[0], i)
    ensures Remaining(flags, i)[1..] == if i == 7 then Remaining(flags[1..], 0) else Remaining(flags, i + 1)
  {
    UnpackTail(flags);
  }

  lemma {:induction false} AllRemains(flags: seq<byte>)
    ensures Remaining(flags, 0) == Unpack(flags)
  {
  }

  lemma {:induction false} NoFlagsLeft()
    ensures Remaining([], 0) == []
  {
  }

  function Zeros(k: nat): seq<bool> {
    seq(k, _ => false)
  }

  /** `bytes[i/8] |= x << (i % 8)` */
  function SetAt(bytes: seq<byte>, i: nat, x: byte): (r: seq<byte>)
    requires i < 8 * |bytes|
    ensures |r| == |bytes|
  {
    bytes[i / 8 := bytes[i / 8] | (x << (i % 8))]
  }

  lemma {:induction false} OrAt(bytes: seq<byte>, i: nat, x: byte, k: nat)
    requires i < 8 * |bytes| && k < 8 * |bytes| && x <= 1
    ensures Bit(SetAt(bytes, i, x)[k / 8], k % 8) <==> Bit(bytes[k / 8], k % 8) || (k == i && x == 1)
  {
    hide Bit;
    SameBit(i, k);
    if k / 8 == i / 8 {
      OrSetsBit(bytes[i / 8], x, i % 8, k % 8);
    }
  }

  lemma {:induction false} SameBit(i: nat, k: nat)
    ensures i == k <==> i / 8 == k / 8 && i % 8 == k % 8
  {
  }

  /** The first i bits are packed, and nothing else is set. */
  predicate PackedTo(bytes: seq<byte>, bools: seq<bool>, i: nat)
    requires i <= |bools|
  {
    forall k :: 0 <= k < 8 * |bytes| ==> (Bit(bytes[k / 8], k % 8) <==> k < i && bools[k])
  }

  lemma {:induction false} PackNext(bytes: seq<byte>, bools: seq<bool>, i: nat)
    requires i < |bools| <= 8 * |bytes| && PackedTo(bytes, bools, i)
    ensures PackedTo(SetAt(bytes, i, AsByte(bools[i])), bools, i + 1)
  {
    hide Bit, SetAt;
    var next := SetAt(bytes, i, AsByte(bools[i]));
    forall k | 0 <= k < 8 * |next| ensures Bit(next[k / 8], k % 8) <==> k < i + 1 && bools[k] {
      OrAt(bytes, i, AsByte(bools[i]), k);
      assert Bit(bytes[k / 8], k % 8) <==> k < i && bools[k];
    }
  }

  lemma {:induction false} PackedAll(bytes: seq<byte>, bools: seq<bool>)
    requires |bools| <= 8 * |bytes| && PackedTo(bytes, bools, |bools|)
    ensures Unpack(bytes) == bools + Zeros(8 * |bytes| - |bools|)
  {
    hide Bit;
  }

  method OrInto(packed: array<byte>, i: nat, x: byte)
    requires i < 8 * packed.Length
    modifies packed
    ensures packed[..] == SetAt(old(packed[..]), i, x)
  {
    packed[i / 8] := packed[i / 8] | (x << (i % 8));
  }

  /** The packing loop of NewMerkleBlock: unpacking gives back the bits, padded with zeros. */
  method Pack(bits: seq<byte>, ghost bools: seq<bool>) returns (flags: seq<byte>)
    requires bits == AsBytes(bools)
    ensures |flags| == (|bits| + 7) / 8
    ensures Unpack(flags) == bools + Zeros(8 * |flags| - |bools|)
  {
    var packed := new byte[(|bits| + 7) / 8](_ => 0);
    NothingPacked(packed[..], bools);
    hide Bit, PackedTo, Unpack, SetAt;
    var i := 0;
    while i < |bits|
      invariant 0 <= i <= |bits| && PackedTo(packed[..], bools, i)
    {
      ghost var before := packed[..];
      PackNext(before, bools, i);
      OrInto(packed, i, bits[i]);
      i := i + 1;
    }
    flags := packed[..];
    PackedAll(flags, bools);
  }

  lemma {:induction false} NothingPacked(bytes: seq<byte>, bools: seq<bool>)
    requires forall k :: 0 <= k < |bytes| ==> bytes[k] == 0
    ensures PackedTo(bytes, bools, 0)
  {
    forall k | 0 <= k < 8 * |bytes| ensures !Bit(bytes[k / 8], k % 8) {
      NoBit(k % 8);
    }
  }

  lemma {:induction false} NoBit(j: nat)
    requires j < 8
    ensures !Bit(0, j)
  {
  }
}
