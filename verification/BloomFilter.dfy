/** bloom/filter.go and interface/iutil/tx.go: a Bloom filter over byte strings, and the
    self-extending match of a transaction (BIP 37, "Filter matching algorithm"). */
module BloomFilter {
  import opened FlagBits
  import opened MerkleTree
  import opened Word32

  type Data = seq<byte>

  /** MurmurHash3 with a seed; any total function will do. */
  type Murmur = (uint32, Data) -> uint32

  /** The abstract filter: absent, or a set of bit offsets with the parameters that pick them. */
  datatype View = Unloaded | Loaded(bits: set<nat>, funcs: uint32, tweak: uint32, size: nat)
  {
    predicate Valid() {
      Loaded? && funcs > 0 ==> Shl(size, 3) != 0
    }
  }

  /** Offset of the bit that hash function number i assigns to data, in a filter of `size` bytes. */
  function Offset(size: nat, tweak: uint32, murmur: Murmur, i: uint32, data: Data): (idx: uint32)
    requires Shl(size, 3) != 0
    ensures idx < 8 * size
  {
    var seed := Add((i * 0xfba4c795) % WORD, tweak);
    OffsetInRange(size);
    murmur(seed, data) % Shl(size, 3)
  }

  lemma {:induction false} OffsetInRange(size: nat)
    requires Shl(size, 3) != 0
    ensures Shl(size, 3) <= 8 * size
  {
    assert Pow2(3) == 8;
  }

  /** The offset in plain numbers: sum and product wrap at 32 bits, and so does eight times the size. */
  lemma {:induction false} OffsetIs(size: nat, tweak: uint32, murmur: Murmur, i: uint32, data: Data)
    requires 8 * size % WORD != 0
    ensures Shl(size, 3) == 8 * size % WORD
    ensures Offset(size, tweak, murmur, i, data) == murmur((i * 0xfba4c795 + tweak) % WORD, data) % (8 * size % WORD)
  {
    assert Pow2(3) == 8;
    WrapOfSum(i * 0xfba4c795, tweak);
  }

  lemma {:induction false} WrapOfSum(a: nat, b: nat)
    ensures (a % WORD + b) % WORD == (a + b) % WORD
  {
    var q := a / WORD;
    assert a + b == q * WORD + (a % WORD + b);
  }

  function Offsets(v: View, murmur: Murmur, data: Data): set<nat>
    requires v.Loaded? && v.Valid()
  {
    set i: nat | i < v.funcs :: Offset(v.size, v.tweak, murmur, i, data)
  }

  predicate Matches(v: View, murmur: Murmur, data: Data)
    requires v.Valid()
  {
    v.Loaded? && Offsets(v, murmur, data) <= v.bits
  }

  function With(v: View, murmur: Murmur, data: Data): (v': View)
    requires v.Valid()
    ensures v'.Valid()
  {
    if v.Unloaded? then v else v.(bits := v.bits + Offsets(v, murmur, data))
  }

  /** No false negatives: an added element matches, and nothing that matched stops matching. */
  lemma {:induction false} AddedMatches(v: View, murmur: Murmur, data: Data, other: Data)
    requires v.Valid()
    ensures v.Loaded? ==> Matches(With(v, murmur, data), murmur, data)
    ensures Matches(v, murmur, other) ==> Matches(With(v, murmur, data), murmur, other)
  {
    hide Offset, Shl;
    if v.Loaded? {
      assert Offsets(With(v, murmur, data), murmur, data) == Offsets(v, murmur, data);
      assert Offsets(With(v, murmur, data), murmur, other) == Offsets(v, murmur, other);
    }
  }

  /** Adding a whole sequence, one element after the other. */
  function WithAll(v: View, murmur: Murmur, items: seq<Data>): (v': View)
    requires v.Valid()
    ensures v'.Valid() && (v'.Loaded? <==> v.Loaded?)
  {
    if items == [] then v else With(WithAll(v, murmur, items[..|items| - 1]), murmur, items[|items| - 1])
  }

  lemma {:induction false} NoFalseNegatives(v: View, murmur: Murmur, items: seq<Data>)
    requires v.Valid() && v.Loaded?
    ensures forall k :: 0 <= k < |items| ==> Matches(WithAll(v, murmur, items), murmur, items[k])
    ensures forall x :: Matches(v, murmur, x) ==> Matches(WithAll(v, murmur, items), murmur, x)
  {
    if items != [] {
      var front, last := items[..|items| - 1], items[|items| - 1];
      NoFalseNegatives(v, murmur, front);
      forall x | x == last || Matches(WithAll(v, murmur, front), murmur, x)
        ensures Matches(WithAll(v, murmur, items), murmur, x)
      {
        AddedMatches(WithAll(v, murmur, front), murmur, last, x);
      }
      forall k | 0 <= k < |items| ensures Matches(WithAll(v, murmur, items), murmur, items[k]) {
        assert k < |front| ==> items[k] == front[k];
      }
    }
  }

  lemma {:induction false} BitsOfAll(v: View, murmur: Murmur, items: seq<Data>)
    requires v.Valid() && v.Loaded?
    ensures
      var all := WithAll(v, murmur, items);
      && all == v.(bits := all.bits)
      && forall o :: o in all.bits <==>
           (o in v.bits || exists j: nat, k ::
              j < v.funcs && 0 <= k < |items| && o == Offset(v.size, v.tweak, murmur, j, items[k]))
  {
    hide Offset, Shl;
    if items != [] {
      var front, last := items[..|items| - 1], items[|items| - 1];
      BitsOfAll(v, murmur, front);
      var all, w := WithAll(v, murmur, items), WithAll(v, murmur, front);
      forall o
        ensures o in all.bits <==>
          (o in v.bits || exists j: nat, k ::
             j < v.funcs && 0 <= k < |items| && o == Offset(v.size, v.tweak, murmur, j, items[k]))
      {
        if j: nat, k :| j < v.funcs && 0 <= k < |items| && o == Offset(v.size, v.tweak, murmur, j, items[k]) {
          assert k < |front| ==> items[k] == front[k];
        }
      }
    }
  }

  /** No other positives than the bits allow: after adding some elements another one matches if and only
      if each of its bits was set before or is a bit of an added element. */
  lemma {:induction false} MatchesAfterIff(v: View, murmur: Murmur, items: seq<Data>, x: Data)
    requires v.Valid()
    ensures Matches(WithAll(v, murmur, items), murmur, x) <==>
      (v.Loaded? && forall i: nat :: i < v.funcs ==>
         var o := Offset(v.size, v.tweak, murmur, i, x);
         o in v.bits || exists j: nat, k ::
           j < v.funcs && 0 <= k < |items| && o == Offset(v.size, v.tweak, murmur, j, items[k]))
  {
    hide Offset, Shl, WithAll;
    if v.Loaded? {
      BitsOfAll(v, murmur, items);
      var all := WithAll(v, murmur, items);
      forall i: nat | i < v.funcs ensures Offset(v.size, v.tweak, murmur, i, x) in Offsets(all, murmur, x) {
      }
    }
  }

  /** A filter without bits matches nothing, unless it has no hash function. */
  lemma {:induction false} EmptyMatchesNothing(v: View, murmur: Murmur, x: Data)
    requires v.Valid() && v.Loaded? && v.bits == {}
    ensures Matches(v, murmur, x) <==> v.funcs == 0
  {
    hide Offset, Shl;
    MatchesAfterIff(v, murmur, [], x);
    assert WithAll(v, murmur, []) == v;
    if v.funcs > 0 {
      assert Offset(v.size, v.tweak, murmur, 0, x) !in v.bits;
    }
  }

  // ----- the concrete filter -----

  function SetBits(data: seq<byte>): set<nat> {
    set k | 0 <= k < 8 * |data| && Bit(data[k / 8], k % 8)
  }

  lemma {:induction false} OrAddsBit(before: seq<byte>, after: seq<byte>, idx: nat)
    requires idx < 8 * |before|
    requires after == before[idx / 8 := before[idx / 8] | ((1 as byte) << (idx % 8))]
    ensures SetBits(after) == SetBits(before) + {idx}
  {
    forall k | 0 <= k < 8 * |before|
      ensures Bit(after[k / 8], k % 8) <==> Bit(before[k / 8], k % 8) || k == idx
    {
      if k / 8 == idx / 8 {
        OrSetsBit(before[idx / 8], 1, idx % 8, k % 8);
      }
    }
  }

  /** The filterload message: its byte array is updated in place. */
  class FilterLoad {
    const data: array<byte>
    const funcs: uint32
    const tweak: uint32

    constructor (data: array<byte>, funcs: uint32, tweak: uint32)
      ensures this.data == data && this.funcs == funcs && this.tweak == tweak
    {
      this.data, this.funcs, this.tweak := data, funcs, tweak;
    }
  }

  class Filter {
    var msg: FilterLoad?
    const murmur: Murmur

    constructor (msg: FilterLoad?, murmur: Murmur)
      ensures this.msg == msg && this.murmur == murmur
    {
      this.msg, this.murmur := msg, murmur;
    }

    ghost function Footprint(): set<object>
      reads this
    {
      if msg == null then {} else {msg.data}
    }

    ghost function View(): (v: View)
      reads this, Footprint()
    {
      if msg == null then Unloaded else Loaded(SetBits(msg.data[..]), msg.funcs, msg.tweak, msg.data.Length)
    }

    ghost predicate Valid()
      reads this, Footprint()
    {
      View().Valid()
    }

    method Hash(hashNum: uint32, data: Data) returns (idx: uint32)
      requires msg != null && Shl(msg.data.Length, 3) != 0
      ensures idx == Offset(msg.data.Length, msg.tweak, murmur, hashNum, data) && idx / 8 < msg.data.Length
      ensures 8 * msg.data.Length % WORD != 0
      ensures idx == murmur((hashNum * 0xfba4c795 + msg.tweak) % WORD, data) % (8 * msg.data.Length % WORD)
    {
      assert Pow2(3) == 8;
      OffsetIs(msg.data.Length, msg.tweak, murmur, hashNum, data);
      OffsetInRange(msg.data.Length);
      var seed := Add((hashNum * 0xfba4c795) % WORD, msg.tweak);
      idx := murmur(seed, data) % Shl(msg.data.Length, 3);
    }

    method Test(data: Data) returns (res: bool)
      requires Valid()
      ensures res == Matches(View(), murmur, data)
      ensures res <==> msg != null && forall i: nat :: i < msg.funcs ==>
        var k := Offset(msg.data.Length, msg.tweak, murmur, i, data);
        Bit(msg.data[k / 8], k % 8)
    {
      hide Offset, Shl, Bit;
      if msg == null {
        return false;
      }
      var i: uint32 := 0;
      while i < msg.funcs
        invariant i <= msg.funcs
        invariant forall j: nat :: j < i ==> Offset(msg.data.Length, msg.tweak, murmur, j, data) in View().bits
      {
        var idx := Hash(i, data);
        if !Bit(msg.data[idx / 8], idx % 8) {
          assert idx !in View().bits && idx in Offsets(View(), murmur, data);
          return false;
        }
        i := i + 1;
      }
      return true;
    }

    method Put(data: Data)
      requires Valid()
      modifies Footprint()
      ensures Valid() && View() == With(old(View()), murmur, data)
    {
      hide Offset, Shl, Bit, SetBits;
      if msg == null {
        return;
      }
      ghost var v := View();
      var i: uint32 := 0;
      while i < msg.funcs
        invariant i <= msg.funcs
        invariant View() == v.(bits := v.bits + set j: nat | j < i :: Offset(v.size, v.tweak, murmur, j, data))
      {
        ghost var before := msg.data[..];
        var idx := Hash(i, data);
        msg.data[idx / 8] := msg.data[idx / 8] | ((1 as byte) << (idx % 8));
        OrAddsBit(before, msg.data[..], idx);
        i := i + 1;
      }
    }
  }

  // ----- matching transactions -----

  datatype OutPoint = OutPoint(txId: Hash, index: nat)
  {
    /** The transaction id followed by the output index as a 16-bit little-endian number. */
    function Bytes(): Data {
      txId.bytes + [(index % 256) as byte, (index / 256 % 256) as byte]
    }
  }

  /** The parts of a transaction that matching looks at: outputs are their program hashes. */
  datatype Tx = Tx(id: Hash, outputs: seq<Data>, inputs: seq<OutPoint>)
  {
    /** Outpoint of output k, whose index is truncated to 16 bits. */
    function Output(k: nat): OutPoint {
      OutPoint(id, k % 0x1_0000)
    }
  }

  /** The filter after the first k outputs of tx have been examined. */
  function AfterOutputs(v: View, murmur: Murmur, tx: Tx, k: nat): (v': View)
    requires v.Valid() && k <= |tx.outputs|
    ensures v'.Valid()
  {
    if k == 0 then v
    else
      var w := AfterOutputs(v, murmur, tx, k - 1);
      if Matches(w, murmur, tx.outputs[k - 1]) then With(w, murmur, tx.Output(k - 1).Bytes()) else w
  }

  predicate SomeOutput(v: View, murmur: Murmur, tx: Tx, k: nat)
    requires v.Valid() && k <= |tx.outputs|
  {
    k > 0 && (SomeOutput(v, murmur, tx, k - 1)
              || Matches(AfterOutputs(v, murmur, tx, k - 1), murmur, tx.outputs[k - 1]))
  }

  predicate TxMatches(v: View, murmur: Murmur, tx: Tx)
    requires v.Valid()
  {
    || Matches(v, murmur, tx.id.bytes)
    || SomeOutput(v, murmur, tx, |tx.outputs|)
    || exists k :: 0 <= k < |tx.inputs| && Matches(v, murmur, tx.inputs[k].Bytes())
  }

  lemma {:induction false} UnchangedWithoutOutput(v: View, murmur: Murmur, tx: Tx, k: nat)
    requires v.Valid() && k <= |tx.outputs| && !SomeOutput(v, murmur, tx, k)
    ensures AfterOutputs(v, murmur, tx, k) == v
  {
    if k > 0 {
      UnchangedWithoutOutput(v, murmur, tx, k - 1);
    }
  }

  lemma {:induction false} FirstMatchCounts(v: View, murmur: Murmur, tx: Tx, k: nat)
    requires v.Valid() && k <= |tx.outputs|
    ensures SomeOutput(v, murmur, tx, k) <==> exists o :: 0 <= o < k && Matches(v, murmur, tx.outputs[o])
  {
    hide Matches, With;
    if k > 0 {
      FirstMatchCounts(v, murmur, tx, k - 1);
      if !SomeOutput(v, murmur, tx, k - 1) {
        UnchangedWithoutOutput(v, murmur, tx, k - 1);
      }
    }
  }

  /** A transaction matches exactly when the filter, as it was before, matches its id, an output or an
      outpoint it spends: what is added on the way decides nothing for the same transaction. One that does
      not match adds nothing. */
  lemma {:induction false} TxMatchesIff(v: View, murmur: Murmur, tx: Tx)
    requires v.Valid()
    ensures TxMatches(v, murmur, tx) <==>
      (|| Matches(v, murmur, tx.id.bytes)
       || (exists o :: 0 <= o < |tx.outputs| && Matches(v, murmur, tx.outputs[o]))
       || (exists k :: 0 <= k < |tx.inputs| && Matches(v, murmur, tx.inputs[k].Bytes())))
    ensures (forall o :: 0 <= o < |tx.outputs| ==> !Matches(v, murmur, tx.outputs[o])) ==>
      AfterOutputs(v, murmur, tx, |tx.outputs|) == v
  {
    hide Matches, With;
    FirstMatchCounts(v, murmur, tx, |tx.outputs|);
    if !SomeOutput(v, murmur, tx, |tx.outputs|) {
      UnchangedWithoutOutput(v, murmur, tx, |tx.outputs|);
    }
  }

  /** A bit is set afterwards exactly when it was before or belongs to the outpoint of an output that
      matched when its turn came. */
  lemma {:induction false} BitsOfOutputs(v: View, murmur: Murmur, tx: Tx, k: nat)
    requires v.Valid() && v.Loaded? && k <= |tx.outputs|
    ensures
      var w := AfterOutputs(v, murmur, tx, k);
      && w.Loaded? && w == v.(bits := w.bits)
      && forall b :: b in w.bits <==>
           (b in v.bits || exists o, j: nat ::
              0 <= o < k && j < v.funcs && Matches(AfterOutputs(v, murmur, tx, o), murmur, tx.outputs[o])
              && b == Offset(v.size, v.tweak, murmur, j, OutPoint(tx.id, o % 0x1_0000).Bytes()))
  {
    hide Matches, Offset, Shl, OutPoint.Bytes;
    if k > 0 {
      BitsOfOutputs(v, murmur, tx, k - 1);
    }
  }

  method MatchFilter(tx: Tx, bf: Filter) returns (matched: bool)
    requires bf.Valid()
    modifies bf.Footprint()
    ensures bf.Valid()
    ensures matched == TxMatches(old(bf.View()), bf.murmur, tx)
    ensures bf.View() == AfterOutputs(old(bf.View()), bf.murmur, tx, |tx.outputs|)
    ensures !matched ==> bf.View() == old(bf.View())
  {
    hide Offset, Shl, Offsets, SetBits, Matches, With;
    ghost var v := bf.View();
    matched := bf.Test(tx.id.bytes);
    var i := 0;
    while i < |tx.outputs|
      invariant 0 <= i <= |tx.outputs| && bf.Valid()
      invariant bf.View() == AfterOutputs(v, bf.murmur, tx, i)
      invariant matched == (Matches(v, bf.murmur, tx.id.bytes) || SomeOutput(v, bf.murmur, tx, i))
    {
      var hit := bf.Test(tx.outputs[i]);
      if hit {
        matched := true;
        bf.Put(tx.Output(i).Bytes());
      }
      i := i + 1;
    }
    if matched {
      return true;
    }
    UnchangedWithoutOutput(v, bf.murmur, tx, |tx.outputs|);
    var k := 0;
    while k < |tx.inputs|
      invariant 0 <= k <= |tx.inputs| && bf.View() == v
      invariant forall j :: 0 <= j < k ==> !Matches(v, bf.murmur, tx.inputs[j].Bytes())
    {
      var hit := bf.Test(tx.inputs[k].Bytes());
      if hit {
        return true;
      }
      k := k + 1;
    }
    return false;
  }

  // ----- scanning a block -----

  /** The filter before transaction k of a block is examined. */
  function Before(v: View, murmur: Murmur, txs: seq<Tx>, k: nat): (v': View)
    requires v.Valid() && k <= |txs|
    ensures v'.Valid()
  {
    if k == 0 then v
    else AfterOutputs(Before(v, murmur, txs, k - 1), murmur, txs[k - 1], |txs[k - 1].outputs|)
  }

  /** Which transactions of the block match. */
  function Scan(v: View, murmur: Murmur, txs: seq<Tx>): (matches: seq<bool>)
    requires v.Valid()
    ensures |matches| == |txs|
  {
    seq(|txs|, k requires 0 <= k < |txs| => TxMatches(Before(v, murmur, txs, k), murmur, txs[k]))
  }

  /** Examining outputs only extends the filter, and covers the outpoints of matching outputs. */
  lemma {:induction false} OutputsExtend(v: View, murmur: Murmur, tx: Tx, k: nat)
    requires v.Valid() && k <= |tx.outputs|
    ensures forall x :: Matches(v, murmur, x) ==> Matches(AfterOutputs(v, murmur, tx, k), murmur, x)
    ensures forall j :: 0 <= j < k && Matches(v, murmur, tx.outputs[j]) ==>
      SomeOutput(v, murmur, tx, k) && Matches(AfterOutputs(v, murmur, tx, k), murmur, tx.Output(j).Bytes())
  {
    if k > 0 {
      OutputsExtend(v, murmur, tx, k - 1);
      var w := AfterOutputs(v, murmur, tx, k - 1);
      forall x | Matches(w, murmur, x) ensures Matches(AfterOutputs(v, murmur, tx, k), murmur, x) {
        AddedMatches(w, murmur, tx.Output(k - 1).Bytes(), x);
      }
      AddedMatches(w, murmur, tx.Output(k - 1).Bytes(), tx.Output(k - 1).Bytes());
    }
  }

  lemma {:induction false} ScanExtends(v: View, murmur: Murmur, txs: seq<Tx>, k: nat)
    requires v.Valid() && k <= |txs|
    ensures forall x :: Matches(v, murmur, x) ==> Matches(Before(v, murmur, txs, k), murmur, x)
    ensures forall j, o :: 0 <= j < k && 0 <= o < |txs[j].outputs| && Matches(v, murmur, txs[j].outputs[o]) ==>
      Matches(Before(v, murmur, txs, k), murmur, txs[j].Output(o).Bytes())
  {
    if k > 0 {
      ScanExtends(v, murmur, txs, k - 1);
      OutputsExtend(Before(v, murmur, txs, k - 1), murmur, txs[k - 1], |txs[k - 1].outputs|);
    }
  }

  /** The filter matches the id of the transaction, an output, or an outpoint it spends. */
  predicate Touches(v: View, murmur: Murmur, tx: Tx)
    requires v.Valid()
  {
    || Matches(v, murmur, tx.id.bytes)
    || (exists o :: 0 <= o < |tx.outputs| && Matches(v, murmur, tx.outputs[o]))
    || (exists i :: 0 <= i < |tx.inputs| && Matches(v, murmur, tx.inputs[i].Bytes()))
  }

  /** No other positives over a block: while the filter touches no transaction, as it came, it stays as it
      is, nothing matches, and the first transaction that it touches is the first to match. */
  lemma {:induction false} FirstTouchedMatches(v: View, murmur: Murmur, txs: seq<Tx>, k: nat)
    requires v.Valid() && k < |txs| && forall j :: 0 <= j < k ==> !Touches(v, murmur, txs[j])
    ensures Before(v, murmur, txs, k) == v
    ensures Scan(v, murmur, txs)[k] <==> Touches(v, murmur, txs[k])
  {
    hide Matches, TxMatches, Touches;
    UntouchedSoFar(v, murmur, txs, k);
    TouchedIffMatched(v, murmur, txs[k]);
  }

  lemma {:induction false} UntouchedSoFar(v: View, murmur: Murmur, txs: seq<Tx>, k: nat)
    requires v.Valid() && k <= |txs| && forall j :: 0 <= j < k ==> !Touches(v, murmur, txs[j])
    ensures Before(v, murmur, txs, k) == v
  {
    hide Matches, Touches, AfterOutputs;
    if k > 0 {
      UntouchedSoFar(v, murmur, txs, k - 1);
      UntouchedChangesNothing(v, murmur, txs[k - 1]);
    }
  }

  lemma {:induction false} TouchedIffMatched(v: View, murmur: Murmur, tx: Tx)
    requires v.Valid()
    ensures TxMatches(v, murmur, tx) <==> Touches(v, murmur, tx)
  {
    hide Matches, TxMatches;
    TxMatchesIff(v, murmur, tx);
  }

  lemma {:induction false} UntouchedChangesNothing(v: View, murmur: Murmur, tx: Tx)
    requires v.Valid() && !Touches(v, murmur, tx)
    ensures AfterOutputs(v, murmur, tx, |tx.outputs|) == v
  {
    hide Matches, TxMatches, AfterOutputs;
    TxMatchesIff(v, murmur, tx);
  }

  /** Transaction k concerns the watched strings: its id is watched, it pays a watched program
      hash, or it spends a watched outpoint or an output that an earlier transaction of the
      block paid to a watched program hash. */
  ghost predicate Relevant(watched: set<Data>, txs: seq<Tx>, k: nat)
    requires k < |txs|
  {
    || txs[k].id.bytes in watched
    || (exists o :: 0 <= o < |txs[k].outputs| && txs[k].outputs[o] in watched)
    || (exists i :: 0 <= i < |txs[k].inputs| && txs[k].inputs[i].Bytes() in watched)
    || (exists i, j, o :: 0 <= i < |txs[k].inputs| && 0 <= j < k && 0 <= o < |txs[j].outputs|
          && txs[j].outputs[o] in watched && txs[k].inputs[i] == txs[j].Output(o))
  }

  /** Filter completeness over a block: every relevant transaction is matched. */
  lemma {:induction false} RelevantIsMatched(v: View, murmur: Murmur, txs: seq<Tx>, watched: set<Data>, k: nat)
    requires v.Valid() && k < |txs| && forall w :: w in watched ==> Matches(v, murmur, w)
    requires Relevant(watched, txs, k)
    ensures Scan(v, murmur, txs)[k]
  {
    var w := Before(v, murmur, txs, k);
    ScanExtends(v, murmur, txs, k);
    if o :| 0 <= o < |txs[k].outputs| && txs[k].outputs[o] in watched {
      OutputsExtend(w, murmur, txs[k], |txs[k].outputs|);
    }
  }
}
