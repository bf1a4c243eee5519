/** The byte forms interface/store keeps in its database: 32-bit numbers, arrays of them, and
    the two sorted key lists of an arbiter entry. */
module StoreCodec {
  import opened Word32
  import opened Wrappers

  /** A byte on which no bit operation is used. */
  type octet = n: nat | n < 256

  // ----- numbers -----

  function U32Bytes(n: uint32): (b: seq<octet>)
    ensures |b| == 4
  {
    var second: nat, third: nat := n / 256, n / 65536;
    [n % 256, second % 256, third % 256, n / 16777216]
  }

  function BytesU32(b: seq<octet>): uint32
    requires |b| >= 4
  {
    var d0: nat, d1: nat, d2: nat, d3: nat := b[0], b[1], b[2], b[3];
    d0 + 256 * d1 + 65536 * d2 + 16777216 * d3
  }

  lemma {:induction false} U32RoundTrip(n: uint32)
    ensures BytesU32(U32Bytes(n)) == n
  {
    var q, r := n / 65536, n / 256;
    assert n / 256 / 256 == n / 65536 && n / 65536 / 256 == n / 16777216;
    assert n == n % 256 + 256 * (r % 256) + 65536 * (q % 256) + 16777216 * (n / 16777216);
  }

  // ----- arrays of numbers -----

  function Flat(data: seq<uint32>): (b: seq<octet>)
    ensures |b| == 4 * |data|
  {
    if data == [] then [] else Flat(data[..|data| - 1]) + U32Bytes(data[|data| - 1])
  }

  /** The length prefix is a 32-bit cast of the length. */
  function ArrayBytes(data: seq<uint32>): (b: seq<octet>)
    ensures |b| == 4 + 4 * |data|
  {
    U32Bytes(|data| % WORD) + Flat(data)
  }

  method EncodeArray(data: seq<uint32>) returns (b: seq<octet>)
    ensures b == ArrayBytes(data)
  {
    b := U32Bytes(|data| % WORD);
    var i := 0;
    while i < |data|
      invariant 0 <= i <= |data|
      invariant b == U32Bytes(|data| % WORD) + Flat(data[..i])
    {
      assert data[..i + 1][..i] == data[..i];
      b := b + U32Bytes(data[i]);
      i := i + 1;
    }
    assert data[..|data|] == data;
  }

  /** The array a byte string announces; the reader indexes past the end of a shorter one. */
  function ReadBack(b: seq<octet>): seq<uint32>
    requires |b| >= 4 && |b| >= 4 + 4 * BytesU32(b[..4])
  {
    seq(BytesU32(b[..4]), i requires 0 <= i < BytesU32(b[..4]) => BytesU32(b[4 * i + 4..4 * i + 8]))
  }

  method DecodeArray(b: seq<octet>) returns (data: seq<uint32>)
    requires |b| >= 4 && |b| >= 4 + 4 * BytesU32(b[..4])
    ensures data == ReadBack(b)
  {
    var len := BytesU32(b[..4]);
    data := [];
    var i: nat := 0;
    while i < len
      invariant 0 <= i <= len
      invariant |data| == i && forall k :: 0 <= k < i ==> data[k] == ReadBack(b)[k]
    {
      data := data + [BytesU32(b[4 * i + 4..4 * i + 8])];
      i := i + 1;
    }
  }

  lemma {:induction false} FlatAt(data: seq<uint32>, i: nat)
    requires i < |data|
    ensures Flat(data)[4 * i..4 * i + 4] == U32Bytes(data[i])
  {
    var front := data[..|data| - 1];
    if i < |front| {
      FlatAt(front, i);
      assert Flat(data)[4 * i..4 * i + 4] == Flat(front)[4 * i..4 * i + 4];
    }
  }

  /** What is read back is the array cut to its length modulo 2^32: the whole array exactly when
      it has fewer than 2^32 entries. */
  lemma {:induction false} ArrayRoundTrip(data: seq<uint32>)
    ensures |data| % WORD <= |data| && BytesU32(ArrayBytes(data)[..4]) == |data| % WORD
    ensures ReadBack(ArrayBytes(data)) == data[..|data| % WORD]
    ensures ReadBack(ArrayBytes(data)) == data <==> |data| < WORD
  {
    var b, n := ArrayBytes(data), |data| % WORD;
    U32RoundTrip(n);
    assert b[..4] == U32Bytes(n);
    assert n <= |data|;
    forall i | 0 <= i < n ensures BytesU32(b[4 * i + 4..4 * i + 8]) == data[i] {
      FlatAt(data, i);
      U32RoundTrip(data[i]);
      assert b[4 * i + 4..4 * i + 8] == Flat(data)[4 * i..4 * i + 4];
    }
    assert ReadBack(b) == data[..n];
  }

  /** A list as the database holds it: no value at all while it is empty. */
  ghost predicate StoredAs(stored: Option<seq<octet>>, list: seq<uint32>) {
    |list| < WORD && stored == (if list == [] then None else Some(ArrayBytes(list)))
  }

  method ReadList(stored: Option<seq<octet>>, ghost list: seq<uint32>) returns (r: seq<uint32>)
    requires StoredAs(stored, list)
    ensures r == list
  {
    hide ArrayBytes, ReadBack;
    if stored == None {
      return [];
    }
    ArrayRoundTrip(list);
    assert list[..|list|] == list;
    r := DecodeArray(stored.value);
  }

  // ----- keys and their order -----

  type Key = seq<octet>

  /** The lexicographic order of bytes.Compare. */
  predicate Leq(a: Key, b: Key) {
    a == [] || (b != [] && (a[0] < b[0] || (a[0] == b[0] && Leq(a[1..], b[1..]))))
  }

  /** A prefix comes first; otherwise the first byte that differs decides. */
  lemma {:induction false} LeqIsLexicographic(a: Key, b: Key)
    ensures Leq(a, b) <==>
      (a <= b || exists i :: 0 <= i < |a| && i < |b| && a[..i] == b[..i] && a[i] < b[i])
  {
    if a != [] && b != [] && a[0] == b[0] {
      var a', b' := a[1..], b[1..];
      LeqIsLexicographic(a', b');
      assert a == [a[0]] + a' && b == [b[0]] + b';
      if i :| 0 <= i < |a'| && i < |b'| && a'[..i] == b'[..i] && a'[i] < b'[i] {
        assert a[..i + 1] == [a[0]] + a'[..i] && b[..i + 1] == [b[0]] + b'[..i] && a[i + 1] < b[i + 1];
      }
      if i :| 0 <= i < |a| && i < |b| && a[..i] == b[..i] && a[i] < b[i] {
        assert i > 0 && a'[..i - 1] == a[..i][1..] && b'[..i - 1] == b[..i][1..] && a'[i - 1] < b'[i - 1];
      }
    }
    if a != [] && b != [] && a[0] < b[0] {
      assert a[..0] == b[..0];
    }
    if i :| 0 <= i < |a| && i < |b| && a[..i] == b[..i] && a[i] < b[i] {
      assert i > 0 ==> a[..i][0] == b[..i][0];
    }
  }

  lemma {:induction false} LeqTotal(a: Key, b: Key)
    ensures Leq(a, b) || Leq(b, a)
  {
    if a != [] && b != [] {
      LeqTotal(a[1..], b[1..]);
    }
  }

  lemma {:induction false} LeqAntisymmetric(a: Key, b: Key)
    requires Leq(a, b) && Leq(b, a)
    ensures a == b
  {
    if a != [] {
      LeqAntisymmetric(a[1..], b[1..]);
      assert a == [a[0]] + a[1..] && b == [b[0]] + b[1..];
    }
  }

  lemma {:induction false} LeqTransitive(a: Key, b: Key, c: Key)
    requires Leq(a, b) && Leq(b, c)
    ensures Leq(a, c)
  {
    if a != [] && a[0] == b[0] == c[0] {
      LeqTransitive(a[1..], b[1..], c[1..]);
    }
  }

  ghost predicate Sorted(s: seq<Key>) {
    forall i, j :: 0 <= i < j < |s| ==> Leq(s[i], s[j])
  }

  function Insert(k: Key, s: seq<Key>): seq<Key> {
    if s == [] || Leq(k, s[0]) then [k] + s else [s[0]] + Insert(k, s[1..])
  }

  /** The keys in ascending order. */
  function Sort(s: seq<Key>): seq<Key> {
    if s == [] then [] else Insert(s[0], Sort(s[1..]))
  }

  lemma {:induction false} InsertKeepsSorted(k: Key, s: seq<Key>)
    requires Sorted(s)
    ensures Sorted(Insert(k, s)) && multiset(Insert(k, s)) == multiset(s) + multiset{k}
  {
    hide Leq;
    if s != [] {
      assert s == [s[0]] + s[1..];
      if Leq(k, s[0]) {
        forall j | 0 <= j < |s| ensures Leq(k, s[j]) {
          if j > 0 {
            LeqTransitive(k, s[0], s[j]);
          }
        }
      } else {
        LeqTotal(k, s[0]);
        InsertKeepsSorted(k, s[1..]);
        var rest := Insert(k, s[1..]);
        forall j | 0 <= j < |rest| ensures Leq(s[0], rest[j]) {
          assert rest[j] in multiset(rest);
          assert rest[j] == k || rest[j] in s[1..];
        }
      }
    }
  }

  lemma {:induction false} SortSorts(s: seq<Key>)
    ensures Sorted(Sort(s)) && multiset(Sort(s)) == multiset(s)
  {
    if s != [] {
      SortSorts(s[1..]);
      InsertKeepsSorted(s[0], Sort(s[1..]));
      assert s == [s[0]] + s[1..];
    }
  }

  /** There is one sorted arrangement of a multiset of keys, so the sorting algorithm and the order
      the caller listed the keys in do not matter. */
  lemma {:induction false} SortedIsUnique(a: seq<Key>, b: seq<Key>)
    requires Sorted(a) && Sorted(b) && multiset(a) == multiset(b)
    ensures a == b
  {
    hide Leq;
    if a == [] {
      assert |b| == |multiset(b)| == 0;
    } else {
      SameLeast(a, b);
      assert a == [a[0]] + a[1..] && b == [b[0]] + b[1..];
      assert multiset(a[1..]) == multiset(a) - multiset{a[0]};
      assert multiset(b[1..]) == multiset(b) - multiset{b[0]};
      SortedIsUnique(a[1..], b[1..]);
    }
  }

  lemma {:induction false} SameLeast(a: seq<Key>, b: seq<Key>)
    requires Sorted(a) && Sorted(b) && multiset(a) == multiset(b) && a != []
    ensures b != [] && a[0] == b[0]
  {
    hide Leq;
    assert |b| == |multiset(b)| == |a|;
    assert a[0] in multiset(b) && b[0] in multiset(a);
    var i :| 0 <= i < |b| && b[i] == a[0];
    var j :| 0 <= j < |a| && a[j] == b[0];
    if i > 0 && j > 0 {
      LeqAntisymmetric(a[0], b[0]);
    }
  }

  // ----- key lists -----

  /** The reader rejects a key above this length. */
  const MAX_KEY := 33

  ghost predicate Short(keys: seq<Key>) {
    forall k :: k in keys ==> |k| <= MAX_KEY
  }

  lemma {:induction false} Associate(a: seq<octet>, b: seq<octet>, c: seq<octet>)
    ensures (a + b) + c == a + (b + c)
  {
  }

  /** The variable-length form of a length; below 0xfd it is the length itself. */
  function VarLength(n: nat): seq<octet> {
    if n < 0xfd then [n]
    else if n < 0x1_0000 then [0xfd] + U32Bytes(n)[..2]
    else if n < WORD then [0xfe] + U32Bytes(n)
    else [0xff] + U32Bytes(n % WORD) + U32Bytes(n / WORD % WORD)
  }

  /** A key is written as its length and its bytes. */
  function Item(k: Key): seq<octet> {
    VarLength(|k|) + k
  }

  function EncodeKeys(keys: seq<Key>): seq<octet> {
    if keys == [] then [] else EncodeKeys(keys[..|keys| - 1]) + Item(keys[|keys| - 1])
  }

  datatype Parsed = Parsed(keys: seq<Key>, rest: seq<octet>)

  /** Reads one key: fails at the end of the input, on a length above the limit, and on a key cut short. */
  function ReadKey(b: seq<octet>): Option<Parsed> {
    if b == [] || b[0] > MAX_KEY || |b| < 1 + b[0] then None
    else Some(Parsed([b[1..1 + b[0]]], b[1 + b[0]..]))
  }

  function Onto(keys: seq<Key>, p: Option<Parsed>): Option<Parsed> {
    if p == None then None else Some(Parsed(keys + p.value.keys, p.value.rest))
  }

  function DecodeKeys(n: nat, b: seq<octet>): Option<Parsed> {
    if n == 0 then Some(Parsed([], b))
    else
      match ReadKey(b)
      case None => None
      case Some(first) => Onto(first.keys, DecodeKeys(n - 1, first.rest))
  }

  method WriteKeys(buf: seq<octet>, keys: seq<Key>) returns (b: seq<octet>)
    ensures b == buf + EncodeKeys(keys)
  {
    b := buf;
    var i := 0;
    while i < |keys|
      invariant 0 <= i <= |keys|
      invariant b == buf + EncodeKeys(keys[..i])
    {
      assert keys[..i + 1][..i] == keys[..i];
      Associate(buf, EncodeKeys(keys[..i]), Item(keys[i]));
      b := b + Item(keys[i]);
      i := i + 1;
    }
    assert keys[..|keys|] == keys;
  }

  lemma {:induction false} OntoOnto(a: seq<Key>, b: seq<Key>, p: Option<Parsed>)
    ensures Onto(a, Onto(b, p)) == Onto(a + b, p) && Onto([], p) == p
  {
    if p.Some? {
      assert a + (b + p.value.keys) == (a + b) + p.value.keys && [] + p.value.keys == p.value.keys;
    }
  }

  method ReadKeys(n: nat, b: seq<octet>) returns (r: Option<Parsed>)
    ensures r == DecodeKeys(n, b)
  {
    hide Onto, ReadKey;
    var keys, rest := [], b;
    var i := 0;
    OntoOnto([], [], DecodeKeys(n, b));
    while i < n
      invariant 0 <= i <= n
      invariant DecodeKeys(n, b) == Onto(keys, DecodeKeys(n - i, rest))
    {
      var one := ReadKey(rest);
      if one == None {
        NothingOnto(keys);
        return None;
      }
      OntoOnto(keys, one.value.keys, DecodeKeys(n - i - 1, one.value.rest));
      keys, rest := keys + one.value.keys, one.value.rest;
      i := i + 1;
    }
    r := Some(Parsed(keys, rest));
    NothingOnto(keys);
    assert keys + [] == keys;
    assert Onto(keys, Some(Parsed([], rest))) == r by { OntoSome(keys, [], rest); }
  }

  lemma {:induction false} NothingOnto(keys: seq<Key>)
    ensures Onto(keys, None) == None
  {
  }

  lemma {:induction false} OntoSome(a: seq<Key>, b: seq<Key>, rest: seq<octet>)
    ensures Onto(a, Some(Parsed(b, rest))) == Some(Parsed(a + b, rest))
  {
  }

  lemma {:induction false} EncodeKeysFirst(keys: seq<Key>)
    requires keys != []
    ensures EncodeKeys(keys) == Item(keys[0]) + EncodeKeys(keys[1..])
  {
    hide Item;
    if |keys| == 1 {
      assert EncodeKeys(keys) == [] + Item(keys[0]);
      assert keys[1..] == [];
    } else {
      var front, last := keys[..|keys| - 1], keys[|keys| - 1];
      EncodeKeysFirst(front);
      assert keys[1..][..|keys| - 2] == front[1..];
      Associate(Item(keys[0]), EncodeKeys(front[1..]), Item(last));
    }
  }

  lemma {:induction false} ReadItem(k: Key, rest: seq<octet>)
    requires |k| <= MAX_KEY
    ensures ReadKey(Item(k) + rest) == Some(Parsed([k], rest))
  {
    var b := Item(k) + rest;
    assert b[0] == |k| && b[1..1 + |k|] == k && b[1 + |k|..] == rest;
  }

  lemma {:induction false} KeysRoundTrip(keys: seq<Key>, rest: seq<octet>)
    requires Short(keys)
    ensures DecodeKeys(|keys|, EncodeKeys(keys) + rest) == Some(Parsed(keys, rest))
  {
    hide Item, ReadKey, Onto;
    if keys == [] {
      assert EncodeKeys(keys) + rest == rest;
    } else {
      EncodeKeysFirst(keys);
      var tail := EncodeKeys(keys[1..]) + rest;
      KeysRoundTrip(keys[1..], rest);
      Associate(Item(keys[0]), EncodeKeys(keys[1..]), rest);
      ReadItem(keys[0], tail);
      OntoSome([keys[0]], keys[1..], rest);
      assert [keys[0]] + keys[1..] == keys;
    }
  }

  /** What is parsed is the written form of what is returned, followed by the rest. */
  lemma {:induction false} KeysParsed(n: nat, b: seq<octet>)
    ensures DecodeKeys(n, b).Some? ==>
      var p := DecodeKeys(n, b).value;
      |p.keys| == n && Short(p.keys) && b == EncodeKeys(p.keys) + p.rest
  {
    hide Item, EncodeKeys;
    if n == 0 {
      NoKeys();
      assert [] + b == b;
    } else if ReadKey(b).Some? {
      var first := ReadKey(b).value;
      ItemParsed(b);
      KeysParsed(n - 1, first.rest);
      if DecodeKeys(n, b).Some? {
        var more := DecodeKeys(n - 1, first.rest).value;
        var keys := first.keys + more.keys;
        assert keys[1..] == more.keys;
        EncodeKeysFirst(keys);
        Associate(Item(keys[0]), EncodeKeys(more.keys), more.rest);
      }
    }
  }

  lemma {:induction false} NoKeys()
    ensures EncodeKeys([]) == []
  {
  }

  lemma {:induction false} ItemParsed(b: seq<octet>)
    requires ReadKey(b).Some?
    ensures var p := ReadKey(b).value;
      |p.keys| == 1 && |p.keys[0]| <= MAX_KEY && b == Item(p.keys[0]) + p.rest
  {
  }

  // ----- an arbiter entry -----

  datatype Lists = Lists(crc: seq<Key>, normal: seq<Key>)

  /** The lists the reader can read: the counts fit a byte and no key is too long. */
  ghost predicate Encodable(l: Lists) {
    |l.crc| <= 255 && |l.normal| <= 255 && Short(l.crc) && Short(l.normal)
  }

  function Arranged(l: Lists): Lists {
    Lists(Sort(l.crc), Sort(l.normal))
  }

  /** The counts are cast to bytes. */
  function EncodeLists(l: Lists): seq<octet> {
    [|l.crc| % 256] + EncodeKeys(l.crc) + [|l.normal| % 256] + EncodeKeys(l.normal)
  }

  /** The bytes of a single key: counts first, then the key behind its length. */
  lemma {:induction false} OneKeyBytes(k: Key)
    requires |k| <= 33
    ensures EncodeLists(Lists([k], [])) == [1, |k|] + k + [0]
    ensures EncodeLists(Lists([], [k])) == [0, 1, |k|] + k
  {
    assert EncodeKeys([k]) == EncodeKeys([]) + Item(k) == [|k|] + k;
  }

  function DecodeLists(b: seq<octet>): Option<Lists> {
    if b == [] then None
    else
      match DecodeKeys(b[0], b[1..])
      case None => None
      case Some(crc) =>
        if crc.rest == [] then None
        else
          match DecodeKeys(crc.rest[0], crc.rest[1..])
          case None => None
          case Some(normal) => Some(Lists(crc.keys, normal.keys))
  }

  /** An encoded pair of lists is read back, whatever follows it. */
  lemma {:induction false} ListsRoundTrip(l: Lists, rest: seq<octet>)
    requires Encodable(l)
    ensures DecodeLists(EncodeLists(l) + rest) == Some(l)
    ensures DecodeLists(EncodeLists(l)) == Some(l)
  {
    ListsReadBack(l, rest);
    ListsReadBack(l, []);
    hide EncodeLists, DecodeLists;
    assert EncodeLists(l) + [] == EncodeLists(l);
  }

  lemma {:induction false} ListsReadBack(l: Lists, rest: seq<octet>)
    requires Encodable(l)
    ensures DecodeLists(EncodeLists(l) + rest) == Some(l)
  {
    hide EncodeKeys, DecodeKeys;
    var normal := EncodeKeys(l.normal);
    var tail := [|l.normal|] + (normal + rest);
    var b := EncodeLists(l) + rest;
    KeysRoundTrip(l.crc, tail);
    KeysRoundTrip(l.normal, rest);
    assert b[1..] == EncodeKeys(l.crc) + tail;
    assert tail[1..] == normal + rest;
  }

  /** The reader accepts only what begins with the written form of the lists it returns. */
  lemma {:induction false} ListsParsed(b: seq<octet>)
    ensures DecodeLists(b).Some? ==>
      var l := DecodeLists(b).value; Encodable(l) && EncodeLists(l) <= b
  {
    hide DecodeKeys, EncodeKeys;
    if DecodeLists(b).Some? {
      var crc := DecodeKeys(b[0], b[1..]).value;
      KeysParsed(b[0], b[1..]);
      KeysParsed(crc.rest[0], crc.rest[1..]);
      var normal := DecodeKeys(crc.rest[0], crc.rest[1..]).value;
      assert b == [b[0]] + b[1..] && crc.rest == [crc.rest[0]] + crc.rest[1..];
      assert b == EncodeLists(Lists(crc.keys, normal.keys)) + normal.rest;
    }
  }

  /** Exactly what the reader accepts: bytes that begin with the written form of lists of at most 255 keys
      of at most 33 bytes each, whatever follows; and it returns those lists. */
  lemma {:induction false} ReadsExactly(b: seq<octet>, l: Lists)
    ensures DecodeLists(b) == Some(l) <==>
      (&& |l.crc| <= 255 && |l.normal| <= 255 && EncodeLists(l) <= b
       && forall k :: k in l.crc || k in l.normal ==> |k| <= 33)
  {
    hide DecodeLists, EncodeLists;
    ListsParsed(b);
    if Encodable(l) && EncodeLists(l) <= b {
      ListsRoundTrip(l, b[|EncodeLists(l)|..]);
      assert EncodeLists(l) + b[|EncodeLists(l)|..] == b;
    }
  }

  lemma {:induction false} SortKeepsShort(keys: seq<Key>)
    requires Short(keys)
    ensures Short(Sort(keys)) && |Sort(keys)| == |keys|
  {
    SortSorts(keys);
    assert |multiset(Sort(keys))| == |multiset(keys)|;
    forall k | k in Sort(keys) ensures |k| <= MAX_KEY {
      assert k in multiset(Sort(keys));
    }
  }

  /** The value stored for a pair of lists: sorted, so that it depends on the keys alone. */
  method ValueBytes(l: Lists) returns (b: seq<octet>)
    ensures b == EncodeLists(Arranged(l))
  {
    var crc, normal := Sort(l.crc), Sort(l.normal);
    b := WriteKeys([|crc| % 256], crc);
    b := b + [|normal| % 256];
    b := WriteKeys(b, normal);
  }

  method ParseValue(b: seq<octet>) returns (l: Option<Lists>)
    ensures l == DecodeLists(b)
  {
    if b == [] {
      return None;
    }
    var crc := ReadKeys(b[0], b[1..]);
    if crc == None || crc.value.rest == [] {
      return None;
    }
    var normal := ReadKeys(crc.value.rest[0], crc.value.rest[1..]);
    if normal == None {
      return None;
    }
    l := Some(Lists(crc.value.keys, normal.value.keys));
  }

  /** Two entries are stored as the same bytes exactly when they list the same keys, in any order. */
  lemma {:induction false} SameBytesIffSameKeys(a: Lists, b: Lists)
    requires Encodable(a) && Encodable(b)
    ensures EncodeLists(Arranged(a)) == EncodeLists(Arranged(b)) <==>
      (multiset(a.crc) == multiset(b.crc) && multiset(a.normal) == multiset(b.normal))
  {
    SortKeepsShort(a.crc);
    SortKeepsShort(a.normal);
    SortKeepsShort(b.crc);
    SortKeepsShort(b.normal);
    ListsRoundTrip(Arranged(a), []);
    ListsRoundTrip(Arranged(b), []);
    SortSorts(a.crc);
    SortSorts(a.normal);
    SortSorts(b.crc);
    SortSorts(b.normal);
    if multiset(a.crc) == multiset(b.crc) && multiset(a.normal) == multiset(b.normal) {
      SortedIsUnique(Sort(a.crc), Sort(b.crc));
      SortedIsUnique(Sort(a.normal), Sort(b.normal));
    }
  }
}
