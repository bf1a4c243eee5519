/** interface/store/arbiters.go: the arbiter lists by working height. A list that was stored before
    is stored again as a 4-byte pointer to the height that holds it. */
module ArbiterTable {
  import opened Word32
  import opened Wrappers
  import opened HeightList
  import opened StoreCodec

  type Digest = seq<octet>

  /** Entries a caller may store: the reader can read them back, and they are not four bytes long,
      the length of a pointer. */
  ghost predicate Storable(l: Lists) {
    Encodable(l) && |EncodeLists(l)| != 4
  }

  /** Lists of 33-byte public keys, at most 255 of them, are storable. */
  lemma {:induction false} PublicKeysAreStorable(l: Lists)
    requires |l.crc| <= 255 && |l.normal| <= 255
    requires forall k :: k in l.crc || k in l.normal ==> |k| == 33
    ensures Storable(l)
  {
    PublicKeysLength(l.crc);
    PublicKeysLength(l.normal);
  }

  lemma {:induction false} PublicKeysLength(keys: seq<Key>)
    requires forall k :: k in keys ==> |k| == 33
    ensures Short(keys) && |EncodeKeys(keys)| == 34 * |keys|
  {
    if keys != [] {
      PublicKeysLength(keys[..|keys| - 1]);
    }
  }

  type Content = map<uint32, Lists>

  /** The reader: one pointer is followed, then the bytes are parsed. */
  function Lookup(data: map<uint32, seq<octet>>, h: uint32): Option<Lists> {
    if h !in data then None
    else if |data[h]| != 4 then DecodeLists(data[h])
    else
      var to := BytesU32(data[h]);
      if to in data then DecodeLists(data[to]) else None
  }

  /** The database tables by working height and by digest, and the digests kept in memory. */
  datatype Tables = Tables(data: map<uint32, seq<octet>>, homes: map<Digest, uint32>, cache: map<Digest, uint32>)

  /** What one put makes of the tables. */
  function Written(t: Tables, h: uint32, content: seq<octet>, digest: Digest): Tables {
    if digest in t.cache then t.(data := t.data[h := U32Bytes(t.cache[digest])])
    else if digest in t.homes then
      t.(data := t.data[h := U32Bytes(t.homes[digest])], cache := t.cache[digest := t.homes[digest]])
    else
      Tables(t.data[h := content], t.homes[digest := h], t.cache[digest := h])
  }

  ghost predicate AllStorable(c: Content) {
    forall h :: h in c ==> Storable(c[h])
  }

  /** The digest tells the stored lists apart. */
  ghost predicate NoCollision(hash: seq<octet> -> Digest, c: Content)
  {
    forall g, h :: g in c && h in c && hash(EncodeLists(c[g])) == hash(EncodeLists(c[h])) ==> c[g] == c[h]
  }

  /** Height h holds its lists in full, or points to the height that does. */
  ghost predicate Holds(hash: seq<octet> -> Digest, t: Tables, h: uint32, l: Lists)
  {
    var k := hash(EncodeLists(l));
    && h in t.data && k in t.homes
    && t.data[h] == (if t.homes[k] == h then EncodeLists(l) else U32Bytes(t.homes[k]))
  }

  /** Every digest leads to a height that stores lists with that digest. */
  ghost predicate HomesHold(hash: seq<octet> -> Digest, t: Tables, c: Content)
  {
    forall k :: k in t.homes ==> HomesHoldAt(hash, t, c, k)
  }

  ghost predicate HomesHoldAt(hash: seq<octet> -> Digest, t: Tables, c: Content, k: Digest)
    requires k in t.homes
  {
    t.homes[k] in c && hash(EncodeLists(c[t.homes[k]])) == k
  }

  ghost predicate CacheAgrees(t: Tables) {
    forall k :: k in t.cache ==> k in t.homes && t.cache[k] == t.homes[k]
  }

  /** The tables represent the plain map c from heights to lists. */
  ghost predicate Represents(hash: seq<octet> -> Digest, t: Tables, c: Content) {
    && AllStorable(c) && t.data.Keys == c.Keys
    && (forall h :: h in c ==> Holds(hash, t, h, c[h]))
    && HomesHold(hash, t, c) && CacheAgrees(t)
  }

  /** Reading a height gives the lists of the plain map, or nothing where it has none; a pointer
      leads to full data in one hop. */
  lemma {:induction false} LookupIsContent(hash: seq<octet> -> Digest, t: Tables, c: Content, h: uint32)
    requires Represents(hash, t, c) && NoCollision(hash, c)
    ensures Lookup(t.data, h) == if h in c then Some(c[h]) else None
    ensures h in c && |t.data[h]| == 4 ==>
      (var to := BytesU32(t.data[h]); to in t.data && to != h && |t.data[to]| != 4)
  {
    hide EncodeLists, DecodeLists;
    if h in c {
      assert Holds(hash, t, h, c[h]);
      ListsRoundTrip(c[h], []);
      var k := hash(EncodeLists(c[h]));
      var to := t.homes[k];
      U32RoundTrip(to);
      assert U32Bytes(to) + [] == U32Bytes(to);
      assert Holds(hash, t, to, c[to]);
      ListsRoundTrip(c[to], []);
    }
  }

  /** A put at a height that is not some digest's home keeps the tables representing the plain map. */
  lemma {:induction false} PutKeeps(hash: seq<octet> -> Digest, t: Tables, c: Content, h: uint32, l: Lists)
    requires Represents(hash, t, c) && Storable(l)
    requires h !in t.homes.Values
    ensures Represents(hash, Written(t, h, EncodeLists(l), hash(EncodeLists(l))), c[h := l])
  {
    hide EncodeLists, Encodable, Holds, HomesHoldAt, Written;
    var t', c' := Written(t, h, EncodeLists(l), hash(EncodeLists(l))), c[h := l];
    WrittenTables(t, h, EncodeLists(l), hash(EncodeLists(l)));
    HoldsAtPut(hash, t, c, h, l);
    forall g | g in c' ensures Holds(hash, t', g, c'[g]) {
      if g != h {
        HoldsElsewhere(hash, t, h, l, g, c[g]);
      }
    }
    forall d | d in t'.homes ensures HomesHoldAt(hash, t', c', d) {
      HomeAfterPut(hash, t, c, h, l, d);
    }
  }

  lemma {:induction false} WrittenTables(t: Tables, h: uint32, content: seq<octet>, digest: Digest)
    requires CacheAgrees(t)
    ensures var t' := Written(t, h, content, digest);
      && t'.data.Keys == t.data.Keys + {h} && CacheAgrees(t')
      && t'.homes == (if digest in t.homes then t.homes else t.homes[digest := h])
      && t'.data == t.data[h := if digest in t.homes then U32Bytes(t.homes[digest]) else content]
  {
  }

  lemma {:induction false} HoldsElsewhere(hash: seq<octet> -> Digest, t: Tables, h: uint32, l: Lists, g: uint32, m: Lists)
    requires CacheAgrees(t) && g != h
    requires Holds(hash, t, g, m)
    ensures Holds(hash, Written(t, h, EncodeLists(l), hash(EncodeLists(l))), g, m)
  {
    hide EncodeLists, Encodable, Written;
    WrittenTables(t, h, EncodeLists(l), hash(EncodeLists(l)));
  }

  lemma {:induction false} HoldsAtPut(hash: seq<octet> -> Digest, t: Tables, c: Content, h: uint32, l: Lists)
    requires CacheAgrees(t) && h !in t.homes.Values
    ensures Holds(hash, Written(t, h, EncodeLists(l), hash(EncodeLists(l))), h, l)
  {
    hide EncodeLists, Encodable, Written;
    var k := hash(EncodeLists(l));
    WrittenTables(t, h, EncodeLists(l), k);
    if k in t.homes {
      assert t.homes[k] in t.homes.Values;
    }
  }

  lemma {:induction false} HomeAfterPut(hash: seq<octet> -> Digest, t: Tables, c: Content, h: uint32, l: Lists, d: Digest)
    requires AllStorable(c) && Storable(l) && HomesHold(hash, t, c) && CacheAgrees(t) && h !in t.homes.Values
    requires d in Written(t, h, EncodeLists(l), hash(EncodeLists(l))).homes
    ensures HomesHoldAt(hash, Written(t, h, EncodeLists(l), hash(EncodeLists(l))), c[h := l], d)
  {
    hide EncodeLists, Encodable, Written;
    WrittenTables(t, h, EncodeLists(l), hash(EncodeLists(l)));
    if d in t.homes {
      assert HomesHoldAt(hash, t, c, d);
      assert t.homes[d] in t.homes.Values;
    }
  }

  /** A put at a height that is some digest's home never does. */
  lemma {:induction false} PutAtHomeBreaks(hash: seq<octet> -> Digest, t: Tables, c: Content, h: uint32, l: Lists)
    requires Represents(hash, t, c) && Storable(l) && NoCollision(hash, c)
    requires h in c && (hash(EncodeLists(c[h])) == hash(EncodeLists(l)) ==> c[h] == l)
    requires h in t.homes.Values
    ensures !Represents(hash, Written(t, h, EncodeLists(l), hash(EncodeLists(l))), c[h := l])
  {
    hide EncodeLists, Encodable, Written, Holds;
    var k := hash(EncodeLists(l));
    var t', c' := Written(t, h, EncodeLists(l), k), c[h := l];
    WrittenTables(t, h, EncodeLists(l), k);
    var d :| d in t.homes && t.homes[d] == h;
    assert t'.homes[d] == h && c'[h] == l;
    if k == d {
      PointerToItself(hash, t', h, l);
    } else {
      assert !HomesHoldAt(hash, t', c', d);
    }
  }

  lemma {:induction false} PointerToItself(hash: seq<octet> -> Digest, t: Tables, h: uint32, l: Lists)
    requires Storable(l) && h in t.data && t.data[h] == U32Bytes(h)
    requires hash(EncodeLists(l)) in t.homes && t.homes[hash(EncodeLists(l))] == h
    ensures !Holds(hash, t, h, l)
  {
  }

  /** Exactly when a put keeps the tables right: the height is not already a digest's home. */
  lemma {:induction false} PutKeepsIff(hash: seq<octet> -> Digest, t: Tables, c: Content, h: uint32, l: Lists)
    requires Represents(hash, t, c) && Storable(l) && NoCollision(hash, c)
    requires forall g :: g in c && hash(EncodeLists(c[g])) == hash(EncodeLists(l)) ==> c[g] == l
    ensures Represents(hash, Written(t, h, EncodeLists(l), hash(EncodeLists(l))), c[h := l]) <==> h !in t.homes.Values
  {
    hide Represents, Written, EncodeLists;
    if h in t.homes.Values {
      HomesAreStored(hash, t, c, h);
      PutAtHomeBreaks(hash, t, c, h, l);
    } else {
      PutKeeps(hash, t, c, h, l);
    }
  }

  lemma {:induction false} HomesAreStored(hash: seq<octet> -> Digest, t: Tables, c: Content, h: uint32)
    requires Represents(hash, t, c) && h in t.homes.Values
    ensures h in c
  {
    var k :| k in t.homes && t.homes[k] == h;
    assert HomesHoldAt(hash, t, c, k);
  }

  function AfterPut(hash: seq<octet> -> Digest, t: Tables, h: uint32, l: Lists): Tables {
    Written(t, h, EncodeLists(l), hash(EncodeLists(l)))
  }

  /** A put at a home height shows in what is read, for entries longer than a pointer: the height itself
      reads wrong at once, or storing the displaced lists again at a new height makes that one read
      wrong. */
  lemma {:induction false} PutAtHomeMisleads(hash: seq<octet> -> Digest, t: Tables, c: Content, h: uint32, l: Lists, g: uint32)
    requires Represents(hash, t, c) && Storable(l) && Fresh(hash, c, l)
    requires h in t.homes.Values && g !in c
    requires |EncodeLists(l)| > 4 && (h in c ==> |EncodeLists(c[h])| > 4)
    ensures h in c
    ensures var t' := AfterPut(hash, t, h, l);
      Lookup(t'.data, h) != Some(l) || Lookup(AfterPut(hash, t', g, c[h]).data, g) != Some(c[h])
  {
    hide EncodeLists, Encodable, Written, DecodeLists, Holds;
    HomesAreStored(hash, t, c, h);
    var d :| d in t.homes && t.homes[d] == h;
    assert HomesHoldAt(hash, t, c, d);
    var t' := AfterPut(hash, t, h, l);
    WrittenTables(t, h, EncodeLists(l), hash(EncodeLists(l)));
    WrittenTables(t', g, EncodeLists(c[h]), d);
    U32RoundTrip(h);
    assert U32Bytes(h) + [] == U32Bytes(h);
    ListsParsed(t'.data[h]);
    ListsRoundTrip(l, []);
  }

  /** A pointer to itself reads as two empty lists exactly at the multiples of 2^16; only such short
      entries can be stored twice unnoticed. */
  lemma {:induction false} SelfPointerReadsEmptyIff(h: uint32)
    ensures DecodeLists(U32Bytes(h)) == Some(Lists([], [])) <==> h % 65536 == 0
  {
    LowBytesZero(h);
    var b := U32Bytes(h);
    hide EncodeLists, DecodeLists, U32Bytes;
    var empty := EncodeLists(Lists([], []));
    EmptyListsBytes();
    ListsParsed(b);
    if DecodeLists(b) == Some(Lists([], [])) {
      assert empty[0] == b[0] && empty[1] == b[1];
    }
    if b[0] == 0 && b[1] == 0 {
      EmptyListsRead(b);
    }
  }

  lemma {:induction false} LowBytesZero(h: uint32)
    ensures U32Bytes(h)[0] == 0 && U32Bytes(h)[1] == 0 <==> h % 65536 == 0
  {
    assert h % 65536 == h % 256 + 256 * (h / 256 % 256);
  }

  lemma {:induction false} EmptyListsRead(b: seq<octet>)
    requires |b| == 4 && b[0] == 0 && b[1] == 0
    ensures DecodeLists(b) == Some(Lists([], []))
  {
    assert b[1..][0] == 0;
  }

  lemma {:induction false} EmptyListsBytes()
    ensures EncodeLists(Lists([], [])) == [0, 0]
  {
  }

  /** The heights some digest points to are those whose entry is full data and not a pointer. */
  lemma {:induction false} HomesAreFullEntries(hash: seq<octet> -> Digest, t: Tables, c: Content, h: uint32)
    requires Represents(hash, t, c)
    ensures h in t.homes.Values <==> h in t.data && |t.data[h]| != 4
  {
    hide EncodeLists, Encodable;
    if h in t.homes.Values {
      var k :| k in t.homes && t.homes[k] == h;
      assert HomesHoldAt(hash, t, c, k);
      assert Holds(hash, t, h, c[h]);
    }
    if h in t.data && |t.data[h]| != 4 {
      assert Holds(hash, t, h, c[h]);
      assert t.homes[hash(EncodeLists(c[h]))] == h;
    }
  }

  /** Storing the same lists again at the height that holds them replaces them by a pointer to
      themselves; reading the height then gives one empty key, whatever the lists were. */
  lemma {:induction false} StoringTwiceLosesTheLists(hash: seq<octet> -> Digest, l: Lists)
    requires Storable(l)
    ensures
      var once := Written(Tables(map[], map[], map[]), 1, EncodeLists(l), hash(EncodeLists(l)));
      var twice := Written(once, 1, EncodeLists(l), hash(EncodeLists(l)));
      Lookup(once.data, 1) == Some(l) && Lookup(twice.data, 1) == Some(Lists([[]], []))
  {
    hide EncodeLists, DecodeLists;
    ListsRoundTrip(l, []);
    U32RoundTrip(1);
    assert U32Bytes(1) == [1, 0, 0, 0];
    OneReadsAsEmptyKey();
  }

  lemma {:induction false} OneReadsAsEmptyKey()
    ensures DecodeLists([1, 0, 0, 0]) == Some(Lists([[]], []))
  {
    hide EncodeKeys, DecodeKeys;
    var r: seq<octet>, tail: seq<octet>, k: seq<Key> := [1, 0, 0, 0], [0, 0], [[]];
    assert EncodeKeys(k) == [0] && EncodeKeys([]) == [] by { EmptyKeyBytes(); }
    KeysRoundTrip(k, tail);
    KeysRoundTrip([], [0]);
    assert r[1..] == EncodeKeys(k) + tail;
    assert tail[1..] == EncodeKeys([]) + [0];
  }

  lemma {:induction false} EmptyKeyBytes()
    ensures EncodeKeys([[]]) == [0] && EncodeKeys([]) == []
  {
    assert Item([]) == [0];
  }

  // ----- the store -----

  /** The lists differ from the stored ones in digest too. */
  ghost predicate Fresh(hash: seq<octet> -> Digest, c: Content, l: Lists)
  {
    forall g :: g in c && hash(EncodeLists(c[g])) == hash(EncodeLists(l)) ==> c[g] == l
  }

  lemma {:induction false} FreshPut(hash: seq<octet> -> Digest, c: Content, h: uint32, l: Lists)
    requires AllStorable(c) && Storable(l) && NoCollision(hash, c) && Fresh(hash, c, l)
    ensures AllStorable(c[h := l]) && NoCollision(hash, c[h := l])
  {
    hide EncodeLists, Encodable;
  }

  /** The height whose lists answer for `height`: that of the last put, in time, below it. Heights
      too far above the last put are refused; the sum wraps. */
  function SlotFor(heights: seq<uint32>, count: uint32, height: uint32): Option<uint32> {
    if heights == [] || Add(heights[|heights| - 1], count) < height then None
    else
      match LastBelow(heights, Itself, height)
      case None => Some(0)
      case Some(p) => Some(p)
  }

  method FindSlot(pos: seq<uint32>, height: uint32, count: uint32) returns (slot: Option<uint32>)
    ensures slot == SlotFor(pos, count, height)
  {
    if |pos| == 0 {
      return None;
    }
    if Add(pos[|pos| - 1], count) < height {
      return None;
    }
    var found := ScanBack(pos, Itself, height);
    slot := if found == None then Some(0) else found;
  }

  /** The maintained list picks the same slot as the history of puts. */
  lemma {:induction false} ListGivesSlot(heights: seq<uint32>, count: uint32, height: uint32)
    ensures SlotFor(After(heights, Itself), count, height) == SlotFor(heights, count, height)
  {
    AfterLength(heights, Itself);
    LookupIsLastWrite(heights, Itself, height);
  }

  class Arbiters {
    const hash: seq<octet> -> Digest
    const origin: seq<Key>
    const count: uint32
    var position: Option<uint32>
    var positions: Option<seq<octet>>
    var data: map<uint32, seq<octet>>
    var homes: map<Digest, uint32>
    var cache: map<Digest, uint32>
    var posCache: seq<uint32>
    ghost var heights: seq<uint32>
    ghost var content: Content

    ghost predicate Valid()
      reads this
    {
      && |heights| < WORD && StoredAs(positions, After(heights, Itself))
      && position == (if heights == [] then None else Some(heights[|heights| - 1]))
      && (posCache == [] || posCache == After(heights, Itself))
      && (forall g :: g in content <==> g in heights)
    }

    function All(): Tables
      reads this
    {
      Tables(data, homes, cache)
    }

    /** The tables stand for the plain map from heights to sorted lists. */
    ghost predicate Represented()
      reads this
    {
      Represents(hash, All(), content) && NoCollision(hash, content)
    }

    constructor (hash: seq<octet> -> Digest, origin: seq<Key>, count: uint32)
      ensures Valid() && Represented() && heights == [] && this.hash == hash && this.origin == origin && this.count == count
    {
      this.hash, this.origin, this.count := hash, origin, count;
      position, positions, data, homes, cache, posCache := None, None, map[], map[], map[], [];
      heights, content := [], map[];
    }

    /** A new store over the same database: what was kept in memory is gone. */
    method Reopen()
      requires Valid()
      modifies `cache, `posCache
      ensures Valid() && (old(Represented()) ==> Represented())
    {
      hide Represents, NoCollision, AllStorable, After;
      ForgetCache(hash, All(), content);
      cache, posCache := map[], [];
    }

    method WriteTables(height: uint32, b: seq<octet>)
      modifies `data, `homes, `cache
      ensures All() == Written(old(All()), height, b, hash(b))
    {
      var digest := hash(b);
      if digest !in cache {
        if digest in homes {
          cache := cache[digest := homes[digest]];
          data := data[height := U32Bytes(homes[digest])];
        } else {
          cache := cache[digest := height];
          data := data[height := b];
          homes := homes[digest := height];
        }
      } else {
        data := data[height := U32Bytes(cache[digest])];
      }
    }

    method WritePosition(height: uint32)
      requires StoredAs(positions, After(heights, Itself)) && |heights| + 1 < WORD
      modifies `position, `positions, `posCache
      ensures position == Some(height) && posCache == After(heights + [height], Itself)
      ensures StoredAs(positions, posCache)
    {
      hide Pushed, After, ArrayBytes;
      position := Some(height);
      var pos := ReadList(positions, After(heights, Itself));
      posCache := Push(pos, Itself, height);
      PushLists(heights, height);
      var value := EncodeArray(posCache);
      positions := Some(value);
    }

    method Put(height: uint32, l: Lists)
      requires Valid() && |heights| + 1 < WORD
      modifies this
      ensures Valid() && heights == old(heights) + [height]
      ensures content == old(content)[height := Arranged(l)]
      ensures var b := EncodeLists(Arranged(l)); All() == Written(old(All()), height, b, hash(b))
      ensures old(Represented()) && Storable(Arranged(l)) && old(Fresh(hash, content, Arranged(l))) ==>
        (Represented() <==> height !in old(homes).Values)
    {
      hide Arranged, EncodeLists, Encodable, Represents, NoCollision, AllStorable, Fresh, Storable, After, Written, StoredAs;
      ghost var t, c := All(), content;
      WritePosition(height);
      heights := heights + [height];
      var b := ValueBytes(l);
      WriteTables(height, b);
      content := content[height := Arranged(l)];
      PutRepresents(hash, t, c, height, Arranged(l));
    }

    method Fetch(height: uint32) returns (l: Option<Lists>)
      ensures l == Lookup(data, height)
    {
      if height !in data {
        return None;
      }
      var val := data[height];
      if |val| == 4 {
        var to := BytesU32(val);
        if to !in data {
          return None;
        }
        val := data[to];
      }
      l := ParseValue(val);
    }

    /** The lists in force at a height; slot 0 stands for the arbiters the chain started with. */
    method GetByHeight(height: uint32) returns (l: Option<Lists>)
      requires Valid()
      modifies `posCache
      ensures Valid()
      ensures match SlotFor(heights, count, height) {
        case None => l == None
        case Some(slot) => l == if slot == 0 then Some(Lists(origin, [])) else Lookup(data, slot) }
    {
      hide After;
      if |posCache| == 0 {
        posCache := ReadList(positions, After(heights, Itself));
      }
      ListGivesSlot(heights, count, height);
      var slot := FindSlot(posCache, height, count);
      if slot == None {
        return None;
      }
      if slot.value == 0 {
        return Some(Lists(origin, []));
      }
      l := Fetch(slot.value);
    }

    /** The lists in force at the last put height: those of the put before it. */
    method Get() returns (l: Option<Lists>)
      requires Valid()
      modifies `posCache
      ensures Valid()
      ensures match SlotFor(heights, count, if heights == [] then 0 else heights[|heights| - 1]) {
        case None => l == None
        case Some(slot) => l == if slot == 0 then Some(Lists(origin, [])) else Lookup(data, slot) }
    {
      l := GetByHeight(if position == None then 0 else position.value);
    }

    method GetNext() returns (workingHeight: uint32, l: Option<Lists>)
      requires Valid()
      ensures workingHeight == if heights == [] then 0 else heights[|heights| - 1]
      ensures l == Lookup(data, workingHeight)
    {
      workingHeight := if position == None then 0 else position.value;
      l := Fetch(workingHeight);
    }
  }

  lemma {:induction false} ForgetCache(hash: seq<octet> -> Digest, t: Tables, c: Content)
    ensures Represents(hash, t, c) ==> Represents(hash, t.(cache := map[]), c)
  {
    hide EncodeLists, Encodable, Holds, HomesHoldAt;
    if Represents(hash, t, c) {
      var t' := t.(cache := map[]);
      forall h | h in c ensures Holds(hash, t', h, c[h]) {
        HoldsWithoutCache(hash, t, h, c[h]);
      }
      forall k | k in t'.homes ensures HomesHoldAt(hash, t', c, k) {
        HomesWithoutCache(hash, t, c, k);
      }
    }
  }

  lemma {:induction false} HoldsWithoutCache(hash: seq<octet> -> Digest, t: Tables, h: uint32, l: Lists)
    requires Holds(hash, t, h, l)
    ensures Holds(hash, t.(cache := map[]), h, l)
  {
    hide EncodeLists, Encodable;
  }

  lemma {:induction false} HomesWithoutCache(hash: seq<octet> -> Digest, t: Tables, c: Content, k: Digest)
    requires k in t.homes && HomesHoldAt(hash, t, c, k)
    ensures HomesHoldAt(hash, t.(cache := map[]), c, k)
  {
    hide EncodeLists, Encodable;
  }

  lemma {:induction false} PushLists(heights: seq<uint32>, h: uint32)
    ensures After(heights + [h], Itself) == Pushed(After(heights, Itself), Itself, h)
    ensures |After(heights + [h], Itself)| <= |heights| + 1 && After(heights + [h], Itself) != []
  {
    assert (heights + [h])[..|heights|] == heights;
    AfterLength(heights + [h], Itself);
  }

  lemma {:induction false} PutRepresents(hash: seq<octet> -> Digest, t: Tables, c: Content, h: uint32, l: Lists)
    ensures Represents(hash, t, c) && NoCollision(hash, c) && Storable(l) && Fresh(hash, c, l) ==>
      (var t' := Written(t, h, EncodeLists(l), hash(EncodeLists(l)));
       (Represents(hash, t', c[h := l]) && NoCollision(hash, c[h := l])) <==> h !in t.homes.Values)
  {
    hide EncodeLists, Encodable, Written, Holds, HomesHold;
    if Represents(hash, t, c) && NoCollision(hash, c) && Storable(l) && Fresh(hash, c, l) {
      PutKeepsIff(hash, t, c, h, l);
      FreshPut(hash, c, h, l);
    }
  }

  // ----- every run at strictly increasing heights -----

  datatype Entry = Entry(height: uint32, lists: Lists)

  function HeightOf(e: Entry): uint32 { e.height }

  /** The puts of a run: strictly increasing heights, readable lists, no colliding digests. */
  ghost predicate GoodRun(hash: seq<octet> -> Digest, puts: seq<Entry>) {
    && |puts| < WORD && Increasing(puts, HeightOf)
    && (forall e :: e in puts ==> Storable(Arranged(e.lists)))
    && (forall e, f :: e in puts && f in puts ==> Apart(hash, Arranged(e.lists), Arranged(f.lists)))
  }

  ghost predicate Apart(hash: seq<octet> -> Digest, a: Lists, b: Lists)
  {
    hash(EncodeLists(a)) == hash(EncodeLists(b)) ==> a == b
  }

  /** The plain map holds exactly what was put. */
  ghost predicate Records(c: Content, puts: seq<Entry>) {
    && (forall e :: e in puts ==> e.height in c && c[e.height] == Arranged(e.lists))
    && (forall g :: g in c ==> exists e :: e in puts && e.height == g)
  }

  /** The next put of a run is at a new height and does not collide with what is stored. */
  lemma {:induction false} NextIsNew(hash: seq<octet> -> Digest, t: Tables, c: Content, puts: seq<Entry>, i: nat)
    requires GoodRun(hash, puts) && i < |puts|
    requires Represents(hash, t, c) && Records(c, puts[..i])
    ensures Storable(Arranged(puts[i].lists))
    ensures Fresh(hash, c, Arranged(puts[i].lists)) && puts[i].height !in t.homes.Values
  {
    hide EncodeLists, Encodable, Arranged, Represents;
    var e := puts[i];
    assert e in puts;
    assert AllStorable(c) by { RepresentsStorable(hash, t, c); }
    forall g | g in c ensures c[g] == c[g] && Apart(hash, c[g], Arranged(e.lists)) && g < e.height {
      var f :| f in puts[..i] && f.height == g;
      var j :| 0 <= j < i && puts[j] == f;
      assert f in puts && HeightOf(puts[j]) < HeightOf(puts[i]);
    }
    if e.height in t.homes.Values {
      HomesAreStored(hash, t, c, e.height);
    }
  }

  lemma {:induction false} RepresentsStorable(hash: seq<octet> -> Digest, t: Tables, c: Content)
    requires Represents(hash, t, c)
    ensures AllStorable(c)
  {
    hide EncodeLists, Encodable;
  }

  lemma {:induction false} RecordNext(c: Content, puts: seq<Entry>, i: nat)
    requires i < |puts| && Increasing(puts, HeightOf) && Records(c, puts[..i])
    ensures Records(c[puts[i].height := Arranged(puts[i].lists)], puts[..i + 1])
  {
    assert puts[..i + 1] == puts[..i] + [puts[i]];
    forall f | f in puts[..i] ensures f.height != puts[i].height {
      EarlierIsLower(puts, i, f);
    }
    RecordOneMore(c, puts[..i], puts[i]);
  }

  lemma {:induction false} EarlierIsLower(puts: seq<Entry>, i: nat, f: Entry)
    requires i < |puts| && Increasing(puts, HeightOf) && f in puts[..i]
    ensures f.height < puts[i].height
  {
    var j :| 0 <= j < i && puts[j] == f;
    assert HeightOf(puts[j]) < HeightOf(puts[i]);
  }

  lemma {:induction false} RecordOneMore(c: Content, puts: seq<Entry>, e: Entry)
    requires Records(c, puts) && forall f :: f in puts ==> f.height != e.height
    ensures Records(c[e.height := Arranged(e.lists)], puts + [e])
  {
    hide Arranged;
    var c' := c[e.height := Arranged(e.lists)];
    forall g | g in c' ensures exists f :: f in puts + [e] && f.height == g {
      if g == e.height {
        assert e in puts + [e];
      } else {
        var f :| f in puts && f.height == g;
        assert f in puts + [e];
      }
    }
  }

  /** Over every such run, with the store reopened wherever `reopen` says, what a height is answered
      with is the sorted lists of the greatest put height below it. */
  method StoreAndAsk(arbiters: Arbiters, puts: seq<Entry>, reopen: set<nat>, height: uint32) returns (l: Option<Lists>)
    requires arbiters.Valid() && arbiters.Represented() && arbiters.heights == []
    requires GoodRun(arbiters.hash, puts)
    modifies arbiters
    ensures arbiters.Valid() && arbiters.Represented() && Records(arbiters.content, puts)
    ensures forall e :: e in puts ==> Lookup(arbiters.data, e.height) == Some(Arranged(e.lists))
    ensures l ==
      if puts == [] || Add(puts[|puts| - 1].height, arbiters.count) < height then None
      else
        match LastBelow(puts, HeightOf, height)
        case None => Some(Lists(arbiters.origin, []))
        case Some(e) => Some(if e.height == 0 then Lists(arbiters.origin, []) else Arranged(e.lists))
  {
    hide Arranged, EncodeLists, Encodable, Storable, Represents, NoCollision, AllStorable, Fresh, Written, Records, GoodRun,
      Lookup, LastBelow, After, ArrayBytes, Keys;
    NoKeysYet();
    var i := 0;
    assert Records(arbiters.content, []) by { assert arbiters.content.Keys == {}; NothingRecorded(arbiters.content); }
    while i < |puts|
      invariant 0 <= i <= |puts|
      invariant arbiters.Valid() && arbiters.Represented() && arbiters.heights == Keys(puts[..i], HeightOf)
      invariant Records(arbiters.content, puts[..i])
    {
      if i in reopen {
        arbiters.Reopen();
      }
      assert |puts| < WORD && Increasing(puts, HeightOf) by { RunBounds(arbiters.hash, puts); }
      NextIsNew(arbiters.hash, arbiters.All(), arbiters.content, puts, i);
      RecordNext(arbiters.content, puts, i);
      KeysNext(puts, i);
      arbiters.Put(puts[i].height, puts[i].lists);
      i := i + 1;
    }
    assert puts[..|puts|] == puts;
    LastKey(puts, HeightOf);
    KeysLookup(puts, HeightOf, height);
    ReadsRecords(arbiters.hash, arbiters.All(), arbiters.content, puts);
    l := arbiters.GetByHeight(height);
  }

  lemma {:induction false} NoKeysYet()
    ensures Keys([], HeightOf) == []
  {
  }

  lemma {:induction false} KeysNext(puts: seq<Entry>, i: nat)
    requires i < |puts|
    ensures Keys(puts[..i + 1], HeightOf) == Keys(puts[..i], HeightOf) + [puts[i].height]
  {
    assert Keys(puts[..i + 1], HeightOf)[..i] == Keys(puts[..i], HeightOf);
  }

  lemma {:induction false} RunBounds(hash: seq<octet> -> Digest, puts: seq<Entry>)
    requires GoodRun(hash, puts)
    ensures |puts| < WORD && Increasing(puts, HeightOf)
  {
  }

  lemma {:induction false} NothingRecorded(c: Content)
    requires c.Keys == {}
    ensures Records(c, [])
  {
  }

  lemma {:induction false} ReadsRecords(hash: seq<octet> -> Digest, t: Tables, c: Content, puts: seq<Entry>)
    requires Represents(hash, t, c) && NoCollision(hash, c) && Records(c, puts)
    ensures forall e :: e in puts ==> Lookup(t.data, e.height) == Some(Arranged(e.lists))
  {
    hide Represents, Lookup, Arranged, NoCollision, AllStorable;
    forall e | e in puts ensures Lookup(t.data, e.height) == Some(Arranged(e.lists)) {
      LookupIsContent(hash, t, c, e.height);
    }
  }
}
