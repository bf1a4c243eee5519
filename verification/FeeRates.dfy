/** interface/store/customid.go, the custom-id fee rates: each accepted proposal sets the rate that
    applies above its working height. */
module FeeRates {
  import opened Word32
  import opened Wrappers
  import opened HeightList
  import opened StoreCodec

  datatype FeePut = FeePut(height: uint32, rate: int)

  function HeightOf(p: FeePut): uint32 { p.height }

  /** The rate in force at a height: that of the last put, in time, below it. The lookup also lets a
      put at height 0 answer for height 0. */
  function RateAt(history: seq<FeePut>, height: uint32): Option<int> {
    match LastBelow(history, HeightOf, if height == 0 then 1 else height)
    case None => None
    case Some(p) => Some(p.rate)
  }

  /** The stored rates agree with the puts that are still listed, and come from puts. */
  ghost predicate Agree(rates: map<uint32, int>, history: seq<FeePut>) {
    && (forall p :: p in After(history, HeightOf) ==> p.height in rates && rates[p.height] == p.rate)
    && (forall h :: h in rates ==> exists i :: 0 <= i < |history| && history[i].height == h)
  }

  lemma {:induction false} PutAgrees(rates: map<uint32, int>, history: seq<FeePut>, p: FeePut)
    requires Agree(rates, history)
    ensures Agree(rates[p.height := p.rate], history + [p])
  {
    var puts := history + [p];
    assert puts[..|history|] == history;
    BelowElements(After(history, HeightOf), HeightOf, p.height);
    forall h | h in rates ensures exists i :: 0 <= i < |puts| && puts[i].height == h {
      var i :| 0 <= i < |history| && history[i].height == h;
      assert puts[i].height == h;
    }
    assert puts[|history|].height == p.height;
  }

  /** Reading the rate through the list gives the rate in force. */
  lemma {:induction false} ListGivesRate(rates: map<uint32, int>, history: seq<FeePut>, height: uint32)
    requires Agree(rates, history)
    ensures
      var found := LastBelow(After(history, HeightOf), HeightOf, height);
      var slot := if found == None then 0 else found.value.height;
      RateAt(history, height) == if slot in rates then Some(rates[slot]) else None
  {
    var list := After(history, HeightOf);
    LookupIsLastWrite(history, HeightOf, height);
    LookupIsLastWrite(history, HeightOf, 1);
    LastBelowFinds(list, HeightOf, height);
    LastBelowFinds(list, HeightOf, 1);
    LastBelowFinds(history, HeightOf, 1);
    if LastBelow(list, HeightOf, height) == None && 0 in rates {
      var i :| 0 <= i < |history| && history[i].height == 0;
      assert history[i] in history;
    }
  }

  class FeeTable {
    var positions: Option<seq<octet>>
    var rates: map<uint32, int>
    var cache: seq<uint32>
    ghost var history: seq<FeePut>

    ghost predicate Valid()
      reads this
    {
      && |history| < WORD
      && StoredAs(positions, Listed())
      && Agree(rates, history)
      && (cache == [] || cache == Listed())
    }

    ghost function Listed(): seq<uint32>
      reads this
    {
      Keys(After(history, HeightOf), HeightOf)
    }

    constructor ()
      ensures Valid() && history == []
    {
      positions, rates, cache, history := None, map[], [], [];
    }

    /** Fewer than 2^32 puts: a list of all 2^32 heights would be stored with length 0. */
    method Put(rate: int, workingHeight: uint32)
      requires Valid() && |history| + 1 < WORD
      modifies this
      ensures Valid() && history == old(history) + [FeePut(workingHeight, rate)]
      ensures Increasing(cache, Itself) && workingHeight in cache && rates == old(rates)[workingHeight := rate]
    {
      hide Agree, Pushed, ArrayBytes, Increasing;
      var posCache := ReadList(positions, Listed());
      var newPosCache := Push(posCache, Itself, workingHeight);
      ghost var p := FeePut(workingHeight, rate);
      KeysOfPushed(After(history, HeightOf), HeightOf, p);
      PutAgrees(rates, history, p);
      assert (history + [p])[..|history|] == history;
      PushedLists(history, p);
      cache := newPosCache;
      var value := EncodeArray(cache);
      positions := Some(value);
      rates := rates[workingHeight := rate];
      history := history + [p];
    }

    method FindWorkingHeight(height: uint32) returns (r: Option<uint32>)
      requires Valid()
      modifies `cache
      ensures Valid()
      ensures match LastBelow(After(history, HeightOf), HeightOf, height) {
        case Some(p) => r == Some(p.height)
        case None => r == if history == [] then None else Some(0) }
    {
      hide Agree, ArrayBytes;
      if |cache| == 0 {
        cache := ReadList(positions, Listed());
      }
      AfterLength(history, HeightOf);
      if |cache| == 0 {
        return None;
      }
      KeysLookup(After(history, HeightOf), HeightOf, height);
      var found := ScanBack(cache, Itself, height);
      r := if found == None then Some(0) else found;
    }

    method FeeRate(height: uint32) returns (r: Option<int>)
      requires Valid()
      modifies `cache
      ensures Valid() && r == RateAt(history, height)
    {
      hide ArrayBytes, Increasing, Agree;
      ListGivesRate(rates, history, height);
      var slot := FindWorkingHeight(height);
      if slot == None {
        return None;
      }
      r := if slot.value in rates then Some(rates[slot.value]) else None;
    }
  }

  lemma {:induction false} PushedLists(history: seq<FeePut>, p: FeePut)
    ensures After(history + [p], HeightOf) == Pushed(After(history, HeightOf), HeightOf, p)
    ensures Increasing(Keys(After(history + [p], HeightOf), HeightOf), Itself)
    ensures p.height in Keys(After(history + [p], HeightOf), HeightOf)
    ensures |After(history + [p], HeightOf)| <= |history| + 1
  {
    var puts := history + [p];
    assert puts[..|history|] == history;
    AfterIncreasing(puts, HeightOf);
    AfterLength(puts, HeightOf);
    var list := After(puts, HeightOf);
    assert Keys(list, HeightOf)[|list| - 1] == p.height;
  }
}
