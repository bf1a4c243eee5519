/** The working-height lists of interface/store: a put at a height drops every entry at or above
    it and appends, and a lookup scans for the last entry below a bound. */
module HeightList {
  import opened Word32
  import opened Wrappers

  ghost predicate Increasing<T(!new)>(s: seq<T>, key: T -> uint32) {
    forall i, j :: 0 <= i < j < |s| ==> key(s[i]) < key(s[j])
  }

  /** The entries of s below h, in order. */
  function Below<T>(s: seq<T>, key: T -> uint32, h: uint32): seq<T> {
    if s == [] then []
    else
      var front := Below(s[..|s| - 1], key, h);
      if key(s[|s| - 1]) < h then front + [s[|s| - 1]] else front
  }

  /** What one put makes of the list. */
  function Pushed<T>(s: seq<T>, key: T -> uint32, x: T): seq<T> {
    Below(s, key, key(x)) + [x]
  }

  /** The list after a history of puts. */
  function After<T>(puts: seq<T>, key: T -> uint32): seq<T> {
    if puts == [] then [] else Pushed(After(puts[..|puts| - 1], key), key, puts[|puts| - 1])
  }

  /** The last element of s, in sequence order, whose key is below the bound. */
  function LastBelow<T>(s: seq<T>, key: T -> uint32, bound: nat): Option<T> {
    if s == [] then None
    else if key(s[|s| - 1]) < bound then Some(s[|s| - 1])
    else LastBelow(s[..|s| - 1], key, bound)
  }

  function Itself(h: uint32): uint32 { h }

  /** The bare heights of a list. */
  function Keys<T>(s: seq<T>, key: T -> uint32): (keys: seq<uint32>)
    ensures |keys| == |s|
  {
    seq(|s|, i requires 0 <= i < |s| => key(s[i]))
  }

  lemma {:induction false} LastKey<T(!new)>(s: seq<T>, key: T -> uint32)
    ensures |Keys(s, key)| == |s| && (s != [] ==> Keys(s, key)[|s| - 1] == key(s[|s| - 1]))
  {
  }

  /** Dropping the rest of the entries commutes with filtering, putting and looking up. */
  lemma {:induction false} KeysOfBelow<T(!new)>(s: seq<T>, key: T -> uint32, h: uint32)
    ensures Below(Keys(s, key), Itself, h) == Keys(Below(s, key, h), key)
  {
    if s != [] {
      KeysOfBelow(s[..|s| - 1], key, h);
      assert Keys(s, key)[..|s| - 1] == Keys(s[..|s| - 1], key);
    }
  }

  lemma {:induction false} KeysOfPushed<T(!new)>(s: seq<T>, key: T -> uint32, x: T)
    ensures Pushed(Keys(s, key), Itself, key(x)) == Keys(Pushed(s, key, x), key)
  {
    KeysOfBelow(s, key, key(x));
  }

  lemma {:induction false} KeysLookup<T(!new)>(s: seq<T>, key: T -> uint32, bound: nat)
    ensures match LastBelow(s, key, bound)
      case None => LastBelow(Keys(s, key), Itself, bound) == None
      case Some(x) => LastBelow(Keys(s, key), Itself, bound) == Some(key(x)) && x in s
  {
    if s != [] {
      KeysLookup(s[..|s| - 1], key, bound);
      assert Keys(s, key)[..|s| - 1] == Keys(s[..|s| - 1], key);
    }
  }

  lemma {:induction false} BelowElements<T(!new)>(s: seq<T>, key: T -> uint32, h: uint32)
    ensures forall x :: x in Below(s, key, h) <==> x in s && key(x) < h
  {
    if s != [] {
      BelowElements(s[..|s| - 1], key, h);
    }
  }

  lemma {:induction false} BelowIncreasing<T(!new)>(s: seq<T>, key: T -> uint32, h: uint32)
    requires Increasing(s, key)
    ensures Increasing(Below(s, key, h), key)
  {
    if s != [] {
      BelowIncreasing(s[..|s| - 1], key, h);
      BelowElements(s[..|s| - 1], key, h);
    }
  }

  /** A put keeps the list strictly increasing, whatever the height. */
  lemma {:induction false} PushedIncreasing<T(!new)>(s: seq<T>, key: T -> uint32, x: T)
    requires Increasing(s, key)
    ensures Increasing(Pushed(s, key, x), key)
  {
    BelowIncreasing(s, key, key(x));
    BelowElements(s, key, key(x));
  }

  lemma {:induction false} AfterIncreasing<T(!new)>(puts: seq<T>, key: T -> uint32)
    ensures Increasing(After(puts, key), key)
  {
    if puts != [] {
      AfterIncreasing(puts[..|puts| - 1], key);
      PushedIncreasing(After(puts[..|puts| - 1], key), key, puts[|puts| - 1]);
    }
  }

  /** Dropping entries at or above h does not change a lookup bounded by h. */
  lemma {:induction false} LastBelowOfBelow<T(!new)>(s: seq<T>, key: T -> uint32, h: uint32, bound: nat)
    requires bound <= h
    ensures LastBelow(Below(s, key, h), key, bound) == LastBelow(s, key, bound)
  {
    if s != [] {
      var front := Below(s[..|s| - 1], key, h);
      LastBelowOfBelow(s[..|s| - 1], key, h, bound);
      assert (front + [s[|s| - 1]])[..|front|] == front;
    }
  }

  /** The list refines the plain history: looking a bound up in the maintained list finds the last
      put, in time, below the bound. */
  lemma {:induction false} LookupIsLastWrite<T(!new)>(puts: seq<T>, key: T -> uint32, bound: nat)
    ensures LastBelow(After(puts, key), key, bound) == LastBelow(puts, key, bound)
  {
    if puts != [] {
      var front, x := puts[..|puts| - 1], puts[|puts| - 1];
      var kept := Below(After(front, key), key, key(x));
      LookupIsLastWrite(front, key, bound);
      assert (kept + [x])[..|kept|] == kept;
      if bound <= key(x) {
        LastBelowOfBelow(After(front, key), key, key(x), bound);
      }
    }
  }

  lemma {:induction false} LastBelowFinds<T(!new)>(s: seq<T>, key: T -> uint32, bound: nat)
    ensures match LastBelow(s, key, bound)
      case None => forall x :: x in s ==> key(x) >= bound
      case Some(y) => y in s && key(y) < bound
  {
    if s != [] {
      LastBelowFinds(s[..|s| - 1], key, bound);
    }
  }

  /** On a strictly increasing list the last entry below the bound is the greatest one. */
  lemma {:induction false} LastBelowIsGreatest<T(!new)>(s: seq<T>, key: T -> uint32, bound: nat)
    requires Increasing(s, key)
    ensures match LastBelow(s, key, bound)
      case None => forall x :: x in s ==> key(x) >= bound
      case Some(y) => y in s && key(y) < bound && (forall x :: x in s && key(x) < bound ==> key(x) <= key(y))
  {
    if s != [] {
      LastBelowIsGreatest(s[..|s| - 1], key, bound);
    }
  }

  lemma {:induction false} BelowLength<T(!new)>(s: seq<T>, key: T -> uint32, h: uint32)
    ensures |Below(s, key, h)| <= |s|
  {
    if s != [] {
      BelowLength(s[..|s| - 1], key, h);
    }
  }

  lemma {:induction false} AfterLength<T(!new)>(puts: seq<T>, key: T -> uint32)
    ensures |After(puts, key)| <= |puts|
    ensures puts != [] ==> After(puts, key) != [] && key(After(puts, key)[|After(puts, key)| - 1]) == key(puts[|puts| - 1])
  {
    if puts != [] {
      AfterLength(puts[..|puts| - 1], key);
      BelowLength(After(puts[..|puts| - 1], key), key, key(puts[|puts| - 1]));
    }
  }

  /** The loop of every put: keep what lies below, append the new entry. */
  method Push<T>(s: seq<T>, key: T -> uint32, x: T) returns (r: seq<T>)
    ensures r == Pushed(s, key, x)
  {
    r := [];
    var i := 0;
    while i < |s|
      invariant 0 <= i <= |s|
      invariant r == Below(s[..i], key, key(x))
    {
      assert s[..i + 1][..i] == s[..i];
      if key(s[i]) < key(x) {
        r := r + [s[i]];
      }
      i := i + 1;
    }
    assert s[..|s|] == s;
    r := r + [x];
  }

  /** The reverse scan of a lookup. */
  method ScanBack<T>(s: seq<T>, key: T -> uint32, bound: nat) returns (r: Option<T>)
    ensures r == LastBelow(s, key, bound)
  {
    var i := |s| - 1;
    assert s[..|s|] == s;
    while i >= 0
      invariant -1 <= i < |s|
      invariant LastBelow(s, key, bound) == LastBelow(s[..i + 1], key, bound)
    {
      assert s[..i + 1][..i] == s[..i];
      if bound > key(s[i]) {
        return Some(s[i]);
      }
      i := i - 1;
    }
    r := None;
  }
}
