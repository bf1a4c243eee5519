/** blockchain/blockchain.go: committing blocks, finding the fork point, reorganising, and the
    block locator; with the placement of transactions over every run. */
module BlockChain {
  import opened BloomFilter
  import opened ChainDB
  import opened Difficulty
  import opened HeaderChain
  import opened MerkleTree
  import opened Word32
  import opened Wrappers

  const MAX_LOCATOR: nat := 100

  type TxsOf = Hash -> seq<Tx>

  /** Reading the main store gives, at each height of the best chain above genesis, the transactions
      of the block there, and none at other heights; every stored block off the best chain has its
      transactions in the fork store. */
  ghost predicate Placed(H: Headers, g: Hash, tip: Hash, main: MainTxs, fork: ForkTxs, txsOf: TxsOf)
    requires Linked(H, g) && tip in H
  {
    && (forall k: nat :: TxsAt(main, k) == ListedAt(H, g, tip, txsOf, k))
    && (forall x :: x in H && !IsAncestor(H, g, x, tip) ==> x in fork)
    && (forall x :: x in fork ==> fork[x] == txsOf(x))
  }

  /** The transactions that belong at height k. */
  ghost function ListedAt(H: Headers, g: Hash, tip: Hash, txsOf: TxsOf, k: nat): seq<Tx>
    requires Linked(H, g) && tip in H
  {
    if 1 <= k <= H[tip].height then txsOf(At(H, g, tip, k)) else []
  }

  /** a is the highest header that is an ancestor-or-self of both x and y. */
  ghost predicate HighestCommon(H: Headers, g: Hash, a: Hash, x: Hash, y: Hash)
    requires Linked(H, g) && x in H && y in H
  {
    && IsAncestor(H, g, a, x) && IsAncestor(H, g, a, y)
    && forall z :: z in H && IsAncestor(H, g, z, x) && IsAncestor(H, g, z, y) ==> H[z].height <= H[a].height
  }

  // ----- placement, step by step -----

  /** Ancestry among old headers is not affected by a new leaf. */
  lemma {:induction false} AncestryStable(H: Headers, H': Headers, g: Hash, x: Hash, y: Hash)
    requires Linked(H, g) && Linked(H', g) && x in H && y in H
    requires forall z :: z in H ==> z in H' && H'[z] == H[z]
    ensures IsAncestor(H', g, x, y) <==> IsAncestor(H, g, x, y)
  {
    hide Linked;
    if H[x].height <= H[y].height {
      AtStable(H, H', g, y, H[x].height);
    }
  }

  /** The ancestors of a child are its parent's, below itself. */
  lemma {:induction false} AncestorsOfChild(H: Headers, g: Hash, x: Hash, k: nat)
    requires Linked(H, g) && x in H && x != g
    ensures H[x].previous in H && H[x].height == H[H[x].previous].height + 1
    ensures k < H[x].height ==> At(H, g, x, k) == At(H, g, H[x].previous, k)
    ensures k == H[x].height ==> At(H, g, x, k) == x
  {
    OnlyGenesisAtZero(H, g, x);
  }

  ghost predicate NewLeaf(H: Headers, H': Headers, g: Hash, x: Hash) {
    && Linked(H, g) && Linked(H', g) && x !in H && x in H' && x != g
    && H'.Keys == H.Keys + {x} && (forall z :: z in H ==> H'[z] == H[z])
    && H'[x].previous in H
  }

  lemma {:induction false} PlacedOnExtend(
    H: Headers, H': Headers, g: Hash, tip: Hash, x: Hash, main: MainTxs, fork: ForkTxs, txsOf: TxsOf)
    requires NewLeaf(H, H', g, x) && tip in H && H'[x].previous == tip
    requires Placed(H, g, tip, main, fork, txsOf)
    ensures Placed(H', g, x, main[H'[x].height := txsOf(x)], fork, txsOf)
  {
    hide Linked, At;
    AncestorsOfChild(H', g, x, 0);
    forall k: nat ensures TxsAt(main[H'[x].height := txsOf(x)], k) == ListedAt(H', g, x, txsOf, k) {
      assert TxsAt(main, k) == ListedAt(H, g, tip, txsOf, k);
      AncestorsOfChild(H', g, x, k);
      if k <= H[tip].height {
        AtStable(H, H', g, tip, k);
      }
    }
    hide TxsAt, ListedAt;
    forall y | y in H' && !IsAncestor(H', g, y, x) ensures y in fork {
      AncestorOfExtension(H, H', g, tip, x, y);
    }
  }

  /** What is off the extended chain was off the old one. */
  lemma {:induction false} AncestorOfExtension(H: Headers, H': Headers, g: Hash, tip: Hash, x: Hash, y: Hash)
    requires NewLeaf(H, H', g, x) && tip in H && H'[x].previous == tip && y in H' && !IsAncestor(H', g, y, x)
    ensures y in H && !IsAncestor(H, g, y, tip)
  {
    hide Linked, At;
    AncestorsOfChild(H', g, x, H'[y].height);
    if y in H && H[y].height <= H[tip].height {
      AtStable(H, H', g, tip, H[y].height);
    }
  }

  lemma {:induction false} PlacedOnFork(
    H: Headers, H': Headers, g: Hash, tip: Hash, x: Hash, main: MainTxs, fork: ForkTxs, txsOf: TxsOf)
    requires H' == H || NewLeaf(H, H', g, x)
    requires Linked(H, g) && Linked(H', g) && tip in H && Placed(H, g, tip, main, fork, txsOf)
    ensures Placed(H', g, tip, main, fork[x := txsOf(x)], txsOf)
  {
    hide Linked, At;
    forall k: nat | k <= H[tip].height ensures At(H', g, tip, k) == At(H, g, tip, k) {
      AtStable(H, H', g, tip, k);
    }
    forall y | y in H ensures IsAncestor(H', g, y, tip) <==> IsAncestor(H, g, y, tip) {
      AncestryStable(H, H', g, y, tip);
    }
  }

  /** The branch to be reconnected is in the fork store: it is off the old best chain. */
  lemma {:induction false} BranchIsInFork(
    H: Headers, H': Headers, g: Hash, tip: Hash, x: Hash, a: Hash, main: MainTxs, fork: ForkTxs, txsOf: TxsOf, k: nat)
    requires NewLeaf(H, H', g, x) && tip in H && Placed(H, g, tip, main, fork, txsOf)
    requires HighestCommon(H', g, a, x, tip) && H'[a].height < k < H'[x].height
    ensures At(H', g, x, k) in fork
  {
    var y := At(H', g, x, k);
    AncestorsOfChild(H', g, x, k);
    hide Linked, At;
    assert y in H;
    AncestryStable(H, H', g, y, tip);
  }

  lemma {:induction false} AncestorIsLower(H: Headers, H': Headers, g: Hash, tip: Hash, x: Hash, a: Hash)
    requires NewLeaf(H, H', g, x) && tip in H && HighestCommon(H', g, a, x, tip)
    ensures a in H && H'[a].height < H'[x].height
  {
    AncestryOfLeaf(H, H', g, tip, x);
    hide Linked;
  }

  /** A new leaf is an ancestor of no old header. */
  lemma {:induction false} AncestryOfLeaf(H: Headers, H': Headers, g: Hash, y: Hash, x: Hash)
    requires NewLeaf(H, H', g, x) && y in H
    ensures !IsAncestor(H', g, x, y)
  {
    hide Linked;
    if H'[x].height <= H[y].height {
      AtStable(H, H', g, y, H'[x].height);
    }
  }

  /** A reorganisation after the put of the new tip x, which left `stored` at its height: everything is
      where it belongs if and only if x is higher than the old tip, or x has no transactions and
      `stored` is the list of the old block at that height. */
  lemma {:induction false} PlacedOnReorg(
    H: Headers, H': Headers, g: Hash, tip: Hash, x: Hash, a: Hash, txsOf: TxsOf, stored: seq<Tx>,
    main0: MainTxs, fork0: ForkTxs, mid: MainTxs, main: MainTxs, fork: ForkTxs)
    requires NewLeaf(H, H', g, x) && tip in H && Placed(H, g, tip, main0, fork0, txsOf)
    requires HighestCommon(H', g, a, x, tip) && a in H && H'[a].height < H'[x].height
    requires H'[x].height > H[tip].height ==> stored == txsOf(x)
    requires Disconnected(H', g, tip, H'[a].height, main0[H'[x].height := stored], fork0, mid, fork)
    requires Reconnected(H', g, x, H'[a].height, H'[x].height, mid, main, fork)
    ensures Placed(H', g, x, main, fork, txsOf) <==>
      (H'[x].height > H[tip].height || (txsOf(x) == [] && stored == txsOf(At(H, g, tip, H'[x].height))))
  {
    hide Linked, At, Disconnected, Reconnected, HighestCommon, IsAncestor, ListedAt, NewLeaf;
    LeafIsNew(H, H', g, x);
    var top := H'[x].height;
    ForkValues(H, H', g, tip, x, a, txsOf, stored, main0, fork0, mid, fork);
    ForkKeys(H, H', g, tip, x, a, txsOf, stored, main0, fork0, mid, fork);
    if top <= H[tip].height {
      OldTipMoved(H, H', g, tip, x, a, stored, main0, fork0, mid, main, fork);
      ListedAtTop(H', g, x, txsOf);
    }
    if top > H[tip].height || (txsOf(x) == [] && stored == txsOf(At(H, g, tip, top))) {
      forall k: nat ensures TxsAt(main, k) == ListedAt(H', g, x, txsOf, k) {
        MainPlaced(H, H', g, tip, x, a, txsOf, stored, main0, fork0, mid, main, fork, k);
      }
    }
  }

  /** In a store that adds to an occupied height, the new tip only has to be without transactions. */
  lemma {:induction false} PlacedOnReorgInAddingStore(
    H: Headers, H': Headers, g: Hash, tip: Hash, x: Hash, a: Hash, txsOf: TxsOf,
    main0: MainTxs, fork0: ForkTxs, mid: MainTxs, main: MainTxs, fork: ForkTxs)
    requires NewLeaf(H, H', g, x) && tip in H && Placed(H, g, tip, main0, fork0, txsOf)
    requires HighestCommon(H', g, a, x, tip) && a in H && H'[a].height < H'[x].height
    requires var top := H'[x].height;
      Disconnected(H', g, tip, H'[a].height, main0[top := TxsAt(main0, top) + txsOf(x)], fork0, mid, fork)
    requires Reconnected(H', g, x, H'[a].height, H'[x].height, mid, main, fork)
    ensures Placed(H', g, x, main, fork, txsOf) <==> (H'[x].height > H[tip].height || txsOf(x) == [])
  {
    var top := H'[x].height;
    var stored := TxsAt(main0, top) + txsOf(x);
    assert TxsAt(main0, top) == ListedAt(H, g, tip, txsOf, top);
    assert [] + txsOf(x) == txsOf(x);
    PlacedOnReorg(H, H', g, tip, x, a, txsOf, stored, main0, fork0, mid, main, fork);
    hide Linked, At, Disconnected, Reconnected, HighestCommon, IsAncestor, Placed, NewLeaf;
    if top <= H[tip].height {
      var before := txsOf(At(H, g, tip, top));
      assert txsOf(x) == [] ==> before + txsOf(x) == before;
    }
  }

  lemma {:induction false} LeafIsNew(H: Headers, H': Headers, g: Hash, x: Hash)
    requires NewLeaf(H, H', g, x)
    ensures Linked(H, g) && Linked(H', g) && x in H' && (forall z :: z in H ==> z in H' && H'[z] == H[z])
    ensures H'[x].height >= 1
  {
  }

  lemma {:induction false} ListedAtTop(H: Headers, g: Hash, x: Hash, txsOf: TxsOf)
    requires Linked(H, g) && x in H && H[x].height >= 1
    ensures ListedAt(H, g, x, txsOf, H[x].height) == txsOf(x)
  {
    AncestorsOfChild(H, g, x, H[x].height);
    hide Linked, At;
  }

  /** What a reader sees after the two moves. */
  lemma {:induction false} MovedTxs(
    H: Headers, g: Hash, tip: Hash, x: Hash, low: nat,
    main1: MainTxs, fork0: ForkTxs, mid: MainTxs, main: MainTxs, fork: ForkTxs, k: nat)
    requires Linked(H, g) && tip in H && x in H
    requires Disconnected(H, g, tip, low, main1, fork0, mid, fork)
    requires Reconnected(H, g, x, low, H[x].height, mid, main, fork)
    ensures low < k < H[x].height ==> At(H, g, x, k) in fork && TxsAt(main, k) == fork[At(H, g, x, k)]
    ensures !(low < k < H[x].height) ==> TxsAt(main, k) == if low < k <= H[tip].height then [] else TxsAt(main1, k)
  {
    hide Linked, At, IsAncestor, OnBranch;
  }

  /** A tip that is not higher: its own height reads empty, and what was stored there is now filed under
      the old block of that height. */
  lemma {:induction false} OldTipMoved(
    H: Headers, H': Headers, g: Hash, tip: Hash, x: Hash, a: Hash, stored: seq<Tx>,
    main0: MainTxs, fork0: ForkTxs, mid: MainTxs, main: MainTxs, fork: ForkTxs)
    requires NewLeaf(H, H', g, x) && tip in H && a in H' && H'[a].height < H'[x].height <= H[tip].height
    requires Disconnected(H', g, tip, H'[a].height, main0[H'[x].height := stored], fork0, mid, fork)
    requires Reconnected(H', g, x, H'[a].height, H'[x].height, mid, main, fork)
    ensures TxsAt(main, H'[x].height) == []
    ensures var y := At(H, g, tip, H'[x].height); y in fork && fork[y] == stored
  {
    var top := H'[x].height;
    MovedTxs(H', g, tip, x, H'[a].height, main0[top := stored], fork0, mid, main, fork, top);
    hide Linked, At;
    AtStable(H, H', g, tip, top);
    assert OnBranch(H', g, tip, H'[a].height, At(H, g, tip, top));
  }

  lemma {:induction false} MainPlaced(
    H: Headers, H': Headers, g: Hash, tip: Hash, x: Hash, a: Hash, txsOf: TxsOf, stored: seq<Tx>,
    main0: MainTxs, fork0: ForkTxs, mid: MainTxs, main: MainTxs, fork: ForkTxs, k: nat)
    requires NewLeaf(H, H', g, x) && tip in H && Placed(H, g, tip, main0, fork0, txsOf)
    requires HighestCommon(H', g, a, x, tip) && a in H && H'[a].height < H'[x].height
    requires if H'[x].height > H[tip].height then stored == txsOf(x) else txsOf(x) == []
    requires Disconnected(H', g, tip, H'[a].height, main0[H'[x].height := stored], fork0, mid, fork)
    requires Reconnected(H', g, x, H'[a].height, H'[x].height, mid, main, fork)
    requires forall y :: y in fork ==> fork[y] == txsOf(y)
    ensures TxsAt(main, k) == ListedAt(H', g, x, txsOf, k)
  {
    hide Linked, At, OnBranch, IsAncestor, Disconnected, Reconnected, HighestCommon;
    var low, top := H'[a].height, H'[x].height;
    AncestorHeights(H, H', g, tip, x, a);
    MovedTxs(H', g, tip, x, low, main0[top := stored], fork0, mid, main, fork, k);
    ListedAtTop(H', g, x, txsOf);
    assert TxsAt(main0, k) == ListedAt(H, g, tip, txsOf, k);
    if k <= low {
      SharedPath(H, H', g, tip, x, a, k);
    }
  }

  lemma {:induction false} AncestorHeights(H: Headers, H': Headers, g: Hash, tip: Hash, x: Hash, a: Hash)
    requires NewLeaf(H, H', g, x) && tip in H && HighestCommon(H', g, a, x, tip)
    ensures H'[a].height <= H[tip].height && H'[tip] == H[tip]
  {
  }

  /** Up to the common ancestor the old and the new best chain are one. */
  lemma {:induction false} SharedPath(H: Headers, H': Headers, g: Hash, tip: Hash, x: Hash, a: Hash, k: nat)
    requires NewLeaf(H, H', g, x) && tip in H && HighestCommon(H', g, a, x, tip) && k <= H'[a].height
    ensures k <= H[tip].height && k <= H'[x].height && At(H', g, x, k) == At(H, g, tip, k)
  {
    hide Linked, At;
    AtStable(H, H', g, tip, k);
    MeetOnce(H', g, x, tip, H'[a].height, k);
  }

  lemma {:induction false} ForkKeys(
    H: Headers, H': Headers, g: Hash, tip: Hash, x: Hash, a: Hash, txsOf: TxsOf, stored: seq<Tx>,
    main0: MainTxs, fork0: ForkTxs, mid: MainTxs, fork: ForkTxs)
    requires NewLeaf(H, H', g, x) && tip in H && Placed(H, g, tip, main0, fork0, txsOf)
    requires HighestCommon(H', g, a, x, tip) && a in H
    requires Disconnected(H', g, tip, H'[a].height, main0[H'[x].height := stored], fork0, mid, fork)
    ensures forall y :: y in H' && !IsAncestor(H', g, y, x) ==> y in fork
  {
    AncestorsOfChild(H', g, x, H'[x].height);
    hide Linked, At;
    forall y | y in H' && !IsAncestor(H', g, y, x) ensures y in fork {
      assert y != x;
      AncestryStable(H, H', g, y, tip);
      if IsAncestor(H', g, y, tip) && H'[y].height <= H'[a].height {
        AtStable(H, H', g, tip, H'[y].height);
        SharedPath(H, H', g, tip, x, a, H'[y].height);
      }
    }
  }

  /** The fork store is right, except that the old block at the new tip's height gets what the put of
      the new tip left there. */
  lemma {:induction false} ForkValues(
    H: Headers, H': Headers, g: Hash, tip: Hash, x: Hash, a: Hash, txsOf: TxsOf, stored: seq<Tx>,
    main0: MainTxs, fork0: ForkTxs, mid: MainTxs, fork: ForkTxs)
    requires NewLeaf(H, H', g, x) && tip in H && Placed(H, g, tip, main0, fork0, txsOf)
    requires HighestCommon(H', g, a, x, tip)
    requires Disconnected(H', g, tip, H'[a].height, main0[H'[x].height := stored], fork0, mid, fork)
    ensures forall y :: y in fork ==>
      fork[y] == txsOf(y) || (H'[x].height <= H[tip].height && y == At(H, g, tip, H'[x].height))
  {
    hide Linked, At;
    forall y | y in fork
      ensures fork[y] == txsOf(y) || (H'[x].height <= H[tip].height && y == At(H, g, tip, H'[x].height))
    {
      if OnBranch(H', g, tip, H'[a].height, y) {
        var k := H'[y].height;
        AtStable(H, H', g, tip, k);
        assert TxsAt(main0, k) == ListedAt(H, g, tip, txsOf, k);
      }
    }
  }

  /** The two moves of a reorganisation from `old` to `tip`: what lies above the highest common ancestor on
      the old branch goes to the fork store; on the new branch everything in between comes back, or, if the
      fork store lacks a block, what lies below that block. */
  ghost predicate Moved(H: Headers, g: Hash, oldTip: Hash, tip: Hash,
                        main0: MainTxs, fork0: ForkTxs, main: MainTxs, fork: ForkTxs, ok: bool) {
    && Linked(H, g) && oldTip in H && tip in H
    && exists a, mid, hi ::
         && HighestCommon(H, g, a, tip, oldTip) && H[a].height < hi <= H[tip].height
         && Disconnected(H, g, oldTip, H[a].height, main0, fork0, mid, fork)
         && Reconnected(H, g, tip, H[a].height, hi, mid, main, fork)
         && (if hi == H[tip].height then ok else !ok && At(H, g, tip, hi) !in fork)
  }

  // ----- the chain object -----

  class Chain {
    const db: Store
    ghost const g: Hash
    ghost const txsOf: TxsOf

    /** The database is open over a linked tree whose tip has the most work. */
    ghost predicate Valid()
      reads db
    {
      db.tip.Some? && Best(db.headers, g, db.tip.value)
    }

    ghost predicate TxsPlaced()
      requires Valid()
      reads db
    {
      Placed(db.headers, g, db.tip.value, db.main, db.fork, txsOf)
    }

    /** A database without a tip gets the genesis header, with no work and no transactions; any other is
        opened as it is. */
    constructor (genesis: Header, db: Store, ghost txsOf: TxsOf)
      requires db.tip == None ==>
        && db.headers == map[] && db.main == map[] && db.fork == map[]
        && genesis.height == 0 && genesis.totalWork == 0 && genesis.previous != genesis.hash
      requires db.tip.Some? ==> Best(db.headers, genesis.hash, db.tip.value)
      modifies db
      ensures this.db == db && g == genesis.hash && this.txsOf == txsOf && Valid()
      ensures old(db.tip) == None ==> db.headers == map[g := genesis] && db.tip == Some(g) && TxsPlaced()
      ensures old(db.tip).Some? ==>
        db.headers == old(db.headers) && db.tip == old(db.tip) && db.main == old(db.main) && db.fork == old(db.fork)
    {
      this.db, this.g, this.txsOf := db, genesis.hash, txsOf;
      new;
      if db.tip == None {
        db.PutHeader(genesis, true);
      }
    }

    /** Follow n parents back; None when the chain ends before that. */
    method Rollback(parent: Header, n: nat) returns (r: Option<Header>)
      requires Linked(db.headers, g) && parent.hash in db.headers && db.headers[parent.hash] == parent
      ensures n <= parent.height ==> r == Some(db.headers[At(db.headers, g, parent.hash, parent.height - n)])
      ensures n > parent.height ==> r == None
    {
      hide Linked, At;
      ghost var H := db.headers;
      AtTop(H, g, parent.hash);
      var header := parent;
      var i := 0;
      while i < n
        invariant 0 <= i <= n && i <= parent.height && db.headers == H
        invariant header == H[At(H, g, parent.hash, parent.height - i)]
      {
        var previous := db.GetPrevious(header);
        if i == parent.height {
          NoParent(H, g, parent.hash);
          return None;
        }
        AtPrevious(H, g, parent.hash, parent.height - i - 1);
        header := previous.value;
        i := i + 1;
      }
      return Some(header);
    }

    method GetCommonAncestor(x: Header, y: Header) returns (r: Option<Header>)
      requires Linked(db.headers, g)
      requires forall h :: h in {x, y} ==> h.hash in db.headers && db.headers[h.hash] == h
      ensures r.Some? && r.value.hash in db.headers && db.headers[r.value.hash] == r.value
      ensures HighestCommon(db.headers, g, r.value.hash, x.hash, y.hash)
    {
      hide Linked, At, HighestCommon;
      ghost var H := db.headers;
      AtTop(H, g, x.hash);
      AtTop(H, g, y.hash);
      var majority, minority := x, y;
      if x.height > y.height {
        var back := Rollback(majority, x.height - y.height);
        majority := back.value;
      } else if y.height > x.height {
        var back := Rollback(minority, y.height - x.height);
        minority := back.value;
      }
      while true
        invariant db.headers == H
        invariant majority.height == minority.height <= x.height && majority.height <= y.height
        invariant majority == H[At(H, g, x.hash, majority.height)]
        invariant minority == H[At(H, g, y.hash, majority.height)]
        invariant forall k :: majority.height < k <= x.height && k <= y.height ==>
          At(H, g, x.hash, k) != At(H, g, y.hash, k)
        decreases majority.height
      {
        StoredHash(H, g, At(H, g, x.hash, majority.height));
        StoredHash(H, g, At(H, g, y.hash, majority.height));
        if majority.hash == minority.hash {
          MeetingIsHighest(H, g, x.hash, y.hash, majority.height);
          return Some(majority);
        }
        if majority.height == 0 {
          AtZero(H, g, x.hash);
          AtZero(H, g, y.hash);
          assert false;
        }
        AtPrevious(H, g, x.hash, majority.height - 1);
        AtPrevious(H, g, y.hash, majority.height - 1);
        var back := db.GetPrevious(majority);
        majority := back.value;
        back := db.GetPrevious(minority);
        minority := back.value;
      }
    }

    method LatestBlockLocator() returns (locator: seq<Hash>)
      requires Valid()
      ensures LocatorEntries(db.headers, g, db.tip.value, locator)
      ensures Linked(db.headers, g) && db.tip.value in db.headers
      ensures forall i: nat :: i < |locator| ==>
        var height := db.headers[db.tip.value].height;
        LocatorGap(i) <= height && locator[i] == At(db.headers, g, db.tip.value, height - LocatorGap(i))
      ensures forall i: nat ::
        i < |locator| <==> i < 100 && LocatorGap(i) <= db.headers[db.tip.value].height
    {
      hide Linked, At, LocatorEntries, Cadence, LocatorGap, Best;
      ghost var H, tip := db.headers, db.tip.value;
      TipIsStored(H, g, tip);
      LocatorStart(H, g, tip);
      locator := [];
      var step: nat, start: nat := 1, 0;
      var parent := db.headers[db.tip.value];
      while true
        invariant db.headers == H && db.tip == Some(tip)
        invariant |locator| < MAX_LOCATOR && LocatorGap(|locator|) <= H[tip].height
        invariant parent == H[At(H, g, tip, H[tip].height - LocatorGap(|locator|))]
        invariant LocatorEntries(H, g, tip, locator)
        invariant Cadence(|locator|, step, start)
        decreases MAX_LOCATOR - |locator|
      {
        CadenceStep(|locator|, step, start);
        if start >= 9 {
          step := step * 2;
          start := 0;
        }
        StoredHash(H, g, At(H, g, tip, H[tip].height - LocatorGap(|locator|)));
        LocatorStep(H, g, tip, locator, step);
        locator := locator + [parent.hash];
        EntriesAre(H, g, tip, locator);
        if |locator| >= MAX_LOCATOR {
          return;
        }
        var back := Rollback(parent, step);
        if back == None {
          return;
        }
        parent := back.value;
        start := start + 1;
      }
    }

    /** Move the transactions after a reorganising block has been stored as the new tip. */
    method Reorganize(header: Header, best: Header, ghost H: Headers, ghost main0: MainTxs) returns (ok: bool)
      requires NewLeaf(H, db.headers, g, header.hash) && best.hash in H && H[best.hash] == best
      requires db.headers[header.hash] == header && db.tip == Some(header.hash)
      requires db.main == main0[header.height := txsOf(header.hash)]
      modifies db
      ensures db.headers == old(db.headers) && db.tip == old(db.tip)
      ensures Moved(db.headers, g, best.hash, header.hash, old(db.main), old(db.fork), db.main, db.fork, ok)
      ensures Placed(H, g, best.hash, main0, old(db.fork), txsOf) ==>
        && ok
        && (Placed(db.headers, g, header.hash, db.main, db.fork, txsOf) <==>
              !(header.height <= best.height && Overwrites(H, g, best.hash, header.height, header.hash, txsOf)))
        && (header.height <= best.height ==>
              var y := At(H, g, best.hash, header.height);
              TxsAt(db.main, header.height) == [] && y in db.fork && db.fork[y] == txsOf(header.hash))
    {
      hide Linked, At, Placed, Disconnected, Reconnected, HighestCommon, IsAncestor;
      ghost var H', fork0 := db.headers, db.fork;
      var ancestor := GetCommonAncestor(header, best);
      ghost var a := ancestor.value.hash;
      AncestorIsLower(H, H', g, best.hash, header.hash, a);
      CommonIsAncestor(H', g, a, header.hash, best.hash);
      ghost var mid;
      ghost var hi;
      ok, mid, hi := db.ProcessReorganize(ancestor.value, best, header, g);
      assert Moved(H', g, best.hash, header.hash, old(db.main), fork0, db.main, db.fork, ok);
      if Placed(H, g, best.hash, main0, fork0, txsOf) {
        forall k | ancestor.value.height < k < header.height ensures At(H', g, header.hash, k) in db.fork {
          BranchIsInFork(H, H', g, best.hash, header.hash, a, main0, fork0, txsOf, k);
          StaysInFork(H', g, best.hash, ancestor.value.height, main0[header.height := txsOf(header.hash)], fork0,
                      mid, db.fork, At(H', g, header.hash, k));
        }
        PlacedOnReorg(H, H', g, best.hash, header.hash, a, txsOf, txsOf(header.hash), main0, fork0, mid, db.main, db.fork);
        if header.height <= best.height {
          OldTipMoved(H, H', g, best.hash, header.hash, a, txsOf(header.hash), main0, fork0, mid, db.main, db.fork);
        }
      }
    }

    /** Commit a block. The headers and the tip follow the header rules; transactions stay placed
        exactly unless the block misfiles. After a reorganisation onto a tip that is not higher, the
        height of the tip reads empty and its transactions are filed under the old block there. */
    method CommitBlock(b: Block) returns (outcome: Outcome, ok: bool)
      requires Valid() && Consistent(db.headers, g, b) && txsOf(b.hash) == b.txs
      modifies db
      ensures Valid()
      ensures outcome == CommitOutcome(old(db.headers), old(db.tip.value), b)
      ensures outcome.Orphan? <==> b.previous !in old(db.headers)
      ensures outcome.Stored? <==>
        && b.previous in old(db.headers) && Some(b.hash) != old(db.tip)
        && 0 < Target(b.bits) < Pow2(255) && LittleEndian(b.powHash) <= Target(b.bits)
      ensures outcome.Stored? && !outcome.reorg ==>
        if outcome.newTip then db.main == old(db.main)[outcome.newHeight := b.txs] && db.fork == old(db.fork)
        else db.main == old(db.main) && db.fork == old(db.fork)[b.hash := b.txs]
      ensures outcome.Stored? && outcome.reorg ==>
        Moved(db.headers, g, old(db.tip.value), b.hash, old(db.main)[outcome.newHeight := b.txs], old(db.fork), db.main, db.fork, ok)
      ensures !outcome.Stored? ==>
        db.headers == old(db.headers) && db.tip == old(db.tip) && db.main == old(db.main) && db.fork == old(db.fork)
      ensures db.headers == NextHeaders(old(db.headers), old(db.tip.value), b)
      ensures db.tip == Some(NextTip(old(db.headers), old(db.tip.value), b))
      ensures old(TxsPlaced()) ==> ok
      ensures old(TxsPlaced()) ==> (TxsPlaced() <==> !Misfiles(old(db.headers), g, old(db.tip.value), b, txsOf))
      ensures old(TxsPlaced()) && Sinks(outcome, old(db.headers[db.tip.value])) ==>
        var y := At(old(db.headers), g, old(db.tip.value), outcome.newHeight);
        TxsAt(db.main, outcome.newHeight) == [] && y in db.fork && db.fork[y] == b.txs
    {
      OutcomeRules(db.headers, db.tip.value, b);
      hide Linked, At, Placed, Best, CalcWork, ValidPow, Overwrites, Target, LittleEndian, Pow2;
      ghost var H, tip := db.headers, db.tip.value;
      ghost var main0, fork0 := db.main, db.fork;
      TipIsStored(H, g, tip);
      CommitKeepsBest(H, g, tip, b);
      ok := true;
      var best := db.headers[db.tip.value];
      if b.previous !in db.headers {
        return Orphan, ok;
      }
      var parent := db.headers[b.previous];
      var valid := CheckProofOfWork(b.bits, b.powHash);
      if !valid {
        return Invalid, ok;
      }
      if b.hash == db.tip.value {
        return Known, ok;
      }
      var header := HeaderOf(b, parent);
      var newTip := header.totalWork > best.totalWork;
      var reorg := newTip && db.tip.value != b.previous;
      CommitIsLeaf(H, g, tip, b);
      db.CommitBlock(header, b.txs, newTip);
      outcome := Stored(newTip, reorg, header.height);
      if reorg {
        ok := Reorganize(header, best, H, main0);
      } else if Placed(H, g, tip, main0, fork0, txsOf) {
        if newTip {
          PlacedOnExtend(H, db.headers, g, tip, b.hash, main0, fork0, txsOf);
        } else {
          PlacedOnFork(H, db.headers, g, tip, b.hash, main0, fork0, txsOf);
        }
      }
    }
  }

  /** A commit that reorganises the chain onto a tip that is not higher than the old one. */
  predicate Sinks(outcome: Outcome, oldTip: Header) {
    outcome.Stored? && outcome.reorg && outcome.newHeight <= oldTip.height
  }

  /** Block x, put at a height of the chain that ends in tip, or the block it displaces there, has
      transactions. */
  ghost predicate Overwrites(H: Headers, g: Hash, tip: Hash, height: nat, x: Hash, txsOf: TxsOf)
    requires Linked(H, g) && tip in H && height <= H[tip].height
  {
    txsOf(x) != [] || txsOf(At(H, g, tip, height)) != []
  }

  /** A commit that sinks, unless both its block and the old block at its height are empty. */
  ghost predicate Misfiles(H: Headers, g: Hash, tip: Hash, b: Block, txsOf: TxsOf)
    requires Linked(H, g) && tip in H
  {
    var outcome := CommitOutcome(H, tip, b);
    Sinks(outcome, H[tip]) && Overwrites(H, g, tip, outcome.newHeight, b.hash, txsOf)
  }

  lemma {:induction false} TipIsStored(H: Headers, g: Hash, tip: Hash)
    requires Best(H, g, tip)
    ensures Linked(H, g) && tip in H && H[tip].hash == tip && At(H, g, tip, H[tip].height) == tip
  {
    StoredHash(H, g, tip);
  }

  lemma {:induction false} AtTop(H: Headers, g: Hash, x: Hash)
    requires Linked(H, g) && x in H
    ensures At(H, g, x, H[x].height) == x && H[x].hash == x
  {
    StoredHash(H, g, x);
  }

  lemma {:induction false} NoParent(H: Headers, g: Hash, x: Hash)
    requires Linked(H, g) && x in H
    ensures H[At(H, g, x, 0)].previous !in H
  {
    AtZero(H, g, x);
  }

  lemma {:induction false} MeetingIsHighest(H: Headers, g: Hash, x: Hash, y: Hash, k: nat)
    requires Linked(H, g) && x in H && y in H && k <= H[x].height && k <= H[y].height
    requires At(H, g, x, k) == At(H, g, y, k)
    requires forall j :: k < j <= H[x].height && j <= H[y].height ==> At(H, g, x, j) != At(H, g, y, j)
    ensures HighestCommon(H, g, At(H, g, x, k), x, y)
  {
    hide Linked, At;
  }

  lemma {:induction false} CommonIsAncestor(H: Headers, g: Hash, a: Hash, x: Hash, y: Hash)
    requires Linked(H, g) && x in H && y in H && HighestCommon(H, g, a, x, y)
    ensures IsAncestor(H, g, a, x) && IsAncestor(H, g, a, y)
  {
  }

  lemma {:induction false} StaysInFork(H: Headers, g: Hash, end: Hash, low: nat,
                                       main0: MainTxs, fork0: ForkTxs, main: MainTxs, fork: ForkTxs, x: Hash)
    requires Linked(H, g) && end in H && Disconnected(H, g, end, low, main0, fork0, main, fork) && x in fork0
    ensures x in fork
  {
    hide Linked, At;
  }

  /** A stored block is either already there, unchanged, or a new leaf. */
  lemma {:induction false} CommitIsLeaf(H: Headers, g: Hash, tip: Hash, b: Block)
    requires Best(H, g, tip) && Consistent(H, g, b) && CommitOutcome(H, tip, b).Stored?
    ensures var H' := NextHeaders(H, tip, b);
      && Linked(H', g) && (H' == H || NewLeaf(H, H', g, b.hash))
      && (CommitOutcome(H, tip, b).newTip ==> NewLeaf(H, H', g, b.hash))
  {
    CommitKeepsBest(H, g, tip, b);
    if b.hash in H {
      AgainIsSame(H, g, tip, b);
    }
    hide CalcWork;
  }

  // ----- the cadence of the locator -----

  /** Before entry i is written, start counts the steps of the current size and step is that size. */
  predicate Cadence(i: nat, step: nat, start: nat) {
    && start <= 9
    && (i == 0 ==> step == 1 && start == 0)
    && (i > 0 ==> start >= 1 && (i - 1) % 9 == start - 1 && step == Pow2((i - 1) / 9))
  }

  lemma {:induction false} CadenceStep(i: nat, step: nat, start: nat)
    requires Cadence(i, step, start)
    ensures var step' := if start >= 9 then step * 2 else step;
      var start' := if start >= 9 then 0 else start;
      && step' == Pow2(i / 9) && Cadence(i + 1, step', start' + 1)
      && LocatorGap(i + 1) == LocatorGap(i) + step'
  {
    if i > 0 {
      assert i == 9 * ((i - 1) / 9) + start;
    }
  }

  /** Entry i is the best-chain header LocatorGap(i) below the tip. */
  ghost predicate LocatorEntries(H: Headers, g: Hash, tip: Hash, locator: seq<Hash>)
    requires Linked(H, g) && tip in H
  {
    && |locator| <= MAX_LOCATOR
    && forall i: nat :: i < |locator| ==> LocatorEntry(H, g, tip, i, locator[i])
  }

  ghost predicate LocatorEntry(H: Headers, g: Hash, tip: Hash, i: nat, entry: Hash)
    requires Linked(H, g) && tip in H
  {
    LocatorGap(i) <= H[tip].height && entry == At(H, g, tip, H[tip].height - LocatorGap(i))
  }

  lemma {:induction false} EntriesAre(H: Headers, g: Hash, tip: Hash, locator: seq<Hash>)
    requires Linked(H, g) && tip in H && LocatorEntries(H, g, tip, locator)
    ensures forall i: nat :: i < |locator| ==>
      LocatorGap(i) <= H[tip].height && locator[i] == At(H, g, tip, H[tip].height - LocatorGap(i))
  {
    hide Linked, At, LocatorGap;
    forall i: nat | i < |locator|
      ensures LocatorGap(i) <= H[tip].height && locator[i] == At(H, g, tip, H[tip].height - LocatorGap(i))
    {
      assert LocatorEntry(H, g, tip, i, locator[i]);
    }
  }

  lemma {:induction false} LocatorStart(H: Headers, g: Hash, tip: Hash)
    requires Linked(H, g) && tip in H
    ensures LocatorGap(0) == 0 && LocatorEntries(H, g, tip, []) && Cadence(0, 1, 0)
    ensures At(H, g, tip, H[tip].height) == tip
  {
  }

  /** Writing the entry at the cursor and moving step headers down; the run ends exactly when
      the next gap passes genesis or the locator is full. */
  lemma {:induction false} LocatorStep(H: Headers, g: Hash, tip: Hash, locator: seq<Hash>, step: nat)
    requires Linked(H, g) && tip in H && LocatorEntries(H, g, tip, locator) && |locator| < MAX_LOCATOR
    requires LocatorGap(|locator|) <= H[tip].height && LocatorGap(|locator| + 1) == LocatorGap(|locator|) + step
    ensures var k := H[tip].height - LocatorGap(|locator|);
      && LocatorEntries(H, g, tip, locator + [At(H, g, tip, k)])
      && H[At(H, g, tip, k)].height == k
      && (step <= k ==> At(H, g, At(H, g, tip, k), k - step) == At(H, g, tip, H[tip].height - LocatorGap(|locator| + 1)))
    ensures forall i: nat :: i <= |locator| ==> LocatorGap(i) <= H[tip].height
    ensures LocatorGap(|locator| + 1) > H[tip].height ==>
      forall i: nat :: i > |locator| ==> LocatorGap(i) > H[tip].height
  {
    hide Linked, At, LocatorGap;
    var k := H[tip].height - LocatorGap(|locator|);
    if step <= k {
      AtThrough(H, g, tip, k, k - step);
    }
    GapsBelow(|locator|, H[tip].height);
    if LocatorGap(|locator| + 1) > H[tip].height {
      GapsAbove(|locator| + 1, H[tip].height);
    }
  }

  lemma {:induction false} GapsBelow(n: nat, height: nat)
    requires LocatorGap(n) <= height
    ensures forall i: nat :: i <= n ==> LocatorGap(i) <= height
  {
    forall i: nat | i <= n ensures LocatorGap(i) <= height {
      if i < n {
        LocatorGapGrows(i, n);
      }
    }
  }

  lemma {:induction false} GapsAbove(n: nat, height: nat)
    requires LocatorGap(n) > height
    ensures forall i: nat :: i >= n ==> LocatorGap(i) > height
  {
    forall i: nat | i >= n ensures LocatorGap(i) > height {
      if i > n {
        LocatorGapGrows(n, i);
      }
    }
  }

  // ----- every run -----

  /** No commit of the run misfiles. */
  ghost predicate NoneMisfiles(g: Header, blocks: seq<Block>, txsOf: TxsOf) {
    forall i :: 0 <= i < |blocks| ==> StepFiles(g, blocks, txsOf, i)
  }

  ghost predicate StepFiles(g: Header, blocks: seq<Block>, txsOf: TxsOf, i: nat)
    requires i < |blocks|
  {
    var (H, tip) := RunHeaders(g, blocks[..i]);
    Linked(H, g.hash) ==> !Misfiles(H, g.hash, tip, blocks[i], txsOf)
  }

  lemma {:induction false} NextFiles(g: Header, blocks: seq<Block>, txsOf: TxsOf, i: nat)
    requires i < |blocks|
    ensures var (H, tip) := RunHeaders(g, blocks[..i]);
      NoneMisfiles(g, blocks, txsOf) && Linked(H, g.hash) ==> !Misfiles(H, g.hash, tip, blocks[i], txsOf)
  {
    hide RunHeaders, Linked, Misfiles;
    assert NoneMisfiles(g, blocks, txsOf) ==> StepFiles(g, blocks, txsOf, i);
  }

  lemma {:induction false} RunStep(g: Header, blocks: seq<Block>, i: nat)
    requires i < |blocks|
    ensures var (H, tip) := RunHeaders(g, blocks[..i]);
      RunHeaders(g, blocks[..i + 1]) == (NextHeaders(H, tip, blocks[i]), NextTip(H, tip, blocks[i]))
  {
    assert blocks[..i + 1][..i] == blocks[..i];
    hide NextHeaders, NextTip;
  }

  lemma {:induction false} RunIsConsistent(g: Header, blocks: seq<Block>, i: nat, world: Hash -> Block)
    requires i < |blocks| && WorldOf(g, blocks, world)
    ensures Consistent(RunHeaders(g, blocks[..i]).0, g.hash, blocks[i])
  {
    hide Best, RunHeaders;
    assert blocks[i] in blocks;
    BestOverEveryRun(g, blocks[..i], world);
  }

  /** The chain has replayed the first i blocks. */
  ghost predicate Replayed(chain: Chain, genesis: Header, blocks: seq<Block>, i: nat)
    requires i <= |blocks|
    reads chain.db
  {
    && chain.g == genesis.hash && chain.Valid()
    && (chain.db.headers, chain.db.tip.value) == RunHeaders(genesis, blocks[..i])
    && (NoneMisfiles(genesis, blocks, chain.txsOf) ==> chain.TxsPlaced())
  }

  method ReplayNext(chain: Chain, genesis: Header, blocks: seq<Block>, i: nat, ghost world: Hash -> Block)
    requires WorldOf(genesis, blocks, world) && i < |blocks| && forall x :: chain.txsOf(x) == world(x).txs
    requires Replayed(chain, genesis, blocks, i)
    modifies chain.db
    ensures Replayed(chain, genesis, blocks, i + 1)
  {
    hide Best, Placed, RunHeaders, NextHeaders, NextTip, Consistent, CommitOutcome, Sinks, Linked;
    hide Misfiles, At, TxsAt, NoneMisfiles;
    assert blocks[i] in blocks;
    RunIsConsistent(genesis, blocks, i, world);
    RunStep(genesis, blocks, i);
    TipIsStored(chain.db.headers, chain.g, chain.db.tip.value);
    NextFiles(genesis, blocks, chain.txsOf, i);
    var outcome, ok := chain.CommitBlock(blocks[i]);
  }

  /** Committing any sequence of blocks to a fresh database: the tree is the one of the header
      rules, and the transactions are placed if no commit misfiles. */
  method Replay(genesis: Header, blocks: seq<Block>, ghost world: Hash -> Block) returns (chain: Chain)
    requires WorldOf(genesis, blocks, world)
    ensures fresh(chain.db) && chain.g == genesis.hash && forall x :: chain.txsOf(x) == world(x).txs
    ensures chain.Valid() && (chain.db.headers, chain.db.tip.value) == RunHeaders(genesis, blocks)
    ensures NoneMisfiles(genesis, blocks, chain.txsOf) ==> chain.TxsPlaced()
    ensures forall x :: x in chain.db.headers && x != genesis.hash ==>
      0 < Target(chain.db.headers[x].bits) < Pow2(255) && LittleEndian(world(x).powHash) <= Target(chain.db.headers[x].bits)
  {
    BestOverEveryRun(genesis, blocks, world);
    hide Best, Placed, RunHeaders, Linked, NoneMisfiles, Target, LittleEndian, Pow2;
    var db := new Store();
    chain := new Chain(genesis, db, x => world(x).txs);
    RunStart(genesis, blocks);
    var i := 0;
    while i < |blocks|
      invariant 0 <= i <= |blocks| && fresh(chain.db) && Replayed(chain, genesis, blocks, i)
    {
      ReplayNext(chain, genesis, blocks, i, world);
      i := i + 1;
    }
    assert blocks[..|blocks|] == blocks;
  }

  lemma {:induction false} RunStart(g: Header, blocks: seq<Block>)
    ensures RunHeaders(g, blocks[..0]) == (map[g.hash := g], g.hash)
  {
  }

  // ----- a run that misfiles -----

  function SampleGenesis(): Header {
    Header(Hash([0]), Hash([]), 0, 0, 0)
  }

  /** A transaction of sample block k. */
  function SampleTx(k: nat): Tx
    requires k < 256
  {
    Tx(Hash([k as byte, 0]), [], [])
  }

  /** Two light blocks on top of each other, then a heavy sibling of the first one. */
  function SampleBlock(k: nat): Block
    requires 1 <= k <= 3
  {
    if k == 1 then Block(Hash([1]), Hash([0]), 0x207fffff, [], [SampleTx(1)])
    else if k == 2 then Block(Hash([2]), Hash([1]), 0x207fffff, [], [SampleTx(2)])
    else Block(Hash([3]), Hash([0]), 0x20010000, [], [SampleTx(3)])
  }

  function SampleWorld(): Hash -> Block {
    x => if x == Hash([1]) then SampleBlock(1) else if x == Hash([2]) then SampleBlock(2)
         else if x == Hash([3]) then SampleBlock(3) else Block(Hash([0]), Hash([]), 0, [], [])
  }

  /** The third commit reorganises the chain onto a lower tip; until then nothing sinks. */
  lemma {:induction false} ThirdCommitSinks()
    ensures var g, b1, b2, b3 := SampleGenesis(), SampleBlock(1), SampleBlock(2), SampleBlock(3);
      SinksThird(g, b1, b2, b3)
  {
    SampleWorks();
    DistinctHashes();
    hide Target, CalcWork, Pow2, RunHeaders, SinksThird;
    var g, b1, b2, b3 := SampleGenesis(), SampleBlock(1), SampleBlock(2), SampleBlock(3);
    assert LittleEndian([]) == 0;
    SinksAtTwo(g, b1, b2, b3);
  }

  lemma {:induction false} DistinctHashes()
    ensures Hash([0]) != Hash([1]) && Hash([0]) != Hash([2]) && Hash([0]) != Hash([3])
    ensures Hash([1]) != Hash([2]) && Hash([1]) != Hash([3]) && Hash([2]) != Hash([3])
    ensures Hash([]) != Hash([0]) && Hash([]) != Hash([1]) && Hash([]) != Hash([2]) && Hash([]) != Hash([3])
  {
    assert |Hash([]).bytes| == 0;
    assert Hash([0]).bytes[0] == 0 && Hash([1]).bytes[0] == 1 && Hash([2]).bytes[0] == 2 && Hash([3]).bytes[0] == 3;
  }

  /** Block b2 extends b1; committing b3 then sinks from height 2 to height 1. */
  predicate SinksThird(g: Header, b1: Block, b2: Block, b3: Block) {
    var (H0, tip0) := RunHeaders(g, []);
    var (H1, tip1) := RunHeaders(g, [b1]);
    var (H2, tip2) := RunHeaders(g, [b1, b2]);
    && !Sinks(CommitOutcome(H0, tip0, b1), H0[tip0]) && !Sinks(CommitOutcome(H1, tip1, b2), H1[tip1])
    && tip2 == b2.hash && H2[tip2].height == 2 && b1.hash in H2 && H2[tip2].previous == b1.hash && H2[b1.hash].height == 1
    && Sinks(CommitOutcome(H2, tip2, b3), H2[tip2]) && CommitOutcome(H2, tip2, b3).newHeight == 1
    && NextTip(H2, tip2, b3) == b3.hash
  }

  lemma {:induction false} SinksAtTwo(g: Header, b1: Block, b2: Block, b3: Block)
    requires g.height == 0 && g.totalWork == 0
    requires g.hash !in [b1.hash, b2.hash, b3.hash] && b1.hash !in [b2.hash, b3.hash] && b2.hash != b3.hash
    requires b1.previous == g.hash && b2.previous == b1.hash && b3.previous == g.hash
    requires forall b :: b in {b1, b2, b3} ==> ValidPow(b.bits, b.powHash)
    requires CalcWork(b1.bits) == 2 && CalcWork(b2.bits) == 2 && CalcWork(b3.bits) == 255
    ensures SinksThird(g, b1, b2, b3)
  {
    hide CalcWork, ValidPow, RunHeaders;
    var blocks := [b1, b2];
    assert blocks[..0] == [] && blocks[..1] == [b1] && blocks[..2] == blocks;
    RunStart(g, blocks);
    RunStep(g, blocks, 0);
    RunStep(g, blocks, 1);
  }

  /** After that run reading height 1 gives nothing, although the tip is there and has a transaction,
      and that transaction is filed under the block it replaced, whose own transaction is gone. */
  method SinkingReplay() returns (chain: Chain)
    ensures chain.Valid() && chain.db.tip == Some(SampleBlock(3).hash) && chain.db.headers.Keys >= {Hash([1]), Hash([3])}
    ensures chain.db.headers[Hash([3])].height == 1 && TxsAt(chain.db.main, 1) == []
    ensures Hash([1]) in chain.db.fork && chain.db.fork[Hash([1])] == [SampleTx(3)] != SampleBlock(1).txs
    ensures !chain.TxsPlaced()
  {
    hide Best, Placed, RunHeaders, NextHeaders, NextTip, Consistent, CommitOutcome, Linked, CalcWork, Target;
    hide Misfiles, At, TxsAt, Sinks, SinksThird, NoneMisfiles, LittleEndian, Pow2, Replayed;
    var g, b1, b2, b3 := SampleGenesis(), SampleBlock(1), SampleBlock(2), SampleBlock(3);
    DistinctHashes();
    ThirdCommitSinks();
    chain := Replay(g, [b1, b2], SampleWorld());
    FirstTwoFile(g, b1, b2, b3, chain.txsOf);
    assert chain.TxsPlaced();
    RunIsConsistent(g, [b1, b2, b3], 2, SampleWorld());
    assert [b1, b2, b3][..2] == [b1, b2];
    TipIsStored(chain.db.headers, chain.g, chain.db.tip.value);
    ThirdMisfiles(g, chain.db.headers, chain.db.tip.value, b1, b2, b3, chain.txsOf);
    var outcome, ok := chain.CommitBlock(b3);
  }

  lemma {:induction false} FirstTwoFile(g: Header, b1: Block, b2: Block, b3: Block, txsOf: TxsOf)
    requires SinksThird(g, b1, b2, b3)
    ensures NoneMisfiles(g, [b1, b2], txsOf)
  {
    hide RunHeaders, CommitOutcome, Sinks;
    var two := [b1, b2];
    assert two[..0] == [] && two[..1] == [b1];
    forall i | 0 <= i < |two| ensures StepFiles(g, two, txsOf, i) {
      assert i == 0 || i == 1;
    }
  }

  lemma {:induction false} ThirdMisfiles(g: Header, H: Headers, tip: Hash, b1: Block, b2: Block, b3: Block, txsOf: TxsOf)
    requires SinksThird(g, b1, b2, b3) && RunHeaders(g, [b1, b2]) == (H, tip) && Linked(H, g.hash)
    requires txsOf(b3.hash) == b3.txs != []
    ensures tip == b2.hash && tip in H
    ensures var outcome := CommitOutcome(H, b2.hash, b3);
      && Misfiles(H, g.hash, b2.hash, b3, txsOf) && Sinks(outcome, H[b2.hash])
      && outcome.newHeight == 1 && At(H, g.hash, b2.hash, 1) == b1.hash
    ensures NextTip(H, b2.hash, b3) == b3.hash
    ensures var H' := NextHeaders(H, b2.hash, b3); b1.hash in H' && b3.hash in H' && H'[b3.hash].height == 1
  {
    hide RunHeaders, CalcWork, ValidPow;
    AncestorsOfChild(H, g.hash, b2.hash, 1);
    AncestorsOfChild(H, g.hash, b2.hash, 2);
    AtTop(H, g.hash, b1.hash);
    hide Linked, At;
  }
}
