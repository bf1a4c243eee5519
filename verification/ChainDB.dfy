/** database/chaindb.go: the stores behind the chain, and the move of transactions between the
    main chain (kept by height) and the forks (kept by block hash). */
module ChainDB {
  import opened BloomFilter
  import opened HeaderChain
  import opened MerkleTree
  import opened Wrappers

  /** The main store, by height. A list put at an occupied height replaces the one there; the
      documentation of the store does not say, and an adding store is covered by its own lemma. */
  type MainTxs = map<nat, seq<Tx>>

  type ForkTxs = map<Hash, seq<Tx>>

  /** What a reader of the store sees: a height without an entry looks like one without transactions. */
  function TxsAt(main: MainTxs, height: nat): seq<Tx> {
    if height in main then main[height] else []
  }

  /** x is on the branch that ends in `end`, above height `low`. */
  ghost predicate OnBranch(H: Headers, g: Hash, end: Hash, low: nat, x: Hash)
    requires Linked(H, g) && end in H
  {
    x in H && low < H[x].height <= H[end].height && At(H, g, end, H[x].height) == x
  }

  /** Blocks of the branch that ends in `end`, above height `low`, have been moved out of the
      main store (main0 before, main after) into the fork store. */
  ghost predicate Disconnected(H: Headers, g: Hash, end: Hash, low: nat,
                               main0: MainTxs, fork0: ForkTxs, main: MainTxs, fork: ForkTxs)
    requires Linked(H, g) && end in H
  {
    && (forall k :: k in main <==> k in main0 && !(low < k <= H[end].height))
    && (forall k :: k in main ==> main[k] == main0[k])
    && (forall x :: x in fork <==> x in fork0 || OnBranch(H, g, end, low, x))
    && (forall x :: x in fork ==>
          fork[x] == if OnBranch(H, g, end, low, x) then TxsAt(main0, H[x].height) else fork0[x])
  }

  lemma {:induction false} DisconnectStep(H: Headers, g: Hash, end: Hash, k: nat,
                                          main0: MainTxs, fork0: ForkTxs, main: MainTxs, fork: ForkTxs)
    requires Linked(H, g) && end in H && 0 < k <= H[end].height
    requires Disconnected(H, g, end, k, main0, fork0, main, fork)
    ensures Disconnected(H, g, end, k - 1, main0, fork0, main - {k}, fork[At(H, g, end, k) := TxsAt(main, k)])
  {
    hide Linked, At;
    var x := At(H, g, end, k);
    forall y ensures OnBranch(H, g, end, k - 1, y) <==> OnBranch(H, g, end, k, y) || y == x {
    }
  }

  /** Blocks strictly between heights low and hi of the branch that ends in `end` are in the
      main store, taken from the fork store. */
  ghost predicate Reconnected(H: Headers, g: Hash, end: Hash, low: nat, hi: nat,
                              main0: MainTxs, main: MainTxs, fork: ForkTxs)
    requires Linked(H, g) && end in H && hi <= H[end].height
  {
    && (forall k :: low < k < hi ==> At(H, g, end, k) in fork)
    && (forall k :: k in main <==> k in main0 || low < k < hi)
    && (forall k :: k in main ==> main[k] == if low < k < hi then fork[At(H, g, end, k)] else main0[k])
  }

  lemma {:induction false} ReconnectStep(H: Headers, g: Hash, end: Hash, low: nat, hi: nat,
                                         main0: MainTxs, main: MainTxs, fork: ForkTxs)
    requires Linked(H, g) && end in H && low < hi < H[end].height
    requires Reconnected(H, g, end, low, hi, main0, main, fork) && At(H, g, end, hi) in fork
    ensures Reconnected(H, g, end, low, hi + 1, main0, main[hi := fork[At(H, g, end, hi)]], fork)
  {
    hide Linked, At;
  }

  /** The index from parent hash to header covers the branch from height k up. */
  ghost predicate Indexed(H: Headers, g: Hash, end: Hash, k: nat, subChain: map<Hash, Header>)
    requires Linked(H, g) && end in H
  {
    forall j :: k <= j < H[end].height ==>
      At(H, g, end, j) in subChain && subChain[At(H, g, end, j)] == H[At(H, g, end, j + 1)]
  }

  lemma {:induction false} IndexStep(H: Headers, g: Hash, end: Hash, k: nat, subChain: map<Hash, Header>)
    requires Linked(H, g) && end in H && 0 < k <= H[end].height && Indexed(H, g, end, k, subChain)
    ensures Indexed(H, g, end, k - 1, subChain[At(H, g, end, k - 1) := H[At(H, g, end, k)]])
  {
    hide Linked, At;
  }

  class Store {
    var headers: Headers
    var tip: Option<Hash>
    var main: MainTxs
    var fork: ForkTxs

    constructor ()
      ensures headers == map[] && tip == None && main == map[] && fork == map[]
    {
      headers, tip, main, fork := map[], None, map[], map[];
    }

    method PutHeader(h: Header, newTip: bool)
      modifies this`headers, this`tip
      ensures headers == old(headers)[h.hash := h]
      ensures tip == if newTip then Some(h.hash) else old(tip)
    {
      headers := headers[h.hash := h];
      if newTip {
        tip := Some(h.hash);
      }
    }

    method GetPrevious(h: Header) returns (r: Option<Header>)
      ensures r == if h.previous in headers then Some(headers[h.previous]) else None
    {
      r := if h.previous in headers then Some(headers[h.previous]) else None;
    }

    method CommitBlock(h: Header, txs: seq<Tx>, newTip: bool)
      modifies this
      ensures headers == old(headers)[h.hash := h]
      ensures tip == if newTip then Some(h.hash) else old(tip)
      ensures main == if newTip then old(main)[h.height := txs] else old(main)
      ensures fork == if newTip then old(fork) else old(fork)[h.hash := txs]
    {
      PutHeader(h, newTip);
      if newTip {
        main := main[h.height := txs];
      } else {
        fork := fork[h.hash := txs];
      }
    }

    /** Move the transactions of the blocks from prevTip down to the ancestor into the fork store. */
    method Disconnect(ancestor: Header, prevTip: Header, ghost g: Hash)
      requires Linked(headers, g)
      requires prevTip.hash in headers && headers[prevTip.hash] == prevTip
      requires ancestor.hash in headers && headers[ancestor.hash] == ancestor
      requires IsAncestor(headers, g, ancestor.hash, prevTip.hash)
      modifies this`main, this`fork
      ensures Disconnected(headers, g, prevTip.hash, ancestor.height, old(main), old(fork), main, fork)
    {
      hide Linked, At, Disconnected, IsAncestor;
      ghost var H := headers;
      DisconnectStart(H, g, ancestor.hash, prevTip.hash, main, fork);
      var header := prevTip;
      while header.hash != ancestor.hash
        invariant ancestor.height <= header.height <= prevTip.height
        invariant header.hash in H && H[header.hash] == header
        invariant header.hash == At(H, g, prevTip.hash, header.height)
        invariant Disconnected(H, g, prevTip.hash, header.height, old(main), old(fork), main, fork)
        decreases header.height
      {
        AboveAncestor(H, g, prevTip.hash, ancestor.hash, header.hash);
        AtPrevious(H, g, prevTip.hash, header.height - 1);
        DisconnectStep(H, g, prevTip.hash, header.height, old(main), old(fork), main, fork);
        fork := fork[header.hash := TxsAt(main, header.height)];
        main := main - {header.height};
        header := headers[header.previous];
      }
    }

    /** Put the transactions of the blocks between the ancestor and newTip, oldest first, back
        into the main store; false when the fork store lacks one of them. */
    method Reconnect(ancestor: Header, newTip: Header, ghost g: Hash) returns (ok: bool, ghost hi: nat)
      requires Linked(headers, g)
      requires newTip.hash in headers && headers[newTip.hash] == newTip
      requires ancestor.hash in headers && headers[ancestor.hash] == ancestor
      requires IsAncestor(headers, g, ancestor.hash, newTip.hash) && ancestor.height < newTip.height
      modifies this`main
      ensures ok <==> forall k :: ancestor.height < k < newTip.height ==> At(headers, g, newTip.hash, k) in fork
      ensures ancestor.height < hi <= newTip.height && (ok <==> hi == newTip.height)
      ensures Reconnected(headers, g, newTip.hash, ancestor.height, hi, old(main), main, fork)
      ensures !ok ==> At(headers, g, newTip.hash, hi) !in fork
    {
      hide Linked, At, Indexed, Reconnected, IsAncestor;
      ghost var H := headers;
      ReconnectStart(H, g, ancestor.hash, newTip.hash, main, fork);
      var subChain: map<Hash, Header> := map[];
      var header := newTip;
      while header.hash != ancestor.hash
        invariant ancestor.height <= header.height <= newTip.height
        invariant header.hash in H && H[header.hash] == header
        invariant header.hash == At(H, g, newTip.hash, header.height)
        invariant Indexed(H, g, newTip.hash, header.height, subChain)
        invariant main == old(main)
        decreases header.height
      {
        AboveAncestor(H, g, newTip.hash, ancestor.hash, header.hash);
        AtPrevious(H, g, newTip.hash, header.height - 1);
        IndexStep(H, g, newTip.hash, header.height, subChain);
        subChain := subChain[header.previous := header];
        header := headers[header.previous];
      }
      IndexLookup(H, g, newTip.hash, ancestor.height, ancestor.height, subChain);
      header := subChain[ancestor.hash];
      while header.hash != newTip.hash
        invariant ancestor.height < header.height <= newTip.height
        invariant header.hash == At(H, g, newTip.hash, header.height) && H[header.hash] == header
        invariant Reconnected(H, g, newTip.hash, ancestor.height, header.height, old(main), main, fork)
        decreases newTip.height - header.height
      {
        if header.hash !in fork {
          ghost var k := header.height;
          assert ancestor.height < k < newTip.height && At(headers, g, newTip.hash, k) !in fork;
          return false, k;
        }
        IndexLookup(H, g, newTip.hash, ancestor.height, header.height, subChain);
        ReconnectStep(H, g, newTip.hash, ancestor.height, header.height, old(main), main, fork);
        main := main[header.height := fork[header.hash]];
        header := subChain[header.hash];
      }
      AllReconnected(H, g, newTip.hash, ancestor.height, newTip.height, old(main), main, fork);
      return true, newTip.height;
    }

    method ProcessReorganize(ancestor: Header, prevTip: Header, newTip: Header, ghost g: Hash)
      returns (ok: bool, ghost mid: MainTxs, ghost hi: nat)
      requires Linked(headers, g)
      requires forall h :: h in {ancestor, prevTip, newTip} ==> h.hash in headers && headers[h.hash] == h
      requires IsAncestor(headers, g, ancestor.hash, prevTip.hash)
      requires IsAncestor(headers, g, ancestor.hash, newTip.hash) && ancestor.height < newTip.height
      modifies this
      ensures headers == old(headers)
      ensures tip == if ok then Some(newTip.hash) else old(tip)
      ensures Disconnected(headers, g, prevTip.hash, ancestor.height, old(main), old(fork), mid, fork)
      ensures ancestor.height < hi <= newTip.height && (ok <==> hi == newTip.height)
      ensures Reconnected(headers, g, newTip.hash, ancestor.height, hi, mid, main, fork)
      ensures !ok ==> At(headers, g, newTip.hash, hi) !in fork
      ensures ok <==> forall k :: ancestor.height < k < newTip.height ==> At(headers, g, newTip.hash, k) in fork
    {
      hide Linked, At, Disconnected, Reconnected, IsAncestor;
      Disconnect(ancestor, prevTip, g);
      mid := main;
      ok, hi := Reconnect(ancestor, newTip, g);
      if ok {
        PutHeader(newTip, true);
        assert headers == old(headers);
      }
    }
  }

  lemma {:induction false} DisconnectStart(H: Headers, g: Hash, a: Hash, end: Hash, main: MainTxs, fork: ForkTxs)
    requires Linked(H, g) && end in H && IsAncestor(H, g, a, end)
    ensures H[a].height <= H[end].height && At(H, g, end, H[end].height) == end
    ensures Disconnected(H, g, end, H[end].height, main, fork, main, fork)
  {
  }

  lemma {:induction false} ReconnectStart(H: Headers, g: Hash, a: Hash, end: Hash, main: MainTxs, fork: ForkTxs)
    requires Linked(H, g) && end in H && IsAncestor(H, g, a, end) && H[a].height < H[end].height
    ensures At(H, g, end, H[end].height) == end && At(H, g, end, H[a].height) == a
    ensures Indexed(H, g, end, H[end].height, map[])
    ensures Reconnected(H, g, end, H[a].height, H[a].height + 1, main, main, fork)
  {
    hide Linked;
  }

  lemma {:induction false} IndexLookup(H: Headers, g: Hash, end: Hash, low: nat, k: nat, subChain: map<Hash, Header>)
    requires Linked(H, g) && end in H && low <= k < H[end].height && Indexed(H, g, end, low, subChain)
    ensures At(H, g, end, k) in subChain && subChain[At(H, g, end, k)] == H[At(H, g, end, k + 1)]
    ensures H[At(H, g, end, k + 1)].hash == At(H, g, end, k + 1)
  {
    OnlyGenesisAtZero(H, g, At(H, g, end, k + 1));
    assert ChildOf(H, At(H, g, end, k + 1));
    hide At;
  }

  lemma {:induction false} AllReconnected(H: Headers, g: Hash, end: Hash, low: nat, hi: nat,
                                          main0: MainTxs, main: MainTxs, fork: ForkTxs)
    requires Linked(H, g) && end in H && hi <= H[end].height
    requires Reconnected(H, g, end, low, hi, main0, main, fork)
    ensures forall k :: low < k < hi ==> At(H, g, end, k) in fork
  {
    hide Linked, At;
  }

  /** A header on the path that is not the ancestor yet is strictly above it. */
  lemma {:induction false} AboveAncestor(H: Headers, g: Hash, end: Hash, a: Hash, x: Hash)
    requires Linked(H, g) && end in H && IsAncestor(H, g, a, end)
    requires x in H && H[x].height <= H[end].height && x == At(H, g, end, H[x].height)
    requires H[a].height <= H[x].height && x != a
    ensures H[a].height < H[x].height && H[x].previous in H && H[H[x].previous].hash == H[x].previous
    ensures H[H[x].previous].height == H[x].height - 1
  {
    hide Linked, At;
    AtZero(H, g, end);
    OnlyGenesisAtZero(H, g, x);
    StoredHash(H, g, H[x].previous);
  }
}
