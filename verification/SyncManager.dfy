/** sync/manager.go: which peer is synced from, and which transactions and blocks are in flight at
    which peer. The chain, the peers' heights and the filter's error rate come from outside and are
    arguments of each step. */
module SyncManager {
  import opened MerkleTree
  import opened Word32
  import opened Wrappers

  datatype Peer = Peer(id: nat)

  datatype InvType = TxInv | BlockInv | FilteredBlockInv | OtherInv

  datatype Inv = Inv(kind: InvType, hash: Hash)

  /** What the manager knows about a connected peer. */
  datatype PeerState = PeerState(
    syncCandidate: bool, requestQueue: seq<Inv>, requestedTxns: set<Hash>, requestedBlocks: set<Hash>,
    receivedBlocks: uint32, badBlocks: uint32)

  type PeerStates = map<Peer, PeerState>

  /** The calls the manager makes on peers and on the chain. */
  datatype Call =
    | GetBlocks(peer: Peer, after: Option<Hash>)
    | GetData(peer: Peer, invs: seq<Inv>)
    | LoadFilter(peer: Peer)
    | Disconnect(peer: Peer)
    | Commit(peer: Peer, block: Hash)
    | Announce(tx: Hash)
    | ClearStall(peer: Peer)
    | UpdateHeight(peer: Peer, height: uint32)

  /** How often peer p was asked for block h. */
  function Asked(log: seq<Call>, p: Peer, h: Hash): nat {
    if log == [] then 0
    else
      var last := log[|log| - 1];
      Asked(log[..|log| - 1], p, h) +
      if last.GetData? && last.peer == p then multiset(last.invs)[Inv(FilteredBlockInv, h)] else 0
  }

  /** How often block h, sent by peer p, was handed to the chain. */
  function Commits(log: seq<Call>, p: Peer, h: Hash): nat {
    if log == [] then 0
    else Commits(log[..|log| - 1], p, h) + if log[|log| - 1] == Commit(p, h) then 1 else 0
  }

  lemma {:induction false} LogOne(log: seq<Call>, call: Call, p: Peer, h: Hash)
    ensures Asked(log + [call], p, h) == Asked(log, p, h) +
      if call.GetData? && call.peer == p then multiset(call.invs)[Inv(FilteredBlockInv, h)] else 0
    ensures Commits(log + [call], p, h) == Commits(log, p, h) + if call == Commit(p, h) then 1 else 0
  {
    assert (log + [call])[..|log|] == log;
  }

  // ----- the invariant -----

  /** Block h is in flight at p. */
  predicate Awaits(states: PeerStates, p: Peer, h: Hash) {
    p in states && h in states[p].requestedBlocks
  }

  predicate AwaitsTx(states: PeerStates, p: Peer, h: Hash) {
    p in states && h in states[p].requestedTxns
  }

  /** Every hash in the global map of blocks is in flight at some connected peer. */
  ghost predicate BlocksCovered(blocks: set<Hash>, states: PeerStates) {
    forall h :: h in blocks ==> exists p :: Awaits(states, p, h)
  }

  ghost predicate TxnsCovered(txns: set<Hash>, states: PeerStates) {
    forall h :: h in txns ==> exists p :: AwaitsTx(states, p, h)
  }

  /** Blocks handed to the chain, and the one still in flight, were asked for at that peer. */
  ghost predicate Consumed(log: seq<Call>, states: PeerStates) {
    forall p: Peer, h: Hash :: Commits(log, p, h) + (if Awaits(states, p, h) then 1 else 0) <= Asked(log, p, h)
  }

  /** A call that neither asks for blocks nor hands one over, with no block newly in flight. */
  lemma {:induction false} ConsumedKeeps(log: seq<Call>, call: Call, states: PeerStates, states': PeerStates)
    requires Consumed(log, states) && !call.GetData? && !call.Commit?
    requires forall p: Peer, h: Hash :: Awaits(states', p, h) ==> Awaits(states, p, h)
    ensures Consumed(log + [call], states')
  {
    forall p: Peer, h: Hash
      ensures Commits(log + [call], p, h) + (if Awaits(states', p, h) then 1 else 0) <= Asked(log + [call], p, h)
    {
      LogOne(log, call, p, h);
      assert Commits(log, p, h) + (if Awaits(states, p, h) then 1 else 0) <= Asked(log, p, h);
    }
  }

  lemma {:induction false} ConsumedFewer(log: seq<Call>, states: PeerStates, states': PeerStates)
    requires Consumed(log, states)
    requires forall p: Peer, h: Hash :: Awaits(states', p, h) ==> Awaits(states, p, h)
    ensures Consumed(log, states')
  {
    forall p: Peer, h: Hash
      ensures Commits(log, p, h) + (if Awaits(states', p, h) then 1 else 0) <= Asked(log, p, h)
    {
      assert Commits(log, p, h) + (if Awaits(states, p, h) then 1 else 0) <= Asked(log, p, h);
    }
  }

  /** Handing over a block that was in flight and no longer is. */
  lemma {:induction false} ConsumedByCommit(log: seq<Call>, states: PeerStates, states': PeerStates, peer: Peer, block: Hash)
    requires Consumed(log, states) && Awaits(states, peer, block) && !Awaits(states', peer, block)
    requires forall p: Peer, h: Hash :: Awaits(states', p, h) ==> Awaits(states, p, h)
    ensures Consumed(log + [Commit(peer, block)], states')
  {
    var log' := log + [Commit(peer, block)];
    forall p: Peer, h: Hash
      ensures Commits(log', p, h) + (if Awaits(states', p, h) then 1 else 0) <= Asked(log', p, h)
    {
      LogOne(log, Commit(peer, block), p, h);
      assert Commits(log, p, h) + (if Awaits(states, p, h) then 1 else 0) <= Asked(log, p, h);
    }
  }

  /** Asking a peer for the blocks that become in flight there. */
  lemma {:induction false} ConsumedByGetData(log: seq<Call>, states: PeerStates, states': PeerStates, peer: Peer, invs: seq<Inv>)
    requires Consumed(log, states)
    requires forall p: Peer, h: Hash :: Awaits(states', p, h) ==>
      Awaits(states, p, h) || (p == peer && Inv(FilteredBlockInv, h) in invs)
    ensures Consumed(log + [GetData(peer, invs)], states')
  {
    var log' := log + [GetData(peer, invs)];
    forall p: Peer, h: Hash
      ensures Commits(log', p, h) + (if Awaits(states', p, h) then 1 else 0) <= Asked(log', p, h)
    {
      LogOne(log, GetData(peer, invs), p, h);
      assert Commits(log, p, h) + (if Awaits(states, p, h) then 1 else 0) <= Asked(log, p, h);
      if Awaits(states', p, h) && !Awaits(states, p, h) {
        assert Inv(FilteredBlockInv, h) in multiset(invs);
      }
    }
  }

  /** The manager's invariant: both global maps are below their limit and covered by connected peers,
      the sync peer is connected, and blocks are handed over only by consuming a request. */
  ghost predicate Sound(limit: nat, txns: set<Hash>, blocks: set<Hash>, sync: Option<Peer>, states: PeerStates, log: seq<Call>) {
    && |txns| < limit && |blocks| < limit
    && (sync.Some? ==> sync.value in states)
    && TxnsCovered(txns, states) && BlocksCovered(blocks, states)
    && Consumed(log, states)
  }

  /** Only candidate flags, queues and scores differ. */
  ghost predicate SameFlights(states: PeerStates, states': PeerStates) {
    && states.Keys == states'.Keys
    && forall p :: p in states ==>
      states'[p].requestedTxns == states[p].requestedTxns && states'[p].requestedBlocks == states[p].requestedBlocks
  }

  /** Candidates that are behind the chain stop being candidates; nothing else changes. */
  ghost predicate OnlyDemoted(states: PeerStates, states': PeerStates, w: World) {
    && states.Keys == states'.Keys
    && forall p :: p in states ==>
      states'[p] == states[p] || (w.height(p) < w.best && states'[p] == states[p].(syncCandidate := false))
  }

  lemma {:induction false} BlocksStay(blocks: set<Hash>, blocks': set<Hash>, states: PeerStates, states': PeerStates)
    requires BlocksCovered(blocks, states) && blocks' <= blocks
    requires forall p: Peer, h :: h in blocks' && Awaits(states, p, h) ==> Awaits(states', p, h)
    ensures BlocksCovered(blocks', states')
  {
    forall h | h in blocks' ensures exists p :: Awaits(states', p, h) {
      var p :| Awaits(states, p, h);
      assert Awaits(states', p, h);
    }
  }

  lemma {:induction false} TxnsStay(txns: set<Hash>, txns': set<Hash>, states: PeerStates, states': PeerStates)
    requires TxnsCovered(txns, states) && txns' <= txns
    requires forall p: Peer, h :: h in txns' && AwaitsTx(states, p, h) ==> AwaitsTx(states', p, h)
    ensures TxnsCovered(txns', states')
  {
    forall h | h in txns' ensures exists p :: AwaitsTx(states', p, h) {
      var p :| AwaitsTx(states, p, h);
      assert AwaitsTx(states', p, h);
    }
  }

  lemma {:induction false} SmallerIsBelow(a: set<Hash>, b: set<Hash>)
    requires a <= b
    ensures |a| <= |b|
  {
    if a != b {
      assert b == a + (b - a);
      assert |b| == |a| + |b - a|;
    }
  }

  lemma {:induction false} SoundSameFlights(limit: nat, txns: set<Hash>, blocks: set<Hash>, sync: Option<Peer>,
      states: PeerStates, states': PeerStates, log: seq<Call>)
    requires Sound(limit, txns, blocks, sync, states, log) && SameFlights(states, states')
    ensures Sound(limit, txns, blocks, sync, states', log)
  {
    ConsumedFewer(log, states, states');
    BlocksStay(blocks, blocks, states, states');
    TxnsStay(txns, txns, states, states');
    hide Consumed;
  }

  lemma {:induction false} SoundCall(limit: nat, txns: set<Hash>, blocks: set<Hash>, sync: Option<Peer>,
      states: PeerStates, log: seq<Call>, call: Call)
    requires Sound(limit, txns, blocks, sync, states, log) && !call.GetData? && !call.Commit?
    ensures Sound(limit, txns, blocks, sync, states, log + [call])
  {
    ConsumedKeeps(log, call, states, states);
    hide Consumed, BlocksCovered, TxnsCovered;
  }

  lemma {:induction false} SoundSync(limit: nat, txns: set<Hash>, blocks: set<Hash>, sync: Option<Peer>,
      states: PeerStates, log: seq<Call>, peer: Peer)
    requires Sound(limit, txns, blocks, sync, states, log) && peer in states
    ensures Sound(limit, txns, {}, Some(peer), states, log + [GetBlocks(peer, None)])
  {
    SoundCall(limit, txns, blocks, sync, states, log, GetBlocks(peer, None));
    hide Consumed, TxnsCovered;
  }

  lemma {:induction false} SoundNew(limit: nat, txns: set<Hash>, blocks: set<Hash>, sync: Option<Peer>,
      states: PeerStates, log: seq<Call>, peer: Peer, s: PeerState)
    requires Sound(limit, txns, blocks, sync, states, log) && peer !in states
    requires s.requestedTxns == {} && s.requestedBlocks == {}
    ensures Sound(limit, txns, blocks, sync, states[peer := s], log)
  {
    var states' := states[peer := s];
    ConsumedFewer(log, states, states');
    BlocksStay(blocks, blocks, states, states');
    TxnsStay(txns, txns, states, states');
    hide Consumed;
  }

  lemma {:induction false} SoundDone(limit: nat, txns: set<Hash>, blocks: set<Hash>, sync: Option<Peer>,
      states: PeerStates, log: seq<Call>, peer: Peer)
    requires Sound(limit, txns, blocks, sync, states, log) && peer in states
    ensures Sound(limit, txns - states[peer].requestedTxns, blocks - states[peer].requestedBlocks,
                  if sync == Some(peer) then None else sync, states - {peer}, log)
  {
    var states' := states - {peer};
    var txns', blocks' := txns - states[peer].requestedTxns, blocks - states[peer].requestedBlocks;
    ConsumedFewer(log, states, states');
    SmallerIsBelow(txns', txns);
    SmallerIsBelow(blocks', blocks);
    BlocksStay(blocks, blocks', states, states');
    TxnsStay(txns, txns', states, states');
    hide Consumed;
  }

  lemma {:induction false} SoundTx(limit: nat, txns: set<Hash>, blocks: set<Hash>, sync: Option<Peer>,
      states: PeerStates, log: seq<Call>, peer: Peer, tx: Hash)
    requires Sound(limit, txns, blocks, sync, states, log) && peer in states
    ensures
      var s := states[peer].(requestedTxns := states[peer].requestedTxns - {tx});
      Sound(limit, txns - {tx}, blocks, sync, states[peer := s], log)
  {
    var states' := states[peer := states[peer].(requestedTxns := states[peer].requestedTxns - {tx})];
    ConsumedFewer(log, states, states');
    SmallerIsBelow(txns - {tx}, txns);
    BlocksStay(blocks, blocks, states, states');
    TxnsStay(txns, txns - {tx}, states, states');
    hide Consumed;
  }

  /** The block leaves flight and goes to the chain; the peer's other fields may change. */
  lemma {:induction false} SoundCommit(limit: nat, txns: set<Hash>, blocks: set<Hash>, sync: Option<Peer>,
      states: PeerStates, log: seq<Call>, peer: Peer, s: PeerState, block: Hash)
    requires Sound(limit, txns, blocks, sync, states, log) && Awaits(states, peer, block)
    requires s.requestedTxns == states[peer].requestedTxns && s.requestedBlocks == states[peer].requestedBlocks - {block}
    ensures Sound(limit, txns, blocks - {block}, sync, states[peer := s], log + [Commit(peer, block)])
  {
    var states' := states[peer := s];
    ConsumedByCommit(log, states, states', peer, block);
    SmallerIsBelow(blocks - {block}, blocks);
    BlocksStay(blocks, blocks - {block}, states, states');
    TxnsStay(txns, txns, states, states');
    hide Consumed;
  }

  /** A peer's block requests are forgotten together with the global map. */
  lemma {:induction false} SoundClear(limit: nat, txns: set<Hash>, blocks: set<Hash>, sync: Option<Peer>,
      states: PeerStates, log: seq<Call>, peer: Peer, s: PeerState)
    requires Sound(limit, txns, blocks, sync, states, log) && peer in states
    requires s.requestedTxns == states[peer].requestedTxns && s.requestedBlocks == {}
    ensures Sound(limit, txns, {}, sync, states[peer := s], log)
  {
    var states' := states[peer := s];
    ConsumedFewer(log, states, states');
    TxnsStay(txns, txns, states, states');
    hide Consumed;
  }

  /** New requests, global and at the peer, go out in one getdata. */
  lemma {:induction false} SoundRequest(limit: nat, txns: set<Hash>, blocks: set<Hash>, sync: Option<Peer>,
      states: PeerStates, log: seq<Call>, peer: Peer, s: PeerState, txns': set<Hash>, blocks': set<Hash>, invs: seq<Inv>)
    requires Sound(limit, txns, blocks, sync, states, log) && peer in states
    requires |txns'| < limit && |blocks'| < limit
    requires states[peer].requestedTxns <= s.requestedTxns && states[peer].requestedBlocks <= s.requestedBlocks
    requires txns' <= txns + s.requestedTxns && blocks' <= blocks + s.requestedBlocks
    requires forall h :: h in s.requestedBlocks ==>
      h in states[peer].requestedBlocks || Inv(FilteredBlockInv, h) in invs
    ensures Sound(limit, txns', blocks', sync, states[peer := s], log + [GetData(peer, invs)])
  {
    var states' := states[peer := s];
    ConsumedByGetData(log, states, states', peer, invs);
    BlocksStay(blocks, blocks' - s.requestedBlocks, states, states');
    TxnsStay(txns, txns' - s.requestedTxns, states, states');
    assert forall h :: h in s.requestedBlocks ==> Awaits(states', peer, h);
    assert forall h :: h in s.requestedTxns ==> AwaitsTx(states', peer, h);
    hide Consumed;
  }

  // ----- the handlers -----

  const MIN_IN_FLIGHT_BLOCKS := 10

  /** The height of the best chain, and the heights the peers claim, at one moment. */
  datatype World = World(best: uint32, height: Peer -> uint32)

  /** The chain's answer to a block. `newBlock` is its first result: the block became the tip. */
  datatype CommitResult = Orphan | Failed | Stored(newBlock: bool, reorg: bool, newHeight: uint32)

  ghost predicate SameCommits(log: seq<Call>, log': seq<Call>) {
    forall p: Peer, h: Hash :: Commits(log', p, h) == Commits(log, p, h)
  }

  lemma {:induction false} NoCommit(log: seq<Call>, call: Call)
    requires !call.Commit?
    ensures SameCommits(log, log + [call])
  {
    forall p: Peer, h: Hash ensures Commits(log + [call], p, h) == Commits(log, p, h) {
      LogOne(log, call, p, h);
    }
  }

  lemma {:induction false} OneCommit(log: seq<Call>, peer: Peer, block: Hash, log': seq<Call>)
    requires SameCommits(log + [Commit(peer, block)], log')
    ensures forall p: Peer, h: Hash :: Commits(log', p, h) == Commits(log, p, h) + if p == peer && h == block then 1 else 0
  {
    forall p: Peer, h: Hash
      ensures Commits(log', p, h) == Commits(log, p, h) + if p == peer && h == block then 1 else 0
    {
      LogOne(log, Commit(peer, block), p, h);
    }
  }

  /** The entry has been asked for: before, or in this getdata. */
  predicate Requested(iv: Inv, txns: set<Hash>, blocks: set<Hash>, invs: seq<Inv>) {
    match iv.kind
    case BlockInv => iv.hash in blocks || Inv(FilteredBlockInv, iv.hash) in invs
    case TxInv => iv.hash in txns || iv in invs
    case _ => true
  }

  /** The front of the queue has been asked for, in a getdata that is full if anything is left. */
  ghost predicate Served(queue: seq<Inv>, popped: nat, invs: seq<Inv>, left: seq<Inv>,
      txns: set<Hash>, blocks: set<Hash>, limit: nat) {
    && popped <= |queue| && left == queue[popped..] && |invs| <= limit && |invs| <= popped
    && (left != [] ==> |invs| == limit)
    && TakenFrom(invs, queue, popped)
    && (forall i :: 0 <= i < popped ==> Requested(queue[i], txns, blocks, invs))
  }

  /** What the getdata lists, and nothing else, became in flight at the peer. */
  ghost predicate InFlightGrew(s0: PeerState, s: PeerState, invs: seq<Inv>) {
    && s == s0.(requestQueue := s.requestQueue, requestedTxns := s.requestedTxns, requestedBlocks := s.requestedBlocks)
    && (forall h :: h in s.requestedBlocks <==> h in s0.requestedBlocks || Inv(FilteredBlockInv, h) in invs)
    && (forall h :: h in s.requestedTxns <==> h in s0.requestedTxns || Inv(TxInv, h) in invs)
  }

  /** While the maps have room nothing is evicted, so what is pending stays pending and what is asked
      for was neither pending nor asked for in the same message. */
  ghost predicate MapsGrew(txns0: set<Hash>, blocks0: set<Hash>, txns: set<Hash>, blocks: set<Hash>, msg: seq<Inv>, limit: nat) {
    && (forall h :: h in blocks ==> h in blocks0 || Inv(FilteredBlockInv, h) in msg)
    && (forall h :: h in txns ==> h in txns0 || Inv(TxInv, h) in msg)
    && (|txns0| + |msg| < limit && |blocks0| + |msg| < limit ==>
          && txns0 <= txns && blocks0 <= blocks
          && (forall iv :: iv in msg ==>
                (iv.kind.FilteredBlockInv? && iv.hash in blocks - blocks0) || (iv.kind.TxInv? && iv.hash in txns - txns0))
          && (forall i, j :: 0 <= i < j < |msg| ==> msg[i] != msg[j]))
  }

  /** The front of the queue was served by at most one getdata; nothing else changed. */
  ghost predicate FrontServed(a: Snapshot, b: Snapshot, peer: Peer, queue: seq<Inv>, limit: nat)
    requires peer in a.states
  {
    && peer in b.states && b.states == a.states[peer := b.states[peer]] && b.pool == a.pool && b.sync == a.sync
    && exists popped: nat, invs: seq<Inv> ::
      && Served(queue, popped, invs, b.states[peer].requestQueue, a.txns, a.blocks, limit)
      && InFlightGrew(a.states[peer], b.states[peer], invs) && MapsGrew(a.txns, a.blocks, b.txns, b.blocks, invs, limit)
      && b.log == a.log + if invs == [] then [] else [GetData(peer, invs)]
  }

  /** A filter is sent again to a peer far ahead when the error rate is high; the sum wraps. */
  function Reloads(peer: Peer, w: World, newHeight: uint32, fpRateHigh: bool): seq<Call> {
    if Add(newHeight, 500) < w.height(peer) && fpRateHigh then [LoadFilter(peer)] else []
  }

  /** Everything the manager holds, and the calls it has made. */
  datatype Snapshot = Snapshot(
    txns: set<Hash>, blocks: set<Hash>, pool: set<Hash>, sync: Option<Peer>, states: PeerStates, log: seq<Call>)
  {
    /** No sync peer, or the chain has reached the height it claims. */
    predicate Current(w: World) {
      sync == None || w.best >= w.height(sync.value)
    }
  }

  /** From a to b a sync peer was looked for: some candidate that is ahead is synced from; or none is,
      because one was level or no candidate is left. With a sync peer nothing happens. */
  ghost predicate Searched(a: Snapshot, b: Snapshot, w: World) {
    if a.sync.Some? then b == a
    else
      && OnlyDemoted(a.states, b.states, w)
      && match b.sync
         case Some(p) =>
           && p in b.states && b.states[p].syncCandidate && w.height(p) > w.best
           && b == a.(blocks := {}, sync := b.sync, states := b.states, log := a.log + [GetBlocks(p, None)])
         case None =>
           && b == a.(states := b.states)
           && ((exists p :: p in b.states && b.states[p].syncCandidate && w.height(p) == w.best)
               || (forall p :: p in b.states ==> !b.states[p].syncCandidate))
  }

  /** The search cannot miss: with a candidate ahead and none level, it ends in a sync, and a candidate
      that has no rival is the one. */
  lemma {:induction false} SearchFinds(a: Snapshot, b: Snapshot, w: World, peer: Peer)
    requires Searched(a, b, w) && a.sync == None
    requires peer in a.states && a.states[peer].syncCandidate && w.height(peer) > w.best
    requires forall p :: p in a.states && a.states[p].syncCandidate ==> w.height(p) != w.best
    ensures b.sync.Some? && w.height(b.sync.value) > w.best && b.blocks == {}
    ensures b.log == a.log + [GetBlocks(b.sync.value, None)]
    ensures (forall p :: p in a.states && a.states[p].syncCandidate ==> p == peer) ==> b.sync == Some(peer)
    ensures forall p :: p in a.states && w.height(p) >= w.best ==> b.states[p] == a.states[p]
  {
    assert peer in b.states && b.states[peer].syncCandidate;
  }

  /** The block leaves both request maps and goes to the chain. */
  function Taking(a: Snapshot, peer: Peer, block: Hash): Snapshot
    requires peer in a.states
  {
    var s := a.states[peer];
    a.(blocks := a.blocks - {block},
       states := a.states[peer := s.(receivedBlocks := Add(s.receivedBlocks, 1), requestedBlocks := s.requestedBlocks - {block})],
       log := a.log + [Commit(peer, block)])
  }

  function Forgotten(states: PeerStates, peer: Peer): PeerStates
    requires peer in states
  {
    states[peer := states[peer].(requestQueue := [], requestedBlocks := {})]
  }

  /** What follows once the chain has stored or refused the block. */
  ghost predicate Leads(a: Snapshot, b: Snapshot, peer: Peer, w: World, result: CommitResult,
      high: bool, tooHigh: bool, limit: nat)
    requires peer in a.states
  {
    match result
    case Orphan =>
      if a.Current(w) then
        b == a.(blocks := {}, sync := Some(peer), states := Forgotten(a.states, peer), log := a.log + [GetBlocks(peer, None)])
      else
        var s := a.states[peer].(badBlocks := Add(a.states[peer].badBlocks, 1));
        b == a.(states := a.states[peer := s],
                log := a.log + if 1000 * s.badBlocks > s.receivedBlocks then [Disconnect(peer)] else [])
    case Failed => b == a
    case Stored(newBlock, reorg, newHeight) =>
      if !newBlock then b == a
      else if tooHigh then b == a.(log := a.log + [Disconnect(peer)])
      else LeadsNew(a, b, peer, w, reorg, newHeight, high, limit)
  }

  /** ... and the block is new: the pool is cleared, and if the chain is not current and few blocks are
      in flight at the peer, the front of its queue is asked for. */
  ghost predicate LeadsNew(a: Snapshot, b: Snapshot, peer: Peer, w: World, reorg: bool, newHeight: uint32, high: bool, limit: nat)
    requires peer in a.states
  {
    var log := a.log + Reloads(peer, w, newHeight, high);
    if a.Current(w) then
      b == a.(blocks := if reorg then {} else a.blocks, states := if reorg then Forgotten(a.states, peer) else a.states,
              pool := {}, log := log + [ClearStall(peer), UpdateHeight(peer, newHeight)])
    else if |a.states[peer].requestedBlocks| >= MIN_IN_FLIGHT_BLOCKS then
      b == a.(pool := {}, log := log)
    else
      FrontServed(a.(pool := {}, log := log), b, peer, a.states[peer].requestQueue, limit)
  }

  /** Everything that follows from a block in flight, by what the chain answers. The block leaves flight and
      goes to the chain first. An orphan, when no sync peer is ahead of the chain, makes its sender the sync
      peer with nothing in flight; during a sync it counts against the sender. A block that is refused or not
      new changes nothing more, and one with too many false positives ends the connection. A new block clears
      the pool; when no sync peer is ahead the stall timer is cleared and the height recorded, and otherwise
      more blocks are asked for exactly if fewer than ten are in flight. */
  lemma {:induction false} BlockOutcome(a: Snapshot, b: Snapshot, peer: Peer, block: Hash, w: World, result: CommitResult,
      high: bool, tooHigh: bool, limit: nat)
    requires peer in a.states && Leads(Taking(a, peer, block), b, peer, w, result, high, tooHigh, limit)
    ensures peer in b.states && b.states.Keys == a.states.Keys && (forall p :: p in a.states && p != peer ==> b.states[p] == a.states[p])
    ensures
      var current := a.sync == None || w.best >= w.height(a.sync.value);
      var s, s' := a.states[peer], b.states[peer];
      var got, bad := (s.receivedBlocks + 1) % WORD, (s.badBlocks + 1) % WORD;
      var log := a.log + [Commit(peer, block)];
      var plain := PeerState(s.syncCandidate, s.requestQueue, s.requestedTxns, s.requestedBlocks - {block}, got, s.badBlocks);
      match result
      case Orphan =>
        b.pool == a.pool && b.txns == a.txns &&
        if current then
          && b.sync == Some(peer) && b.blocks == {} && s'.requestedBlocks == {} && s'.requestQueue == []
          && s'.receivedBlocks == got && s'.badBlocks == s.badBlocks && b.log == log + [GetBlocks(peer, None)]
        else
          && b.sync == a.sync && b.blocks == a.blocks - {block} && s' == plain.(badBlocks := bad)
          && b.log == log + if 1000 * bad > got then [Disconnect(peer)] else []
      case Failed => s' == plain && b == a.(blocks := a.blocks - {block}, states := b.states, log := log)
      case Stored(newBlock, reorg, newHeight) =>
        b.sync == a.sync &&
        if !newBlock || tooHigh then
          && s' == plain && b.pool == a.pool && b.txns == a.txns && b.blocks == a.blocks - {block}
          && b.log == log + if newBlock then [Disconnect(peer)] else []
        else
          var more := log + if (newHeight + 500) % WORD < w.height(peer) && high then [LoadFilter(peer)] else [];
          b.pool == {} &&
          if current then
            && b.log == more + [ClearStall(peer), UpdateHeight(peer, newHeight)] && b.txns == a.txns
            && b.blocks == (if reorg then {} else a.blocks - {block})
            && s' == if reorg then plain.(requestQueue := [], requestedBlocks := {}) else plain
          else if |s.requestedBlocks - {block}| >= 10 then
            s' == plain && b.txns == a.txns && b.blocks == a.blocks - {block} && b.log == more
          else FrontServed(a.(blocks := a.blocks - {block}, pool := {}, states := a.states[peer := plain], log := more),
                           b, peer, s.requestQueue, limit)
  {
    var t := Taking(a, peer, block);
    if result.Stored? && result.newBlock && !tooHigh && !a.Current(w) && |t.states[peer].requestedBlocks| < 10 {
      FrontKeeps(t.(pool := {}, log := t.log + Reloads(peer, w, result.newHeight, high)), b, peer,
                 t.states[peer].requestQueue, limit);
    }
    hide FrontServed;
  }

  lemma {:induction false} FrontKeeps(a: Snapshot, b: Snapshot, peer: Peer, queue: seq<Inv>, limit: nat)
    requires peer in a.states && FrontServed(a, b, peer, queue, limit)
    ensures peer in b.states && b.states == a.states[peer := b.states[peer]] && b.pool == a.pool && b.sync == a.sync
  {
  }

  /** What serving the front of the queue means to the peer: a queue that fits into one message is emptied;
      every block of it that was not pending is asked for, in filtered form, and is then in flight; what is
      asked for comes from the queue. */
  lemma {:induction false} FrontIsAskedFor(a: Snapshot, b: Snapshot, peer: Peer, queue: seq<Inv>, limit: nat)
    requires peer in a.states && FrontServed(a, b, peer, queue, limit) && |queue| < limit
    ensures peer in b.states && b.states[peer].requestQueue == []
    ensures forall h :: Inv(BlockInv, h) in queue && h !in a.blocks ==>
      && h in b.states[peer].requestedBlocks
      && |b.log| == |a.log| + 1 && b.log[|a.log|].GetData? && b.log[|a.log|].peer == peer
      && Inv(FilteredBlockInv, h) in b.log[|a.log|].invs
    ensures forall h :: Inv(TxInv, h) in queue && h !in a.txns ==>
      && h in b.states[peer].requestedTxns
      && |b.log| == |a.log| + 1 && b.log[|a.log|].GetData? && b.log[|a.log|].peer == peer
      && Inv(TxInv, h) in b.log[|a.log|].invs
    ensures forall h :: h in b.states[peer].requestedBlocks ==>
      h in a.states[peer].requestedBlocks || Inv(BlockInv, h) in queue || Inv(FilteredBlockInv, h) in queue
  {
    var popped: nat, invs: seq<Inv> :|
      && Served(queue, popped, invs, b.states[peer].requestQueue, a.txns, a.blocks, limit)
      && InFlightGrew(a.states[peer], b.states[peer], invs) && MapsGrew(a.txns, a.blocks, b.txns, b.blocks, invs, limit)
      && b.log == a.log + if invs == [] then [] else [GetData(peer, invs)];
  }

  /** While the maps have room for the whole queue nothing pending is forgotten, everything asked for is
      pending, and nothing is asked for that was pending. */
  lemma {:induction false} RoomKeepsPending(a: Snapshot, b: Snapshot, peer: Peer, queue: seq<Inv>, limit: nat)
    requires peer in a.states && FrontServed(a, b, peer, queue, limit)
    requires |a.txns| + |queue| < limit && |a.blocks| + |queue| < limit
    ensures a.txns <= b.txns && a.blocks <= b.blocks
    ensures forall h :: Inv(BlockInv, h) in queue ==> h in b.blocks
    ensures forall h :: Inv(TxInv, h) in queue ==> h in b.txns
    ensures |b.log| > |a.log| ==>
      b.log[|a.log|].GetData? && forall iv :: iv in b.log[|a.log|].invs ==>
        (iv.kind.TxInv? && iv.hash !in a.txns) || (iv.kind.FilteredBlockInv? && iv.hash !in a.blocks)
  {
    var popped: nat, invs: seq<Inv> :|
      && Served(queue, popped, invs, b.states[peer].requestQueue, a.txns, a.blocks, limit)
      && InFlightGrew(a.states[peer], b.states[peer], invs) && MapsGrew(a.txns, a.blocks, b.txns, b.blocks, invs, limit)
      && b.log == a.log + if invs == [] then [] else [GetData(peer, invs)];
    assert forall i :: 0 <= i < |queue| ==> Requested(queue[i], a.txns, a.blocks, invs);
  }

  /** A queue that does not fit keeps its end, in order, and the message sent is full. */
  lemma {:induction false} LongQueueStays(a: Snapshot, b: Snapshot, peer: Peer, queue: seq<Inv>, limit: nat) returns (popped: nat)
    requires peer in a.states && FrontServed(a, b, peer, queue, limit) && limit > 0
    ensures popped <= |queue| && peer in b.states && b.states[peer].requestQueue == queue[popped..]
    ensures popped < |queue| ==>
      && |b.log| == |a.log| + 1 && b.log[|a.log|].GetData? && b.log[|a.log|].peer == peer
      && |b.log[|a.log|].invs| == limit
  {
    var popped', invs: seq<Inv> :|
      && Served(queue, popped', invs, b.states[peer].requestQueue, a.txns, a.blocks, limit)
      && InFlightGrew(a.states[peer], b.states[peer], invs) && MapsGrew(a.txns, a.blocks, b.txns, b.blocks, invs, limit)
      && b.log == a.log + if invs == [] then [] else [GetData(peer, invs)];
    popped := popped';
  }

  /** The advertised entries that are neither in the chain nor in the pool. */
  function Unknown(invs: seq<Inv>, have: set<Hash>, pool: set<Hash>): seq<Inv> {
    if invs == [] then []
    else
      var iv := invs[|invs| - 1];
      Unknown(invs[..|invs| - 1], have, pool) +
      if (iv.kind.BlockInv? && iv.hash !in have) || (iv.kind.TxInv? && iv.hash !in pool) then [iv] else []
  }

  /** They keep their order and number: taken entry by entry, a block is unknown if the chain does not have
      it, a transaction if the pool does not, and nothing else is. */
  lemma {:induction false} UnknownIs(a: seq<Inv>, b: seq<Inv>, have: set<Hash>, pool: set<Hash>)
    ensures Unknown(a + b, have, pool) == Unknown(a, have, pool) + Unknown(b, have, pool)
    ensures forall h :: Unknown([Inv(BlockInv, h)], have, pool) == if h in have then [] else [Inv(BlockInv, h)]
    ensures forall h :: Unknown([Inv(TxInv, h)], have, pool) == if h in pool then [] else [Inv(TxInv, h)]
    ensures forall iv: Inv :: !iv.kind.BlockInv? && !iv.kind.TxInv? ==> Unknown([iv], have, pool) == []
  {
    assert forall iv: Inv :: [iv][..0] == [];
    if b == [] {
      assert a + b == a;
    } else {
      var front := b[..|b| - 1];
      UnknownIs(a, front, have, pool);
      assert (a + b)[..|a + b| - 1] == a + front;
    }
  }

  /** The last block that is advertised. */
  function LastOf(invs: seq<Inv>): Option<Hash> {
    if invs == [] then None
    else if invs[|invs| - 1].kind.BlockInv? then Some(invs[|invs| - 1].hash)
    else LastOf(invs[..|invs| - 1])
  }

  lemma {:induction false} LastOfIs(invs: seq<Inv>, h: Hash)
    ensures LastOf(invs) == Some(h) <==>
      exists i :: 0 <= i < |invs| && invs[i] == Inv(BlockInv, h) && forall j :: i < j < |invs| ==> !invs[j].kind.BlockInv?
    ensures LastOf(invs) == None <==> forall i :: 0 <= i < |invs| ==> !invs[i].kind.BlockInv?
  {
    if invs != [] {
      var front, last := invs[..|invs| - 1], invs[|invs| - 1];
      LastOfIs(front, h);
      if last == Inv(BlockInv, h) {
        assert invs[|invs| - 1] == Inv(BlockInv, h);
      }
      if !last.kind.BlockInv? {
        forall i | 0 <= i < |front| && front[i] == Inv(BlockInv, h) ensures invs[i] == Inv(BlockInv, h) {
        }
      }
    }
  }

  method LastBlock(invs: seq<Inv>) returns (r: Option<Hash>)
    ensures r == LastOf(invs)
  {
    var i := |invs| - 1;
    assert invs[..|invs|] == invs;
    while i >= 0
      invariant -1 <= i < |invs|
      invariant LastOf(invs) == LastOf(invs[..i + 1])
    {
      assert invs[..i + 1][..i] == invs[..i];
      if invs[i].kind.BlockInv? {
        return Some(invs[i].hash);
      }
      i := i - 1;
    }
    r := None;
  }

  /** Make room below the limit by dropping an arbitrary entry. */
  method LimitMap(m: set<Hash>, limit: nat) returns (r: set<Hash>)
    requires |m| <= limit
    ensures limit > 0 ==> Limited(m, r, limit)
    ensures |m| <= |r| + 1 && r <= m && (|m| < limit ==> r == m) && (limit > 0 ==> |r| < limit)
  {
    r := m;
    if |m| + 1 > limit && m != {} {
      var h :| h in m;
      r := m - {h};
    }
  }

  lemma {:induction false} LongerQueue(a: Snapshot, mid: Snapshot, b: Snapshot, peer: Peer, limit: nat)
    requires peer in a.states && peer in mid.states
    requires mid == a.(log := mid.log, states := a.states[peer := a.states[peer].(requestQueue := mid.states[peer].requestQueue)])
    requires FrontServed(mid, b, peer, mid.states[peer].requestQueue, limit)
    ensures FrontServed(a.(log := mid.log), b, peer, mid.states[peer].requestQueue, limit)
  {
    hide Served, MapsGrew;
    var popped: nat, invs: seq<Inv> :|
      && Served(mid.states[peer].requestQueue, popped, invs, b.states[peer].requestQueue, mid.txns, mid.blocks, limit)
      && InFlightGrew(mid.states[peer], b.states[peer], invs) && MapsGrew(mid.txns, mid.blocks, b.txns, b.blocks, invs, limit)
      && b.log == mid.log + if invs == [] then [] else [GetData(peer, invs)];
    assert InFlightGrew(a.states[peer], b.states[peer], invs);
  }

  /** A getdata under construction: what it lists is what became in flight at the peer, and the
      global maps gained nothing else. */
  ghost predicate Drafted(txns0: set<Hash>, blocks0: set<Hash>, s0: PeerState,
      txns: set<Hash>, blocks: set<Hash>, s: PeerState, msg: seq<Inv>, limit: nat) {
    && |txns| < limit && |blocks| < limit
    && s.requestQueue == s0.requestQueue && InFlightGrew(s0, s, msg)
    && (msg == [] ==> txns == txns0 && blocks == blocks0)
    && |blocks| <= |blocks0| + |msg| && |txns| <= |txns0| + |msg|
    && MapsGrew(txns0, blocks0, txns, blocks, msg, limit)
  }

  /** How an entry of the queue is written in a getdata. */
  function AsRequest(iv: Inv): Inv {
    if iv.kind.BlockInv? then Inv(FilteredBlockInv, iv.hash) else iv
  }

  ghost predicate TakenFrom(msg: seq<Inv>, queue: seq<Inv>, popped: nat)
    requires popped <= |queue|
  {
    forall iv :: iv in msg ==> exists i :: 0 <= i < popped && AsRequest(queue[i]) == iv
  }

  lemma {:induction false} NothingDrafted(txns0: set<Hash>, blocks0: set<Hash>, s0: PeerState, limit: nat)
    requires |txns0| < limit && |blocks0| < limit
    ensures Drafted(txns0, blocks0, s0, txns0, blocks0, s0, [], limit)
  {
  }

  /** One entry of the queue: asked for unless a request is pending. */
  method TakeOne(iv: Inv, txns: set<Hash>, blocks: set<Hash>, s: PeerState, msg: seq<Inv>, limit: nat,
      ghost txns0: set<Hash>, ghost blocks0: set<Hash>, ghost s0: PeerState)
    returns (txns': set<Hash>, blocks': set<Hash>, s': PeerState, msg': seq<Inv>)
    requires Drafted(txns0, blocks0, s0, txns, blocks, s, msg, limit)
    ensures Drafted(txns0, blocks0, s0, txns', blocks', s', msg', limit)
    ensures msg <= msg' && |msg'| <= |msg| + 1 && Requested(iv, txns0, blocks0, msg')
    ensures msg' == msg || msg' == msg + [AsRequest(iv)]
  {
    hide Drafted;
    txns', blocks', s', msg' := txns, blocks, s, msg;
    match iv.kind {
      case BlockInv =>
        TakeBlock(iv.hash, txns, blocks, s, msg, limit, txns0, blocks0, s0);
        if iv.hash !in blocks {
          blocks' := LimitMap(blocks + {iv.hash}, limit);
          s' := s.(requestedBlocks := s.requestedBlocks + {iv.hash});
          msg' := msg + [Inv(FilteredBlockInv, iv.hash)];
        }
      case TxInv =>
        TakeTx(iv.hash, txns, blocks, s, msg, limit, txns0, blocks0, s0);
        if iv.hash !in txns {
          txns' := LimitMap(txns + {iv.hash}, limit);
          s' := s.(requestedTxns := s.requestedTxns + {iv.hash});
          msg' := msg + [iv];
        }
      case _ =>
    }
  }

  /** Some entry may have been evicted: m becomes r. */
  ghost predicate Limited(m: set<Hash>, r: set<Hash>, limit: nat) {
    r <= m && |r| < limit && (|m| < limit ==> r == m)
  }

  lemma {:induction false} TakeBlock(h: Hash, txns: set<Hash>, blocks: set<Hash>, s: PeerState, msg: seq<Inv>, limit: nat,
      txns0: set<Hash>, blocks0: set<Hash>, s0: PeerState)
    requires Drafted(txns0, blocks0, s0, txns, blocks, s, msg, limit)
    ensures |blocks + {h}| <= limit
    ensures h in blocks ==> Requested(Inv(BlockInv, h), txns0, blocks0, msg)
    ensures h !in blocks ==> forall blocks' :: Limited(blocks + {h}, blocks', limit) ==>
      Drafted(txns0, blocks0, s0, txns, blocks', s.(requestedBlocks := s.requestedBlocks + {h}),
              msg + [Inv(FilteredBlockInv, h)], limit)
  {
    if h !in blocks {
      var s', msg' := s.(requestedBlocks := s.requestedBlocks + {h}), msg + [Inv(FilteredBlockInv, h)];
      assert InFlightGrew(s0, s', msg');
      forall blocks' | Limited(blocks + {h}, blocks', limit) ensures MapsGrew(txns0, blocks0, txns, blocks', msg', limit) {
        GrewByBlock(h, txns, blocks, blocks', msg, limit, txns0, blocks0);
      }
      hide MapsGrew, InFlightGrew;
      forall blocks' | Limited(blocks + {h}, blocks', limit) ensures |blocks'| <= |blocks0| + |msg'| {
        SmallerIsBelow(blocks', blocks + {h});
      }
    }
  }

  lemma {:induction false} GrewByBlock(h: Hash, txns: set<Hash>, blocks: set<Hash>, blocks': set<Hash>, msg: seq<Inv>, limit: nat,
      txns0: set<Hash>, blocks0: set<Hash>)
    requires MapsGrew(txns0, blocks0, txns, blocks, msg, limit) && |blocks| <= |blocks0| + |msg|
    requires h !in blocks && Limited(blocks + {h}, blocks', limit)
    ensures MapsGrew(txns0, blocks0, txns, blocks', msg + [Inv(FilteredBlockInv, h)], limit)
  {
  }

  lemma {:induction false} TakeTx(h: Hash, txns: set<Hash>, blocks: set<Hash>, s: PeerState, msg: seq<Inv>, limit: nat,
      txns0: set<Hash>, blocks0: set<Hash>, s0: PeerState)
    requires Drafted(txns0, blocks0, s0, txns, blocks, s, msg, limit)
    ensures |txns + {h}| <= limit
    ensures h in txns ==> Requested(Inv(TxInv, h), txns0, blocks0, msg)
    ensures h !in txns ==> forall txns' :: Limited(txns + {h}, txns', limit) ==>
      Drafted(txns0, blocks0, s0, txns', blocks, s.(requestedTxns := s.requestedTxns + {h}), msg + [Inv(TxInv, h)], limit)
  {
    if h !in txns {
      var s', msg' := s.(requestedTxns := s.requestedTxns + {h}), msg + [Inv(TxInv, h)];
      assert InFlightGrew(s0, s', msg');
      forall txns' | Limited(txns + {h}, txns', limit) ensures MapsGrew(txns0, blocks0, txns', blocks, msg', limit) {
        GrewByTx(h, txns, txns', blocks, msg, limit, txns0, blocks0);
      }
      hide MapsGrew, InFlightGrew;
      forall txns' | Limited(txns + {h}, txns', limit) ensures |txns'| <= |txns0| + |msg'| {
        SmallerIsBelow(txns', txns + {h});
      }
    }
  }

  lemma {:induction false} GrewByTx(h: Hash, txns: set<Hash>, txns': set<Hash>, blocks: set<Hash>, msg: seq<Inv>, limit: nat,
      txns0: set<Hash>, blocks0: set<Hash>)
    requires MapsGrew(txns0, blocks0, txns, blocks, msg, limit) && |txns| <= |txns0| + |msg|
    requires h !in txns && Limited(txns + {h}, txns', limit)
    ensures MapsGrew(txns0, blocks0, txns', blocks, msg + [Inv(TxInv, h)], limit)
  {
  }

  lemma {:induction false} DraftedOnce(txns0: set<Hash>, blocks0: set<Hash>, s0: PeerState,
      txns: set<Hash>, blocks: set<Hash>, s: PeerState, msg: seq<Inv>, limit: nat)
    requires Drafted(txns0, blocks0, s0, txns, blocks, s, msg, limit)
    ensures MapsGrew(txns0, blocks0, txns, blocks, msg, limit)
    ensures forall queue :: InFlightGrew(s0, s.(requestQueue := queue), msg)
  {
  }

  lemma {:induction false} NothingTaken(queue: seq<Inv>)
    ensures TakenFrom([], queue, 0)
  {
  }

  lemma {:induction false} TakenMore(msg: seq<Inv>, msg': seq<Inv>, queue: seq<Inv>, popped: nat)
    requires popped < |queue| && TakenFrom(msg, queue, popped)
    requires msg' == msg || msg' == msg + [AsRequest(queue[popped])]
    ensures TakenFrom(msg', queue, popped + 1)
  {
    forall iv | iv in msg' ensures exists i :: 0 <= i < popped + 1 && AsRequest(queue[i]) == iv {
      if iv in msg {
        var i :| 0 <= i < popped && AsRequest(queue[i]) == iv;
        assert AsRequest(queue[i]) == iv;
      } else {
        assert AsRequest(queue[popped]) == iv;
      }
    }
  }

  lemma {:induction false} StillRequested(iv: Inv, txns: set<Hash>, blocks: set<Hash>, msg: seq<Inv>, more: seq<Inv>)
    requires Requested(iv, txns, blocks, msg) && msg <= more
    ensures Requested(iv, txns, blocks, more)
  {
    assert forall x :: x in msg ==> x in more;
  }

  lemma {:induction false} SoundDraft(limit: nat, txns: set<Hash>, blocks: set<Hash>, sync: Option<Peer>,
      states: PeerStates, log: seq<Call>, peer: Peer, txns': set<Hash>, blocks': set<Hash>,
      s: PeerState, msg: seq<Inv>, queue: seq<Inv>)
    requires Sound(limit, txns, blocks, sync, states, log) && peer in states
    requires Drafted(txns, blocks, states[peer], txns', blocks', s, msg, limit)
    ensures Sound(limit, txns', blocks', sync, states[peer := s.(requestQueue := queue)],
                  if msg == [] then log else log + [GetData(peer, msg)])
  {
    hide Sound;
    var s' := s.(requestQueue := queue);
    if msg == [] {
      SoundSameFlights(limit, txns, blocks, sync, states, states[peer := s'], log);
    } else {
      SoundRequest(limit, txns, blocks, sync, states, log, peer, s', txns', blocks', msg);
    }
  }

  lemma {:induction false} SameLog(log: seq<Call>)
    ensures SameCommits(log, log)
  {
  }

  lemma {:induction false} CommitsChain(a: seq<Call>, b: seq<Call>, c: seq<Call>)
    requires SameCommits(a, b) && SameCommits(b, c)
    ensures SameCommits(a, c)
  {
  }

  class Manager {
    const limit: nat
    const candidateFlags: seq<bv64>
    const announces: bool
    var requestedTxns: set<Hash>
    var requestedBlocks: set<Hash>
    var txMemPool: set<Hash>
    var syncPeer: Option<Peer>
    var peerStates: PeerStates
    var log: seq<Call>

    ghost predicate Valid()
      reads this
    {
      Sound(limit, requestedTxns, requestedBlocks, syncPeer, peerStates, log)
    }

    constructor (limit: nat, candidateFlags: seq<bv64>, announces: bool)
      requires limit > 0
      ensures Valid() && peerStates == map[] && log == [] && this.limit == limit
    {
      this.limit, this.candidateFlags, this.announces := limit, candidateFlags, announces;
      requestedTxns, requestedBlocks, txMemPool, syncPeer, peerStates, log := {}, {}, {}, None, map[], [];
    }

    function Now(): Snapshot
      reads this
    {
      Snapshot(requestedTxns, requestedBlocks, txMemPool, syncPeer, peerStates, log)
    }

    predicate Current(w: World)
      reads this
    {
      Now().Current(w)
    }

    /** Call a peer. */
    method Tell(call: Call)
      requires Valid() && !call.GetData? && !call.Commit?
      modifies `log
      ensures Valid() && log == old(log) + [call] && SameCommits(old(log), log)
    {
      hide Sound, SameCommits;
      SoundCall(limit, requestedTxns, requestedBlocks, syncPeer, peerStates, log, call);
      NoCommit(log, call);
      log := log + [call];
    }

    method SyncWith(peer: Peer)
      requires Valid() && peer in peerStates
      modifies `requestedBlocks, `log, `syncPeer
      ensures Valid() && syncPeer == Some(peer) && requestedBlocks == {}
      ensures log == old(log) + [GetBlocks(peer, None)] && SameCommits(old(log), log)
    {
      hide Sound, SameCommits;
      SoundSync(limit, requestedTxns, requestedBlocks, syncPeer, peerStates, log, peer);
      NoCommit(log, GetBlocks(peer, None));
      requestedBlocks := {};
      log := log + [GetBlocks(peer, None)];
      syncPeer := Some(peer);
    }

    /** Pick some candidate that is not behind the chain; sync from it if it is ahead. */
    method StartSync(w: World)
      requires Valid()
      modifies `requestedBlocks, `log, `syncPeer, `peerStates
      ensures Valid() && SameCommits(old(log), log)
      ensures Searched(old(Now()), Now(), w)
    {
      hide Sound, SameCommits;
      SameLog(log);
      if syncPeer.Some? {
        return;
      }
      var bestPeer := PickCandidate(w);
      if bestPeer.Some? {
        if w.height(bestPeer.value) == w.best {
          return;
        }
        SyncWith(bestPeer.value);
      }
    }

    /** The peers are walked in an arbitrary order up to the first candidate that is not behind. */
    method PickCandidate(w: World) returns (bestPeer: Option<Peer>)
      requires Valid()
      modifies `peerStates
      ensures Valid() && OnlyDemoted(old(peerStates), peerStates, w)
      ensures forall p :: p in old(peerStates) && w.height(p) >= w.best ==> peerStates[p] == old(peerStates)[p]
      ensures bestPeer.Some? ==>
        && bestPeer.value in peerStates && peerStates[bestPeer.value].syncCandidate && w.height(bestPeer.value) >= w.best
      ensures bestPeer == None ==> forall p :: p in peerStates ==> !peerStates[p].syncCandidate
    {
      hide Sound;
      var rest := peerStates.Keys;
      while rest != {}
        invariant Valid() && OnlyDemoted(old(peerStates), peerStates, w) && rest <= peerStates.Keys
        invariant forall p :: p in peerStates && p !in rest ==> !peerStates[p].syncCandidate
        decreases |rest|
      {
        var p :| p in rest;
        rest := rest - {p};
        if !peerStates[p].syncCandidate {
          continue;
        }
        if w.height(p) < w.best {
          Demote(p);
          continue;
        }
        return Some(p);
      }
      bestPeer := None;
    }

    method Demote(p: Peer)
      requires Valid() && p in peerStates
      modifies `peerStates
      ensures Valid() && peerStates == old(peerStates)[p := old(peerStates)[p].(syncCandidate := false)]
    {
      hide Sound;
      var states := peerStates[p := peerStates[p].(syncCandidate := false)];
      SoundSameFlights(limit, requestedTxns, requestedBlocks, syncPeer, peerStates, states, log);
      peerStates := states;
    }

    predicate IsCandidate(services: bv64) {
      forall i :: 0 <= i < |candidateFlags| ==> services & candidateFlags[i] == candidateFlags[i]
    }

    method IsSyncCandidate(services: bv64) returns (r: bool)
      ensures r <==> IsCandidate(services)
      ensures r <==> forall i :: 0 <= i < |candidateFlags| ==> services & candidateFlags[i] == candidateFlags[i]
    {
      var i := 0;
      while i < |candidateFlags|
        invariant 0 <= i <= |candidateFlags|
        invariant forall j :: 0 <= j < i ==> services & candidateFlags[j] == candidateFlags[j]
      {
        if services & candidateFlags[i] != candidateFlags[i] {
          return false;
        }
        i := i + 1;
      }
      r := true;
    }

    /** A peer joins; every connection is a new peer object. */
    method HandleNewPeer(peer: Peer, services: bv64, shutdown: bool, w: World)
      requires Valid() && peer !in peerStates
      modifies this
      ensures Valid() && SameCommits(old(log), log)
      ensures peerStates.Keys == old(peerStates.Keys) + if shutdown then {} else {peer}
      ensures
        var s := PeerState(IsCandidate(services), [], {}, {}, 0, 0);
        var joined := old(Now()).(states := old(peerStates)[peer := s]);
        if shutdown then Now() == old(Now())
        else if !IsCandidate(services) then Now() == joined
        else Searched(joined.(log := old(log) + [LoadFilter(peer)]), Now(), w)
      ensures !shutdown && IsCandidate(services) && old(syncPeer) == None ==>
        if syncPeer.Some? then
          && w.height(syncPeer.value) > w.best && requestedBlocks == {}
          && log == old(log) + [LoadFilter(peer), GetBlocks(syncPeer.value, None)]
        else
          && requestedBlocks == old(requestedBlocks) && log == old(log) + [LoadFilter(peer)]
          && ((exists p :: p in peerStates && peerStates[p].syncCandidate && w.height(p) == w.best)
              || (forall p :: p in peerStates ==> !peerStates[p].syncCandidate))
      ensures shutdown || !IsCandidate(services) || old(syncPeer).Some? ==>
        syncPeer == old(syncPeer) && requestedBlocks == old(requestedBlocks)
      ensures !shutdown && IsCandidate(services) && old(syncPeer) == None && w.height(peer) > w.best &&
              (forall p :: p in old(peerStates) ==> !old(peerStates)[p].syncCandidate) ==>
        syncPeer == Some(peer)
    {
      hide Sound, SameCommits;
      SameLog(log);
      if shutdown {
        return;
      }
      var isSyncCandidate := IsSyncCandidate(services);
      var s := PeerState(isSyncCandidate, [], {}, {}, 0, 0);
      SoundNew(limit, requestedTxns, requestedBlocks, syncPeer, peerStates, log, peer, s);
      peerStates := peerStates[peer := s];
      if isSyncCandidate {
        ghost var log0 := log;
        Tell(LoadFilter(peer));
        ghost var log1 := log;
        if syncPeer == None {
          StartSync(w);
        } else {
          SameLog(log);
        }
        CommitsChain(log0, log1, log);
      }
    }

    /** A peer leaves: what was in flight there may be asked for elsewhere. */
    method HandleDonePeer(peer: Peer, w: World)
      requires Valid()
      modifies this
      ensures Valid() && SameCommits(old(log), log)
      ensures peerStates.Keys == old(peerStates.Keys) - {peer}
      ensures
        if peer !in old(peerStates) then Now() == old(Now())
        else
          var s := old(peerStates)[peer];
          var left := old(Now()).(txns := old(requestedTxns) - s.requestedTxns,
            blocks := old(requestedBlocks) - s.requestedBlocks, states := old(peerStates) - {peer});
          if old(syncPeer) != Some(peer) then Now() == left
          else
            && Searched(left.(sync := None), Now(), w)
            && if syncPeer.Some? then
                 w.height(syncPeer.value) > w.best && log == old(log) + [GetBlocks(syncPeer.value, None)]
               else
                 && log == old(log)
                 && ((exists p :: p in peerStates && peerStates[p].syncCandidate && w.height(p) == w.best)
                     || (forall p :: p in peerStates ==> !peerStates[p].syncCandidate))
    {
      hide Sound, SameCommits;
      SameLog(log);
      if peer !in peerStates {
        assert syncPeer != Some(peer) by { SyncPeerIsConnected(); }
        return;
      }
      var s := peerStates[peer];
      SoundDone(limit, requestedTxns, requestedBlocks, syncPeer, peerStates, log, peer);
      peerStates := peerStates - {peer};
      requestedTxns := requestedTxns - s.requestedTxns;
      requestedBlocks := requestedBlocks - s.requestedBlocks;
      if syncPeer == Some(peer) {
        syncPeer := None;
        StartSync(w);
      }
    }

    lemma {:induction false} BelowLimit()
      requires Valid()
      ensures |requestedTxns| < limit && |requestedBlocks| < limit
    {
    }

    lemma {:induction false} SyncPeerIsConnected()
      requires Valid()
      ensures syncPeer.Some? ==> syncPeer.value in peerStates
    {
    }

    /** A transaction that was not asked for costs the peer its connection. */
    method HandleTx(peer: Peer, tx: Hash)
      requires Valid()
      modifies this
      ensures Valid() && SameCommits(old(log), log) && peerStates.Keys == old(peerStates.Keys)
      ensures Now() ==
        if peer in old(peerStates) && tx in old(peerStates)[peer].requestedTxns then
          var s := old(peerStates)[peer];
          old(Now()).(txns := old(requestedTxns) - {tx}, pool := old(txMemPool) + {tx},
                      states := old(peerStates)[peer := s.(requestedTxns := s.requestedTxns - {tx})],
                      log := old(log) + if announces then [Announce(tx)] else [])
        else old(Now()).(log := old(log) + if peer in peerStates then [Disconnect(peer)] else [])
    {
      hide Sound, SameCommits;
      SameLog(log);
      if peer !in peerStates {
        return;
      }
      var s := peerStates[peer];
      if tx !in s.requestedTxns {
        Tell(Disconnect(peer));
        return;
      }
      txMemPool := txMemPool + {tx};
      SoundTx(limit, requestedTxns, requestedBlocks, syncPeer, peerStates, log, peer, tx);
      peerStates := peerStates[peer := s.(requestedTxns := s.requestedTxns - {tx})];
      requestedTxns := requestedTxns - {tx};
      if announces {
        Tell(Announce(tx));
      }
    }

    /** Send one getdata for the front of the peer's queue: at most `limit` entries, skipping what is
        already asked for; nothing is left in the queue unless the message is full. */
    method RequestQueuedInv(peer: Peer)
      requires Valid() && peer in peerStates
      modifies `requestedTxns, `requestedBlocks, `peerStates, `log
      ensures Valid() && SameCommits(old(log), log) && peerStates.Keys == old(peerStates.Keys)
      ensures FrontServed(old(Now()), Now(), peer, old(peerStates)[peer].requestQueue, limit)
    {
      hide Sound, SameCommits, Drafted, Requested, TakenFrom, AsRequest, InFlightGrew, MapsGrew;
      BelowLimit();
      SameLog(log);
      ghost var txns0, blocks0, s0 := requestedTxns, requestedBlocks, peerStates[peer];
      var s := peerStates[peer];
      var queue := s.requestQueue;
      var gdmsg: seq<Inv> := [];
      ghost var popped := 0;
      NothingDrafted(txns0, blocks0, s0, limit);
      NothingTaken(s0.requestQueue);
      while |queue| != 0
        invariant popped <= |s0.requestQueue| && queue == s0.requestQueue[popped..] && |gdmsg| < limit
        invariant peerStates == old(peerStates) && log == old(log)
        invariant Drafted(txns0, blocks0, s0, requestedTxns, requestedBlocks, s, gdmsg, limit)
        invariant forall i :: 0 <= i < popped ==> Requested(s0.requestQueue[i], txns0, blocks0, gdmsg)
        invariant TakenFrom(gdmsg, s0.requestQueue, popped) && |gdmsg| <= popped
        decreases |queue|
      {
        var iv := queue[0];
        queue := queue[1..];
        ghost var before := gdmsg;
        requestedTxns, requestedBlocks, s, gdmsg :=
          TakeOne(iv, requestedTxns, requestedBlocks, s, gdmsg, limit, txns0, blocks0, s0);
        forall i | 0 <= i < popped ensures Requested(s0.requestQueue[i], txns0, blocks0, gdmsg) {
          StillRequested(s0.requestQueue[i], txns0, blocks0, before, gdmsg);
        }
        TakenMore(before, gdmsg, s0.requestQueue, popped);
        popped := popped + 1;
        if |gdmsg| >= limit {
          break;
        }
      }
      DraftedOnce(txns0, blocks0, s0, requestedTxns, requestedBlocks, s, gdmsg, limit);
      SoundDraft(limit, txns0, blocks0, syncPeer, peerStates, log, peer, requestedTxns, requestedBlocks, s, gdmsg, queue);
      s := s.(requestQueue := queue);
      if |gdmsg| > 0 {
        NoCommit(log, GetData(peer, gdmsg));
        log := log + [GetData(peer, gdmsg)];
      }
      peerStates := peerStates[peer := s];
      assert peerStates[peer] == s && s.requestQueue == queue;
      assert Served(s0.requestQueue, popped, gdmsg, queue, txns0, blocks0, limit);
      assert InFlightGrew(s0, s, gdmsg) && MapsGrew(txns0, blocks0, requestedTxns, requestedBlocks, gdmsg, limit);
      assert log == old(log) + if gdmsg == [] then [] else [GetData(peer, gdmsg)];
    }

    /** Forget what this peer was asked for, and the global map with it. */
    method ClearRequests(peer: Peer)
      requires Valid() && peer in peerStates
      modifies `requestedBlocks, `peerStates
      ensures Valid() && requestedBlocks == {}
      ensures peerStates == old(peerStates)[peer := old(peerStates)[peer].(requestQueue := [], requestedBlocks := {})]
    {
      hide Sound;
      var s := peerStates[peer].(requestQueue := [], requestedBlocks := {});
      SoundClear(limit, requestedTxns, requestedBlocks, syncPeer, peerStates, log, peer, s);
      peerStates := peerStates[peer := s];
      requestedBlocks := {};
    }

    /** The block leaves the request maps and goes to the chain. */
    method Consume(peer: Peer, block: Hash)
      requires Valid() && Awaits(peerStates, peer, block)
      modifies `requestedBlocks, `peerStates, `log
      ensures Valid() && Now() == Taking(old(Now()), peer, block)
    {
      hide Sound;
      var s := peerStates[peer];
      s := s.(receivedBlocks := Add(s.receivedBlocks, 1), requestedBlocks := s.requestedBlocks - {block});
      SoundCommit(limit, requestedTxns, requestedBlocks, syncPeer, peerStates, log, peer, s, block);
      peerStates := peerStates[peer := s];
      requestedBlocks := requestedBlocks - {block};
      log := log + [Commit(peer, block)];
    }

    /** An orphan in the middle of a sync counts against the peer; more than one in a thousand of the
        blocks it sent ends the connection. */
    method CountBadBlock(peer: Peer)
      requires Valid() && peer in peerStates
      modifies `peerStates, `log
      ensures Valid() && SameCommits(old(log), log)
      ensures var s := old(peerStates)[peer];
        peerStates == old(peerStates)[peer := s.(badBlocks := Add(s.badBlocks, 1))]
      ensures var s := peerStates[peer];
        log == old(log) + if 1000 * s.badBlocks > s.receivedBlocks then [Disconnect(peer)] else []
    {
      hide Sound, SameCommits;
      SameLog(log);
      var s := peerStates[peer].(badBlocks := Add(peerStates[peer].badBlocks, 1));
      SoundSameFlights(limit, requestedTxns, requestedBlocks, syncPeer, peerStates, peerStates[peer := s], log);
      peerStates := peerStates[peer := s];
      if 1000 * s.badBlocks > s.receivedBlocks {
        Tell(Disconnect(peer));
      }
    }

    /** What follows once the chain has stored or refused the block. */
    method AfterCommit(peer: Peer, w: World, result: CommitResult, fpRateHigh: bool, fpRateTooHigh: bool)
      requires Valid() && peer in peerStates
      modifies this
      ensures Valid() && SameCommits(old(log), log) && peerStates.Keys == old(peerStates.Keys)
      ensures Leads(old(Now()), Now(), peer, w, result, fpRateHigh, fpRateTooHigh, limit)
    {
      hide Sound, SameCommits;
      SameLog(log);
      match result {
        case Orphan =>
          if Current(w) {
            ClearRequests(peer);
            SyncWith(peer);
          } else {
            CountBadBlock(peer);
          }
        case Failed =>
        case Stored(newBlock, reorg, newHeight) =>
          if newBlock {
            NewBlock(peer, w, reorg, newHeight, fpRateHigh, fpRateTooHigh);
          }
      }
    }

    method NewBlock(peer: Peer, w: World, reorg: bool, newHeight: uint32, fpRateHigh: bool, fpRateTooHigh: bool)
      requires Valid() && peer in peerStates
      modifies this
      ensures Valid() && SameCommits(old(log), log) && peerStates.Keys == old(peerStates.Keys)
      ensures if fpRateTooHigh then Now() == old(Now()).(log := old(log) + [Disconnect(peer)])
              else LeadsNew(old(Now()), Now(), peer, w, reorg, newHeight, fpRateHigh, limit)
    {
      hide Sound, SameCommits, FrontServed;
      ghost var log0 := log;
      SameLog(log);
      if fpRateTooHigh {
        Tell(Disconnect(peer));
        return;
      }
      if Add(newHeight, 500) < w.height(peer) && fpRateHigh {
        Tell(LoadFilter(peer));
      }
      if reorg && Current(w) {
        ClearRequests(peer);
      }
      txMemPool := {};
      ghost var log1 := log;
      assert !Current(w) ==> Now() == old(Now()).(pool := {}, log := old(log) + Reloads(peer, w, newHeight, fpRateHigh));
      if Current(w) {
        Tell(ClearStall(peer));
        ghost var log2 := log;
        Tell(UpdateHeight(peer, newHeight));
        CommitsChain(log1, log2, log);
      } else if |peerStates[peer].requestedBlocks| < MIN_IN_FLIGHT_BLOCKS {
        RequestQueuedInv(peer);
      } else {
        SameLog(log);
      }
      CommitsChain(log0, log1, log);
    }

    /** A block reaches the chain exactly when it was in flight at the peer that sent it and the peer
        is the one synced from or the manager is current. */
    method HandleBlock(peer: Peer, block: Hash, before: World, after: World, result: CommitResult,
        fpRateHigh: bool, fpRateTooHigh: bool)
      requires Valid()
      modifies this
      ensures Valid() && peerStates.Keys == old(peerStates.Keys)
      ensures
        var current := old(syncPeer) == None || before.best >= before.height(old(syncPeer).value);
        var taken := (old(syncPeer) == Some(peer) || current) &&
          peer in old(peerStates) && block in old(peerStates)[peer].requestedBlocks;
        forall p: Peer, h: Hash ::
          Commits(log, p, h) == old(Commits(log, p, h)) + if taken && p == peer && h == block then 1 else 0
      ensures
        var current := old(syncPeer) == None || before.best >= before.height(old(syncPeer).value);
        var heard := old(syncPeer) == Some(peer) || current;
        if heard && peer in old(peerStates) && block in old(peerStates)[peer].requestedBlocks then
          Leads(Taking(old(Now()), peer, block), Now(), peer, after, result, fpRateHigh, fpRateTooHigh, limit)
        else Now() == old(Now()).(log := old(log) + if heard then [Disconnect(peer)] else [])
    {
      hide Sound, Commits;
      SameLog(log);
      if syncPeer != Some(peer) && !Current(before) {
        return;
      }
      if peer !in peerStates {
        Tell(Disconnect(peer));
        return;
      }
      if block !in peerStates[peer].requestedBlocks {
        Tell(Disconnect(peer));
        return;
      }
      ghost var log0 := log;
      Consume(peer, block);
      AfterCommit(peer, after, result, fpRateHigh, fpRateTooHigh);
      OneCommit(log0, peer, block, log);
    }

    /** Advertised entries the chain and the pool do not have join the peer's queue, and the front of
        the queue is asked for; peers other than the sync peer are ignored while syncing. */
    method HandleInv(peer: Peer, invVects: seq<Inv>, have: set<Hash>, w: World)
      requires Valid()
      modifies this
      ensures Valid() && SameCommits(old(log), log) && peerStates.Keys == old(peerStates.Keys)
      ensures
        var current := old(syncPeer) == None || w.best >= w.height(old(syncPeer).value);
        var heard := peer in old(peerStates) && (old(syncPeer) == Some(peer) || current);
        if !heard then Now() == old(Now())
        else
          var queue := old(peerStates)[peer].requestQueue + Unknown(invVects, have, txMemPool);
          var last := LastOf(invVects);
          var asks := if !current && |queue| < limit && last.Some? then [GetBlocks(peer, last)] else [];
          FrontServed(old(Now()).(log := old(log) + asks), Now(), peer, queue, limit)
    {
      hide Sound, SameCommits, Requested, FrontServed, LastOf, Unknown;
      SameLog(log);
      if peer !in peerStates {
        return;
      }
      var lastBlock := LastBlock(invVects);
      if syncPeer != Some(peer) && !Current(w) {
        return;
      }
      ghost var log0 := log;
      Enqueue(peer, invVects, have);
      if !Current(w) && |peerStates[peer].requestQueue| < limit && lastBlock.Some? {
        Tell(GetBlocks(peer, lastBlock));
      }
      ghost var mid := Now();
      RequestQueuedInv(peer);
      CommitsChain(log0, mid.log, log);
      LongerQueue(old(Now()), mid, Now(), peer, limit);
      ghost var queue := old(peerStates)[peer].requestQueue + Unknown(invVects, have, old(txMemPool));
      assert mid.states[peer].requestQueue == queue;
      assert mid.log == old(log) +
        if !old(Current(w)) && |queue| < limit && lastBlock.Some? then [GetBlocks(peer, lastBlock)] else [];
    }

    /** Entries that are not known yet join the peer's queue. */
    method Enqueue(peer: Peer, invVects: seq<Inv>, have: set<Hash>)
      requires Valid() && peer in peerStates
      modifies `peerStates
      ensures Valid()
      ensures var s := old(peerStates)[peer];
        peerStates == old(peerStates)[peer := s.(requestQueue := s.requestQueue + Unknown(invVects, have, txMemPool))]
    {
      hide Sound;
      var queue := peerStates[peer].requestQueue;
      var i := 0;
      while i < |invVects|
        invariant 0 <= i <= |invVects| && peerStates == old(peerStates)
        invariant queue == peerStates[peer].requestQueue + Unknown(invVects[..i], have, txMemPool)
      {
        var iv := invVects[i];
        assert invVects[..i + 1][..i] == invVects[..i];
        if (iv.kind.BlockInv? && iv.hash !in have) || (iv.kind.TxInv? && iv.hash !in txMemPool) {
          queue := queue + [iv];
        }
        i := i + 1;
      }
      assert invVects[..|invVects|] == invVects;
      var states := peerStates[peer := peerStates[peer].(requestQueue := queue)];
      SoundSameFlights(limit, requestedTxns, requestedBlocks, syncPeer, peerStates, states, log);
      peerStates := states;
    }
  }

  // ----- every run -----

  datatype Event =
    | NewPeer(peer: Peer, services: bv64, shutdown: bool, w: World)
    | DonePeer(peer: Peer, w: World)
    | TxArrived(peer: Peer, tx: Hash)
    | BlockArrived(peer: Peer, block: Hash, before: World, after: World, result: CommitResult, high: bool, tooHigh: bool)
    | InvArrived(peer: Peer, invs: seq<Inv>, have: set<Hash>, w: World)

  /** Every connection is a new peer object. */
  ghost predicate FreshPeers(events: seq<Event>) {
    forall i, j :: 0 <= i < j < |events| && events[i].NewPeer? && events[j].NewPeer? ==> events[i].peer != events[j].peer
  }

  ghost predicate Joined(events: seq<Event>, p: Peer) {
    exists i :: 0 <= i < |events| && events[i].NewPeer? && events[i].peer == p
  }

  lemma {:induction false} JoinsOnce(events: seq<Event>, i: nat)
    requires FreshPeers(events) && i < |events| && events[i].NewPeer?
    ensures !Joined(events[..i], events[i].peer)
  {
    forall j | 0 <= j < i && events[..i][j].NewPeer? ensures events[..i][j].peer != events[i].peer {
      assert events[j].peer != events[i].peer;
    }
  }

  lemma {:induction false} JoinedNext(events: seq<Event>, i: nat, p: Peer)
    requires i < |events|
    ensures Joined(events[..i], p) ==> Joined(events[..i + 1], p)
    ensures events[i].NewPeer? ==> Joined(events[..i + 1], events[i].peer)
  {
    if Joined(events[..i], p) {
      var j :| 0 <= j < i && events[..i][j].NewPeer? && events[..i][j].peer == p;
      assert events[..i + 1][j].NewPeer?;
    }
    if events[i].NewPeer? {
      assert events[..i + 1][i].NewPeer?;
    }
  }

  /** What the invariant says to an observer. */
  lemma {:induction false} SoundMeans(limit: nat, txns: set<Hash>, blocks: set<Hash>, sync: Option<Peer>,
      states: PeerStates, log: seq<Call>)
    requires Sound(limit, txns, blocks, sync, states, log)
    ensures forall p: Peer, h: Hash :: Commits(log, p, h) <= Asked(log, p, h)
    ensures states == map[] ==> txns == {} && blocks == {} && sync == None
  {
    forall p: Peer, h: Hash ensures Commits(log, p, h) <= Asked(log, p, h) {
      assert Commits(log, p, h) + (if Awaits(states, p, h) then 1 else 0) <= Asked(log, p, h);
    }
    if states == map[] {
      assert forall h :: h in blocks ==> exists p :: Awaits(states, p, h);
      assert forall h :: h in txns ==> exists p :: AwaitsTx(states, p, h);
    }
  }

  /** Over every run: the invariant holds at the end, every block given to the chain was asked for at
      the peer that sent it, and when the last peer is gone nothing is in flight. */
  method Run(limit: nat, candidateFlags: seq<bv64>, announces: bool, events: seq<Event>) returns (m: Manager)
    requires limit > 0 && FreshPeers(events)
    ensures m.Valid() && |m.requestedTxns| < limit && |m.requestedBlocks| < limit
    ensures m.syncPeer.Some? ==> m.syncPeer.value in m.peerStates
    ensures forall p: Peer, h: Hash :: Commits(m.log, p, h) <= Asked(m.log, p, h)
    ensures m.peerStates == map[] ==> m.requestedTxns == {} && m.requestedBlocks == {} && m.syncPeer == None
  {
    hide Sound, Joined, FreshPeers, SameCommits;
    m := new Manager(limit, candidateFlags, announces);
    var i := 0;
    while i < |events|
      invariant 0 <= i <= |events| && fresh(m) && m.Valid() && m.limit == limit
      invariant forall p :: p in m.peerStates ==> Joined(events[..i], p)
    {
      forall p: Peer ensures Joined(events[..i], p) ==> Joined(events[..i + 1], p) {
        JoinedNext(events, i, p);
      }
      match events[i] {
        case NewPeer(peer, services, shutdown, w) =>
          JoinsOnce(events, i);
          JoinedNext(events, i, peer);
          m.HandleNewPeer(peer, services, shutdown, w);
        case DonePeer(peer, w) => m.HandleDonePeer(peer, w);
        case TxArrived(peer, tx) => m.HandleTx(peer, tx);
        case BlockArrived(peer, block, before, after, result, high, tooHigh) =>
          m.HandleBlock(peer, block, before, after, result, high, tooHigh);
        case InvArrived(peer, invs, have, w) => m.HandleInv(peer, invs, have, w);
      }
      i := i + 1;
    }
    m.BelowLimit();
    m.SyncPeerIsConnected();
    SoundMeans(m.limit, m.requestedTxns, m.requestedBlocks, m.syncPeer, m.peerStates, m.log);
  }
}
