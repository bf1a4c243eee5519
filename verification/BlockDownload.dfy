/** peer/peer.go, blockHandler: a merkle block and the transactions it announces are collected one
    message at a time and handed on as one block. */
module BlockDownload {
  import opened BlockBuilder
  import opened BloomFilter
  import opened MerkleBlock
  import opened MerkleTree
  import opened PartialTree
  import opened Wrappers

  /** The block being downloaded: its header, the ids still awaited and the transactions received. */
  datatype State = State(header: Option<Message>, pending: set<Hash>, txs: seq<Tx>)

  const IDLE := State(None, {}, [])

  /** A transaction message may hold a payload that is no transaction; it is skipped. */
  datatype Incoming = Block(m: Message) | Transaction(tx: Option<Tx>)

  datatype Event = OnBlock(m: Message, txs: seq<Tx>) | OnTx(tx: Tx) | Disconnect

  datatype Outcome = Outcome(next: State, events: seq<Event>)

  function Announced(m: Message, pair: PairHash): Option<seq<Hash>> {
    var answer := Answer(Check(m, pair));
    if answer.Ok? then Some(answer.value) else None
  }

  function AsSet(ids: seq<Hash>): set<Hash> {
    set x | x in ids
  }

  /** A peer that is no longer connected is not notified, and the collected block is kept. */
  function Notify(s: State, connected: bool): Outcome
    requires s.header.Some?
  {
    if connected then Outcome(IDLE, [OnBlock(s.header.value, s.txs)]) else Outcome(s, [])
  }

  /** One message. */
  function Step(s: State, incoming: Incoming, connected: bool, pair: PairHash): Outcome {
    match incoming
    case Block(m) =>
      if s.header.Some? || Announced(m, pair) == None then Outcome(s, [Disconnect])
      else
        var ids := Announced(m, pair).value;
        if |ids| == 0 then Notify(s.(header := Some(m)), connected)
        else Outcome(State(Some(m), AsSet(ids), []), [])
    case Transaction(None) => Outcome(s, [])
    case Transaction(Some(tx)) =>
      if s.header == None then Outcome(s, [OnTx(tx)])
      else if tx.id !in s.pending then Outcome(s, [Disconnect])
      else
        var s' := State(s.header, s.pending - {tx.id}, s.txs + [tx]);
        if |s'.pending| == 0 then Notify(s', connected) else Outcome(s', [])
  }

  /** The handler itself: header, pending ids and transactions are updated in place. */
  class BlockHandler {
    const pair: PairHash
    var header: Option<Message>
    var pendingTxs: set<Hash>
    var txs: seq<Tx>
    var events: seq<Event>

    constructor (pair: PairHash)
      ensures Now() == IDLE && events == [] && this.pair == pair
    {
      this.pair := pair;
      header, pendingTxs, txs, events := None, {}, [], [];
    }

    function Now(): State
      reads this
    {
      State(header, pendingTxs, txs)
    }

    method NotifyBlock(connected: bool)
      requires header.Some?
      modifies this
      ensures Outcome(Now(), events) == (var o := Notify(old(Now()), connected); Outcome(o.next, old(events) + o.events))
    {
      if !connected {
        return;
      }
      events := events + [OnBlock(header.value, txs)];
      header := None;
      pendingTxs := {};
      txs := [];
    }

    method Handle(incoming: Incoming, connected: bool)
      requires incoming.Block? ==> incoming.m.transactions <= MAX_TXS
      modifies this
      ensures Outcome(Now(), events) ==
        (var o := Step(old(Now()), incoming, connected, pair); Outcome(o.next, old(events) + o.events))
    {
      match incoming {
        case Block(m) =>
          if header.Some? {
            events := events + [Disconnect];
            return;
          }
          var txIds := CheckMerkleBlock(m, pair);
          hide Check;
          if txIds.Err? {
            events := events + [Disconnect];
            return;
          }
          header := Some(m);
          if |txIds.value| == 0 {
            NotifyBlock(connected);
            return;
          }
          var pending: set<Hash>, i := {}, 0;
          while i < |txIds.value|
            invariant 0 <= i <= |txIds.value|
            invariant pending == AsSet(txIds.value[..i])
            invariant Now() == old(Now()).(header := Some(m)) && events == old(events)
          {
            pending := pending + {txIds.value[i]};
            i := i + 1;
          }
          assert txIds.value[..|txIds.value|] == txIds.value;
          pendingTxs := pending;
          txs := [];
        case Transaction(None) =>
        case Transaction(Some(tx)) =>
          if header == None {
            events := events + [OnTx(tx)];
            return;
          }
          if tx.id !in pendingTxs {
            events := events + [Disconnect];
            return;
          }
          txs := txs + [tx];
          pendingTxs := pendingTxs - {tx.id};
          if |pendingTxs| == 0 {
            NotifyBlock(connected);
          }
      }
    }
  }

  // ----- every run -----

  ghost predicate Distinct(txs: seq<Tx>) {
    forall i, j :: 0 <= i < j < |txs| ==> txs[i].id != txs[j].id
  }

  /** Received and awaited ids partition what the header announces. */
  ghost predicate Partitions(s: State, pair: PairHash) {
    match s.header
    case None => s == IDLE
    case Some(m) =>
      && Announced(m, pair).Some? && Distinct(s.txs)
      && AsSet(TxIds(s.txs)) !! s.pending
      && AsSet(TxIds(s.txs)) + s.pending == AsSet(Announced(m, pair).value)
  }

  /** A block handed on has distinct transactions, and their ids are what its header announces. */
  ghost predicate Complete(m: Message, txs: seq<Tx>, pair: PairHash) {
    Announced(m, pair).Some? && Distinct(txs) && AsSet(TxIds(txs)) == AsSet(Announced(m, pair).value)
  }

  ghost predicate AllComplete(events: seq<Event>, pair: PairHash) {
    forall e :: e in events && e.OnBlock? ==> Complete(e.m, e.txs, pair)
  }

  lemma {:induction false} ReceivedOne(txs: seq<Tx>, tx: Tx)
    ensures AsSet(TxIds(txs + [tx])) == AsSet(TxIds(txs)) + {tx.id}
    ensures Distinct(txs) && tx.id !in AsSet(TxIds(txs)) ==> Distinct(txs + [tx])
  {
    assert TxIds(txs + [tx]) == TxIds(txs) + [tx.id];
    if Distinct(txs) && tx.id !in AsSet(TxIds(txs)) {
      forall i | 0 <= i < |txs| ensures txs[i].id != tx.id {
        assert TxIds(txs)[i] in TxIds(txs);
      }
    }
  }

  lemma {:induction false} FirstIsMember(ids: seq<Hash>)
    ensures ids == [] <==> AsSet(ids) == {}
  {
    if ids != [] {
      assert ids[0] in AsSet(ids);
    }
  }

  lemma {:induction false} NotifyKeeps(s: State, connected: bool, pair: PairHash)
    requires s.header.Some? && Partitions(s, pair) && s.pending == {}
    ensures var o := Notify(s, connected); Partitions(o.next, pair) && AllComplete(o.events, pair)
  {
    hide Announced, Distinct, AsSet, TxIds;
  }

  lemma {:induction false} BlockKeeps(s: State, m: Message, connected: bool, pair: PairHash)
    requires Partitions(s, pair)
    ensures var o := Step(s, Block(m), connected, pair);
      Partitions(o.next, pair) && AllComplete(o.events, pair)
  {
    hide Announced;
    assert TxIds([]) == [];
    if s.header == None && Announced(m, pair).Some? && Announced(m, pair).value == [] {
      NotifyKeeps(s.(header := Some(m)), connected, pair);
    }
  }

  lemma {:induction false} TransactionKeeps(s: State, tx: Tx, connected: bool, pair: PairHash)
    requires Partitions(s, pair)
    ensures var o := Step(s, Transaction(Some(tx)), connected, pair);
      Partitions(o.next, pair) && AllComplete(o.events, pair)
  {
    hide Announced, TxIds, AsSet, Distinct;
    if s.header.Some? && tx.id in s.pending {
      var s' := State(s.header, s.pending - {tx.id}, s.txs + [tx]);
      ReceivedOne(s.txs, tx);
      assert Partitions(s', pair);
      if |s'.pending| == 0 {
        NotifyKeeps(s', connected, pair);
      }
    }
  }

  lemma {:induction false} StepKeeps(s: State, incoming: Incoming, connected: bool, pair: PairHash)
    requires Partitions(s, pair)
    ensures var o := Step(s, incoming, connected, pair);
      Partitions(o.next, pair) && AllComplete(o.events, pair)
  {
    hide Partitions;
    match incoming {
      case Block(m) => BlockKeeps(s, m, connected, pair);
      case Transaction(None) =>
      case Transaction(Some(tx)) => TransactionKeeps(s, tx, connected, pair);
    }
  }

  /** The state and the events after a sequence of messages, each with the connection's state. */
  function Run(messages: seq<(Incoming, bool)>, pair: PairHash): Outcome {
    if messages == [] then Outcome(IDLE, [])
    else
      var before := Run(messages[..|messages| - 1], pair);
      var (incoming, connected) := messages[|messages| - 1];
      var o := Step(before.next, incoming, connected, pair);
      Outcome(o.next, before.events + o.events)
  }

  /** Over every message sequence: each block handed on is complete, and in between the received and
      awaited ids partition what the header announces. */
  lemma {:induction false} RunIsComplete(messages: seq<(Incoming, bool)>, pair: PairHash)
    ensures Partitions(Run(messages, pair).next, pair) && AllComplete(Run(messages, pair).events, pair)
  {
    if messages != [] {
      var front := messages[..|messages| - 1];
      var (incoming, connected) := messages[|messages| - 1];
      RunIsComplete(front, pair);
      hide Step, Partitions;
      StepKeeps(Run(front, pair).next, incoming, connected, pair);
    }
  }

  // ----- no message is lost -----

  /** One message of a run, by what was held before it: the events it adds and the state it leaves. A
      transaction is reported alone exactly when no header is held; otherwise it is held, completes the
      block, or costs the connection. */
  lemma {:induction false} AtMessage(messages: seq<(Incoming, bool)>, pair: PairHash, i: nat)
    requires i < |messages|
    ensures
      var (s, s') := (Run(messages[..i], pair).next, Run(messages[..i + 1], pair).next);
      var (events, events') := (Run(messages[..i], pair).events, Run(messages[..i + 1], pair).events);
      var (incoming, connected) := messages[i];
      match incoming
      case Transaction(None) => s' == s && events' == events
      case Transaction(Some(tx)) =>
        if s.header == None then s' == s && events' == events + [OnTx(tx)]
        else if tx.id !in s.pending then s' == s && events' == events + [Disconnect]
        else if connected && s.pending == {tx.id} then
          s' == State(None, {}, []) && events' == events + [OnBlock(s.header.value, s.txs + [tx])]
        else s' == State(s.header, s.pending - {tx.id}, s.txs + [tx]) && events' == events
      case Block(m) =>
        if s.header.Some? || Answer(Check(m, pair)).Err? then s' == s && events' == events + [Disconnect]
        else
          var ids := Answer(Check(m, pair)).value;
          if ids != [] then s' == State(Some(m), set id | id in ids, []) && events' == events
          else if connected then s' == State(None, {}, []) && events' == events + [OnBlock(m, s.txs)]
          else s' == s.(header := Some(m)) && events' == events
  {
    hide Check;
    assert messages[..i + 1][..i] == messages[..i];
    var s := Run(messages[..i], pair).next;
    if messages[i].0.Transaction? && messages[i].0.tx.Some? {
      var id := messages[i].0.tx.value.id;
      assert s.pending == {id} <==> id in s.pending && s.pending - {id} == {};
    }
  }

  /** What a sequence of events reports: transactions alone, transactions inside blocks, and headers. */
  function Alone(events: seq<Event>): seq<Tx> {
    if events == [] then []
    else Alone(events[..|events| - 1]) + if events[|events| - 1].OnTx? then [events[|events| - 1].tx] else []
  }

  function Inside(events: seq<Event>): seq<Tx> {
    if events == [] then []
    else Inside(events[..|events| - 1]) + if events[|events| - 1].OnBlock? then events[|events| - 1].txs else []
  }

  function Headers(events: seq<Event>): seq<Message> {
    if events == [] then []
    else Headers(events[..|events| - 1]) + if events[|events| - 1].OnBlock? then [events[|events| - 1].m] else []
  }

  function Disconnects(events: seq<Event>): nat {
    if events == [] then 0
    else Disconnects(events[..|events| - 1]) + if events[|events| - 1].Disconnect? then 1 else 0
  }

  lemma {:induction false} OneEvent(events: seq<Event>, e: Event)
    ensures Alone(events + [e]) == Alone(events) + if e.OnTx? then [e.tx] else []
    ensures Inside(events + [e]) == Inside(events) + if e.OnBlock? then e.txs else []
    ensures Headers(events + [e]) == Headers(events) + if e.OnBlock? then [e.m] else []
    ensures Disconnects(events + [e]) == Disconnects(events) + if e.Disconnect? then 1 else 0
  {
    assert (events + [e])[..|events|] == events;
  }

  /** What one message brings in: its transaction, if no header is held; its transaction, if it is
      awaited; its header, if none is held and the message passes the check. */
  function TxIn(incoming: Incoming): seq<Tx> {
    if incoming.Transaction? && incoming.tx.Some? then [incoming.tx.value] else []
  }

  function AloneIn(s: State, incoming: Incoming): seq<Tx> {
    if s.header == None then TxIn(incoming) else []
  }

  function AwaitedIn(s: State, incoming: Incoming): seq<Tx> {
    if s.header.Some? && TxIn(incoming) != [] && TxIn(incoming)[0].id in s.pending then TxIn(incoming) else []
  }

  function TakenIn(s: State, incoming: Incoming, pair: PairHash): seq<Message> {
    if incoming.Block? && s.header == None && Answer(Check(incoming.m, pair)).Ok? then [incoming.m] else []
  }

  function Held(s: State): seq<Message> {
    if s.header.Some? then [s.header.value] else []
  }

  /** The same over a sequence of messages, in order. */
  function Unheaded(messages: seq<(Incoming, bool)>, pair: PairHash): seq<Tx> {
    if messages == [] then []
    else
      var front := messages[..|messages| - 1];
      Unheaded(front, pair) + AloneIn(Run(front, pair).next, messages[|messages| - 1].0)
  }

  function Awaited(messages: seq<(Incoming, bool)>, pair: PairHash): seq<Tx> {
    if messages == [] then []
    else
      var front := messages[..|messages| - 1];
      Awaited(front, pair) + AwaitedIn(Run(front, pair).next, messages[|messages| - 1].0)
  }

  function Taken(messages: seq<(Incoming, bool)>, pair: PairHash): seq<Message> {
    if messages == [] then []
    else
      var front := messages[..|messages| - 1];
      Taken(front, pair) + TakenIn(Run(front, pair).next, messages[|messages| - 1].0, pair)
  }

  /** How many transactions and merkle blocks were sent. */
  function Sent(messages: seq<(Incoming, bool)>): nat {
    if messages == [] then 0
    else
      var last := messages[|messages| - 1].0;
      Sent(messages[..|messages| - 1]) + |TxIn(last)| + if last.Block? then 1 else 0
  }

  /** Over every message sequence nothing is lost and nothing made up. Exactly the transactions that
      arrive with no header held are reported alone, in order; exactly the awaited ones are in a block
      handed on or held, in order; exactly the blocks taken are handed on or held; and every other
      transaction and block is answered by a disconnect. */
  lemma {:induction false} NothingIsLost(messages: seq<(Incoming, bool)>, pair: PairHash)
    ensures Alone(Run(messages, pair).events) == Unheaded(messages, pair)
    ensures Inside(Run(messages, pair).events) + Run(messages, pair).next.txs == Awaited(messages, pair)
    ensures Headers(Run(messages, pair).events) + Held(Run(messages, pair).next) == Taken(messages, pair)
    ensures |Unheaded(messages, pair)| + |Awaited(messages, pair)| + |Taken(messages, pair)|
      + Disconnects(Run(messages, pair).events) == Sent(messages)
  {
    hide Step, AloneIn, AwaitedIn, TakenIn, TxIn;
    if messages != [] {
      var front := messages[..|messages| - 1];
      var (incoming, connected) := messages[|messages| - 1];
      var s, events := Run(front, pair).next, Run(front, pair).events;
      var o := Step(s, incoming, connected, pair);
      NothingIsLost(front, pair);
      IdleHoldsNothing(front, pair);
      StepLosesNothing(s, incoming, connected, pair);
      TallyOf(events, o.events);
      Regrouped(Inside(events), s.txs, AwaitedIn(s, incoming), Inside(o.events), o.next.txs);
      Regrouped(Headers(events), Held(s), TakenIn(s, incoming, pair), Headers(o.events), Held(o.next));
      hide Held, Alone, Inside, Headers, Disconnects;
    }
  }

  lemma {:induction false} Regrouped<T>(a: seq<T>, b: seq<T>, x: seq<T>, c: seq<T>, d: seq<T>)
    requires b + x == c + d
    ensures (a + c) + d == (a + b) + x
  {
    assert (a + c) + d == a + (c + d) && (a + b) + x == a + (b + x);
  }

  lemma {:induction false} IdleHoldsNothing(messages: seq<(Incoming, bool)>, pair: PairHash)
    ensures Run(messages, pair).next.header == None ==> Run(messages, pair).next == State(None, {}, [])
  {
    RunIsComplete(messages, pair);
    hide Run;
  }

  /** What one message brings in is what its events report and what is held more than before. */
  ghost predicate LosesNothing(s: State, incoming: Incoming, o: Outcome, pair: PairHash) {
    && Alone(o.events) == AloneIn(s, incoming)
    && s.txs + AwaitedIn(s, incoming) == Inside(o.events) + o.next.txs
    && Held(s) + TakenIn(s, incoming, pair) == Headers(o.events) + Held(o.next)
    && |AloneIn(s, incoming)| + |AwaitedIn(s, incoming)| + |TakenIn(s, incoming, pair)| + Disconnects(o.events)
         == |TxIn(incoming)| + if incoming.Block? then 1 else 0
  }

  lemma {:induction false} StepLosesNothing(s: State, incoming: Incoming, connected: bool, pair: PairHash)
    requires s.header == None ==> s == State(None, {}, [])
    ensures |Step(s, incoming, connected, pair).events| <= 1
    ensures LosesNothing(s, incoming, Step(s, incoming, connected, pair), pair)
  {
    hide LosesNothing;
    NoEvent();
    match incoming {
      case Block(m) => BlockLosesNothing(s, m, connected, pair);
      case Transaction(None) => assert LosesNothing(s, incoming, Outcome(s, []), pair) by { SkippedLosesNothing(s, pair); }
      case Transaction(Some(tx)) => TxLosesNothing(s, tx, connected, pair);
    }
  }

  lemma {:induction false} NoEvent()
    ensures Alone([]) == [] && Inside([]) == [] && Headers([]) == [] && Disconnects([]) == 0
  {
  }

  lemma {:induction false} OnlyEvent(e: Event)
    ensures Alone([e]) == (if e.OnTx? then [e.tx] else []) && Inside([e]) == (if e.OnBlock? then e.txs else [])
    ensures Headers([e]) == (if e.OnBlock? then [e.m] else []) && Disconnects([e]) == (if e.Disconnect? then 1 else 0)
  {
    OneEvent([], e);
    assert [] + [e] == [e];
  }

  lemma {:induction false} SkippedLosesNothing(s: State, pair: PairHash)
    ensures LosesNothing(s, Transaction(None), Outcome(s, []), pair)
  {
    hide Check;
  }

  lemma {:induction false} BlockLosesNothing(s: State, m: Message, connected: bool, pair: PairHash)
    requires s.header == None ==> s == State(None, {}, [])
    ensures LosesNothing(s, Block(m), Step(s, Block(m), connected, pair), pair)
  {
    hide Check, Answer, Alone, Inside, Headers, Disconnects, AsSet;
    OnlyEvent(Disconnect);
    OnlyEvent(OnBlock(m, s.txs));
    NoEvent();
  }

  lemma {:induction false} TxLosesNothing(s: State, tx: Tx, connected: bool, pair: PairHash)
    requires s.header == None ==> s == State(None, {}, [])
    ensures LosesNothing(s, Transaction(Some(tx)), Step(s, Transaction(Some(tx)), connected, pair), pair)
  {
    hide Check, Answer, Alone, Inside, Headers, Disconnects;
    OnlyEvent(Disconnect);
    OnlyEvent(OnTx(tx));
    NoEvent();
    if s.header.Some? {
      OnlyEvent(OnBlock(s.header.value, s.txs + [tx]));
    }
  }

  lemma {:induction false} TallyOf(events: seq<Event>, es: seq<Event>)
    requires |es| <= 1
    ensures Alone(events + es) == Alone(events) + Alone(es) && Inside(events + es) == Inside(events) + Inside(es)
    ensures Headers(events + es) == Headers(events) + Headers(es)
    ensures Disconnects(events + es) == Disconnects(events) + Disconnects(es)
  {
    if es == [] {
      assert events + es == events;
    } else {
      OneEvent(events, es[0]);
      OneEvent([], es[0]);
      assert es == [es[0]] == [] + [es[0]];
    }
  }

  /** A connected peer's block is handed on as soon as nothing is awaited. */
  lemma {:induction false} HeldMeansAwaiting(messages: seq<(Incoming, bool)>, pair: PairHash)
    requires forall k :: 0 <= k < |messages| ==> messages[k].1
    ensures Run(messages, pair).next.header.Some? ==> Run(messages, pair).next.pending != {}
  {
    if messages != [] {
      var front := messages[..|messages| - 1];
      HeldMeansAwaiting(front, pair);
      AwaitsOrHandsOn(Run(front, pair).next, messages[|messages| - 1].0, pair);
      hide Step;
    }
  }

  lemma {:induction false} AwaitsOrHandsOn(s: State, incoming: Incoming, pair: PairHash)
    requires s.header.Some? ==> s.pending != {}
    ensures var s' := Step(s, incoming, true, pair).next; s'.header.Some? ==> s'.pending != {}
  {
    hide Check;
    if incoming.Block? && Announced(incoming.m, pair).Some? {
      FirstIsMember(Announced(incoming.m, pair).value);
    }
  }

  /** The messages of one download: the header, then the transactions. */
  function Download(m: Message, txs: seq<Tx>): seq<(Incoming, bool)> {
    [(Block(m), true)] + seq(|txs|, i requires 0 <= i < |txs| => (Transaction(Some(txs[i])), true))
  }

  /** A connected peer that sends the header and then its transactions, in any order, gets the block
      handed on exactly once, with those transactions in that order, and the handler is idle again. */
  lemma {:induction false} AnyOrderCompletes(m: Message, txs: seq<Tx>, pair: PairHash)
    requires Complete(m, txs, pair)
    ensures Run(Download(m, txs), pair) == Outcome(IDLE, [OnBlock(m, txs)])
  {
    hide Announced, Run;
    if txs == [] {
      SingleRun(m, pair);
      assert TxIds(txs) == [];
      FirstIsMember(Announced(m, pair).value);
      assert Download(m, txs) == [(Block(m), true)];
    } else {
      var front, last := txs[..|txs| - 1], txs[|txs| - 1];
      assert front + [last] == txs;
      Halfway(m, txs, front, pair);
      DownloadNext(m, front, last, pair);
      AwaitedAt(m, txs, |front|, pair);
      assert AsSet(TxIds(txs)) - AsSet(TxIds(front)) - {last.id} == {} by { ReceivedOne(front, last); }
    }
  }

  lemma {:induction false} SingleRun(m: Message, pair: PairHash)
    ensures Run([(Block(m), true)], pair) == Step(IDLE, Block(m), true, pair)
  {
    assert [(Block(m), true)][..0] == [];
    assert Run([], pair) == Outcome(IDLE, []);
  }

  lemma {:induction false} DownloadNext(m: Message, front: seq<Tx>, last: Tx, pair: PairHash)
    ensures
      var before := Run(Download(m, front), pair);
      var o := Step(before.next, Transaction(Some(last)), true, pair);
      Run(Download(m, front + [last]), pair) == Outcome(o.next, before.events + o.events)
  {
    hide Step;
    var all := Download(m, front + [last]);
    assert all[..|all| - 1] == Download(m, front);
  }

  lemma {:induction false} AwaitedAt(m: Message, txs: seq<Tx>, i: nat, pair: PairHash)
    requires Complete(m, txs, pair) && i < |txs|
    ensures txs[i].id in AsSet(TxIds(txs)) - AsSet(TxIds(txs[..i]))
  {
    assert TxIds(txs)[i] in TxIds(txs);
    forall j | 0 <= j < i ensures TxIds(txs[..i])[j] != txs[i].id {
    }
  }

  /** Part of the way through: the transactions sent so far are held, the others awaited. */
  lemma {:induction false} Halfway(m: Message, txs: seq<Tx>, sent: seq<Tx>, pair: PairHash)
    requires Complete(m, txs, pair) && sent < txs
    ensures Run(Download(m, sent), pair) ==
      Outcome(State(Some(m), AsSet(TxIds(txs)) - AsSet(TxIds(sent)), sent), [])
  {
    hide Announced, Run, Complete;
    if sent == [] {
      SingleRun(m, pair);
      HalfwayStart(m, txs, pair);
      assert Download(m, sent) == [(Block(m), true)];
    } else {
      var front, last := sent[..|sent| - 1], sent[|sent| - 1];
      assert front + [last] == sent && txs[..|front|] == front && txs[|front|] == last;
      Halfway(m, txs, front, pair);
      DownloadNext(m, front, last, pair);
      HalfwayStep(m, txs, |front|, pair);
    }
  }

  lemma {:induction false} HalfwayStart(m: Message, txs: seq<Tx>, pair: PairHash)
    requires Complete(m, txs, pair) && txs != []
    ensures Step(IDLE, Block(m), true, pair) == Outcome(State(Some(m), AsSet(TxIds(txs)) - AsSet(TxIds([])), []), [])
  {
    hide Announced;
    assert TxIds(txs)[0] in AsSet(TxIds(txs));
    assert AsSet(TxIds([])) == {} by { assert TxIds([]) == []; }
  }

  lemma {:induction false} HalfwayStep(m: Message, txs: seq<Tx>, i: nat, pair: PairHash)
    requires Complete(m, txs, pair) && i + 1 < |txs|
    ensures
      var all := AsSet(TxIds(txs));
      Step(State(Some(m), all - AsSet(TxIds(txs[..i])), txs[..i]), Transaction(Some(txs[i])), true, pair) ==
      Outcome(State(Some(m), all - AsSet(TxIds(txs[..i + 1])), txs[..i + 1]), [])
  {
    AwaitedAt(m, txs, i, pair);
    AwaitedAt(m, txs, i + 1, pair);
    ReceivedOne(txs[..i], txs[i]);
    assert txs[..i] + [txs[i]] == txs[..i + 1];
    hide Announced, TxIds, Complete;
    var all := AsSet(TxIds(txs));
    assert all - AsSet(TxIds(txs[..i])) - {txs[i].id} == all - AsSet(TxIds(txs[..i + 1]));
    assert txs[i + 1].id in all - AsSet(TxIds(txs[..i + 1]));
  }

  /** From the filter to the wallet: when a block built for a filter is handed on, every relevant
      transaction of the block is among the transactions handed on. */
  lemma {:induction false} RelevantIsDelivered(
    messages: seq<(Incoming, bool)>, m: Message, got: seq<Tx>, txs: seq<Tx>, v: View, murmur: Murmur,
    watched: set<Data>, pair: PairHash, k: nat)
    requires OnBlock(m, got) in Run(messages, pair).events
    requires 1 <= |txs| <= MAX_TXS && v.Valid() && k < |txs|
    requires Carries(m, TxIds(txs), Scan(v, murmur, txs), pair) && m.root == MerkleRoot(TxIds(txs), pair)
    requires ExposedSiblingsDiffer(TxIds(txs), Scan(v, murmur, txs), pair)
    requires forall w :: w in watched ==> Matches(v, murmur, w)
    requires Relevant(watched, txs, k)
    ensures exists t :: t in got && t.id == txs[k].id
  {
    hide Run, Scan, Matches, Relevant, Carries, Check, MerkleRoot, ExposedSiblingsDiffer, Width, Depth;
    RunIsComplete(messages, pair);
    RelevantReachesReceiver(m, txs, v, murmur, watched, pair, k);
    assert Complete(m, got, pair);
    assert txs[k].id in AsSet(Announced(m, pair).value);
    assert txs[k].id in TxIds(got);
    var i :| 0 <= i < |got| && TxIds(got)[i] == txs[k].id;
    assert got[i] in got;
  }
}
