/** bloom/merkleblock.go: checking a received merkle block. (Building one is in BlockBuilder.) */
module MerkleBlock {
  import opened FlagBits
  import opened MerkleTree
  import opened PartialTree
  import opened Position
  import opened StackParser
  import opened Word32
  import opened Wrappers

  /** The parts of the merkleblock message that the check reads. */
  datatype Message = Message(root: Hash, transactions: uint32, hashes: seq<Hash>, flags: seq<byte>)

  datatype Verdict = Accepted(tree: PTree) | Rejected(error: ParseError)

  /** What the check decides, by the recursive parser. */
  function Check(m: Message, pair: PairHash): Verdict {
    Decide(m.root, m.transactions, m.hashes, Unpack(m.flags), pair)
  }

  function Decide(root: Hash, n: uint32, hashes: seq<Hash>, bits: seq<bool>, pair: PairHash): Verdict {
    if n == 0 then Rejected(NoTransactions)
    else if bits == [] then Rejected(NoFlags)
    else
      match Parse(n, pair, Depth(n), 0, bits, hashes)
      case Bad(e) => Rejected(e)
      case Good(t, _, _) => if Root(t, pair) == root then Accepted(t) else Rejected(RootMismatch)
  }

  function Answer(v: Verdict): Result<seq<Hash>> {
    match v
    case Accepted(t) => Ok(Ids(Matched(t, 0)))
    case Rejected(e) => Err(e)
  }

  /** t is a tree over n leaves without equal siblings, and its serialised form starts the message. */
  predicate Begins(t: PTree, m: Message, pair: PairHash) {
    && Shaped(t, m.transactions, Depth(m.transactions), 0) && NoTwins(t, pair)
    && Hashes(t) <= m.hashes && Bits(t) <= Unpack(m.flags)
  }

  /** The language of the check. It accepts exactly the messages that begin with a well-shaped tree without
      equal siblings that has the header's root, and it returns the flagged leaves of that tree. */
  lemma {:induction false} CheckAcceptsIff(m: Message, pair: PairHash, t: PTree)
    ensures Check(m, pair) == Accepted(t) <==>
      m.transactions >= 1 && Begins(t, m, pair) && Root(t, pair) == m.root
  {
    hide Shaped, NoTwins, Root, Hashes, Bits, Parse, Unpack, Depth;
    if m.transactions >= 1 && Check(m, pair) == Accepted(t) {
      AcceptedBegins(m, pair, t);
    }
    if m.transactions >= 1 && Begins(t, m, pair) {
      BeginningIsParsed(m, pair, t);
    }
  }

  /** The root does not match exactly when such a tree begins the message and has another root. */
  lemma {:induction false} RootMismatchIff(m: Message, pair: PairHash)
    ensures Check(m, pair) == Rejected(RootMismatch) <==>
      (m.transactions >= 1 && exists t :: Begins(t, m, pair) && Root(t, pair) != m.root)
  {
    hide Shaped, NoTwins, Root, Hashes, Bits, Parse, Unpack, Depth;
    var n, d := m.transactions, Depth(m.transactions);
    if n >= 1 && Unpack(m.flags) != [] {
      NeverRootMismatch(n, pair, d, 0, Unpack(m.flags), m.hashes);
      var p := Parse(n, pair, d, 0, Unpack(m.flags), m.hashes);
      if p.Good? {
        ParsedBegins(m, pair);
      }
    }
    if t :| n >= 1 && Begins(t, m, pair) && Root(t, pair) != m.root {
      BeginningIsParsed(m, pair, t);
    }
  }

  lemma {:induction false} NeverRootMismatch(n: nat, pair: PairHash, h: nat, i: nat, bits: seq<bool>, hashes: seq<Hash>)
    ensures Parse(n, pair, h, i, bits, hashes).Bad? ==>
      Parse(n, pair, h, i, bits, hashes).error in {RanOutOfHashes, RanOutOfBits, DuplicateHash}
    decreases h
  {
    hide Root;
    if h > 0 && hashes != [] && bits != [] && bits[0] {
      var l := Parse(n, pair, h - 1, 2 * i, bits[1..], hashes);
      NeverRootMismatch(n, pair, h - 1, 2 * i, bits[1..], hashes);
      if l.Good? {
        NeverRootMismatch(n, pair, h - 1, 2 * i + 1, l.bits, l.hashes);
      }
    }
  }

  lemma {:induction false} ParsedBegins(m: Message, pair: PairHash)
    requires m.transactions >= 1
    requires Parse(m.transactions, pair, Depth(m.transactions), 0, Unpack(m.flags), m.hashes).Good?
    ensures Begins(Parse(m.transactions, pair, Depth(m.transactions), 0, Unpack(m.flags), m.hashes).tree, m, pair)
  {
    var n, d := m.transactions, Depth(m.transactions);
    hide Shaped, NoTwins, Root, Hashes, Bits, Parse, Unpack, Depth;
    WidthAtDepth(n, d);
    ParseIsSound(n, pair, d, 0, Unpack(m.flags), m.hashes);
  }

  lemma {:induction false} AcceptedBegins(m: Message, pair: PairHash, t: PTree)
    requires Check(m, pair) == Accepted(t)
    ensures Begins(t, m, pair) && Root(t, pair) == m.root
  {
    hide Root, Parse, Unpack, Begins;
    ParsedBegins(m, pair);
  }

  lemma {:induction false} BeginningIsParsed(m: Message, pair: PairHash, t: PTree)
    requires m.transactions >= 1 && Begins(t, m, pair)
    ensures Check(m, pair) == if Root(t, pair) == m.root then Accepted(t) else Rejected(RootMismatch)
  {
    var n, d := m.transactions, Depth(m.transactions);
    hide Shaped, NoTwins, Root, Hashes, Bits, Parse, Unpack, Depth;
    var bits, hashes := Unpack(m.flags)[|Bits(t)|..], m.hashes[|Hashes(t)|..];
    assert Unpack(m.flags) == Bits(t) + bits && m.hashes == Hashes(t) + hashes;
    BitsNonEmpty(t);
    ParseIsComplete(t, n, pair, d, 0, bits, hashes);
  }

  /** A message cut short is refused for what it lacks: with all its flags but not all its hashes it runs
      out of hashes, and with all its hashes and some but not all of its flags it runs out of flags. */
  lemma {:induction false} CutShort(t: PTree, m: Message, pair: PairHash)
    requires m.transactions >= 1 && Shaped(t, m.transactions, Depth(m.transactions), 0) && NoTwins(t, pair)
    ensures m.hashes < Hashes(t) && Bits(t) <= Unpack(m.flags) ==> Check(m, pair) == Rejected(RanOutOfHashes)
    ensures Hashes(t) <= m.hashes && m.flags != [] && Unpack(m.flags) < Bits(t) ==>
      Check(m, pair) == Rejected(RanOutOfBits)
  {
    hide Shaped, NoTwins, Root, Hashes, Bits, Parse, Unpack, Depth;
    var n, d, bits := m.transactions, Depth(m.transactions), Unpack(m.flags);
    BitsNonEmpty(t);
    if m.hashes < Hashes(t) && Bits(t) <= bits {
      assert bits == Bits(t) + bits[|Bits(t)|..];
      OutOfHashes(t, n, pair, d, 0, bits[|Bits(t)|..], m.hashes);
    }
    if Hashes(t) <= m.hashes && bits < Bits(t) {
      assert m.hashes == Hashes(t) + m.hashes[|Hashes(t)|..];
      OutOfBits(t, n, pair, d, 0, bits, m.hashes[|Hashes(t)|..]);
    }
  }

  /** One stack operation: a partial parent in the dead zone, or two filled siblings. */
  datatype StackOp = Nothing | Moved(s: seq<Node>, pos: uint32) | Failed(error: ParseError)

  method Reduce(n: uint32, pair: PairHash, s: seq<Node>, pos: uint32,
                ghost c: Config, ghost bits: seq<bool>, ghost hashes: seq<Hash>, ghost whole: Parsed)
    returns (op: StackOp, ghost c': Config)
    requires Simulates(c, n, pair, s, pos, bits, hashes, whole)
    requires !(|s| == 1 && s[0].h.Some?)
    ensures op.Nothing? ==> c' == c && c.focus.None?
    ensures op.Failed? ==> whole == Bad(op.error)
    ensures op.Moved? ==>
      && Simulates(c', n, pair, op.s, op.pos, bits, hashes, whole)
      && 0 < |op.s| < |s| && op.s[|op.s| - 1].h.Some?
      && c'.FoundSoFar() == c.FoundSoFar()
      && c'.NodesSoFar(n, pair)
         == c.NodesSoFar(n, pair)[op.s[|op.s| - 1].p := op.s[|op.s| - 1].h.value]
  {
    hide Parse, Matched, Nodes, Root, StackOf, Finish, Fill, Pow2, Depth, Width, Dead, RightSibling, Flat;
    hide MatchedAbove, NodesAbove, Shaped, ValidKont;
    var tip := |s| - 1;
    c' := c;
    Classify(c, n, pair, s, pos, bits, hashes, whole);
    var dead := InDeadZone(pos, n);
    if dead {
      var pos' := RightSibling(s[tip - 1].p);
      CombineSingle(c, n, pair, s, pos, pos', bits, hashes, whole);
      var parent := MakeMerkleParent(s[tip].h, None, pair);
      c' := Fill(Config(c.k.up, c.h + 1, c.i / 2, None), Single(c.focus.value), n);
      return Moved(s[..tip - 1] + [Node(s[tip - 1].p, Some(parent.value))], pos'), c';
    }
    if tip > 1 && s[tip - 1].h.Some? && s[tip].h.Some? {
      var pos' := RightSibling(s[tip - 2].p);
      CombineBoth(c, n, pair, s, pos, pos', bits, hashes, whole);
      var parent := MakeMerkleParent(s[tip - 1].h, s[tip].h, pair);
      if parent.Err? {
        return Failed(parent.error), c';
      }
      c' := Fill(Config(c.k.up, c.h + 1, c.i / 2, None), Both(c.k.left, c.focus.value), n);
      return Moved(s[..tip - 2] + [Node(s[tip - 2].p, Some(parent.value))], pos'), c';
    }
    return Nothing, c';
  }

  /** Make the node at the cursor from the next flag and, if it is filled, the next hash. */
  method ReadNode(n: uint32, pair: PairHash, s: seq<Node>, pos: uint32, flag: bool, hashes: seq<Hash>,
                  ghost c: Config, ghost bits: seq<bool>, ghost whole: Parsed)
    returns (node: Node, next: uint32, found: bool, ghost c': Config)
    requires Simulates(c, n, pair, s, pos, bits, hashes, whole)
    requires c.focus.None? && hashes != [] && bits != [] && bits[0] == flag
    ensures Simulates(c', n, pair, s + [node], next, bits[1..],
                      if node.h.Some? then hashes[1..] else hashes, whole)
    ensures node.p == pos && (node.h.Some? ==> node.h.value == hashes[0]) && (found ==> node.h.Some?)
    ensures c'.FoundSoFar() == c.FoundSoFar() + if found then [Found(pos, hashes[0])] else []
    ensures c'.NodesSoFar(n, pair)
         == if node.h.Some? then c.NodesSoFar(n, pair)[pos := hashes[0]] else c.NodesSoFar(n, pair)
  {
    hide Parse, Matched, Nodes, Root, StackOf, Finish, Fill, Pow2, Depth, Width, RightSibling, Parent, LeftChild;
    hide MatchedAbove, NodesAbove, Shaped, ValidKont, HasBit;
    Waiting(c, n, pair, s, pos, bits, hashes, whole);
    var msb := NextPowerOfTwo(n);
    found := false;
    if HasBit(pos, msb) {
      if !flag {
        node := Node(pos, Some(hashes[0]));
        var pos' := if pos % 2 == 1 then Parent(pos, msb) else RightSibling(pos);
        FillPruned(c, n, pair, s, pos, pos', bits, hashes, whole);
        next, c' := pos', Fill(c, Pruned(hashes[0]), n);
      } else {
        node := Node(pos, None);
        Descend(c, n, pair, s, pos, bits, hashes, whole);
        next, c' := LeftChild(pos, msb), Config(InLeft(c.k), c.h - 1, 2 * c.i, None);
      }
    } else {
      assert pos < n;
      node := Node(pos, Some(hashes[0]));
      found := flag;
      var pos' := if pos % 2 == 0 then RightSibling(pos) else pos;
      FillLeaf(c, n, pair, s, pos, pos', bits, hashes, whole);
      next, c' := pos', Fill(c, Leaf(hashes[0], flag), n);
    }
  }

  lemma {:induction false} IdsAppend(found: seq<Found>, more: seq<Found>)
    ensures Ids(found + more) == Ids(found) + Ids(more)
    ensures forall x: Found :: Ids([x]) == [x.id]
    ensures Ids([]) == []
  {
  }

  lemma {:induction false} NothingFound(c: Config)
    requires c.k.Done? && c.focus.None?
    ensures Ids(c.FoundSoFar()) == []
  {
  }

  /** What is left of a message: hashes, flag bytes and the cursor in the first flag byte. */
  datatype Input = Input(hashes: seq<Hash>, flags: seq<byte>, i: nat)
  {
    predicate Valid() {
      i < 8 && (flags == [] ==> i == 0)
    }

    function Bits(): seq<bool>
      requires Valid()
    {
      Remaining(flags, i)
    }
  }

  datatype Reading = Read(node: Node, next: uint32, found: bool, rest: Input) | Short(error: ParseError)

  /** Read one node and advance the flag cursor, or run out of hashes or flags. */
  method ReadNext(n: uint32, pair: PairHash, s: seq<Node>, pos: uint32, input: Input,
                  ghost c: Config, ghost whole: Parsed)
    returns (reading: Reading, ghost c': Config)
    requires input.Valid() && c.focus.None?
    requires Simulates(c, n, pair, s, pos, input.Bits(), input.hashes, whole)
    ensures reading.Short? ==> whole == Bad(reading.error)
    ensures reading.Read? ==>
      && var rest := reading.rest;
      && rest.Valid() && 8 * |rest.flags| - rest.i < 8 * |input.flags| - input.i
      && Simulates(c', n, pair, s + [reading.node], reading.next, rest.Bits(), rest.hashes, whole)
      && (reading.found ==> reading.node.h.Some?)
      && Ids(c'.FoundSoFar()) == Ids(c.FoundSoFar()) + if reading.found then [reading.node.h.value] else []
  {
    hide Parse, Unpack, Remaining, Simulates, Bit, Ids, Config.FoundSoFar;
    c' := c;
    NoFlagsLeft();
    AtEnd(c, n, pair, s, pos, input.Bits(), input.hashes, whole);
    if input.hashes == [] {
      return Short(RanOutOfHashes), c';
    }
    if input.flags == [] {
      return Short(RanOutOfBits), c';
    }
    var Input(hashes, flags, i) := input;
    NextFlag(flags, i);
    var node, next, found;
    node, next, found, c' := ReadNode(n, pair, s, pos, Bit(flags[0], i), hashes, c, input.Bits(), whole);
    IdsAppend(c.FoundSoFar(), if found then [Found(pos, hashes[0])] else []);
    reading := Read(node, next, found,
      Input(if node.h.Some? then hashes[1..] else hashes, if i == 7 then flags[1..] else flags, if i == 7 then 0 else i + 1));
  }

  /** The loop of the source, on stack, position, flag bytes with a bit cursor, and hashes.
      It decides exactly as the recursive parser does, for every message; in particular it
      never answers LeftChildNil and never meets a leaf position outside the block. */
  method CheckMerkleBlock(m: Message, pair: PairHash) returns (res: Result<seq<Hash>>)
    requires m.transactions <= MAX_TXS
    ensures res == Answer(Check(m, pair))
  {
    if m.transactions == 0 {
      return Err(NoTransactions);
    }
    if m.flags == [] {
      return Err(NoFlags);
    }
    hide Parse, Unpack, Remaining, Matched, Root, Simulates, Pow2, Depth, Ids, Config.FoundSoFar;
    ghost var n := m.transactions;
    ghost var whole := Parse(n, pair, Depth(n), 0, Unpack(m.flags), m.hashes);
    var s: seq<Node> := [];
    var r: seq<Hash> := [];
    var input := Input(m.hashes, m.flags, 0);
    var msb := NextPowerOfTwo(m.transactions);
    var pos := Sub(Shl(msb, 1), 2);
    ghost var c := Config(Done, Depth(n), 0, None);
    NothingFound(c);
    DepthAtMost31(n);
    TopPosition(Depth(n));
    AllRemains(m.flags);
    Start(n, pair, Unpack(m.flags), m.hashes);
    while true
      invariant input.Valid()
      invariant Simulates(c, n, pair, s, pos, input.Bits(), input.hashes, whole)
      invariant r == Ids(c.FoundSoFar())
      decreases 8 * |input.flags| - input.i, |s|
    {
      IsDone(c, n, pair, s, pos, input.Bits(), input.hashes, whole);
      if |s| == 1 && s[0].h.Some? {
        Conclude(c, n, pair, s, pos, input.Bits(), input.hashes, whole);
        if s[0].h.value == m.root {
          return Ok(r);
        }
        return Err(RootMismatch);
      }
      var op;
      op, c := Reduce(m.transactions, pair, s, pos, c, input.Bits(), input.hashes, whole);
      if op.Failed? {
        return Err(op.error);
      }
      if op.Moved? {
        s, pos := op.s, op.pos;
        continue;
      }
      var reading;
      reading, c := ReadNext(m.transactions, pair, s, pos, input, c, whole);
      if reading.Short? {
        return Err(reading.error);
      }
      if reading.found {
        r := r + [reading.node.h.value];
      }
      s, pos, input := s + [reading.node], reading.next, reading.rest;
    }
  }
}
