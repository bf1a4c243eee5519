/** The explicit-stack parser for partial Merkle trees, as a machine over
    (stack, position, flag bits, hashes), and its simulation of the recursive parser. */
module StackParser {
  import opened MerkleTree
  import opened PartialTree
  import opened Position
  import opened Word32
  import opened Wrappers

  datatype Result<+T> = Ok(value: T) | Err(error: ParseError)

  /** A stack entry: a position and, once known, the hash of the node there. */
  datatype Node = Node(p: nat, h: Option<Hash>)

  function MakeMerkleParent(left: Option<Hash>, right: Option<Hash>, pair: PairHash): Result<Hash> {
    if left.Some? && right.Some? && left == right then Err(DuplicateHash)
    else if left.None? then Err(LeftChildNil)
    else Ok(pair(left.value, if right.None? then left.value else right.value))
  }

  // ----- what the stack stands for -----

  /** The unfinished work above a node: which side of its parent it is on and, on the
      right side, the finished left sibling. */
  datatype Kont = Done | InLeft(up: Kont) | InRight(left: PTree, up: Kont)

  predicate ValidKont(k: Kont, n: nat, h: nat, i: nat) {
    i < Width(n, h) && h <= Depth(n) &&
    match k
    case Done => h == Depth(n)
    case InLeft(up) => h < Depth(n) && i % 2 == 0 && ValidKont(up, n, h + 1, i / 2)
    case InRight(left, up) =>
      h < Depth(n) && i % 2 == 1 && Shaped(left, n, h, i - 1) && ValidKont(up, n, h + 1, i / 2)
  }

  function StackOf(k: Kont, n: nat, pair: PairHash, h: nat, i: nat): (s: seq<Node>)
    requires ValidKont(k, n, h, i)
    ensures k.Done? <==> s == []
    ensures k.InLeft? ==> s[|s| - 1].h == None
    ensures k.InRight? ==> |s| >= 2 && s[|s| - 1].h.Some? && s[|s| - 2].h == None
  {
    match k
    case Done => []
    case InLeft(up) =>
      StackOf(up, n, pair, h + 1, i / 2) + [Node(Flat(Depth(n), h + 1, i / 2), None)]
    case InRight(left, up) =>
      StackOf(up, n, pair, h + 1, i / 2)
      + [Node(Flat(Depth(n), h + 1, i / 2), None), Node(Flat(Depth(n), h, i - 1), Some(Root(left, pair)))]
  }

  /** The outcome of the whole parse, given the outcome r for the node below k. */
  function Finish(k: Kont, n: nat, pair: PairHash, h: nat, i: nat, r: Parsed): Parsed
    requires ValidKont(k, n, h, i)
  {
    if k.Done? || r.Bad? then r
    else
      match k
      case InLeft(up) =>
        Finish(up, n, pair, h + 1, i / 2,
          if i + 1 < Width(n, h) then JoinRight(r.tree, Parse(n, pair, h, i + 1, r.bits, r.hashes), pair)
          else Good(Single(r.tree), r.bits, r.hashes))
      case InRight(left, up) =>
        Finish(up, n, pair, h + 1, i / 2, JoinRight(left, r, pair))
  }

  function MatchedAbove(k: Kont, i: nat): seq<Found> {
    match k
    case Done => []
    case InLeft(up) => MatchedAbove(up, i / 2)
    case InRight(left, up) => MatchedAbove(up, i / 2) + Matched(left, if i > 0 then i - 1 else 0)
  }

  /** Hashes of all nodes of a partial tree, by flat position. */
  function Nodes(t: PTree, d: nat, pair: PairHash, h: nat, i: nat): map<nat, Hash>
    requires h <= d
    decreases t
  {
    match t
    case Pruned(hash) => map[Flat(d, h, i) := hash]
    case Leaf(hash, _) => map[Flat(d, h, i) := hash]
    case Single(left) =>
      if h == 0 then map[] else Nodes(left, d, pair, h - 1, 2 * i)[Flat(d, h, i) := Root(t, pair)]
    case Both(left, right) =>
      if h == 0 then map[]
      else (Nodes(left, d, pair, h - 1, 2 * i) + Nodes(right, d, pair, h - 1, 2 * i + 1))
           [Flat(d, h, i) := Root(t, pair)]
  }

  function NodesAbove(k: Kont, n: nat, pair: PairHash, h: nat, i: nat): map<nat, Hash>
    requires ValidKont(k, n, h, i)
  {
    match k
    case Done => map[]
    case InLeft(up) => NodesAbove(up, n, pair, h + 1, i / 2)
    case InRight(left, up) =>
      NodesAbove(up, n, pair, h + 1, i / 2) + Nodes(left, Depth(n), pair, h, i - 1)
  }

  /** A machine state in the abstract: at node (h, i) under k, about to parse the node
      (focus is None) or just done with it. */
  datatype Config = Config(k: Kont, h: nat, i: nat, focus: Option<PTree>)
  {
    predicate Valid(n: nat) {
      && ValidKont(k, n, h, i)
      && (focus.Some? ==> Shaped(focus.value, n, h, i))
    }

    function Stack(n: nat, pair: PairHash): seq<Node>
      requires Valid(n)
    {
      StackOf(k, n, pair, h, i)
      + if focus.None? then [] else [Node(Flat(Depth(n), h, i), Some(Root(focus.value, pair)))]
    }

    /** The outcome of the run from here on. */
    function Outcome(n: nat, pair: PairHash, bits: seq<bool>, hashes: seq<Hash>): Parsed
      requires Valid(n)
    {
      Finish(k, n, pair, h, i,
        if focus.None? then Parse(n, pair, h, i, bits, hashes) else Good(focus.value, bits, hashes))
    }

    function FoundSoFar(): seq<Found> {
      MatchedAbove(k, i) + if focus.None? then [] else Matched(focus.value, i)
    }

    function NodesSoFar(n: nat, pair: PairHash): map<nat, Hash>
      requires Valid(n)
    {
      NodesAbove(k, n, pair, h, i)
      + if focus.None? then map[] else Nodes(focus.value, Depth(n), pair, h, i)
    }

    /** A finished left node whose right sibling exists hands over to that sibling. */
    predicate Settled(n: nat) {
      focus.Some? && k.InLeft? ==> i + 1 >= Width(n, h)
    }

    /** Where the machine's cursor stands. */
    predicate At(n: nat, pos: nat)
      requires Valid(n)
    {
      var here := Flat(Depth(n), h, i);
      if focus.None? then pos == here
      else if i % 2 == 0 then pos == here + 1
      else pos == here || (h < Depth(n) && pos == Flat(Depth(n), h + 1, i / 2))
    }
  }

  /** The machine state (s, pos, bits, hashes) stands for c, and the run ends in `whole`. */
  predicate Simulates(c: Config, n: nat, pair: PairHash, s: seq<Node>, pos: nat,
                      bits: seq<bool>, hashes: seq<Hash>, whole: Parsed) {
    && 1 <= n <= MAX_TXS
    && c.Valid(n) && c.Settled(n) && c.At(n, pos)
    && s == c.Stack(n, pair)
    && c.Outcome(n, pair, bits, hashes) == whole
    && pos < WORD
  }

  /** The start: an empty stack at the root. */
  lemma {:induction false} Start(n: nat, pair: PairHash, bits: seq<bool>, hashes: seq<Hash>)
    requires 1 <= n <= MAX_TXS
    ensures Pow2(Depth(n) + 1) - 2 < WORD
    ensures Simulates(Config(Done, Depth(n), 0, None), n, pair, [], Pow2(Depth(n) + 1) - 2, bits, hashes,
                      Parse(n, pair, Depth(n), 0, bits, hashes))
  {
    WidthAtDepth(n, Depth(n));
    RootPosition(Depth(n));
    DepthAtMost31(n);
    ShlOne(Depth(n));
  }

  /** Stack and cursor reveal which of the four kinds of state the machine is in. */
  lemma {:induction false} Classify(c: Config, n: nat, pair: PairHash, s: seq<Node>, pos: nat,
                 bits: seq<bool>, hashes: seq<Hash>, whole: Parsed)
    requires Simulates(c, n, pair, s, pos, bits, hashes, whole)
    ensures |s| == 1 && s[0].h.Some? <==> c.focus.Some? && c.k.Done?
    ensures !(c.focus.Some? && c.k.Done?) ==> (Dead(n, pos) <==> c.focus.Some? && c.k.InLeft?)
    ensures |s| > 2 && s[|s| - 2].h.Some? && s[|s| - 1].h.Some? <==> c.focus.Some? && c.k.InRight?
    ensures c.focus.Some? && c.k.InLeft? ==> |s| > 1 && s[|s| - 1].h.Some?
  {
    hide StackOf, Finish, Parse, Dead;
    if !(c.focus.Some? && c.k.Done?) {
      CursorIsLive(c, n, pos);
    }
  }

  /** The cursor is dead exactly after a finished left node without a right sibling. */
  lemma {:induction false} CursorIsLive(c: Config, n: nat, pos: nat)
    requires n >= 1 && c.Valid(n) && c.Settled(n) && c.At(n, pos)
    requires !(c.focus.Some? && c.k.Done?)
    ensures Dead(n, pos) <==> c.focus.Some? && c.k.InLeft?
  {
    hide Dead, Flat, Shaped;
    var d := Depth(n);
    WidthFits(n, c.h);
    DeadIffBeyondWidth(n, c.h, c.i);
    if c.focus.Some? {
      WidthFits(n, c.h + 1);
      DeadIffBeyondWidth(n, c.h + 1, c.i / 2);
      if c.k.InLeft? {
        assert Pow2(d - c.h) == 2 * Pow2(d - c.h - 1);
        DeadIffBeyondWidth(n, c.h, c.i + 1);
        FlatNext(d, c.h, c.i);
      }
    }
  }

  lemma {:induction false} FlatNext(d: nat, h: nat, i: nat)
    requires h <= d
    ensures Flat(d, h, i) + 1 == Flat(d, h, i + 1)
  {
  }

  // ----- the moves of the machine -----

  /** Finish the node in focus with tree t; a live right sibling takes over if there is one. */
  function Fill(c: Config, t: PTree, n: nat): Config {
    if c.k.InLeft? && c.i + 1 < Width(n, c.h) then Config(InRight(t, c.k.up), c.h, c.i + 1, None)
    else Config(c.k, c.h, c.i, Some(t))
  }

  lemma {:induction false} FillIsValid(c: Config, t: PTree, n: nat)
    requires c.Valid(n) && Shaped(t, n, c.h, c.i)
    ensures Fill(c, t, n).Valid(n) && Fill(c, t, n).Settled(n)
  {
  }

  lemma {:induction false} FillSimulates(c: Config, t: PTree, n: nat, pair: PairHash, pos: nat,
                      bits: seq<bool>, hashes: seq<Hash>, whole: Parsed)
    requires 1 <= n <= MAX_TXS && c.Valid(n) && Shaped(t, n, c.h, c.i)
    requires Config(c.k, c.h, c.i, Some(t)).At(n, pos)
    requires Finish(c.k, n, pair, c.h, c.i, Good(t, bits, hashes)) == whole
    ensures Simulates(Fill(c, t, n), n, pair,
      StackOf(c.k, n, pair, c.h, c.i) + [Node(Flat(Depth(n), c.h, c.i), Some(Root(t, pair)))],
      pos, bits, hashes, whole)
    ensures Fill(c, t, n).FoundSoFar() == MatchedAbove(c.k, c.i) + Matched(t, c.i)
    ensures Fill(c, t, n).NodesSoFar(n, pair)
         == NodesAbove(c.k, n, pair, c.h, c.i) + Nodes(t, Depth(n), pair, c.h, c.i)
  {
    FillIsValid(c, t, n);
    PositionInWord(c, t, n, pos);
    FillStack(c, t, n, pair);
    FillLog(c, t, n, pair);
    FillOutcome(c, t, n, pair, pos, bits, hashes);
  }

  lemma {:induction false} FillOutcome(c: Config, t: PTree, n: nat, pair: PairHash, pos: nat, bits: seq<bool>, hashes: seq<Hash>)
    requires c.Valid(n) && Shaped(t, n, c.h, c.i) && Fill(c, t, n).Valid(n)
    requires Config(c.k, c.h, c.i, Some(t)).At(n, pos)
    ensures Fill(c, t, n).At(n, pos)
    ensures Fill(c, t, n).Outcome(n, pair, bits, hashes)
         == Finish(c.k, n, pair, c.h, c.i, Good(t, bits, hashes))
  {
    if c.k.InLeft? && c.i + 1 < Width(n, c.h) {
      assert (c.i + 1) / 2 == c.i / 2;
      if Parse(n, pair, c.h, c.i + 1, bits, hashes).Good? {
      } else {
      }
    }
  }

  lemma {:induction false} FillStack(c: Config, t: PTree, n: nat, pair: PairHash)
    requires c.Valid(n) && Shaped(t, n, c.h, c.i) && Fill(c, t, n).Valid(n)
    ensures Fill(c, t, n).Stack(n, pair)
         == StackOf(c.k, n, pair, c.h, c.i) + [Node(Flat(Depth(n), c.h, c.i), Some(Root(t, pair)))]
  {
    if c.k.InLeft? && c.i + 1 < Width(n, c.h) {
      assert (c.i + 1) / 2 == c.i / 2;
      var above := StackOf(c.k.up, n, pair, c.h + 1, c.i / 2);
      var a, b := Node(Flat(Depth(n), c.h + 1, c.i / 2), None), Node(Flat(Depth(n), c.h, c.i), Some(Root(t, pair)));
      assert above + [a] + [b] == above + [a, b];
    }
  }

  lemma {:induction false} FillLog(c: Config, t: PTree, n: nat, pair: PairHash)
    requires c.Valid(n) && Shaped(t, n, c.h, c.i) && Fill(c, t, n).Valid(n)
    ensures Fill(c, t, n).FoundSoFar() == MatchedAbove(c.k, c.i) + Matched(t, c.i)
    ensures Fill(c, t, n).NodesSoFar(n, pair)
         == NodesAbove(c.k, n, pair, c.h, c.i) + Nodes(t, Depth(n), pair, c.h, c.i)
  {
    if c.k.InLeft? && c.i + 1 < Width(n, c.h) {
      assert (c.i + 1) / 2 == c.i / 2;
    }
  }

  lemma {:induction false} PositionInWord(c: Config, t: PTree, n: nat, pos: nat)
    requires 1 <= n <= MAX_TXS && c.Valid(n) && Shaped(t, n, c.h, c.i)
    requires Config(c.k, c.h, c.i, Some(t)).At(n, pos)
    ensures pos < WORD
  {
    var d := Depth(n);
    DepthAtMost31(n);
    ShlOne(d);
    WidthFits(n, c.h);
    FlatBelow(d, c.h, c.i);
    if c.h < d {
      WidthFits(n, c.h + 1);
      FlatBelow(d, c.h + 1, c.i / 2);
    }
  }

  /** A flag of 1 above the leaves: push an empty node and go to the left child. */
  lemma {:induction false} Descend(c: Config, n: nat, pair: PairHash, s: seq<Node>, pos: nat,
                bits: seq<bool>, hashes: seq<Hash>, whole: Parsed)
    requires Simulates(c, n, pair, s, pos, bits, hashes, whole)
    requires c.focus.None? && c.h > 0 && hashes != [] && bits != [] && bits[0]
    ensures var c' := Config(InLeft(c.k), c.h - 1, 2 * c.i, None);
      && Simulates(c', n, pair, s + [Node(pos, None)], LeftChild(pos, Pow2(Depth(n))), bits[1..], hashes, whole)
      && c'.FoundSoFar() == c.FoundSoFar() && c'.NodesSoFar(n, pair) == c.NodesSoFar(n, pair)
  {
    hide StackOf, Finish, Parse, NodesAbove, MatchedAbove, Flat, LeftChild, Pow2, Depth, Width, HasBit, Shaped, ValidKont;
    ValidBounds(c, n);
    WidthFits(n, c.h);
    DepthAtMost31(n);
    LeftChildOf(Depth(n), c.h, c.i);
    DescendOutcome(c, n, pair, bits, hashes);
  }

  lemma {:induction false} ValidBounds(c: Config, n: nat)
    requires c.Valid(n)
    ensures c.h <= Depth(n) && c.i < Width(n, c.h)
  {
  }

  lemma {:induction false} DescendOutcome(c: Config, n: nat, pair: PairHash, bits: seq<bool>, hashes: seq<Hash>)
    requires c.Valid(n) && c.focus.None? && c.h > 0 && hashes != [] && bits != [] && bits[0]
    ensures var c' := Config(InLeft(c.k), c.h - 1, 2 * c.i, None);
      && c'.Valid(n)
      && c'.Stack(n, pair) == c.Stack(n, pair) + [Node(Flat(Depth(n), c.h, c.i), None)]
      && c'.Outcome(n, pair, bits[1..], hashes) == c.Outcome(n, pair, bits, hashes)
      && c'.FoundSoFar() == c.FoundSoFar() && c'.NodesSoFar(n, pair) == c.NodesSoFar(n, pair)
  {
    assert (2 * c.i) / 2 == c.i;
  }

  /** A flag of 0 above the leaves: the node is filled from the message. */
  lemma {:induction false} FillPruned(c: Config, n: nat, pair: PairHash, s: seq<Node>, pos: nat, pos': nat,
                   bits: seq<bool>, hashes: seq<Hash>, whole: Parsed)
    requires Simulates(c, n, pair, s, pos, bits, hashes, whole)
    requires c.focus.None? && c.h > 0 && hashes != [] && bits != [] && !bits[0]
    requires pos' == if pos % 2 == 1 then Parent(pos, Pow2(Depth(n))) else RightSibling(pos)
    ensures var c' := Fill(c, Pruned(hashes[0]), n);
      && Simulates(c', n, pair, s + [Node(pos, Some(hashes[0]))], pos', bits[1..], hashes[1..], whole)
      && c'.FoundSoFar() == c.FoundSoFar()
      && c'.NodesSoFar(n, pair) == c.NodesSoFar(n, pair)[pos := hashes[0]]
  {
    hide StackOf, Finish, Parse, NodesAbove, MatchedAbove, Flat, Parent, RightSibling, Fill;
    WidthFits(n, c.h);
    FlatBelow(Depth(n), c.h, c.i);
    RightSiblingOf(pos);
    ParseOuter(n, pair, c.h, c.i, bits, hashes);
    if c.i % 2 == 1 {
      assert c.h < Depth(n) by { WidthAtDepth(n, Depth(n)); }
      ParentOf(Depth(n), c.h, c.i);
    }
    FillSimulates(c, Pruned(hashes[0]), n, pair, pos', bits[1..], hashes[1..], whole);
  }

  /** At the bottom row the flag says whether the transaction is of interest. */
  lemma {:induction false} FillLeaf(c: Config, n: nat, pair: PairHash, s: seq<Node>, pos: nat, pos': nat,
                 bits: seq<bool>, hashes: seq<Hash>, whole: Parsed)
    requires Simulates(c, n, pair, s, pos, bits, hashes, whole)
    requires c.focus.None? && c.h == 0 && hashes != [] && bits != []
    requires pos' == if pos % 2 == 0 then RightSibling(pos) else pos
    ensures var c' := Fill(c, Leaf(hashes[0], bits[0]), n);
      && Simulates(c', n, pair, s + [Node(pos, Some(hashes[0]))], pos', bits[1..], hashes[1..], whole)
      && c'.FoundSoFar() == c.FoundSoFar() + (if bits[0] then [Found(c.i, hashes[0])] else [])
      && c'.NodesSoFar(n, pair) == c.NodesSoFar(n, pair)[pos := hashes[0]]
  {
    hide StackOf, Finish, Parse, NodesAbove, MatchedAbove, Flat, RightSibling, Fill;
    WidthFits(n, 0);
    FlatBelow(Depth(n), 0, c.i);
    RightSiblingOf(pos);
    ParseOuter(n, pair, 0, c.i, bits, hashes);
    FillSimulates(c, Leaf(hashes[0], bits[0]), n, pair, pos', bits[1..], hashes[1..], whole);
  }

  /** The cursor is in the dead zone: the parent has a left child only. */
  lemma {:induction false} CombineSingle(c: Config, n: nat, pair: PairHash, s: seq<Node>, pos: nat, pos': nat,
                      bits: seq<bool>, hashes: seq<Hash>, whole: Parsed)
    requires Simulates(c, n, pair, s, pos, bits, hashes, whole)
    requires c.focus.Some? && c.k.InLeft?
    requires |s| >= 2 ==> pos' == RightSibling(s[|s| - 2].p)
    ensures |s| >= 2 && s[|s| - 1].h.Some?
    ensures var hash := pair(s[|s| - 1].h.value, s[|s| - 1].h.value);
      var c' := Fill(Config(c.k.up, c.h + 1, c.i / 2, None), Single(c.focus.value), n);
      && Simulates(c', n, pair, s[..|s| - 2] + [Node(s[|s| - 2].p, Some(hash))], pos', bits, hashes, whole)
      && c'.FoundSoFar() == c.FoundSoFar()
      && c'.NodesSoFar(n, pair) == c.NodesSoFar(n, pair)[s[|s| - 2].p := hash]
  {
    hide StackOf, Finish, Parse, Nodes, NodesAbove, MatchedAbove, Matched, Flat, RightSibling, Fill;
    SingleShape(c, n, pair);
    SingleOutcome(c.k, c.focus.value, n, pair, c.h, c.i, bits, hashes);
    WidthFits(n, c.h + 1);
    FlatBelow(Depth(n), c.h + 1, c.i / 2);
    RightSiblingOf(s[|s| - 2].p);
    FillSimulates(Config(c.k.up, c.h + 1, c.i / 2, None), Single(c.focus.value), n, pair, pos', bits, hashes, whole);
    SingleLog(c.k, c.focus.value, n, pair, c.h, c.i);
  }

  lemma {:induction false} SingleShape(c: Config, n: nat, pair: PairHash)
    requires c.Valid(n) && c.Settled(n) && c.focus.Some? && c.k.InLeft?
    ensures Shaped(Single(c.focus.value), n, c.h + 1, c.i / 2)
    ensures var s := c.Stack(n, pair);
      && |s| >= 2 && s[..|s| - 2] == StackOf(c.k.up, n, pair, c.h + 1, c.i / 2)
      && s[|s| - 2].p == Flat(Depth(n), c.h + 1, c.i / 2)
      && s[|s| - 1].h == Some(Root(c.focus.value, pair))
  {
    var above := StackOf(c.k.up, n, pair, c.h + 1, c.i / 2);
    assert c.Stack(n, pair) == above + [Node(Flat(Depth(n), c.h + 1, c.i / 2), None),
                                        Node(Flat(Depth(n), c.h, c.i), Some(Root(c.focus.value, pair)))];
  }

  lemma {:induction false} SingleOutcome(k: Kont, t: PTree, n: nat, pair: PairHash, h: nat, i: nat,
                      bits: seq<bool>, hashes: seq<Hash>)
    requires k.InLeft? && ValidKont(k, n, h, i) && i + 1 >= Width(n, h)
    ensures Finish(k, n, pair, h, i, Good(t, bits, hashes))
         == Finish(k.up, n, pair, h + 1, i / 2, Good(Single(t), bits, hashes))
  {
  }

  lemma {:induction false} SingleLog(k: Kont, t: PTree, n: nat, pair: PairHash, h: nat, i: nat)
    requires k.InLeft? && ValidKont(k, n, h, i)
    ensures MatchedAbove(k, i) + Matched(t, i) == MatchedAbove(k.up, i / 2) + Matched(Single(t), i / 2)
    ensures (NodesAbove(k, n, pair, h, i) + Nodes(t, Depth(n), pair, h, i))
            [Flat(Depth(n), h + 1, i / 2) := Root(Single(t), pair)]
         == NodesAbove(k.up, n, pair, h + 1, i / 2) + Nodes(Single(t), Depth(n), pair, h + 1, i / 2)
  {
    assert 2 * (i / 2) == i;
  }

  /** Two filled siblings on top of the stack: equal hashes end the run, others combine. */
  lemma {:induction false} CombineBoth(c: Config, n: nat, pair: PairHash, s: seq<Node>, pos: nat, pos': nat,
                    bits: seq<bool>, hashes: seq<Hash>, whole: Parsed)
    requires Simulates(c, n, pair, s, pos, bits, hashes, whole)
    requires c.focus.Some? && c.k.InRight?
    requires |s| >= 3 ==> pos' == RightSibling(s[|s| - 3].p)
    ensures |s| >= 3 && s[|s| - 1].h.Some? && s[|s| - 2].h.Some?
    ensures s[|s| - 1].h == s[|s| - 2].h ==> whole == Bad(DuplicateHash)
    ensures s[|s| - 1].h != s[|s| - 2].h ==>
      var hash := pair(s[|s| - 2].h.value, s[|s| - 1].h.value);
      var c' := Fill(Config(c.k.up, c.h + 1, c.i / 2, None), Both(c.k.left, c.focus.value), n);
      && Simulates(c', n, pair, s[..|s| - 3] + [Node(s[|s| - 3].p, Some(hash))], pos', bits, hashes, whole)
      && c'.FoundSoFar() == c.FoundSoFar()
      && c'.NodesSoFar(n, pair) == c.NodesSoFar(n, pair)[s[|s| - 3].p := hash]
  {
    hide StackOf, Finish, Parse, Nodes, NodesAbove, MatchedAbove, Matched, Flat, RightSibling, Fill;
    var t := Both(c.k.left, c.focus.value);
    BothShape(c, n, pair);
    BothOutcome(c.k, c.focus.value, n, pair, c.h, c.i, bits, hashes);
    WidthFits(n, c.h + 1);
    FlatBelow(Depth(n), c.h + 1, c.i / 2);
    RightSiblingOf(s[|s| - 3].p);
    if s[|s| - 1].h != s[|s| - 2].h {
      FillSimulates(Config(c.k.up, c.h + 1, c.i / 2, None), t, n, pair, pos', bits, hashes, whole);
      BothLog(c.k, c.focus.value, n, pair, c.h, c.i);
    }
  }

  lemma {:induction false} BothShape(c: Config, n: nat, pair: PairHash)
    requires c.Valid(n) && c.focus.Some? && c.k.InRight?
    ensures Shaped(Both(c.k.left, c.focus.value), n, c.h + 1, c.i / 2)
    ensures var s := c.Stack(n, pair);
      && |s| >= 3 && s[..|s| - 3] == StackOf(c.k.up, n, pair, c.h + 1, c.i / 2)
      && s[|s| - 3].p == Flat(Depth(n), c.h + 1, c.i / 2)
      && s[|s| - 2].h == Some(Root(c.k.left, pair)) && s[|s| - 1].h == Some(Root(c.focus.value, pair))
  {
    var above := StackOf(c.k.up, n, pair, c.h + 1, c.i / 2);
    assert c.Stack(n, pair) == above + [Node(Flat(Depth(n), c.h + 1, c.i / 2), None),
                         Node(Flat(Depth(n), c.h, c.i - 1), Some(Root(c.k.left, pair))),
                         Node(Flat(Depth(n), c.h, c.i), Some(Root(c.focus.value, pair)))];
  }

  lemma {:induction false} BothOutcome(k: Kont, t: PTree, n: nat, pair: PairHash, h: nat, i: nat,
                    bits: seq<bool>, hashes: seq<Hash>)
    requires k.InRight? && ValidKont(k, n, h, i)
    ensures Finish(k, n, pair, h, i, Good(t, bits, hashes))
         == if Root(k.left, pair) == Root(t, pair) then Bad(DuplicateHash)
            else Finish(k.up, n, pair, h + 1, i / 2, Good(Both(k.left, t), bits, hashes))
  {
  }

  lemma {:induction false} BothLog(k: Kont, t: PTree, n: nat, pair: PairHash, h: nat, i: nat)
    requires k.InRight? && ValidKont(k, n, h, i)
    ensures MatchedAbove(k, i) + Matched(t, i) == MatchedAbove(k.up, i / 2) + Matched(Both(k.left, t), i / 2)
    ensures (NodesAbove(k, n, pair, h, i) + Nodes(t, Depth(n), pair, h, i))
            [Flat(Depth(n), h + 1, i / 2) := Root(Both(k.left, t), pair)]
         == NodesAbove(k.up, n, pair, h + 1, i / 2) + Nodes(Both(k.left, t), Depth(n), pair, h + 1, i / 2)
  {
    assert 2 * (i / 2) == i - 1;
  }

  // ----- what a run may conclude -----

  /** A single filled entry is the root: the parse is over. */
  lemma {:induction false} Conclude(c: Config, n: nat, pair: PairHash, s: seq<Node>, pos: nat,
                 bits: seq<bool>, hashes: seq<Hash>, whole: Parsed)
    requires Simulates(c, n, pair, s, pos, bits, hashes, whole)
    requires c.focus.Some? && c.k.Done?
    ensures whole == Good(c.focus.value, bits, hashes)
    ensures |s| == 1 && s[0].h == Some(Root(c.focus.value, pair))
    ensures c.FoundSoFar() == Matched(c.focus.value, 0)
    ensures c.NodesSoFar(n, pair) == Nodes(c.focus.value, Depth(n), pair, Depth(n), 0)
  {
    WidthAtDepth(n, Depth(n));
    assert c.i == 0;
  }

  /** Otherwise, when no stack operation applies, a node is about to be read. */
  lemma {:induction false} Waiting(c: Config, n: nat, pair: PairHash, s: seq<Node>, pos: nat,
                bits: seq<bool>, hashes: seq<Hash>, whole: Parsed)
    requires Simulates(c, n, pair, s, pos, bits, hashes, whole)
    requires !(c.focus.Some? && (c.k.Done? || c.k.InLeft? || c.k.InRight?))
    ensures c.focus.None?
    ensures HasBit(pos, Pow2(Depth(n))) <==> c.h > 0
    ensures c.h == 0 ==> pos == c.i < n
    ensures hashes == [] ==> whole == Bad(RanOutOfHashes)
    ensures hashes != [] && bits == [] ==> whole == Bad(RanOutOfBits)
  {
    hide StackOf, Finish, Parse, Pow2, HasBit;
    ValidBounds(c, n);
    WidthFits(n, c.h);
    DepthAtMost31(n);
    if c.h > 0 {
      LeftChildOf(Depth(n), c.h, c.i);
    } else {
      LeavesLackTopBit(Depth(n), c.i);
    }
    if hashes == [] || bits == [] {
      ParseOuter(n, pair, c.h, c.i, bits, hashes);
      FinishBad(c.k, n, pair, c.h, c.i, Parse(n, pair, c.h, c.i, bits, hashes));
    }
  }

  lemma {:induction false} AtEnd(c: Config, n: nat, pair: PairHash, s: seq<Node>, pos: nat,
              bits: seq<bool>, hashes: seq<Hash>, whole: Parsed)
    requires Simulates(c, n, pair, s, pos, bits, hashes, whole) && c.focus.None?
    ensures hashes == [] ==> whole == Bad(RanOutOfHashes)
    ensures hashes != [] && bits == [] ==> whole == Bad(RanOutOfBits)
  {
    hide Parse, StackOf, Finish;
    Waiting(c, n, pair, s, pos, bits, hashes, whole);
  }

  lemma {:induction false} IsDone(c: Config, n: nat, pair: PairHash, s: seq<Node>, pos: nat,
               bits: seq<bool>, hashes: seq<Hash>, whole: Parsed)
    requires Simulates(c, n, pair, s, pos, bits, hashes, whole)
    ensures |s| == 1 && s[0].h.Some? <==> c.focus.Some? && c.k.Done?
  {
    hide Parse, StackOf, Finish;
    Classify(c, n, pair, s, pos, bits, hashes, whole);
  }

  lemma {:induction false} FinishBad(k: Kont, n: nat, pair: PairHash, h: nat, i: nat, r: Parsed)
    requires ValidKont(k, n, h, i) && r.Bad?
    ensures Finish(k, n, pair, h, i, r) == r
  {
  }
}
