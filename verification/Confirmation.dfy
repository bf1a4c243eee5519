/** Consensus-mode records (interface/store/arbiters.go) and the confirmation of proposals by
    blocks made in DPOS mode (interface/store/customid.go). */
module Confirmation {
  import opened Word32
  import opened Wrappers
  import opened HeightList

  const DPOS: nat := 0

  const DEFAULT_CONFIRMATIONS: uint32 := 6

  datatype RevertInfo = RevertInfo(workingHeight: uint32, mode: nat)

  function HeightOf(r: RevertInfo): uint32 { r.workingHeight }

  // ----- the segments between records -----

  /** Segment i runs from record i - 1 to record i; the first one starts at height 0 in mode 0, the
      last one never ends. */
  function Start(info: seq<RevertInfo>, i: nat): uint32
    requires i <= |info|
  {
    if i == 0 then 0 else info[i - 1].workingHeight
  }

  function ModeIn(info: seq<RevertInfo>, i: nat): nat
    requires i <= |info|
  {
    if i == 0 then 0 else info[i - 1].mode
  }

  function Min(a: uint32, b: uint32): uint32 { if a < b then a else b }

  function Max(a: uint32, b: uint32): uint32 { if a < b then b else a }

  function EndBy(info: seq<RevertInfo>, i: nat, current: uint32): uint32
    requires i <= |info|
  {
    if i == |info| then current else Min(current, info[i].workingHeight)
  }

  /** Segment i is a DPOS segment that shares at least six heights with (proposal, current]. */
  predicate Confirms(info: seq<RevertInfo>, i: nat, current: uint32, proposal: uint32)
    requires i <= |info|
  {
    ModeIn(info, i) == DPOS && EndBy(info, i, current) >= Max(Start(info, i), proposal) + DEFAULT_CONFIRMATIONS
  }

  predicate Confirmed(info: seq<RevertInfo>, current: uint32, proposal: uint32) {
    exists i: nat | i <= |info| :: Confirms(info, i, current, proposal)
  }

  /** How many heights the fold counts for a segment that starts at `start` and ends at `end`. */
  function Count(start: uint32, end: uint32, proposal: uint32): uint32 {
    if proposal > start then Sub(end, proposal) else Sub(end, start)
  }

  lemma {:induction false} SubExact(a: uint32, b: uint32)
    requires b <= a
    ensures Sub(a, b) == a - b
  {
  }

  /** The test the fold makes when it reaches record i. */
  lemma {:induction false} AtRecord(info: seq<RevertInfo>, i: nat, current: uint32, proposal: uint32)
    requires Increasing(info, HeightOf) && i < |info| && Start(info, i) <= current && proposal < current
    ensures Start(info, i) <= info[i].workingHeight
    ensures Confirms(info, i, current, proposal) <==>
      (proposal < info[i].workingHeight && ModeIn(info, i) == DPOS &&
       Count(Start(info, i), Min(current, info[i].workingHeight), proposal) >= DEFAULT_CONFIRMATIONS)
  {
    hide Sub;
    assert i > 0 ==> HeightOf(info[i - 1]) < HeightOf(info[i]);
    if proposal < info[i].workingHeight {
      SubExact(Min(current, info[i].workingHeight), Max(Start(info, i), proposal));
    }
  }

  /** The test the fold makes after the last record. */
  lemma {:induction false} AfterRecords(info: seq<RevertInfo>, current: uint32, proposal: uint32)
    requires Start(info, |info|) <= current && proposal < current
    ensures Confirms(info, |info|, current, proposal) <==>
      (ModeIn(info, |info|) == DPOS && Count(Start(info, |info|), current, proposal) >= DEFAULT_CONFIRMATIONS)
  {
    hide Sub;
    SubExact(current, Max(Start(info, |info|), proposal));
  }

  /** The one-pass fold decides whether some DPOS segment confirms the proposal. */
  method IsProposalConfirmed(currentHeight: uint32, proposalHeight: uint32, info: seq<RevertInfo>) returns (r: bool)
    requires Increasing(info, HeightOf)
    ensures r == Confirmed(info, currentHeight, proposalHeight)
  {
    if currentHeight <= proposalHeight {
      return false;
    }
    hide Increasing, Confirms, Sub;
    var lastMode, lastWorkingHeight := 0, 0;
    var reachedTheEnd, beganFromStartHeight := false, false;
    var i := 0;
    while i < |info| && !reachedTheEnd
      invariant 0 <= i <= |info|
      invariant lastMode == ModeIn(info, i) && lastWorkingHeight == Start(info, i)
      invariant reachedTheEnd <==> lastWorkingHeight > currentHeight
      invariant beganFromStartHeight <==> lastWorkingHeight > proposalHeight
      invariant forall k: nat :: k < i ==> !Confirms(info, k, currentHeight, proposalHeight)
    {
      var r := info[i];
      AtRecord(info, i, currentHeight, proposalHeight);
      if proposalHeight < r.workingHeight {
        var calculateHeight;
        if currentHeight < r.workingHeight {
          calculateHeight := currentHeight;
          reachedTheEnd := true;
        } else {
          calculateHeight := r.workingHeight;
        }
        if lastMode == DPOS {
          if proposalHeight > lastWorkingHeight {
            var confirmCount := Sub(calculateHeight, proposalHeight);
            if confirmCount >= DEFAULT_CONFIRMATIONS {
              return true;
            }
          } else {
            var confirmCount := Sub(calculateHeight, lastWorkingHeight);
            if confirmCount >= DEFAULT_CONFIRMATIONS {
              return true;
            }
          }
        }
        beganFromStartHeight := true;
      }
      lastMode := r.mode;
      lastWorkingHeight := r.workingHeight;
      i := i + 1;
    }
    if reachedTheEnd {
      PastTheEnd(info, i, currentHeight, proposalHeight);
    } else {
      AfterRecords(info, currentHeight, proposalHeight);
    }
    if lastMode == DPOS {
      if !beganFromStartHeight {
        var confirmCount := Sub(currentHeight, proposalHeight);
        if confirmCount >= DEFAULT_CONFIRMATIONS {
          return true;
        }
      } else if !reachedTheEnd {
        var confirmCount := Sub(currentHeight, lastWorkingHeight);
        if confirmCount >= DEFAULT_CONFIRMATIONS {
          return true;
        }
      }
    }
    r := false;
  }

  /** Segments that start above the current height confirm nothing. */
  lemma {:induction false} PastTheEnd(info: seq<RevertInfo>, i: nat, current: uint32, proposal: uint32)
    requires Increasing(info, HeightOf) && 0 < i <= |info| && info[i - 1].workingHeight >= current
    ensures forall k: nat :: i <= k <= |info| ==> !Confirms(info, k, current, proposal)
  {
    forall k: nat | i <= k <= |info| ensures !Confirms(info, k, current, proposal) {
      assert k > i ==> HeightOf(info[i - 1]) < HeightOf(info[k - 1]);
    }
  }

  /** A confirmed proposal stays confirmed as the chain grows, and so do earlier proposals. */
  lemma {:induction false} ConfirmedIsMonotone(info: seq<RevertInfo>, c: uint32, d: uint32, p: uint32, q: uint32)
    requires Confirmed(info, c, p) && c <= d && q <= p
    ensures Confirmed(info, d, q)
  {
    var i: nat :| i <= |info| && Confirms(info, i, c, p);
    assert Confirms(info, i, d, q);
  }

  /** The entries below a height are a prefix of a strictly increasing list. */
  lemma {:induction false} BelowIsPrefix(info: seq<RevertInfo>, h: uint32)
    requires Increasing(info, HeightOf)
    ensures var b := Below(info, HeightOf, h);
      b <= info && (forall k :: |b| <= k < |info| ==> info[k].workingHeight >= h)
  {
    if info != [] {
      var front, last := info[..|info| - 1], info[|info| - 1];
      BelowIsPrefix(front, h);
      if last.workingHeight < h {
        forall k | 0 <= k < |front| ensures front[k].workingHeight < h {
          assert HeightOf(info[k]) < HeightOf(info[|info| - 1]);
        }
        assert Below(front, HeightOf, h) == front;
      }
    }
  }

  lemma {:induction false} SamePrefixConfirms(a: seq<RevertInfo>, b: seq<RevertInfo>, n: nat, i: nat, c: uint32, p: uint32)
    requires i <= n <= |a| && n <= |b| && a[..n] == b[..n]
    requires n < |a| ==> a[n].workingHeight >= c
    requires n < |b| ==> b[n].workingHeight >= c
    ensures Confirms(a, i, c, p) <==> Confirms(b, i, c, p)
  {
    assert i > 0 ==> a[..n][i - 1] == b[..n][i - 1];
    assert i < n ==> a[..n][i] == b[..n][i];
  }

  /** Records at or above the current height do not decide: two lists with the same records below
      it confirm the same proposals. */
  lemma {:induction false} OnlyRecordsBelowDecide(a: seq<RevertInfo>, b: seq<RevertInfo>, c: uint32, p: uint32)
    requires Increasing(a, HeightOf) && Increasing(b, HeightOf)
    requires Below(a, HeightOf, c) == Below(b, HeightOf, c) && Confirmed(a, c, p)
    ensures Confirmed(b, c, p)
  {
    var n := |Below(a, HeightOf, c)|;
    BelowIsPrefix(a, c);
    BelowIsPrefix(b, c);
    hide Below, Increasing, Confirms;
    var i: nat :| i <= |a| && Confirms(a, i, c, p);
    if n < |a| {
      PastTheEnd(a, n + 1, c, p);
    }
    assert i <= n;
    SamePrefixConfirms(a, b, n, i, c, p);
  }

  lemma {:induction false} BelowOfPushed(info: seq<RevertInfo>, r: RevertInfo, c: uint32)
    requires Increasing(info, HeightOf) && r.workingHeight >= c
    ensures Below(Pushed(info, HeightOf, r), HeightOf, c) == Below(info, HeightOf, c)
  {
    var kept := Below(info, HeightOf, r.workingHeight);
    assert (kept + [r])[..|kept|] == kept;
    BelowBelow(info, r.workingHeight, c);
  }

  lemma {:induction false} BelowBelow(info: seq<RevertInfo>, h: uint32, c: uint32)
    requires c <= h
    ensures Below(Below(info, HeightOf, h), HeightOf, c) == Below(info, HeightOf, c)
  {
    if info != [] {
      var front, last := info[..|info| - 1], info[|info| - 1];
      BelowBelow(front, h, c);
      var kept := Below(front, HeightOf, h);
      assert (kept + [last])[..|kept|] == kept;
    }
  }

  /** A record put at or above the current height changes no verdict. */
  lemma {:induction false} LaterRecordChangesNothing(info: seq<RevertInfo>, r: RevertInfo, c: uint32, p: uint32)
    requires Increasing(info, HeightOf) && r.workingHeight >= c
    ensures Confirmed(Pushed(info, HeightOf, r), c, p) <==> Confirmed(info, c, p)
  {
    hide Below, Pushed, Confirmed;
    PushedIncreasing(info, HeightOf, r);
    BelowOfPushed(info, r, c);
    if Confirmed(info, c, p) {
      OnlyRecordsBelowDecide(info, Pushed(info, HeightOf, r), c, p);
    }
    if Confirmed(Pushed(info, HeightOf, r), c, p) {
      OnlyRecordsBelowDecide(Pushed(info, HeightOf, r), info, c, p);
    }
  }

  // ----- the mode at a height -----

  /** The consensus mode at a height: that of the last record at or below it, 0 before the first. */
  function ModeAt(info: seq<RevertInfo>, height: uint32): nat {
    match LastBelow(info, HeightOf, height + 1)
    case None => 0
    case Some(r) => r.mode
  }

  lemma {:induction false} ModeInSegment(info: seq<RevertInfo>, i: nat, h: uint32)
    requires Increasing(info, HeightOf) && i <= |info|
    requires Start(info, i) <= h && (i < |info| ==> h < info[i].workingHeight)
    ensures ModeAt(info, h) == ModeIn(info, i)
  {
    if i < |info| {
      var front := info[..|info| - 1];
      assert i == |front| || HeightOf(info[i]) < HeightOf(info[|front|]);
      ModeInSegment(front, i, h);
    }
  }

  /** Six heights in a row from x, all in DPOS mode. */
  predicate SixInDpos(info: seq<RevertInfo>, x: nat)
    requires x + 6 < WORD
  {
    forall h: uint32 :: x <= h < x + 6 ==> ModeAt(info, h) == DPOS
  }

  /** A confirmed proposal has six heights in a row in DPOS mode, starting at or after it and ending
      by the current height. */
  lemma {:induction false} ConfirmedMeansSixInDpos(info: seq<RevertInfo>, c: uint32, p: uint32)
    requires Increasing(info, HeightOf) && Confirmed(info, c, p)
    ensures exists x: nat :: p <= x && x + 6 <= c && SixInDpos(info, x)
  {
    hide ModeAt;
    var i: nat :| i <= |info| && Confirms(info, i, c, p);
    var x := Max(Start(info, i), p);
    forall h: uint32 | x <= h < x + 6 ensures ModeAt(info, h) == DPOS {
      ModeInSegment(info, i, h);
    }
    assert SixInDpos(info, x);
  }

  /** No record repeats the mode before it. */
  ghost predicate Alternates(info: seq<RevertInfo>) {
    forall i: nat :: i < |info| ==> info[i].mode != ModeIn(info, i)
  }

  /** The segment a height lies in. */
  function SegmentOf(info: seq<RevertInfo>, h: uint32): (i: nat)
    requires Increasing(info, HeightOf)
    ensures i <= |info| && Start(info, i) <= h && (i < |info| ==> h < info[i].workingHeight)
  {
    if info == [] || info[|info| - 1].workingHeight <= h then |info|
    else
      var i := SegmentOf(info[..|info| - 1], h);
      i
  }

  lemma {:induction false} SixStayInSegment(info: seq<RevertInfo>, x: nat, i: nat)
    requires Increasing(info, HeightOf) && Alternates(info) && x + 6 < WORD && SixInDpos(info, x)
    requires i < |info| && ModeIn(info, i) == DPOS && x < info[i].workingHeight
    ensures x + 6 <= info[i].workingHeight
  {
    hide ModeAt;
    var h: uint32 := info[i].workingHeight;
    assert i + 1 < |info| ==> HeightOf(info[i]) < HeightOf(info[i + 1]);
    ModeInSegment(info, i + 1, h);
    assert ModeAt(info, h) != DPOS;
  }

  /** When every record changes the mode, six heights in a row in DPOS mode confirm as well. */
  lemma {:induction false} SixInDposConfirms(info: seq<RevertInfo>, c: uint32, p: uint32, x: nat)
    requires Increasing(info, HeightOf) && Alternates(info)
    requires p <= x && x + 6 <= c && SixInDpos(info, x)
    ensures Confirmed(info, c, p)
  {
    hide ModeAt, Increasing, Alternates;
    var i := SegmentOf(info, x);
    ModeInSegment(info, i, x);
    assert ModeIn(info, i) == DPOS;
    if i < |info| {
      SixStayInSegment(info, x, i);
    }
    assert Confirms(info, i, c, p);
  }

  /** Six heights in a row from x in DPOS mode, with no record put after the first of them. */
  predicate Unbroken(info: seq<RevertInfo>, x: nat)
    requires x + 6 < WORD
  {
    SixInDpos(info, x) && forall r :: r in info ==> r.workingHeight <= x || x + 6 <= r.workingHeight
  }

  /** For every list of records: a proposal is confirmed if and only if six heights in a row, from it on and
      up to the current height, are in DPOS mode and no record is put after the first of them. */
  lemma {:induction false} ConfirmedIffUnbroken(info: seq<RevertInfo>, c: uint32, p: uint32)
    requires Increasing(info, HeightOf)
    ensures Confirmed(info, c, p) <==> exists x: nat :: p <= x && x + 6 <= c && Unbroken(info, x)
  {
    hide ModeAt, Increasing, Confirms, Unbroken;
    if i: nat :| i <= |info| && Confirms(info, i, c, p) {
      SegmentIsUnbroken(info, i, c, p);
    }
    if x: nat :| p <= x && x + 6 <= c && Unbroken(info, x) {
      UnbrokenConfirms(info, x, c, p);
    }
  }

  lemma {:induction false} SegmentIsUnbroken(info: seq<RevertInfo>, i: nat, c: uint32, p: uint32)
    requires Increasing(info, HeightOf) && i <= |info| && Confirms(info, i, c, p)
    ensures var x := Max(Start(info, i), p); p <= x && x + 6 <= c && Unbroken(info, x)
  {
    hide ModeAt;
    var x := Max(Start(info, i), p);
    forall h: uint32 | x <= h < x + 6 ensures ModeAt(info, h) == DPOS {
      ModeInSegment(info, i, h);
    }
    forall r | r in info ensures r.workingHeight <= x || x + 6 <= r.workingHeight {
      var j :| 0 <= j < |info| && info[j] == r;
      assert j < i - 1 ==> HeightOf(info[j]) < HeightOf(info[i - 1]);
      assert j > i ==> HeightOf(info[i]) < HeightOf(info[j]);
    }
  }

  lemma {:induction false} UnbrokenConfirms(info: seq<RevertInfo>, x: nat, c: uint32, p: uint32)
    requires Increasing(info, HeightOf) && p <= x && x + 6 <= c && Unbroken(info, x)
    ensures Confirmed(info, c, p)
  {
    hide ModeAt, Increasing;
    var i := SegmentOf(info, x);
    ModeInSegment(info, i, x);
    assert ModeIn(info, i) == DPOS;
    assert i < |info| ==> info[i] in info;
    assert Confirms(info, i, c, p);
  }

  /** A record that repeats the mode restarts the count. */
  lemma {:induction false} RepeatedModeRestartsCount() returns (info: seq<RevertInfo>)
    ensures Increasing(info, HeightOf) && SixInDpos(info, 0) && !Confirmed(info, 6, 0)
  {
    info := [RevertInfo(3, DPOS)];
    forall h: uint32 | 0 <= h < 6 ensures ModeAt(info, h) == DPOS {
      ModeInSegment(info, if h < 3 then 0 else 1, h);
    }
    forall i: nat | i <= |info| ensures !Confirms(info, i, 6, 0) {
    }
  }

  // ----- the store -----

  /** The puts that reach the list: those above the put before them. */
  function Accepted(puts: seq<RevertInfo>): seq<RevertInfo> {
    if puts == [] then []
    else
      var front, last := puts[..|puts| - 1], puts[|puts| - 1];
      if last.workingHeight <= LastHeight(front) then Accepted(front) else Accepted(front) + [last]
  }

  function LastHeight(puts: seq<RevertInfo>): uint32 {
    if puts == [] then 0 else puts[|puts| - 1].workingHeight
  }

  lemma {:induction false} NextPut(puts: seq<RevertInfo>, r: RevertInfo)
    ensures After(Accepted(puts + [r]), HeightOf) ==
      if r.workingHeight <= LastHeight(puts) then After(Accepted(puts), HeightOf)
      else Pushed(After(Accepted(puts), HeightOf), HeightOf, r)
  {
    assert (puts + [r])[..|puts|] == puts;
    var accepted := Accepted(puts);
    assert (accepted + [r])[..|accepted|] == accepted;
  }

  // ----- last write wins, where it does -----

  /** At every height, what reached the list gives the mode of the last put in time. */
  ghost predicate ModesAgree(puts: seq<RevertInfo>) {
    forall h: uint32 :: ModeAt(Accepted(puts), h) == ModeAt(puts, h)
  }

  /** The list has r's mode from r's height on already. */
  predicate InForce(list: seq<RevertInfo>, r: RevertInfo) {
    ModeAt(list, r.workingHeight) == r.mode &&
    forall x :: x in list && x.workingHeight > r.workingHeight ==> x.mode == r.mode
  }

  predicate RisesOrRepeats(puts: seq<RevertInfo>, r: RevertInfo) {
    r.workingHeight > LastHeight(puts) || InForce(After(Accepted(puts), HeightOf), r)
  }

  lemma {:induction false} ModeAfterPut(puts: seq<RevertInfo>, r: RevertInfo, h: uint32)
    ensures ModeAt(puts + [r], h) == if r.workingHeight <= h then r.mode else ModeAt(puts, h)
  {
    assert (puts + [r])[..|puts|] == puts;
  }

  lemma {:induction false} AcceptedNext(puts: seq<RevertInfo>, r: RevertInfo)
    ensures Accepted(puts + [r]) ==
      if r.workingHeight <= LastHeight(puts) then Accepted(puts) else Accepted(puts) + [r]
  {
    assert (puts + [r])[..|puts|] == puts;
  }

  /** One put keeps the agreement if and only if it is above the put before it, or changes no mode. */
  lemma {:induction false} ModesAgreeNextIff(puts: seq<RevertInfo>, r: RevertInfo)
    requires ModesAgree(puts)
    ensures ModesAgree(puts + [r]) <==> RisesOrRepeats(puts, r)
  {
    var accepted := Accepted(puts);
    hide ModeAt, Accepted, After, InForce;
    AcceptedNext(puts, r);
    forall h: uint32
      ensures ModeAt(puts + [r], h) == if r.workingHeight <= h then r.mode else ModeAt(accepted, h)
      ensures ModeAt(accepted + [r], h) == if r.workingHeight <= h then r.mode else ModeAt(accepted, h)
    {
      ModeAfterPut(puts, r, h);
      ModeAfterPut(accepted, r, h);
    }
    InForceIff(accepted, r);
  }

  lemma {:induction false} InForceIff(accepted: seq<RevertInfo>, r: RevertInfo)
    ensures InForce(After(accepted, HeightOf), r) <==>
      forall h: uint32 :: h >= r.workingHeight ==> ModeAt(accepted, h) == r.mode
  {
    var list := After(accepted, HeightOf);
    forall h: uint32 ensures ModeAt(list, h) == ModeAt(accepted, h) {
      LookupIsLastWrite(accepted, HeightOf, h + 1);
    }
    AfterIncreasing(accepted, HeightOf);
    hide ModeAt, After, Increasing;
    if InForce(list, r) {
      forall h: uint32 | h >= r.workingHeight ensures ModeAt(list, h) == r.mode {
        InForceFrom(list, r, h);
      }
    }
    forall x | x in list ensures ModeAt(list, x.workingHeight) == x.mode {
      ModeAtRecord(list, x);
    }
  }

  lemma {:induction false} InForceFrom(list: seq<RevertInfo>, r: RevertInfo, h: uint32)
    requires Increasing(list, HeightOf) && InForce(list, r) && h >= r.workingHeight
    ensures ModeAt(list, h) == r.mode
  {
    hide ModeAt, Increasing;
    var i := SegmentOf(list, h);
    ModeInSegment(list, i, h);
    if i == 0 || list[i - 1].workingHeight <= r.workingHeight {
      ModeInSegment(list, i, r.workingHeight);
    } else {
      assert list[i - 1] in list;
    }
  }

  lemma {:induction false} ModeAtRecord(list: seq<RevertInfo>, x: RevertInfo)
    requires Increasing(list, HeightOf) && x in list
    ensures ModeAt(list, x.workingHeight) == x.mode
  {
    hide ModeAt;
    var j :| 0 <= j < |list| && list[j] == x;
    assert j + 1 < |list| ==> HeightOf(list[j]) < HeightOf(list[j + 1]);
    ModeInSegment(list, j + 1, x.workingHeight);
  }

  /** Over every run: the last put wins at every height all along if and only if each put is above the
      one before it or changes no mode. */
  lemma {:induction false} ModesAgreeThroughoutIff(puts: seq<RevertInfo>)
    ensures (forall k :: 0 <= k <= |puts| ==> ModesAgree(puts[..k])) <==>
      (forall k :: 0 <= k < |puts| ==> RisesOrRepeats(puts[..k], puts[k]))
  {
    hide ModesAgree, RisesOrRepeats;
    if puts == [] {
      NothingPut();
    } else {
      var n := |puts| - 1;
      var front := puts[..n];
      ModesAgreeThroughoutIff(front);
      assert puts[..n + 1] == front + [puts[n]] == puts;
      assert forall k | 0 <= k <= n :: front[..k] == puts[..k];
      if ModesAgree(front) {
        ModesAgreeNextIff(front, puts[n]);
      }
    }
  }

  lemma {:induction false} NothingPut()
    ensures ModesAgree([])
  {
  }

  /** A put below the one before it is forgotten: mode 1 from height 10, then from height 5, leaves
      height 7 in mode 0. */
  lemma {:induction false} LowerPutIsForgotten() returns (puts: seq<RevertInfo>)
    ensures puts == [RevertInfo(10, 1), RevertInfo(5, 1)] && ModesAgree(puts[..1])
    ensures ModeAt(puts, 7) == 1 && ModeAt(Accepted(puts), 7) == 0 && !ModesAgree(puts)
  {
    var first, second := RevertInfo(10, 1), RevertInfo(5, 1);
    puts := [first] + [second];
    hide ModeAt, Accepted;
    NothingPut();
    AcceptedNext([], first);
    AcceptedNext([first], second);
    ModeAfterPut([first], second, 7);
    ModeAfterPut([], first, 7);
  }

  class RevertStore {
    var position: Option<uint32>
    var records: Option<seq<RevertInfo>>
    var cache: seq<RevertInfo>
    ghost var puts: seq<RevertInfo>

    ghost function Listed(): seq<RevertInfo>
      reads this
    {
      After(Accepted(puts), HeightOf)
    }

    ghost predicate Valid()
      reads this
    {
      && position == (if puts == [] then None else Some(LastHeight(puts)))
      && Listed() == (if records == None then [] else records.value)
      && (cache == [] || cache == Listed())
    }

    constructor ()
      ensures Valid() && puts == []
    {
      position, records, cache, puts := None, None, [], [];
    }

    /** The list stays strictly increasing, and no verdict at a height up to the put one changes. */
    method BatchPut(workingHeight: uint32, mode: nat)
      requires Valid()
      modifies this
      ensures Valid() && puts == old(puts) + [RevertInfo(workingHeight, mode)]
      ensures Increasing(Listed(), HeightOf)
      ensures forall c: uint32, p: uint32 :: c <= workingHeight ==>
        (Confirmed(Listed(), c, p) <==> old(Confirmed(Listed(), c, p)))
    {
      hide Confirmed, Pushed, After, Accepted, Increasing;
      ghost var r, list := RevertInfo(workingHeight, mode), Listed();
      NextPut(puts, r);
      AfterIncreasing(Accepted(puts), HeightOf);
      PushedIncreasing(list, HeightOf, r);
      forall c: uint32, p: uint32 | c <= workingHeight
        ensures Confirmed(Pushed(list, HeightOf, r), c, p) <==> Confirmed(list, c, p)
      {
        LaterRecordChangesNothing(list, r, c, p);
      }

      var pos := if position == None then 0 else position.value;
      var isRollback := workingHeight <= pos;
      position := Some(workingHeight);
      if !isRollback {
        var posCache := if records == None then [] else records.value;
        cache := Push(posCache, HeightOf, RevertInfo(workingHeight, mode));
        records := Some(cache);
      }
      puts := puts + [r];
    }

    method GetRevertInfo() returns (info: seq<RevertInfo>)
      requires Valid()
      modifies `cache
      ensures Valid() && info == Listed() && Increasing(info, HeightOf)
    {
      hide After, Accepted;
      if |cache| == 0 {
        cache := if records == None then [] else records.value;
      }
      info := cache;
      AfterIncreasing(Accepted(puts), HeightOf);
    }

    /** The mode of the last accepted put, in time, at or below the height. */
    method GetConsensusAlgorithmByHeight(height: uint32) returns (mode: nat)
      requires Valid()
      modifies `cache
      ensures Valid()
      ensures mode == ModeAt(Accepted(puts), height) == ModeAt(Listed(), height)
      ensures ModesAgree(puts) ==> mode == ModeAt(puts, height)
    {
      hide After, Accepted, Increasing, LastBelow;
      var pos := GetRevertInfo();
      LookupIsLastWrite(Accepted(puts), HeightOf, height + 1);
      mode := ModeOfLast(pos, height);
    }
  }

  /** The forward scan stops at the first record above the height. */
  method ModeOfLast(pos: seq<RevertInfo>, height: uint32) returns (mode: nat)
    requires Increasing(pos, HeightOf)
    ensures mode == ModeAt(pos, height)
  {
    hide Increasing, ModeAt;
    var revertInfo := RevertInfo(0, 0);
    var i := 0;
    while i < |pos|
      invariant 0 <= i <= |pos|
      invariant revertInfo == if i == 0 then RevertInfo(0, 0) else pos[i - 1]
      invariant Start(pos, i) <= height
    {
      if pos[i].workingHeight > height {
        break;
      }
      revertInfo := pos[i];
      i := i + 1;
    }
    ModeInSegment(pos, i, height);
    mode := revertInfo.mode;
  }

  /** The verdict over the stored records: true exactly when a DPOS segment confirms. */
  method ProposalConfirmed(store: RevertStore, currentHeight: uint32, proposalHeight: uint32) returns (r: bool)
    requires store.Valid()
    modifies store`cache
    ensures store.Valid() && r == Confirmed(store.Listed(), currentHeight, proposalHeight)
  {
    var info := store.GetRevertInfo();
    r := IsProposalConfirmed(currentHeight, proposalHeight, info);
  }
}
