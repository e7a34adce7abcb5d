/** The 64-packet replay window of internal/udp/replay.go: a bitmap below a wrapping 32-bit
    high-water mark, compared with serial-number arithmetic (section 3.2 of RFC 1982). */
module Replay {
  import opened Words
  import opened Bits

  const SPAN: nat := 64

  // ---------------------------------------------------------------- the window as a value

  datatype Window = Window(initialized: bool, highest: uint32, bitmap: uint64)

  const EMPTY := Window(false, 0, 0)

  /** The signed 32-bit reading of the wrapped difference id - highest. */
  function SerialDelta(id: uint32, highest: uint32): int
  {
    var d := (id - highest) % TWO_32;
    if d < TWO_31 then d else d - TWO_32
  }

  predicate IsSeen(w: Window, id: uint32)
  {
    if !w.initialized then false
    else
      var delta := SerialDelta(id, w.highest);
      delta <= 0 && (-delta >= SPAN || And(w.bitmap, ShiftLeft(1, -delta)) != 0)
  }

  /** The window after a completed packet, and whether that packet was new. */
  function MarkStep(w: Window, id: uint32): (Window, bool)
  {
    if !w.initialized then (Window(true, id, 1), true)
    else
      var delta := SerialDelta(id, w.highest);
      if delta >= SPAN then (Window(true, id, 1), true)
      else if delta > 0 then (Window(true, id, Or64(ShiftLeft(w.bitmap, delta), 1)), true)
      else if -delta >= SPAN || And(w.bitmap, ShiftLeft(1, -delta)) != 0 then (w, false)
      else (w.(bitmap := Or64(w.bitmap, ShiftLeft(1, -delta))), true)
  }

  class ReplayWindow {
    var initialized: bool
    var highest: uint32
    var bitmap: uint64

    function State(): Window
      reads this
    {
      Window(initialized, highest, bitmap)
    }

    constructor ()
      ensures State() == EMPTY
    {
      initialized, highest, bitmap := false, 0, 0;
    }

    method Seen(packetID: uint32) returns (seen: bool)
      ensures seen == IsSeen(State(), packetID)
    {
      if !initialized {
        return false;
      }
      var delta := SerialDelta(packetID, highest);
      if delta > 0 {
        return false;
      }
      var behind := -delta;
      seen := behind >= SPAN || And(bitmap, ShiftLeft(1, behind)) != 0;
    }

    method MarkCompleted(packetID: uint32) returns (isNew: bool)
      modifies this
      ensures (State(), isNew) == MarkStep(old(State()), packetID)
    {
      if !initialized {
        initialized, highest, bitmap := true, packetID, 1;
        return true;
      }
      var delta := SerialDelta(packetID, highest);
      if delta > 0 {
        var shift := delta;
        if shift >= SPAN {
          bitmap := 1;
        } else {
          bitmap := Or64(ShiftLeft(bitmap, shift), 1);
        }
        highest := packetID;
        return true;
      }
      var behind := -delta;
      if behind >= SPAN {
        return false;
      }
      var mask := ShiftLeft(1, behind);
      if And(bitmap, mask) != 0 {
        return false;
      }
      bitmap := Or64(bitmap, mask);
      return true;
    }
  }

  // ---------------------------------------------------------------- what the window means

  /** The ideal window: unbounded IDs, every accepted ID remembered for ever. */
  datatype Log = Log(accepted: set<int>, highest: int)

  const EMPTY_LOG := Log({}, 0)

  predicate IsNew(log: Log, n: int)
  {
    log.accepted == {} || (n !in log.accepted && n > log.highest - SPAN)
  }

  function Record(log: Log, n: int): Log
  {
    Log(log.accepted + {n}, if log.accepted == {} || n > log.highest then n else log.highest)
  }

  /** The sender's counter is less than half the number circle away from the receiver's. */
  predicate InReach(log: Log, n: int)
  {
    log.accepted == {} || -TWO_31 <= n - log.highest < TWO_31
  }

  ghost predicate Represents(w: Window, log: Log)
  {
    && (w.initialized <==> log.accepted != {})
    && (w.initialized ==>
          && w.highest == Wrap32(log.highest)
          && (forall n :: n in log.accepted ==> n <= log.highest)
          && (forall i :: 0 <= i < SPAN ==> (Bit(w.bitmap, i) <==> log.highest - i in log.accepted)))
  }

  // ---------------------------------------------------------------- refinement

  /** The 32-bit comparison is exact precisely when the unbounded IDs are within reach. */
  lemma SerialDeltaExact(n: int, h: int)
    ensures SerialDelta(Wrap32(n), Wrap32(h)) == n - h <==> -TWO_31 <= n - h < TWO_31
  {
    var d := (Wrap32(n) - Wrap32(h)) % TWO_32;
    assert d == (n - h) % TWO_32 by {
      var a, b := n / TWO_32, h / TWO_32;
      assert Wrap32(n) - Wrap32(h) == n - h + TWO_32 * (b - a);
      WrapMultiple(n - h, b - a);
    }
  }

  lemma WrapMultiple(x: int, k: int)
    ensures (x + TWO_32 * k) % TWO_32 == x % TWO_32
  {
    var q := x / TWO_32;
    assert x + TWO_32 * k == TWO_32 * (q + k) + x % TWO_32;
  }

  lemma SeenIsExactComplement(w: Window, log: Log, n: int)
    requires Represents(w, log) && InReach(log, n)
    ensures IsSeen(w, Wrap32(n)) <==> !IsNew(log, n)
  {
    if w.initialized {
      SerialDeltaExact(n, log.highest);
      if 0 <= log.highest - n < SPAN {
        MaskReadsBit(w.bitmap, log.highest - n);
      }
    }
  }

  lemma MarkRefinesRecord(w: Window, log: Log, n: int)
    requires Represents(w, log) && InReach(log, n)
    ensures var (w', isNew) := MarkStep(w, Wrap32(n));
            && isNew == IsNew(log, n)
            && Represents(w', if isNew then Record(log, n) else log)
  {
    var (w', isNew) := MarkStep(w, Wrap32(n));
    if w.initialized {
      SerialDeltaExact(n, log.highest);
      var delta := n - log.highest;
      if 0 <= -delta < SPAN {
        MaskReadsBit(w.bitmap, -delta);
      }
      forall i | 0 <= i < SPAN && isNew
        ensures Bit(w'.bitmap, i) <==> Record(log, n).highest - i in Record(log, n).accepted
      {
        if delta >= SPAN {
          BitOfOne(i);
        } else if delta > 0 {
          PushedBit(w.bitmap, delta, i);
        } else {
          MaskSetsBit(w.bitmap, -delta, i);
        }
      }
    } else {
      forall i | 0 <= i < SPAN
        ensures Bit(w'.bitmap, i) <==> n - i in {n}
      {
        BitOfOne(i);
      }
    }
  }

  // ---------------------------------------------------------------- whole runs

  /** The verdicts a window gives to a run of completed packets. */
  function Verdicts(w: Window, ids: seq<int>): seq<bool>
    decreases |ids|
  {
    if ids == [] then []
    else
      var (w', isNew) := MarkStep(w, Wrap32(ids[0]));
      [isNew] + Verdicts(w', ids[1..])
  }

  function IdealVerdicts(log: Log, ids: seq<int>): seq<bool>
    decreases |ids|
  {
    if ids == [] then []
    else
      var isNew := IsNew(log, ids[0]);
      [isNew] + IdealVerdicts(if isNew then Record(log, ids[0]) else log, ids[1..])
  }

  ghost predicate RunInReach(log: Log, ids: seq<int>)
    decreases |ids|
  {
    ids == []
    || (InReach(log, ids[0])
        && RunInReach(if IsNew(log, ids[0]) then Record(log, ids[0]) else log, ids[1..]))
  }

  lemma {:induction false} RunRefines(w: Window, log: Log, ids: seq<int>)
    requires Represents(w, log) && RunInReach(log, ids)
    ensures Verdicts(w, ids) == IdealVerdicts(log, ids)
    decreases |ids|
  {
    if ids != [] {
      MarkRefinesRecord(w, log, ids[0]);
      RunRefines(MarkStep(w, Wrap32(ids[0])).0,
                 if IsNew(log, ids[0]) then Record(log, ids[0]) else log, ids[1..]);
    }
  }

  lemma {:induction false} AcceptedIdsStayRejected(log: Log, ids: seq<int>, n: int)
    requires n in log.accepted
    ensures |IdealVerdicts(log, ids)| == |ids|
    ensures forall j :: 0 <= j < |ids| && ids[j] == n ==> !IdealVerdicts(log, ids)[j]
    decreases |ids|
  {
    if ids != [] {
      var log' := if IsNew(log, ids[0]) then Record(log, ids[0]) else log;
      AcceptedIdsStayRejected(log', ids[1..], n);
      assert forall j :: 1 <= j < |ids| ==> IdealVerdicts(log, ids)[j] == IdealVerdicts(log', ids[1..])[j - 1];
      assert forall j :: 1 <= j < |ids| ==> ids[j] == ids[1..][j - 1];
    }
  }

  lemma {:induction false} IdealNeverTwice(log: Log, ids: seq<int>)
    ensures |IdealVerdicts(log, ids)| == |ids|
    ensures forall i, j :: 0 <= i < j < |ids| && IdealVerdicts(log, ids)[i] && IdealVerdicts(log, ids)[j] ==>
              ids[i] != ids[j]
    decreases |ids|
  {
    if ids != [] {
      var isNew := IsNew(log, ids[0]);
      var log' := if isNew then Record(log, ids[0]) else log;
      var rest, verdicts := ids[1..], IdealVerdicts(log', ids[1..]);
      IdealNeverTwice(log', rest);
      if isNew {
        AcceptedIdsStayRejected(log', rest, ids[0]);
      }
      assert IdealVerdicts(log, ids) == [isNew] + verdicts;
      forall i, j | 0 <= i < j < |ids| && ([isNew] + verdicts)[i] && ([isNew] + verdicts)[j]
        ensures ids[i] != ids[j]
      {
        assert ids[j] == rest[j - 1] && verdicts[j - 1];
        if i > 0 {
          assert ids[i] == rest[i - 1] && verdicts[i - 1];
        }
      }
    }
  }

  /** No packet ID is ever accepted twice, across 32-bit wraparound, while the sender stays in reach. */
  lemma NoIdAcceptedTwice(ids: seq<int>)
    requires RunInReach(EMPTY_LOG, ids)
    ensures |Verdicts(EMPTY, ids)| == |ids|
    ensures forall i, j :: 0 <= i < j < |ids| && Verdicts(EMPTY, ids)[i] && Verdicts(EMPTY, ids)[j] ==> ids[i] != ids[j]
  {
    RunRefines(EMPTY, EMPTY_LOG, ids);
    IdealNeverTwice(EMPTY_LOG, ids);
  }

  // ---------------------------------------------------------------- any ID at all

  /** The unbounded ID a word is taken for: the one with that word within reach of the mark. */
  function Alias(log: Log, n: int): int
  {
    log.highest + SerialDelta(Wrap32(n), Wrap32(log.highest))
  }

  lemma AliasIsInReach(log: Log, n: int)
    ensures Wrap32(Alias(log, n)) == Wrap32(n) && -TWO_31 <= Alias(log, n) - log.highest < TWO_31
    ensures Alias(log, n) == n <==> -TWO_31 <= n - log.highest < TWO_31
  {
    SerialDeltaExact(n, log.highest);
    var h, k := log.highest, (Wrap32(n) - Wrap32(log.highest)) / 0x1_0000_0000;
    var d := (Wrap32(n) - Wrap32(h)) % TWO_32;
    assert Wrap32(n) - Wrap32(h) == 0x1_0000_0000 * k + d;
    assert h == 0x1_0000_0000 * (h / 0x1_0000_0000) + Wrap32(h);
    WrapMultiple(Wrap32(n), h / 0x1_0000_0000 - k - if d < TWO_31 then 0 else 1);
    WrapTwice(n);
  }

  lemma WrapTwice(n: int)
    ensures Wrap32(Wrap32(n)) == Wrap32(n)
  {
  }

  /** The verdict on any ID, in reach or not, is that on its alias: a packet is accepted exactly if
      the ID it is taken for is new. */
  lemma VerdictIsOnAlias(w: Window, log: Log, n: int)
    requires Represents(w, log) && log.accepted != {}
    ensures MarkStep(w, Wrap32(n)).1 <==> IsNew(log, Alias(log, n))
    ensures IsSeen(w, Wrap32(n)) <==> !IsNew(log, Alias(log, n))
  {
    AliasIsInReach(log, n);
    MarkRefinesRecord(w, log, Alias(log, n));
    SeenIsExactComplement(w, log, Alias(log, n));
  }

  /** A delivered ID is delivered again exactly if it is out of reach and its alias is ahead of the
      mark, or within the window and not delivered itself. */
  lemma DeliveredAgainExactly(w: Window, log: Log, n: int)
    requires Represents(w, log) && n in log.accepted
    ensures MarkStep(w, Wrap32(n)).1 <==>
              && n - log.highest < -TWO_31
              && (Alias(log, n) > log.highest || (Alias(log, n) > log.highest - SPAN && Alias(log, n) !in log.accepted))
  {
    VerdictIsOnAlias(w, log, n);
    AliasIsInReach(log, n);
  }

  /** It does happen: the mark moves more than half the circle ahead, and a delivered ID is taken
      for one to come. */
  lemma OutOfReachDuplicateAccepted()
    ensures var ids := [0, TWO_31 - 1, TWO_31 + 100, 0];
            Verdicts(EMPTY, ids) == [true, true, true, true] && !RunInReach(EMPTY_LOG, ids)
  {
    FarRunAccepted();
    FarRunIsOutOfReach();
  }

  lemma MarkFarAhead(w: Window, id: uint32)
    requires w.initialized && SerialDelta(id, w.highest) >= SPAN
    ensures MarkStep(w, id) == (Window(true, id, 1), true)
  {
  }

  lemma FarRunAccepted()
    ensures Verdicts(EMPTY, [0, TWO_31 - 1, TWO_31 + 100, 0]) == [true, true, true, true]
  {
    var a, b, c := Window(true, 0, 1), Window(true, 0x7fff_ffff, 1), Window(true, 0x8000_0064, 1);
    MarkFarAhead(a, 0x7fff_ffff);
    MarkFarAhead(b, 0x8000_0064);
    MarkFarAhead(c, 0);
    VerdictsCons(c, 0, []);
    VerdictsCons(b, 0x8000_0064, [0]);
    VerdictsCons(a, 0x7fff_ffff, [0x8000_0064, 0]);
    VerdictsCons(EMPTY, 0, [0x7fff_ffff, 0x8000_0064, 0]);
  }

  lemma FarRunIsOutOfReach()
    ensures !RunInReach(EMPTY_LOG, [0, TWO_31 - 1, TWO_31 + 100, 0])
  {
    if RunInReach(EMPTY_LOG, [0, TWO_31 - 1, TWO_31 + 100, 0]) {
      RunInReachCons(EMPTY_LOG, 0, [TWO_31 - 1, TWO_31 + 100, 0]);
      var l1 := Record(EMPTY_LOG, 0);
      RunInReachCons(l1, TWO_31 - 1, [TWO_31 + 100, 0]);
      var l2 := Record(l1, TWO_31 - 1);
      RunInReachCons(l2, TWO_31 + 100, [0]);
      assert false;
    }
  }

  lemma VerdictsCons(w: Window, n: int, rest: seq<int>)
    ensures Verdicts(w, [n] + rest) == [MarkStep(w, Wrap32(n)).1] + Verdicts(MarkStep(w, Wrap32(n)).0, rest)
  {
    assert ([n] + rest)[1..] == rest;
  }

  lemma RunInReachCons(log: Log, n: int, rest: seq<int>)
    requires IsNew(log, n) && RunInReach(log, [n] + rest)
    ensures RunInReach(Record(log, n), rest)
  {
    assert ([n] + rest)[1..] == rest;
  }
}
