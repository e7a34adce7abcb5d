/** Every packet whose datagrams all arrive in time is delivered: the receive loop from the receiver's
    start (internal/agent/client.go, internal/path/manager.go, internal/udp/reassembly.go). */
module Arrivals {
  import opened Words
  import opened UDPFrame
  import opened Fragmentation
  import opened ReassemblyTable
  import opened RoundTrip
  import opened Replay
  import opened Delivery

  // ---------------------------------------------------------------- one datagram

  function KeyFor(s: Session, n: int): Key
    requires n in s.sent
  {
    SentKey(SentOf(s, n))
  }

  /** The piece is kept until the set is complete, and then the packet comes out. No other packet in
      the table is touched. */
  ghost predicate PieceTaken(s: Session, r: Receiver, n: int, i: nat, got: set<nat>, r': Receiver,
                             delivered: Option<Delivered>)
    requires n in s.sent && Sendable(SentOf(s, n))
  {
    var q := SentOf(s, n);
    && r'.table.closed == r.table.closed && r'.table.pending - {SentKey(q)} == r.table.pending - {SentKey(q)}
    && if HasAll(got + {i}, Total(q)) then
         delivered == Some(Delivered(Wrap32(n), s.sent[n])) && SentKey(q) !in r'.table.pending
       else
         delivered == None && r'.window == r.window && Underway(r'.table, q, got + {i})
  }

  lemma FeedingKeepsClosed(t: Table, h: Header, payload: bytes, now: int)
    requires Shaped(t)
    ensures FeedStep(t, h, payload, now).0.closed == t.closed
  {
  }

  /** Feeding the piece to the table, as FeedPiece has it, and what else that leaves alone. */
  lemma FedPiece(s: Session, t: Table, n: int, i: nat, now: int, got: set<nat>)
    requires GoodSession(s) && GoodTable(t) && !t.closed && n in s.sent && i < Total(SentOf(s, n))
    requires Underway(t, SentOf(s, n), got) && RoomFor(t, KeyFor(s, n))
    ensures var fed := FeedStep(t, HeaderOf(SentOf(s, n), i), PieceOf(SentOf(s, n), i), now);
            && PieceHandled(t, SentOf(s, n), got, i, fed) && fed.0.closed == t.closed
            && fed.0.pending - {KeyFor(s, n)} == t.pending - {KeyFor(s, n)}
  {
    var h, payload := HeaderOf(SentOf(s, n), i), PieceOf(SentOf(s, n), i);
    FeedTouchesOnlyItsKey(t, h, payload, now);
    FeedingKeepsClosed(t, h, payload, now);
    assert KeyOf(h) == KeyFor(s, n);
    var fed := FeedPiece(t, SentOf(s, n), got, i, now);
  }

  /** A datagram of a packet that is new, in reach and has room: it is kept, and delivers the packet
      exactly if it completes it. A datagram of one that is not new changes nothing. */
  lemma DatagramHandled(s: Session, r: Receiver, log: Log, n: int, i: nat, now: int, got: set<nat>)
    requires GoodReceiver(s, r, log) && Possible(s, Datagram(n, i, now)) && InReach(log, n) && !r.table.closed
    requires Underway(r.table, SentOf(s, n), got) && RoomFor(r.table, KeyFor(s, n))
    ensures var (r', delivered) := ArrivalStep(s, r, Datagram(n, i, now));
            if IsNew(log, n) then PieceTaken(s, r, n, i, got, r', delivered) else (r', delivered) == (r, None)
  {
    HonestDatagramGetsThrough(s, r, n, i, now);
    SeenIsExactComplement(r.window, log, n);
    if IsNew(log, n) {
      MarkRefinesRecord(r.window, log, n);
      FedPiece(s, r.table, n, i, now, got);
    }
  }

  /** By the relay it is the same, whatever the window says. */
  lemma RelayedHandled(s: Session, r: Receiver, n: int, i: nat, now: int, got: set<nat>)
    requires GoodContents(s, r) && Possible(s, Relayed(n, i, now)) && !r.table.closed
    requires Underway(r.table, SentOf(s, n), got) && RoomFor(r.table, KeyFor(s, n))
    ensures var (r', delivered) := ArrivalStep(s, r, Relayed(n, i, now));
            PieceTaken(s, r, n, i, got, r', delivered) && r'.window == r.window
  {
    RelayedDatagramGetsThrough(s, r, n, i, now);
    FedPiece(s, r.table, n, i, now, got);
  }

  // ---------------------------------------------------------------- a packet on its way

  predicate ForPacket(a: Arrival, n: int)
  {
    (a.Datagram? || a.Relayed?) && a.n == n
  }

  /** The pieces in `got` have arrived, the first of them at that time, and the packet is not
      delivered yet. */
  ghost predicate Coming(s: Session, r: Receiver, log: Log, n: int, got: set<nat>, began: int)
  {
    && GoodReceiver(s, r, log) && n in s.sent && !r.table.closed
    && Underway(r.table, SentOf(s, n), got) && IsNew(log, n)
    && (KeyFor(s, n) in r.table.pending ==> r.table.pending[KeyFor(s, n)].createdAt == began)
  }

  /** Nothing that keeps the packet out: no datagram of one 64 or more ahead, which would move the
      window past it, no tick whose deadline is after its first piece, and room for that piece. */
  predicate Spares(s: Session, r: Receiver, n: int, began: int, a: Arrival)
    requires n in s.sent
  {
    && (a.Datagram? ==> a.n < n + 64)
    && (a.CleanerTick? && KeyFor(s, n) in r.table.pending ==> a.deadline <= began)
    && (ForPacket(a, n) && KeyFor(s, n) !in r.table.pending ==> a.now == began && RoomFor(r.table, KeyFor(s, n)))
  }

  /** The table has the same under that key. */
  predicate SameUnder(t: Table, t': Table, key: Key)
  {
    t'.closed == t.closed && (key in t'.pending <==> key in t.pending)
    && (key in t.pending ==> t'.pending[key] == t.pending[key])
  }

  lemma FeedingAnother(t: Table, h: Header, payload: bytes, now: int, key: Key)
    requires Shaped(t) && KeyOf(h) != key
    ensures SameUnder(t, FeedStep(t, h, payload, now).0, key)
  {
    var t' := FeedStep(t, h, payload, now).0;
    FeedTouchesOnlyItsKey(t, h, payload, now);
    assert key in t'.pending <==> key in t'.pending - {KeyOf(h)};
  }

  lemma OtherPacket(s: Session, m: int, n: int, i: nat)
    requires GoodSession(s) && m in s.sent && n in s.sent && m != n && i < Total(SentOf(s, m))
    ensures KeyOf(HeaderOf(SentOf(s, m), i)) != KeyFor(s, n)
  {
  }

  /** What others bring leaves the packet as it is. */
  lemma OthersLeavePacket(s: Session, r: Receiver, log: Log, n: int, a: Arrival, began: int)
    requires GoodReceiver(s, r, log) && n in s.sent && Possible(s, a) && !ForPacket(a, n) && Spares(s, r, n, began, a)
    requires KeyFor(s, n) in r.table.pending ==> r.table.pending[KeyFor(s, n)].createdAt == began
    ensures SameUnder(r.table, ArrivalStep(s, r, a).0.table, KeyFor(s, n))
  {
    match a
    case Datagram(m, i, now) =>
      HonestDatagramGetsThrough(s, r, m, i, now);
      OtherPacket(s, m, n, i);
      FeedingAnother(r.table, HeaderOf(SentOf(s, m), i), PieceOf(SentOf(s, m), i), now, KeyFor(s, n));
    case Relayed(m, i, now) =>
      RelayedDatagramGetsThrough(s, r, m, i, now);
      OtherPacket(s, m, n, i);
      FeedingAnother(r.table, HeaderOf(SentOf(s, m), i), PieceOf(SentOf(s, m), i), now, KeyFor(s, n));
    case Junk(raw, now) =>
    case Foreign(h, payload, now) =>
      FeedingAnother(r.table, h, payload, now, KeyFor(s, n));
    case CleanerTick(deadline) =>
      TickKeepsExactly(r.table, deadline, KeyFor(s, n));
  }

  lemma StillNew(log: Log, n: int, a: Arrival, delivered: Option<Delivered>)
    requires IsNew(log, n) && (a.Datagram? ==> a.n < n + 64)
    requires a.Datagram? && delivered.Some? ==> a.n != n
    ensures IsNew(LogAfter(log, a, delivered), n)
  {
  }

  lemma OtherArrival(s: Session, r: Receiver, log: Log, n: int, got: set<nat>, began: int, a: Arrival)
    requires Coming(s, r, log, n, got, began) && Possible(s, a) && WindowReaches(log, a)
    requires Spares(s, r, n, began, a) && !ForPacket(a, n)
    ensures var (r', delivered) := ArrivalStep(s, r, a);
            && Coming(s, r', LogAfter(log, a, delivered), n, got, began)
            && (KeyFor(s, n) in r'.table.pending <==> KeyFor(s, n) in r.table.pending)
  {
    ArrivalStepNew(s, r, log, a);
    OthersLeavePacket(s, r, log, n, a, began);
    StillNew(log, n, a, ArrivalStep(s, r, a).1);
  }

  lemma PieceArrival(s: Session, r: Receiver, log: Log, n: int, got: set<nat>, began: int, a: Arrival)
    requires Coming(s, r, log, n, got, began) && Possible(s, a) && WindowReaches(log, a)
    requires Spares(s, r, n, began, a) && ForPacket(a, n)
    ensures var (r', delivered) := ArrivalStep(s, r, a); PieceTaken(s, r, n, a.i, got, r', delivered)
  {
    if a.Datagram? {
      DatagramHandled(s, r, log, n, a.i, a.now, got);
    } else {
      RelayedHandled(s, r, n, a.i, a.now, got);
    }
  }

  lemma TableAfterPiece(s: Session, r: Receiver, log: Log, n: int, a: Arrival)
    requires GoodReceiver(s, r, log) && n in s.sent && Possible(s, a) && WindowReaches(log, a)
    requires ForPacket(a, n) && IsNew(log, n)
    ensures ArrivalStep(s, r, a).0.table
         == FeedStep(r.table, HeaderOf(SentOf(s, n), a.i), PieceOf(SentOf(s, n), a.i), a.now).0
  {
    if a.Datagram? {
      HonestDatagramGetsThrough(s, r, n, a.i, a.now);
      SeenIsExactComplement(r.window, log, n);
    } else {
      RelayedDatagramGetsThrough(s, r, n, a.i, a.now);
    }
  }

  /** The time of a packet is that of its first piece. */
  lemma PieceBegins(s: Session, t: Table, n: int, i: nat, now: int, began: int)
    requires GoodSession(s) && GoodTable(t) && !t.closed && n in s.sent && i < Total(SentOf(s, n))
    requires if KeyFor(s, n) in t.pending then t.pending[KeyFor(s, n)].createdAt == began
             else RoomFor(t, KeyFor(s, n)) && now == began
    ensures var t' := FeedStep(t, HeaderOf(SentOf(s, n), i), PieceOf(SentOf(s, n), i), now).0;
            KeyFor(s, n) in t'.pending ==> t'.pending[KeyFor(s, n)].createdAt == began
  {
    var h, payload := HeaderOf(SentOf(s, n), i), PieceOf(SentOf(s, n), i);
    var t' := FeedStep(t, h, payload, now).0;
    if KeyFor(s, n) in t.pending && KeyFor(s, n) in t'.pending {
      BeginningStays(t, h, payload, now, KeyFor(s, n));
    } else if KeyFor(s, n) in t'.pending {
      FirstFragmentBegins(t, h, payload, now);
    }
  }

  /** A piece that does not complete the packet is kept for it. */
  lemma PieceKept(s: Session, r: Receiver, log: Log, n: int, got: set<nat>, began: int, a: Arrival)
    requires Coming(s, r, log, n, got, began) && Possible(s, a) && WindowReaches(log, a)
    requires Spares(s, r, n, began, a) && ForPacket(a, n) && !HasAll(got + {a.i}, Total(SentOf(s, n)))
    ensures var (r', delivered) := ArrivalStep(s, r, a);
            && delivered == None && Coming(s, r', log, n, got + {a.i}, began)
            && KeyFor(s, n) in r'.table.pending
  {
    ArrivalStepNew(s, r, log, a);
    PieceArrival(s, r, log, n, got, began, a);
    TableAfterPiece(s, r, log, n, a);
    PieceBegins(s, r.table, n, a.i, a.now, began);
    assert a.i in got + {a.i};
  }

  // ---------------------------------------------------------------- whole runs

  /** What each arrival of a run delivers. */
  ghost function Results(s: Session, r: Receiver, run: seq<Arrival>): (results: seq<Option<Delivered>>)
    requires GoodContents(s, r) && PossibleRun(s, run)
    ensures |results| == |run|
    decreases |run|
  {
    if run == [] then []
    else
      ArrivalStepIntact(s, r, run[0]);
      var (r', delivered) := ArrivalStep(s, r, run[0]);
      [delivered] + Results(s, r', run[1..])
  }

  ghost function ReceiverAfter(s: Session, r: Receiver, run: seq<Arrival>): Receiver
    requires GoodContents(s, r) && PossibleRun(s, run)
    decreases |run|
  {
    if run == [] then r
    else
      ArrivalStepIntact(s, r, run[0]);
      ReceiverAfter(s, ArrivalStep(s, r, run[0]).0, run[1..])
  }

  /** The pieces of the packet that a run brings. */
  function Carried(n: int, run: seq<Arrival>): set<nat>
  {
    set k | 0 <= k < |run| && ForPacket(run[k], n) :: run[k].i
  }

  function GotWith(n: int, got: set<nat>, a: Arrival): set<nat>
  {
    if ForPacket(a, n) then got + {a.i} else got
  }

  lemma CarriedCons(n: int, got: set<nat>, run: seq<Arrival>)
    requires run != []
    ensures got + Carried(n, run) == GotWith(n, got, run[0]) + Carried(n, run[1..])
  {
    forall k | 0 <= k < |run| && ForPacket(run[k], n)
      ensures run[k].i in (if ForPacket(run[0], n) then {run[0].i} else {}) + Carried(n, run[1..])
    {
      if k > 0 {
        assert run[1..][k - 1] == run[k];
      }
    }
    forall k | 0 <= k < |run| - 1 && ForPacket(run[1..][k], n)
      ensures run[1..][k].i in Carried(n, run)
    {
      assert run[k + 1] == run[1..][k];
    }
  }

  lemma WithoutBothEnds(run: seq<Arrival>)
    requires |run| > 1
    ensures run[..|run| - 1][1..] == run[1..][..|run| - 2]
  {
  }

  /** No datagram of the direct path is 64 or more ahead of the packet, and no tick has a deadline
      after that time. */
  predicate Calm(n: int, began: int, run: seq<Arrival>)
  {
    forall a :: a in run ==> (a.Datagram? ==> a.n < n + 64) && (a.CleanerTick? ==> a.deadline <= began)
  }

  /** The packet is complete with the last arrival of the run and not before. */
  predicate CompletesAtLast(s: Session, n: int, got: set<nat>, run: seq<Arrival>)
    requires n in s.sent && Sendable(SentOf(s, n))
  {
    && run != []
    && HasAll(got + Carried(n, run), Total(SentOf(s, n)))
    && !HasAll(got + Carried(n, run[..|run| - 1]), Total(SentOf(s, n)))
  }

  lemma NextCompletes(s: Session, n: int, got: set<nat>, run: seq<Arrival>)
    requires n in s.sent && Sendable(SentOf(s, n)) && CompletesAtLast(s, n, got, run)
    ensures if |run| == 1 then ForPacket(run[0], n) && HasAll(got + {run[0].i}, Total(SentOf(s, n)))
            else
              && CompletesAtLast(s, n, GotWith(n, got, run[0]), run[1..])
              && !HasAll(GotWith(n, got, run[0]), Total(SentOf(s, n)))
  {
    CarriedCons(n, got, run);
    if |run| == 1 {
      assert Carried(n, run[..0]) == {} && Carried(n, run[1..]) == {};
      assert got + {} == got;
    } else {
      CarriedCons(n, got, run[..|run| - 1]);
      WithoutBothEnds(run);
    }
  }

  /** Nothing comes out for the packet before the last arrival, and with that the packet. */
  ghost predicate DeliveredAtLast(s: Session, r: Receiver, n: int, run: seq<Arrival>)
    requires GoodContents(s, r) && PossibleRun(s, run) && n in s.sent && run != []
  {
    var results := Results(s, r, run);
    && results[|run| - 1] == Some(Delivered(Wrap32(n), s.sent[n]))
    && forall k :: 0 <= k < |run| - 1 && ForPacket(run[k], n) ==> results[k] == None
  }

  lemma FirstThenRest(s: Session, r: Receiver, n: int, run: seq<Arrival>)
    requires GoodContents(s, r) && PossibleRun(s, run) && n in s.sent && |run| > 1
    requires GoodContents(s, ArrivalStep(s, r, run[0]).0) && PossibleRun(s, run[1..])
    requires ForPacket(run[0], n) ==> ArrivalStep(s, r, run[0]).1 == None
    requires DeliveredAtLast(s, ArrivalStep(s, r, run[0]).0, n, run[1..])
    ensures DeliveredAtLast(s, r, n, run)
  {
    var rest := Results(s, ArrivalStep(s, r, run[0]).0, run[1..]);
    assert Results(s, r, run) == [ArrivalStep(s, r, run[0]).1] + rest;
    forall k | 0 <= k < |run| - 1 && ForPacket(run[k], n)
      ensures Results(s, r, run)[k] == None
    {
      if k > 0 {
        assert run[1..][k - 1] == run[k];
      }
    }
  }

  lemma OnlyOne(s: Session, r: Receiver, n: int, a: Arrival)
    requires GoodContents(s, r) && Possible(s, a) && PossibleRun(s, [a]) && n in s.sent
    requires ArrivalStep(s, r, a).1 == Some(Delivered(Wrap32(n), s.sent[n]))
    ensures DeliveredAtLast(s, r, n, [a])
  {
    assert Results(s, r, [a])[0] == ArrivalStep(s, r, a).1;
  }

  /** One arrival of the run, when it is not the last. */
  lemma StepOfRun(s: Session, r: Receiver, log: Log, n: int, got: set<nat>, began: int, a: Arrival)
    requires Coming(s, r, log, n, got, began) && Possible(s, a) && WindowReaches(log, a)
    requires Spares(s, r, n, began, a) && !HasAll(GotWith(n, got, a), Total(SentOf(s, n)))
    ensures var (r', delivered) := ArrivalStep(s, r, a);
            && Coming(s, r', LogAfter(log, a, delivered), n, GotWith(n, got, a), began)
            && (ForPacket(a, n) ==> delivered == None)
            && (KeyFor(s, n) in r.table.pending || ForPacket(a, n) ==> KeyFor(s, n) in r'.table.pending)
  {
    if ForPacket(a, n) {
      PieceKept(s, r, log, n, got, began, a);
    } else {
      OtherArrival(s, r, log, n, got, began, a);
    }
  }

  /** One arrival of a run in reach, and the rest of it. */
  lemma ReachOfRest(s: Session, r: Receiver, log: Log, run: seq<Arrival>)
    requires GoodContents(s, r) && PossibleRun(s, run) && StaysInReach(s, r, log, run) && run != []
    ensures Possible(s, run[0]) && WindowReaches(log, run[0]) && PossibleRun(s, run[1..])
    ensures var (r', delivered) := ArrivalStep(s, r, run[0]);
            GoodContents(s, r') && StaysInReach(s, r', LogAfter(log, run[0], delivered), run[1..])
  {
    ArrivalStepIntact(s, r, run[0]);
  }

  lemma {:induction false} ArrivesFrom(
    s: Session, r: Receiver, log: Log, n: int, got: set<nat>, began: int, run: seq<Arrival>)
    requires Coming(s, r, log, n, got, began) && PossibleRun(s, run) && StaysInReach(s, r, log, run)
    requires CompletesAtLast(s, n, got, run) && Calm(n, began, run)
    requires KeyFor(s, n) in r.table.pending ||
               (ForPacket(run[0], n) && run[0].now == began && RoomFor(r.table, KeyFor(s, n)))
    ensures DeliveredAtLast(s, r, n, run)
    decreases |run|
  {
    var a := run[0];
    assert a in run;
    ReachOfRest(s, r, log, run);
    NextCompletes(s, n, got, run);
    if |run| == 1 {
      PieceArrival(s, r, log, n, got, began, a);
      OnlyOne(s, r, n, a);
      assert run == [a];
    } else {
      StepOfRun(s, r, log, n, got, began, a);
      var (r', delivered) := ArrivalStep(s, r, a);
      ArrivesFrom(s, r', LogAfter(log, a, delivered), n, GotWith(n, got, a), began, run[1..]);
      FirstThenRest(s, r, n, run);
    }
  }

  /** What comes before the first piece. */
  ghost predicate Before(s: Session, r: Receiver, n: int, before: seq<Arrival>)
    requires GoodContents(s, r) && PossibleRun(s, before) && n in s.sent
  {
    && (forall a :: a in before ==> !ForPacket(a, n) && (a.Datagram? ==> a.n < n + 64))
    && var t := ReceiverAfter(s, r, before).table;
       |t.pending| < 1024 && |KeysOf(t.pending.Keys, s.sessionID)| < 32
  }

  /** The last arrival of the run delivers the packet. */
  ghost predicate LastDelivers(s: Session, r: Receiver, n: int, run: seq<Arrival>)
    requires GoodContents(s, r) && PossibleRun(s, run) && n in s.sent && run != []
  {
    Results(s, r, run)[|run| - 1] == Some(Delivered(Wrap32(n), s.sent[n]))
  }

  lemma LastOfRest(s: Session, r: Receiver, n: int, run: seq<Arrival>, r': Receiver)
    requires GoodContents(s, r) && PossibleRun(s, run) && n in s.sent && |run| > 1
    requires ArrivalStep(s, r, run[0]).0 == r' && GoodContents(s, r') && PossibleRun(s, run[1..])
    requires LastDelivers(s, r', n, run[1..])
    ensures LastDelivers(s, r, n, run)
  {
    assert Results(s, r, run) == [ArrivalStep(s, r, run[0]).1] + Results(s, r', run[1..]);
  }

  /** Nothing of the packet has arrived yet. */
  ghost predicate StillToCome(s: Session, r: Receiver, log: Log, n: int, began: int)
  {
    Coming(s, r, log, n, {}, began) && KeyFor(s, n) !in r.table.pending
  }

  ghost predicate InReachAll(s: Session, r: Receiver, log: Log, run: seq<Arrival>)
  {
    GoodContents(s, r) && PossibleRun(s, run) && StaysInReach(s, r, log, run)
  }

  lemma OneBefore(s: Session, r: Receiver, log: Log, n: int, before: seq<Arrival>, began: int, all: seq<Arrival>)
    returns (r': Receiver, log': Log)
    requires before != [] && before <= all && StillToCome(s, r, log, n, began) && InReachAll(s, r, log, all)
    requires PossibleRun(s, before) && Before(s, r, n, before)
    ensures Possible(s, all[0]) && r' == ArrivalStep(s, r, all[0]).0
    ensures StillToCome(s, r', log', n, began) && InReachAll(s, r', log', all[1..])
    ensures PossibleRun(s, before[1..]) && Before(s, r', n, before[1..])
  {
    assert before[0] in before && before[0] == all[0];
    ReachOfRest(s, r, log, all);
    OtherArrival(s, r, log, n, {}, began, all[0]);
    r', log' := ArrivalStep(s, r, all[0]).0, LogAfter(log, all[0], ArrivalStep(s, r, all[0]).1);
  }

  /** The first piece of the packet, and all that follows until it is complete. */
  predicate Arriving(s: Session, n: int, run: seq<Arrival>)
    requires n in s.sent && Sendable(SentOf(s, n))
  {
    run != [] && ForPacket(run[0], n) && CompletesAtLast(s, n, {}, run) && Calm(n, run[0].now, run)
  }

  /** After what comes before, nothing of the packet has arrived and there is room for it; and what
      the last arrival then delivers, it delivers in the whole run. */
  lemma {:induction false} AfterBefore(
    s: Session, r: Receiver, log: Log, n: int, began: int, before: seq<Arrival>, run: seq<Arrival>, all: seq<Arrival>)
    returns (r': Receiver, log': Log)
    requires StillToCome(s, r, log, n, began) && InReachAll(s, r, log, all) && all == before + run && run != []
    requires PossibleRun(s, before) && Before(s, r, n, before)
    ensures StillToCome(s, r', log', n, began) && InReachAll(s, r', log', run)
    ensures RoomFor(r'.table, KeyFor(s, n))
    ensures LastDelivers(s, r', n, run) ==> LastDelivers(s, r, n, all)
    decreases |before|
  {
    if before == [] {
      assert all == run;
      return r, log;
    }
    assert all[1..] == before[1..] + run;
    var r1, log1 := OneBefore(s, r, log, n, before, began, all);
    r', log' := AfterBefore(s, r1, log1, n, began, before[1..], run, all[1..]);
    if LastDelivers(s, r', n, run) {
      LastOfRest(s, r, n, all, r1);
    }
  }

  lemma NothingYet(s: Session, n: int, began: int)
    requires GoodSession(s) && n in s.sent
    ensures StillToCome(s, START, EMPTY_LOG, n, began)
  {
    StartIsGood(s);
  }

  /** From the receiver's start, after any run that has brought nothing of the packet: if pieces of
      it now arrive, by either path, in any order, any number of times and with anything in between,
      and all of them before a tick of the cleaner whose deadline is after the first, then the arrival
      that makes them complete delivers the packet. All it takes besides is room in the table for the
      first piece, and that no datagram of the direct path is 64 or more ahead of it. */
  lemma SentPacketArrives(s: Session, n: int, before: seq<Arrival>, run: seq<Arrival>, all: seq<Arrival>)
    requires GoodSession(s) && n in s.sent && Arriving(s, n, run) && all == before + run
    requires PossibleRun(s, all) && PossibleRun(s, before)
    requires (StartIsGood(s); StaysInReach(s, START, EMPTY_LOG, all) && Before(s, START, n, before))
    ensures (StartIsGood(s); Results(s, START, all)[|all| - 1] == Some(Delivered(Wrap32(n), s.sent[n])))
  {
    var began := run[0].now;
    NothingYet(s, n, began);
    var r, log := AfterBefore(s, START, EMPTY_LOG, n, began, before, run, all);
    ArrivesFrom(s, r, log, n, {}, began, run);
  }
}
