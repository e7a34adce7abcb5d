/** The direct path end to end: the receive loop of internal/agent/client.go and
    internal/path/manager.go on top of the fragmenter, the codecs, the replay window and the
    reassembler. */
module Delivery {
  import opened Words
  import opened UDPFrame
  import opened Fragmentation
  import opened ReassemblyTable
  import opened RoundTrip
  import opened Replay
  import opened Reassembly

  // ---------------------------------------------------------------- one raw packet

  datatype Receiver = Receiver(window: Window, table: Table)

  /** A delivered packet with the wire ID it came under. */
  datatype Delivered = Delivered(packetID: uint32, packet: bytes)

  predicate IsPunch(raw: bytes)
  {
    |raw| >= PUNCH_PACKET_SIZE && raw[..4] == PutUint32(PUNCH_MAGIC)
  }

  function AcceptStep(r: Receiver, h: Header, payload: bytes, now: int): (Receiver, Option<Delivered>)
    requires Shaped(r.table)
  {
    if IsSeen(r.window, h.packetID) then (r, None)
    else
      var (t, out) := FeedStep(r.table, h, payload, now);
      if !out.Assembled? then (Receiver(r.window, t), None)
      else
        var (w, isNew) := MarkStep(r.window, h.packetID);
        (Receiver(w, t), if isNew then Some(Delivered(h.packetID, out.packet)) else None)
  }

  function ReceiveStep(c: P2PCodec, r: Receiver, raw: bytes, now: int): (Receiver, Option<Delivered>)
    requires Shaped(r.table)
  {
    if IsPunch(raw) then (r, None)
    else
      match Opened(c, raw)
      case Err(_) => (r, None)
      case Ok(datagram) =>
        match DecodeUDP(datagram)
        case Err(_) => (r, None)
        case Ok((h, payload)) => AcceptStep(r, h, payload, now)
  }

  /** The relay branch: the datagram comes unsealed, and no window guards it. */
  function RelayStep(r: Receiver, datagram: bytes, now: int): (Receiver, Option<Delivered>)
    requires Shaped(r.table)
  {
    match DecodeUDP(datagram)
    case Err(_) => (r, None)
    case Ok((h, payload)) =>
      var (t, out) := FeedStep(r.table, h, payload, now);
      (r.(table := t), if out.Assembled? then Some(Delivered(h.packetID, out.packet)) else None)
  }

  /** One session's receiver; the reassembler may be shared with other sessions. */
  class P2PReceiver {
    const codec: P2PCodec
    const replay: ReplayWindow
    const reassembler: Reassembler

    constructor (codec: P2PCodec, replay: ReplayWindow, reassembler: Reassembler)
      ensures this.codec == codec && this.replay == replay && this.reassembler == reassembler
    {
      this.codec, this.replay, this.reassembler := codec, replay, reassembler;
    }

    function State(): Receiver
      reads replay, reassembler, reassembler.pending.Values
    {
      Receiver(replay.State(), reassembler.State())
    }

    method Feed(h: Header, payload: bytes, now: int) returns (out: Outcome)
      requires reassembler.Valid()
      modifies reassembler.pool, reassembler`pending, reassembler`sessionCount
      modifies reassembler.pending.Values, reassembler.pool.free
      ensures reassembler.Valid() && State().window == old(State()).window
      ensures (State().table, out) == FeedStep(old(State()).table, h, payload, now)
    {
      out := reassembler.FeedAppend(h, payload, now);
    }

    method Accept(h: Header, payload: bytes, now: int) returns (delivered: Option<Delivered>)
      requires reassembler.Valid()
      modifies replay, reassembler.pool, reassembler`pending, reassembler`sessionCount
      modifies reassembler.pending.Values, reassembler.pool.free
      ensures reassembler.Valid()
      ensures (State(), delivered) == AcceptStep(old(State()), h, payload, now)
    {
      var seen := replay.Seen(h.packetID);
      if seen {
        return None;
      }
      var out := Feed(h, payload, now);
      if !out.Assembled? {
        return None;
      }
      delivered := Complete(h.packetID, out.packet);
    }

    /** Marks a reassembled packet completed and passes it on unless the window refuses it. */
    method Complete(packetID: uint32, packet: bytes) returns (delivered: Option<Delivered>)
      requires reassembler.Valid()
      modifies replay
      ensures reassembler.Valid() && State().table == old(State()).table
      ensures var (w, isNew) := MarkStep(old(State()).window, packetID);
              State().window == w && delivered == if isNew then Some(Delivered(packetID, packet)) else None
    {
      var isNew := replay.MarkCompleted(packetID);
      if !isNew {
        return None;
      }
      return Some(Delivered(packetID, packet));
    }

    method Receive(raw: bytes, now: int) returns (delivered: Option<Delivered>)
      requires reassembler.Valid()
      modifies replay, reassembler.pool, reassembler`pending, reassembler`sessionCount
      modifies reassembler.pending.Values, reassembler.pool.free
      ensures reassembler.Valid()
      ensures (State(), delivered) == ReceiveStep(codec, old(State()), raw, now)
    {
      if IsPunch(raw) {
        return None;
      }
      var datagram := Opened(codec, raw);
      if datagram.Err? {
        return None;
      }
      var decoded := DecodeUDP(datagram.value);
      if decoded.Err? {
        return None;
      }
      delivered := Accept(decoded.value.0, decoded.value.1, now);
    }

    method ReceiveRelayed(datagram: bytes, now: int) returns (delivered: Option<Delivered>)
      requires reassembler.Valid()
      modifies reassembler.pool, reassembler`pending, reassembler`sessionCount
      modifies reassembler.pending.Values, reassembler.pool.free
      ensures reassembler.Valid()
      ensures (State(), delivered) == RelayStep(old(State()), datagram, now)
    {
      var decoded := DecodeUDP(datagram);
      if decoded.Err? {
        return None;
      }
      var out := Feed(decoded.value.0, decoded.value.1, now);
      if !out.Assembled? {
        return None;
      }
      return Some(Delivered(decoded.value.0.packetID, out.packet));
    }
  }

  // ---------------------------------------------------------------- the sender and the network

  /** The sender's side of a session: what it sent under each value of its packet counter. */
  datatype Session = Session(sessionID: uint32, max: nat, codec: P2PCodec, sent: map<int, bytes>)

  function SentOf(s: Session, n: int): Sent
    requires n in s.sent
  {
    Sent(s.sessionID, Wrap32(n), s.sent[n], s.max)
  }

  /** Every packet is one the fragmenter and the reassembler take, and no two share a wire ID. */
  ghost predicate GoodSession(s: Session)
  {
    && (forall n :: n in s.sent ==> Sendable(SentOf(s, n)))
    && (forall m, n :: m in s.sent && n in s.sent && m != n ==> Wrap32(m) != Wrap32(n))
  }

  /** What the network and the rest of the process can do next: bring datagram i of packet n, in
      any order and any number of times; bring it by the relay, past the window, into the same
      reassembler; bring bytes that do not authenticate; feed another session's fragment to the
      reassembler; let the cleaner tick. */
  datatype Arrival =
    | Datagram(n: int, i: nat, now: int)
    | Relayed(n: int, i: nat, now: int)
    | Junk(raw: bytes, now: int)
    | Foreign(h: Header, payload: bytes, now: int)
    | CleanerTick(deadline: int)

  predicate Possible(s: Session, a: Arrival)
  {
    match a
    case Datagram(n, i, _) => n in s.sent && Sendable(SentOf(s, n)) && i < Total(SentOf(s, n))
    case Relayed(n, i, _) => n in s.sent && Sendable(SentOf(s, n)) && i < Total(SentOf(s, n))
    case Junk(raw, _) => Opened(s.codec, raw).Err?
    case Foreign(h, _, _) => h.sessionID != s.sessionID
    case CleanerTick(_) => true
  }

  function DatagramOf(s: Session, n: int, i: nat): bytes
    requires n in s.sent && Sendable(SentOf(s, n)) && i < Total(SentOf(s, n))
  {
    Datagrams(s.sessionID, Wrap32(n), s.sent[n], s.max)[i]
  }

  function RawOf(s: Session, n: int, i: nat): bytes
    requires n in s.sent && Sendable(SentOf(s, n)) && i < Total(SentOf(s, n))
  {
    Sealed(s.codec, DatagramOf(s, n, i))
  }

  function ArrivalStep(s: Session, r: Receiver, a: Arrival): (Receiver, Option<Delivered>)
    requires Shaped(r.table) && Possible(s, a)
  {
    match a
    case Datagram(n, i, now) => ReceiveStep(s.codec, r, RawOf(s, n, i), now)
    case Relayed(n, i, now) => RelayStep(r, DatagramOf(s, n, i), now)
    case Junk(raw, now) => ReceiveStep(s.codec, r, raw, now)
    case Foreign(h, payload, now) => (Receiver(r.window, FeedStep(r.table, h, payload, now).0), None)
    case CleanerTick(deadline) => (Receiver(r.window, ExpireStep(r.table, deadline)), None)
  }

  /** A datagram that comes by the direct path is within the reach of the window. */
  predicate WindowReaches(log: Log, a: Arrival)
  {
    a.Datagram? ==> InReach(log, a.n)
  }

  /** The ideal log after the step: it records exactly what the direct path delivered. */
  function LogAfter(log: Log, a: Arrival, delivered: Option<Delivered>): Log
  {
    if a.Datagram? && delivered.Some? then Record(log, a.n) else log
  }

  // ---------------------------------------------------------------- what holds between arrivals

  /** Every slot in use holds the right piece of that packet. */
  ghost predicate PieceWise(p: Partial, s: Sent)
  {
    && Sendable(s)
    && p.fragmentCount == Total(s) <= |p.fragments|
    && (forall i :: 0 <= i < Total(s) ==> p.fragments[i].None? || p.fragments[i] == Some(PieceOf(s, i)))
  }

  ghost predicate OnlyGenuinePieces(s: Session, t: Table)
  {
    forall n :: n in s.sent && SentKey(SentOf(s, n)) in t.pending ==>
      PieceWise(t.pending[SentKey(SentOf(s, n))], SentOf(s, n))
  }

  ghost predicate GoodContents(s: Session, r: Receiver)
  {
    GoodSession(s) && GoodTable(r.table) && OnlyGenuinePieces(s, r.table)
  }

  ghost predicate GoodReceiver(s: Session, r: Receiver, log: Log)
  {
    GoodContents(s, r) && Represents(r.window, log)
  }

  function FilledIds(slots: seq<Option<bytes>>): set<nat>
  {
    set i: nat | i < |slots| && slots[i].Some?
  }

  lemma PieceWiseIsUnderway(s: Session, t: Table, n: int) returns (got: set<nat>)
    requires GoodSession(s) && GoodTable(t) && OnlyGenuinePieces(s, t) && n in s.sent
    ensures Underway(t, SentOf(s, n), got) && !HasAll(got, Total(SentOf(s, n)))
  {
    var q := SentOf(s, n);
    got := {};
    assert 0 !in got;
    if SentKey(q) in t.pending {
      var p := t.pending[SentKey(q)];
      got := FilledIds(p.fragments);
      if HasAll(got, Total(q)) {
        forall i | 0 <= i < Total(q)
          ensures p.fragments[i].Some?
        {
          assert i in got;
        }
      }
      AllFilled(p.fragments, Total(q));
    }
  }

  /** Another key's fragment, and the cleaner, leave the packets of this session as they are. */
  lemma FeedTouchesOnlyItsKey(t: Table, h: Header, payload: bytes, now: int)
    requires Shaped(t)
    ensures FeedStep(t, h, payload, now).0.pending - {KeyOf(h)} == t.pending - {KeyOf(h)}
  {
  }

  lemma OthersStayGenuine(s: Session, t: Table, t': Table, key: Key)
    requires GoodSession(s) && OnlyGenuinePieces(s, t)
    requires t'.pending - {key} == t.pending - {key}
    requires forall n :: n in s.sent && SentKey(SentOf(s, n)) == key && key in t'.pending ==>
               PieceWise(t'.pending[key], SentOf(s, n))
    ensures OnlyGenuinePieces(s, t')
  {
    forall n | n in s.sent && SentKey(SentOf(s, n)) in t'.pending
      ensures PieceWise(t'.pending[SentKey(SentOf(s, n))], SentOf(s, n))
    {
      var k := SentKey(SentOf(s, n));
      if k != key {
        assert k in t'.pending - {key};
        assert (t'.pending - {key})[k] == (t.pending - {key})[k];
      }
    }
  }

  // ---------------------------------------------------------------- one arrival

  /** An honest datagram passes the punch filter, the codec and the parser unchanged. */
  lemma HonestDatagramGetsThrough(s: Session, r: Receiver, n: int, i: nat, now: int)
    requires GoodSession(s) && Shaped(r.table) && n in s.sent && i < Total(SentOf(s, n))
    ensures ReceiveStep(s.codec, r, RawOf(s, n, i), now)
         == AcceptStep(r, HeaderOf(SentOf(s, n), i), PieceOf(SentOf(s, n), i), now)
  {
    var d := Datagrams(s.sessionID, Wrap32(n), s.sent[n], s.max)[i];
    var raw := RawOf(s, n, i);
    OpensExactlySealed(s.codec, raw, d);
    DatagramsDecode(s.sessionID, Wrap32(n), s.sent[n], s.max, i);
    assert raw[..4] == PutUint32(P2P_MAGIC);
    assert PutUint32(P2P_MAGIC)[3] != PutUint32(PUNCH_MAGIC)[3];
  }

  lemma RelayedDatagramGetsThrough(s: Session, r: Receiver, n: int, i: nat, now: int)
    requires GoodSession(s) && Shaped(r.table) && n in s.sent && i < Total(SentOf(s, n))
    ensures var (t, out) := FeedStep(r.table, HeaderOf(SentOf(s, n), i), PieceOf(SentOf(s, n), i), now);
            RelayStep(r, DatagramOf(s, n, i), now)
            == (r.(table := t), if out.Assembled? then Some(Delivered(Wrap32(n), out.packet)) else None)
  {
    DatagramsDecode(s.sessionID, Wrap32(n), s.sent[n], s.max, i);
  }

  /** Feeding a piece of packet n yields nothing or packet n, and spoils no other packet. */
  lemma FeedingAPiece(s: Session, t: Table, n: int, i: nat, now: int)
    requires GoodSession(s) && GoodTable(t) && OnlyGenuinePieces(s, t) && n in s.sent && i < Total(SentOf(s, n))
    ensures var (t', out) := FeedStep(t, HeaderOf(SentOf(s, n), i), PieceOf(SentOf(s, n), i), now);
            && OnlyGenuinePieces(s, t')
            && (out.Assembled? ==> out.packet == s.sent[n])
  {
    var q := SentOf(s, n);
    var h, payload := HeaderOf(q, i), PieceOf(q, i);
    FeedTouchesOnlyItsKey(t, h, payload, now);
    if Total(q) == 1 {
      FeedOnlyPiece(t, q, now);
    } else if !t.closed && RoomFor(t, SentKey(q)) {
      var got := PieceWiseIsUnderway(s, t, n);
      var r := FeedPiece(t, q, got, i, now);
      OthersStayGenuine(s, t, r.0, SentKey(q));
    }
  }

  /** What an arrival delivers is the packet sent under its number. */
  ghost predicate DeliversSent(s: Session, a: Arrival, delivered: Option<Delivered>)
    requires Possible(s, a)
  {
    delivered.Some? ==>
      (a.Datagram? || a.Relayed?) && delivered.value == Delivered(Wrap32(a.n), s.sent[a.n])
  }

  lemma DatagramStep(s: Session, r: Receiver, n: int, i: nat, now: int)
    requires GoodContents(s, r) && Possible(s, Datagram(n, i, now))
    ensures var (r', delivered) := ArrivalStep(s, r, Datagram(n, i, now));
            GoodContents(s, r') && DeliversSent(s, Datagram(n, i, now), delivered)
  {
    HonestDatagramGetsThrough(s, r, n, i, now);
    FeedingAPiece(s, r.table, n, i, now);
    FeedKeepsGood(r.table, HeaderOf(SentOf(s, n), i), PieceOf(SentOf(s, n), i), now);
  }

  lemma RelayedStep(s: Session, r: Receiver, n: int, i: nat, now: int)
    requires GoodContents(s, r) && Possible(s, Relayed(n, i, now))
    ensures var (r', delivered) := ArrivalStep(s, r, Relayed(n, i, now));
            GoodContents(s, r') && DeliversSent(s, Relayed(n, i, now), delivered)
  {
    RelayedDatagramGetsThrough(s, r, n, i, now);
    FeedingAPiece(s, r.table, n, i, now);
    FeedKeepsGood(r.table, HeaderOf(SentOf(s, n), i), PieceOf(SentOf(s, n), i), now);
  }

  /** Any arrival, by either path and however old: what it delivers is the packet sent under that
      ID, and every packet of the session that is still incomplete stays free of other bytes. */
  lemma ArrivalStepIntact(s: Session, r: Receiver, a: Arrival)
    requires GoodContents(s, r) && Possible(s, a)
    ensures var (r', delivered) := ArrivalStep(s, r, a); GoodContents(s, r') && DeliversSent(s, a, delivered)
  {
    match a
    case Datagram(n, i, now) =>
      DatagramStep(s, r, n, i, now);
    case Relayed(n, i, now) =>
      RelayedStep(s, r, n, i, now);
    case Junk(raw, now) =>
    case Foreign(h, payload, now) =>
      FeedKeepsGood(r.table, h, payload, now);
      FeedTouchesOnlyItsKey(r.table, h, payload, now);
      OthersStayGenuine(s, r.table, FeedStep(r.table, h, payload, now).0, KeyOf(h));
    case CleanerTick(deadline) =>
      ExpireKeepsGood(r.table, deadline);
  }

  lemma OnlyDatagramsMoveWindow(s: Session, r: Receiver, a: Arrival)
    requires Shaped(r.table) && Possible(s, a) && !a.Datagram?
    ensures ArrivalStep(s, r, a).0.window == r.window
  {
  }

  /** Within the window's reach an arrival keeps the window in step with the ideal log, and what
      the direct path delivers it has not delivered before. */
  lemma ArrivalStepNew(s: Session, r: Receiver, log: Log, a: Arrival)
    requires GoodReceiver(s, r, log) && Possible(s, a) && WindowReaches(log, a)
    ensures var (r', delivered) := ArrivalStep(s, r, a);
            && GoodReceiver(s, r', LogAfter(log, a, delivered))
            && (a.Datagram? && delivered.Some? ==> a.n !in log.accepted)
  {
    ArrivalStepIntact(s, r, a);
    if a.Datagram? {
      HonestDatagramGetsThrough(s, r, a.n, a.i, a.now);
      SeenIsExactComplement(r.window, log, a.n);
      if IsNew(log, a.n) {
        MarkRefinesRecord(r.window, log, a.n);
      }
    } else {
      OnlyDatagramsMoveWindow(s, r, a);
    }
  }

  // ---------------------------------------------------------------- whole runs

  /** Each arrival is honest, or junk, or somebody else's. */
  ghost predicate PossibleRun(s: Session, run: seq<Arrival>)
  {
    forall k :: 0 <= k < |run| ==> Possible(s, run[k])
  }

  /** The packet counter stays within the window's reach. */
  ghost predicate StaysInReach(s: Session, r: Receiver, log: Log, run: seq<Arrival>)
    requires GoodContents(s, r) && PossibleRun(s, run)
    decreases |run|
  {
    run == []
    || (&& WindowReaches(log, run[0])
        && (ArrivalStepIntact(s, r, run[0]);
            var (r', delivered) := ArrivalStep(s, r, run[0]);
            StaysInReach(s, r', LogAfter(log, run[0], delivered), run[1..])))
  }

  /** A packet handed to the local RDP socket: the counter it was sent under, and the path. */
  datatype Handed = Handed(n: int, packet: bytes, direct: bool)

  ghost function Deliveries(s: Session, r: Receiver, run: seq<Arrival>): seq<Handed>
    requires GoodContents(s, r) && PossibleRun(s, run)
    decreases |run|
  {
    if run == [] then []
    else
      ArrivalStepIntact(s, r, run[0]);
      var (r', delivered) := ArrivalStep(s, r, run[0]);
      var rest := Deliveries(s, r', run[1..]);
      if delivered.Some? then [Handed(run[0].n, delivered.value.packet, run[0].Datagram?)] + rest else rest
  }

  /** Each delivery is a packet that was sent, unaltered. */
  ghost predicate Intact(s: Session, ds: seq<Handed>)
  {
    forall d :: d in ds ==> d.n in s.sent && d.packet == s.sent[d.n]
  }

  /** The direct path delivers no packet twice. */
  ghost predicate DirectOnce(ds: seq<Handed>)
  {
    forall a, b :: 0 <= a < b < |ds| && ds[a].direct && ds[b].direct ==> ds[a].n != ds[b].n
  }

  lemma {:induction false} DeliveriesIntact(s: Session, r: Receiver, run: seq<Arrival>)
    requires GoodContents(s, r) && PossibleRun(s, run)
    ensures Intact(s, Deliveries(s, r, run))
    decreases |run|
  {
    if run != [] {
      ArrivalStepIntact(s, r, run[0]);
      DeliveriesIntact(s, ArrivalStep(s, r, run[0]).0, run[1..]);
    }
  }

  lemma AnotherDelivery(d: Handed, ds: seq<Handed>)
    requires DirectOnce(ds) && (d.direct ==> forall e :: e in ds && e.direct ==> e.n != d.n)
    ensures DirectOnce([d] + ds)
  {
  }

  lemma {:induction false} DeliveriesOnce(s: Session, r: Receiver, log: Log, run: seq<Arrival>)
    requires GoodReceiver(s, r, log) && PossibleRun(s, run) && StaysInReach(s, r, log, run)
    ensures DirectOnce(Deliveries(s, r, run))
    ensures forall d :: d in Deliveries(s, r, run) && d.direct ==> d.n !in log.accepted
    decreases |run|
  {
    if run != [] {
      ArrivalStepNew(s, r, log, run[0]);
      ArrivalStepIntact(s, r, run[0]);
      var (r', delivered) := ArrivalStep(s, r, run[0]);
      var log' := LogAfter(log, run[0], delivered);
      DeliveriesOnce(s, r', log', run[1..]);
      if delivered.Some? {
        AnotherDelivery(Handed(run[0].n, delivered.value.packet, run[0].Datagram?), Deliveries(s, r', run[1..]));
      }
    }
  }

  const START := Receiver(EMPTY, EMPTY_TABLE)

  lemma StartIsGood(s: Session)
    requires GoodSession(s)
    ensures GoodReceiver(s, START, EMPTY_LOG)
  {
    ShutdownKeepsGood(EMPTY_TABLE);
  }

  /** Every packet delivered, by either path, is as it was sent: for every run of reordered,
      duplicated, lost and interleaved datagrams, also when the sender changes to the relay and
      pieces of its packets come both ways. And the direct path delivers each packet at most once,
      if the run stays within the reach of its window. */
  lemma DirectPathDelivery(s: Session, run: seq<Arrival>)
    requires GoodSession(s) && PossibleRun(s, run)
    ensures (StartIsGood(s); Intact(s, Deliveries(s, START, run)))
    ensures (StartIsGood(s); StaysInReach(s, START, EMPTY_LOG, run) ==> DirectOnce(Deliveries(s, START, run)))
  {
    StartIsGood(s);
    DeliveriesIntact(s, START, run);
    if StaysInReach(s, START, EMPTY_LOG, run) {
      DeliveriesOnce(s, START, EMPTY_LOG, run);
    }
  }

  /** And it does deliver: the datagram that completes a new packet brings that packet out, because
      what the window had not seen it will not refuse either. */
  lemma CompletingDatagramDelivers(s: Session, r: Receiver, log: Log, n: int, i: nat, now: int, got: set<nat>)
    requires GoodReceiver(s, r, log) && Possible(s, Datagram(n, i, now)) && InReach(log, n) && IsNew(log, n)
    requires !r.table.closed && RoomFor(r.table, SentKey(SentOf(s, n)))
    requires Underway(r.table, SentOf(s, n), got) && HasAll(got + {i}, Total(SentOf(s, n)))
    ensures ArrivalStep(s, r, Datagram(n, i, now)).1 == Some(Delivered(Wrap32(n), s.sent[n]))
  {
    HonestDatagramGetsThrough(s, r, n, i, now);
    SeenIsExactComplement(r.window, log, n);
    MarkRefinesRecord(r.window, log, n);
    var out := FeedPiece(r.table, SentOf(s, n), got, i, now);
  }
}
