/** One direction of a mux session as a system of steps: many writers, one byte wire guarded by
    the write token, the reader loop, and the streams it feeds
    (internal/transport/tlsmux/tlsmux.go). Every step is one atomic action of one goroutine. */
module MuxSession {
  import opened Words
  import opened MuxWire

  const MAX_STREAMS: nat := 256
  const STREAM_QUEUE_SIZE: nat := 64
  const DATAGRAM_QUEUE_SIZE: nat := 256

  // ---------------------------------------------------------------- the state

  /** A writer that took the token: its frame and how much of it has been accepted. */
  datatype Holding = Holding(frame: Frame, done: nat)

  datatype StopReason = ProtocolError | StreamLimit | SessionOver

  /** Where the reader loop stands. */
  datatype Reader =
    | AtHeader
    | InPayload(kind: uint8, streamID: uint32, length: nat)
    | Handing(streamID: uint32, payload: bytes)
    | Stopped(reason: StopReason)

  /** The receiving half of a stream. `returned` is the history of what Read has handed out. */
  datatype Inbox = Inbox(queue: seq<bytes>, current: bytes, returned: bytes, remoteDone: bool)

  const NEW_INBOX := Inbox([], [], [], false)

  /** `taken`, `started`, `missing` and `consumed` are history: the datagrams handed to the
      application, the frames whose writing began, the bytes the last of them still lacks, and how
      many of them the reader loop has dealt with. */
  datatype State = State(
    writerIsClient: bool,
    nextID: nat,
    reserved: set<uint32>,
    accepted: set<uint32>,
    token: bool,
    holders: map<nat, Holding>,
    broken: bool,
    unread: bytes,
    reader: Reader,
    peerNextID: nat,
    streams: map<uint32, Inbox>,
    closedHere: set<uint32>,
    datagrams: seq<bytes>,
    taken: seq<bytes>,
    started: seq<Frame>,
    missing: nat,
    consumed: nat)

  function Initial(writerIsClient: bool): State
  {
    State(writerIsClient, if writerIsClient then 1 else 2, {}, {}, true, map[], false, [], AtHeader,
          if writerIsClient then 2 else 1, map[], {}, [], [], [], 0, 0)
  }

  /** The frames that are completely on the wire or already off it. */
  function Complete(st: State): seq<Frame>
  {
    if st.missing == 0 || st.started == [] then st.started else st.started[..|st.started| - 1]
  }

  function Registered(st: State): set<uint32>
  {
    st.streams.Keys + st.closedHere
  }

  predicate OwnedByClient(id: nat)
  {
    id % 2 == 1
  }

  predicate OwnedByWriter(st: State, id: nat)
  {
    OwnedByClient(id) == st.writerIsClient
  }

  // ---------------------------------------------------------------- the actions

  datatype Action =
    | Reserve
    | StartOpen(w: nat, id: uint32)
    | StartFrame(w: nat, frame: Frame)
    | Put(w: nat, n: nat)
    | Finish(w: nat)
    | Fail(w: nat)
    | AcceptAtWriter(id: uint32)
    | ReadHeader
    | ReadPayload
    | HandOver
    | StopReading
    | PeerOpen
    | CloseLocal(id: uint32)
    | Take(id: uint32)
    | Copy(id: uint32, n: nat)
    | TakeDatagram

  predicate IsWriterStep(a: Action)
  {
    a.Reserve? || a.StartOpen? || a.StartFrame? || a.Put? || a.Finish? || a.Fail? || a.AcceptAtWriter?
  }

  /** The writing side may send on streams the peer opened and on those whose open frame is out. */
  ghost predicate CanWrite(st: State, id: uint32)
  {
    id in st.accepted || exists q :: 0 <= q < |Complete(st)| && Complete(st)[q] == Frame(OPEN, id, [])
  }

  ghost predicate MaySend(st: State, f: Frame)
  {
    if f.kind == DATA then |f.payload| <= MAX_WRITE_CHUNK && CanWrite(st, f.streamID)
    else if f.kind == CLOSE then f.payload == [] && CanWrite(st, f.streamID)
    else f.kind == DATAGRAM && f.streamID == 0 && Fitting(f)
  }

  predicate HeaderReady(st: State)
  {
    st.reader.AtHeader? && |st.unread| >= FRAME_HEADER_SIZE
  }

  ghost predicate Enabled(st: State, a: Action)
  {
    match a
    case Reserve => st.nextID < TWO_32
    case StartOpen(w, id) => st.token && w !in st.holders && id in st.reserved
    case StartFrame(w, f) => st.token && w !in st.holders && MaySend(st, f)
    case Put(w, n) =>
      && w in st.holders && !st.broken && Fitting(st.holders[w].frame)
      && 0 < n && st.holders[w].done + n <= |FrameBytes(st.holders[w].frame)|
    case Finish(w) =>
      w in st.holders && Fitting(st.holders[w].frame) && st.holders[w].done == |FrameBytes(st.holders[w].frame)|
    case Fail(w) =>
      w in st.holders && Fitting(st.holders[w].frame) && st.holders[w].done < |FrameBytes(st.holders[w].frame)|
    case AcceptAtWriter(id) => id in Registered(st) && !OwnedByWriter(st, id)
    case ReadHeader => HeaderReady(st)
    case ReadPayload => PayloadReady(st)
    case HandOver =>
      st.reader.Handing? &&
      (st.reader.streamID in st.streams ==> |st.streams[st.reader.streamID].queue| < STREAM_QUEUE_SIZE)
    case StopReading => true
    case PeerOpen => st.peerNextID < TWO_32
    case CloseLocal(id) => id in st.streams
    case Take(id) => id in st.streams && st.streams[id].current == [] && st.streams[id].queue != []
    case Copy(id, n) => id in st.streams && n <= |st.streams[id].current|
    case TakeDatagram => st.datagrams != []
  }

  /** Taking the token and beginning a frame. On a lost connection nothing will be written. */
  function Begin(st: State, w: nat, f: Frame): State
    requires Fitting(f)
  {
    var st1 := st.(token := false, holders := st.holders[w := Holding(f, 0)]);
    if st.broken then st1 else st1.(started := st.started + [f], missing := |FrameBytes(f)|)
  }

  /** The connection accepts the next n bytes of the frame. */
  function Accepted(st: State, w: nat, n: nat): State
    requires w in st.holders && Fitting(st.holders[w].frame)
    requires st.holders[w].done + n <= |FrameBytes(st.holders[w].frame)|
  {
    var hold := st.holders[w];
    st.(holders := st.holders[w := Holding(hold.frame, hold.done + n)],
        unread := st.unread + FrameBytes(hold.frame)[hold.done..hold.done + n],
        missing := if st.missing >= n then st.missing - n else 0)
  }

  /** The token goes back to its channel, whether the frame was written or the connection failed. */
  function Released(st: State, w: nat, lost: bool): State
  {
    st.(token := true, holders := st.holders - {w}, broken := lost || st.broken)
  }

  /** An open frame read: the stream is there, with nothing in it. */
  function Opened(st: State, id: uint32): State
    requires |st.unread| >= FRAME_HEADER_SIZE
  {
    st.(unread := st.unread[FRAME_HEADER_SIZE..], streams := st.streams[id := NEW_INBOX], consumed := st.consumed + 1)
  }

  function ClosedByPeer(st: State, id: uint32): State
    requires |st.unread| >= FRAME_HEADER_SIZE
  {
    st.(unread := st.unread[FRAME_HEADER_SIZE..], consumed := st.consumed + 1,
        streams := if id in st.streams then st.streams[id := st.streams[id].(remoteDone := true)] else st.streams)
  }

  function PayloadAhead(st: State, h: ParsedHeader): State
    requires |st.unread| >= FRAME_HEADER_SIZE
  {
    st.(unread := st.unread[FRAME_HEADER_SIZE..], reader := InPayload(h.kind, h.streamID, h.length))
  }

  function StoppedAfterHeader(st: State, reason: StopReason): State
    requires |st.unread| >= FRAME_HEADER_SIZE
  {
    st.(unread := st.unread[FRAME_HEADER_SIZE..], reader := Stopped(reason))
  }

  /** What the loop does with a complete header. */
  function HeaderRead(st: State, h: ParsedHeader): State
    requires |st.unread| >= FRAME_HEADER_SIZE
  {
    if h.length > MAX_FRAME_PAYLOAD then StoppedAfterHeader(st, ProtocolError)
    else if h.kind == OPEN then
      if h.streamID == 0 || h.length != 0 || !OwnedByWriter(st, h.streamID) then StoppedAfterHeader(st, ProtocolError)
      else if h.streamID in st.streams then StoppedAfterHeader(st, ProtocolError)
      else if |st.streams| >= MAX_STREAMS then StoppedAfterHeader(st, StreamLimit)
      else Opened(st, h.streamID)
    else if h.kind == DATA then PayloadAhead(st, h)
    else if h.kind == CLOSE then
      if h.length != 0 then StoppedAfterHeader(st, ProtocolError) else ClosedByPeer(st, h.streamID)
    else if h.kind == DATAGRAM then
      if h.streamID != 0 then StoppedAfterHeader(st, ProtocolError) else PayloadAhead(st, h)
    else StoppedAfterHeader(st, ProtocolError)
  }

  predicate PayloadReady(st: State)
  {
    st.reader.InPayload? && |st.unread| >= st.reader.length
  }

  /** What the loop does with a complete payload. Data waits in the loop's hands for room in the
      queue of its stream; a datagram that finds its queue full is dropped. */
  function PayloadRead(st: State): State
    requires PayloadReady(st)
  {
    var payload := st.unread[..st.reader.length];
    var st1 := st.(unread := st.unread[st.reader.length..], consumed := st.consumed + 1);
    if st.reader.kind == DATA then
      st1.(reader := if st.reader.streamID in st.streams then Handing(st.reader.streamID, payload) else AtHeader)
    else
      st1.(reader := AtHeader,
           datagrams := if |st.datagrams| < DATAGRAM_QUEUE_SIZE then st.datagrams + [payload] else st.datagrams)
  }

  function WithInbox(st: State, id: uint32, inbox: Inbox): State
  {
    st.(streams := st.streams[id := inbox])
  }

  /** The reading side opens a stream of its own, unless it has too many; the number is used up. */
  function OpenedHere(st: State): State
    requires st.peerNextID < TWO_32
  {
    st.(peerNextID := st.peerNextID + 2,
        streams := if |st.streams| >= MAX_STREAMS then st.streams else st.streams[st.peerNextID := NEW_INBOX])
  }

  function HandedOver(st: State): State
    requires st.reader.Handing?
  {
    var id := st.reader.streamID;
    if id in st.streams then
      WithInbox(st, id, st.streams[id].(queue := st.streams[id].queue + [st.reader.payload])).(reader := AtHeader)
    else st.(reader := AtHeader)
  }

  ghost function Apply(st: State, a: Action): State
    requires Enabled(st, a)
  {
    match a
    case Reserve => st.(reserved := st.reserved + {st.nextID}, nextID := st.nextID + 2)
    case StartOpen(w, id) => Begin(st.(reserved := st.reserved - {id}), w, Frame(OPEN, id, []))
    case StartFrame(w, f) => Begin(st, w, f)
    case Put(w, n) => Accepted(st, w, n)
    case Finish(w) => Released(st, w, false)
    case Fail(w) => Released(st, w, true)
    case AcceptAtWriter(id) => st.(accepted := st.accepted + {id})
    case ReadHeader =>
      HeaderRead(st, ParseHeader(st.unread[..FRAME_HEADER_SIZE]))
    case ReadPayload => PayloadRead(st)
    case HandOver => HandedOver(st)
    case StopReading => if st.reader.Stopped? then st else st.(reader := Stopped(SessionOver))
    case PeerOpen => OpenedHere(st)
    case CloseLocal(id) => st.(streams := st.streams - {id}, closedHere := st.closedHere + {id})
    case Take(id) =>
      var b := st.streams[id];
      WithInbox(st, id, b.(current := b.queue[0], queue := b.queue[1..]))
    case Copy(id, n) =>
      var b := st.streams[id];
      WithInbox(st, id, b.(current := b.current[n..], returned := b.returned + b.current[..n]))
    case TakeDatagram => st.(datagrams := st.datagrams[1..], taken := st.taken + [st.datagrams[0]])
  }

  // ---------------------------------------------------------------- the invariant

  /** The token is in its channel or held by exactly one writer. */
  ghost predicate OneToken(st: State)
  {
    if st.token then st.holders == map[]
    else exists w :: st.holders.Keys == {w}
  }

  /** What an honest writer sends. */
  predicate Legal(st: State, f: Frame)
  {
    && Fitting(f)
    && (f.kind == OPEN ==> f.payload == [] && 0 < f.streamID < st.nextID && OwnedByWriter(st, f.streamID))
    && (f.kind == CLOSE ==> f.payload == [])
    && (f.kind == DATAGRAM ==> f.streamID == 0)
    && OPEN <= f.kind <= DATAGRAM
  }

  ghost predicate LegalHistory(st: State)
  {
    && (forall q :: 0 <= q < |st.started| ==> Legal(st, st.started[q]))
    && (st.started == [] ==> st.missing == 0)
    && (st.started != [] ==> st.missing <= |FrameBytes(st.started[|st.started| - 1])|)
    && (forall w :: w in st.holders ==> Fitting(st.holders[w].frame))
    && (if st.broken then st.missing > 0 && forall w :: w in st.holders ==> st.holders[w].done == 0
        else if st.token then st.missing == 0
        else forall w :: w in st.holders ==>
               && st.started != [] && st.started[|st.started| - 1] == st.holders[w].frame
               && st.missing + st.holders[w].done == |FrameBytes(st.holders[w].frame)|)
  }

  lemma LegalIsFitting(st: State)
    requires LegalHistory(st)
    ensures AllFitting(st.started)
  {
  }

  /** What the reader loop will read if the last frame is completed: in the middle of a frame it
      has the header already. */
  function Ahead(fs: seq<Frame>, inFrame: bool): bytes
    requires AllFitting(fs)
  {
    if inFrame && fs != [] then Wire(fs)[FRAME_HEADER_SIZE..] else Wire(fs)
  }

  function Tail(st: State): bytes
    requires AllFitting(st.started) && st.consumed <= |st.started|
  {
    Ahead(st.started[st.consumed..], st.reader.InPayload?)
  }

  /** The unread bytes are that, less what is missing of the last frame; and in the middle of a
      frame the loop holds the header of the frame it is in. */
  ghost predicate WireAgrees(st: State)
    requires LegalHistory(st)
  {
    LegalIsFitting(st);
    && st.consumed <= |Complete(st)|
    && (!st.reader.Stopped? ==>
          && |st.unread| + st.missing == |Tail(st)|
          && st.unread == Tail(st)[..|st.unread|])
    && (st.reader.InPayload? ==>
          && st.consumed < |st.started|
          && var f := st.started[st.consumed];
             && f.kind == st.reader.kind && f.streamID == st.reader.streamID && |f.payload| == st.reader.length
             && (f.kind == DATA || f.kind == DATAGRAM))
  }

  /** The data bytes these frames carry for a stream. */
  function DataBytes(fs: seq<Frame>, id: uint32): bytes
  {
    if fs == [] then []
    else (if fs[0].kind == DATA && fs[0].streamID == id then fs[0].payload else []) + DataBytes(fs[1..], id)
  }

  /** What the reader loop holds for a stream. */
  function InHand(reader: Reader, id: uint32): bytes
  {
    if reader.Handing? && reader.streamID == id then reader.payload else []
  }

  function AllOf(b: Inbox, inHand: bytes): bytes
  {
    b.returned + b.current + Joined(b.queue) + inHand
  }

  /** Everything the reading side has of a stream, oldest first. */
  function Received(st: State, id: uint32): bytes
    requires id in st.streams
  {
    AllOf(st.streams[id], InHand(st.reader, id))
  }

  /** A running reader loop has lost nothing of the frames it is done with; one that stopped may
      have dropped the frame in its hands. */
  ghost predicate NothingLost(st: State)
    requires st.consumed <= |st.started|
  {
    && (forall id :: id in st.streams ==>
          && Received(st, id) <= DataBytes(st.started[..st.consumed], id)
          && (!st.reader.Stopped? ==> Received(st, id) == DataBytes(st.started[..st.consumed], id)))
    && (forall id: uint32 :: id !in Registered(st) ==> DataBytes(st.started[..st.consumed], id) == [])
  }

  predicate IsOpen(f: Frame, id: uint32)
  {
    f.kind == OPEN && f.streamID == id
  }

  ghost predicate OpenedOnce(st: State)
  {
    && (forall p, q :: 0 <= p < q < |st.started| && st.started[p].kind == OPEN && st.started[q].kind == OPEN
          ==> st.started[p].streamID != st.started[q].streamID)
    && (forall q :: 0 <= q < |st.started| && st.started[q].kind == OPEN ==> st.started[q].streamID !in st.reserved)
  }

  /** The reading side knows a stream of the writer exactly when it has consumed its open frame. */
  ghost predicate OpensKnown(st: State)
  {
    forall q :: 0 <= q < |st.started| && st.started[q].kind == OPEN ==>
      (st.started[q].streamID in Registered(st) <==> q < st.consumed)
  }

  predicate OfStream(f: Frame)
  {
    f.kind == DATA || f.kind == CLOSE
  }

  /** A data or close frame still to be consumed is for a known stream or behind its open frame. */
  ghost predicate AfterOpen(st: State)
  {
    forall p ::
      0 <= st.consumed <= p < |st.started| && OfStream(st.started[p]) && st.started[p].streamID !in Registered(st)
      ==> exists q :: st.consumed <= q < p && IsOpen(st.started[q], st.started[p].streamID)
  }

  /** The two sides number their streams apart, each counting up. */
  predicate NumberedApart(client: bool, next: nat, peerNext: nat, reserved: set<uint32>, known: set<uint32>)
  {
    && next > 0 && peerNext > 0 && OwnedByClient(next) == client && OwnedByClient(peerNext) != client
    && (forall id :: id in reserved ==> 0 < id < next && OwnedByClient(id) == client && id !in known)
    && (forall id :: id in known ==> id < if OwnedByClient(id) == client then next else peerNext)
  }

  predicate IDsInOrder(st: State)
  {
    && NumberedApart(st.writerIsClient, st.nextID, st.peerNextID, st.reserved, Registered(st))
    && st.accepted <= Registered(st)
    && (st.reader.Handing? ==> st.reader.streamID in Registered(st))
  }

  /** The invariant of the frames, which does not look into the streams, and that of the streams. */
  ghost predicate FramesInv(st: State)
  {
    && OneToken(st)
    && LegalHistory(st)
    && WireAgrees(st)
    && OpenedOnce(st)
    && OpensKnown(st)
    && AfterOpen(st)
  }

  ghost predicate StreamsInv(st: State)
  {
    && st.consumed <= |st.started|
    && NothingLost(st)
    && IDsInOrder(st)
    && st.reader != Stopped(ProtocolError)
  }

  ghost predicate Inv(st: State)
  {
    FramesInv(st) && StreamsInv(st)
  }
}
