/** When the reader loop of a mux session goes on, when it stops and what it drops; and that whatever
    the writers have begun can still come to the readers. */
module MuxReader {
  import opened Words
  import opened MuxWire
  import opened MuxStreams
  import opened MuxSession
  import opened MuxInvariant
  import opened MuxRuns
  import opened MuxEnds

  // ---------------------------------------------------------------- one step of the loop

  function NextFrame(st: State): Frame
    requires st.consumed < |st.started|
  {
    st.started[st.consumed]
  }

  /** The next frame opens a stream for which there is no place. */
  predicate OpensTooMany(st: State)
  {
    st.consumed < |st.started| && NextFrame(st).kind == OPEN && |st.streams| >= 256
  }

  /** What the loop does with the header of a legal frame. */
  predicate HeaderHandled(st: State, f: Frame, t: State)
  {
    && (t.reader.Stopped? <==> f.kind == OPEN && |st.streams| >= 256)
    && (t.reader.Stopped? ==> t.reader == Stopped(StreamLimit))
    && (if f.kind == OPEN && !t.reader.Stopped? then
          f.streamID !in st.streams && t.streams == st.streams[f.streamID := Inbox([], [], [], false)]
        else t.streams.Keys == st.streams.Keys)
    && (if f.kind == DATA || f.kind == DATAGRAM then
          t.reader == InPayload(f.kind, f.streamID, |f.payload|) && t.consumed == st.consumed
        else !t.reader.Stopped? ==> t.reader.AtHeader? && t.consumed == st.consumed + 1)
  }

  lemma LegalHeaderHandled(st: State, f: Frame)
    requires st.reader.AtHeader? && |st.unread| >= FRAME_HEADER_SIZE
    requires Legal(st, f) && (f.kind == OPEN ==> f.streamID !in st.streams)
    ensures HeaderHandled(st, f, HeaderRead(st, ParsedHeader(f.kind, f.streamID, |f.payload|)))
  {
    assert f.kind == OPEN || f.kind == DATA || f.kind == CLOSE || f.kind == DATAGRAM;
    if f.kind == CLOSE {
      assert MuxSession.ClosedByPeer(st, f.streamID).streams.Keys == st.streams.Keys;
    }
  }

  /** A header stops the loop exactly if it opens a stream while there are 256. Below that the stream
      is there, with nothing in it, and the loop goes on. A close frame never stops it, nor does the
      header of a data or datagram frame, whose payload comes next. */
  lemma ReadHeaderExactly(st: State)
    requires Inv(st) && HeaderReady(st)
    ensures st.consumed < |st.started| && HeaderHandled(st, NextFrame(st), Apply(st, ReadHeader))
  {
    var f := NextIsLegal(st);
    LegalHeaderHandled(st, f);
  }

  /** What the loop does with the payload of a frame. */
  predicate PayloadHandled(st: State, f: Frame, t: State)
  {
    && t.consumed == st.consumed + 1 && t.streams == st.streams
    && (f.kind == DATA ==>
          && t.reader == (if f.streamID in st.streams then Handing(f.streamID, f.payload) else AtHeader)
          && t.datagrams == st.datagrams)
    && (f.kind != DATA ==>
          && t.reader.AtHeader?
          && t.datagrams == if |st.datagrams| < 256 then st.datagrams + [f.payload] else st.datagrams)
  }

  lemma ReadPayloadHandled(st: State, f: Frame)
    requires PayloadReady(st) && f == Frame(st.reader.kind, st.reader.streamID, st.unread[..st.reader.length])
    ensures PayloadHandled(st, f, PayloadRead(st))
  {
  }

  lemma PayloadOfNext(st: State)
    requires LegalHistory(st) && WireAgrees(st) && PayloadReady(st)
    ensures st.consumed < |st.started|
    ensures NextFrame(st) == Frame(st.reader.kind, st.reader.streamID, st.unread[..st.reader.length])
  {
    PayloadIsNext(st);
  }

  /** A payload never stops the loop. Data goes into its hands, unless the stream was closed here; a
      datagram is queued, and dropped exactly if 256 are waiting. */
  lemma ReadPayloadExactly(st: State)
    requires FramesInv(st) && PayloadReady(st)
    ensures st.consumed < |st.started| && PayloadHandled(st, NextFrame(st), Apply(st, ReadPayload))
  {
    PayloadOfNext(st);
    ReadPayloadHandled(st, NextFrame(st));
  }

  /** The loop hands a frame over exactly if its stream has fewer than 64 waiting, or was closed here
      meanwhile. The frame goes to the end of the queue. */
  lemma HandOverExactly(st: State)
    requires st.reader.Handing?
    ensures var id := st.reader.streamID;
            && (Enabled(st, HandOver) <==> (id in st.streams ==> |st.streams[id].queue| < 64))
            && (Enabled(st, HandOver) ==>
                  var t := Apply(st, HandOver);
                  && t.reader.AtHeader?
                  && (id in st.streams ==>
                        t.streams == st.streams[
                          id := st.streams[id].(queue := st.streams[id].queue + [st.reader.payload])])
                  && (id !in st.streams ==> t.streams == st.streams))
  {
  }

  /** The reading side gets a stream of its own exactly if there are fewer than 256, under a number
      not used before. */
  lemma OpenStreamExactly(st: State)
    requires IDsInOrder(st) && st.peerNextID < TWO_32
    ensures var t := OpenedHere(st);
            && st.peerNextID !in Registered(st) && t.peerNextID == st.peerNextID + 2
            && t.streams == if |st.streams| < 256 then st.streams[st.peerNextID := Inbox([], [], [], false)]
                            else st.streams
  {
    PeerOpenKeepsIDs(st);
  }

  // ---------------------------------------------------------------- what is bounded

  predicate QueuesBounded(streams: map<uint32, Inbox>)
  {
    forall id :: id in streams ==> |streams[id].queue| <= 64
  }

  predicate Bounded(st: State)
  {
    |st.streams| <= 256 && |st.datagrams| <= 256 && QueuesBounded(st.streams)
  }

  lemma StreamsOf(st: State, id: uint32, b: Inbox)
    ensures |st.streams[id := b]| == |st.streams| + if id in st.streams then 0 else 1
  {
    assert st.streams[id := b].Keys == st.streams.Keys + {id};
    assert |st.streams[id := b]| == |st.streams[id := b].Keys| && |st.streams| == |st.streams.Keys|;
  }

  lemma FewerStreams(streams: map<uint32, Inbox>, id: uint32)
    ensures |streams - {id}| <= |streams|
  {
    assert (streams - {id}).Keys == streams.Keys - {id};
    SubsetSize(streams.Keys - {id}, streams.Keys);
    assert |streams - {id}| == |(streams - {id}).Keys| && |streams| == |streams.Keys|;
  }

  lemma OpenedKeepsBounds(st: State, id: uint32)
    requires Bounded(st) && |st.unread| >= FRAME_HEADER_SIZE && |st.streams| < 256
    ensures Bounded(Opened(st, id))
  {
    StreamsOf(st, id, NEW_INBOX);
  }

  lemma ClosedKeepsBounds(st: State, id: uint32)
    requires Bounded(st) && |st.unread| >= FRAME_HEADER_SIZE
    ensures Bounded(MuxSession.ClosedByPeer(st, id))
  {
    if id in st.streams {
      StreamsOf(st, id, st.streams[id].(remoteDone := true));
    }
  }

  lemma HeaderKeepsBounds(st: State, h: ParsedHeader)
    requires Bounded(st) && |st.unread| >= FRAME_HEADER_SIZE
    ensures Bounded(HeaderRead(st, h))
  {
    if h.kind == OPEN && |st.streams| < 256 {
      OpenedKeepsBounds(st, h.streamID);
    } else if h.kind == CLOSE {
      ClosedKeepsBounds(st, h.streamID);
    }
  }

  lemma InboxKeepsBounds(st: State, id: uint32, b: Inbox)
    requires Bounded(st) && id in st.streams && |b.queue| <= 64
    ensures Bounded(WithInbox(st, id, b))
  {
    StreamsOf(st, id, b);
  }

  lemma HandOverKeepsBounds(st: State)
    requires Bounded(st) && Enabled(st, HandOver)
    ensures Bounded(HandedOver(st))
  {
    var id := st.reader.streamID;
    if id in st.streams {
      InboxKeepsBounds(st, id, st.streams[id].(queue := st.streams[id].queue + [st.reader.payload]));
    }
  }

  lemma OpenKeepsBounds(st: State)
    requires Bounded(st) && st.peerNextID < TWO_32
    ensures Bounded(OpenedHere(st))
  {
    StreamsOf(st, st.peerNextID, NEW_INBOX);
  }

  lemma StepKeepsBounds(st: State, a: Action)
    requires Bounded(st) && Enabled(st, a)
    ensures Bounded(Apply(st, a))
  {
    match a {
      case ReadHeader => HeaderKeepsBounds(st, ParseHeader(st.unread[..FRAME_HEADER_SIZE]));
      case HandOver => HandOverKeepsBounds(st);
      case PeerOpen => OpenKeepsBounds(st);
      case CloseLocal(id) => FewerStreams(st.streams, id);
      case Take(id) =>
        var b := st.streams[id];
        InboxKeepsBounds(st, id, b.(current := b.queue[0], queue := b.queue[1..]));
      case Copy(id, n) =>
        var b := st.streams[id];
        InboxKeepsBounds(st, id, b.(current := b.current[n..], returned := b.returned + b.current[..n]));
      case _ =>
    }
  }

  lemma {:induction false} RunKeepsBounds(st: State, actions: seq<Action>, t: State)
    requires Bounded(st) && Leads(st, actions, t)
    ensures Bounded(t)
    decreases |actions|
  {
    if actions != [] {
      StepKeepsBounds(st, actions[0]);
      RunKeepsBounds(Apply(st, actions[0]), actions[1..], t);
    }
  }

  /** There are never more than 256 streams, nor 256 datagrams waiting, nor 64 frames in a stream. */
  lemma QueuesStayBounded(client: bool, actions: seq<Action>, t: State)
    requires Leads(Initial(client), actions, t)
    ensures |t.streams| <= 256 && |t.datagrams| <= 256
    ensures forall id :: id in t.streams ==> |t.streams[id].queue| <= 64
  {
    RunKeepsBounds(Initial(client), actions, t);
  }

  // ---------------------------------------------------------------- why the loop stopped

  lemma OnlyHeadersStop(st: State, a: Action)
    requires Inv(st) && Enabled(st, a) && !st.reader.Stopped? && a != StopReading
    ensures Apply(st, a).reader.Stopped? ==> a == ReadHeader && OpensTooMany(st)
    ensures Apply(st, a).reader.Stopped? ==> Apply(st, a).reader == Stopped(StreamLimit)
  {
    if a.ReadHeader? {
      ReadHeaderExactly(st);
    } else if a.ReadPayload? {
      ReadPayloadExactly(st);
    }
  }

  lemma StoppedStays(st: State, a: Action)
    requires Enabled(st, a) && st.reader.Stopped?
    ensures Apply(st, a).reader == st.reader
  {
  }

  lemma {:induction false} StoppedRunStays(st: State, actions: seq<Action>, t: State)
    requires Leads(st, actions, t) && st.reader.Stopped?
    ensures t.reader == st.reader
    decreases |actions|
  {
    if actions != [] {
      StoppedStays(st, actions[0]);
      StoppedRunStays(Apply(st, actions[0]), actions[1..], t);
    }
  }

  lemma {:induction false} StoppedSince(st: State, actions: seq<Action>, t: State) returns (i: nat, mid: State)
    requires Inv(st) && Leads(st, actions, t) && !st.reader.Stopped? && t.reader.Stopped? && StopReading !in actions
    ensures i < |actions| && Leads(st, actions[..i], mid) && actions[i] == ReadHeader
    ensures Enabled(mid, ReadHeader) && OpensTooMany(mid) && t.reader == Stopped(StreamLimit)
    decreases |actions|
  {
    var next := Apply(st, actions[0]);
    OnlyHeadersStop(st, actions[0]);
    if next.reader.Stopped? {
      i, mid := 0, st;
      StoppedRunStays(next, actions[1..], t);
    } else {
      StepKeeps(st, actions[0]);
      i, mid := StoppedSince(next, actions[1..], t);
      OneMore(st, actions, i, mid);
      i := i + 1;
    }
  }

  lemma OneMore(st: State, actions: seq<Action>, i: nat, mid: State)
    requires i + 1 < |actions| && Enabled(st, actions[0]) && Leads(Apply(st, actions[0]), actions[1..][..i], mid)
    ensures Leads(st, actions[..i + 1], mid)
  {
    assert actions[..i + 1][1..] == actions[1..][..i];
  }

  /** Between correct sides, and unless the session is ended, the loop stops only in one situation: an
      open frame met 256 streams. */
  lemma StopsOnlyAtLimit(client: bool, actions: seq<Action>, t: State) returns (i: nat, mid: State)
    requires Leads(Initial(client), actions, t) && t.reader.Stopped? && StopReading !in actions
    ensures t.reader == Stopped(StreamLimit)
    ensures i < |actions| && Leads(Initial(client), actions[..i], mid) && actions[i] == ReadHeader
    ensures mid.consumed < |mid.started| && NextFrame(mid).kind == OPEN && |mid.streams| == 256
  {
    InitialInv(client);
    i, mid := StoppedSince(Initial(client), actions, t);
    QueuesStayBounded(client, actions[..i], mid);
  }

  // ---------------------------------------------------------------- streams closed here

  predicate ClosedHere(st: State, id: uint32)
  {
    id in st.closedHere && id !in st.streams
  }

  lemma HeaderClosesNothing(st: State, h: ParsedHeader)
    requires |st.unread| >= FRAME_HEADER_SIZE
    ensures HeaderRead(st, h).closedHere == st.closedHere
  {
  }

  lemma HeaderKeepsClosed(st: State, id: uint32)
    requires Inv(st) && HeaderReady(st) && ClosedHere(st, id)
    ensures ClosedHere(Apply(st, ReadHeader), id)
  {
    var f := NextIsLegal(st);
    ReadHeaderExactly(st);
    HeaderClosesNothing(st, ParsedHeader(f.kind, f.streamID, |f.payload|));
    assert f.kind == OPEN ==> f.streamID !in Registered(st);
  }

  lemma StepKeepsClosed(st: State, a: Action, id: uint32)
    requires Inv(st) && Enabled(st, a) && ClosedHere(st, id)
    ensures ClosedHere(Apply(st, a), id)
  {
    if a.ReadHeader? {
      HeaderKeepsClosed(st, id);
    } else if a.PeerOpen? {
      OpenStreamExactly(st);
    } else {
      OthersOpenNothing(st, a);
    }
  }

  lemma OthersOpenNothing(st: State, a: Action)
    requires Enabled(st, a) && !a.ReadHeader? && !a.PeerOpen?
    ensures Apply(st, a).streams.Keys <= st.streams.Keys && st.closedHere <= Apply(st, a).closedHere
  {
  }

  lemma {:induction false} RunKeepsClosed(st: State, actions: seq<Action>, t: State, id: uint32)
    requires Inv(st) && Leads(st, actions, t) && ClosedHere(st, id)
    ensures ClosedHere(t, id)
    decreases |actions|
  {
    if actions != [] {
      StepKeeps(st, actions[0]);
      StepKeepsClosed(st, actions[0], id);
      RunKeepsClosed(Apply(st, actions[0]), actions[1..], t, id);
    }
  }

  /** Closing takes exactly that stream away, and it does not come back: whatever the other side
      still sends on it, no run has it again. */
  lemma ClosedForGood(st: State, id: uint32, actions: seq<Action>, t: State)
    requires Inv(st) && id in st.streams && Leads(Apply(st, CloseLocal(id)), actions, t)
    ensures id !in t.streams
    ensures forall i :: i in Apply(st, CloseLocal(id)).streams <==> i in st.streams && i != id
    ensures forall i :: i in st.streams && i != id ==> Apply(st, CloseLocal(id)).streams[i] == st.streams[i]
    ensures Apply(st, CloseLocal(id)).reader == st.reader && Apply(st, CloseLocal(id)).unread == st.unread
  {
    StepKeeps(st, CloseLocal(id));
    RunKeepsClosed(Apply(st, CloseLocal(id)), actions, t, id);
  }

  // ---------------------------------------------------------------- which datagrams are dropped

  /** The loop reads a datagram while 256 are waiting. */
  predicate Drops(st: State, a: Action)
  {
    a.ReadPayload? && st.reader.InPayload? && st.reader.kind == DATAGRAM && |st.datagrams| >= 256
  }

  ghost function Dropped(st: State, actions: seq<Action>, t: State): nat
    requires Leads(st, actions, t)
    decreases |actions|
  {
    if actions == [] then 0
    else (if Drops(st, actions[0]) then 1 else 0) + Dropped(Apply(st, actions[0]), actions[1..], t)
  }

  /** The datagrams the loop has read, and those of them the application got or can get. */
  function DatagramsRead(st: State): nat
    requires st.consumed <= |st.started|
  {
    |DatagramsOf(st.started[..st.consumed])|
  }

  function DatagramsHad(st: State): nat
  {
    |st.taken| + |st.datagrams|
  }

  predicate Counted(st: State, t: State, dropped: nat)
    requires st.consumed <= |st.started|
  {
    && t.consumed <= |t.started|
    && DatagramsRead(t) - DatagramsHad(t) == DatagramsRead(st) - DatagramsHad(st) + dropped
  }

  lemma QuietCounts(st: State, t: State)
    requires st.consumed <= |st.started| && t.consumed == st.consumed && st.started <= t.started
    requires t.taken + t.datagrams == st.taken + st.datagrams
    ensures Counted(st, t, 0)
  {
    assert t.started[..t.consumed] == st.started[..st.consumed];
    assert |t.taken + t.datagrams| == |st.taken + st.datagrams|;
  }

  lemma ConsumedCounts(st: State, t: State)
    requires st.consumed < |st.started| && t.started == st.started && t.consumed == st.consumed + 1
    ensures DatagramsRead(t) == DatagramsRead(st) + if NextFrame(st).kind == DATAGRAM then 1 else 0
  {
    var before := st.started[..st.consumed];
    assert t.started[..t.consumed] == before + [NextFrame(st)];
    assert (before + [NextFrame(st)])[..|before|] == before;
  }

  lemma AnyHeaderRead(st: State, h: ParsedHeader) returns (r: StopReason)
    requires |st.unread| >= FRAME_HEADER_SIZE
    ensures HeaderRead(st, h) in {Opened(st, h.streamID), MuxSession.ClosedByPeer(st, h.streamID),
                                  PayloadAhead(st, h), StoppedAfterHeader(st, r)}
  {
    var t := HeaderRead(st, h);
    r := if t.reader.Stopped? then t.reader.reason else ProtocolError;
  }

  lemma HeaderKeepsDatagrams(st: State, h: ParsedHeader)
    requires |st.unread| >= FRAME_HEADER_SIZE && st.reader.AtHeader?
    ensures var t := HeaderRead(st, h);
            && t.started == st.started && t.taken == st.taken && t.datagrams == st.datagrams
            && (t.reader.Stopped? ==> t.consumed == st.consumed)
  {
    var r := AnyHeaderRead(st, h);
  }

  lemma HeaderStepCounts(st: State)
    requires Inv(st) && HeaderReady(st)
    ensures Counted(st, Apply(st, ReadHeader), 0)
  {
    var t := Apply(st, ReadHeader);
    ReadHeaderExactly(st);
    HeaderKeepsDatagrams(st, ParseHeader(st.unread[..FRAME_HEADER_SIZE]));
    if t.consumed == st.consumed {
      QuietCounts(st, t);
    } else {
      ConsumedCounts(st, t);
    }
  }

  lemma PayloadStepCounts(st: State)
    requires FramesInv(st) && PayloadReady(st)
    ensures st.consumed < |st.started| && Counted(st, PayloadRead(st), if Drops(st, ReadPayload) then 1 else 0)
  {
    ReadPayloadExactly(st);
    PayloadOfNext(st);
    ConsumedCounts(st, PayloadRead(st));
  }

  lemma StepCounts(st: State, a: Action)
    requires Inv(st) && Enabled(st, a)
    ensures Counted(st, Apply(st, a), if Drops(st, a) then 1 else 0)
  {
    if a.ReadHeader? {
      HeaderStepCounts(st);
    } else if a.ReadPayload? {
      PayloadStepCounts(st);
    } else {
      if IsWriterStep(a) {
        WriterStepIsQuiet(st, a);
      } else if a.HandOver? {
        HandOverIsQuiet(st);
      } else if a.PeerOpen? {
        PeerOpenIsQuiet(st);
      } else {
        DrainIsQuiet(st, a);
      }
      QuietCounts(st, Apply(st, a));
    }
  }

  lemma {:induction false} RunCounts(st: State, actions: seq<Action>, t: State)
    requires Inv(st) && Leads(st, actions, t)
    ensures Counted(st, t, Dropped(st, actions, t))
    decreases |actions|
  {
    if actions != [] {
      StepKeeps(st, actions[0]);
      StepCounts(st, actions[0]);
      RunCounts(Apply(st, actions[0]), actions[1..], t);
    }
  }

  lemma {:induction false} SublistIsShorter(a: seq<bytes>, b: seq<bytes>)
    requires Sublist(a, b)
    ensures |a| <= |b| && (|a| == |b| ==> a == b)
    decreases |b|
  {
    if a != [] {
      var m, n := |a| - 1, |b| - 1;
      if Sublist(a, b[..n]) {
        SublistIsShorter(a, b[..n]);
      } else {
        SublistIsShorter(a[..m], b[..n]);
        assert a == a[..m] + [a[m]] && b == b[..n] + [b[n]];
      }
    }
  }

  /** The application got, or can get, all datagrams the loop has read but those it dropped; and it
      drops one only while 256 are waiting. So it has every one, in order, exactly if that never
      happened. */
  lemma DroppedExactly(client: bool, actions: seq<Action>, t: State)
    requires Leads(Initial(client), actions, t)
    ensures t.consumed <= |t.started|
    ensures |t.taken + t.datagrams| + Dropped(Initial(client), actions, t)
         == |DatagramsOf(t.started[..t.consumed])|
    ensures t.taken + t.datagrams == DatagramsOf(t.started[..t.consumed]) <==> Dropped(Initial(client), actions, t) == 0
  {
    InitialInv(client);
    assert Initial(client).started[..0] == [];
    RunCounts(Initial(client), actions, t);
    DatagramsInOrder(client, actions, t);
    SublistIsShorter(t.taken + t.datagrams, DatagramsOf(t.started[..t.consumed]));
  }
}
