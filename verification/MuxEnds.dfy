/** The end of a stream and the datagrams of a mux session, over whole runs. */
module MuxEnds {
  import opened Words
  import opened MuxWire
  import opened MuxSession
  import opened MuxInvariant
  import opened MuxRuns

  predicate IsClose(f: Frame, id: uint32)
  {
    f.kind == CLOSE && f.streamID == id
  }

  predicate CloseAmong(fs: seq<Frame>, id: uint32)
  {
    exists q :: 0 <= q < |fs| && IsClose(fs[q], id)
  }

  /** A stream is marked as ended by the peer exactly when its close frame has been consumed. */
  ghost predicate EndsKnown(st: State)
    requires st.consumed <= |st.started|
  {
    && (forall id :: id in st.streams ==> (st.streams[id].remoteDone <==> CloseAmong(st.started[..st.consumed], id)))
    && (forall id: uint32 :: id !in Registered(st) ==> !CloseAmong(st.started[..st.consumed], id))
  }

  function DatagramsOf(fs: seq<Frame>): seq<bytes>
  {
    if fs == [] then []
    else
      var last := fs[|fs| - 1];
      DatagramsOf(fs[..|fs| - 1]) + if last.kind == DATAGRAM then [last.payload] else []
  }

  /** a is b with some elements left out. */
  predicate Sublist(a: seq<bytes>, b: seq<bytes>)
    decreases |b|
  {
    if a == [] then true
    else if b == [] then false
    else
      var m, n := |a| - 1, |b| - 1;
      Sublist(a, b[..n]) || (a[m] == b[n] && Sublist(a[..m], b[..n]))
  }

  /** Datagrams may be dropped, but not altered, repeated or reordered. */
  predicate DatagramsKept(st: State)
    requires st.consumed <= |st.started|
  {
    Sublist(st.taken + st.datagrams, DatagramsOf(st.started[..st.consumed]))
  }

  lemma SublistOfMore(a: seq<bytes>, b: seq<bytes>, x: bytes)
    requires Sublist(a, b)
    ensures Sublist(a, b + [x]) && Sublist(a + [x], b + [x])
  {
    assert (b + [x])[..|b|] == b && (a + [x])[..|a|] == a;
  }

  // ---------------------------------------------------------------- steps that consume nothing

  /** Open streams are as they were, or new and open. */
  predicate SameEnds(st: State, t: State)
  {
    && Registered(st) <= Registered(t)
    && (forall id :: id in t.streams ==>
          if id in st.streams then t.streams[id].remoteDone == st.streams[id].remoteDone
          else id !in Registered(st) && !t.streams[id].remoteDone)
  }

  lemma QuietKeeps(st: State, t: State)
    requires st.consumed <= |st.started| && t.consumed == st.consumed && st.started <= t.started
    requires EndsKnown(st) && DatagramsKept(st)
    requires SameEnds(st, t) && t.taken + t.datagrams == st.taken + st.datagrams
    ensures EndsKnown(t) && DatagramsKept(t)
  {
    assert t.started[..t.consumed] == st.started[..st.consumed];
  }

  lemma WriterStepIsQuiet(st: State, a: Action)
    requires Enabled(st, a) && IsWriterStep(a)
    ensures var t := Apply(st, a);
            && t.consumed == st.consumed && st.started <= t.started
            && t.streams == st.streams && t.closedHere == st.closedHere
            && t.taken == st.taken && t.datagrams == st.datagrams
  {
  }

  lemma WriterStepKeepsEnds(st: State, a: Action)
    requires st.consumed <= |st.started| && EndsKnown(st) && DatagramsKept(st)
    requires Enabled(st, a) && IsWriterStep(a)
    ensures Apply(st, a).consumed <= |Apply(st, a).started| && EndsKnown(Apply(st, a)) && DatagramsKept(Apply(st, a))
  {
    WriterStepIsQuiet(st, a);
    QuietKeeps(st, Apply(st, a));
  }

  predicate Consumes(a: Action)
  {
    a.ReadHeader? || a.ReadPayload?
  }

  lemma DrainIsQuiet(st: State, a: Action)
    requires Enabled(st, a) && (a.Take? || a.Copy? || a.CloseLocal? || a.TakeDatagram? || a.StopReading?)
    ensures var t := Apply(st, a);
            && t.consumed == st.consumed && st.started == t.started
            && SameEnds(st, t) && t.taken + t.datagrams == st.taken + st.datagrams
  {
    assert Registered(st) <= Registered(Apply(st, a));
  }

  lemma HandOverIsQuiet(st: State)
    requires st.reader.Handing?
    ensures var t := HandedOver(st);
            && t.consumed == st.consumed && st.started == t.started
            && SameEnds(st, t) && t.taken == st.taken && t.datagrams == st.datagrams
  {
    HandedOverKnown(st);
  }

  lemma PeerOpenIsQuiet(st: State)
    requires IDsInOrder(st) && st.peerNextID < TWO_32
    ensures var t := OpenedHere(st);
            && t.consumed == st.consumed && st.started == t.started
            && SameEnds(st, t) && t.taken == st.taken && t.datagrams == st.datagrams
  {
    PeerOpenKeepsIDs(st);
    assert Registered(st) <= Registered(OpenedHere(st));
  }

  lemma OtherReaderStepKeepsEnds(st: State, a: Action)
    requires st.consumed <= |st.started| && EndsKnown(st) && DatagramsKept(st) && IDsInOrder(st)
    requires Enabled(st, a) && !IsWriterStep(a) && !Consumes(a)
    ensures Apply(st, a).consumed <= |Apply(st, a).started| && EndsKnown(Apply(st, a)) && DatagramsKept(Apply(st, a))
  {
    if a.HandOver? {
      HandOverIsQuiet(st);
    } else if a.PeerOpen? {
      PeerOpenIsQuiet(st);
    } else {
      DrainIsQuiet(st, a);
    }
    QuietKeeps(st, Apply(st, a));
  }

  // ---------------------------------------------------------------- steps that consume a frame

  /** What the next frame means for the ends of streams and for the datagrams. */
  predicate FrameCounts(st: State, t: State, f: Frame)
  {
    && Registered(st) <= Registered(t)
    && (f.kind == CLOSE ==> f.streamID in Registered(st))
    && (forall id :: id in t.streams ==>
          if id in st.streams then t.streams[id].remoteDone == (st.streams[id].remoteDone || IsClose(f, id))
          else id !in Registered(st) && !t.streams[id].remoteDone)
    && (t.taken + t.datagrams == st.taken + st.datagrams
        || (f.kind == DATAGRAM && t.taken + t.datagrams == st.taken + st.datagrams + [f.payload]))
  }

  lemma ConsumedKeepsEnds(st: State, t: State)
    requires st.consumed < |st.started| && t.started == st.started && t.consumed == st.consumed + 1
    requires EndsKnown(st) && FrameCounts(st, t, st.started[st.consumed])
    ensures EndsKnown(t)
  {
    var before, f := st.started[..st.consumed], st.started[st.consumed];
    assert t.started[..t.consumed] == before + [f];
    forall id: uint32
      ensures CloseAmong(before + [f], id) <==> CloseAmong(before, id) || IsClose(f, id)
    {
      CloseAmongMore(before, f, id);
    }
  }

  lemma CloseAmongMore(fs: seq<Frame>, f: Frame, id: uint32)
    ensures CloseAmong(fs + [f], id) <==> CloseAmong(fs, id) || IsClose(f, id)
  {
    if CloseAmong(fs, id) {
      var q :| 0 <= q < |fs| && IsClose(fs[q], id);
      assert IsClose((fs + [f])[q], id);
    }
    if IsClose(f, id) {
      assert IsClose((fs + [f])[|fs|], id);
    }
  }

  lemma ConsumedKeepsDatagrams(st: State, t: State)
    requires st.consumed < |st.started| && t.started == st.started && t.consumed == st.consumed + 1
    requires DatagramsKept(st) && FrameCounts(st, t, st.started[st.consumed])
    ensures DatagramsKept(t)
  {
    var before, f := st.started[..st.consumed], st.started[st.consumed];
    assert t.started[..t.consumed] == before + [f];
    assert (before + [f])[..|before|] == before;
    if f.kind == DATAGRAM {
      SublistOfMore(st.taken + st.datagrams, DatagramsOf(before), f.payload);
    } else {
      assert DatagramsOf(before + [f]) == DatagramsOf(before) + [];
      assert DatagramsOf(before) + [] == DatagramsOf(before);
    }
  }

  lemma ClosedCounts(st: State, f: Frame)
    requires |st.unread| >= FRAME_HEADER_SIZE && f.kind == CLOSE && f.streamID in Registered(st)
    ensures var t := ClosedByPeer(st, f.streamID);
            t.started == st.started && t.consumed == st.consumed + 1 && FrameCounts(st, t, f)
  {
    assert Registered(st) <= Registered(ClosedByPeer(st, f.streamID));
  }

  lemma OpenedCounts(st: State, f: Frame)
    requires |st.unread| >= FRAME_HEADER_SIZE && f.kind == OPEN && f.streamID !in Registered(st)
    ensures var t := Opened(st, f.streamID);
            t.started == st.started && t.consumed == st.consumed + 1 && FrameCounts(st, t, f)
  {
    assert Registered(st) <= Registered(Opened(st, f.streamID));
  }

  lemma HeaderCounts(st: State, f: Frame)
    requires |st.unread| >= FRAME_HEADER_SIZE && Legal(st, f) && (f.kind == CLOSE ==> f.streamID in Registered(st))
    requires f.kind == OPEN ==> f.streamID !in Registered(st)
    ensures var t := HeaderRead(st, ParsedHeader(f.kind, f.streamID, |f.payload|));
            && t.started == st.started
            && (if t.consumed == st.consumed
                then SameEnds(st, t) && t.taken + t.datagrams == st.taken + st.datagrams
                else t.consumed == st.consumed + 1 && FrameCounts(st, t, f))
  {
    if f.kind == CLOSE {
      ClosedCounts(st, f);
    } else if f.kind == OPEN && |st.streams| < MAX_STREAMS {
      OpenedCounts(st, f);
    }
  }

  lemma NextCloseIsKnown(st: State)
    requires AfterOpen(st) && st.consumed < |st.started| && st.started[st.consumed].kind == CLOSE
    ensures st.started[st.consumed].streamID in Registered(st)
  {
  }

  lemma ReadHeaderKeepsEnds(st: State)
    requires Inv(st) && HeaderReady(st) && EndsKnown(st) && DatagramsKept(st)
    ensures var t := Apply(st, ReadHeader);
            t.consumed <= |t.started| && EndsKnown(t) && DatagramsKept(t)
  {
    var f := NextIsLegal(st);
    if f.kind == CLOSE {
      NextCloseIsKnown(st);
    }
    HeaderCounts(st, f);
    var t := HeaderRead(st, ParsedHeader(f.kind, f.streamID, |f.payload|));
    ConsumedOrNot(st, t, f);
  }

  lemma ConsumedOrNot(st: State, t: State, f: Frame)
    requires st.consumed < |st.started| && st.started[st.consumed] == f && EndsKnown(st) && DatagramsKept(st)
    requires t.started == st.started
    requires if t.consumed == st.consumed
             then SameEnds(st, t) && t.taken + t.datagrams == st.taken + st.datagrams
             else t.consumed == st.consumed + 1 && FrameCounts(st, t, f)
    ensures t.consumed <= |t.started| && EndsKnown(t) && DatagramsKept(t)
  {
    if t.consumed == st.consumed {
      QuietKeeps(st, t);
    } else {
      ConsumedKeepsEnds(st, t);
      ConsumedKeepsDatagrams(st, t);
    }
  }

  lemma DataCounts(st: State, f: Frame)
    requires PayloadReady(st) && st.reader.kind == DATA && f.kind == DATA
    ensures FrameCounts(st, PayloadRead(st), f)
  {
    assert Registered(st) <= Registered(PayloadRead(st));
  }

  lemma DatagramCounts(st: State, f: Frame)
    requires PayloadReady(st) && st.reader.kind != DATA && f.kind == DATAGRAM
    requires f.payload == st.unread[..st.reader.length]
    ensures FrameCounts(st, PayloadRead(st), f)
  {
    assert Registered(st) <= Registered(PayloadRead(st));
    Reassociate(st.taken, st.datagrams, [f.payload]);
  }

  lemma PayloadCounts(st: State)
    requires LegalHistory(st) && WireAgrees(st) && PayloadReady(st)
    ensures st.consumed < |st.started| && FrameCounts(st, PayloadRead(st), st.started[st.consumed])
  {
    PayloadIsNext(st);
    if st.reader.kind == DATA {
      DataCounts(st, st.started[st.consumed]);
    } else {
      DatagramCounts(st, st.started[st.consumed]);
    }
  }

  lemma ReadPayloadKeepsEnds(st: State)
    requires LegalHistory(st) && WireAgrees(st) && PayloadReady(st) && st.consumed <= |st.started|
    requires EndsKnown(st) && DatagramsKept(st)
    ensures var t := PayloadRead(st);
            t.consumed <= |t.started| && EndsKnown(t) && DatagramsKept(t)
  {
    PayloadCounts(st);
    ConsumedKeepsEnds(st, PayloadRead(st));
    ConsumedKeepsDatagrams(st, PayloadRead(st));
  }

  // ---------------------------------------------------------------- whole runs

  lemma StepKeepsEnds(st: State, a: Action)
    requires Inv(st) && Enabled(st, a) && EndsKnown(st) && DatagramsKept(st)
    ensures var t := Apply(st, a);
            t.consumed <= |t.started| && EndsKnown(t) && DatagramsKept(t)
  {
    if IsWriterStep(a) {
      WriterStepKeepsEnds(st, a);
    } else if a.ReadHeader? {
      ReadHeaderKeepsEnds(st);
    } else if a.ReadPayload? {
      ReadPayloadKeepsEnds(st);
    } else {
      OtherReaderStepKeepsEnds(st, a);
    }
  }

  lemma {:induction false} RunKeepsEnds(st: State, actions: seq<Action>, t: State)
    requires Inv(st) && Leads(st, actions, t) && EndsKnown(st) && DatagramsKept(st)
    ensures t.consumed <= |t.started| && EndsKnown(t) && DatagramsKept(t)
    decreases |actions|
  {
    if actions != [] {
      StepKeeps(st, actions[0]);
      StepKeepsEnds(st, actions[0]);
      RunKeepsEnds(Apply(st, actions[0]), actions[1..], t);
    }
  }

  lemma ReachableEnds(client: bool, actions: seq<Action>, t: State)
    requires Leads(Initial(client), actions, t)
    ensures t.consumed <= |t.started| && EndsKnown(t) && DatagramsKept(t)
  {
    InitialInv(client);
    RunKeepsEnds(Initial(client), actions, t);
  }

  lemma PrefixOfReceived(t: State, id: uint32, q: nat)
    requires q <= t.consumed <= |t.started| && NothingLost(t) && id in t.streams && !t.reader.Stopped?
    ensures DataBytes(t.started[..q], id) <= Received(t, id)
  {
    assert t.started[..t.consumed] == t.started[..q] + t.started[q..t.consumed];
    DataBytesConcat(t.started[..q], t.started[q..t.consumed], id);
  }

  /** When a stream is marked as ended, everything that was written to it before its close frame
      has arrived in it. Until then it is not marked. */
  lemma EndMeansAllArrived(client: bool, actions: seq<Action>, t: State, id: uint32, q: nat)
    requires Leads(Initial(client), actions, t) && id in t.streams
    ensures t.consumed <= |t.started|
    ensures t.streams[id].remoteDone <==> CloseAmong(t.started[..t.consumed], id)
    ensures !t.reader.Stopped? && q < t.consumed && IsClose(t.started[q], id) ==>
              t.streams[id].remoteDone && DataBytes(t.started[..q], id) <= Received(t, id)
  {
    ReachableEnds(client, actions, t);
    if !t.reader.Stopped? && q < t.consumed && IsClose(t.started[q], id) {
      assert IsClose(t.started[..t.consumed][q], id);
      Reachable(client, actions, t);
      PrefixOfReceived(t, id, q);
    }
  }

  /** The datagrams the application got, and those waiting for it, are some of those the peer
      sent, unaltered and in order. */
  lemma DatagramsInOrder(client: bool, actions: seq<Action>, t: State)
    requires Leads(Initial(client), actions, t)
    ensures t.consumed <= |t.started| && Sublist(t.taken + t.datagrams, DatagramsOf(t.started[..t.consumed]))
  {
    ReachableEnds(client, actions, t);
  }
}
