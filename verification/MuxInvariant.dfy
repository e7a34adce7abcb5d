/** Every step of a mux session keeps its invariant. */
module MuxInvariant {
  import opened Words
  import opened MuxWire
  import opened MuxSession

  // ---------------------------------------------------------------- the bytes the reader will see

  lemma AheadGrows(fs: seq<Frame>, f: Frame, inFrame: bool)
    requires AllFitting(fs) && Fitting(f) && (inFrame ==> fs != [])
    ensures Ahead(fs + [f], inFrame) == Ahead(fs, inFrame) + FrameBytes(f)
  {
    WireOfLast(fs, f);
  }

  lemma EndOfSum(a: bytes, b: bytes, skip: nat, m: nat)
    requires m <= |b| && skip + m <= |a| + |b|
    ensures var s := (a + b)[skip..]; s[|s| - m..] == b[|b| - m..]
  {
    var s := (a + b)[skip..];
    assert s[|s| - m..] == (a + b)[|a| + |b| - m..];
  }

  lemma WireOfLast(fs: seq<Frame>, f: Frame)
    requires AllFitting(fs) && Fitting(f)
    ensures Wire(fs + [f]) == Wire(fs) + FrameBytes(f)
  {
    WireAppend(fs, [f]);
    assert Wire([f]) == FrameBytes(f) + Wire([]);
  }

  /** As long as the last frame is incomplete, the reader's bytes end the way that frame does. */
  lemma AheadEndsWithLast(fs: seq<Frame>, f: Frame, inFrame: bool, missing: nat)
    requires AllFitting(fs) && Fitting(f)
    requires missing <= |FrameBytes(f)| && missing <= |Ahead(fs + [f], inFrame)|
    ensures var last, ahead := FrameBytes(f), Ahead(fs + [f], inFrame);
            ahead[|ahead| - missing..] == last[|last| - missing..]
  {
    WireOfLast(fs, f);
    var all := Wire(fs) + FrameBytes(f);
    if inFrame {
      EndOfSum(Wire(fs), FrameBytes(f), FRAME_HEADER_SIZE, missing);
    } else {
      EndOfSum(Wire(fs), FrameBytes(f), 0, missing);
      assert all[0..] == all;
    }
  }

  lemma PrefixGrows(whole: bytes, prefix: bytes, last: bytes, done: nat, n: nat)
    requires prefix <= whole && done + n <= |last| && |last| - done <= |whole|
    requires |prefix| + (|last| - done) == |whole| && whole[|prefix|..] == last[done..]
    ensures prefix + last[done..done + n] == whole[..|prefix| + n]
  {
    assert last[done..done + n] == last[done..][..n];
    assert whole[..|prefix| + n] == whole[..|prefix|] + whole[|prefix|..][..n];
  }

  // ---------------------------------------------------------------- steps of the writers

  lemma BeginKeepsWire(st: State, w: nat, f: Frame)
    requires LegalHistory(st) && WireAgrees(st) && (!st.broken ==> st.missing == 0) && Fitting(f)
    requires LegalHistory(Begin(st, w, f))
    ensures WireAgrees(Begin(st, w, f))
  {
    LegalIsFitting(st);
    if !st.broken {
      var rest := st.started[st.consumed..];
      assert (st.started + [f])[st.consumed..] == rest + [f];
      if !st.reader.Stopped? {
        AheadGrows(rest, f, st.reader.InPayload?);
      }
      assert (st.started + [f])[..|st.started|] == st.started;
    }
  }

  /** What the reader still waits for is what the holder of the token still has to write. */
  lemma HolderWritesTheRest(st: State, w: nat)
    requires LegalHistory(st) && WireAgrees(st) && !st.reader.Stopped? && w in st.holders && !st.token && !st.broken
    requires st.holders[w].done < |FrameBytes(st.holders[w].frame)|
    ensures Tail(st)[|st.unread|..] == FrameBytes(st.holders[w].frame)[st.holders[w].done..]
  {
    LegalIsFitting(st);
    var hold := st.holders[w];
    assert st.missing + hold.done == |FrameBytes(hold.frame)|;
    var n := |st.started| - 1;
    assert st.started[st.consumed..] == st.started[st.consumed..n] + [hold.frame];
    AheadEndsWithLast(st.started[st.consumed..n], hold.frame, st.reader.InPayload?, st.missing);
  }

  lemma PutFollows(st: State, w: nat, n: nat)
    requires LegalHistory(st) && WireAgrees(st) && !st.reader.Stopped? && w in st.holders && !st.token && !st.broken
    requires 0 < n && st.holders[w].done + n <= |FrameBytes(st.holders[w].frame)|
    ensures n <= st.missing && |st.unread| + st.missing == |Tail(st)|
    ensures Accepted(st, w, n).unread == Tail(st)[..|st.unread| + n]
  {
    HolderWritesTheRest(st, w);
    PrefixGrows(Tail(st), st.unread, FrameBytes(st.holders[w].frame), st.holders[w].done, n);
  }

  lemma PutKeepsWire(st: State, w: nat, n: nat)
    requires LegalHistory(st) && WireAgrees(st) && w in st.holders && !st.token && !st.broken
    requires 0 < n && st.holders[w].done + n <= |FrameBytes(st.holders[w].frame)|
    requires LegalHistory(Accepted(st, w, n))
    ensures WireAgrees(Accepted(st, w, n))
  {
    if !st.reader.Stopped? {
      PutFollows(st, w, n);
    }
  }

  /** A frame that can join those already started. */
  ghost predicate Welcome(st: State, f: Frame)
  {
    && Legal(st, f)
    && (f.kind == OPEN ==>
          && f.streamID !in st.reserved && f.streamID !in Registered(st)
          && forall q :: 0 <= q < |st.started| && st.started[q].kind == OPEN ==> st.started[q].streamID != f.streamID)
    && (OfStream(f) && f.streamID !in Registered(st) ==>
          exists q :: 0 <= st.consumed <= q < |st.started| && IsOpen(st.started[q], f.streamID))
  }

  lemma StartFrameWelcome(st: State, f: Frame)
    requires Inv(st) && MaySend(st, f)
    ensures Welcome(st, f)
  {
    if OfStream(f) && f.streamID !in Registered(st) {
      var q :| 0 <= q < |Complete(st)| && Complete(st)[q] == Frame(OPEN, f.streamID, []);
      assert st.started[q] == Complete(st)[q];
      assert q >= st.consumed;
      assert IsOpen(st.started[q], f.streamID);
    }
  }

  lemma StartOpenWelcome(st: State, id: uint32)
    requires Inv(st) && id in st.reserved
    ensures Welcome(st.(reserved := st.reserved - {id}), Frame(OPEN, id, []))
  {
  }

  lemma BeginKeepsHistory(st: State, w: nat, f: Frame)
    requires OneToken(st) && LegalHistory(st) && st.token && Welcome(st, f)
    ensures OneToken(Begin(st, w, f)) && LegalHistory(Begin(st, w, f))
  {
    var t := Begin(st, w, f);
    assert t.holders.Keys == {w};
  }

  lemma BeginKeepsOpens(st: State, w: nat, f: Frame)
    requires OpenedOnce(st) && OpensKnown(st) && AfterOpen(st) && Welcome(st, f) && st.consumed <= |st.started|
    ensures OpenedOnce(Begin(st, w, f)) && OpensKnown(Begin(st, w, f))
  {
  }

  lemma BeginKeepsAfterOpen(st: State, w: nat, f: Frame)
    requires AfterOpen(st) && Welcome(st, f) && st.consumed <= |st.started|
    ensures AfterOpen(Begin(st, w, f))
  {
    var t := Begin(st, w, f);
    assert Registered(t) == Registered(st);
    forall p | 0 <= st.consumed <= p < |t.started| && OfStream(t.started[p]) && t.started[p].streamID !in Registered(t)
      ensures exists q :: st.consumed <= q < p && IsOpen(t.started[q], t.started[p].streamID)
    {
      var q :| st.consumed <= q < p && q < |st.started| && IsOpen(st.started[q], t.started[p].streamID);
      assert t.started[q] == st.started[q];
    }
  }

  lemma BeginKeeps(st: State, w: nat, f: Frame)
    requires Inv(st) && st.token && Welcome(st, f)
    ensures Inv(Begin(st, w, f))
  {
    BeginKeepsHistory(st, w, f);
    BeginKeepsWire(st, w, f);
    BeginKeepsOpens(st, w, f);
    BeginKeepsAfterOpen(st, w, f);
    BeginKeepsStreams(st, w, f);
  }

  lemma BeginKeepsStreams(st: State, w: nat, f: Frame)
    requires st.consumed <= |st.started| && NothingLost(st) && IDsInOrder(st) && Fitting(f)
    ensures NothingLost(Begin(st, w, f)) && IDsInOrder(Begin(st, w, f))
  {
    var t := Begin(st, w, f);
    assert t.started[..t.consumed] == st.started[..st.consumed];
    forall id | id in t.streams
      ensures Received(t, id) == Received(st, id)
    {
    }
  }

  /** What the bytes, the frames and the streams say does not depend on who writes. */
  lemma SameBytesKeep(st: State, t: State)
    requires LegalHistory(st) && LegalHistory(t) && WireAgrees(st) && NothingLost(st) && OpensKnown(st) && AfterOpen(st)
    requires t.started == st.started && t.missing == st.missing && t.consumed == st.consumed
    requires t.unread == st.unread && t.reader == st.reader
    requires t.streams == st.streams && t.closedHere == st.closedHere
    ensures WireAgrees(t) && NothingLost(t) && OpensKnown(t) && AfterOpen(t)
  {
    assert Registered(t) == Registered(st) && Tail(t) == Tail(st) && Complete(t) == Complete(st);
    forall id | id in t.streams
      ensures Received(t, id) == Received(st, id)
    {
    }
  }

  ghost predicate Bookkeeping(st: State)
  {
    OpenedOnce(st) && IDsInOrder(st)
  }

  /** The history is legal still when only the bookkeeping of numbers moves on. */
  lemma SameFramesKeep(st: State, t: State)
    requires OneToken(st) && LegalHistory(st) && st.nextID <= t.nextID && t.writerIsClient == st.writerIsClient
    requires t.token == st.token && t.holders == st.holders && t.broken == st.broken
    requires t.started == st.started && t.missing == st.missing
    ensures OneToken(t) && LegalHistory(t)
  {
    assert forall q :: 0 <= q < |st.started| ==> Legal(st, st.started[q]);
  }

  lemma UnreservingKeepsBooks(st: State, t: State, id: uint32)
    requires OpenedOnce(st) && IDsInOrder(st) && t == st.(reserved := st.reserved - {id})
    ensures Bookkeeping(t)
  {
    assert Registered(t) == Registered(st);
  }

  lemma UnreservingKeeps(st: State, id: uint32)
    requires Inv(st)
    ensures Inv(st.(reserved := st.reserved - {id}))
  {
    var t := st.(reserved := st.reserved - {id});
    SameFramesKeep(st, t);
    UnreservingKeepsBooks(st, t, id);
    SameBytesKeep(st, t);
  }

  lemma ReserveKeepsIDs(st: State)
    requires LegalHistory(st) && OpenedOnce(st) && IDsInOrder(st) && OpensKnown(st) && st.nextID < TWO_32
    ensures var t := st.(reserved := st.reserved + {st.nextID}, nextID := st.nextID + 2);
            LegalHistory(t) && OpenedOnce(t) && IDsInOrder(t)
  {
    var t := st.(reserved := st.reserved + {st.nextID}, nextID := st.nextID + 2);
    assert Registered(t) == Registered(st);
    assert forall q :: 0 <= q < |st.started| ==> Legal(st, st.started[q]);
  }

  lemma ReserveKeeps(st: State)
    requires Inv(st) && Enabled(st, Reserve)
    ensures Inv(Apply(st, Reserve))
  {
    var t := st.(reserved := st.reserved + {st.nextID}, nextID := st.nextID + 2);
    ReserveKeepsIDs(st);
    assert OneToken(t);
    SameBytesKeep(st, t);
    assert Apply(st, Reserve) == t;
  }

  lemma AcceptKeepsBooks(st: State, t: State, id: uint32)
    requires OpenedOnce(st) && IDsInOrder(st) && id in Registered(st) && t == st.(accepted := st.accepted + {id})
    ensures Bookkeeping(t)
  {
    assert Registered(t) == Registered(st);
  }

  lemma AcceptKeeps(st: State, id: uint32)
    requires Inv(st) && id in Registered(st)
    ensures Inv(st.(accepted := st.accepted + {id}))
  {
    var t := st.(accepted := st.accepted + {id});
    SameFramesKeep(st, t);
    AcceptKeepsBooks(st, t, id);
    SameBytesKeep(st, t);
  }

  lemma PutKeepsHistory(st: State, w: nat, n: nat)
    requires OneToken(st) && LegalHistory(st) && Enabled(st, Put(w, n))
    ensures OneToken(Accepted(st, w, n)) && LegalHistory(Accepted(st, w, n))
  {
    var t := Accepted(st, w, n);
    assert t.holders.Keys == st.holders.Keys;
  }

  lemma PutKeeps(st: State, w: nat, n: nat)
    requires Inv(st) && Enabled(st, Put(w, n))
    ensures Inv(Apply(st, Put(w, n)))
  {
    PutKeepsHistory(st, w, n);
    PutKeepsWire(st, w, n);
    PutKeepsStreams(st, w, n);
  }

  lemma PutKeepsStreams(st: State, w: nat, n: nat)
    requires Enabled(st, Put(w, n)) && st.consumed <= |st.started|
    requires NothingLost(st) && OpenedOnce(st) && OpensKnown(st) && AfterOpen(st) && IDsInOrder(st)
    ensures var t := Accepted(st, w, n);
            NothingLost(t) && OpenedOnce(t) && OpensKnown(t) && AfterOpen(t) && IDsInOrder(t)
  {
    var t := Accepted(st, w, n);
    assert Registered(t) == Registered(st);
    forall id | id in t.streams
      ensures Received(t, id) == Received(st, id)
    {
    }
  }

  lemma ReleaseKeepsToken(st: State, w: nat, lost: bool)
    requires OneToken(st) && LegalHistory(st) && w in st.holders && Fitting(st.holders[w].frame)
    requires if lost then st.holders[w].done < |FrameBytes(st.holders[w].frame)|
             else st.holders[w].done == |FrameBytes(st.holders[w].frame)|
    ensures OneToken(Released(st, w, lost)) && LegalHistory(Released(st, w, lost))
  {
    assert st.holders.Keys == {w};
    assert (st.holders - {w}).Keys == {};
  }

  /** The token comes back, whether the frame was written or the connection failed under it. */
  lemma ReleaseKeeps(st: State, w: nat, lost: bool)
    requires Inv(st) && w in st.holders
    requires Fitting(st.holders[w].frame)
    requires if lost then st.holders[w].done < |FrameBytes(st.holders[w].frame)|
             else st.holders[w].done == |FrameBytes(st.holders[w].frame)|
    ensures Inv(Released(st, w, lost))
  {
    var t := Released(st, w, lost);
    ReleaseKeepsToken(st, w, lost);
    assert Bookkeeping(t);
    SameBytesKeep(st, t);
  }

  // ---------------------------------------------------------------- steps of the reader loop

  lemma WireOfFirst(fs: seq<Frame>, c: nat)
    requires AllFitting(fs) && c < |fs|
    ensures Wire(fs[c..]) == FrameHeader(fs[c]) + (fs[c].payload + Wire(fs[c + 1..]))
  {
    assert fs[c..][1..] == fs[c + 1..];
  }

  /** Nine bytes at the start of a frame are the header of the next frame to consume. */
  lemma HeaderIsNext(st: State)
    requires LegalHistory(st) && WireAgrees(st) && HeaderReady(st)
    ensures st.consumed < |st.started|
    ensures var f := st.started[st.consumed];
            ParseHeader(st.unread[..FRAME_HEADER_SIZE]) == ParsedHeader(f.kind, f.streamID, |f.payload|)
  {
    LegalIsFitting(st);
    if st.consumed < |st.started| {
      var f := st.started[st.consumed];
      WireOfFirst(st.started, st.consumed);
      ParseHeaderOfFrame(f, f.payload + Wire(st.started[st.consumed + 1..]));
      assert st.unread[..FRAME_HEADER_SIZE] == Tail(st)[..FRAME_HEADER_SIZE];
    }
  }

  /** The reader loop took k bytes off the wire and is done with the frame they end. */
  lemma FrameConsumed(st: State, t: State, k: nat)
    requires LegalHistory(st) && LegalHistory(t) && WireAgrees(st) && !st.reader.Stopped? && !t.reader.InPayload?
    requires st.consumed < |st.started| && t.started == st.started
    requires t.missing == st.missing && t.consumed == st.consumed + 1
    requires k <= |st.unread| && k <= |Tail(st)| && t.unread == st.unread[k..]
    requires Tail(st)[k..] == Wire(st.started[st.consumed + 1..])
    ensures WireAgrees(t)
  {
    ConsumedIsComplete(st, k);
    assert Tail(t) == Tail(st)[k..];
  }

  /** A frame taken off the wire to its end is complete. */
  lemma ConsumedIsComplete(st: State, k: nat)
    requires LegalHistory(st) && WireAgrees(st) && !st.reader.Stopped? && st.consumed < |st.started|
    requires k <= |st.unread| && k <= |Tail(st)| && Tail(st)[k..] == Wire(st.started[st.consumed + 1..])
    ensures st.consumed + 1 <= |Complete(st)|
  {
    if st.consumed + 1 == |st.started| {
      assert Tail(st)[k..] == [];
    }
  }

  lemma {:induction false} DataBytesAppend(fs: seq<Frame>, f: Frame, id: uint32)
    ensures DataBytes(fs + [f], id) == DataBytes(fs, id) + DataBytes([f], id)
  {
    if fs == [] {
      assert fs + [f] == [f];
    } else {
      assert (fs + [f])[1..] == fs[1..] + [f];
      DataBytesAppend(fs[1..], f, id);
    }
  }

  /** What the next frame carries for a stream. */
  function NextFor(st: State, id: uint32): bytes
    requires st.consumed < |st.started|
  {
    var f := st.started[st.consumed];
    if f.kind == DATA && f.streamID == id then f.payload else []
  }

  lemma DataBytesOfNext(st: State, id: uint32)
    requires st.consumed < |st.started|
    ensures DataBytes(st.started[..st.consumed + 1], id) == DataBytes(st.started[..st.consumed], id) + NextFor(st, id)
  {
    var f := st.started[st.consumed];
    assert st.started[..st.consumed + 1] == st.started[..st.consumed] + [f];
    DataBytesAppend(st.started[..st.consumed], f, id);
    assert DataBytes([f], id) == NextFor(st, id) + DataBytes([], id);
  }

  /** The known streams after the next frame. */
  function Introduced(st: State): set<uint32>
    requires st.consumed < |st.started|
  {
    var f := st.started[st.consumed];
    Registered(st) + if f.kind == OPEN then {f.streamID} else {}
  }

  lemma ConsumedKeepsOpens(st: State, t: State)
    requires OpenedOnce(st) && OpensKnown(st)
    requires st.consumed < |st.started| && t.started == st.started && t.consumed == st.consumed + 1
    requires t.reserved == st.reserved && Registered(t) == Introduced(st)
    ensures OpenedOnce(t) && OpensKnown(t)
  {
  }

  lemma ConsumedKeepsAfterOpen(st: State, t: State)
    requires AfterOpen(st)
    requires st.consumed < |st.started| && t.started == st.started && t.consumed == st.consumed + 1
    requires Registered(t) == Introduced(st)
    ensures AfterOpen(t)
  {
    forall p | t.consumed <= p < |t.started| && OfStream(t.started[p]) && t.started[p].streamID !in Registered(t)
      ensures exists q :: t.consumed <= q < p && IsOpen(t.started[q], t.started[p].streamID)
    {
      var q :| st.consumed <= q < p && IsOpen(st.started[q], t.started[p].streamID);
      assert t.consumed <= q && IsOpen(t.started[q], t.started[p].streamID);
    }
  }

  predicate SameWriters(st: State, t: State)
  {
    && t.token == st.token && t.holders == st.holders && t.broken == st.broken
    && t.started == st.started && t.missing == st.missing
    && t.writerIsClient == st.writerIsClient && t.nextID == st.nextID && t.reserved == st.reserved
  }

  lemma ConsumedKeeps(st: State, t: State, k: nat)
    requires FramesInv(st) && SameWriters(st, t) && !st.reader.Stopped? && !t.reader.InPayload?
    requires st.consumed < |st.started| && t.consumed == st.consumed + 1
    requires k <= |st.unread| && k <= |Tail(st)| && t.unread == st.unread[k..]
    requires Tail(st)[k..] == Wire(st.started[st.consumed + 1..])
    requires Registered(t) == Introduced(st)
    ensures FramesInv(t)
  {
    SameWritersKeep(st, t);
    FrameConsumed(st, t, k);
    ConsumedKeepsOpens(st, t);
    ConsumedKeepsAfterOpen(st, t);
  }

  lemma SameWritersKeep(st: State, t: State)
    requires OneToken(st) && LegalHistory(st) && SameWriters(st, t)
    ensures OneToken(t) && LegalHistory(t)
  {
    SameFramesKeep(st, t);
  }

  lemma StopKeepsFrames(st: State, unread: bytes, reason: StopReason)
    requires FramesInv(st)
    ensures FramesInv(st.(unread := unread, reader := Stopped(reason)))
  {
    var t := st.(unread := unread, reader := Stopped(reason));
    SameWritersKeep(st, t);
    assert Registered(t) == Registered(st) && Complete(t) == Complete(st);
  }

  lemma StopKeeps(st: State, unread: bytes, reason: StopReason)
    requires Inv(st) && reason != ProtocolError
    ensures Inv(st.(unread := unread, reader := Stopped(reason)))
  {
    var t := st.(unread := unread, reader := Stopped(reason));
    StopKeepsFrames(st, unread, reason);
    assert Registered(t) == Registered(st);
    StopKeepsStreams(st, t);
  }

  lemma StopKeepsStreams(st: State, t: State)
    requires st.consumed <= |st.started| && NothingLost(st) && t.reader.Stopped?
    requires t.started == st.started && t.consumed == st.consumed
    requires t.streams == st.streams && t.closedHere == st.closedHere
    ensures NothingLost(t)
  {
    forall id | id in t.streams
      ensures Received(t, id) <= DataBytes(t.started[..t.consumed], id)
    {
      assert Received(t, id) <= Received(st, id);
    }
  }

  lemma OpenedKeepsIDs(st: State, id: uint32)
    requires IDsInOrder(st) && OpenedOnce(st) && LegalHistory(st)
    requires st.reader.AtHeader? && |st.unread| >= FRAME_HEADER_SIZE
    requires st.consumed < |st.started| && IsOpen(st.started[st.consumed], id)
    ensures IDsInOrder(Opened(st, id))
  {
    assert Registered(Opened(st, id)) == Registered(st) + {id};
    assert Legal(st, st.started[st.consumed]);
  }

  lemma OpenedKeepsBytes(st: State, id: uint32)
    requires st.consumed < |st.started| && IsOpen(st.started[st.consumed], id) && id !in Registered(st)
    requires NothingLost(st) && st.reader.AtHeader? && |st.unread| >= FRAME_HEADER_SIZE
    ensures NothingLost(Opened(st, id))
  {
    var t := Opened(st, id);
    assert Registered(t) == Registered(st) + {id};
    forall i: uint32
      ensures DataBytes(t.started[..t.consumed], i) == DataBytes(st.started[..st.consumed], i)
    {
      DataBytesOfNext(st, i);
    }
    assert Received(t, id) == [];
  }

  lemma OpenedKeeps(st: State, id: uint32)
    requires Inv(st) && HeaderReady(st) && id !in Registered(st)
    requires st.consumed < |st.started| && IsOpen(st.started[st.consumed], id)
    ensures Inv(Opened(st, id))
  {
    var t := Opened(st, id);
    WireOfFirst(st.started, st.consumed);
    assert Registered(t) == Introduced(st);
    ConsumedKeeps(st, t, FRAME_HEADER_SIZE);
    OpenedKeepsIDs(st, id);
    OpenedKeepsBytes(st, id);
  }

  /** The next frame carries nothing to any stream and no stream's bytes changed. */
  lemma NoDataConsumed(st: State, t: State)
    requires st.consumed < |st.started| && st.started[st.consumed].kind != DATA
    requires NothingLost(st) && !st.reader.Handing? && !st.reader.Stopped? && t.reader.AtHeader?
    requires t.started == st.started && t.consumed == st.consumed + 1
    requires t.streams.Keys == st.streams.Keys && t.closedHere == st.closedHere
    requires forall id :: id in t.streams ==> t.streams[id] == st.streams[id].(remoteDone := t.streams[id].remoteDone)
    ensures NothingLost(t)
  {
    forall i: uint32
      ensures DataBytes(t.started[..t.consumed], i) == DataBytes(st.started[..st.consumed], i)
    {
      DataBytesOfNext(st, i);
    }
    forall i | i in t.streams
      ensures Received(t, i) == Received(st, i)
    {
    }
  }

  lemma ClosedByPeerKeepsBytes(st: State, id: uint32)
    requires st.consumed < |st.started| && st.started[st.consumed] == Frame(CLOSE, id, [])
    requires HeaderReady(st) && StreamsInv(st)
    ensures StreamsInv(ClosedByPeer(st, id)) && Registered(ClosedByPeer(st, id)) == Introduced(st)
  {
    var t := ClosedByPeer(st, id);
    assert t.streams.Keys == st.streams.Keys;
    assert Registered(t) == Registered(st);
    NoDataConsumed(st, t);
  }

  lemma ClosedByPeerKeeps(st: State, id: uint32)
    requires Inv(st) && HeaderReady(st)
    requires st.consumed < |st.started| && st.started[st.consumed] == Frame(CLOSE, id, [])
    ensures Inv(ClosedByPeer(st, id))
  {
    ClosedByPeerKeepsBytes(st, id);
    ClosedByPeerKeepsFrames(st, id);
  }

  lemma ClosedByPeerKeepsFrames(st: State, id: uint32)
    requires FramesInv(st) && HeaderReady(st)
    requires st.consumed < |st.started| && st.started[st.consumed] == Frame(CLOSE, id, [])
    requires Registered(ClosedByPeer(st, id)) == Introduced(st)
    ensures FramesInv(ClosedByPeer(st, id))
  {
    WireOfFirst(st.started, st.consumed);
    ConsumedKeeps(st, ClosedByPeer(st, id), FRAME_HEADER_SIZE);
  }

  lemma PayloadAheadKeepsWire(st: State, t: State, f: Frame)
    requires LegalHistory(st) && LegalHistory(t) && WireAgrees(st) && HeaderReady(st) && Fitting(f)
    requires st.consumed < |st.started| && st.started[st.consumed] == f && (f.kind == DATA || f.kind == DATAGRAM)
    requires t == PayloadAhead(st, ParsedHeader(f.kind, f.streamID, |f.payload|))
    ensures WireAgrees(t)
  {
    WireOfFirst(st.started, st.consumed);
    assert Tail(t) == Tail(st)[FRAME_HEADER_SIZE..];
  }

  lemma PayloadAheadKeepsFrames(st: State, f: Frame)
    requires FramesInv(st) && HeaderReady(st) && Fitting(f)
    requires st.consumed < |st.started| && st.started[st.consumed] == f && (f.kind == DATA || f.kind == DATAGRAM)
    ensures FramesInv(PayloadAhead(st, ParsedHeader(f.kind, f.streamID, |f.payload|)))
  {
    var t := PayloadAhead(st, ParsedHeader(f.kind, f.streamID, |f.payload|));
    SameWritersKeep(st, t);
    PayloadAheadKeepsWire(st, t, f);
    assert Registered(t) == Registered(st);
  }

  lemma PayloadAheadKeeps(st: State, f: Frame)
    requires Inv(st) && HeaderReady(st) && Fitting(f)
    requires st.consumed < |st.started| && st.started[st.consumed] == f && (f.kind == DATA || f.kind == DATAGRAM)
    ensures Inv(PayloadAhead(st, ParsedHeader(f.kind, f.streamID, |f.payload|)))
  {
    var t := PayloadAhead(st, ParsedHeader(f.kind, f.streamID, |f.payload|));
    PayloadAheadKeepsFrames(st, f);
    assert Registered(t) == Registered(st);
    SameStreamsKeep(st, t);
  }

  lemma SameStreamsKeep(st: State, t: State)
    requires st.consumed <= |st.started| && NothingLost(st) && st.reader.AtHeader? && t.reader.InPayload?
    requires t.started == st.started && t.consumed == st.consumed
    requires t.streams == st.streams && t.closedHere == st.closedHere
    ensures NothingLost(t)
  {
    forall i | i in t.streams
      ensures Received(t, i) == Received(st, i)
    {
    }
  }

  /** The loop never sees anything but the headers of legal frames. */
  lemma NextIsLegal(st: State) returns (f: Frame)
    requires Inv(st) && HeaderReady(st)
    ensures st.consumed < |st.started| && st.started[st.consumed] == f && Legal(st, f)
    ensures f.kind == OPEN ==> f.streamID !in Registered(st)
    ensures Apply(st, ReadHeader) == HeaderRead(st, ParsedHeader(f.kind, f.streamID, |f.payload|))
  {
    HeaderIsNext(st);
    f := st.started[st.consumed];
  }

  lemma ReadHeaderKeeps(st: State)
    requires Inv(st) && HeaderReady(st)
    ensures Inv(Apply(st, ReadHeader))
  {
    var f := NextIsLegal(st);
    if f.kind == OPEN {
      if |st.streams| >= MAX_STREAMS {
        StopKeeps(st, st.unread[FRAME_HEADER_SIZE..], StreamLimit);
      } else {
        OpenedKeeps(st, f.streamID);
      }
    } else if f.kind == CLOSE {
      ClosedByPeerKeeps(st, f.streamID);
    } else {
      PayloadAheadKeeps(st, f);
    }
  }

  lemma PayloadIsNext(st: State)
    requires LegalHistory(st) && WireAgrees(st) && PayloadReady(st)
    ensures st.consumed < |st.started|
    ensures st.unread[..st.reader.length] == st.started[st.consumed].payload
    ensures st.reader.length <= |Tail(st)|
    ensures Tail(st)[st.reader.length..] == Wire(st.started[st.consumed + 1..])
  {
    LegalIsFitting(st);
    WireOfFirst(st.started, st.consumed);
    var f := st.started[st.consumed];
    assert Tail(st) == f.payload + Wire(st.started[st.consumed + 1..]);
    assert st.unread[..st.reader.length] == Tail(st)[..st.reader.length];
  }

  lemma PayloadReadIntroduces(st: State)
    requires LegalHistory(st) && WireAgrees(st) && PayloadReady(st)
    ensures st.consumed < |st.started| && Registered(PayloadRead(st)) == Introduced(st)
  {
  }

  lemma PayloadReadMoves(st: State)
    requires PayloadReady(st)
    ensures var t := PayloadRead(st);
            t.consumed == st.consumed + 1 && !t.reader.InPayload? && t.unread == st.unread[st.reader.length..]
  {
  }

  lemma PayloadReadSparesWriters(st: State)
    requires PayloadReady(st)
    ensures SameWriters(st, PayloadRead(st))
  {
  }

  lemma PayloadReadKeepsFrames(st: State)
    requires FramesInv(st) && PayloadReady(st)
    ensures FramesInv(PayloadRead(st))
  {
    PayloadIsNext(st);
    PayloadReadIntroduces(st);
    PayloadReadMoves(st);
    PayloadReadSparesWriters(st);
    ConsumedKeeps(st, PayloadRead(st), st.reader.length);
  }

  lemma DataReadReceived(st: State, i: uint32)
    requires st.consumed < |st.started| && PayloadReady(st) && i in st.streams
    requires var f := st.started[st.consumed];
             && f.kind == st.reader.kind == DATA && f.streamID == st.reader.streamID
             && f.payload == st.unread[..st.reader.length]
    ensures i in PayloadRead(st).streams && Received(PayloadRead(st), i) == Received(st, i) + NextFor(st, i)
  {
    var b := st.streams[i];
    assert AllOf(b, NextFor(st, i)) == AllOf(b, []) + NextFor(st, i);
  }

  lemma DataReadKeepsStreams(st: State)
    requires st.consumed < |st.started| && NothingLost(st) && PayloadReady(st)
    requires var f := st.started[st.consumed];
             && f.kind == st.reader.kind == DATA && f.streamID == st.reader.streamID
             && f.payload == st.unread[..st.reader.length]
    requires st.reader.streamID in Registered(st)
    ensures NothingLost(PayloadRead(st))
  {
    var t := PayloadRead(st);
    forall i: uint32
      ensures DataBytes(t.started[..t.consumed], i) == DataBytes(st.started[..st.consumed], i) + NextFor(st, i)
    {
      DataBytesOfNext(st, i);
    }
    forall i | i in t.streams
      ensures Received(t, i) == DataBytes(t.started[..t.consumed], i)
    {
      DataReadReceived(st, i);
    }
  }

  lemma NextDataIsKnown(st: State)
    requires FramesInv(st) && PayloadReady(st) && st.reader.kind == DATA
    ensures st.reader.streamID in Registered(st)
  {
    assert st.started[st.consumed].kind == DATA;
  }

  lemma PayloadReadKeepsBytes(st: State)
    requires FramesInv(st) && st.consumed <= |st.started| && NothingLost(st) && PayloadReady(st)
    ensures NothingLost(PayloadRead(st))
  {
    PayloadIsNext(st);
    if st.reader.kind == DATA {
      NextDataIsKnown(st);
      DataReadKeepsStreams(st);
    } else {
      NoDataConsumed(st, PayloadRead(st));
    }
  }

  lemma PayloadReadKeepsIDs(st: State)
    requires IDsInOrder(st) && PayloadReady(st)
    ensures IDsInOrder(PayloadRead(st)) && !PayloadRead(st).reader.Stopped?
  {
    assert Registered(PayloadRead(st)) == Registered(st);
  }

  lemma PayloadReadKeeps(st: State)
    requires Inv(st) && PayloadReady(st)
    ensures Inv(PayloadRead(st))
  {
    PayloadReadKeepsFrames(st);
    PayloadReadKeepsBytes(st);
    PayloadReadKeepsIDs(st);
  }

  // ---------------------------------------------------------------- the other steps of the reading side

  lemma SameReadingKeeps(st: State, t: State)
    requires FramesInv(st) && SameWriters(st, t)
    requires t.consumed == st.consumed && t.unread == st.unread
    requires t.reader == st.reader || (st.reader.Handing? && t.reader.AtHeader?)
    requires Registered(t) == Registered(st)
    ensures FramesInv(t)
  {
    SameWritersKeep(st, t);
    assert Tail(t) == Tail(st) && Complete(t) == Complete(st);
  }

  lemma SameBytesReceived(st: State, t: State)
    requires StreamsInv(st) && SameWriters(st, t)
    requires t.consumed == st.consumed && (t.reader == st.reader || (st.reader.Handing? && t.reader.AtHeader?))
    requires t.peerNextID == st.peerNextID && t.accepted == st.accepted
    requires t.streams.Keys <= st.streams.Keys && Registered(t) == Registered(st)
    requires forall id :: id in t.streams ==> Received(t, id) == Received(st, id)
    ensures StreamsInv(t)
  {
  }

  lemma QueuedIsReceived(b: Inbox, payload: bytes)
    ensures AllOf(b.(queue := b.queue + [payload]), []) == AllOf(b, payload)
  {
    var before, queued := b.returned + b.current, Joined(b.queue);
    JoinedAppend(b.queue, payload);
    assert before + (queued + payload) + [] == before + queued + payload;
  }

  lemma HandedOverReceived(st: State, id: uint32)
    requires st.reader.Handing? && id in st.streams
    ensures id in HandedOver(st).streams && Received(HandedOver(st), id) == Received(st, id)
  {
    QueuedIsReceived(st.streams[id], st.reader.payload);
  }

  lemma HandedOverKnown(st: State)
    requires st.reader.Handing?
    ensures HandedOver(st).streams.Keys == st.streams.Keys && Registered(HandedOver(st)) == Registered(st)
  {
    assert HandedOver(st).streams.Keys == st.streams.Keys;
  }

  lemma HandedOverSame(st: State)
    requires st.reader.Handing?
    ensures var t := HandedOver(st);
            && SameWriters(st, t) && t.consumed == st.consumed && t.unread == st.unread && t.reader.AtHeader?
            && t.peerNextID == st.peerNextID && t.accepted == st.accepted
  {
  }

  lemma AllHandedOverReceived(st: State, t: State)
    requires st.reader.Handing? && t == HandedOver(st)
    ensures forall id :: id in t.streams ==> id in st.streams && Received(t, id) == Received(st, id)
  {
    HandedOverKnown(st);
    forall id | id in t.streams
      ensures id in st.streams && Received(t, id) == Received(st, id)
    {
      HandedOverReceived(st, id);
    }
  }

  lemma HandOverKeepsStreams(st: State)
    requires StreamsInv(st) && st.reader.Handing?
    ensures StreamsInv(HandedOver(st))
  {
    HandedOverSame(st);
    HandedOverKnown(st);
    AllHandedOverReceived(st, HandedOver(st));
    SameBytesReceived(st, HandedOver(st));
  }

  lemma HandOverKeepsFrames(st: State)
    requires FramesInv(st) && st.reader.Handing?
    ensures FramesInv(HandedOver(st))
  {
    HandedOverSame(st);
    HandedOverKnown(st);
    SameReadingKeeps(st, HandedOver(st));
  }

  lemma HandOverKeeps(st: State)
    requires Inv(st) && st.reader.Handing?
    ensures Inv(HandedOver(st))
  {
    HandOverKeepsFrames(st);
    HandOverKeepsStreams(st);
  }

  predicate SameInbox(a: Inbox, b: Inbox)
  {
    b.returned + b.current + Joined(b.queue) == a.returned + a.current + Joined(a.queue)
  }

  lemma InboxKeepsFrames(st: State, id: uint32, b: Inbox)
    requires FramesInv(st) && id in st.streams
    ensures FramesInv(WithInbox(st, id, b))
  {
    assert WithInbox(st, id, b).streams.Keys == st.streams.Keys;
    SameReadingKeeps(st, WithInbox(st, id, b));
  }

  lemma InboxReceived(st: State, id: uint32, b: Inbox, i: uint32)
    requires id in st.streams && SameInbox(st.streams[id], b) && i in st.streams
    ensures Received(WithInbox(st, id, b), i) == Received(st, i)
  {
  }

  lemma InboxKeepsStreams(st: State, id: uint32, b: Inbox)
    requires StreamsInv(st) && id in st.streams && SameInbox(st.streams[id], b)
    ensures StreamsInv(WithInbox(st, id, b))
  {
    var t := WithInbox(st, id, b);
    assert t.streams.Keys == st.streams.Keys;
    forall i | i in t.streams
      ensures Received(t, i) == Received(st, i)
    {
      InboxReceived(st, id, b, i);
    }
    SameBytesReceived(st, t);
  }

  lemma InboxKeeps(st: State, id: uint32, b: Inbox)
    requires Inv(st) && id in st.streams && SameInbox(st.streams[id], b)
    ensures Inv(WithInbox(st, id, b))
  {
    InboxKeepsFrames(st, id, b);
    InboxKeepsStreams(st, id, b);
  }

  lemma TakeKeepsInbox(b: Inbox)
    requires b.current == [] && b.queue != []
    ensures SameInbox(b, b.(current := b.queue[0], queue := b.queue[1..]))
  {
  }

  lemma CopyKeepsInbox(b: Inbox, n: nat)
    requires n <= |b.current|
    ensures SameInbox(b, b.(current := b.current[n..], returned := b.returned + b.current[..n]))
  {
    assert b.current[..n] + b.current[n..] == b.current;
  }

  lemma CloseKeeps(st: State, id: uint32)
    requires Inv(st) && id in st.streams
    ensures Inv(st.(streams := st.streams - {id}, closedHere := st.closedHere + {id}))
  {
    var t := st.(streams := st.streams - {id}, closedHere := st.closedHere + {id});
    assert Registered(t) == Registered(st);
    SameReadingKeeps(st, t);
    SameBytesReceived(st, t);
  }

  lemma PeerOpenKnown(st: State)
    requires st.peerNextID < TWO_32
    ensures Registered(st) <= Registered(OpenedHere(st)) <= Registered(st) + {st.peerNextID}
  {
  }

  lemma PeerNumberIsNotOpened(st: State, q: nat)
    requires LegalHistory(st) && IDsInOrder(st) && q < |st.started| && st.started[q].kind == OPEN
    ensures st.started[q].streamID != st.peerNextID
  {
    assert Legal(st, st.started[q]);
  }

  lemma PeerOpenKeepsWire(st: State)
    requires st.peerNextID < TWO_32
    requires LegalHistory(st) && LegalHistory(OpenedHere(st)) && WireAgrees(st)
    ensures WireAgrees(OpenedHere(st))
  {
    assert Complete(OpenedHere(st)) == Complete(st);
  }

  lemma PeerOpenKeepsOpens(st: State)
    requires OpenedOnce(st) && OpensKnown(st) && AfterOpen(st) && st.peerNextID < TWO_32
    requires forall q :: 0 <= q < |st.started| && st.started[q].kind == OPEN ==> st.started[q].streamID != st.peerNextID
    ensures OpenedOnce(OpenedHere(st)) && OpensKnown(OpenedHere(st)) && AfterOpen(OpenedHere(st))
  {
    PeerOpenKnown(st);
  }

  lemma PeerOpenKeepsFrames(st: State)
    requires FramesInv(st) && IDsInOrder(st) && st.peerNextID < TWO_32
    ensures FramesInv(OpenedHere(st))
  {
    SameWritersKeep(st, OpenedHere(st));
    PeerOpenKeepsWire(st);
    forall q | 0 <= q < |st.started| && st.started[q].kind == OPEN
      ensures st.started[q].streamID != st.peerNextID
    {
      PeerNumberIsNotOpened(st, q);
    }
    PeerOpenKeepsOpens(st);
  }

  lemma PeerNumberUsed(
    client: bool, next: nat, peerNext: uint32, reserved: set<uint32>, known: set<uint32>, more: set<uint32>)
    requires NumberedApart(client, next, peerNext, reserved, known) && known <= more <= known + {peerNext}
    ensures NumberedApart(client, next, peerNext + 2, reserved, more) && peerNext !in known
  {
  }

  lemma PeerOpenKeepsIDs(st: State)
    requires IDsInOrder(st) && st.peerNextID < TWO_32
    ensures IDsInOrder(OpenedHere(st)) && st.peerNextID !in Registered(st)
  {
    var t := OpenedHere(st);
    assert Registered(st) <= Registered(t) <= Registered(st) + {st.peerNextID};
    PeerNumberUsed(st.writerIsClient, st.nextID, st.peerNextID, st.reserved, Registered(st), Registered(t));
  }

  lemma PeerOpenKeepsBytes(st: State)
    requires st.consumed <= |st.started| && NothingLost(st)
    requires st.peerNextID < TWO_32 && st.peerNextID !in Registered(st)
    requires st.reader.Handing? ==> st.reader.streamID != st.peerNextID
    ensures NothingLost(OpenedHere(st))
  {
    var t := OpenedHere(st);
    assert Registered(st) <= Registered(t);
    forall id | id in t.streams && id != st.peerNextID
      ensures id in st.streams && Received(t, id) == Received(st, id)
    {
    }
  }

  lemma PeerOpenKeeps(st: State)
    requires Inv(st) && st.peerNextID < TWO_32
    ensures Inv(OpenedHere(st))
  {
    PeerOpenKeepsFrames(st);
    PeerOpenKeepsIDs(st);
    PeerOpenKeepsBytes(st);
  }

  // ---------------------------------------------------------------- every step

  lemma WriterStepKeeps(st: State, a: Action)
    requires Inv(st) && Enabled(st, a) && IsWriterStep(a)
    ensures Inv(Apply(st, a))
  {
    match a {
      case Reserve => ReserveKeeps(st);
      case StartOpen(w, id) =>
        StartOpenWelcome(st, id);
        UnreservingKeeps(st, id);
        BeginKeeps(st.(reserved := st.reserved - {id}), w, Frame(OPEN, id, []));
      case StartFrame(w, f) =>
        StartFrameWelcome(st, f);
        BeginKeeps(st, w, f);
      case Put(w, n) => PutKeeps(st, w, n);
      case Finish(w) => ReleaseKeeps(st, w, false);
      case Fail(w) => ReleaseKeeps(st, w, true);
      case AcceptAtWriter(id) => AcceptKeeps(st, id);
    }
  }

  lemma TakingDatagramKeeps(st: State)
    requires Inv(st) && st.datagrams != []
    ensures Inv(st.(datagrams := st.datagrams[1..], taken := st.taken + [st.datagrams[0]]))
  {
    var t := st.(datagrams := st.datagrams[1..], taken := st.taken + [st.datagrams[0]]);
    SameReadingKeeps(st, t);
    SameBytesReceived(st, t);
  }

  lemma ReaderStepKeeps(st: State, a: Action)
    requires Inv(st) && Enabled(st, a) && !IsWriterStep(a)
    ensures Inv(Apply(st, a))
  {
    match a {
      case ReadHeader => ReadHeaderKeeps(st);
      case ReadPayload => PayloadReadKeeps(st);
      case HandOver => HandOverKeeps(st);
      case StopReading => StopKeeps(st, st.unread, SessionOver);
      case PeerOpen => PeerOpenKeeps(st);
      case CloseLocal(id) => CloseKeeps(st, id);
      case Take(id) =>
        TakeKeepsInbox(st.streams[id]);
        InboxKeeps(st, id, st.streams[id].(current := st.streams[id].queue[0], queue := st.streams[id].queue[1..]));
      case Copy(id, n) =>
        var b := st.streams[id];
        CopyKeepsInbox(b, n);
        InboxKeeps(st, id, b.(current := b.current[n..], returned := b.returned + b.current[..n]));
      case TakeDatagram =>
        TakingDatagramKeeps(st);
    }
  }

  lemma StepKeeps(st: State, a: Action)
    requires Inv(st) && Enabled(st, a)
    ensures Inv(Apply(st, a))
  {
    if a.Reserve? || a.StartOpen? || a.StartFrame? || a.Put? || a.Finish? || a.Fail? || a.AcceptAtWriter? {
      WriterStepKeeps(st, a);
    } else {
      ReaderStepKeeps(st, a);
    }
  }
}
