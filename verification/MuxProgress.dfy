/** Nothing that was begun on a mux session is stuck: from every reachable state of a living session
    the writers and readers can go on until all of it has arrived. */
module MuxProgress {
  import opened Words
  import opened MuxWire
  import opened MuxStreams
  import opened MuxSession
  import opened MuxInvariant
  import opened MuxRuns
  import opened MuxCalls
  import opened MuxReader

  // ---------------------------------------------------------------- steps that only read

  predicate IsReadingStep(a: Action)
  {
    a.ReadHeader? || a.ReadPayload? || a.HandOver? || a.Take? || a.Copy?
  }

  predicate OnlyReads(actions: seq<Action>)
  {
    forall a :: a in actions ==> IsReadingStep(a)
  }

  /** The same writers, with the reading side further on. */
  predicate ReadOn(st: State, t: State)
  {
    SameWriters(st, t) && st.streams.Keys <= t.streams.Keys && t.closedHere == st.closedHere
  }

  lemma InboxReadsOn(st: State, id: uint32, b: Inbox)
    requires id in st.streams
    ensures ReadOn(st, WithInbox(st, id, b)) && WithInbox(st, id, b).streams.Keys == st.streams.Keys
  {
    assert WithInbox(st, id, b).streams.Keys == st.streams.Keys;
  }

  lemma OpenedReadsOn(st: State, id: uint32)
    requires |st.unread| >= FRAME_HEADER_SIZE
    ensures ReadOn(st, Opened(st, id)) && ReadOn(st, MuxSession.ClosedByPeer(st, id))
  {
  }

  lemma HeaderReadsOn(st: State, h: ParsedHeader)
    requires |st.unread| >= FRAME_HEADER_SIZE
    ensures ReadOn(st, HeaderRead(st, h))
  {
    var r := AnyHeaderRead(st, h);
    OpenedReadsOn(st, h.streamID);
    assert ReadOn(st, PayloadAhead(st, h)) && ReadOn(st, StoppedAfterHeader(st, r));
  }

  lemma InboxStepReadsOn(st: State, a: Action)
    requires Enabled(st, a) && (a.Take? || a.Copy?)
    ensures ReadOn(st, Apply(st, a)) && Apply(st, a).streams.Keys == st.streams.Keys
  {
    var b := st.streams[a.id];
    if a.Take? {
      InboxReadsOn(st, a.id, b.(current := b.queue[0], queue := b.queue[1..]));
    } else {
      InboxReadsOn(st, a.id, b.(current := b.current[a.n..], returned := b.returned + b.current[..a.n]));
    }
  }

  lemma StepReadsOn(st: State, a: Action)
    requires Enabled(st, a) && IsReadingStep(a)
    ensures ReadOn(st, Apply(st, a))
  {
    if a.Take? || a.Copy? {
      InboxStepReadsOn(st, a);
    } else if a.ReadHeader? {
      HeaderReadsOn(st, ParseHeader(st.unread[..FRAME_HEADER_SIZE]));
    } else if a.HandOver? {
      HandedOverKnown(st);
    }
  }

  lemma {:induction false} RunReadsOn(st: State, actions: seq<Action>, t: State)
    requires Leads(st, actions, t) && OnlyReads(actions)
    ensures ReadOn(st, t) && Finished(st, actions, t) == []
    decreases |actions|
  {
    if actions != [] {
      assert actions[0] in actions;
      StepReadsOn(st, actions[0]);
      RunReadsOn(Apply(st, actions[0]), actions[1..], t);
    }
  }

  // ---------------------------------------------------------------- one frame

  lemma OneStep(st: State, a: Action)
    requires Enabled(st, a)
    ensures Leads(st, [a], Apply(st, a))
  {
    assert [a][1..] == [];
    assert Leads(Apply(st, a), [], Apply(st, a));
  }

  /** The frames still to be dealt with, and how far the loop is with the next one. */
  function Rank(st: State): nat
    requires st.consumed <= |st.started| && (st.reader.InPayload? ==> st.consumed < |st.started|)
  {
    var left := |st.started| - st.consumed;
    if st.reader.InPayload? then 3 * left - 1 else if st.reader.Handing? then 3 * left + 1 else 3 * left
  }

  /** Whole frames lie ahead of the loop. */
  predicate WholeAhead(st: State)
  {
    && AllFitting(st.started) && st.consumed <= |st.started|
    && (st.reader.InPayload? ==>
          st.consumed < |st.started| && st.reader.length == |st.started[st.consumed].payload|)
    && st.unread == Tail(st)
  }

  lemma NothingMissing(st: State)
    requires Inv(st) && Idle(st) && !st.reader.Stopped?
    ensures WholeAhead(st)
  {
    LegalIsFitting(st);
    assert st.unread == Tail(st)[..|Tail(st)|];
  }

  lemma NextIsThere(st: State)
    requires WholeAhead(st) && st.consumed < |st.started|
    ensures st.reader.AtHeader? ==> |st.unread| >= FRAME_HEADER_SIZE
    ensures st.reader.InPayload? ==> |st.unread| >= st.reader.length
  {
    WireOfFirst(st.started, st.consumed);
  }

  /** A full queue is drained by one frame: what is left of the current one is copied and the next
      taken. */
  lemma MakeRoom(st: State, id: uint32) returns (actions: seq<Action>, t: State)
    requires id in st.streams && |st.streams[id].queue| == 64
    ensures Leads(st, actions, t) && OnlyReads(actions) && t.reader == st.reader && t.consumed == st.consumed
    ensures t.streams.Keys == st.streams.Keys && |t.streams[id].queue| == 63
  {
    var b := st.streams[id];
    var s1 := Apply(st, Copy(id, |b.current|));
    var b1 := s1.streams[id];
    assert b1.current == [] && b1.queue == b.queue;
    InboxStepReadsOn(st, Copy(id, |b.current|));
    InboxStepReadsOn(s1, Take(id));
    OneStep(st, Copy(id, |b.current|));
    OneStep(s1, Take(id));
    t := Apply(s1, Take(id));
    LeadsOn(st, [Copy(id, |b.current|)], s1, [Take(id)], t);
    actions := [Copy(id, |b.current|)] + [Take(id)];
  }

  lemma HandOverInTheEnd(st: State) returns (actions: seq<Action>, t: State)
    requires st.reader.Handing? && Bounded(st)
    ensures Leads(st, actions, t) && OnlyReads(actions) && t.reader.AtHeader? && t.consumed == st.consumed
    ensures t.streams.Keys == st.streams.Keys
  {
    var id := st.reader.streamID;
    if id in st.streams && |st.streams[id].queue| == 64 {
      var room, s1 := MakeRoom(st, id);
      OneStep(s1, HandOver);
      HandedOverKnown(s1);
      t := Apply(s1, HandOver);
      LeadsOn(st, room, s1, [HandOver], t);
      actions := room + [HandOver];
    } else {
      OneStep(st, HandOver);
      HandedOverKnown(st);
      actions, t := [HandOver], Apply(st, HandOver);
    }
  }

  /** The open frames among these. */
  function Opens(fs: seq<Frame>): nat
  {
    if fs == [] then 0 else (if fs[0].kind == OPEN then 1 else 0) + Opens(fs[1..])
  }

  /** The streams there will be once the loop has dealt with all frames. */
  function StreamsAhead(st: State): nat
    requires st.consumed <= |st.started|
  {
    |st.streams| + Opens(st.started[st.consumed..])
  }

  lemma OpensAhead(st: State)
    requires st.consumed < |st.started|
    ensures Opens(st.started[st.consumed..])
         == (if NextFrame(st).kind == OPEN then 1 else 0) + Opens(st.started[st.consumed + 1..])
  {
    assert st.started[st.consumed..][1..] == st.started[st.consumed + 1..];
  }

  lemma SameKeysSameSize(a: map<uint32, Inbox>, b: map<uint32, Inbox>)
    requires a.Keys == b.Keys
    ensures |a| == |b|
  {
    assert |a| == |a.Keys| && |b| == |b.Keys|;
  }

  /** Further on by part of a frame, with as many streams ahead as before. */
  predicate Advanced(st: State, t: State)
  {
    && st.consumed <= |st.started| == |t.started| && t.consumed <= |t.started|
    && (st.reader.InPayload? ==> st.consumed < |st.started|) && (t.reader.InPayload? ==> t.consumed < |t.started|)
    && Rank(t) < Rank(st) && StreamsAhead(t) == StreamsAhead(st)
  }

  lemma HeaderAdvances(st: State, t: State)
    requires st.consumed < |st.started| && st.reader.AtHeader? && t.started == st.started
    requires HeaderHandled(st, NextFrame(st), t) && !t.reader.Stopped?
    ensures Advanced(st, t)
  {
    OpensAhead(st);
    if NextFrame(st).kind == OPEN {
      StreamsOf(st, NextFrame(st).streamID, NEW_INBOX);
    } else {
      SameKeysSameSize(t.streams, st.streams);
    }
  }

  lemma PayloadAdvances(st: State, t: State)
    requires st.consumed < |st.started| && st.reader.InPayload? && t.started == st.started
    requires PayloadHandled(st, NextFrame(st), t) && NextFrame(st).kind != OPEN
    ensures Advanced(st, t)
  {
    OpensAhead(st);
  }

  lemma DrainHeader(st: State) returns (t: State)
    requires Inv(st) && WholeAhead(st) && st.reader.AtHeader? && st.consumed < |st.started|
    ensures Leads(st, [ReadHeader], t)
    ensures if t.reader.Stopped? then OpensTooMany(st) && t.reader == Stopped(StreamLimit) else Advanced(st, t)
  {
    NextIsThere(st);
    ReadHeaderExactly(st);
    OneStep(st, ReadHeader);
    t := Apply(st, ReadHeader);
    StepReadsOn(st, ReadHeader);
    if !t.reader.Stopped? {
      HeaderAdvances(st, t);
    }
  }

  lemma DrainPayload(st: State) returns (t: State)
    requires FramesInv(st) && WholeAhead(st) && st.reader.InPayload?
    ensures Leads(st, [ReadPayload], t) && Advanced(st, t) && !t.reader.Stopped?
  {
    NextIsThere(st);
    ReadPayloadExactly(st);
    OneStep(st, ReadPayload);
    t := Apply(st, ReadPayload);
    PayloadAdvances(st, t);
  }

  lemma DrainHands(st: State) returns (actions: seq<Action>, t: State)
    requires st.reader.Handing? && Bounded(st) && st.consumed <= |st.started|
    ensures Leads(st, actions, t) && OnlyReads(actions) && Advanced(st, t) && !t.reader.Stopped?
  {
    actions, t := HandOverInTheEnd(st);
    RunReadsOn(st, actions, t);
    SameKeysSameSize(t.streams, st.streams);
  }

  /** The loop goes on, with the readers' help, or has met its limit. */
  lemma DrainOnce(st: State) returns (actions: seq<Action>, t: State)
    requires Inv(st) && Idle(st) && Bounded(st) && !st.reader.Stopped?
    requires st.reader.AtHeader? ==> st.consumed < |st.started|
    ensures Leads(st, actions, t) && OnlyReads(actions)
    ensures if t.reader.Stopped? then OpensTooMany(st) && t.reader == Stopped(StreamLimit) else Advanced(st, t)
  {
    NothingMissing(st);
    if st.reader.AtHeader? {
      t := DrainHeader(st);
      actions := [ReadHeader];
    } else if st.reader.InPayload? {
      t := DrainPayload(st);
      actions := [ReadPayload];
    } else {
      actions, t := DrainHands(st);
    }
  }

  /** The loop is through with everything and waits for the next header. */
  predicate Drained(st: State)
  {
    st.reader.AtHeader? && st.consumed == |st.started| && st.unread == []
  }

  lemma TooManyAhead(st: State)
    requires OpensTooMany(st)
    ensures StreamsAhead(st) > 256
  {
    OpensAhead(st);
  }

  lemma DrainedAtLast(st: State)
    requires Inv(st) && Idle(st) && st.reader.AtHeader? && st.consumed == |st.started|
    ensures Drained(st) && StreamsAhead(st) == |st.streams|
  {
    NothingMissing(st);
    assert st.started[st.consumed..] == [];
  }

  /** With no writer in the middle of a frame, the loop and the readers can go on until every frame
      is dealt with. Only more than 256 streams can prevent it. */
  lemma {:induction false} CanDrain(st: State) returns (actions: seq<Action>, t: State)
    requires Inv(st) && Idle(st) && Bounded(st) && !st.reader.Stopped?
    ensures Leads(st, actions, t) && OnlyReads(actions)
    ensures if StreamsAhead(st) <= 256 then Drained(t) else t.reader == Stopped(StreamLimit)
    decreases Rank(st)
  {
    if st.reader.AtHeader? && st.consumed == |st.started| {
      DrainedAtLast(st);
      return [], st;
    }
    var first, next := DrainOnce(st);
    if next.reader.Stopped? {
      TooManyAhead(st);
      return first, next;
    }
    RunKeeps(st, first, next);
    RunKeepsBounds(st, first, next);
    RunReadsOn(st, first, next);
    var rest;
    rest, t := CanDrain(next);
    LeadsOn(st, first, next, rest, t);
    actions := first + rest;
  }

  // ---------------------------------------------------------------- the writers

  /** The reading side is where it was. */
  predicate SameReading(st: State, t: State)
  {
    && t.reader == st.reader && t.consumed == st.consumed && t.streams == st.streams && t.closedHere == st.closedHere
    && t.started == st.started && t.nextID == st.nextID && t.datagrams == st.datagrams
  }

  lemma FinishHolder(st: State, w: nat) returns (t: State)
    requires LegalHistory(st) && !st.broken && st.holders.Keys == {w} && !st.token
    requires st.holders[w].done == |FrameBytes(st.holders[w].frame)|
    ensures Leads(st, [Finish(w)], t) && SameReading(st, t) && Idle(t)
  {
    OneStep(st, Finish(w));
    t := Apply(st, Finish(w));
    assert (st.holders - {w}).Keys == {};
  }

  lemma PutTheRest(st: State, w: nat) returns (t: State)
    requires OneToken(st) && LegalHistory(st) && !st.broken && !st.token && w in st.holders
    requires st.holders[w].done < |FrameBytes(st.holders[w].frame)|
    ensures Leads(st, [Put(w, |FrameBytes(st.holders[w].frame)| - st.holders[w].done)], t)
    ensures SameReading(st, t) && OneToken(t) && LegalHistory(t) && !t.token && !t.broken && w in t.holders
    ensures Fitting(t.holders[w].frame) && t.holders[w].done == |FrameBytes(t.holders[w].frame)|
  {
    var rest := |FrameBytes(st.holders[w].frame)| - st.holders[w].done;
    OneStep(st, Put(w, rest));
    t := Accepted(st, w, rest);
    PutKeepsHistory(st, w, rest);
  }

  /** A writer in the middle of a frame can write the rest of it. */
  lemma FinishWriting(st: State) returns (actions: seq<Action>, t: State)
    requires OneToken(st) && LegalHistory(st) && !st.broken
    ensures Leads(st, actions, t) && SameReading(st, t) && Idle(t)
    ensures forall a :: a in actions ==> a.Put? || a.Finish?
  {
    if st.token {
      return [], st;
    }
    var w :| st.holders.Keys == {w};
    var hold := st.holders[w];
    if hold.done == |FrameBytes(hold.frame)| {
      t := FinishHolder(st, w);
      return [Finish(w)], t;
    }
    var s1 := PutTheRest(st, w);
    t := FinishHolder(s1, w);
    actions := [Put(w, |FrameBytes(hold.frame)| - hold.done), Finish(w)];
    assert actions[1..] == [Finish(w)];
  }

  predicate IsContinuation(a: Action)
  {
    a.Put? || a.Finish? || IsReadingStep(a)
  }

  /** From every reachable state of a living session, the writers and readers can go on, beginning
      nothing new, until all that was begun has come to the reader of every stream still open. Only
      more than 256 streams can prevent it. */
  lemma EverythingCanArrive(client: bool, actions: seq<Action>, st: State) returns (more: seq<Action>, t: State)
    requires Leads(Initial(client), actions, st) && !st.broken && !st.reader.Stopped?
    ensures Leads(Initial(client), actions + more, t) && forall a :: a in more ==> IsContinuation(a)
    ensures t.started == st.started && st.consumed <= |st.started|
    ensures if StreamsAhead(st) > 256 then t.reader == Stopped(StreamLimit)
            else
              && Drained(t) && t.token
              && forall id :: id in st.streams ==>
                   && id in t.streams
                   && t.streams[id].returned + t.streams[id].current + Joined(t.streams[id].queue)
                      == DataBytes(st.started, id)
  {
    Reachable(client, actions, st);
    RunKeepsBounds(Initial(client), actions, st);
    var writing, mid := FinishWriting(st);
    RunKeeps(st, writing, mid);
    var reading;
    reading, t := CanDrain(mid);
    LeadsOn(st, writing, mid, reading, t);
    more := writing + reading;
    LeadsOn(Initial(client), actions, st, more, t);
    RunReadsOn(mid, reading, t);
    if StreamsAhead(st) <= 256 {
      AllArrived(client, actions + more, st, t);
    }
  }

  lemma AllArrived(client: bool, actions: seq<Action>, st: State, t: State)
    requires Leads(Initial(client), actions, t) && Drained(t) && t.missing == 0
    requires t.started == st.started && st.streams.Keys <= t.streams.Keys
    ensures forall id :: id in st.streams ==>
              && id in t.streams
              && t.streams[id].returned + t.streams[id].current + Joined(t.streams[id].queue)
                 == DataBytes(st.started, id)
  {
    forall id | id in st.streams
      ensures Received(t, id) == DataBytes(st.started, id)
    {
      Conservation(client, actions, t, id);
      assert Complete(t)[t.consumed..] == [];
      assert DataBytes([], id) == [];
    }
  }

  // ---------------------------------------------------------------- a new stream

  lemma OpenAlone(st: State, w: nat) returns (actions: seq<Action>, t: State)
    requires Idle(st) && st.nextID < TWO_32
    ensures Leads(st, actions, t)
    ensures t == Sending(st, Frame(OPEN, st.nextID, [])).(nextID := st.nextID + 2, reserved := t.reserved)
  {
    var id: uint32 := st.nextID;
    var f := Frame(OPEN, id, []);
    var s1 := Apply(st, Reserve);
    OneStep(st, Reserve);
    var s2 := Apply(s1, StartOpen(w, id));
    OneStep(s1, StartOpen(w, id));
    assert s2.holders == map[w := Holding(f, 0)];
    var s3, rest := PutAndFinish(s2, w, f);
    LeadsOn(s1, [StartOpen(w, id)], s2, rest, s3);
    LeadsOn(st, [Reserve], s1, [StartOpen(w, id)] + rest, s3);
    actions, t := [Reserve] + ([StartOpen(w, id)] + rest), s3;
  }

  lemma PutAndFinish(st: State, w: nat, f: Frame) returns (t: State, actions: seq<Action>)
    requires Fitting(f) && st.holders == map[w := Holding(f, 0)] && !st.token && !st.broken
    requires st.missing == |FrameBytes(f)|
    ensures Leads(st, actions, t)
    ensures t == st.(holders := map[], token := true, missing := 0, unread := st.unread + FrameBytes(f))
  {
    var n := |FrameBytes(f)|;
    OneStep(st, Put(w, n));
    var s1 := Apply(st, Put(w, n));
    assert FrameBytes(f)[0..n] == FrameBytes(f);
    assert s1.holders == map[w := Holding(f, n)];
    OneStep(s1, Finish(w));
    t := Apply(s1, Finish(w));
    assert t.holders == map[];
    LeadsOn(st, [Put(w, n)], s1, [Finish(w)], t);
    actions := [Put(w, n)] + [Finish(w)];
  }

  lemma {:induction false} OnlyData(fs: seq<Frame>, id: uint32)
    requires forall i :: 0 <= i < |fs| ==> IsDataFrame(fs[i], id)
    ensures DataBytes(fs, id) == Payloads(fs) && Opens(fs) == 0
  {
    if fs != [] {
      OnlyData(fs[1..], id);
    }
  }

  /** The frames of a new stream, after all others. */
  function NewFrames(id: uint32, data: bytes): seq<Frame>
  {
    [Frame(OPEN, id, [])] + Chunks(id, data)
  }

  lemma NewFramesCarry(id: uint32, data: bytes)
    ensures DataBytes(NewFrames(id, data), id) == data && Opens(NewFrames(id, data)) == 1
  {
    ChunksCarryData(id, data);
    OnlyData(Chunks(id, data), id);
    assert NewFrames(id, data)[1..] == Chunks(id, data);
  }

  lemma OpenAndWrite(st: State, w: nat, data: bytes) returns (actions: seq<Action>, t: State)
    requires Idle(st) && st.nextID < TWO_32
    ensures Leads(st, actions, t) && Idle(t)
    ensures t == st.(started := st.started + NewFrames(st.nextID, data), unread := t.unread, nextID := st.nextID + 2,
                     reserved := t.reserved)
  {
    var id: uint32 := st.nextID;
    var opening, s1 := OpenAlone(st, w);
    assert Complete(s1)[|st.started|] == Frame(OPEN, id, []);
    var writing;
    writing, t := WriteIsARun(s1, w, id, data);
    LeadsOn(st, opening, s1, writing, t);
    actions := opening + writing;
    assert st.started + [Frame(OPEN, id, [])] + Chunks(id, data) == st.started + NewFrames(id, data);
  }

  lemma AheadOfNew(st: State, t: State, data: bytes)
    requires st.consumed == |st.started| && st.nextID < TWO_32 && t.consumed == st.consumed
    requires t.started == st.started + NewFrames(st.nextID, data) && t.streams == st.streams
    ensures StreamsAhead(t) == |st.streams| + 1
  {
    assert t.started[t.consumed..] == NewFrames(st.nextID, data);
    NewFramesCarry(st.nextID, data);
  }

  lemma NewStreamKnown(st: State, t: State, data: bytes)
    requires IDsInOrder(st) && st.nextID < TWO_32 && OpensKnown(t) && t.consumed == |t.started|
    requires t.started == st.started + NewFrames(st.nextID, data) && t.closedHere == st.closedHere
    ensures st.nextID in t.streams
  {
    assert t.started[|st.started|] == Frame(OPEN, st.nextID, []);
    assert st.nextID !in Registered(st);
  }

  lemma NewStreamBytes(st: State, started: seq<Frame>, data: bytes)
    requires Inv(st) && st.consumed == |st.started| && st.nextID < TWO_32
    requires started == st.started + NewFrames(st.nextID, data)
    ensures DataBytes(started, st.nextID) == data
  {
    NewFramesCarry(st.nextID, data);
    DataBytesConcat(st.started, NewFrames(st.nextID, data), st.nextID);
    assert st.started[..st.consumed] == st.started;
    assert st.nextID !in Registered(st);
  }

  /** Whenever nothing is on the wire and there are fewer than 256 streams, the writing side can open
      another one and write to it, and its data can come to the reader. */
  lemma NewStreamDelivers(client: bool, actions: seq<Action>, st: State, w: nat, data: bytes)
    returns (more: seq<Action>, t: State)
    requires Leads(Initial(client), actions, st) && Idle(st) && Drained(st)
    requires |st.streams| < 256 && st.nextID < TWO_32
    ensures Leads(Initial(client), actions + more, t) && Drained(t)
    ensures st.nextID !in Registered(st) && st.nextID in t.streams
    ensures var b := t.streams[st.nextID]; b.returned + b.current + Joined(b.queue) == data
  {
    Reachable(client, actions, st);
    RunKeepsBounds(Initial(client), actions, st);
    var writing, mid := OpenAndWrite(st, w, data);
    RunKeeps(st, writing, mid);
    AheadOfNew(st, mid, data);
    var reading;
    reading, t := CanDrain(mid);
    LeadsOn(st, writing, mid, reading, t);
    more := writing + reading;
    LeadsOn(Initial(client), actions, st, more, t);
    RunReadsOn(mid, reading, t);
    Reachable(client, actions + more, t);
    NewStreamKnown(st, t, data);
    NewStreamBytes(st, t.started, data);
    AllArrived(client, actions + more, t, t);
  }
}
