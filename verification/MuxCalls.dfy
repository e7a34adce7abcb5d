/** A stream's Write and Read as the steps of the session that they take, and what a reader has of
    what was written. */
module MuxCalls {
  import opened Words
  import opened MuxWire
  import opened MuxStreams
  import opened MuxSession
  import opened MuxInvariant
  import opened MuxRuns

  // ---------------------------------------------------------------- a Write

  /** The session after a frame was written with nobody in between. */
  function Sending(st: State, f: Frame): State
    requires Fitting(f)
  {
    st.(started := st.started + [f], unread := st.unread + FrameBytes(f))
  }

  predicate Idle(st: State)
  {
    st.token && !st.broken && st.missing == 0 && st.holders == map[]
  }

  function FrameSteps(w: nat, f: Frame): seq<Action>
    requires Fitting(f)
  {
    [StartFrame(w, f), Put(w, |FrameBytes(f)|), Finish(w)]
  }

  lemma FrameAlone(st: State, w: nat, f: Frame)
    requires Idle(st) && MaySend(st, f) && Fitting(f)
    ensures Leads(st, FrameSteps(w, f), Sending(st, f))
    ensures Finished(st, FrameSteps(w, f), Sending(st, f)) == [f]
  {
    var n, steps := |FrameBytes(f)|, FrameSteps(w, f);
    var s1 := Begin(st, w, f);
    var s2 := Accepted(s1, w, n);
    var t := Released(s2, w, false);
    assert s1.holders == map[w := Holding(f, 0)] && s2.holders == map[w := Holding(f, n)];
    assert FrameBytes(f)[0..n] == FrameBytes(f);
    assert t.holders == map[];
    assert t == Sending(st, f);
    assert steps[1..] == [Put(w, n), Finish(w)] && steps[1..][1..] == [Finish(w)] && [Finish(w)][1..] == [];
    FinishAlone(s2, w, t);
    assert Leads(s1, steps[1..], t) && Finished(s1, steps[1..], t) == [] + Finished(s2, [Finish(w)], t);
  }

  lemma FinishAlone(s2: State, w: nat, t: State)
    requires Enabled(s2, Finish(w)) && t == Released(s2, w, false)
    ensures Leads(s2, [Finish(w)], t) && Finished(s2, [Finish(w)], t) == [s2.holders[w].frame]
  {
    assert [Finish(w)][1..] == [];
    assert Leads(t, [], t) && Finished(t, [], t) == [];
  }

  lemma {:induction false} LeadsOn(st: State, a: seq<Action>, mid: State, b: seq<Action>, t: State)
    requires Leads(st, a, mid) && Leads(mid, b, t)
    ensures Leads(st, a + b, t)
    ensures Finished(st, a + b, t) == Finished(st, a, mid) + Finished(mid, b, t)
    decreases |a|
  {
    if a == [] {
      assert a + b == b;
    } else {
      assert (a + b)[1..] == a[1..] + b;
      var next := Apply(st, a[0]);
      LeadsOn(next, a[1..], mid, b, t);
      Reassociate(if a[0].Finish? then [st.holders[a[0].w].frame] else [],
                  Finished(next, a[1..], mid), Finished(mid, b, t));
    }
  }

  /** More frames complete on the wire leave the writer allowed what it was. */
  lemma StillMayWrite(st: State, f: Frame, id: uint32)
    requires CanWrite(st, id) && Idle(st) && Fitting(f)
    ensures CanWrite(Sending(st, f), id)
  {
    if id !in st.accepted {
      var q :| 0 <= q < |Complete(st)| && Complete(st)[q] == Frame(OPEN, id, []);
      assert Complete(Sending(st, f))[q] == Frame(OPEN, id, []);
    }
  }

  /** The session after these frames were written with nobody in between. */
  function AllSent(st: State, fs: seq<Frame>): State
    requires AllFitting(fs)
  {
    st.(started := st.started + fs, unread := st.unread + Wire(fs))
  }

  lemma NoneSent(st: State)
    ensures AllSent(st, []) == st
  {
    assert st.started + [] == st.started && st.unread + Wire([]) == st.unread;
  }

  lemma SentOneByOne(st: State, fs: seq<Frame>)
    requires AllFitting(fs) && fs != []
    ensures AllSent(Sending(st, fs[0]), fs[1..]) == AllSent(st, fs)
  {
    Reassociate(st.unread, FrameBytes(fs[0]), Wire(fs[1..]));
    assert st.started + [fs[0]] + fs[1..] == st.started + fs;
  }

  lemma {:induction false} DataFramesAlone(st: State, w: nat, id: uint32, fs: seq<Frame>)
    returns (actions: seq<Action>, t: State)
    requires Idle(st) && CanWrite(st, id) && AllFitting(fs)
    requires forall i :: 0 <= i < |fs| ==> IsDataFrame(fs[i], id)
    ensures Leads(st, actions, t) && Finished(st, actions, t) == fs
    ensures t == AllSent(st, fs)
    decreases |fs|
  {
    if fs == [] {
      NoneSent(st);
      return [], st;
    }
    StillMayWrite(st, fs[0], id);
    var rest;
    rest, t := DataFramesAlone(Sending(st, fs[0]), w, id, fs[1..]);
    actions := FirstThenRest(st, w, fs, rest, t);
    SentOneByOne(st, fs);
  }

  lemma FirstThenRest(st: State, w: nat, fs: seq<Frame>, rest: seq<Action>, t: State) returns (actions: seq<Action>)
    requires Idle(st) && fs != [] && AllFitting(fs) && MaySend(st, fs[0])
    requires Leads(Sending(st, fs[0]), rest, t) && Finished(Sending(st, fs[0]), rest, t) == fs[1..]
    ensures Leads(st, actions, t) && Finished(st, actions, t) == fs
  {
    FrameAlone(st, w, fs[0]);
    LeadsOn(st, FrameSteps(w, fs[0]), Sending(st, fs[0]), rest, t);
    actions := FrameSteps(w, fs[0]) + rest;
    assert [fs[0]] + fs[1..] == fs;
  }

  /** A Write that nobody interrupts is a run of the session. The frames it sends are the chunks of
      its data, the wire grows by the bytes that MuxStream.Write promises, and nothing else changes. */
  lemma WriteIsARun(st: State, w: nat, id: uint32, data: bytes) returns (actions: seq<Action>, t: State)
    requires Idle(st) && CanWrite(st, id)
    ensures Leads(st, actions, t) && Finished(st, actions, t) == Chunks(id, data)
    ensures t == st.(started := st.started + Chunks(id, data), unread := st.unread + ChunkWire(id, data))
  {
    ChunksCarryData(id, data);
    actions, t := DataFramesAlone(st, w, id, Chunks(id, data));
  }

  // ---------------------------------------------------------------- a Read

  lemma CopyAlone(st: State, id: uint32, n: nat)
    requires id in st.streams && n <= |st.streams[id].current|
    ensures var b := st.streams[id];
            var copied := b.(current := b.current[n..], returned := b.returned + b.current[..n]);
            Leads(st, [Copy(id, n)], WithInbox(st, id, copied))
  {
    var t := Apply(st, Copy(id, n));
    assert [Copy(id, n)][1..] == [];
    assert Leads(t, [], t);
  }

  /** A Read that nobody interrupts and that finds bytes is a run of the session: it takes frames
      off the queue until one has bytes, and copies as many of them as fit. It returns and keeps
      what MuxStream.Read promises, and nothing else changes. */
  lemma {:induction false} ReadIsARun(st: State, id: uint32, size: nat) returns (actions: seq<Action>, t: State)
    requires id in st.streams && NextToRead(st.streams[id].current, st.streams[id].queue).0 != []
    ensures Leads(st, actions, t)
    ensures var b := st.streams[id];
            var (out, current, queue) := ReadStep(b.current, b.queue, size);
            t == WithInbox(st, id, Inbox(queue, current, b.returned + out, b.remoteDone))
    decreases |st.streams[id].queue|
  {
    var b := st.streams[id];
    if b.current != [] {
      var n := HowMany(size, b.current);
      CopyAlone(st, id, n);
      actions := [Copy(id, n)];
      t := Apply(st, Copy(id, n));
    } else {
      var next := Apply(st, Take(id));
      var rest;
      rest, t := ReadIsARun(next, id, size);
      actions := [Take(id)] + rest;
      assert actions[1..] == rest;
    }
  }

  // ---------------------------------------------------------------- many Writes

  /** The data frames of one stream among those of all. */
  function DataFrames(fs: seq<Frame>, id: uint32): seq<Frame>
  {
    if fs == [] then []
    else (if fs[0].kind == DATA && fs[0].streamID == id then [fs[0]] else []) + DataFrames(fs[1..], id)
  }

  /** The frames of several Writes on a stream, one after the other. */
  function AllChunks(id: uint32, writes: seq<bytes>): seq<Frame>
  {
    if writes == [] then [] else Chunks(id, writes[0]) + AllChunks(id, writes[1..])
  }

  lemma {:induction false} PayloadsConcat(fs: seq<Frame>, gs: seq<Frame>)
    ensures Payloads(fs + gs) == Payloads(fs) + Payloads(gs)
  {
    if fs == [] {
      assert fs + gs == gs;
    } else {
      assert (fs + gs)[1..] == fs[1..] + gs;
      PayloadsConcat(fs[1..], gs);
    }
  }

  lemma {:induction false} DataFramesCarryDataBytes(fs: seq<Frame>, id: uint32)
    ensures Payloads(DataFrames(fs, id)) == DataBytes(fs, id)
  {
    if fs != [] {
      DataFramesCarryDataBytes(fs[1..], id);
      if fs[0].kind == DATA && fs[0].streamID == id {
        assert ([fs[0]] + DataFrames(fs[1..], id))[1..] == DataFrames(fs[1..], id);
      } else {
        assert [] + DataFrames(fs[1..], id) == DataFrames(fs[1..], id);
      }
    }
  }

  lemma {:induction false} AllChunksCarryAll(id: uint32, writes: seq<bytes>)
    ensures Payloads(AllChunks(id, writes)) == Joined(writes)
  {
    if writes != [] {
      ChunksCarryData(id, writes[0]);
      PayloadsConcat(Chunks(id, writes[0]), AllChunks(id, writes[1..]));
      AllChunksCarryAll(id, writes[1..]);
    }
  }

  /** If the data frames that were written for a stream are those of its Writes, one Write after
      the other, then once the session is quiet its reader has, or can still take, the data of
      these Writes in order, whatever all other writers, streams and readers did in between. */
  lemma WritesArrive(client: bool, actions: seq<Action>, t: State, id: uint32, writes: seq<bytes>)
    requires Leads(Initial(client), actions, t) && id in t.streams
    requires DataFrames(Finished(Initial(client), actions, t), id) == AllChunks(id, writes)
    requires t.token && t.reader.AtHeader? && |t.unread| < FRAME_HEADER_SIZE && !t.broken
    ensures t.streams[id].returned + t.streams[id].current + Joined(t.streams[id].queue) == Joined(writes)
  {
    var written := Finished(Initial(client), actions, t);
    DeliveredWhenQuiet(client, actions, t, id);
    DataFramesCarryDataBytes(written, id);
    AllChunksCarryAll(id, writes);
  }
}
