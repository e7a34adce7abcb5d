/** What holds in every run of a mux session, however its writers, its reader loop and the readers
    of its streams take turns. */
module MuxRuns {
  import opened Words
  import opened MuxWire
  import opened MuxSession
  import opened MuxInvariant

  lemma InitialInv(client: bool)
    ensures Inv(Initial(client))
  {
    var st := Initial(client);
    assert st.started[..st.consumed] == [];
  }

  /** The actions take the session from st to t. */
  ghost predicate Leads(st: State, actions: seq<Action>, t: State)
    decreases |actions|
  {
    if actions == [] then st == t
    else Enabled(st, actions[0]) && Leads(Apply(st, actions[0]), actions[1..], t)
  }

  lemma {:induction false} RunKeeps(st: State, actions: seq<Action>, t: State)
    requires Inv(st) && Leads(st, actions, t)
    ensures Inv(t)
    decreases |actions|
  {
    if actions != [] {
      StepKeeps(st, actions[0]);
      RunKeeps(Apply(st, actions[0]), actions[1..], t);
    }
  }

  // ---------------------------------------------------------------- the wire

  lemma Reachable(client: bool, actions: seq<Action>, t: State)
    requires Leads(Initial(client), actions, t)
    ensures Inv(t)
  {
    InitialInv(client);
    RunKeeps(Initial(client), actions, t);
  }

  lemma NothingIsTorn()
    ensures Torn([])
  {
    var f := Frame(CLOSE, 0, []);
    assert FrameBytes(f)[..0] == [];
  }

  lemma CompleteAndLast(t: State) returns (torn: bytes)
    requires LegalHistory(t) && WireAgrees(t) && t.reader.AtHeader? && t.missing > 0
    ensures AllFitting(t.started) && AllFitting(Complete(t)[t.consumed..])
    ensures Torn(torn) && t.unread == Wire(Complete(t)[t.consumed..]) + torn
  {
    LegalIsFitting(t);
    var n := |t.started| - 1;
    var whole, last := t.started[t.consumed..n], t.started[n];
    assert t.started[t.consumed..] == whole + [last];
    WireOfLast(whole, last);
    assert Complete(t)[t.consumed..] == whole;
    torn := FrameBytes(last)[..|FrameBytes(last)| - t.missing];
  }

  /** What lies unread is whole frames and perhaps the beginning of one more. */
  lemma UnreadIsFrames(t: State) returns (torn: bytes)
    requires LegalHistory(t) && WireAgrees(t) && t.reader.AtHeader?
    ensures AllFitting(Complete(t)[t.consumed..]) && Torn(torn)
    ensures t.unread == Wire(Complete(t)[t.consumed..]) + torn
    ensures torn == [] || t.missing > 0
  {
    if t.missing == 0 {
      LegalIsFitting(t);
      NothingIsTorn();
      torn := [];
    } else {
      torn := CompleteAndLast(t);
    }
  }

  /** At a frame boundary, parsing what lies unread gives exactly the frames written and not yet
      consumed: no interleaving of writers mixes two frames. And a session between correct sides
      never ends in a protocol error. */
  lemma WireIntegrity(client: bool, actions: seq<Action>, t: State)
    requires Leads(Initial(client), actions, t)
    ensures t.reader != Stopped(ProtocolError)
    ensures t.consumed <= |Complete(t)|
    ensures t.reader.AtHeader? ==> Parse(t.unread).0 == Complete(t)[t.consumed..]
    ensures t.reader.AtHeader? && t.missing == 0 ==> Parse(t.unread).1 == []
  {
    Reachable(client, actions, t);
    if t.reader.AtHeader? {
      var torn := UnreadIsFrames(t);
      ParseRecoversFrames(Complete(t)[t.consumed..], torn);
    }
  }

  /** The write token is in its channel, or exactly one writer has it. */
  lemma TokenIsConserved(client: bool, actions: seq<Action>, t: State)
    requires Leads(Initial(client), actions, t)
    ensures |t.holders| + (if t.token then 1 else 0) == 1
  {
    Reachable(client, actions, t);
    if !t.token {
      var w :| t.holders.Keys == {w};
      assert |t.holders| == |t.holders.Keys|;
    }
  }

  // ---------------------------------------------------------------- conservation

  /** The frames whose writing succeeded in a run, in the order in which their writers finished. */
  ghost function Finished(st: State, actions: seq<Action>, t: State): seq<Frame>
    requires Leads(st, actions, t)
    decreases |actions|
  {
    if actions == [] then []
    else
      (if actions[0].Finish? then [st.holders[actions[0].w].frame] else [])
      + Finished(Apply(st, actions[0]), actions[1..], t)
  }

  /** The same, told from the state: all frames begun but one that is not, or will never be, done. */
  function SentOf(token: bool, broken: bool, started: seq<Frame>): seq<Frame>
  {
    if (token && !broken) || started == [] then started else started[..|started| - 1]
  }

  function Sent(st: State): seq<Frame>
  {
    SentOf(st.token, st.broken, st.started)
  }

  lemma HeaderReadSends(st: State, h: ParsedHeader)
    requires |st.unread| >= FRAME_HEADER_SIZE
    ensures Sent(HeaderRead(st, h)) == Sent(st)
  {
  }

  lemma ReaderStepSends(st: State, a: Action)
    requires Enabled(st, a) && !IsWriterStep(a)
    ensures Sent(Apply(st, a)) == Sent(st)
  {
    match a {
      case ReadHeader => HeaderReadSends(st, ParseHeader(st.unread[..FRAME_HEADER_SIZE]));
      case ReadPayload => assert Sent(PayloadRead(st)) == Sent(st);
      case HandOver => assert Sent(HandedOver(st)) == Sent(st);
      case PeerOpen => assert Sent(OpenedHere(st)) == Sent(st);
      case _ =>
    }
  }

  lemma BeginSends(st: State, w: nat, f: Frame)
    requires st.token && Fitting(f) && (st.broken ==> st.missing > 0) && (st.started == [] ==> st.missing == 0)
    ensures Sent(Begin(st, w, f)) == Sent(st)
  {
  }

  lemma ReleaseSends(st: State, w: nat, lost: bool)
    requires LegalHistory(st) && !st.token && w in st.holders
    requires var hold := st.holders[w];
             if lost then hold.done < |FrameBytes(hold.frame)| else hold.done == |FrameBytes(hold.frame)|
    ensures Sent(Released(st, w, lost)) == Sent(st) + if lost then [] else [st.holders[w].frame]
  {
  }

  lemma WriterStepSends(st: State, a: Action)
    requires OneToken(st) && LegalHistory(st) && Enabled(st, a) && IsWriterStep(a)
    ensures Sent(Apply(st, a)) == Sent(st) + if a.Finish? then [st.holders[a.w].frame] else []
  {
    match a {
      case StartOpen(w, id) => BeginSends(st.(reserved := st.reserved - {id}), w, Frame(OPEN, id, []));
      case StartFrame(w, f) => BeginSends(st, w, f);
      case Finish(w) => ReleaseSends(st, w, false);
      case Fail(w) => ReleaseSends(st, w, true);
      case Put(w, n) => assert Sent(Accepted(st, w, n)) == Sent(st);
      case _ =>
    }
  }

  lemma {:induction false} RunSends(st: State, actions: seq<Action>, t: State)
    requires Inv(st) && Leads(st, actions, t)
    ensures Sent(t) == Sent(st) + Finished(st, actions, t)
    decreases |actions|
  {
    if actions == [] {
      assert Sent(t) + [] == Sent(t);
    } else {
      StepKeeps(st, actions[0]);
      StepSends(st, actions[0]);
      var next := Apply(st, actions[0]);
      RunSends(next, actions[1..], t);
      Reassociate(Sent(st), if actions[0].Finish? then [st.holders[actions[0].w].frame] else [],
                  Finished(next, actions[1..], t));
    }
  }

  lemma StepSends(st: State, a: Action)
    requires Inv(st) && Enabled(st, a)
    ensures Sent(Apply(st, a)) == Sent(st) + if a.Finish? then [st.holders[a.w].frame] else []
  {
    if IsWriterStep(a) {
      WriterStepSends(st, a);
    } else {
      ReaderStepSends(st, a);
    }
  }

  /** A frame is complete whose writer was told so; one more may be complete whose writer still
      holds the token. */
  predicate AllButHeld(complete: seq<Frame>, told: seq<Frame>, token: bool)
  {
    complete == told || (!token && told <= complete && |complete| == |told| + 1)
  }

  lemma CompleteIsSent(t: State)
    requires LegalHistory(t)
    ensures AllButHeld(Complete(t), Sent(t), t.token)
  {
  }

  lemma RunSent(client: bool, actions: seq<Action>, t: State)
    requires Leads(Initial(client), actions, t)
    ensures Sent(t) == Finished(Initial(client), actions, t)
  {
    InitialInv(client);
    RunSends(Initial(client), actions, t);
    NothingBefore(Finished(Initial(client), actions, t));
  }

  lemma NothingBefore(fs: seq<Frame>)
    ensures [] + fs == fs
  {
  }

  /** The frames completely on the wire are those whose writers were told so, and at most one more. */
  lemma WrittenFrames(client: bool, actions: seq<Action>, t: State)
    requires Leads(Initial(client), actions, t)
    ensures AllButHeld(Complete(t), Finished(Initial(client), actions, t), t.token)
  {
    Reachable(client, actions, t);
    CompleteIsSent(t);
    RunSent(client, actions, t);
  }

  lemma {:induction false} DataBytesConcat(fs: seq<Frame>, gs: seq<Frame>, id: uint32)
    ensures DataBytes(fs + gs, id) == DataBytes(fs, id) + DataBytes(gs, id)
  {
    if fs == [] {
      assert fs + gs == gs;
    } else {
      assert (fs + gs)[1..] == fs[1..] + gs;
      DataBytesConcat(fs[1..], gs, id);
    }
  }

  lemma Accounted(t: State, id: uint32)
    requires WireConsumed(t) && NothingLost(t) && id in t.streams
    ensures !t.reader.Stopped? ==>
              Received(t, id) + DataBytes(Complete(t)[t.consumed..], id) == DataBytes(Complete(t), id)
    ensures t.streams[id].returned <= DataBytes(Complete(t), id)
  {
    var all := Complete(t);
    assert all == all[..t.consumed] + all[t.consumed..];
    DataBytesConcat(all[..t.consumed], all[t.consumed..], id);
    assert all[..t.consumed] == t.started[..t.consumed];
    assert t.streams[id].returned <= Received(t, id);
  }

  predicate WireConsumed(t: State)
  {
    t.consumed <= |Complete(t)| <= |t.started|
  }

  /** For every stream still open at the reading side: what Read returned, what waits in the
      stream, what the reader loop holds and what its data frames still carry on the wire is, in
      order, what the writing side put on the wire for it. */
  lemma Conservation(client: bool, actions: seq<Action>, t: State, id: uint32)
    requires Leads(Initial(client), actions, t) && id in t.streams
    ensures t.consumed <= |Complete(t)|
    ensures !t.reader.Stopped? ==>
              Received(t, id) + DataBytes(Complete(t)[t.consumed..], id) == DataBytes(Complete(t), id)
    ensures t.streams[id].returned <= DataBytes(Complete(t), id)
  {
    Reachable(client, actions, t);
    Accounted(t, id);
  }

  /** Once every write has returned and every frame is consumed, the reader of an open stream has,
      or can still take from it, exactly what was written successfully. */
  lemma DeliveredWhenQuiet(client: bool, actions: seq<Action>, t: State, id: uint32)
    requires Leads(Initial(client), actions, t) && id in t.streams
    requires t.token && t.reader.AtHeader? && |t.unread| < FRAME_HEADER_SIZE && !t.broken
    ensures t.unread == []
    ensures t.streams[id].returned + t.streams[id].current + Joined(t.streams[id].queue)
         == DataBytes(Finished(Initial(client), actions, t), id)
  {
    WireIntegrity(client, actions, t);
    WrittenFrames(client, actions, t);
    Conservation(client, actions, t, id);
    Reachable(client, actions, t);
    assert Complete(t)[t.consumed..] == [];
  }
}
