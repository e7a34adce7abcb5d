/** Who is let into the reassembler, how long a packet may take, and how full the table gets, over
    runs of fragments and cleaner's ticks (internal/udp/reassembly.go). */
module Admission {
  import opened Words
  import opened UDPFrame
  import opened Fragmentation
  import opened ReassemblyTable
  import opened RoundTrip

  function Run(t: Table, es: seq<Event>): (t': Table)
    requires GoodTable(t)
    ensures GoodTable(t') && t'.closed == t.closed
    decreases |es|
  {
    if es == [] then t
    else
      StepKeepsGood(t, es[0]);
      Run(Step(t, es[0]).0, es[1..])
  }

  // ---------------------------------------------------------------- how long a packet stays

  predicate ForKey(e: Event, key: Key)
  {
    e.Arrive? && KeyOf(e.h) == key
  }

  lemma OthersLeaveIt(t: Table, e: Event, key: Key)
    requires Shaped(t) && !ForKey(e, key)
    ensures key in Step(t, e).0.pending <==>
              key in t.pending && (e.Tick? ==> t.pending[key].createdAt >= e.deadline)
    ensures key in Step(t, e).0.pending ==> Step(t, e).0.pending[key] == t.pending[key]
  {
  }

  /** Left alone, a packet stays exactly until a tick whose deadline is after its first fragment. */
  lemma {:induction false} StaysExactly(t: Table, es: seq<Event>, key: Key)
    requires GoodTable(t) && forall e :: e in es ==> !ForKey(e, key)
    ensures key in Run(t, es).pending <==>
              key in t.pending && forall e :: e in es && e.Tick? ==> e.deadline <= t.pending[key].createdAt
    ensures key in Run(t, es).pending ==> Run(t, es).pending[key] == t.pending[key]
    decreases |es|
  {
    if es != [] {
      assert es[0] in es;
      StepKeepsGood(t, es[0]);
      OthersLeaveIt(t, es[0], key);
      StaysExactly(Step(t, es[0]).0, es[1..], key);
      assert forall e :: e in es <==> e == es[0] || e in es[1..];
    }
  }

  /** A packet begun at a time is still pending, whatever else arrives, exactly if no tick since had
      a later deadline. */
  lemma SurvivesExactly(t: Table, h: Header, payload: bytes, began: int, es: seq<Event>)
    requires GoodTable(t) && !t.closed && ValidFragment(h) && h.fragmentCount != 1 && |payload| <= 65535
    requires KeyOf(h) !in t.pending && RoomFor(t, KeyOf(h)) && forall e :: e in es ==> !ForKey(e, KeyOf(h))
    ensures var t' := Run(t, [Arrive(h, payload, began)] + es);
            && (KeyOf(h) in t'.pending <==> forall e :: e in es && e.Tick? ==> e.deadline <= began)
            && (KeyOf(h) in t'.pending ==> BegunWith(t'.pending[KeyOf(h)], h, payload, began))
  {
    var first := Arrive(h, payload, began);
    StepKeepsGood(t, first);
    FirstFragmentBegins(t, h, payload, began);
    assert ([first] + es)[1..] == es;
    StaysExactly(Step(t, first).0, es, KeyOf(h));
  }

  // ---------------------------------------------------------------- the round trip by the clock

  /** The packet is under way since that time. */
  ghost predicate Since(t: Table, s: Sent, got: set<nat>, began: int)
    requires Sendable(s)
  {
    && Underway(t, s, got) && SentKey(s) in t.pending
    && t.pending[SentKey(s)].createdAt == began
  }

  /** All that arrives under the packet's key are its pieces, and no tick has a later deadline. */
  predicate InTime(s: Sent, began: int, es: seq<Event>)
    requires Sendable(s)
  {
    forall e :: e in es ==> (IsFor(s, e) ==> Genuine(s, e)) && (e.Tick? ==> e.deadline <= began)
  }

  lemma InTimeRest(s: Sent, began: int, es: seq<Event>)
    requires Sendable(s) && es != [] && InTime(s, began, es)
    ensures InTime(s, began, [es[0]]) && InTime(s, began, es[1..])
    ensures IsFor(s, es[0]) ==> Genuine(s, es[0])
    ensures es[0].Tick? ==> es[0].deadline <= began
  {
    assert es[0] in es;
    assert forall e :: e in es[1..] ==> e in es;
  }

  lemma StepInTime(t: Table, s: Sent, got: set<nat>, began: int, e: Event)
    requires GoodTable(t) && !t.closed && Sendable(s) && Since(t, s, got, began) && InTime(s, began, [e])
    requires !HasAll(GotAfter(s, got, e), Total(s))
    ensures Since(Step(t, e).0, s, GotAfter(s, got, e), began)
  {
    assert e in [e];
    if IsFor(s, e) {
      var r := FeedPiece(t, s, got, e.h.fragmentID, e.now);
      assert e.h.fragmentID as nat in GotAfter(s, got, e);
      BeginningStays(t, e.h, e.payload, e.now, SentKey(s));
    } else {
      OtherTrafficLeavesPacket(t, s, got, e);
      OthersLeaveIt(t, e, SentKey(s));
    }
  }

  /** If the pieces are not complete before the last event, they are not after the first. */
  lemma MoreToCome(s: Sent, got: set<nat>, es: seq<Event>)
    requires Sendable(s) && |es| > 1 && (IsFor(s, es[0]) ==> Genuine(s, es[0]))
    requires !HasAll(got + IdsOf(s, es[..|es| - 1]), Total(s))
    ensures !HasAll(GotAfter(s, got, es[0]), Total(s))
    ensures !HasAll(GotAfter(s, got, es[0]) + IdsOf(s, es[1..][..|es| - 2]), Total(s))
  {
    IdsOfCons(s, got, es[..|es| - 1]);
    WithoutEnds(es);
  }

  lemma ThenUndisturbed(t: Table, s: Sent, got: set<nat>, began: int, es: seq<Event>)
    requires GoodTable(t) && Sendable(s) && Since(t, s, got, began) && es != []
    requires (IsFor(s, es[0]) ==> Genuine(s, es[0])) && (es[0].Tick? ==> es[0].deadline <= began)
    requires GoodTable(Step(t, es[0]).0) && Undisturbed(Step(t, es[0]).0, s, es[1..])
    ensures Undisturbed(t, s, es)
  {
  }

  lemma {:induction false} InTimeIsUndisturbed(t: Table, s: Sent, got: set<nat>, began: int, es: seq<Event>)
    requires GoodTable(t) && !t.closed && Sendable(s) && Since(t, s, got, began) && InTime(s, began, es)
    requires es != [] ==> !HasAll(got + IdsOf(s, es[..|es| - 1]), Total(s))
    ensures Undisturbed(t, s, es)
    decreases |es|
  {
    if es != [] {
      InTimeRest(s, began, es);
      StepKeepsGood(t, es[0]);
      if |es| > 1 {
        MoreToCome(s, got, es);
        StepInTime(t, s, got, began, es[0]);
        InTimeIsUndisturbed(Step(t, es[0]).0, s, GotAfter(s, got, es[0]), began, es[1..]);
      } else {
        assert Undisturbed(Step(t, es[0]).0, s, []);
      }
      ThenUndisturbed(t, s, got, began, es);
    }
  }

  lemma FirstPieceSince(t: Table, s: Sent, e: Event)
    requires GoodTable(t) && !t.closed && Sendable(s) && Total(s) > 1 && IsFor(s, e) && Genuine(s, e)
    requires SentKey(s) !in t.pending && RoomFor(t, SentKey(s))
    ensures Since(Step(t, e).0, s, {e.h.fragmentID as nat}, e.now)
  {
    var id: nat := e.h.fragmentID;
    assert !HasAll({} + {id}, Total(s)) by {
      assert (if id == 0 then 1 else 0) !in {} + {id};
    }
    var r := FeedPiece(t, s, {}, id, e.now);
    assert {} + {id} == {id};
    FirstFragmentBegins(t, e.h, e.payload, e.now);
  }

  /** After the first of several pieces the packet is not complete. */
  lemma FirstOfSeveral(s: Sent, es: seq<Event>)
    requires Sendable(s) && |es| > 1 && IsFor(s, es[0]) && Genuine(s, es[0])
    requires !HasAll(IdsOf(s, es[..|es| - 1]), Total(s))
    ensures Total(s) > 1 && !HasAll({es[0].h.fragmentID as nat} + IdsOf(s, es[1..][..|es| - 2]), Total(s))
  {
    IdsOfCons(s, {}, es[..|es| - 1]);
    WithoutEnds(es);
    assert {} + IdsOf(s, es[..|es| - 1]) == IdsOf(s, es[..|es| - 1]);
    assert GotAfter(s, {}, es[0]) == {es[0].h.fragmentID as nat};
  }

  lemma InTimeFromTheStart(t: Table, s: Sent, es: seq<Event>)
    requires GoodTable(t) && !t.closed && Sendable(s) && es != [] && IsFor(s, es[0]) && InTime(s, es[0].now, es)
    requires SentKey(s) !in t.pending && RoomFor(t, SentKey(s))
    requires !HasAll(IdsOf(s, es[..|es| - 1]), Total(s))
    ensures Undisturbed(t, s, es)
  {
    InTimeRest(s, es[0].now, es);
    StepKeepsGood(t, es[0]);
    if |es| == 1 {
      assert Undisturbed(Step(t, es[0]).0, s, es[1..]);
    } else {
      FirstOfSeveral(s, es);
      FirstPieceSince(t, s, es[0]);
      InTimeIsUndisturbed(Step(t, es[0]).0, s, {es[0].h.fragmentID as nat}, es[0].now, es[1..]);
    }
  }

  /** The round trip, in terms of what the network and the clock do. The first piece of a packet
      arrives while there is room for it; pieces follow in any order and any number, with any
      traffic of other packets in between, before a tick has a deadline after that first piece. Then
      nothing comes out for the packet until all pieces are there, and then exactly the packet. */
  lemma RoundTripInTime(t: Table, s: Sent, es: seq<Event>)
    requires GoodTable(t) && !t.closed && Sendable(s) && es != [] && IsFor(s, es[0]) && InTime(s, es[0].now, es)
    requires SentKey(s) !in t.pending && |t.pending| < 1024 && |KeysOf(t.pending.Keys, s.sessionID)| < 32
    requires HasAll(IdsOf(s, es), Total(s)) && !HasAll(IdsOf(s, es[..|es| - 1]), Total(s))
    ensures Outcomes(t, es)[|es| - 1] == Assembled(s.packet)
    ensures forall j :: 0 <= j < |es| - 1 && IsFor(s, es[j]) ==> Outcomes(t, es)[j] == NeedMore
  {
    InTimeFromTheStart(t, s, es);
    FromNothing(IdsOf(s, es));
    FromNothing(IdsOf(s, es[..|es| - 1]));
    RoundTrip.RoundTrip(t, s, {}, es);
  }

  lemma FromNothing(ids: set<nat>)
    ensures {} + ids == ids
  {
  }

  // ---------------------------------------------------------------- how full the table gets

  /** 32 packets of each session, one session after the other. */
  function KeyNo(i: nat): Key
    requires i < 1024
  {
    Key(i / 32, i % 32)
  }

  function FirstKeys(k: nat): (keys: set<Key>)
    requires k <= 1024
    ensures forall key :: key in keys <==> key.packetID < 32 && 32 * key.sessionID + key.packetID < k
  {
    if k == 0 then {} else FirstKeys(k - 1) + {KeyNo(k - 1)}
  }

  /** How many of the first k packets are of a session. */
  function OfSession(k: nat, s: uint32): nat
  {
    if k <= 32 * s then 0 else if k >= 32 * s + 32 then 32 else k - 32 * s
  }

  lemma {:induction false} FirstKeysCount(k: nat, s: uint32)
    requires k <= 1024
    ensures |FirstKeys(k)| == k && |KeysOf(FirstKeys(k), s)| == OfSession(k, s)
  {
    if k == 0 {
      assert KeysOf(FirstKeys(0), s) == {};
    } else {
      FirstKeysCount(k - 1, s);
      KeysOfAdd(FirstKeys(k - 1), KeyNo(k - 1), s);
    }
  }

  lemma {:induction false} RunThenStep(t: Table, es: seq<Event>, e: Event)
    requires GoodTable(t)
    ensures Run(t, es + [e]) == Step(Run(t, es), e).0
    decreases |es|
  {
    if es == [] {
      StepKeepsGood(t, e);
      assert ([] + [e])[1..] == [] && Run(Step(t, e).0, []) == Step(t, e).0;
      assert [] + [e] == [e];
    } else {
      StepKeepsGood(t, es[0]);
      assert (es + [e])[1..] == es[1..] + [e];
      RunThenStep(Step(t, es[0]).0, es[1..], e);
    }
  }

  /** The first of two fragments of the i-th packet. */
  function FirstHalf(i: nat): Event
    requires i < 1024
  {
    Arrive(Header(KeyNo(i).sessionID, KeyNo(i).packetID, 0, 2), [], 0)
  }

  /** Both limits are attained: from the empty table up to 1024 packets become pending, 32 of each
      session. */
  lemma {:induction false} TableFills(k: nat) returns (es: seq<Event>)
    requires k <= 1024
    ensures GoodTable(EMPTY_TABLE) && |es| == k
    ensures Run(EMPTY_TABLE, es).pending.Keys == FirstKeys(k) && |Run(EMPTY_TABLE, es).pending| == k
    ensures forall s: uint32 :: |KeysOf(Run(EMPTY_TABLE, es).pending.Keys, s)| == OfSession(k, s)
  {
    ShutdownKeepsGood(EMPTY_TABLE);
    if k == 0 {
      es := [];
    } else {
      var before := TableFills(k - 1);
      es := before + [FirstHalf(k - 1)];
      RunThenStep(EMPTY_TABLE, before, FirstHalf(k - 1));
      OneMoreFits(Run(EMPTY_TABLE, before), k - 1);
    }
    forall s: uint32
      ensures |KeysOf(Run(EMPTY_TABLE, es).pending.Keys, s)| == OfSession(k, s)
    {
      FirstKeysCount(k, s);
    }
    FirstKeysCount(k, 0);
    assert |Run(EMPTY_TABLE, es).pending| == |Run(EMPTY_TABLE, es).pending.Keys|;
  }

  lemma OneMoreFits(t: Table, i: nat)
    requires i < 1024 && GoodTable(t) && !t.closed && t.pending.Keys == FirstKeys(i)
    ensures Step(t, FirstHalf(i)).0.pending.Keys == FirstKeys(i + 1)
  {
    FirstKeysCount(i, KeyNo(i).sessionID);
    assert |t.pending| == |t.pending.Keys|;
    FirstFragmentBegins(t, FirstHalf(i).h, [], 0);
  }
}
