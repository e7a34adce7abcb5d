/** Fragmenting a packet and feeding its datagrams to the reassembler gives the packet back,
    whatever the order, the duplicates and the traffic in between. */
module RoundTrip {
  import opened Words
  import opened UDPFrame
  import opened Fragmentation
  import opened ReassemblyTable

  // ---------------------------------------------------------------- a packet under way

  datatype Sent = Sent(sessionID: uint32, packetID: uint32, packet: bytes, max: nat)

  /** What the fragmenter accepts, up to the size the reassembler takes. */
  predicate Sendable(s: Sent)
  {
    s.max > 0 && Fits(|s.packet|, s.max) && |s.packet| <= MAX_PACKET_SIZE
  }

  function Total(s: Sent): nat
    requires Sendable(s)
  {
    PieceCount(|s.packet|, s.max)
  }

  function SentKey(s: Sent): Key
  {
    Key(s.sessionID, s.packetID)
  }

  function HeaderOf(s: Sent, i: nat): Header
    requires Sendable(s) && i < Total(s)
  {
    PieceHeader(s.sessionID, s.packetID, |s.packet|, s.max, i)
  }

  function PieceOf(s: Sent, i: nat): bytes
    requires Sendable(s) && i < Total(s)
  {
    Piece(s.packet, s.max, i)
  }

  predicate HasAll(got: set<nat>, n: nat)
  {
    forall i :: 0 <= i < n ==> i in got
  }

  // ---------------------------------------------------------------- slots that hold pieces

  ghost predicate SlotsHold(slots: seq<Option<bytes>>, s: Sent, got: set<nat>)
    requires Sendable(s) && Total(s) <= |slots|
  {
    forall i :: 0 <= i < Total(s) ==> slots[i] == if i in got then Some(PieceOf(s, i)) else None
  }

  /** Exactly the pieces in `got` have arrived and the packet is not yet complete. */
  ghost predicate Underway(t: Table, s: Sent, got: set<nat>)
    requires Sendable(s)
  {
    if SentKey(s) in t.pending then
      && t.pending[SentKey(s)].fragmentCount == Total(s) <= |t.pending[SentKey(s)].fragments|
      && SlotsHold(t.pending[SentKey(s)].fragments, s, got)
    else got == {}
  }

  lemma {:induction false} HeldAtMost(slots: seq<Option<bytes>>, s: Sent, got: set<nat>, k: nat)
    requires Sendable(s) && k <= Total(s) <= |slots| && SlotsHold(slots, s, got)
    ensures Held(slots, k) <= |Joined(Pieces(s.packet, s.max)[..k])|
  {
    if k > 0 {
      var ps := Pieces(s.packet, s.max);
      HeldAtMost(slots, s, got, k - 1);
      assert ps[..k] == ps[..k - 1] + [ps[k - 1]];
      JoinedAppend(ps[..k - 1], ps[k - 1]);
    }
  }

  lemma {:induction false} ContentsWhenFull(slots: seq<Option<bytes>>, s: Sent, got: set<nat>, k: nat)
    requires Sendable(s) && k <= Total(s) <= |slots| && SlotsHold(slots, s, got) && HasAll(got, Total(s))
    ensures Contents(slots, k) == Joined(Pieces(s.packet, s.max)[..k])
  {
    if k > 0 {
      var ps := Pieces(s.packet, s.max);
      ContentsWhenFull(slots, s, got, k - 1);
      assert ps[..k] == ps[..k - 1] + [ps[k - 1]];
      JoinedAppend(ps[..k - 1], ps[k - 1]);
    }
  }

  lemma PacketFromSlots(slots: seq<Option<bytes>>, s: Sent, got: set<nat>)
    requires Sendable(s) && Total(s) <= |slots| && SlotsHold(slots, s, got)
    ensures Held(slots, Total(s)) <= MAX_PACKET_SIZE
    ensures HasAll(got, Total(s)) ==> Contents(slots, Total(s)) == s.packet
  {
    var n, ps := Total(s), Pieces(s.packet, s.max);
    assert ps[..n] == ps;
    PiecesMakeUpPacket(s.packet, s.max);
    HeldAtMost(slots, s, got, n);
    if HasAll(got, n) {
      ContentsWhenFull(slots, s, got, n);
    }
  }

  // ---------------------------------------------------------------- one piece

  /** Nothing comes out until every piece has been seen; the piece that completes the set brings
      out exactly the packet and clears its entry. No other entry is touched. */
  ghost predicate PieceHandled(t: Table, s: Sent, got: set<nat>, i: nat, r: (Table, Outcome))
    requires Sendable(s)
  {
    if HasAll(got + {i}, Total(s)) then r == (Without(t, SentKey(s)), Assembled(s.packet))
    else r.1 == NeedMore && Underway(r.0, s, got + {i}) && r.0.pending - {SentKey(s)} == t.pending - {SentKey(s)}
  }

  lemma StorePiece(t: Table, s: Sent, got: set<nat>, p: Partial, i: nat)
    requires Sendable(s) && i < Total(s)
    requires GoodPartial(p) && p.fragmentCount == Total(s) && SlotsHold(p.fragments, s, got)
    ensures PieceHandled(t, s, got, i, StoreStep(t, SentKey(s), p, i, PieceOf(s, i)))
  {
    var n := Total(s);
    AllFilled(p.fragments, n);
    if i in got {
      assert p.fragments[i].Some?;
      assert got + {i} == got;
    } else {
      var p' := WithFragment(p, i, PieceOf(s, i));
      FilledAfter(p.fragments, i, PieceOf(s, i), n);
      assert SlotsHold(p'.fragments, s, got + {i});
      PacketFromSlots(p'.fragments, s, got + {i});
      AllFilled(p'.fragments, n);
      assert HasAll(got + {i}, n) <==> forall j :: 0 <= j < n ==> p'.fragments[j].Some?;
    }
  }

  lemma OnlyPiece(s: Sent)
    requires Sendable(s) && Total(s) == 1
    ensures PieceOf(s, 0) == s.packet
  {
    PiecesMakeUpPacket(s.packet, s.max);
    var ps := Pieces(s.packet, s.max);
    assert ps == [PieceOf(s, 0)];
    assert Joined(ps) == ps[0] + Joined(ps[1..]);
  }

  lemma FeedOneOfMany(t: Table, s: Sent, got: set<nat>, i: nat, now: int)
    requires GoodTable(t) && !t.closed && Sendable(s) && i < Total(s) && Total(s) != 1
    requires Underway(t, s, got) && RoomFor(t, SentKey(s))
    ensures var p := PartialOf(t, HeaderOf(s, i), now);
            && GoodPartial(p) && p.fragmentCount == Total(s) && SlotsHold(p.fragments, s, got)
            && FeedStep(t, HeaderOf(s, i), PieceOf(s, i), now) == StoreStep(t, SentKey(s), p, i, PieceOf(s, i))
  {
    StartedIsGood(Total(s), now);
  }

  lemma FeedOnlyPiece(t: Table, s: Sent, now: int)
    requires GoodTable(t) && Sendable(s) && Total(s) == 1
    ensures FeedStep(t, HeaderOf(s, 0), PieceOf(s, 0), now) == (t, Assembled(s.packet))
  {
    OnlyPiece(s);
    assert HeaderOf(s, 0).fragmentCount == 1;
  }

  lemma NothingPendingForOnlyPiece(t: Table, s: Sent, got: set<nat>)
    requires GoodTable(t) && Sendable(s) && Total(s) == 1 && Underway(t, s, got)
    ensures got == {} && SentKey(s) !in t.pending
  {
  }

  lemma OnlyPieceHandled(t: Table, s: Sent)
    requires Sendable(s) && Total(s) == 1 && SentKey(s) !in t.pending
    ensures PieceHandled(t, s, {}, 0, (t, Assembled(s.packet)))
  {
    assert HasAll({} + {0}, 1);
    assert t.pending - {SentKey(s)} == t.pending;
  }

  /** A piece of the packet arrives and is handled as it should be. */
  lemma FeedPiece(t: Table, s: Sent, got: set<nat>, i: nat, now: int) returns (r: (Table, Outcome))
    requires GoodTable(t) && !t.closed && Sendable(s) && i < Total(s)
    requires Underway(t, s, got) && RoomFor(t, SentKey(s))
    ensures r == FeedStep(t, HeaderOf(s, i), PieceOf(s, i), now)
    ensures PieceHandled(t, s, got, i, r)
  {
    if Total(s) == 1 {
      FeedOnlyPiece(t, s, now);
      NothingPendingForOnlyPiece(t, s, got);
      OnlyPieceHandled(t, s);
      return (t, Assembled(s.packet));
    } else {
      FeedOneOfMany(t, s, got, i, now);
      var p := PartialOf(t, HeaderOf(s, i), now);
      StorePiece(t, s, got, p, i);
      return StoreStep(t, SentKey(s), p, i, PieceOf(s, i));
    }
  }

  // ---------------------------------------------------------------- whole runs

  datatype Event = Arrive(h: Header, payload: bytes, now: int) | Tick(deadline: int)

  function Step(t: Table, e: Event): (Table, Outcome)
    requires Shaped(t)
  {
    match e
    case Arrive(h, payload, now) => FeedStep(t, h, payload, now)
    case Tick(deadline) => (ExpireStep(t, deadline), NeedMore)
  }

  lemma StepKeepsGood(t: Table, e: Event)
    requires GoodTable(t)
    ensures GoodTable(Step(t, e).0) && Shaped(Step(t, e).0)
    ensures Step(t, e).0.closed == t.closed
  {
    match e
    case Arrive(h, payload, now) => FeedKeepsGood(t, h, payload, now);
    case Tick(deadline) => ExpireKeepsGood(t, deadline);
  }

  /** What each event of a run brings out. */
  function Outcomes(t: Table, es: seq<Event>): (outs: seq<Outcome>)
    requires GoodTable(t)
    ensures |outs| == |es|
    decreases |es|
  {
    if es == [] then []
    else
      StepKeepsGood(t, es[0]);
      [Step(t, es[0]).1] + Outcomes(Step(t, es[0]).0, es[1..])
  }

  predicate IsFor(s: Sent, e: Event)
  {
    e.Arrive? && KeyOf(e.h) == SentKey(s)
  }

  /** The event carries a piece of the packet, as the fragmenter sent it. */
  predicate Genuine(s: Sent, e: Event)
    requires Sendable(s)
  {
    && e.Arrive? && e.h.fragmentID < Total(s)
    && e.h == HeaderOf(s, e.h.fragmentID) && e.payload == PieceOf(s, e.h.fragmentID)
  }

  /** Nothing but pieces of the packet arrives under its key, neither limit keeps them out, and no
      tick has a deadline after its first piece. Everything else may happen in between. */
  ghost predicate Undisturbed(t: Table, s: Sent, es: seq<Event>)
    requires GoodTable(t) && Sendable(s)
    decreases |es|
  {
    es == []
    || (StepKeepsGood(t, es[0]);
        && (IsFor(s, es[0]) ==> Genuine(s, es[0]) && RoomFor(t, SentKey(s)))
        && (es[0].Tick? && SentKey(s) in t.pending ==> t.pending[SentKey(s)].createdAt >= es[0].deadline)
        && Undisturbed(Step(t, es[0]).0, s, es[1..]))
  }

  function IdsOf(s: Sent, es: seq<Event>): set<nat>
  {
    set j | 0 <= j < |es| && IsFor(s, es[j]) :: es[j].h.fragmentID as nat
  }

  lemma OtherTrafficLeavesPacket(t: Table, s: Sent, got: set<nat>, e: Event)
    requires GoodTable(t) && Sendable(s) && Underway(t, s, got) && !IsFor(s, e)
    requires e.Tick? && SentKey(s) in t.pending ==> t.pending[SentKey(s)].createdAt >= e.deadline
    ensures Underway(Step(t, e).0, s, got)
  {
  }

  function GotAfter(s: Sent, got: set<nat>, e: Event): set<nat>
  {
    if IsFor(s, e) then got + {e.h.fragmentID as nat} else got
  }

  lemma FirstStep(t: Table, s: Sent, got: set<nat>, es: seq<Event>)
    requires GoodTable(t) && !t.closed && Sendable(s) && Underway(t, s, got)
    requires es != [] && Undisturbed(t, s, es)
    ensures var got' := GotAfter(s, got, es[0]);
            var (t', out) := Step(t, es[0]);
            if IsFor(s, es[0]) && HasAll(got', Total(s)) then out == Assembled(s.packet)
            else Underway(t', s, got') && (IsFor(s, es[0]) ==> out == NeedMore)
  {
    if IsFor(s, es[0]) {
      var r := FeedPiece(t, s, got, es[0].h.fragmentID, es[0].now);
    } else {
      OtherTrafficLeavesPacket(t, s, got, es[0]);
    }
  }

  /** The round trip. As long as the pieces seen so far do not complete the packet nothing comes
      out for it; the event that completes the set brings out exactly the packet. */
  lemma {:induction false} RoundTrip(t: Table, s: Sent, got: set<nat>, es: seq<Event>)
    requires GoodTable(t) && !t.closed && Sendable(s) && Underway(t, s, got)
    requires es != [] && Undisturbed(t, s, es)
    requires HasAll(got + IdsOf(s, es), Total(s)) && !HasAll(got + IdsOf(s, es[..|es| - 1]), Total(s))
    ensures Outcomes(t, es)[|es| - 1] == Assembled(s.packet)
    ensures forall j :: 0 <= j < |es| - 1 && IsFor(s, es[j]) ==> Outcomes(t, es)[j] == NeedMore
    decreases |es|, 1
  {
    FirstStep(t, s, got, es);
    IdsOfCons(s, got, es);
    if |es| == 1 {
      assert IdsOf(s, es[1..]) == {} && IdsOf(s, es[..0]) == {};
      assert got + IdsOf(s, es[..0]) == got && GotAfter(s, got, es[0]) + IdsOf(s, es[1..]) == GotAfter(s, got, es[0]);
    } else {
      IdsOfCons(s, got, es[..|es| - 1]);
      WithoutEnds(es);
      RoundTripRest(t, s, got, es);
    }
  }

  lemma {:induction false} RoundTripRest(t: Table, s: Sent, got: set<nat>, es: seq<Event>)
    requires GoodTable(t) && !t.closed && Sendable(s)
    requires |es| > 1 && Undisturbed(t, s, es)
    requires var got' := GotAfter(s, got, es[0]);
             && HasAll(got' + IdsOf(s, es[1..]), Total(s))
             && !HasAll(got' + IdsOf(s, es[1..][..|es| - 2]), Total(s))
             && Underway(Step(t, es[0]).0, s, got')
    requires IsFor(s, es[0]) ==> Step(t, es[0]).1 == NeedMore
    ensures Outcomes(t, es)[|es| - 1] == Assembled(s.packet)
    ensures forall j :: 0 <= j < |es| - 1 && IsFor(s, es[j]) ==> Outcomes(t, es)[j] == NeedMore
    decreases |es|, 0
  {
    var t', rest := Step(t, es[0]).0, es[1..];
    StepKeepsGood(t, es[0]);
    assert |es| - 2 == |rest| - 1;
    RoundTrip(t', s, GotAfter(s, got, es[0]), rest);
    NothingUntilTheEnd(t, s, es);
  }

  lemma NothingUntilTheEnd(t: Table, s: Sent, es: seq<Event>)
    requires GoodTable(t) && |es| > 1 && GoodTable(Step(t, es[0]).0)
    requires IsFor(s, es[0]) ==> Step(t, es[0]).1 == NeedMore
    requires var (t', rest) := (Step(t, es[0]).0, es[1..]);
             && Outcomes(t', rest)[|rest| - 1] == Assembled(s.packet)
             && forall j :: 0 <= j < |rest| - 1 && IsFor(s, rest[j]) ==> Outcomes(t', rest)[j] == NeedMore
    ensures Outcomes(t, es)[|es| - 1] == Assembled(s.packet)
    ensures forall j :: 0 <= j < |es| - 1 && IsFor(s, es[j]) ==> Outcomes(t, es)[j] == NeedMore
  {
    OutcomesOfRest(t, es);
    forall j | 0 < j < |es| - 1 && IsFor(s, es[j])
      ensures Outcomes(t, es)[j] == NeedMore
    {
      assert es[1..][j - 1] == es[j];
    }
  }

  lemma WithoutEnds(es: seq<Event>)
    requires |es| > 1
    ensures es[..|es| - 1][1..] == es[1..][..|es| - 2]
  {
  }

  lemma OutcomesOfRest(t: Table, es: seq<Event>)
    requires GoodTable(t) && es != [] && GoodTable(Step(t, es[0]).0)
    ensures Outcomes(t, es)[0] == Step(t, es[0]).1
    ensures forall j :: 0 < j < |es| ==> Outcomes(t, es)[j] == Outcomes(Step(t, es[0]).0, es[1..])[j - 1]
  {
    assert Outcomes(t, es) == [Step(t, es[0]).1] + Outcomes(Step(t, es[0]).0, es[1..]);
  }

  lemma IdsOfCons(s: Sent, got: set<nat>, es: seq<Event>)
    requires es != []
    ensures got + IdsOf(s, es)
         == GotAfter(s, got, es[0]) + IdsOf(s, es[1..])
  {
    forall j | 0 <= j < |es| && IsFor(s, es[j])
      ensures es[j].h.fragmentID as nat
              in (if IsFor(s, es[0]) then {es[0].h.fragmentID as nat} else {}) + IdsOf(s, es[1..])
    {
      if j > 0 {
        assert es[1..][j - 1] == es[j];
      }
    }
    forall j | 0 <= j < |es| - 1 && IsFor(s, es[1..][j])
      ensures es[1..][j].h.fragmentID as nat in IdsOf(s, es)
    {
      assert es[j + 1] == es[1..][j];
    }
  }
}
