/** Peers and signaling sessions of the coordinator: internal/signaling/server.go. A control
    writer is known by a number. */
module Signaling {
  import opened Words

  const MAX_CANDIDATES: nat := 16
  const MAX_ACTIVE_SESSIONS: nat := 2048
  const MAX_SESSIONS_PER_PEER: nat := 64

  // ---------------------------------------------------------------- candidates

  datatype Candidate = Candidate(kind: string, protocol: string, address: string)

  /** Parsing an address: its canonical text, if it is a unicast address with a port. */
  type AddressParser = string -> Option<string>

  predicate Acceptable(parse: AddressParser, c: Candidate)
  {
    && (c.protocol == "udp" || c.protocol == "tcp")
    && (c.kind == "lan" || c.kind == "reflexive")
    && parse(c.address).Some?
  }

  function Canonical(parse: AddressParser, c: Candidate): Candidate
    requires Acceptable(parse, c)
  {
    c.(address := parse(c.address).value)
  }

  predicate SamePlace(c: Candidate, d: Candidate)
  {
    c.protocol == d.protocol && c.address == d.address
  }

  /** No two candidates are the same place. */
  predicate Distinct(cs: seq<Candidate>)
  {
    forall i, j :: 0 <= i < j < |cs| ==> !SamePlace(cs[i], cs[j])
  }

  predicate Listed(cs: seq<Candidate>, c: Candidate)
  {
    exists i :: 0 <= i < |cs| && SamePlace(cs[i], c)
  }

  predicate AllAcceptable(parse: AddressParser, cs: seq<Candidate>)
  {
    forall i :: 0 <= i < |cs| ==> Acceptable(parse, cs[i])
  }

  /** Each place once, in canonical form, where it comes first. */
  function Deduplicated(parse: AddressParser, cs: seq<Candidate>): seq<Candidate>
    requires AllAcceptable(parse, cs)
  {
    if cs == [] then []
    else
      var before, c := Deduplicated(parse, cs[..|cs| - 1]), Canonical(parse, cs[|cs| - 1]);
      if Listed(before, c) then before else before + [c]
  }

  predicate FromInput(parse: AddressParser, cs: seq<Candidate>, d: Candidate)
    requires AllAcceptable(parse, cs)
  {
    exists i :: 0 <= i < |cs| && d == Canonical(parse, cs[i])
  }

  lemma {:induction false} DeduplicatedIsDistinct(parse: AddressParser, cs: seq<Candidate>)
    requires AllAcceptable(parse, cs)
    ensures Distinct(Deduplicated(parse, cs))
  {
    if cs != [] {
      DeduplicatedIsDistinct(parse, cs[..|cs| - 1]);
    }
  }

  /** Nothing is left out and nothing made up. */
  lemma {:induction false} DeduplicatedIsComplete(parse: AddressParser, cs: seq<Candidate>, i: nat)
    requires AllAcceptable(parse, cs) && i < |cs|
    ensures Listed(Deduplicated(parse, cs), Canonical(parse, cs[i]))
  {
    var n := |cs| - 1;
    var before, c := Deduplicated(parse, cs[..n]), Canonical(parse, cs[n]);
    if i < n {
      DeduplicatedIsComplete(parse, cs[..n], i);
      var k :| 0 <= k < |before| && SamePlace(before[k], Canonical(parse, cs[i]));
      assert SamePlace(Deduplicated(parse, cs)[k], Canonical(parse, cs[i]));
    } else if !Listed(before, c) {
      assert SamePlace((before + [c])[|before|], c);
    }
  }

  lemma {:induction false} DeduplicatedIsFromInput(parse: AddressParser, cs: seq<Candidate>, j: nat)
    requires AllAcceptable(parse, cs) && j < |Deduplicated(parse, cs)|
    ensures FromInput(parse, cs, Deduplicated(parse, cs)[j])
  {
    var n := |cs| - 1;
    var before, d := Deduplicated(parse, cs[..n]), Deduplicated(parse, cs)[j];
    if j < |before| {
      DeduplicatedIsFromInput(parse, cs[..n], j);
      var i :| 0 <= i < n && d == Canonical(parse, cs[..n][i]);
      assert d == Canonical(parse, cs[i]);
    } else {
      assert d == Canonical(parse, cs[n]);
    }
  }

  function Places(cs: seq<Candidate>): set<(string, string)>
  {
    set i | 0 <= i < |cs| :: (cs[i].protocol, cs[i].address)
  }

  lemma PlacesAreListed(cs: seq<Candidate>, c: Candidate)
    ensures (c.protocol, c.address) in Places(cs) <==> Listed(cs, c)
    ensures Places(cs + [c]) == Places(cs) + {(c.protocol, c.address)}
  {
    var more := cs + [c];
    forall i | 0 <= i < |more|
      ensures more[i] == if i < |cs| then cs[i] else c
    {
    }
    assert more[|cs|] == c;
    forall place | place in Places(cs)
      ensures place in Places(more)
    {
      var i :| 0 <= i < |cs| && place == (cs[i].protocol, cs[i].address);
      assert more[i] == cs[i];
    }
  }

  /** Refuses a list that is too long or holds a bad candidate. */
  method ValidateCandidates(parse: AddressParser, candidates: seq<Candidate>) returns (result: Option<seq<Candidate>>)
    ensures result.Some? <==> |candidates| <= MAX_CANDIDATES && AllAcceptable(parse, candidates)
    ensures result.Some? ==> result.value == Deduplicated(parse, candidates)
  {
    if |candidates| > MAX_CANDIDATES {
      return None;
    }
    var validated: seq<Candidate>, seen: set<(string, string)> := [], {};
    for n := 0 to |candidates|
      invariant AllAcceptable(parse, candidates[..n])
      invariant validated == Deduplicated(parse, candidates[..n]) && seen == Places(validated)
    {
      if !Acceptable(parse, candidates[n]) {
        return None;
      }
      assert candidates[..n + 1][..n] == candidates[..n];
      var c := Canonical(parse, candidates[n]);
      PlacesAreListed(validated, c);
      if (c.protocol, c.address) !in seen {
        seen := seen + {(c.protocol, c.address)};
        validated := validated + [c];
      }
    }
    assert candidates[..|candidates|] == candidates;
    return Some(validated);
  }

  // ---------------------------------------------------------------- sessions

  datatype Active = Active(controllerID: string, targetID: string, controllerWriter: nat, targetWriter: nat)

  type Table = map<uint32, Active>

  predicate Involves(a: Active, device: string)
  {
    a.controllerID == device || a.targetID == device
  }

  function Involved(t: Table, device: string): set<uint32>
  {
    set id | id in t && Involves(t[id], device)
  }

  function InsertStep(t: Table, id: uint32, a: Active): (Table, bool)
  {
    if LimitReached(t, a.controllerID, a.targetID) then (t, false) else (t[id := a], true)
  }

  predicate CarriedBy(a: Active, device: string, writer: nat)
  {
    a.targetID == device && a.targetWriter == writer
  }

  function UnregisterStep(t: Table, device: string, writer: nat): Table
  {
    map id | id in t && !CarriedBy(t[id], device, writer) :: t[id]
  }

  /** A session ends for anyone who names no controller, or the right one. */
  function CloseStep(t: Table, id: uint32, controllerID: string): Table
  {
    if id in t && (controllerID == "" || t[id].controllerID == controllerID) then t - {id} else t
  }

  // ---------------------------------------------------------------- session numbers

  /** The number with the high bit set. */
  function Marked(counter: uint32): (id: uint32)
    ensures TWO_31 <= id
  {
    counter % TWO_31 + TWO_31
  }

  /** The number of the n-th session after the counter stood at `start`. */
  function SessionID(start: uint32, n: nat): uint32
  {
    Marked(Wrap32(start + n))
  }

  /** Two sessions get the same number exactly when a multiple of 2^31 others came between them, so
      any 2^31 in a row are distinct. */
  lemma NumbersRepeatExactly(start: uint32, i: nat, j: nat)
    requires i <= j
    ensures SessionID(start, i) == SessionID(start, j) <==> (j - i) % TWO_31 == 0
  {
    WrapThenMark(start + i);
    WrapThenMark(start + j);
    SameRemainder(start + i, start + j);
  }

  lemma WrapThenMark(x: nat)
    ensures Wrap32(x) % TWO_31 == x % TWO_31
  {
    var q, y := x / 0x1_0000_0000, x % 0x1_0000_0000;
    assert x == 0x1_0000_0000 * q + y;
    assert y == 0x8000_0000 * (y / 0x8000_0000) + y % 0x8000_0000;
    RemainderIs(x, 2 * q + y / 0x8000_0000, y % 0x8000_0000);
  }

  lemma RemainderIs(x: nat, q: nat, r: nat)
    requires x == 0x8000_0000 * q + r && r < 0x8000_0000
    ensures x % TWO_31 == r
  {
  }

  lemma SameRemainder(x: nat, y: nat)
    requires x <= y
    ensures x % TWO_31 == y % TWO_31 <==> (y - x) % TWO_31 == 0
  {
    assert x == TWO_31 * (x / TWO_31) + x % TWO_31;
    assert y == TWO_31 * (y / TWO_31) + y % TWO_31;
  }

  // ---------------------------------------------------------------- the coordinator

  datatype Peer = Peer(writer: nat, candidates: seq<Candidate>, publicPort: uint16)

  datatype Reply =
    | MissingTarget
    | Refused(code: nat)
    | RandomFailed
    | NotifyFailed
    | Connected(sessionID: uint32, candidates: seq<Candidate>, publicPort: uint16)

  datatype Environment = Environment(valid: bool, authorized: bool, drawn: bool, reached: bool)

  predicate NumberDrawn(peers: map<string, Peer>, targetID: string, env: Environment)
  {
    targetID != "" && env.valid && env.authorized && targetID in peers
  }

  predicate LimitReached(t: Table, controllerID: string, targetID: string)
  {
    || |t| >= MAX_ACTIVE_SESSIONS
    || |Involved(t, controllerID)| >= MAX_SESSIONS_PER_PEER
    || |Involved(t, targetID)| >= MAX_SESSIONS_PER_PEER
  }

  /** What a request is answered, by the first thing that stands in its way. */
  function ReplyTo(
    t: Table, peers: map<string, Peer>, counter: uint32, controllerID: string, targetID: string, env: Environment):
    Reply
  {
    if targetID == "" then MissingTarget
    else if !env.valid then Refused(400)
    else if !env.authorized then Refused(403)
    else if targetID !in peers then Refused(404)
    else if !env.drawn then RandomFailed
    else if LimitReached(t, controllerID, targetID) then Refused(429)
    else if !env.reached then NotifyFailed
    else Connected(SessionID(counter, 1), peers[targetID].candidates, peers[targetID].publicPort)
  }

  class Coordinator {
    var peers: map<string, Peer>
    var sessions: Table
    var nextSessionID: uint32

    constructor (clock: nat)
      ensures peers == map[] && sessions == map[]
    {
      peers, sessions, nextSessionID := map[], map[], clock % TWO_31;
    }

    method RegisterPeer(
      parse: AddressParser, device: string, writer: nat, candidates: seq<Candidate>, publicPort: uint16)
      modifies this`peers
      ensures device in peers && peers[device].writer == writer && peers[device].publicPort == publicPort
      ensures peers[device].candidates ==
              if |candidates| <= MAX_CANDIDATES && AllAcceptable(parse, candidates)
              then Deduplicated(parse, candidates) else []
      ensures forall d :: d != device ==>
                (d in peers <==> d in old(peers)) && (d in peers ==> peers[d] == old(peers)[d])
    {
      var valid := ValidateCandidates(parse, candidates);
      peers := peers[device := Peer(writer, if valid.Some? then valid.value else [], publicPort)];
    }

    /** Ends the sessions that this connection of a target carried. */
    method EndCarried(device: string, writer: nat) returns (ended: set<uint32>)
      modifies this`sessions
      ensures sessions == UnregisterStep(old(sessions), device, writer)
      ensures ended == old(sessions).Keys - sessions.Keys
    {
      var ids := sessions.Keys;
      ghost var all := sessions;
      ended := {};
      while ids != {}
        invariant ids <= all.Keys
        invariant forall id :: id in ended <==> id in all && id !in sessions
        invariant forall id :: id in sessions <==> id in all && (id in ids || !CarriedBy(all[id], device, writer))
        invariant forall id :: id in sessions ==> sessions[id] == all[id]
        decreases |ids|
      {
        var id :| id in ids;
        ids := ids - {id};
        if sessions[id].targetID == device && sessions[id].targetWriter == writer {
          sessions, ended := sessions - {id}, ended + {id};
        }
      }
    }

    /** Forgets the peer only if this connection still owns it. */
    method UnregisterPeer(device: string, writer: nat) returns (notified: set<uint32>)
      modifies this`peers, this`sessions
      ensures peers ==
              if device in old(peers) && old(peers)[device].writer == writer then old(peers) - {device} else old(peers)
      ensures sessions == UnregisterStep(old(sessions), device, writer)
      ensures notified == old(sessions).Keys - sessions.Keys
    {
      if device in peers && peers[device].writer == writer {
        peers := peers - {device};
      }
      notified := EndCarried(device, writer);
    }

    method SessionCountLocked(device: string) returns (count: nat)
      ensures count == |Involved(sessions, device)|
    {
      var ids := sessions.Keys;
      ghost var counted: set<uint32> := {};
      count := 0;
      while ids != {}
        invariant ids <= sessions.Keys
        invariant counted == set id | id in sessions && id !in ids && Involves(sessions[id], device)
        invariant count == |counted|
        decreases |ids|
      {
        var id :| id in ids;
        ids := ids - {id};
        if sessions[id].controllerID == device || sessions[id].targetID == device {
          count, counted := count + 1, counted + {id};
        }
      }
      assert counted == Involved(sessions, device);
    }

    method CloseSession(id: uint32, controllerID: string)
      modifies this`sessions
      ensures sessions == CloseStep(old(sessions), id, controllerID)
    {
      if id in sessions && (controllerID == "" || sessions[id].controllerID == controllerID) {
        sessions := sessions - {id};
      }
    }

    /** Tries to add a session under a number, which may be in use after the counter wrapped. */
    method AddSession(id: uint32, a: Active) returns (ok: bool)
      modifies this`sessions
      ensures (sessions, ok) == InsertStep(old(sessions), id, a)
    {
      var byController := SessionCountLocked(a.controllerID);
      var byTarget := SessionCountLocked(a.targetID);
      if |sessions| >= MAX_ACTIVE_SESSIONS
         || byController >= MAX_SESSIONS_PER_PEER || byTarget >= MAX_SESSIONS_PER_PEER {
        return false;
      }
      sessions := sessions[id := a];
      return true;
    }

    /** What the environment decides: whether the candidates are valid, the connection allowed, the
        token drawn and the target reached. A number is used up only once the target is known. */
    method HandleConnectRequest(controllerID: string, controllerWriter: nat, targetID: string, env: Environment)
      returns (reply: Reply)
      modifies this`sessions, this`nextSessionID
      ensures reply == ReplyTo(old(sessions), peers, old(nextSessionID), controllerID, targetID, env)
      ensures reply.Connected? <==>
              && targetID != "" && env.valid && env.authorized && targetID in peers && env.drawn && env.reached
              && |old(sessions)| < 2048
              && |Involved(old(sessions), controllerID)| < 64 && |Involved(old(sessions), targetID)| < 64
      ensures reply.NotifyFailed? || reply.Connected? <==>
              && targetID != "" && env.valid && env.authorized && targetID in peers && env.drawn
              && |old(sessions)| < 2048
              && |Involved(old(sessions), controllerID)| < 64 && |Involved(old(sessions), targetID)| < 64
      ensures nextSessionID ==
              if NumberDrawn(peers, targetID, env) then Wrap32(old(nextSessionID) + 1) else old(nextSessionID)
      ensures reply.Connected? ==>
                sessions == old(sessions)[
                  reply.sessionID := Active(controllerID, targetID, controllerWriter, peers[targetID].writer)]
      ensures reply.NotifyFailed? ==> sessions == old(sessions) - {SessionID(old(nextSessionID), 1)}
      ensures !reply.Connected? && !reply.NotifyFailed? ==> sessions == old(sessions)
    {
      if targetID == "" {
        return MissingTarget;
      }
      if !env.valid {
        return Refused(400);
      }
      if !env.authorized {
        return Refused(403);
      }
      if targetID !in peers {
        return Refused(404);
      }
      var target := peers[targetID];
      nextSessionID := Wrap32(nextSessionID + 1);
      var id := Marked(nextSessionID);
      if !env.drawn {
        return RandomFailed;
      }
      var ok := AddSession(id, Active(controllerID, targetID, controllerWriter, target.writer));
      if !ok {
        return Refused(429);
      }
      if !env.reached {
        CloseSession(id, controllerID);
        return NotifyFailed;
      }
      return Connected(id, target.candidates, target.publicPort);
    }
  }

  // ---------------------------------------------------------------- the caps, in every interleaving

  /** The critical sections on the session table. Requests that run at the same time interleave
      between them, and the number of an insertion may be any, even one in use. */
  datatype Event =
    | Insert(id: uint32, session: Active)
    | Unregister(device: string, writer: nat)
    | Close(id: uint32, controllerID: string)

  function Next(t: Table, e: Event): Table
  {
    match e
    case Insert(id, a) => InsertStep(t, id, a).0
    case Unregister(device, writer) => UnregisterStep(t, device, writer)
    case Close(id, controllerID) => CloseStep(t, id, controllerID)
  }

  function Run(t: Table, events: seq<Event>): Table
    decreases |events|
  {
    if events == [] then t else Run(Next(t, events[0]), events[1..])
  }

  ghost predicate Capped(t: Table)
  {
    |t| <= MAX_ACTIVE_SESSIONS && forall device :: |Involved(t, device)| <= MAX_SESSIONS_PER_PEER
  }

  lemma InsertCounts(t: Table, id: uint32, a: Active, device: string)
    ensures |t[id := a]| <= |t| + 1
    ensures |Involved(t[id := a], device)| <= |Involved(t, device)| + if Involves(a, device) then 1 else 0
  {
    assert t[id := a].Keys == t.Keys + {id};
    assert |t[id := a]| == |t[id := a].Keys| && |t| == |t.Keys|;
    var more := Involved(t, device) + if Involves(a, device) then {id} else {};
    SubsetSize(Involved(t[id := a], device), more);
  }

  lemma NextKeepsCaps(t: Table, e: Event)
    requires Capped(t)
    ensures Capped(Next(t, e))
  {
    var t' := Next(t, e);
    forall device
      ensures |Involved(t', device)| <= MAX_SESSIONS_PER_PEER
    {
      if e.Insert? {
        InsertCounts(t, e.id, e.session, device);
      } else {
        SubsetSize(Involved(t', device), Involved(t, device));
      }
    }
    if e.Insert? {
      InsertCounts(t, e.id, e.session, "");
    } else {
      SubsetSize(t'.Keys, t.Keys);
      assert |t'| == |t'.Keys| && |t| == |t.Keys|;
    }
  }

  /** There are never more than 2048 sessions, and no device is in more than 64 of them. */
  lemma {:induction false} CapsHold(t: Table, events: seq<Event>)
    requires Capped(t)
    ensures Capped(Run(t, events))
    decreases |events|
  {
    if events != [] {
      NextKeepsCaps(t, events[0]);
      CapsHold(Next(t, events[0]), events[1..]);
    }
  }
}
