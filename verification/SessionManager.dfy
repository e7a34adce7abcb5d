/** UDP sessions by number, by key and counted by address: internal/udp/session.go. */
module SessionManager {
  import opened Words

  // ---------------------------------------------------------------- addresses and keys

  /** An IP address; `Mapped` is an IPv4 address written as IPv6. */
  datatype Addr = NoAddr | V4(bits: uint32) | V6(high: nat, low: nat, zone: string) | Mapped(v4: uint32)

  function Unmap(a: Addr): Addr
  {
    if a.Mapped? then V4(a.v4) else a
  }

  datatype Key = Key(deviceID: string, publicPort: uint16, addr: Addr, port: uint16)

  /** The key of a session that was added by number. */
  const NO_KEY := Key("", 0, NoAddr, 0)

  function IPOf(k: Key): Addr
  {
    Unmap(k.addr)
  }

  /** `serial` tells apart sessions that had the same number at different times. */
  datatype Session = Session(serial: nat, key: Key)

  datatype Limits = Limits(maxSessions: nat, maxPerIP: nat, maxPerSecond: nat)

  const SECOND: int := 1_000_000_000

  /** `created` and `ended` are history: how many sessions there were, and which were closed. */
  datatype Sessions = Sessions(
    byID: map<uint32, Session>,
    byKey: map<Key, uint32>,
    perIP: map<Addr, nat>,
    windowStart: Option<int>,
    windowCount: nat,
    closed: bool,
    created: nat,
    ended: set<nat>)

  const EMPTY: Sessions := Sessions(map[], map[], map[], None, 0, false, 0, {})

  // ---------------------------------------------------------------- the operations

  function CountOf(perIP: map<Addr, nat>, ip: Addr): nat
  {
    if ip in perIP then perIP[ip] else 0
  }

  function Windowed(s: Sessions, now: int): Sessions
  {
    if s.windowStart.None? || now - s.windowStart.value >= SECOND
    then s.(windowStart := Some(now), windowCount := 0) else s
  }

  function AllowCreate(s: Sessions, limits: Limits, now: int): (Sessions, bool)
  {
    var w := Windowed(s, now);
    if w.windowCount >= limits.maxPerSecond then (w, false) else (w.(windowCount := w.windowCount + 1), true)
  }

  /** The number a random draw stands for. */
  function Drawn(draw: uint32): (id: uint32)
    ensures id < TWO_31
  {
    draw % TWO_31
  }

  predicate Usable(s: Sessions, draw: uint32)
  {
    Drawn(draw) != 0 && Drawn(draw) !in s.byID
  }

  /** The first usable draw; none if the source of randomness fails before. */
  function FirstUsable(s: Sessions, draws: seq<uint32>): Option<uint32>
  {
    if draws == [] then None
    else if Usable(s, draws[0]) then Some(Drawn(draws[0]))
    else FirstUsable(s, draws[1..])
  }

  function Inserted(s: Sessions, id: uint32, key: Key): Sessions
  {
    var ip := IPOf(key);
    s.(byID := s.byID[id := Session(s.created, key)],
       byKey := s.byKey[key := id],
       perIP := if ip.NoAddr? then s.perIP else s.perIP[ip := CountOf(s.perIP, ip) + 1],
       created := s.created + 1)
  }

  datatype Outcome = Existing(id: uint32) | Created(id: uint32) | Refused

  function GetOrCreateStep(s: Sessions, limits: Limits, key: Key, now: int, draws: seq<uint32>): (Sessions, Outcome)
  {
    if key in s.byKey then (s, Existing(s.byKey[key]))
    else if s.closed || |s.byID| >= limits.maxSessions then (s, Refused)
    else if !IPOf(key).NoAddr? && CountOf(s.perIP, IPOf(key)) >= limits.maxPerIP then (s, Refused)
    else
      var (t, ok) := AllowCreate(s, limits, now);
      if !ok then (t, Refused)
      else
        match FirstUsable(t, draws)
        case None => (t, Refused)
        case Some(id) => (Inserted(t, id, key), Created(id))
  }

  function AddStep(s: Sessions, limits: Limits, id: uint32, now: int): (Sessions, Outcome)
  {
    if id in s.byID then (s, Existing(id))
    else if id == 0 || s.closed || |s.byID| >= limits.maxSessions then (s, Refused)
    else
      var (t, ok) := AllowCreate(s, limits, now);
      if !ok then (t, Refused)
      else (t.(byID := t.byID[id := Session(t.created, NO_KEY)], created := t.created + 1), Created(id))
  }

  function Uncounted(perIP: map<Addr, nat>, ip: Addr): map<Addr, nat>
  {
    if ip.NoAddr? then perIP
    else if CountOf(perIP, ip) > 1 then perIP[ip := CountOf(perIP, ip) - 1]
    else perIP - {ip}
  }

  function RemoveStep(s: Sessions, id: uint32): Sessions
  {
    if id !in s.byID then s
    else
      var session := s.byID[id];
      s.(byID := s.byID - {id},
         byKey := s.byKey - {session.key},
         perIP := Uncounted(s.perIP, IPOf(session.key)),
         ended := s.ended + {session.serial})
  }

  function Serials(byID: map<uint32, Session>): set<nat>
  {
    set id | id in byID :: byID[id].serial
  }

  function CloseStep(s: Sessions): Sessions
  {
    if s.closed then s
    else s.(byID := map[], byKey := map[], perIP := map[], closed := true, ended := s.ended + Serials(s.byID))
  }

  // ---------------------------------------------------------------- the manager

  class Manager {
    const limits: Limits
    var byID: map<uint32, Session>
    var byKey: map<Key, uint32>
    var sessionsPerIP: map<Addr, nat>
    var rateWindowStart: Option<int>
    var rateWindowCount: nat
    var closed: bool
    ghost var ended: set<nat>
    var nextSerial: nat

    ghost function State(): Sessions
      reads this
    {
      Sessions(byID, byKey, sessionsPerIP, rateWindowStart, rateWindowCount, closed, nextSerial, ended)
    }

    constructor (maxSessions: int, maxPerIP: int, maxPerSecond: int)
      ensures State() == EMPTY
      ensures limits == Limits(if maxSessions <= 0 then 256 else maxSessions,
                               if maxPerIP <= 0 then 32 else maxPerIP,
                               if maxPerSecond <= 0 then 50 else maxPerSecond)
    {
      limits := Limits(if maxSessions <= 0 then 256 else maxSessions,
                       if maxPerIP <= 0 then 32 else maxPerIP,
                       if maxPerSecond <= 0 then 50 else maxPerSecond);
      byID, byKey, sessionsPerIP := map[], map[], map[];
      rateWindowStart, rateWindowCount, closed := None, 0, false;
      ended, nextSerial := {}, 0;
    }

    method AllowCreateLocked(now: int) returns (ok: bool)
      modifies this`rateWindowStart, this`rateWindowCount
      ensures (State(), ok) == AllowCreate(old(State()), limits, now)
    {
      if rateWindowStart.None? || now - rateWindowStart.value >= SECOND {
        rateWindowStart, rateWindowCount := Some(now), 0;
      }
      if rateWindowCount >= limits.maxPerSecond {
        return false;
      }
      rateWindowCount := rateWindowCount + 1;
      return true;
    }

    method DrawID(draws: seq<uint32>) returns (id: Option<uint32>)
      ensures id == FirstUsable(State(), draws)
    {
      var rest := draws;
      while rest != []
        invariant FirstUsable(State(), draws) == FirstUsable(State(), rest)
        decreases |rest|
      {
        var candidate := rest[0] % TWO_31;
        if candidate != 0 && candidate !in byID {
          return Some(candidate);
        }
        rest := rest[1..];
      }
      return None;
    }

    method GetOrCreateByKey(key: Key, now: int, draws: seq<uint32>) returns (outcome: Outcome)
      modifies this
      ensures (State(), outcome) == GetOrCreateStep(old(State()), limits, key, now, draws)
    {
      if key in byKey {
        return Existing(byKey[key]);
      }
      if closed || |byID| >= limits.maxSessions {
        return Refused;
      }
      var clientIP := Unmap(key.addr);
      var count := if clientIP in sessionsPerIP then sessionsPerIP[clientIP] else 0;
      if clientIP != NoAddr && count >= limits.maxPerIP {
        return Refused;
      }
      var ok := AllowCreateLocked(now);
      if !ok {
        return Refused;
      }
      var id := DrawID(draws);
      if id.None? {
        return Refused;
      }
      byID := byID[id.value := Session(nextSerial, key)];
      byKey := byKey[key := id.value];
      if clientIP != NoAddr {
        sessionsPerIP := sessionsPerIP[clientIP := count + 1];
      }
      nextSerial := nextSerial + 1;
      return Created(id.value);
    }

    method AddSessionWithID(id: uint32, now: int) returns (outcome: Outcome)
      modifies this
      ensures (State(), outcome) == AddStep(old(State()), limits, id, now)
    {
      if id in byID {
        return Existing(id);
      }
      if id == 0 || closed || |byID| >= limits.maxSessions {
        return Refused;
      }
      var ok := AllowCreateLocked(now);
      if !ok {
        return Refused;
      }
      byID, nextSerial := byID[id := Session(nextSerial, NO_KEY)], nextSerial + 1;
      return Created(id);
    }

    method Remove(id: uint32)
      modifies this
      ensures State() == RemoveStep(old(State()), id)
      ensures byID == old(byID) - {id}
    {
      if id !in byID {
        return;
      }
      var session := byID[id];
      byID, byKey := byID - {id}, byKey - {session.key};
      var clientIP := Unmap(session.key.addr);
      if clientIP != NoAddr {
        if clientIP in sessionsPerIP && sessionsPerIP[clientIP] > 1 {
          sessionsPerIP := sessionsPerIP[clientIP := sessionsPerIP[clientIP] - 1];
        } else {
          sessionsPerIP := sessionsPerIP - {clientIP};
        }
      }
      ended := ended + {session.serial};
    }

    /** Detaches every session, then closes each. */
    method Close()
      modifies this
      ensures State() == CloseStep(old(State())) && closed
      ensures !old(closed) ==> byID == map[] && byKey == map[] && sessionsPerIP == map[]
      ensures !old(closed) ==> forall id :: id in old(byID) ==> old(byID)[id].serial in ended
    {
      if closed {
        return;
      }
      closed := true;
      var sessions := byID;
      byID, byKey, sessionsPerIP := map[], map[], map[];
      var left := sessions.Keys;
      ghost var before := ended;
      while left != {}
        invariant left <= sessions.Keys
        invariant ended == before + set id | id in sessions && id !in left :: sessions[id].serial
        invariant State() == old(State()).(byID := map[], byKey := map[], perIP := map[], closed := true,
                                           ended := ended)
        decreases |left|
      {
        var id :| id in left;
        left := left - {id};
        ended := ended + {sessions[id].serial};
      }
    }
  }
}
