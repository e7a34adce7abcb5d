/** Session channels: when they are open, who may send on them, and that each is closed once.
    internal/punch/udp_dispatcher.go and internal/agent/p2p_sessions.go. A method that holds the
    lock is one critical section, so the order of calls is any interleaving of the callers. */
module Channels {
  import opened Words
  import opened UDPFrame

  /** A Go channel with a buffer. Sending on a closed channel and closing one twice are errors that
      no caller may make. */
  class Channel {
    const capacity: nat
    var open: bool
    var queue: seq<bytes>

    /** A packet waits behind the others if there is room, and is dropped exactly if there is none. */
    function Queued(queue: seq<bytes>, packet: bytes): (longer: seq<bytes>)
      ensures |queue| < capacity ==> longer == queue + [packet]
      ensures |queue| >= capacity ==> longer == queue
    {
      if |queue| < capacity then queue + [packet] else queue
    }

    constructor (capacity: nat)
      ensures open && queue == [] && this.capacity == capacity
    {
      this.capacity, open, queue := capacity, true, [];
    }

    /** Drops the packet if the buffer is full. */
    method TrySend(packet: bytes)
      requires open
      modifies this`queue
      ensures queue == Queued(old(queue), packet)
    {
      if |queue| < capacity {
        queue := queue + [packet];
      }
    }

    method Close()
      requires open
      modifies this`open
      ensures !open
    {
      open := false;
    }

    method Drain()
      modifies this`queue
      ensures queue == []
    {
      queue := [];
    }
  }

  predicate Injective(sessions: map<nat, Channel>)
  {
    forall i, j :: i in sessions && j in sessions && i != j ==> sessions[i] != sessions[j]
  }

  ghost function OpenOnes(made: set<Channel>): set<Channel>
    reads made
  {
    set c | c in made && c.open
  }

  /** Of all channels that were ever made exactly those in the table are open, each there once. */
  ghost predicate InTableIffOpen(sessions: map<nat, Channel>, made: set<Channel>)
    reads made
  {
    Injective(sessions) && sessions.Values == OpenOnes(made)
  }

  lemma WithAnother(sessions: map<nat, Channel>, id: nat, channel: Channel)
    requires Injective(sessions) && id !in sessions && channel !in sessions.Values
    ensures Injective(sessions[id := channel]) && sessions[id := channel].Values == sessions.Values + {channel}
  {
    var after := sessions[id := channel];
    assert after[id] == channel;
    forall c | c in sessions.Values
      ensures c in after.Values
    {
      var i :| i in sessions && sessions[i] == c;
      assert after[i] == c;
    }
  }

  lemma WithoutOne(sessions: map<nat, Channel>, id: nat)
    requires Injective(sessions) && id in sessions
    ensures Injective(sessions - {id}) && (sessions - {id}).Values == sessions.Values - {sessions[id]}
    ensures |sessions - {id}| < |sessions|
  {
    var after := sessions - {id};
    forall c | c in sessions.Values && c != sessions[id]
      ensures c in after.Values
    {
      var i :| i in sessions && sessions[i] == c;
      assert after[i] == c;
    }
    assert after.Keys == sessions.Keys - {id};
    assert |after| == |after.Keys| && |sessions| == |sessions.Keys|;
  }

  lemma Replacing(sessions: map<nat, Channel>, id: nat, channel: Channel)
    ensures (sessions - {id})[id := channel] == sessions[id := channel]
  {
  }

  // ---------------------------------------------------------------- the dispatcher

  const DISPATCHER_QUEUE: nat := 256

  /** The session a packet names, by its kind. */
  function PacketSessionID(packet: bytes): Option<nat>
  {
    if |packet| < 8 then None
    else if packet[..4] == PutUint32(PUNCH_MAGIC) then
      if |packet| < PUNCH_PACKET_SIZE then None
      else Some(GetUint32(packet[8..12]) * TWO_32 + GetUint32(packet[12..16]))
    else if packet[..4] == PutUint32(P2P_MAGIC) then Some(GetUint32(packet[4..8]))
    else None
  }

  /** The keyed hash, and the check of a punch packet, for any key. */
  datatype Authenticator = Authenticator(mac: (bytes, bytes) -> Digest, punch: (bytes, bytes) -> bool)

  /** What a session checks packets with: its codec, if its number fits one, and the punch check
      under its key. */
  datatype Checker = Checker(codec: Option<P2PCodec>, punch: bytes -> bool)

  function CheckerFor(auth: Authenticator, id: nat, key: bytes): Checker
  {
    Checker(if id < TWO_32 then Some(P2PCodec(id, data => auth.mac(key, data))) else None,
            packet => auth.punch(key, packet))
  }

  predicate ValidPacket(k: Checker, packet: bytes)
  {
    if |packet| < 4 then false
    else if packet[..4] == PutUint32(PUNCH_MAGIC) then k.punch(packet)
    else if packet[..4] == PutUint32(P2P_MAGIC) then k.codec.Some? && Opened(k.codec.value, packet).Ok?
    else false
  }

  datatype RegisterError = MissingKey | DispatcherClosed | AlreadyRegistered

  class Dispatcher {
    const auth: Authenticator
    var sessions: map<nat, Channel>
    var checkers: map<nat, Checker>
    var done: bool
    ghost var made: set<Channel>
    ghost var cleared: bool

    ghost predicate Valid()
      reads this, made
    {
      && InTableIffOpen(sessions, made)
      && checkers.Keys == sessions.Keys
      && (cleared ==> done && sessions == map[])
    }

    constructor (auth: Authenticator)
      ensures Valid() && !done && sessions == map[] && this.auth == auth
    {
      this.auth := auth;
      sessions, checkers, done, made, cleared := map[], map[], false, {}, false;
    }

    /** A session's packets will be checked with its own number and key. */
    method Register(id: nat, key: bytes) returns (channel: Channel?, error: Option<RegisterError>)
      requires Valid()
      modifies this`sessions, this`checkers, this`made
      ensures Valid()
      ensures error == if key == [] then Some(MissingKey) else if done then Some(DispatcherClosed)
                       else if id in old(sessions) then Some(AlreadyRegistered) else None
      ensures error.Some? ==> channel == null && sessions == old(sessions) && made == old(made)
      ensures error.None? ==>
                && channel != null && fresh(channel) && channel.open && channel.queue == [] && channel.capacity == 256
                && sessions == old(sessions)[id := channel] && made == old(made) + {channel}
                && checkers == old(checkers)[id := CheckerFor(auth, id, key)]
    {
      if key == [] {
        return null, Some(MissingKey);
      }
      if done {
        return null, Some(DispatcherClosed);
      }
      if id in sessions {
        return null, Some(AlreadyRegistered);
      }
      channel := new Channel(DISPATCHER_QUEUE);
      WithAnother(sessions, id, channel);
      sessions, checkers, made := sessions[id := channel], checkers[id := CheckerFor(auth, id, key)], made + {channel};
      error := None;
    }

    /** Takes a session out of the table and closes its channel. */
    method TakeOut(id: nat, channel: Channel)
      requires id in sessions && sessions[id] == channel
      requires checkers.Keys == sessions.Keys && InTableIffOpen(sessions, made)
      modifies this`sessions, this`checkers, channel`open
      ensures checkers.Keys == sessions.Keys && InTableIffOpen(sessions, made)
      ensures sessions == old(sessions) - {id} && !channel.open && |sessions| < |old(sessions)|
    {
      WithoutOne(sessions, id);
      assert channel in sessions.Values;
      sessions, checkers := sessions - {id}, checkers - {id};
      channel.Close();
      assert OpenOnes(made) == old(OpenOnes(made)) - {channel};
    }

    /** The release closure's critical section: only the entry it was made for is taken out. */
    method Release(id: nat, channel: Channel)
      requires Valid() && channel in made
      modifies this`sessions, this`checkers, channel`open
      ensures Valid() && made == old(made)
      ensures if id in old(sessions) && old(sessions)[id] == channel
              then sessions == old(sessions) - {id} && !channel.open
              else sessions == old(sessions) && channel.open == old(channel.open)
    {
      if id in sessions && sessions[id] == channel {
        TakeOut(id, channel);
      }
    }

    /** The read loop with one packet: it goes to the session it names, if that accepts it. */
    method Deliver(packet: bytes) returns (to: Option<nat>)
      requires Valid()
      modifies set c | c in made :: c`queue
      ensures Valid()
      ensures to.Some? <==>
                var id := PacketSessionID(packet);
                id.Some? && id.value in sessions && ValidPacket(checkers[id.value], packet)
      ensures to.Some? ==>
                && to == PacketSessionID(packet)
                && sessions[to.value].queue == sessions[to.value].Queued(old(sessions[to.value].queue), packet)
      ensures forall c :: c in made && (to.None? || c != sessions[to.value]) ==> c.queue == old(c.queue)
    {
      var id := PacketSessionID(packet);
      if id.None? || id.value !in sessions || !ValidPacket(checkers[id.value], packet) {
        return None;
      }
      assert sessions[id.value] in sessions.Values;
      sessions[id.value].TrySend(packet);
      return id;
    }

    /** First half of Close: from here on nobody can register. */
    method BeginClose()
      requires Valid()
      modifies this`done
      ensures Valid() && done
    {
      done := true;
    }

    /** Takes out one session and throws away what is queued for it. */
    method CloseOne(id: nat)
      requires id in sessions && checkers.Keys == sessions.Keys && InTableIffOpen(sessions, made)
      modifies this`sessions, this`checkers, made
      ensures checkers.Keys == sessions.Keys && InTableIffOpen(sessions, made) && |sessions| < |old(sessions)|
    {
      var channel := sessions[id];
      assert channel in sessions.Values;
      TakeOut(id, channel);
      channel.Drain();
    }

    /** Second half: the critical section that closes what is left. */
    method FinishClose()
      requires Valid() && done
      modifies this, made
      ensures Valid() && made == old(made) && done && cleared
      ensures sessions == map[] && forall c :: c in made ==> !c.open
    {
      while sessions != map[]
        invariant made == old(made) && done && checkers.Keys == sessions.Keys && cleared == old(cleared)
        invariant InTableIffOpen(sessions, made)
        decreases |sessions|
      {
        var id :| id in sessions;
        CloseOne(id);
      }
      cleared := true;
      assert forall c :: c in made && c.open ==> c in OpenOnes(made);
    }
  }

  /** A data packet that a session accepts was sealed under its number and key; and a packet sealed
      for a session names it, so it is never tried on another. */
  lemma DataPacketsAreAuthentic(auth: Authenticator, id: nat, key: bytes, packet: bytes, datagram: bytes)
    requires id < TWO_32
    ensures var k := CheckerFor(auth, id, key);
            && (packet == Sealed(k.codec.value, datagram) ==>
                  ValidPacket(k, packet) && PacketSessionID(packet) == Some(id))
            && (ValidPacket(k, packet) && packet[..4] == PutUint32(P2P_MAGIC) ==>
                  exists d :: packet == Sealed(k.codec.value, d))
  {
    var k := CheckerFor(auth, id, key);
    var c := k.codec.value;
    assert PutUint32(P2P_MAGIC)[3] != PutUint32(PUNCH_MAGIC)[3];
    if packet == Sealed(c, datagram) {
      OpensExactlySealed(c, packet, datagram);
      assert packet[..4] == PutUint32(P2P_MAGIC) && packet[4..8] == PutUint32(id);
      GetPut(id);
    }
    if ValidPacket(k, packet) && packet[..4] == PutUint32(P2P_MAGIC) {
      OpensExactlySealed(c, packet, Opened(c, packet).value);
    }
  }

  /** The closure that Register returns; it acts once. */
  class ReleaseOnce {
    const dispatcher: Dispatcher
    const id: nat
    const channel: Channel
    var called: bool

    constructor (dispatcher: Dispatcher, id: nat, channel: Channel)
      ensures this.dispatcher == dispatcher && this.id == id && this.channel == channel && !called
    {
      this.dispatcher, this.id, this.channel, called := dispatcher, id, channel, false;
    }

    method Call()
      requires dispatcher.Valid() && channel in dispatcher.made
      modifies this, dispatcher`sessions, dispatcher`checkers, channel
      ensures dispatcher.Valid() && called
      ensures old(called) ==> dispatcher.sessions == old(dispatcher.sessions) && channel.open == old(channel.open)
      ensures !old(called) ==>
                if id in old(dispatcher.sessions) && old(dispatcher.sessions)[id] == channel
                then dispatcher.sessions == old(dispatcher.sessions) - {id} && !channel.open
                else dispatcher.sessions == old(dispatcher.sessions) && channel.open == old(channel.open)
      ensures channel.queue == if old(called) then old(channel.queue) else []
    {
      if called {
        return;
      }
      called := true;
      dispatcher.Release(id, channel);
      channel.Drain();
    }
  }

  // ---------------------------------------------------------------- the session registry

  const UPDATE_QUEUE: nat := 8

  class Registry {
    var sessions: map<nat, Channel>
    ghost var made: set<Channel>

    ghost predicate Valid()
      reads this, made
    {
      InTableIffOpen(sessions, made)
    }

    constructor ()
      ensures Valid() && sessions == map[]
    {
      sessions, made := map[], {};
    }

    method Remove(id: nat)
      requires Valid()
      modifies this`sessions, made
      ensures Valid() && made == old(made) && sessions == old(sessions) - {id}
      ensures id in old(sessions) ==> !old(sessions)[id].open && |sessions| < |old(sessions)|
    {
      if id in sessions {
        var channel := sessions[id];
        WithoutOne(sessions, id);
        sessions := sessions - {id};
        channel.Close();
      } else {
        assert sessions - {id} == sessions;
      }
    }

    method Insert(id: nat, channel: Channel)
      requires Valid() && id !in sessions && channel !in made && channel.open
      modifies this
      ensures Valid() && sessions == old(sessions)[id := channel] && made == old(made) + {channel}
    {
      WithAnother(sessions, id, channel);
      assert OpenOnes(made + {channel}) == OpenOnes(made) + {channel};
      sessions, made := sessions[id := channel], made + {channel};
    }

    /** A new session replaces one of the same number, whose channel is closed. */
    method Register(id: nat) returns (updates: Channel)
      requires Valid()
      modifies this, made
      ensures Valid() && fresh(updates) && updates.open && updates.queue == [] && updates.capacity == 8
      ensures sessions == old(sessions)[id := updates] && made == old(made) + {updates}
      ensures id in old(sessions) ==> !old(sessions)[id].open
    {
      assert id in sessions ==> sessions[id] in sessions.Values;
      Remove(id);
      updates := new Channel(UPDATE_QUEUE);
      Insert(id, updates);
      Replacing(old(sessions), id, updates);
    }

    method Update(id: nat, candidates: bytes) returns (known: bool)
      requires Valid()
      modifies set c | c in made :: c`queue
      ensures Valid() && (known <==> id in sessions)
      ensures known ==> sessions[id].queue == sessions[id].Queued(old(sessions[id].queue), candidates)
      ensures forall c :: c in made && (id in sessions ==> c != sessions[id]) ==> c.queue == old(c.queue)
    {
      known := id in sessions;
      if known {
        assert sessions[id] in sessions.Values;
        sessions[id].TrySend(candidates);
      }
    }

    method Close()
      requires Valid()
      modifies this`sessions, made
      ensures Valid() && made == old(made) && sessions == map[] && forall c :: c in made ==> !c.open
    {
      while sessions != map[]
        invariant Valid() && made == old(made)
        decreases |sessions|
      {
        var id :| id in sessions;
        Remove(id);
      }
      assert forall c :: c in made && c.open ==> c in OpenOnes(made);
    }
  }
}
