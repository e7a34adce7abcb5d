/** The path manager under every interleaving of its callers: internal/path/manager.go. Each step
    is one lock operation, one atomic load or store, or one critical section of pathChangedMu. */
module PathRaces {
  import opened Words
  import opened PathManager

  // ---------------------------------------------------------------- the callers

  /** How far a call has come. */
  datatype Stage =
    | Begin                    // nothing done yet
    | Looked                   // sending: loaded the path
    | Numbered                 // sending: drew a packet ID
    | Reading                  // receiving: saw a direct path, has yet to read the punch result
    | Trying                   // has the punch result: about to send, or to read from the socket
    | Registering              // receiving: about to register for the next path change
    | Registered               // receiving: registered, about to look at the path once more
    | Blocked                  // receiving: waiting for its channel to be closed
    | OnRelay                  // receiving: waiting for a datagram from the relay
    | Parked                   // receiving: waiting to be cancelled
    | Waiting                  // about to take the lock
    | Holding                  // just took the lock
    | TCPSeen                  // about to store the TCP path
    | TCPDone                  // warm-up: done with the TCP path
    | UDPSeen                  // warm-up: found no UDP path, about to store one
    | Punched                  // changed the punch result, but not yet the path
    | Stored                   // changed the path, and has yet to notify
    | Leaving                  // has only to give back the lock

  /** A SendUDP under way: how often it looked at the path, and how many upgrades there had been
      when it was called. */
  datatype Sender = Sender(rounds: nat, since: nat)

  /** A fallback is a call of its own, or part of a send or a receive that goes on after it. */
  datatype Caller = Alone | ForSend(who: Sender) | ForReceive

  datatype Call =
    | SetDirectUDP(stage: Stage, res: nat, lan: bool)
    | SetDirectTCP(stage: Stage, lan: bool)
    | Fallback(stage: Stage, caller: Caller)
    | WarmUp(stage: Stage)
    | Close(stage: Stage)
    | Send(stage: Stage, sender: Sender, path: PathType)
    | Receive(stage: Stage, channel: nat)

  /** A packet ID drawn by a send, and how many upgrades there had been by then. */
  datatype Draw = Draw(sender: Sender, upgrades: nat, packetID: uint32)

  predicate Fresh(st: State, c: Call)
  {
    match c
    case Fallback(stage, caller) => stage == Waiting && caller == Alone
    case WarmUp(stage) => stage == Waiting
    case Send(stage, sender, path) => stage == Begin && sender == Sender(0, st.upgrades) && path.Unknown?
    case _ => c.stage == Begin
  }

  /** `shutDone`, `upgrades` and `draws` are history: some Close has released the punch result; how
      often an upgrade stored the UDP path; the packet IDs drawn so far. */
  datatype State = State(
    relay: RelayKind,
    tcp: PathType,
    udp: PathType,
    punch: Option<nat>,
    closedPunches: set<nat>,
    shut: bool,
    shutDone: bool,
    lock: Option<nat>,
    channel: Option<nat>,
    closedChannels: set<nat>,
    made: nat,
    nextPacketID: uint32,
    upgrades: nat,
    draws: seq<Draw>,
    calls: map<nat, Call>)

  function Initial(relay: RelayKind): State
  {
    State(relay, Unknown, Unknown, None, {}, false, false, None, None, {}, 0, 0, 0, [], map[])
  }

  // ---------------------------------------------------------------- the steps

  /** Cancel ends a receive; Datagram brings one from the relay. Fail is a send over the direct path
      that does not get through, or a receive that finds no socket or codec to read with. */
  datatype Action =
    | Enter(id: nat, call: Call)
    | Step(id: nat)
    | Cancel(id: nat)
    | Datagram(id: nat)
    | Fail(id: nat)

  /** The calls that change the UDP path, or close its punch result, under the lock. */
  predicate UsesLock(c: Call)
  {
    c.SetDirectUDP? || c.Fallback? || c.WarmUp? || c.Close?
  }

  predicate Ready(st: State, c: Call)
  {
    match c.stage
    case Waiting => st.lock == None
    case Numbered => c.Send? && IsDirect(c.path) ==> st.lock == None
    case Reading => st.lock == None
    case Blocked => c.Receive? && c.channel in st.closedChannels
    case OnRelay => false
    case Parked => false
    case _ => true
  }

  predicate Enabled(st: State, a: Action)
  {
    match a
    case Enter(id, c) => id !in st.calls && Fresh(st, c)
    case Step(id) => id in st.calls && Ready(st, st.calls[id])
    case Cancel(id) => id in st.calls && st.calls[id].Receive?
    case Datagram(id) => id in st.calls && st.calls[id].Receive? && st.calls[id].stage == OnRelay
    case Fail(id) => id in st.calls && st.calls[id].stage == Trying
  }

  function At(st: State, id: nat, stage: Stage): State
    requires id in st.calls
  {
    st.(calls := st.calls[id := st.calls[id].(stage := stage)])
  }

  function Gone(st: State, id: nat): State
  {
    st.(calls := st.calls - {id})
  }

  function Unlocked(st: State, id: nat): State
  {
    Gone(st, id).(lock := None)
  }

  function Notified(st: State): State
  {
    if st.channel.None? then st
    else st.(closedChannels := st.closedChannels + {st.channel.value}, channel := None)
  }

  function WithChannel(st: State): State
  {
    if st.channel.None? then st.(channel := Some(st.made), made := st.made + 1) else st
  }

  function ClosePunch(st: State): State
  {
    if st.punch.None? then st else st.(closedPunches := st.closedPunches + {st.punch.value})
  }

  function StepDirectUDP(st: State, id: nat): State
    requires id in st.calls && st.calls[id].SetDirectUDP?
  {
    var c := st.calls[id];
    match c.stage
    case Begin => if st.shut then Gone(st, id).(closedPunches := st.closedPunches + {c.res}) else At(st, id, Waiting)
    case Waiting => At(st, id, Holding).(lock := Some(id))
    case Holding =>
      if st.shut then At(st, id, Leaving).(closedPunches := st.closedPunches + {c.res})
      else At(st, id, Punched).(punch := Some(c.res))
    case Punched => At(st, id, Stored).(udp := if c.lan then DirectLAN else DirectUDP, upgrades := st.upgrades + 1)
    case Stored => At(Notified(st), id, Leaving)
    case _ => Unlocked(st, id)
  }

  function StepDirectTCP(st: State, id: nat): State
    requires id in st.calls && st.calls[id].SetDirectTCP?
  {
    match st.calls[id].stage
    case Begin => if st.shut then Gone(st, id) else At(st, id, TCPSeen)
    case TCPSeen => At(st, id, Stored).(tcp := if st.calls[id].lan then DirectLAN else DirectTCP)
    case _ => Gone(Notified(st), id)
  }

  /** A fallback returns, and the send or receive it belongs to looks at the path again. */
  function Returned(st: State, id: nat): State
    requires id in st.calls && st.calls[id].Fallback?
  {
    match st.calls[id].caller
    case Alone => Unlocked(st, id)
    case ForSend(sender) => st.(calls := st.calls[id := Send(Begin, sender, Unknown)], lock := None)
    case ForReceive => st.(calls := st.calls[id := Receive(Begin, 0)], lock := None)
  }

  function StepFallback(st: State, id: nat): State
    requires id in st.calls && st.calls[id].Fallback?
  {
    match st.calls[id].stage
    case Waiting => At(st, id, Holding).(lock := Some(id))
    case Holding => if IsDirect(st.udp) then At(ClosePunch(st), id, Punched).(punch := None) else At(st, id, Leaving)
    case Punched => At(st, id, Stored).(udp := RelayPath(st.relay))
    case Stored => At(Notified(st), id, Leaving)
    case _ => Returned(st, id)
  }

  function StepWarmUp(st: State, id: nat): State
    requires id in st.calls && st.calls[id].WarmUp?
  {
    match st.calls[id].stage
    case Waiting => At(st, id, Holding).(lock := Some(id))
    case Holding => At(st, id, if st.tcp.Unknown? then TCPSeen else TCPDone)
    case TCPSeen => At(st, id, TCPDone).(tcp := Relay)
    case TCPDone => At(st, id, if st.udp.Unknown? then UDPSeen else Stored)
    case UDPSeen => At(st, id, Stored).(udp := RelayPath(st.relay))
    case Stored => At(Notified(st), id, Leaving)
    case _ => Unlocked(st, id)
  }

  function StepClose(st: State, id: nat): State
    requires id in st.calls && st.calls[id].Close?
  {
    match st.calls[id].stage
    case Begin => if st.shut then Gone(st, id) else At(st, id, Waiting).(shut := true)
    case Waiting => At(st, id, Holding).(lock := Some(id))
    case Holding => At(ClosePunch(st), id, Leaving).(shutDone := true)
    case _ => Unlocked(st, id)
  }

  function FallingBack(st: State, id: nat, caller: Caller): State
  {
    st.(calls := st.calls[id := Fallback(Waiting, caller)])
  }

  function WithRegistered(st: State, id: nat): State
  {
    var t := WithChannel(st);
    t.(calls := t.calls[id := Receive(Registered, t.channel.value)])
  }

  /** ReceiveUDP: look at the path. On a direct path read the punch result under the lock and then
      the socket, with a deadline; on the relay wait for a datagram; with UDP disabled wait to be
      cancelled; else register, look again, and block until the path changes. */
  function StepReceive(st: State, id: nat): State
    requires id in st.calls && st.calls[id].Receive?
  {
    match st.calls[id].stage
    case Begin =>
      if IsDirect(st.udp) then At(st, id, Reading)
      else if st.udp.Disabled? then At(st, id, Parked)
      else if st.udp.Relay? && !st.relay.NoRelay? then At(st, id, OnRelay)
      else At(st, id, Registering)
    case Reading => if st.punch.None? then FallingBack(st, id, ForReceive) else At(st, id, Trying)
    case Registering => WithRegistered(st, id)
    case Registered => At(st, id, if !st.udp.Unknown? && !st.relay.NoRelay? then Begin else Blocked)
    case _ => At(st, id, Begin)
  }

  function Looking(st: State, id: nat): State
    requires id in st.calls && st.calls[id].Send?
  {
    var sender := st.calls[id].sender;
    st.(calls := st.calls[id := Send(Looked, sender.(rounds := sender.rounds + 1), st.udp)])
  }

  function Drawing(st: State, id: nat): State
    requires id in st.calls && st.calls[id].Send?
  {
    var packetID := Wrap32(st.nextPacketID + 1);
    At(st, id, Numbered).(nextPacketID := packetID,
                          draws := st.draws + [Draw(st.calls[id].sender, st.upgrades, packetID)])
  }

  /** SendUDP: look at the path, draw a packet ID, and on a direct path read the punch result under
      the lock and try. Without a result, or when the attempt fails, fall back and look again. */
  function StepSend(st: State, id: nat): State
    requires id in st.calls && st.calls[id].Send?
  {
    match st.calls[id].stage
    case Begin => if st.udp.Disabled? then Gone(st, id) else Looking(st, id)
    case Looked => Drawing(st, id)
    case Numbered =>
      if !IsDirect(st.calls[id].path) then Gone(st, id)
      else if st.punch.None? then FallingBack(st, id, ForSend(st.calls[id].sender))
      else At(st, id, Trying)
    case _ => Gone(st, id)
  }

  function StepOf(st: State, id: nat): State
    requires id in st.calls
  {
    match st.calls[id]
    case SetDirectUDP(_, _, _) => StepDirectUDP(st, id)
    case SetDirectTCP(_, _) => StepDirectTCP(st, id)
    case Fallback(_, _) => StepFallback(st, id)
    case WarmUp(_) => StepWarmUp(st, id)
    case Close(_) => StepClose(st, id)
    case Send(_, _, _) => StepSend(st, id)
    case Receive(_, _) => StepReceive(st, id)
  }

  /** The fallback of a send or a receive that could not use the direct path. */
  function Failed(st: State, id: nat): State
    requires id in st.calls
  {
    FallingBack(st, id, if st.calls[id].Send? then ForSend(st.calls[id].sender) else ForReceive)
  }

  function Apply(st: State, a: Action): State
    requires Enabled(st, a)
  {
    match a
    case Enter(id, c) => st.(calls := st.calls[id := c])
    case Step(id) => StepOf(st, id)
    case Cancel(id) => Gone(st, id)
    case Datagram(id) => At(st, id, Begin)
    case Fail(id) => Failed(st, id)
  }

  // ---------------------------------------------------------------- the invariant

  predicate HoldsLock(c: Call)
  {
    UsesLock(c) && !c.stage.Begin? && !c.stage.Waiting?
  }

  predicate Legal(c: Call)
  {
    match c.stage
    case Begin => !c.Fallback? && !c.WarmUp?
    case Looked => c.Send?
    case Numbered => c.Send?
    case Trying => c.Send? || c.Receive?
    case Reading => c.Receive?
    case Registering => c.Receive?
    case Registered => c.Receive?
    case Blocked => c.Receive?
    case OnRelay => c.Receive?
    case Parked => c.Receive?
    case Waiting => UsesLock(c)
    case Holding => UsesLock(c)
    case TCPSeen => c.WarmUp? || c.SetDirectTCP?
    case TCPDone => c.WarmUp?
    case UDPSeen => c.WarmUp?
    case Punched => c.SetDirectUDP? || c.Fallback?
    case Stored => c.SetDirectUDP? || c.SetDirectTCP? || c.Fallback? || c.WarmUp?
    case Leaving => UsesLock(c)
  }

  predicate LockInv(st: State)
  {
    && (forall id :: id in st.calls ==> Legal(st.calls[id]))
    && (forall id :: id in st.calls && st.calls[id].Close? && !st.calls[id].stage.Begin? ==> st.shut)
    && (st.lock.Some? ==> st.lock.value in st.calls)
    && (forall id :: id in st.calls ==> (HoldsLock(st.calls[id]) <==> st.lock == Some(id)))
  }

  predicate HolderIsAt(st: State, stage: Stage)
  {
    st.lock.Some? && st.lock.value in st.calls && st.calls[st.lock.value].stage == stage
  }

  predicate InFallback(st: State)
  {
    HolderIsAt(st, Punched) && st.calls[st.lock.value].Fallback?
  }

  /** The UDP path, whoever holds the lock. */
  predicate PathInv(st: State)
  {
    && (IsDirect(st.udp) ==> st.punch.Some? || InFallback(st))
    && (InFallback(st) ==> IsDirect(st.udp) && st.punch == None)
    && (HolderIsAt(st, Punched) && st.calls[st.lock.value].SetDirectUDP? ==> st.punch.Some? && !st.shutDone)
    && (HolderIsAt(st, UDPSeen) && st.calls[st.lock.value].WarmUp? ==> st.udp.Unknown?)
    && (st.udp.Relay? ==> st.relay.WithDatagrams?)
    && (st.udp.Disabled? ==> !st.relay.WithDatagrams?)
    && !st.udp.DirectTCP?
    && (st.shutDone ==> st.shut && (st.punch.Some? ==> st.punch.value in st.closedPunches))
  }

  /** A receiver that got a channel to wait on. */
  predicate HasChannel(c: Call)
  {
    c.Receive? && (c.stage.Registered? || c.stage.Blocked?)
  }

  predicate ChannelInv(st: State)
  {
    && (forall c :: 0 <= c < st.made ==> c in st.closedChannels || st.channel == Some(c))
    && (st.channel.Some? ==> st.channel.value < st.made && st.channel.value !in st.closedChannels)
    && (forall id :: id in st.calls && HasChannel(st.calls[id]) ==> st.calls[id].channel < st.made)
    && (forall c :: c in st.closedChannels ==> c < st.made)
  }

  predicate IsBlocked(c: Call)
  {
    c.Receive? && c.stage.Blocked?
  }

  /** A blocked receiver is woken, or will be by whoever holds the lock. */
  predicate WakeInv(st: State)
  {
    !st.udp.Unknown? && !st.relay.NoRelay? && !HolderIsAt(st, Stored) ==>
      forall id :: id in st.calls && IsBlocked(st.calls[id]) ==> st.calls[id].channel in st.closedChannels
  }

  predicate Inv(st: State)
  {
    LockInv(st) && PathInv(st) && ChannelInv(st) && WakeInv(st)
  }
}
