/** Which path a session's packets take, and sending over it: internal/path/manager.go, one caller
    at a time. */
module PathManager {
  import opened Words
  import opened UDPFrame
  import opened Fragmentation

  datatype PathType = Unknown | DirectLAN | DirectUDP | DirectTCP | Relay | Disabled

  predicate IsDirect(p: PathType)
  {
    p.DirectLAN? || p.DirectUDP?
  }

  /** The relay transport a manager was made with, if any. */
  datatype RelayKind = NoRelay | StreamsOnly | WithDatagrams

  /** Where UDP goes when the relay has to carry it. */
  function RelayPath(relay: RelayKind): PathType
  {
    if relay.WithDatagrams? then Relay else Disabled
  }

  class PunchResult {
    const hasConn: bool
    var closed: bool

    constructor (hasConn: bool)
      ensures this.hasConn == hasConn && !closed
    {
      this.hasConn, closed := hasConn, false;
    }

    method Close()
      modifies this
      ensures closed
    {
      closed := true;
    }
  }

  datatype SendError = PathIsDisabled | NoCodec | NoRelayTransport | NoValidPath | SendFailed(error: FragmentError)

  /** What sending a packet under this ID over a working link comes to. */
  ghost predicate Fragmented(m: Manager, id: uint32, payload: bytes, sink: DatagramSink, error: Option<FragmentError>)
    requires m.maxPayload > 0
    reads sink
  {
    if !Fits(|payload|, m.maxPayload) then error == Some(PacketTooLarge) && sink.sent == []
    else
      var ds := Datagrams(m.sessionID, id, payload, m.maxPayload);
      && error == (if sink.capacity < |ds| then Some(HandlerFailed) else None)
      && sink.sent == ds[..Cap(|ds|, sink.capacity)]
  }

  class Manager {
    const relay: RelayKind
    const sessionID: uint32
    const hasCodec: bool
    const maxPayload: nat
    var tcpPath: PathType
    var udpPath: PathType
    var punch: PunchResult?
    var nextPacketID: uint32
    var closed: bool
    /** The channel that path waiters share until the next change, and those closed so far. */
    var pathChanged: Option<nat>
    var closedChannels: set<nat>
    var made: nat

    /** A direct path has its punch result, and a relayed one a relay that takes datagrams. */
    ghost predicate Valid()
      reads this
    {
      && maxPayload > 0
      && (IsDirect(udpPath) ==> punch != null)
      && (udpPath.Relay? ==> relay.WithDatagrams?)
      && !udpPath.DirectTCP?
      && (forall c :: 0 <= c < made ==> c in closedChannels || pathChanged == Some(c))
      && (forall c :: c in closedChannels ==> c < made)
      && (pathChanged.Some? ==> pathChanged.value < made && pathChanged.value !in closedChannels)
    }

    constructor (relay: RelayKind, sessionID: uint32, hasCodec: bool)
      ensures Valid() && this.relay == relay && this.sessionID == sessionID && this.hasCodec == hasCodec
      ensures udpPath.Unknown? && tcpPath.Unknown? && nextPacketID == 0 && !closed && punch == null
    {
      this.relay, this.sessionID, this.hasCodec, maxPayload := relay, sessionID, hasCodec, DEFAULT_MAX_PAYLOAD;
      tcpPath, udpPath, punch, nextPacketID, closed := Unknown, Unknown, null, 0, false;
      pathChanged, closedChannels, made := None, {}, 0;
    }

    method PathWaiter() returns (channel: nat)
      requires Valid()
      modifies this`pathChanged, this`made
      ensures Valid() && pathChanged == Some(channel) && channel < made && channel !in closedChannels
      ensures old(pathChanged) == Some(channel) || (old(pathChanged) == None && channel == old(made))
    {
      if pathChanged.None? {
        pathChanged, made := Some(made), made + 1;
      }
      return pathChanged.value;
    }

    /** Every channel handed out so far is closed afterwards. */
    method NotifyPathChanged()
      requires Valid()
      modifies this`pathChanged, this`closedChannels
      ensures Valid() && forall c :: 0 <= c < made ==> c in closedChannels
    {
      if pathChanged.Some? {
        closedChannels := closedChannels + {pathChanged.value};
        pathChanged := None;
      }
    }

    ghost predicate AllWoken()
      reads this
    {
      forall c :: 0 <= c < made ==> c in closedChannels
    }

    method SetDirectUDP(res: PunchResult?, isLAN: bool)
      requires Valid()
      modifies this`udpPath, this`punch, this`pathChanged, this`closedChannels, res
      ensures Valid()
      ensures closed || res == null ==>
                && udpPath == old(udpPath) && punch == old(punch) && pathChanged == old(pathChanged)
                && (res != null ==> res.closed)
      ensures !closed && res != null ==>
                && punch == res && res.closed == old(res.closed)
                && udpPath == (if isLAN then DirectLAN else DirectUDP) && AllWoken()
    {
      if closed || res == null {
        if res != null {
          res.Close();
        }
        return;
      }
      punch := res;
      udpPath := if isLAN then DirectLAN else DirectUDP;
      NotifyPathChanged();
    }

    method SetDirectTCP(isLAN: bool)
      requires Valid()
      modifies this`tcpPath, this`pathChanged, this`closedChannels
      ensures Valid() && if closed then tcpPath == old(tcpPath)
                         else tcpPath == (if isLAN then DirectLAN else DirectTCP) && AllWoken()
    {
      if closed {
        return;
      }
      tcpPath := if isLAN then DirectLAN else DirectTCP;
      NotifyPathChanged();
    }

    /** Drops a dead direct path; on any other path nothing happens. */
    method FallbackUDPFromDirect()
      requires Valid()
      modifies this`udpPath, this`punch, this`pathChanged, this`closedChannels, punch
      ensures Valid()
      ensures !IsDirect(old(udpPath)) ==> udpPath == old(udpPath) && punch == old(punch)
      ensures IsDirect(old(udpPath)) ==>
                udpPath == RelayPath(relay) && punch == null && old(punch).closed && AllWoken()
    {
      if !IsDirect(udpPath) {
        return;
      }
      punch.Close();
      punch := null;
      udpPath := RelayPath(relay);
      NotifyPathChanged();
    }

    /** Warms the relay up: it takes only what has no path yet. */
    method SetQUICRelay()
      requires Valid()
      modifies this`tcpPath, this`udpPath, this`pathChanged, this`closedChannels
      ensures Valid() && AllWoken()
      ensures tcpPath == if old(tcpPath).Unknown? then Relay else old(tcpPath)
      ensures udpPath == if old(udpPath).Unknown? then RelayPath(relay) else old(udpPath)
    {
      if tcpPath.Unknown? {
        tcpPath := Relay;
      }
      if udpPath.Unknown? {
        udpPath := RelayPath(relay);
      }
      NotifyPathChanged();
    }

    method Close()
      requires Valid()
      modifies this`closed, punch
      ensures Valid() && closed && (!old(closed) && punch != null ==> punch.closed)
    {
      if closed {
        return;
      }
      closed := true;
      if punch != null {
        punch.Close();
      }
    }

    predicate DirectUsable()
      reads this
    {
      IsDirect(udpPath) && punch != null && punch.hasConn
    }

    /** One attempt over either path. */
    method SendFragments(id: uint32, payload: bytes, sink: DatagramSink) returns (error: Option<FragmentError>)
      requires maxPayload > 0 && sink.sent == []
      modifies sink
      ensures Fragmented(this, id, payload, sink, error)
    {
      var fragmenter := new Fragmenter(maxPayload);
      error := fragmenter.Fragment(sessionID, id, payload, sink);
    }

    /** Sends a packet over the path in use. A direct path that fails is given up and the packet is
        sent once more, under the next packet ID, by the relay if that takes datagrams. A packet
        too large to fragment counts as such a failure. */
    method SendUDP(payload: bytes, direct: DatagramSink, relayed: DatagramSink) returns (error: Option<SendError>)
      requires Valid() && direct != relayed && relayed.sent == []
      requires IsDirect(udpPath) ==> direct.sent == []
      modifies this`udpPath, this`punch, this`nextPacketID, this`pathChanged, this`closedChannels
      modifies punch, direct, relayed
      ensures Valid() && maxPayload > 0
      ensures !IsDirect(old(udpPath)) ==>
                && udpPath == old(udpPath) && punch == old(punch) && direct.sent == old(direct.sent)
                && pathChanged == old(pathChanged) && closedChannels == old(closedChannels)
                && SentWithoutDirect(udpPath, old(nextPacketID), payload, relayed, error)
      ensures IsDirect(old(udpPath)) && hasCodec && !Fits(|payload|, maxPayload) ==> udpPath == RelayPath(relay)
      ensures IsDirect(old(udpPath)) && old(DirectUsable()) && !hasCodec ==>
                error == Some(NoCodec) && udpPath == old(udpPath) && direct.sent == [] && relayed.sent == []
      ensures IsDirect(old(udpPath)) && (old(DirectUsable()) ==> hasCodec) ==>
                var id := Wrap32(old(nextPacketID) + 1);
                if udpPath == old(udpPath) then
                  && old(DirectUsable()) && error == None && relayed.sent == [] && nextPacketID == id
                  && Fragmented(this, id, payload, direct, None)
                else
                  && udpPath == RelayPath(relay) && punch == null && AllWoken()
                  && (if old(DirectUsable())
                      then exists e :: Fragmented(this, id, payload, direct, Some(e)) else direct.sent == [])
                  && SentWithoutDirect(udpPath, id, payload, relayed, error)
      decreases if IsDirect(udpPath) then 1 else 0
    {
      if udpPath.Disabled? {
        return Some(PathIsDisabled);
      }
      nextPacketID := Wrap32(nextPacketID + 1);
      if IsDirect(udpPath) {
        if punch == null || !punch.hasConn {
          FallbackUDPFromDirect();
          error := SendUDP(payload, direct, relayed);
          return;
        }
        if !hasCodec {
          return Some(NoCodec);
        }
        var failed := SendFragments(nextPacketID, payload, direct);
        if failed.Some? {
          FallbackUDPFromDirect();
          error := SendUDP(payload, direct, relayed);
          return;
        }
        return None;
      }
      if udpPath.Relay? {
        if relay.NoRelay? {
          return Some(NoRelayTransport);
        }
        var failed := SendFragments(nextPacketID, payload, relayed);
        return if failed.Some? then Some(SendFailed(failed.value)) else None;
      }
      return Some(NoValidPath);
    }

    /** What a send comes to that starts, or ends up, off the direct path. */
    ghost predicate SentWithoutDirect(
      path: PathType, lastID: uint32, payload: bytes, relayed: DatagramSink, error: Option<SendError>)
      requires maxPayload > 0
      reads this, relayed
    {
      var id := Wrap32(lastID + 1);
      match path
      case Disabled => error == Some(PathIsDisabled) && nextPacketID == lastID && relayed.sent == []
      case Relay =>
        && nextPacketID == id
        && (error.None? || error.value.SendFailed?)
        && Fragmented(this, id, payload, relayed, if error.None? then None else Some(error.value.error))
      case _ => error == Some(NoValidPath) && nextPacketID == id && relayed.sent == []
    }
  }
}
