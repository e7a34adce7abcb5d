/** Telling controllers' datagrams from those of public clients: internal/relay/agent.go, with the
    numbers of internal/signaling/server.go and internal/udp/session.go. */
module Routes {
  import opened Words
  import opened UDPFrame
  import opened SessionManager
  import opened SessionRuns
  import Signaling

  /** Where a datagram from the agent goes: to the transport of a controller, or, once its packet
      is whole, to the address of a public client. */
  datatype Destination = ToController(transport: nat) | ToClient(key: Key) | Nowhere

  function Demux(routes: map<uint32, nat>, sessions: map<uint32, Session>, id: uint32): Destination
  {
    if id in routes then ToController(routes[id])
    else if id in sessions then ToClient(sessions[id].key)
    else Nowhere
  }

  class AgentSession {
    var controllerRoutes: map<uint32, nat>

    constructor ()
      ensures controllerRoutes == map[]
    {
      controllerRoutes := map[];
    }

    method RegisterControllerRoute(id: uint32, transport: nat)
      modifies this
      ensures controllerRoutes == old(controllerRoutes)[id := transport]
    {
      controllerRoutes := controllerRoutes[id := transport];
    }

    /** A connection takes back only its own route. */
    method UnregisterControllerRoute(id: uint32, transport: nat)
      modifies this
      ensures controllerRoutes ==
              if id in old(controllerRoutes) && old(controllerRoutes)[id] == transport
              then old(controllerRoutes) - {id} else old(controllerRoutes)
    {
      if id in controllerRoutes && controllerRoutes[id] == transport {
        controllerRoutes := controllerRoutes - {id};
      }
    }

    /** The receive loop's decision on one datagram. */
    method Dispatch(datagram: bytes, sessions: map<uint32, Session>) returns (to: Destination)
      ensures match DecodeUDP(datagram)
              case Err(_) => to == Nowhere
              case Ok((h, _)) => to == Demux(controllerRoutes, sessions, h.sessionID)
    {
      var decoded := DecodeUDP(datagram);
      if decoded.Err? {
        return Nowhere;
      }
      var id := decoded.value.0.sessionID;
      if id in controllerRoutes {
        return ToController(controllerRoutes[id]);
      }
      if id in sessions {
        return ToClient(sessions[id].key);
      }
      return Nowhere;
    }
  }

  // ---------------------------------------------------------------- runs

  /** The relay registers routes under the coordinator's numbers and makes sessions by key only. */
  datatype Event =
    | Route(counter: uint32, transport: nat)
    | Unroute(id: uint32, transport: nat)
    | Client(deviceID: string, publicPort: uint16, addr: Addr, port: uint16, now: int, draws: seq<uint32>)
    | Remove(id: uint32)
    | Close

  datatype State = State(routes: map<uint32, nat>, sessions: Sessions)

  function Next(st: State, limits: Limits, e: Event): State
  {
    match e
    case Route(counter, transport) => st.(routes := st.routes[Signaling.Marked(counter) := transport])
    case Unroute(id, transport) =>
      if id in st.routes && st.routes[id] == transport then st.(routes := st.routes - {id}) else st
    case Client(deviceID, publicPort, addr, port, now, draws) =>
      st.(sessions := GetOrCreateStep(st.sessions, limits, Key(deviceID, publicPort, addr, port), now, draws).0)
    case Remove(id) => st.(sessions := RemoveStep(st.sessions, id))
    case Close => st.(sessions := CloseStep(st.sessions))
  }

  function Run(st: State, limits: Limits, events: seq<Event>): State
    decreases |events|
  {
    if events == [] then st else Run(Next(st, limits, events[0]), limits, events[1..])
  }

  /** The two kinds of numbers do not meet. */
  predicate Apart(st: State)
  {
    && (forall id :: id in st.routes ==> id >= TWO_31)
    && (forall id :: id in st.sessions.byID ==> 0 < id < TWO_31)
  }

  lemma NextKeepsApart(st: State, limits: Limits, e: Event)
    requires Apart(st)
    ensures Apart(Next(st, limits, e))
  {
    if e.Client? {
      FirstUsableIsUsable(AllowCreate(st.sessions, limits, e.now).0, e.draws);
    }
  }

  lemma {:induction false} RunKeepsApart(st: State, limits: Limits, events: seq<Event>)
    requires Apart(st)
    ensures Apart(Run(st, limits, events))
    decreases |events|
  {
    if events != [] {
      NextKeepsApart(st, limits, events[0]);
      RunKeepsApart(Next(st, limits, events[0]), limits, events[1..]);
    }
  }

  /** Whatever routes and clients come and go: a datagram under a coordinator's number never
      reaches a public client, even when its route is gone; one under the number of a live public
      session goes to that session's client, never to a controller. */
  lemma NoCrossDelivery(limits: Limits, events: seq<Event>, id: uint32)
    ensures var st := Run(State(map[], EMPTY), limits, events);
            var to := Demux(st.routes, st.sessions.byID, id);
            && (id >= TWO_31 ==> !to.ToClient?)
            && (id in st.sessions.byID ==> to == ToClient(st.sessions.byID[id].key))
            && (id < TWO_31 ==> !to.ToController?)
            && (id in st.routes ==> to == ToController(st.routes[id]))
            && (id !in st.routes && id !in st.sessions.byID ==> to == Nowhere)
  {
    RunKeepsApart(State(map[], EMPTY), limits, events);
  }

  // ---------------------------------------------------------------- which controller

  /** A connection registers itself under that number. */
  predicate RoutesTo(e: Event, id: uint32, transport: nat)
  {
    e.Route? && Signaling.Marked(e.counter) == id && e.transport == transport
  }

  /** Another connection takes the number over, or that one gives it up. */
  predicate Reroutes(e: Event, id: uint32, transport: nat)
  {
    match e
    case Route(counter, other) => Signaling.Marked(counter) == id && other != transport
    case Unroute(number, gone) => number == id && gone == transport
    case _ => false
  }

  predicate KeepsRoute(events: seq<Event>, i: nat, id: uint32, transport: nat)
  {
    forall j :: i <= j < |events| ==> !Reroutes(events[j], id, transport)
  }

  predicate RoutedBy(events: seq<Event>, i: nat, id: uint32, transport: nat)
  {
    i < |events| && RoutesTo(events[i], id, transport) && KeepsRoute(events, i, id, transport)
  }

  lemma KeepsRouteOn(events: seq<Event>, i: nat, id: uint32, transport: nat)
    requires events != []
    ensures KeepsRoute(events, i + 1, id, transport) <==> KeepsRoute(events[1..], i, id, transport)
    ensures RoutedBy(events, i + 1, id, transport) <==> RoutedBy(events[1..], i, id, transport)
    ensures KeepsRoute(events, 0, id, transport) <==>
            !Reroutes(events[0], id, transport) && KeepsRoute(events[1..], 0, id, transport)
  {
    assert forall j :: 0 <= j < |events| - 1 ==> events[1..][j] == events[j + 1];
    if KeepsRoute(events[1..], i, id, transport) {
      forall j | i + 1 <= j < |events|
        ensures !Reroutes(events[j], id, transport)
      {
        assert events[1..][j - 1] == events[j];
      }
    }
    if KeepsRoute(events[1..], 0, id, transport) && !Reroutes(events[0], id, transport) {
      forall j | 0 <= j < |events|
        ensures !Reroutes(events[j], id, transport)
      {
        assert j > 0 ==> events[1..][j - 1] == events[j];
      }
    }
  }

  lemma {:induction false} RoutedAfter(
    st: State, limits: Limits, events: seq<Event>, id: uint32, transport: nat)
    ensures var routes := Run(st, limits, events).routes;
            (id in routes && routes[id] == transport) <==>
            || (exists i: nat :: RoutedBy(events, i, id, transport))
            || (id in st.routes && st.routes[id] == transport && KeepsRoute(events, 0, id, transport))
    decreases |events|
  {
    if events != [] {
      var next := Next(st, limits, events[0]);
      RoutedAfter(next, limits, events[1..], id, transport);
      KeepsRouteOn(events, 0, id, transport);
      if i: nat :| RoutedBy(events[1..], i, id, transport) {
        KeepsRouteOn(events, i, id, transport);
      }
      if i: nat :| RoutedBy(events, i, id, transport) {
        if i > 0 {
          KeepsRouteOn(events, i - 1, id, transport);
          assert RoutedBy(events[1..], i - 1, id, transport);
        }
      }
      if RoutesTo(events[0], id, transport) && KeepsRoute(events, 0, id, transport) {
        assert RoutedBy(events, 0, id, transport);
      }
    }
  }

  /** In every run a datagram goes to a controller's connection exactly if that connection
      registered the datagram's number and has not given it up since, nor has another taken it. */
  lemma RoutedExactly(limits: Limits, events: seq<Event>, id: uint32, transport: nat)
    ensures var st := Run(State(map[], EMPTY), limits, events);
            Demux(st.routes, st.sessions.byID, id) == ToController(transport) <==>
            exists i: nat :: RoutedBy(events, i, id, transport)
  {
    RoutedAfter(State(map[], EMPTY), limits, events, id, transport);
  }
}
