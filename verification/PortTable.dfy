/** Port assignments in memory and in the agent table, through registrations, deletions and
    restarts: internal/relay/port_manager.go, internal/relay/agent_manager.go,
    internal/storage/sqlite.go, internal/web/server.go. */
module PortTable {
  import opened Words
  import opened PortManager

  /** The ports of the agent table by device; 0 when a row has none. */
  type Table = map<string, uint16>

  datatype State = State(ports: Ports, table: Table)

  // ---------------------------------------------------------------- the steps, each on its own

  function Allocated(st: State, device: string): (State, Result<uint16, PortError>)
  {
    var (ports, result) := AllocateStep(st.ports, device);
    (st.(ports := ports), result)
  }

  /** CreateAgentWithEnrollment: an existing row keeps a port it has. */
  function Created(st: State, device: string, port: uint16): State
  {
    st.(table := st.table[device := if device in st.table && st.table[device] > 0 then st.table[device] else port])
  }

  /** UpdateAgentRegistration: changes a row only if there is one. */
  function Updated(st: State, device: string, port: uint16): State
  {
    if device in st.table then st.(table := st.table[device := port]) else st
  }

  function RowDeleted(st: State, device: string): State
  {
    st.(table := st.table - {device})
  }

  function PortReleased(st: State, device: string): State
  {
    st.(ports := ReleaseStep(st.ports, device))
  }

  /** The table in the order in which the rows are read. */
  ghost predicate RowsOf(table: Table, rows: seq<AgentRow>)
  {
    && OneRowEach(rows)
    && (forall i :: 0 <= i < |rows| ==> rows[i].deviceID in table && table[rows[i].deviceID] == rows[i].publicPort)
    && (forall d :: d in table ==> AgentRow(d, table[d]) in rows)
  }

  // ---------------------------------------------------------------- the invariant

  predicate DistinctPorts(table: Table)
  {
    forall d, e :: d in table && e in table && d != e && table[d] > 0 ==> table[d] != table[e]
  }

  /** A stored port of the range is the one its device holds. */
  predicate RowsHeld(st: State)
  {
    forall d :: d in st.table && InRange(st.ports, st.table[d]) ==>
      d in st.ports.byDevice && st.ports.byDevice[d] == st.table[d]
  }

  predicate Inv(st: State)
  {
    Matched(st.ports) && DistinctPorts(st.table) && RowsHeld(st)
  }

  // ---------------------------------------------------------------- what each step keeps

  lemma AllocateKeeps(st: State, device: string)
    requires Inv(st)
    ensures Inv(Allocated(st, device).0)
    ensures var (after, result) := Allocated(st, device);
            match result
            case Ok(port) =>
              device in after.ports.byDevice && after.ports.byDevice[device] == port && InRange(st.ports, port)
            case Err(_) => after == st && forall q: uint16 :: InRange(st.ports, q) ==> q in st.ports.byPort
  {
    LowestIsLowest(st.ports.byPort, st.ports.start, st.ports.end);
  }

  /** A new device gets the lowest port nobody holds. */
  lemma AllocationIsLowest(st: State, device: string, q: uint16)
    requires Inv(st) && device !in st.ports.byDevice && InRange(st.ports, q) && q !in st.ports.byPort
    ensures var (_, result) := Allocated(st, device);
            result.Ok? && result.value <= q && result.value !in st.ports.byPort
            && forall d :: d in st.table ==> st.table[d] != result.value
  {
    LowestIsLowest(st.ports.byPort, st.ports.start, st.ports.end);
  }

  /** Storing the port of a new device, or none, is right exactly if there is none, the device still
      holds it, or it had one stored before. */
  lemma CreateKeepsExactly(st: State, device: string, port: uint16)
    requires Inv(st) && (port == 0 || InRange(st.ports, port))
    ensures Inv(Created(st, device, port)) <==>
            || port == 0
            || (device in st.table && st.table[device] > 0)
            || (device in st.ports.byDevice && st.ports.byDevice[device] == port)
  {
    var t := Created(st, device, port);
    if device in st.table && st.table[device] > 0 {
      assert t.table == st.table;
    } else {
      assert t.table[device] == port;
      assert forall e :: e in st.table ==> e in t.table && (e != device ==> t.table[e] == st.table[e]);
    }
  }

  /** And of a known one exactly if the device still holds it, or its row is gone. */
  lemma UpdateKeepsExactly(st: State, device: string, port: uint16)
    requires Inv(st) && InRange(st.ports, port)
    ensures Inv(Updated(st, device, port)) <==>
            || device !in st.table
            || (device in st.ports.byDevice && st.ports.byDevice[device] == port)
  {
    if device in st.table {
      assert Updated(st, device, port).table[device] == port;
    }
  }

  lemma RowDeletedKeeps(st: State, device: string)
    requires Inv(st)
    ensures Inv(RowDeleted(st, device))
  {
  }

  /** Giving a port back is right exactly if no row of the table still has it. */
  lemma ReleaseKeepsExactly(st: State, device: string)
    requires Inv(st)
    ensures Inv(PortReleased(st, device)) <==> !(device in st.table && InRange(st.ports, st.table[device]))
  {
    var t := PortReleased(st, device);
    if device in st.ports.byDevice {
      ReleaseKeepsMatched(st.ports, device);
      assert forall d :: d in st.table && d != device && d in st.ports.byDevice ==> d in t.ports.byDevice;
    }
    assert device !in t.ports.byDevice;
  }

  lemma ReleaseKeepsMatched(p: Ports, device: string)
    requires Matched(p)
    ensures Matched(ReleaseStep(p, device))
  {
  }

  lemma RestartKeeps(st: State, rows: seq<AgentRow>, start: uint16, end: uint16)
    requires Inv(st) && RowsOf(st.table, rows) && 0 < start <= end
    ensures Inv(State(Loaded(start, end, rows), st.table))
  {
    var p := Loaded(start, end, rows);
    assert DistinctInRange(p, rows);
    PreloadMatches(start, end, rows);
    LoadedDevices(start, end, rows);
    forall d | d in st.table && InRange(p, st.table[d])
      ensures d in p.byDevice && p.byDevice[d] == st.table[d]
    {
      var i :| 0 <= i < |rows| && rows[i] == AgentRow(d, st.table[d]);
    }
  }

  // ---------------------------------------------------------------- runs of whole operations

  datatype Event =
    | Enroll(device: string)
    | Refused(device: string)
    | EnrollController(device: string)
    | Reregister(device: string)
    | Delete(device: string)
    | Restart(start: uint16, end: uint16, rows: seq<AgentRow>)

  ghost predicate Possible(st: State, e: Event)
  {
    e.Restart? ==> RowsOf(st.table, e.rows)
  }

  /** Registration stores what it was assigned, unless the database refuses it after that; a
      controller is enrolled without a port; deletion removes the row and then the port; a restart
      with an impossible range does not come up, and the old state is kept. */
  function Next(st: State, e: Event): State
  {
    match e
    case Enroll(d) => var (t, r) := Allocated(st, d); if r.Ok? then Created(t, d, r.value) else t
    case Refused(d) => Allocated(st, d).0
    case EnrollController(d) => Created(st, d, 0)
    case Reregister(d) => var (t, r) := Allocated(st, d); if r.Ok? then Updated(t, d, r.value) else t
    case Delete(d) => PortReleased(RowDeleted(st, d), d)
    case Restart(start, end, rows) => if 0 < start <= end then State(Loaded(start, end, rows), st.table) else st
  }

  lemma NextKeeps(st: State, e: Event)
    requires Inv(st) && Possible(st, e)
    ensures Inv(Next(st, e))
  {
    match e {
      case Enroll(d) =>
        AllocateKeeps(st, d);
        var (t, r) := Allocated(st, d);
        if r.Ok? {
          CreateKeepsExactly(t, d, r.value);
        }
      case Refused(d) => AllocateKeeps(st, d);
      case EnrollController(d) => CreateKeepsExactly(st, d, 0);
      case Reregister(d) =>
        AllocateKeeps(st, d);
        var (t, r) := Allocated(st, d);
        if r.Ok? {
          UpdateKeepsExactly(t, d, r.value);
        }
      case Delete(d) =>
        RowDeletedKeeps(st, d);
        ReleaseKeepsExactly(RowDeleted(st, d), d);
      case Restart(start, end, rows) =>
        if 0 < start <= end {
          RestartKeeps(st, rows, start, end);
        }
    }
  }

  ghost predicate Leads(st: State, events: seq<Event>, t: State)
    decreases |events|
  {
    if events == [] then st == t else Possible(st, events[0]) && Leads(Next(st, events[0]), events[1..], t)
  }

  /** Over whole runs no two devices ever have the same stored port, and every stored port of the
      range is held by its device and nobody else. */
  lemma {:induction false} PortsStayDistinct(st: State, events: seq<Event>, t: State)
    requires Inv(st) && Leads(st, events, t)
    ensures Matched(t.ports) && DistinctPorts(t.table) && RowsHeld(t)
    decreases |events|
  {
    if events != [] {
      NextKeeps(st, events[0]);
      PortsStayDistinct(Next(st, events[0]), events[1..], t);
    }
  }

  /** The event leaves the device alone, and the range it has its port in. */
  predicate Spares(e: Event, device: string, port: uint16)
  {
    && e != Delete(device)
    && (e.Restart? && 0 < e.start <= e.end ==> e.start <= port <= e.end)
  }

  lemma StoredPortKept(st: State, e: Event, device: string)
    requires Inv(st) && Possible(st, e) && device in st.table && InRange(st.ports, st.table[device])
    requires Spares(e, device, st.table[device])
    ensures var t := Next(st, e);
            device in t.table && t.table[device] == st.table[device] && InRange(t.ports, st.table[device])
  {
  }

  /** A device keeps its stored port, and is given it again on every registration, until it is
      deleted; restarts make no difference. */
  lemma {:induction false} PortSurvives(st: State, events: seq<Event>, t: State, device: string)
    requires Inv(st) && Leads(st, events, t) && device in st.table && InRange(st.ports, st.table[device])
    requires forall i :: 0 <= i < |events| ==> Spares(events[i], device, st.table[device])
    ensures device in t.table && t.table[device] == st.table[device]
    ensures Allocated(t, device).1 == Ok(st.table[device])
    decreases |events|
  {
    if events != [] {
      assert Spares(events[0], device, st.table[device]);
      NextKeeps(st, events[0]);
      StoredPortKept(st, events[0], device);
      PortSurvives(Next(st, events[0]), events[1..], t, device);
    }
  }

  /** A registration that was refused keeps its port from others without having a row. Only a
      restart, or a deletion, frees it. */
  lemma RefusedHoldsItsPort(st: State, e: Event, device: string)
    requires Inv(st) && Possible(st, e) && device !in st.table && device in st.ports.byDevice
    requires e != Enroll(device) && e != EnrollController(device)
    ensures device in Next(st, e).ports.byDevice <==> e != Delete(device) && !(e.Restart? && 0 < e.start <= e.end)
    ensures device !in Next(st, e).table
  {
    if e.Restart? && 0 < e.start <= e.end {
      LoadedDevices(e.start, e.end, e.rows);
    }
  }

  // ---------------------------------------------------------------- what one operation changes

  predicate Registers(e: Event, device: string)
  {
    e == Enroll(device) || e == Refused(device) || e == Reregister(device)
  }

  predicate IsFree(p: Ports, port: uint16)
  {
    InRange(p, port) && forall d :: d in p.byDevice ==> p.byDevice[d] != port
  }

  lemma AllocatesIfFree(p: Ports, device: string)
    requires Matched(p)
    ensures var (t, r) := AllocateStep(p, device);
            && (r.Ok? <==> device in p.byDevice || exists q: uint16 :: IsFree(p, q))
            && (r.Ok? ==> device in t.byDevice && t.byDevice[device] == r.value)
            && (r.Ok? && device !in p.byDevice ==> IsFree(p, r.value))
            && (r.Err? ==> t == p)
            && (forall d :: d != device ==>
                  (d in t.byDevice <==> d in p.byDevice) && (d in p.byDevice ==> t.byDevice[d] == p.byDevice[d]))
  {
    LowestIsLowest(p.byPort, p.start, p.end);
    var r := AllocateStep(p, device).1;
    if r.Err? {
      forall q: uint16 | InRange(p, q)
        ensures !IsFree(p, q)
      {
        assert p.byDevice[p.byPort[q]] == q;
      }
    } else if device !in p.byDevice {
      assert IsFree(p, r.value);
    }
  }

  /** A device holds a port after an operation exactly if it held it before and was not deleted, or
      it registered while one was free; a restart leaves exactly the stored ports of the range. */
  lemma HeldExactly(st: State, e: Event, device: string)
    requires Inv(st) && Possible(st, e)
    ensures var t := Next(st, e).ports;
            if e.Restart? && 0 < e.start <= e.end then
              device in t.byDevice <==> device in st.table && e.start <= st.table[device] <= e.end
            else
              && (device in t.byDevice <==>
                    && e != Delete(device)
                    && (device in st.ports.byDevice
                        || (Registers(e, device) && exists q: uint16 :: IsFree(st.ports, q))))
              && (device in t.byDevice && device in st.ports.byDevice ==>
                    t.byDevice[device] == st.ports.byDevice[device])
  {
    match e {
      case Enroll(d) => AllocatesIfFree(st.ports, d);
      case Refused(d) => AllocatesIfFree(st.ports, d);
      case Reregister(d) => AllocatesIfFree(st.ports, d);
      case Restart(start, end, rows) =>
        if 0 < start <= end {
          LoadedFromTable(start, end, rows, st.table, device);
        }
      case _ =>
    }
  }

  lemma LoadedFromTable(start: uint16, end: uint16, rows: seq<AgentRow>, table: Table, device: string)
    requires RowsOf(table, rows)
    ensures device in Loaded(start, end, rows).byDevice <==> device in table && start <= table[device] <= end
  {
    LoadedDevices(start, end, rows);
    if device in table {
      var i :| 0 <= i < |rows| && rows[i] == AgentRow(device, table[device]);
    }
  }

  /** A device has a row after an operation exactly if it had one and was not deleted, or it was
      enrolled, as an agent only if it got a port. An enrollment stores the port the device holds,
      unless one is stored already; a registration of a known device stores it in any case. */
  lemma StoredExactly(st: State, e: Event, device: string)
    requires Inv(st) && Possible(st, e)
    ensures var (before, t) := (st.table, Next(st, e));
            && (device in t.table <==>
                  && e != Delete(device)
                  && (device in before
                      || e == EnrollController(device)
                      || (e == Enroll(device) && device in t.ports.byDevice)))
            && (device in t.table ==>
                  t.table[device] ==
                  if device in t.ports.byDevice
                     && (e == Reregister(device) || (e == Enroll(device) && (device in before ==> before[device] == 0)))
                  then t.ports.byDevice[device]
                  else if device in before then before[device] else 0)
  {
    match e {
      case Enroll(d) => AllocatesIfFree(st.ports, d);
      case Refused(d) => AllocatesIfFree(st.ports, d);
      case Reregister(d) => AllocatesIfFree(st.ports, d);
      case _ =>
    }
  }

  // ---------------------------------------------------------------- operations that overlap

  /** The steps of a registration and a deletion are not one transaction. If a device that is
      enrolling is deleted between its port being assigned and being stored, another device can
      be given the port, and both end up with it. */
  lemma OverlapCanShareAPort(start: uint16, end: uint16, first: string, second: string)
    returns (st: State, port: uint16)
    requires 0 < start <= end && first != second
    ensures var t0 := State(Ports(start, end, map[], map[]), map[]);
            var (t1, taken) := Allocated(t0, first);
            var t2 := PortReleased(RowDeleted(t1, first), first);
            var (t3, given) := Allocated(t2, second);
            && Inv(t0) && taken == Ok(port) && given == Ok(port)
            && st == Created(Created(t3, second, port), first, port)
    ensures first in st.table && second in st.table && st.table[first] == st.table[second] == port
    ensures !DistinctPorts(st.table)
  {
    var t0 := State(Ports(start, end, map[], map[]), map[]);
    var t1 := Allocated(t0, first).0;
    var t2 := PortReleased(RowDeleted(t1, first), first);
    assert t1.ports == Ports(start, end, map[first := start], map[start := first]);
    assert t2 == t0;
    port := start;
    st := Created(Created(Allocated(t2, second).0, second, port), first, port);
  }
}
