/** Public ports and the devices that own them: internal/relay/port_manager.go. */
module PortManager {
  import opened Words

  /** A row of the agent table, as the preload sees it. */
  datatype AgentRow = AgentRow(deviceID: string, publicPort: uint16)

  datatype PortError = InvalidRange | NoAvailablePort

  datatype Ports = Ports(start: uint16, end: uint16, byDevice: map<string, uint16>, byPort: map<uint16, string>)

  predicate InRange(p: Ports, port: int)
  {
    p.start <= port <= p.end
  }

  /** A legal range, every port in it, and the two maps each other's inverse. */
  predicate Matched(p: Ports)
  {
    && 0 < p.start <= p.end
    && (forall d :: d in p.byDevice ==>
          InRange(p, p.byDevice[d]) && p.byDevice[d] in p.byPort && p.byPort[p.byDevice[d]] == d)
    && (forall port :: port in p.byPort ==> p.byPort[port] in p.byDevice && p.byDevice[p.byPort[port]] == port)
  }

  function Lowest(byPort: map<uint16, string>, from: nat, end: uint16): (port: Option<uint16>)
    decreases end + 1 - from
  {
    if from > end then None else if from !in byPort then Some(from) else Lowest(byPort, from + 1, end)
  }

  /** The search finds the lowest free port of the range, and fails exactly when all are taken. */
  lemma {:induction false} LowestIsLowest(byPort: map<uint16, string>, from: nat, end: uint16)
    ensures var found := Lowest(byPort, from, end);
            match found
            case Some(port) =>
              from <= port <= end && port !in byPort && forall q: uint16 :: from <= q < port ==> q in byPort
            case None => forall q: uint16 :: from <= q <= end ==> q in byPort
    decreases end + 1 - from
  {
    if from <= end && from in byPort {
      LowestIsLowest(byPort, from + 1, end);
    }
  }

  function AllocateStep(p: Ports, device: string): (Ports, Result<uint16, PortError>)
  {
    if device in p.byDevice then (p, Ok(p.byDevice[device]))
    else
      match Lowest(p.byPort, p.start, p.end)
      case None => (p, Err(NoAvailablePort))
      case Some(port) =>
        (p.(byDevice := p.byDevice[device := port], byPort := p.byPort[port := device]), Ok(port))
  }

  function ReleaseStep(p: Ports, device: string): Ports
  {
    if device in p.byDevice then
      p.(byDevice := p.byDevice - {device}, byPort := p.byPort - {p.byDevice[device]})
    else p
  }

  // ---------------------------------------------------------------- taking over the stored ports

  function LoadRow(p: Ports, row: AgentRow): Ports
  {
    if InRange(p, row.publicPort) then
      p.(byDevice := p.byDevice[row.deviceID := row.publicPort], byPort := p.byPort[row.publicPort := row.deviceID])
    else p
  }

  function Loaded(start: uint16, end: uint16, rows: seq<AgentRow>): (p: Ports)
    ensures p.start == start && p.end == end
  {
    if rows == [] then Ports(start, end, map[], map[])
    else LoadRow(Loaded(start, end, rows[..|rows| - 1]), rows[|rows| - 1])
  }

  /** Rows of one table: each device once. */
  predicate OneRowEach(rows: seq<AgentRow>)
  {
    forall i, j :: 0 <= i < j < |rows| ==> rows[i].deviceID != rows[j].deviceID
  }

  predicate DistinctInRange(p: Ports, rows: seq<AgentRow>)
  {
    forall i, j :: 0 <= i < j < |rows| && InRange(p, rows[i].publicPort) ==> rows[i].publicPort != rows[j].publicPort
  }

  lemma {:induction false} LoadedDevices(start: uint16, end: uint16, rows: seq<AgentRow>)
    requires OneRowEach(rows)
    ensures var p := Loaded(start, end, rows);
            && (forall i :: 0 <= i < |rows| && InRange(p, rows[i].publicPort) ==>
                  rows[i].deviceID in p.byDevice && p.byDevice[rows[i].deviceID] == rows[i].publicPort)
            && (forall d :: d in p.byDevice ==> InRange(p, p.byDevice[d]) && AgentRow(d, p.byDevice[d]) in rows)
  {
    if rows != [] {
      var n := |rows| - 1;
      LoadedDevices(start, end, rows[..n]);
      forall i | 0 <= i < n
        ensures rows[i].deviceID != rows[n].deviceID && rows[i] == rows[..n][i]
      {
      }
    }
  }

  predicate PortFromRows(p: Ports, rows: seq<AgentRow>, port: uint16)
  {
    port in p.byPort ==> InRange(p, port) && exists i :: 0 <= i < |rows| && rows[i] == AgentRow(p.byPort[port], port)
  }

  lemma {:induction false} LoadedPorts(start: uint16, end: uint16, rows: seq<AgentRow>, port: uint16)
    ensures PortFromRows(Loaded(start, end, rows), rows, port)
  {
    if rows != [] {
      var n := |rows| - 1;
      LoadedPorts(start, end, rows[..n], port);
      var before := Loaded(start, end, rows[..n]);
      if port in before.byPort {
        var i :| 0 <= i < n && rows[..n][i] == AgentRow(before.byPort[port], port);
        assert rows[i] == AgentRow(before.byPort[port], port);
      }
    }
  }

  lemma {:induction false} DistinctRowsMatch(start: uint16, end: uint16, rows: seq<AgentRow>)
    requires 0 < start <= end && OneRowEach(rows) && DistinctInRange(Loaded(start, end, rows), rows)
    ensures Matched(Loaded(start, end, rows))
  {
    if rows != [] {
      var n := |rows| - 1;
      var before := Loaded(start, end, rows[..n]);
      DistinctRowsMatch(start, end, rows[..n]);
      if InRange(before, rows[n].publicPort) {
        NewRowIsFresh(start, end, rows);
        AddingKeepsMatched(before, rows[n].deviceID, rows[n].publicPort);
      }
    }
  }

  lemma NewRowIsFresh(start: uint16, end: uint16, rows: seq<AgentRow>)
    requires rows != [] && OneRowEach(rows) && DistinctInRange(Loaded(start, end, rows), rows)
    requires start <= rows[|rows| - 1].publicPort <= end
    ensures var (n, before) := (|rows| - 1, Loaded(start, end, rows[..|rows| - 1]));
            rows[n].deviceID !in before.byDevice && rows[n].publicPort !in before.byPort
  {
    var n := |rows| - 1;
    LoadedDevices(start, end, rows[..n]);
    LoadedPorts(start, end, rows[..n], rows[n].publicPort);
    forall i | 0 <= i < n
      ensures rows[..n][i] == rows[i] && rows[i].deviceID != rows[n].deviceID
    {
    }
  }

  lemma AddingKeepsMatched(p: Ports, device: string, port: uint16)
    requires Matched(p) && InRange(p, port) && device !in p.byDevice && port !in p.byPort
    ensures Matched(p.(byDevice := p.byDevice[device := port], byPort := p.byPort[port := device]))
  {
  }

  /** The maps taken over from the table are each other's inverse exactly when no two devices in
      it claim the same port of the range. */
  lemma PreloadMatches(start: uint16, end: uint16, rows: seq<AgentRow>)
    requires 0 < start <= end && OneRowEach(rows)
    ensures Matched(Loaded(start, end, rows)) <==> DistinctInRange(Loaded(start, end, rows), rows)
  {
    var p := Loaded(start, end, rows);
    if Matched(p) {
      LoadedDevices(start, end, rows);
    } else if DistinctInRange(p, rows) {
      DistinctRowsMatch(start, end, rows);
    }
  }

  // ---------------------------------------------------------------- the manager

  class Manager {
    const startPort: uint16
    const endPort: uint16
    var deviceToPort: map<string, uint16>
    var portToDevice: map<uint16, string>

    function State(): Ports
      reads this
    {
      Ports(startPort, endPort, deviceToPort, portToDevice)
    }

    constructor Load(startPort: uint16, endPort: uint16, rows: seq<AgentRow>)
      ensures State() == Loaded(startPort, endPort, rows)
    {
      this.startPort, this.endPort := startPort, endPort;
      deviceToPort, portToDevice := map[], map[];
      new;
      for i := 0 to |rows|
        invariant State() == Loaded(startPort, endPort, rows[..i])
      {
        assert rows[..i + 1][..i] == rows[..i];
        if rows[i].publicPort >= startPort && rows[i].publicPort <= endPort {
          deviceToPort := deviceToPort[rows[i].deviceID := rows[i].publicPort];
          portToDevice := portToDevice[rows[i].publicPort := rows[i].deviceID];
        }
      }
      assert rows[..|rows|] == rows;
    }

    method GetOrAllocatePort(deviceID: string) returns (result: Result<uint16, PortError>)
      modifies this
      ensures (State(), result) == AllocateStep(old(State()), deviceID)
    {
      if deviceID in deviceToPort {
        return Ok(deviceToPort[deviceID]);
      }
      var p: nat := startPort;
      while p <= endPort
        invariant State() == old(State()) && (p == startPort || p <= endPort + 1)
        invariant Lowest(portToDevice, startPort, endPort) == Lowest(portToDevice, p, endPort)
        decreases endPort + 1 - p
      {
        if p !in portToDevice {
          deviceToPort := deviceToPort[deviceID := p];
          portToDevice := portToDevice[p := deviceID];
          return Ok(p);
        }
        p := p + 1;
      }
      return Err(NoAvailablePort);
    }

    method ReleasePort(deviceID: string)
      modifies this
      ensures State() == ReleaseStep(old(State()), deviceID)
    {
      if deviceID in deviceToPort {
        var port := deviceToPort[deviceID];
        deviceToPort := deviceToPort - {deviceID};
        portToDevice := portToDevice - {port};
      }
    }
  }

  /** Refuses an impossible range and otherwise takes over the stored ports. */
  method NewPortManager(startPort: uint16, endPort: uint16, rows: seq<AgentRow>)
    returns (result: Result<Manager, PortError>)
    ensures result.Err? <==> startPort > endPort || startPort == 0
    ensures result.Ok? ==> fresh(result.value) && result.value.State() == Loaded(startPort, endPort, rows)
  {
    if startPort > endPort || startPort == 0 {
      return Err(InvalidRange);
    }
    var m := new Manager.Load(startPort, endPort, rows);
    return Ok(m);
  }
}
