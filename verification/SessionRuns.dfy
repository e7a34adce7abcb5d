/** What holds of the UDP session tables after every operation. */
module SessionRuns {
  import opened Words
  import opened FixedWindow
  import opened SessionManager

  // ---------------------------------------------------------------- the invariant

  /** The key index is exactly the keyed sessions of the number index. */
  predicate IndexAgrees(s: Sessions)
  {
    && (forall k :: k in s.byKey ==> s.byKey[k] in s.byID && s.byID[s.byKey[k]].key == k)
    && (forall id :: id in s.byID && s.byID[id].key != NO_KEY ==>
          s.byID[id].key in s.byKey && s.byKey[s.byID[id].key] == id)
  }

  function Live(byID: map<uint32, Session>, ip: Addr): set<uint32>
  {
    set id | id in byID && IPOf(byID[id].key) == ip
  }

  /** The counters are the numbers of live sessions by address, and absent when zero. */
  ghost predicate Counted(s: Sessions)
  {
    && (forall ip: Addr :: !ip.NoAddr? ==> CountOf(s.perIP, ip) == |Live(s.byID, ip)|)
    && (forall ip :: ip in s.perIP ==> !ip.NoAddr? && s.perIP[ip] > 0)
  }

  predicate Bounded(s: Sessions, limits: Limits)
  {
    && |s.byID| <= limits.maxSessions
    && (forall ip :: ip in s.perIP ==> s.perIP[ip] <= limits.maxPerIP)
    && (s.closed ==> s.byID == map[] && s.byKey == map[] && s.perIP == map[])
  }

  /** Every session there ever was is either live or ended, not both. */
  ghost predicate EndedOnce(s: Sessions)
  {
    && (forall id :: id in s.byID ==> s.byID[id].serial < s.created && s.byID[id].serial !in s.ended)
    && (forall i, j :: i in s.byID && j in s.byID && i != j ==> s.byID[i].serial != s.byID[j].serial)
    && (forall n :: n in s.ended ==> n < s.created)
    && (forall n :: 0 <= n < s.created && n !in s.ended ==> n in Serials(s.byID))
  }

  /** Sessions made for a key have numbers without the high bit. */
  predicate Numbered(s: Sessions)
  {
    forall id :: id in s.byID ==> id != 0 && (s.byID[id].key != NO_KEY ==> id < TWO_31)
  }

  ghost predicate Inv(s: Sessions, limits: Limits)
  {
    IndexAgrees(s) && Counted(s) && Bounded(s, limits) && EndedOnce(s) && Numbered(s)
  }

  // ---------------------------------------------------------------- each operation keeps it

  lemma {:induction false} FirstUsableIsUsable(s: Sessions, draws: seq<uint32>)
    ensures var id := FirstUsable(s, draws);
            id.Some? ==> 0 < id.value < TWO_31 && id.value !in s.byID
  {
    if draws != [] {
      FirstUsableIsUsable(s, draws[1..]);
    }
  }

  predicate SameTables(s: Sessions, t: Sessions)
  {
    t == s.(windowStart := t.windowStart, windowCount := t.windowCount)
  }

  lemma RateKeeps(s: Sessions, t: Sessions, limits: Limits)
    requires Inv(s, limits) && SameTables(s, t)
    ensures Inv(t, limits)
  {
  }

  lemma AddedLive(byID: map<uint32, Session>, id: uint32, session: Session, ip: Addr)
    requires id !in byID
    ensures |Live(byID[id := session], ip)| == |Live(byID, ip)| + if IPOf(session.key) == ip then 1 else 0
  {
    var after := byID[id := session];
    if IPOf(session.key) == ip {
      assert Live(after, ip) == Live(byID, ip) + {id};
    } else {
      assert Live(after, ip) == Live(byID, ip);
    }
  }

  lemma RemovedLive(byID: map<uint32, Session>, id: uint32, ip: Addr)
    requires id in byID
    ensures |Live(byID - {id}, ip)| == |Live(byID, ip)| - if IPOf(byID[id].key) == ip then 1 else 0
  {
    if IPOf(byID[id].key) == ip {
      assert Live(byID - {id}, ip) == Live(byID, ip) - {id};
    } else {
      assert Live(byID - {id}, ip) == Live(byID, ip);
    }
  }

  lemma InsertKeepsIndex(s: Sessions, id: uint32, key: Key)
    requires IndexAgrees(s) && id !in s.byID && key !in s.byKey
    ensures IndexAgrees(Inserted(s, id, key))
  {
  }

  lemma InsertKeepsCounts(s: Sessions, id: uint32, key: Key)
    requires Counted(s) && id !in s.byID
    ensures Counted(Inserted(s, id, key))
  {
    var t := Inserted(s, id, key);
    forall ip: Addr | !ip.NoAddr?
      ensures CountOf(t.perIP, ip) == |Live(t.byID, ip)|
    {
      AddedLive(s.byID, id, Session(s.created, key), ip);
      assert CountOf(s.perIP, ip) == |Live(s.byID, ip)|;
    }
  }

  /** Adding a session with the next serial number. */
  lemma AddingKeepsEnds(s: Sessions, t: Sessions, id: uint32, session: Session)
    requires EndedOnce(s) && id !in s.byID && session.serial == s.created
    requires t.byID == s.byID[id := session] && t.created == s.created + 1 && t.ended == s.ended
    ensures EndedOnce(t)
  {
    forall n | 0 <= n < t.created && n !in t.ended
      ensures n in Serials(t.byID)
    {
      if n == s.created {
        assert t.byID[id].serial == n;
      } else {
        var i :| i in s.byID && s.byID[i].serial == n;
        assert t.byID[i].serial == n;
      }
    }
  }

  lemma InsertKeepsBounds(s: Sessions, limits: Limits, id: uint32, key: Key)
    requires Bounded(s, limits) && Numbered(s) && id !in s.byID && 0 < id < TWO_31 && !s.closed
    requires |s.byID| < limits.maxSessions && (!IPOf(key).NoAddr? ==> CountOf(s.perIP, IPOf(key)) < limits.maxPerIP)
    ensures Bounded(Inserted(s, id, key), limits) && Numbered(Inserted(s, id, key))
  {
    assert |Inserted(s, id, key).byID| == |s.byID| + 1;
  }

  lemma InsertKeeps(s: Sessions, limits: Limits, id: uint32, key: Key)
    requires Inv(s, limits) && id !in s.byID && 0 < id < TWO_31 && key !in s.byKey && !s.closed
    requires |s.byID| < limits.maxSessions && (!IPOf(key).NoAddr? ==> CountOf(s.perIP, IPOf(key)) < limits.maxPerIP)
    ensures Inv(Inserted(s, id, key), limits)
  {
    InsertKeepsIndex(s, id, key);
    InsertKeepsCounts(s, id, key);
    InsertKeepsBounds(s, limits, id, key);
    AddingKeepsEnds(s, Inserted(s, id, key), id, Session(s.created, key));
  }

  lemma GetOrCreateKeeps(s: Sessions, limits: Limits, key: Key, now: int, draws: seq<uint32>)
    requires Inv(s, limits)
    ensures Inv(GetOrCreateStep(s, limits, key, now, draws).0, limits)
  {
    var (t, _) := AllowCreate(s, limits, now);
    RateKeeps(s, t, limits);
    FirstUsableIsUsable(t, draws);
    var (after, outcome) := GetOrCreateStep(s, limits, key, now, draws);
    if outcome.Created? {
      InsertKeeps(t, limits, outcome.id, key);
    }
  }

  function Added(t: Sessions, id: uint32): Sessions
  {
    t.(byID := t.byID[id := Session(t.created, NO_KEY)], created := t.created + 1)
  }

  lemma AddedKeepsCounts(t: Sessions, id: uint32)
    requires Counted(t) && id !in t.byID
    ensures Counted(Added(t, id))
  {
    forall ip: Addr | !ip.NoAddr?
      ensures CountOf(t.perIP, ip) == |Live(Added(t, id).byID, ip)|
    {
      AddedLive(t.byID, id, Session(t.created, NO_KEY), ip);
      assert CountOf(t.perIP, ip) == |Live(t.byID, ip)|;
    }
  }

  lemma AddedKeeps(t: Sessions, limits: Limits, id: uint32)
    requires Inv(t, limits) && id !in t.byID && id != 0 && !t.closed && |t.byID| < limits.maxSessions
    ensures Inv(Added(t, id), limits)
  {
    AddedKeepsCounts(t, id);
    AddingKeepsEnds(t, Added(t, id), id, Session(t.created, NO_KEY));
    AddedKeepsRest(t, limits, id);
  }

  lemma AddedKeepsRest(t: Sessions, limits: Limits, id: uint32)
    requires IndexAgrees(t) && Bounded(t, limits) && Numbered(t)
    requires id !in t.byID && id != 0 && !t.closed && |t.byID| < limits.maxSessions
    ensures IndexAgrees(Added(t, id)) && Bounded(Added(t, id), limits) && Numbered(Added(t, id))
  {
    assert |Added(t, id).byID| == |t.byID| + 1;
  }

  lemma AddKeeps(s: Sessions, limits: Limits, id: uint32, now: int)
    requires Inv(s, limits)
    ensures Inv(AddStep(s, limits, id, now).0, limits)
  {
    var (t, _) := AllowCreate(s, limits, now);
    RateKeeps(s, t, limits);
    var (after, outcome) := AddStep(s, limits, id, now);
    if outcome.Created? {
      AddedKeeps(t, limits, id);
    }
  }

  lemma RemoveKeepsCounts(s: Sessions, id: uint32)
    requires Counted(s) && id in s.byID
    ensures Counted(RemoveStep(s, id))
  {
    var t := RemoveStep(s, id);
    forall ip: Addr | !ip.NoAddr?
      ensures CountOf(t.perIP, ip) == |Live(t.byID, ip)|
    {
      RemovedLive(s.byID, id, ip);
      assert CountOf(s.perIP, ip) == |Live(s.byID, ip)|;
    }
  }

  lemma SerialStays(byID: map<uint32, Session>, id: uint32, n: nat)
    requires n in Serials(byID) && (id in byID ==> n != byID[id].serial)
    ensures n in Serials(byID - {id})
  {
    var i :| i in byID && byID[i].serial == n;
    assert (byID - {id})[i].serial == n;
  }

  lemma RemoveKeepsEnds(s: Sessions, id: uint32)
    requires EndedOnce(s) && id in s.byID
    ensures EndedOnce(RemoveStep(s, id))
  {
    var t := RemoveStep(s, id);
    assert t.byID == s.byID - {id} && t.ended == s.ended + {s.byID[id].serial} && t.created == s.created;
    forall n | 0 <= n < t.created && n !in t.ended
      ensures n in Serials(t.byID)
    {
      SerialStays(s.byID, id, n);
    }
  }

  lemma RemoveKeepsRest(s: Sessions, limits: Limits, id: uint32)
    requires IndexAgrees(s) && Bounded(s, limits) && Numbered(s) && id in s.byID
    ensures IndexAgrees(RemoveStep(s, id)) && Bounded(RemoveStep(s, id), limits) && Numbered(RemoveStep(s, id))
  {
    assert |s.byID - {id}| == |s.byID| - 1 by {
      assert (s.byID - {id}).Keys == s.byID.Keys - {id};
    }
  }

  lemma RemoveKeeps(s: Sessions, limits: Limits, id: uint32)
    requires Inv(s, limits)
    ensures Inv(RemoveStep(s, id), limits)
  {
    if id in s.byID {
      RemoveKeepsCounts(s, id);
      RemoveKeepsEnds(s, id);
      RemoveKeepsRest(s, limits, id);
    }
  }

  lemma CloseKeeps(s: Sessions, limits: Limits)
    requires Inv(s, limits)
    ensures Inv(CloseStep(s), limits)
  {
    var t := CloseStep(s);
    forall ip: Addr | !s.closed
      ensures Live(t.byID, ip) == {}
    {
    }
  }

  // ---------------------------------------------------------------- runs

  /** Sweep is a Remove for each session it found idle. */
  datatype Event =
    | GetOrCreate(key: Key, now: int, draws: seq<uint32>)
    | Add(id: uint32, now: int)
    | Remove(id: uint32)
    | Close

  function Next(s: Sessions, limits: Limits, e: Event): Sessions
  {
    match e
    case GetOrCreate(key, now, draws) => GetOrCreateStep(s, limits, key, now, draws).0
    case Add(id, now) => AddStep(s, limits, id, now).0
    case Remove(id) => RemoveStep(s, id)
    case Close => CloseStep(s)
  }

  function Run(s: Sessions, limits: Limits, events: seq<Event>): Sessions
    decreases |events|
  {
    if events == [] then s else Run(Next(s, limits, events[0]), limits, events[1..])
  }

  lemma NextKeeps(s: Sessions, limits: Limits, e: Event)
    requires Inv(s, limits)
    ensures Inv(Next(s, limits, e), limits)
  {
    match e {
      case GetOrCreate(key, now, draws) => GetOrCreateKeeps(s, limits, key, now, draws);
      case Add(id, now) => AddKeeps(s, limits, id, now);
      case Remove(id) => RemoveKeeps(s, limits, id);
      case Close => CloseKeeps(s, limits);
    }
  }

  lemma {:induction false} RunKeeps(s: Sessions, limits: Limits, events: seq<Event>)
    requires Inv(s, limits)
    ensures Inv(Run(s, limits, events), limits)
    decreases |events|
  {
    if events != [] {
      NextKeeps(s, limits, events[0]);
      RunKeeps(Next(s, limits, events[0]), limits, events[1..]);
    }
  }

  /** After every sequence of operations the three tables agree, the limits hold, numbers of keyed
      sessions have no high bit, and every session so far is either live or was closed once. */
  lemma TablesAgree(limits: Limits, events: seq<Event>)
    ensures Inv(Run(EMPTY, limits, events), limits)
  {
    assert forall ip :: Live(EMPTY.byID, ip) == {};
    RunKeeps(EMPTY, limits, events);
  }

  lemma {:induction false} ClosedStaysEmpty(s: Sessions, limits: Limits, events: seq<Event>)
    requires Inv(s, limits) && s.closed
    ensures var t := Run(s, limits, events);
            t.closed && t.byID == map[] && t.byKey == map[] && t.perIP == map[] && t.ended == s.ended
    decreases |events|
  {
    if events != [] {
      NextKeeps(s, limits, events[0]);
      ClosedStaysEmpty(Next(s, limits, events[0]), limits, events[1..]);
    }
  }

  // ---------------------------------------------------------------- finding a session by its key

  predicate Found(s: Sessions, id: uint32)
    requires id in s.byID
  {
    s.byID[id].key in s.byKey && s.byKey[s.byID[id].key] == id
  }

  /** For every key but one a session in the tables is found again. */
  lemma KeyFindsItsSession(s: Sessions, limits: Limits, id: uint32, now: int, draws: seq<uint32>)
    requires Inv(s, limits) && id in s.byID && s.byID[id].key != NO_KEY
    ensures GetOrCreateStep(s, limits, s.byID[id].key, now, draws) == (s, Existing(id))
  {
  }

  /** Removing another session leaves a session to be found, unless both carry the empty key, which
      sessions added by number do. */
  lemma FoundAfterRemovalExactly(s: Sessions, id: uint32, other: uint32)
    requires IndexAgrees(s) && id in s.byID && other in s.byID && id != other && Found(s, id)
    ensures id in RemoveStep(s, other).byID
    ensures Found(RemoveStep(s, other), id) <==> !(s.byID[id].key == NO_KEY && s.byID[other].key == NO_KEY)
  {
  }

  const LOSING_RUN: seq<Event> := [GetOrCreate(NO_KEY, 0, [1]), Add(2, 0), Remove(2)]

  lemma RunOfThree(s: Sessions, limits: Limits, a: Event, b: Event, c: Event)
    ensures Run(s, limits, [a, b, c]) == Next(Next(Next(s, limits, a), limits, b), limits, c)
  {
    var s1 := Next(s, limits, a);
    var s2 := Next(s1, limits, b);
    assert [a, b, c][1..] == [b, c] && [b, c][1..] == [c];
    assert Run(s, limits, [a, b, c]) == Run(s1, limits, [b, c]);
    assert Run(s1, limits, [b, c]) == Run(s2, limits, [c]);
    RunOfOne(s2, limits, c);
  }

  lemma RunOfOne(s: Sessions, limits: Limits, e: Event)
    ensures Run(s, limits, [e]) == Next(s, limits, e)
  {
    assert [e][1..] == [];
    assert Run(Next(s, limits, e), limits, []) == Next(s, limits, e);
  }

  lemma FirstOfLosingRun(limits: Limits)
    requires limits.maxSessions >= 1 && limits.maxPerSecond >= 1
    ensures Next(EMPTY, limits, LOSING_RUN[0])
         == Sessions(map[1 := Session(0, NO_KEY)], map[NO_KEY := 1], map[], Some(0), 1, false, 1, {})
  {
    var t := AllowCreate(EMPTY, limits, 0).0;
    assert FirstUsable(t, [1]) == Some(1);
  }

  /** With room for two sessions the case is reached: a session made for the empty key, one added
      by number and removed, and the first is no longer found. */
  lemma EmptyKeyIsLost(limits: Limits)
    requires limits.maxSessions >= 2 && limits.maxPerSecond >= 2
    ensures var s := Run(EMPTY, limits, LOSING_RUN);
            1 in s.byID && s.byID[1].key == NO_KEY && !Found(s, 1)
  {
    RunOfThree(EMPTY, limits, LOSING_RUN[0], LOSING_RUN[1], LOSING_RUN[2]);
    FirstOfLosingRun(limits);
    RestOfLosingRun(limits, Next(EMPTY, limits, LOSING_RUN[0]));
  }

  lemma RestOfLosingRun(limits: Limits, s1: Sessions)
    requires limits.maxSessions >= 2 && limits.maxPerSecond >= 2
    requires s1 == Sessions(map[1 := Session(0, NO_KEY)], map[NO_KEY := 1], map[], Some(0), 1, false, 1, {})
    ensures var s := Next(Next(s1, limits, Add(2, 0)), limits, Remove(2));
            1 in s.byID && s.byID[1].key == NO_KEY && !Found(s, 1)
  {
    assert |s1.byID| == 1;
    var s2 := Next(s1, limits, Add(2, 0));
    assert s2.byID == map[1 := Session(0, NO_KEY), 2 := Session(1, NO_KEY)];
  }

  predicate AllFound(s: Sessions)
  {
    forall id :: id in s.byID ==> Found(s, id)
  }

  lemma InsertFindsAll(s: Sessions, id: uint32, key: Key)
    requires AllFound(s) && id !in s.byID && key !in s.byKey
    ensures AllFound(Inserted(s, id, key))
  {
  }

  lemma RemoveFindsAll(s: Sessions, id: uint32)
    requires IndexAgrees(s) && AllFound(s)
    ensures IndexAgrees(RemoveStep(s, id)) && AllFound(RemoveStep(s, id))
  {
  }

  lemma NextFindsAll(s: Sessions, limits: Limits, e: Event)
    requires IndexAgrees(s) && AllFound(s) && !e.Add?
    ensures IndexAgrees(Next(s, limits, e)) && AllFound(Next(s, limits, e))
  {
    match e {
      case GetOrCreate(key, now, draws) =>
        var t := AllowCreate(s, limits, now).0;
        FirstUsableIsUsable(t, draws);
        var outcome := GetOrCreateStep(s, limits, key, now, draws).1;
        if outcome.Created? {
          InsertKeepsIndex(t, outcome.id, key);
          InsertFindsAll(t, outcome.id, key);
        }
      case Remove(id) => RemoveFindsAll(s, id);
      case Close =>
    }
  }

  /** Where sessions are only made by key, as the relay does, every live one is found by its key,
      whatever the keys. */
  lemma {:induction false} FoundWithoutAdding(s: Sessions, limits: Limits, events: seq<Event>, id: uint32)
    requires IndexAgrees(s) && AllFound(s) && forall i :: 0 <= i < |events| ==> !events[i].Add?
    ensures var t := Run(s, limits, events);
            id in t.byID ==> Found(t, id)
    decreases |events|
  {
    if events != [] {
      NextFindsAll(s, limits, events[0]);
      FoundWithoutAdding(Next(s, limits, events[0]), limits, events[1..], id);
    }
  }

  // ---------------------------------------------------------------- exactly which sessions are made

  /** None of the draws is a number that can be used: all are zero or taken. */
  predicate AllTaken(byID: map<uint32, Session>, draws: seq<uint32>)
  {
    forall d :: d in draws ==> d % 0x8000_0000 == 0 || d % 0x8000_0000 in byID
  }

  lemma {:induction false} NoneUsable(s: Sessions, draws: seq<uint32>)
    ensures FirstUsable(s, draws).None? <==> AllTaken(s.byID, draws)
    ensures FirstUsable(s, draws).Some? ==> exists d :: d in draws && FirstUsable(s, draws).value == d % 0x8000_0000
  {
    if draws != [] {
      NoneUsable(s, draws[1..]);
      assert draws[0] in draws && forall d :: d in draws <==> d == draws[0] || d in draws[1..];
    }
  }

  /** The address has as many live sessions as it may. */
  predicate AddressFull(s: Sessions, limits: Limits, ip: Addr)
  {
    !ip.NoAddr? && |Live(s.byID, ip)| >= limits.maxPerIP
  }

  /** Nothing but the rate, or the draws, stands in the way of a new session. */
  predicate Eligible(s: Sessions, limits: Limits, e: Event)
  {
    match e
    case GetOrCreate(key, _, _) =>
      key !in s.byKey && !s.closed && |s.byID| < limits.maxSessions && !AddressFull(s, limits, IPOf(key))
    case Add(id, _) => id !in s.byID && id != 0 && !s.closed && |s.byID| < limits.maxSessions
    case _ => false
  }

  /** The rate allows another session: fewer than the limit were allowed since the window began. */
  predicate RateAllows(asks: seq<Ask>, limits: Limits, now: int)
  {
    Granted(asks, Began(asks, 1_000_000_000, now)) < limits.maxPerSecond
  }

  /** The history of the requests that only the rate could refuse. */
  function Asked(asks: seq<Ask>, s: Sessions, limits: Limits, e: Event): seq<Ask>
  {
    if Eligible(s, limits, e) then asks + [Ask(e.now, RateAllows(asks, limits, e.now))] else asks
  }

  function AskedOver(asks: seq<Ask>, s: Sessions, limits: Limits, events: seq<Event>): seq<Ask>
    decreases |events|
  {
    if events == [] then asks
    else AskedOver(Asked(asks, s, limits, events[0]), Next(s, limits, events[0]), limits, events[1..])
  }

  /** The manager's window says what that history says. */
  predicate RateRecalls(s: Sessions, asks: seq<Ask>, last: int)
  {
    && Sorted(asks, last) && (s.windowStart.None? <==> asks == [])
    && (asks != [] ==> Tracks(asks, SECOND, s.windowStart.value, s.windowCount))
  }

  lemma RateByHistory(s: Sessions, limits: Limits, asks: seq<Ask>, now: int)
    requires RateRecalls(s, asks, now)
    ensures var (t, ok) := AllowCreate(s, limits, now);
            ok == RateAllows(asks, limits, now) && RateRecalls(t, asks + [Ask(now, ok)], now) && SameTables(s, t)
  {
    if asks != [] {
      NextWindow(asks, SECOND, s.windowStart.value, s.windowCount, now);
    }
    BeganLately(asks, SECOND, now);
    TracksOn(asks, SECOND, now, AllowCreate(s, limits, now).1);
  }

  /** What the steps do, in terms of the live sessions. */
  lemma StepByEligible(s: Sessions, limits: Limits, key: Key, now: int, draws: seq<uint32>)
    requires Counted(s)
    ensures var (t, ok) := AllowCreate(s, limits, now);
            GetOrCreateStep(s, limits, key, now, draws) ==
              if !Eligible(s, limits, GetOrCreate(key, now, draws)) then
                (s, if key in s.byKey then Existing(s.byKey[key]) else Refused)
              else if !ok then (t, Refused)
              else match FirstUsable(t, draws)
                   case None => (t, Refused)
                   case Some(id) => (Inserted(t, id, key), Created(id))
  {
    assert !IPOf(key).NoAddr? ==> CountOf(s.perIP, IPOf(key)) == |Live(s.byID, IPOf(key))|;
  }

  lemma MakingRecalls(
    s: Sessions, limits: Limits, asks: seq<Ask>, last: int, key: Key, now: int, draws: seq<uint32>)
    requires Counted(s) && RateRecalls(s, asks, last) && last <= now
    ensures var e := GetOrCreate(key, now, draws);
            RateRecalls(Next(s, limits, e), Asked(asks, s, limits, e), now)
  {
    StepByEligible(s, limits, key, now, draws);
    RateByHistory(s, limits, asks, now);
  }

  lemma AddingRecalls(s: Sessions, limits: Limits, asks: seq<Ask>, last: int, id: uint32, now: int)
    requires RateRecalls(s, asks, last) && last <= now
    ensures RateRecalls(Next(s, limits, Add(id, now)), Asked(asks, s, limits, Add(id, now)), now)
  {
    RateByHistory(s, limits, asks, now);
  }

  lemma NextRecalls(s: Sessions, limits: Limits, asks: seq<Ask>, last: int, e: Event)
    requires Counted(s) && RateRecalls(s, asks, last) && (e.GetOrCreate? || e.Add? ==> last <= e.now)
    ensures RateRecalls(Next(s, limits, e), Asked(asks, s, limits, e), if e.GetOrCreate? || e.Add? then e.now else last)
  {
    match e {
      case GetOrCreate(key, now, draws) => MakingRecalls(s, limits, asks, last, key, now, draws);
      case Add(id, now) => AddingRecalls(s, limits, asks, last, id, now);
      case _ =>
    }
  }

  /** The clock does not run backwards. */
  predicate TimesInOrder(events: seq<Event>, from: int)
  {
    events != [] ==>
      var e := events[0];
      if e.GetOrCreate? || e.Add? then from <= e.now && TimesInOrder(events[1..], e.now)
      else TimesInOrder(events[1..], from)
  }

  function LastTime(events: seq<Event>, from: int): int
  {
    if events == [] then from
    else LastTime(events[1..], if events[0].GetOrCreate? || events[0].Add? then events[0].now else from)
  }

  lemma {:induction false} RunRecalls(s: Sessions, limits: Limits, asks: seq<Ask>, last: int, events: seq<Event>)
    requires Inv(s, limits) && RateRecalls(s, asks, last) && TimesInOrder(events, last)
    ensures RateRecalls(Run(s, limits, events), AskedOver(asks, s, limits, events), LastTime(events, last))
    decreases |events|
  {
    if events != [] {
      NextKeeps(s, limits, events[0]);
      NextRecalls(s, limits, asks, last, events[0]);
      var e := events[0];
      RunRecalls(Next(s, limits, e), limits, Asked(asks, s, limits, e),
                 if e.GetOrCreate? || e.Add? then e.now else last, events[1..]);
    }
  }

  lemma RunFromEmpty(limits: Limits, start: int, events: seq<Event>)
    requires TimesInOrder(events, start)
    ensures Inv(Run(EMPTY, limits, events), limits)
    ensures RateRecalls(Run(EMPTY, limits, events), AskedOver([], EMPTY, limits, events), LastTime(events, start))
  {
    TablesAgree(limits, events);
    assert forall ip :: Live(EMPTY.byID, ip) == {};
    RunRecalls(EMPTY, limits, [], start, events);
  }

  /** After every run: a key gets its session if it has one. If not it is refused exactly if the
      manager is closed, or has all the sessions it may have, or the client's address has, or as many
      were allowed as may be since the second began, or no number drawn can be used. Otherwise the
      new session is there under a number that was drawn, found by its key, and all others stay. */
  lemma MadeExactly(limits: Limits, events: seq<Event>, start: int, key: Key, now: int, draws: seq<uint32>)
    requires TimesInOrder(events, start) && LastTime(events, start) <= now
    ensures var s, asks := Run(EMPTY, limits, events), AskedOver([], EMPTY, limits, events);
            var (t, outcome) := GetOrCreateStep(s, limits, key, now, draws);
            && (outcome.Existing? <==> key in s.byKey)
            && (outcome.Refused? <==>
                  && key !in s.byKey
                  && (|| s.closed || |s.byID| == limits.maxSessions || AddressFull(s, limits, IPOf(key))
                      || !RateAllows(asks, limits, now) || AllTaken(s.byID, draws)))
            && (outcome.Created? ==>
                  && (exists d :: d in draws && outcome.id == d % 0x8000_0000)
                  && outcome.id != 0 && outcome.id !in s.byID
                  && t.byID == s.byID[outcome.id := Session(s.created, key)]
                  && t.byKey == s.byKey[key := outcome.id])
            && (!outcome.Created? ==> t.byID == s.byID && t.byKey == s.byKey)
  {
    RunFromEmpty(limits, start, events);
    var s, asks := Run(EMPTY, limits, events), AskedOver([], EMPTY, limits, events);
    StepByEligible(s, limits, key, now, draws);
    RateByHistory(s, limits, asks, now);
    var t := AllowCreate(s, limits, now).0;
    NoneUsable(t, draws);
    FirstUsableIsUsable(t, draws);
  }

  /** By number it is the same, but for the address, and zero is refused. */
  lemma AddedExactly(limits: Limits, events: seq<Event>, start: int, id: uint32, now: int)
    requires TimesInOrder(events, start) && LastTime(events, start) <= now
    ensures var s, asks := Run(EMPTY, limits, events), AskedOver([], EMPTY, limits, events);
            var (t, outcome) := AddStep(s, limits, id, now);
            && (outcome.Existing? <==> id in s.byID)
            && (outcome.Refused? <==>
                  && id !in s.byID
                  && (id == 0 || s.closed || |s.byID| == limits.maxSessions || !RateAllows(asks, limits, now)))
            && t.byKey == s.byKey
            && t.byID == if outcome.Created? then s.byID[id := Session(s.created, NO_KEY)] else s.byID
  {
    RunFromEmpty(limits, start, events);
    RateByHistory(Run(EMPTY, limits, events), limits, AskedOver([], EMPTY, limits, events), now);
  }

  /** Removing ends exactly one session and closing ends all; an ended session is in no table. */
  lemma RemovedExactly(s: Sessions, limits: Limits, id: uint32)
    requires Inv(s, limits)
    ensures var t := RemoveStep(s, id);
            && t.byID == s.byID - {id} && t.closed == s.closed && t.created == s.created
            && (id in s.byID ==> t.ended == s.ended + {s.byID[id].serial} && s.byID[id].key !in t.byKey)
            && (id !in s.byID ==> t == s)
    ensures var t := CloseStep(s);
            && t.closed && t.byID == map[] && t.byKey == map[] && t.perIP == map[]
            && forall i :: i in s.byID ==> s.byID[i].serial in t.ended
  {
    RemovedOne(s, limits, id);
    ClosedAll(s);
  }

  lemma RemovedOne(s: Sessions, limits: Limits, id: uint32)
    requires Inv(s, limits)
    ensures var t := RemoveStep(s, id);
            && t.byID == s.byID - {id} && t.closed == s.closed && t.created == s.created
            && (id in s.byID ==> t.ended == s.ended + {s.byID[id].serial} && s.byID[id].key !in t.byKey)
            && (id !in s.byID ==> t == s)
  {
    if id !in s.byID {
      assert s.byID - {id} == s.byID;
    }
  }

  lemma ClosedAll(s: Sessions)
    requires s.closed ==> s.byID == map[] && s.byKey == map[] && s.perIP == map[]
    ensures var t := CloseStep(s);
            && t.closed && t.byID == map[] && t.byKey == map[] && t.perIP == map[]
            && forall i :: i in s.byID ==> s.byID[i].serial in t.ended
  {
    assert forall i :: i in s.byID ==> s.byID[i].serial in Serials(s.byID);
  }
}
