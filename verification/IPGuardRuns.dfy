/** What an IP guard promises over whole runs: sweeping is invisible, the rate is bounded over any
    interval, and the slots in use are those not yet given back. */
module IPGuardRuns {
  import opened FixedWindow
  import opened IPGuard

  datatype Event = Attempt(key: string, now: int) | GiveBack(key: string, now: int)

  /** The clock does not run backwards. */
  predicate InOrder(events: seq<Event>, from: int)
  {
    events != [] ==> from <= events[0].now && InOrder(events[1..], events[0].now)
  }

  /** The table an attempt finds: swept on every 128th operation, unless the guard never sweeps. */
  function Found(c: Config, t: Table, op: nat, now: int, sweeps: bool): Table
  {
    if sweeps && op % SWEEP_EVERY == 0 then Swept(c, t, now) else t
  }

  function After(c: Config, t: Table, op: nat, e: Event, sweeps: bool): Table
  {
    match e
    case Attempt(key, now) => AcquireStep(c, Found(c, t, op, now, sweeps), key, now).0
    case GiveBack(key, now) => ReleaseStep(t, key, now)
  }

  predicate Accepted(c: Config, t: Table, op: nat, e: Event, sweeps: bool)
  {
    e.Attempt? && AcquireStep(c, Found(c, t, op, e.now, sweeps), e.key, e.now).1
  }

  function Operations(op: nat, e: Event): nat
  {
    if e.Attempt? then op + 1 else op
  }

  /** Which attempts of a run are admitted; `op` is the number of the next operation. */
  function Verdicts(c: Config, t: Table, op: nat, events: seq<Event>, sweeps: bool): (vs: seq<bool>)
    ensures |vs| == |events|
    decreases |events|
  {
    if events == [] then []
    else
      [Accepted(c, t, op, events[0], sweeps)]
      + Verdicts(c, After(c, t, op, events[0], sweeps), Operations(op, events[0]), events[1..], sweeps)
  }

  // ---------------------------------------------------------------- sweeping is invisible

  /** A swept table beside one that is never swept: the entries it lacks are stale ones. */
  predicate Shadows(c: Config, t: Table, full: Table, last: int)
  {
    && (forall k :: k in t ==> k in full && t[k] == full[k])
    && (forall k :: k in full && k !in t ==> Stale(c, full[k], last))
    && (forall k :: k in full ==> full[k].windowStart <= full[k].lastSeen <= last)
  }

  lemma SweepingShadows(c: Config, t: Table, full: Table, last: int, now: int)
    requires Shadows(c, t, full, last) && last <= now
    ensures Shadows(c, Swept(c, t, now), full, now) && Shadows(c, t, full, now)
  {
  }

  /** A stale entry is judged like a missing one: its window has long passed and nothing is open. */
  lemma StaleIsAsMissing(c: Config, e: Entry, now: int)
    requires Usable(c) && Stale(c, e, now) && e.windowStart <= e.lastSeen
    ensures Current(c, map["" := e], "", now).(lastSeen := 0) == Current(c, map[], "", now).(lastSeen := 0)
  {
  }

  lemma AttemptShadows(c: Config, t: Table, full: Table, key: string, now: int)
    requires Usable(c) && Shadows(c, t, full, now)
    ensures AcquireStep(c, t, key, now).1 == AcquireStep(c, full, key, now).1
    ensures Shadows(c, AcquireStep(c, t, key, now).0, AcquireStep(c, full, key, now).0, now)
  {
    if key in full && key !in t {
      StaleIsAsMissing(c, full[key], now);
    }
  }

  lemma GiveBackShadows(c: Config, t: Table, full: Table, key: string, now: int)
    requires Shadows(c, t, full, now)
    ensures Shadows(c, ReleaseStep(t, key, now), ReleaseStep(full, key, now), now)
  {
  }

  lemma EventShadows(c: Config, t: Table, full: Table, last: int, op: nat, e: Event)
    requires Usable(c) && Shadows(c, t, full, last) && last <= e.now
    ensures Accepted(c, t, op, e, true) == Accepted(c, full, op, e, false)
    ensures Shadows(c, After(c, t, op, e, true), After(c, full, op, e, false), e.now)
  {
    SweepingShadows(c, t, full, last, e.now);
    if e.Attempt? {
      AttemptShadows(c, Found(c, t, op, e.now, true), full, e.key, e.now);
    } else {
      GiveBackShadows(c, t, full, e.key, e.now);
    }
  }

  /** A guard that sweeps admits exactly the attempts that one that never sweeps admits. */
  lemma {:induction false} SweepTransparency(c: Config, t: Table, full: Table, last: int, op: nat, events: seq<Event>)
    requires Usable(c) && Shadows(c, t, full, last) && InOrder(events, last)
    ensures Verdicts(c, t, op, events, true) == Verdicts(c, full, op, events, false)
    decreases |events|
  {
    if events != [] {
      var e := events[0];
      EventShadows(c, t, full, last, op, e);
      SweepTransparency(c, After(c, t, op, e, true), After(c, full, op, e, false), e.now, Operations(op, e),
                        events[1..]);
    }
  }

  // ---------------------------------------------------------------- the rate

  function Hits(e: Event, admitted: bool, key: string, from: int, to: int): nat
  {
    if admitted && e.key == key && from <= e.now <= to then 1 else 0
  }

  /** How many attempts of a key were admitted in a time interval. */
  function Admitted(events: seq<Event>, verdicts: seq<bool>, key: string, from: int, to: int): nat
    requires |events| == |verdicts|
  {
    if events == [] then 0
    else Hits(events[0], verdicts[0], key, from, to) + Admitted(events[1..], verdicts[1..], key, from, to)
  }

  predicate CountsBounded(c: Config, t: Table)
  {
    forall k :: k in t ==> t[k].count <= c.maxPerWindow
  }

  /** n admissions in the interval so far: all in the current window, or in it and the one before,
      or the interval is over. */
  predicate Spread(c: Config, t: Table, key: string, from: int, to: int, last: int, n: nat)
  {
    || n == 0
    || (n <= 2 * c.maxPerWindow && to < last)
    || (key in t && n <= t[key].count && from < t[key].windowStart + c.window)
    || (key in t && n <= c.maxPerWindow + t[key].count && from < t[key].windowStart)
  }

  lemma AttemptSpreads(c: Config, t: Table, key: string, from: int, to: int, last: int, n: nat, e: Event)
    requires Usable(c) && CountsBounded(c, t) && Spread(c, t, key, from, to, last, n) && to - from <= c.window
    requires e.Attempt? && last <= e.now
    ensures CountsBounded(c, AcquireStep(c, t, e.key, e.now).0)
    ensures Spread(c, AcquireStep(c, t, e.key, e.now).0, key, from, to, e.now,
                   n + Hits(e, AcquireStep(c, t, e.key, e.now).1, key, from, to))
  {
  }

  lemma GiveBackSpreads(c: Config, t: Table, key: string, from: int, to: int, last: int, n: nat, e: Event)
    requires CountsBounded(c, t) && Spread(c, t, key, from, to, last, n) && e.GiveBack? && last <= e.now
    ensures CountsBounded(c, ReleaseStep(t, e.key, e.now))
    ensures Spread(c, ReleaseStep(t, e.key, e.now), key, from, to, e.now, n)
  {
  }

  lemma {:induction false} RateOfFullTable(
    c: Config, t: Table, key: string, from: int, to: int, last: int, n: nat, op: nat, events: seq<Event>)
    requires Usable(c) && CountsBounded(c, t) && Spread(c, t, key, from, to, last, n) && to - from <= c.window
    requires InOrder(events, last)
    ensures n + Admitted(events, Verdicts(c, t, op, events, false), key, from, to) <= 2 * c.maxPerWindow
    decreases |events|
  {
    if events != [] {
      var e := events[0];
      if e.Attempt? {
        AttemptSpreads(c, t, key, from, to, last, n, e);
      } else {
        GiveBackSpreads(c, t, key, from, to, last, n, e);
      }
      var vs := Verdicts(c, t, op, events, false);
      RateOfFullTable(c, After(c, t, op, e, false), key, from, to, e.now, n + Hits(e, vs[0], key, from, to),
                      Operations(op, e), events[1..]);
    }
  }

  /** Any interval no longer than the window sees at most twice the allowed attempts of a key. */
  lemma RateBound(c: Config, events: seq<Event>, start: int, key: string, from: int, to: int)
    requires Usable(c) && InOrder(events, start) && to - from <= c.window
    ensures Admitted(events, Verdicts(c, map[], 1, events, true), key, from, to) <= 2 * c.maxPerWindow
  {
    SweepTransparency(c, map[], map[], start, 1, events);
    RateOfFullTable(c, map[], key, from, to, start, 0, 1, events);
  }

  /** n attempts at one time, each given back at once. */
  function Burst(key: string, now: int, n: nat): (events: seq<Event>)
  {
    if n == 0 then [] else [Attempt(key, now), GiveBack(key, now)] + Burst(key, now, n - 1)
  }

  lemma BurstStep(c: Config, t: Table, key: string, now: int, n: nat, op: nat, rest: seq<Event>, from: int, to: int)
    requires Usable(c) && from <= now <= to && n > 0
    requires var e := Current(c, t, key, now); e.active == 0 && e.count + n <= c.maxPerWindow
    ensures var t2 := ReleaseStep(AcquireStep(c, t, key, now).0, key, now);
            && Admitted(Burst(key, now, n) + rest, Verdicts(c, t, op, Burst(key, now, n) + rest, false), key, from, to)
               == 1 + Admitted(Burst(key, now, n - 1) + rest,
                               Verdicts(c, t2, op + 1, Burst(key, now, n - 1) + rest, false), key, from, to)
            && var e := Current(c, t2, key, now); e.active == 0 && e.count + n - 1 <= c.maxPerWindow
  {
    var all := Burst(key, now, n) + rest;
    var t1 := After(c, t, op, all[0], false);
    var t2 := After(c, t1, op + 1, all[1], false);
    assert all[1..][1..] == Burst(key, now, n - 1) + rest;
    assert Verdicts(c, t, op, all, false)[1..] == Verdicts(c, t1, op + 1, all[1..], false);
    assert Verdicts(c, t1, op + 1, all[1..], false)[1..] == Verdicts(c, t2, op + 1, all[1..][1..], false);
  }

  /** A burst within one window is admitted in full. */
  lemma {:induction false} BurstAdmitted(
    c: Config, t: Table, key: string, now: int, n: nat, op: nat, rest: seq<Event>, from: int, to: int)
    requires Usable(c) && from <= now <= to
    requires var e := Current(c, t, key, now); e.active == 0 && e.count + n <= c.maxPerWindow
    ensures var (t', op') := AfterBurst(c, t, key, now, n, op);
            Admitted(Burst(key, now, n) + rest, Verdicts(c, t, op, Burst(key, now, n) + rest, false), key, from, to)
            == n + Admitted(rest, Verdicts(c, t', op', rest, false), key, from, to)
    decreases n
  {
    if n == 0 {
      assert Burst(key, now, n) + rest == rest;
    } else {
      BurstStep(c, t, key, now, n, op, rest, from, to);
      BurstAdmitted(c, ReleaseStep(AcquireStep(c, t, key, now).0, key, now), key, now, n - 1, op + 1, rest, from, to);
    }
  }

  function AfterBurst(c: Config, t: Table, key: string, now: int, n: nat, op: nat): (Table, nat)
    decreases n
  {
    if n == 0 then (t, op)
    else AfterBurst(c, ReleaseStep(AcquireStep(c, t, key, now).0, key, now), key, now, n - 1, op + 1)
  }

  lemma {:induction false} AfterBurstEntry(c: Config, t: Table, key: string, now: int, n: nat, op: nat)
    requires Usable(c) && key in t && t[key].active == 0
    requires t[key].windowStart == now && t[key].count + n <= c.maxPerWindow
    ensures var t' := AfterBurst(c, t, key, now, n, op).0;
            key in t' && t'[key].active == 0 && t'[key].windowStart == now
    decreases n
  {
    if n > 0 {
      AfterBurstEntry(c, ReleaseStep(AcquireStep(c, t, key, now).0, key, now), key, now, n - 1, op + 1);
    }
  }

  lemma {:induction false} BurstInOrder(key: string, now: int, n: nat, rest: seq<Event>, from: int)
    requires from <= now && InOrder(rest, now)
    ensures InOrder(Burst(key, now, n) + rest, from)
    decreases n
  {
    if n == 0 {
      assert Burst(key, now, n) + rest == rest;
      if rest != [] {
        assert now <= rest[0].now;
      }
    } else {
      BurstInOrder(key, now, n - 1, rest, now);
      assert (Burst(key, now, n) + rest)[1..][1..] == Burst(key, now, n - 1) + rest;
    }
  }

  /** The bound is attained, whatever the limits: one full burst as a window begins, and another
      when it has just passed. */
  lemma RateBoundIsTight(c: Config, key: string) returns (events: seq<Event>)
    requires Usable(c)
    ensures InOrder(events, 0)
    ensures Admitted(events, Verdicts(c, map[], 1, events, true), key, 0, c.window) == 2 * c.maxPerWindow
  {
    var m := c.maxPerWindow;
    var second := Burst(key, c.window, m) + [];
    events := Burst(key, 0, m) + second;
    BurstInOrder(key, c.window, m, [], 0);
    BurstInOrder(key, 0, m, second, 0);
    SweepTransparency(c, map[], map[], 0, 1, events);
    BurstAdmitted(c, map[], key, 0, m, 1, second, 0, c.window);
    var t1 := ReleaseStep(AcquireStep(c, map[], key, 0).0, key, 0);
    AfterBurstEntry(c, t1, key, 0, m - 1, 2);
    var (t, op) := AfterBurst(c, map[], key, 0, m, 1);
    BurstAdmitted(c, t, key, c.window, m, op, [], 0, c.window);
  }

  // ---------------------------------------------------------------- the slots in use

  /** A release closure that was handed out, and whether it was called. */
  datatype Ticket = Ticket(key: string, called: bool)

  datatype Use = Take(key: string, now: int) | Call(ticket: nat, now: int)

  /** An attempt of a key, and whether it was admitted. */
  datatype Try = Try(key: string, ask: Ask)

  datatype Usage = Usage(table: Table, op: nat, tickets: seq<Ticket>, tries: seq<Try>)

  const UNUSED := Usage(map[], 1, [], [])

  function Unreleased(tickets: seq<Ticket>, key: string): nat
  {
    if tickets == [] then 0
    else
      var last := tickets[|tickets| - 1];
      Unreleased(tickets[..|tickets| - 1], key) + if last.key == key && !last.called then 1 else 0
  }

  function UseStep(c: Config, u: Usage, e: Use): Usage
  {
    match e
    case Take(key, now) =>
      var (t, ok) := AcquireStep(c, Found(c, u.table, u.op, now, true), key, now);
      Usage(t, u.op + 1, if ok then u.tickets + [Ticket(key, false)] else u.tickets, u.tries + [Try(key, Ask(now, ok))])
    case Call(i, now) =>
      if i < |u.tickets| && !u.tickets[i].called then
        u.(table := ReleaseStep(u.table, u.tickets[i].key, now),
           tickets := u.tickets[i := u.tickets[i].(called := true)])
      else u
  }

  function UseRun(c: Config, u: Usage, events: seq<Use>): Usage
    decreases |events|
  {
    if events == [] then u else UseRun(c, UseStep(c, u, events[0]), events[1..])
  }

  function Active(t: Table, key: string): nat
  {
    if key in t then t[key].active else 0
  }

  ghost predicate SlotsAgree(c: Config, u: Usage)
  {
    forall key :: Active(u.table, key) == Unreleased(u.tickets, key) <= c.maxConcurrent
  }

  lemma {:induction false} CallingOne(tickets: seq<Ticket>, i: nat, key: string)
    requires i < |tickets| && !tickets[i].called
    ensures Unreleased(tickets[i := tickets[i].(called := true)], key)
         == Unreleased(tickets, key) - if tickets[i].key == key then 1 else 0
    decreases |tickets|
  {
    var n := |tickets| - 1;
    var after := tickets[i := tickets[i].(called := true)];
    if i == n {
      assert after[..n] == tickets[..n];
    } else {
      assert after[..n] == tickets[..n][i := tickets[i].(called := true)];
      CallingOne(tickets[..n], i, key);
    }
  }

  lemma UseKeepsSlots(c: Config, u: Usage, e: Use)
    requires Usable(c) && SlotsAgree(c, u)
    ensures SlotsAgree(c, UseStep(c, u, e))
  {
    var v := UseStep(c, u, e);
    forall key
      ensures Active(v.table, key) == Unreleased(v.tickets, key) <= c.maxConcurrent
    {
      assert Active(u.table, key) == Unreleased(u.tickets, key);
      match e {
        case Take(k, now) =>
          assert (u.tickets + [Ticket(k, false)])[..|u.tickets|] == u.tickets;
          assert Active(Found(c, u.table, u.op, now, true), key) == Active(u.table, key);
        case Call(i, now) =>
          if i < |u.tickets| && !u.tickets[i].called {
            CallingOne(u.tickets, i, key);
          }
      }
    }
  }

  /** In every run the slots an address holds are its admissions not yet given back, never more
      than allowed, however often a release is called. */
  lemma {:induction false} SlotsInUse(c: Config, u: Usage, events: seq<Use>, key: string)
    requires Usable(c) && SlotsAgree(c, u)
    ensures var v := UseRun(c, u, events);
            Active(v.table, key) == Unreleased(v.tickets, key) <= c.maxConcurrent
    decreases |events|
  {
    if events != [] {
      UseKeepsSlots(c, u, events[0]);
      SlotsInUse(c, UseStep(c, u, events[0]), events[1..], key);
    }
  }

  // ---------------------------------------------------------------- exactly which attempts are admitted

  /** The attempts of one key. */
  function AsksOf(tries: seq<Try>, key: string): seq<Ask>
  {
    if tries == [] then []
    else
      var last := tries[|tries| - 1];
      AsksOf(tries[..|tries| - 1], key) + if last.key == key then [last.ask] else []
  }

  /** What the table says of a key's window is what the history of its attempts says; and a key the
      table does not have was never tried, or its window has passed. */
  predicate Recalls(c: Config, t: Table, asks: seq<Ask>, key: string, last: int)
  {
    && Sorted(asks, last)
    && (if key in t then
          && Tracks(asks, c.window, t[key].windowStart, t[key].count)
          && t[key].windowStart <= t[key].lastSeen <= last
        else
          asks == [] || last - Began(asks[..|asks| - 1], c.window, asks[|asks| - 1].now) >= c.window)
  }

  ghost predicate RecallsAll(c: Config, u: Usage, last: int)
  {
    forall key :: Recalls(c, u.table, AsksOf(u.tries, key), key, last)
  }

  lemma SweptRecalls(c: Config, t: Table, asks: seq<Ask>, key: string, last: int, now: int)
    requires Usable(c) && Recalls(c, t, asks, key, last) && last <= now
    ensures Recalls(c, t, asks, key, now) && Recalls(c, Swept(c, t, now), asks, key, now)
  {
  }

  /** The entry an attempt is judged by has the start and the count of the history. */
  lemma CurrentByHistory(c: Config, t: Table, asks: seq<Ask>, key: string, now: int)
    requires Usable(c) && Recalls(c, t, asks, key, now)
    ensures var e := Current(c, t, key, now);
            e.windowStart == Began(asks, c.window, now) && e.count == Granted(asks, e.windowStart)
    ensures Current(c, t, key, now).active == Active(t, key)
  {
    if key in t {
      NextWindow(asks, c.window, t[key].windowStart, t[key].count, now);
    } else if asks != [] {
      NextWindow(asks, c.window, Began(asks[..|asks| - 1], c.window, asks[|asks| - 1].now),
                 Granted(asks, Began(asks[..|asks| - 1], c.window, asks[|asks| - 1].now)), now);
    }
  }

  lemma AttemptRecalls(c: Config, t: Table, asks: seq<Ask>, key: string, now: int)
    requires Usable(c) && Recalls(c, t, asks, key, now)
    ensures var (t', ok) := AcquireStep(c, t, key, now); Recalls(c, t', asks + [Ask(now, ok)], key, now)
  {
    CurrentByHistory(c, t, asks, key, now);
    BeganLately(asks, c.window, now);
    TracksOn(asks, c.window, now, AcquireStep(c, t, key, now).1);
  }

  lemma OtherAttemptRecalls(c: Config, t: Table, asks: seq<Ask>, key: string, other: string, now: int)
    requires Recalls(c, t, asks, key, now) && other != key
    ensures Recalls(c, AcquireStep(c, t, other, now).0, asks, key, now)
  {
  }

  lemma GiveBackRecalls(c: Config, t: Table, asks: seq<Ask>, key: string, other: string, now: int)
    requires Recalls(c, t, asks, key, now)
    ensures Recalls(c, ReleaseStep(t, other, now), asks, key, now)
  {
  }

  lemma UseRecalls(c: Config, u: Usage, last: int, e: Use)
    requires Usable(c) && RecallsAll(c, u, last) && last <= e.now
    ensures RecallsAll(c, UseStep(c, u, e), e.now)
  {
    var v := UseStep(c, u, e);
    forall key
      ensures Recalls(c, v.table, AsksOf(v.tries, key), key, e.now)
    {
      var asks := AsksOf(u.tries, key);
      SweptRecalls(c, u.table, asks, key, last, e.now);
      match e {
        case Take(k, now) =>
          var found := Found(c, u.table, u.op, now, true);
          assert v.tries[..|u.tries|] == u.tries;
          if k == key {
            AttemptRecalls(c, found, asks, key, now);
          } else {
            OtherAttemptRecalls(c, found, asks, key, k, now);
            assert asks + [] == asks;
          }
        case Call(i, now) =>
          if i < |u.tickets| {
            GiveBackRecalls(c, u.table, asks, key, u.tickets[i].key, now);
          }
      }
    }
  }

  /** The clock does not run backwards. */
  predicate UsesInOrder(events: seq<Use>, from: int)
  {
    events != [] ==> from <= events[0].now && UsesInOrder(events[1..], events[0].now)
  }

  function LastTime(events: seq<Use>, from: int): int
  {
    if events == [] then from else LastTime(events[1..], events[0].now)
  }

  lemma {:induction false} RunRecalls(c: Config, u: Usage, last: int, events: seq<Use>)
    requires Usable(c) && RecallsAll(c, u, last) && SlotsAgree(c, u) && UsesInOrder(events, last)
    ensures RecallsAll(c, UseRun(c, u, events), LastTime(events, last)) && SlotsAgree(c, UseRun(c, u, events))
    decreases |events|
  {
    if events != [] {
      UseRecalls(c, u, last, events[0]);
      UseKeepsSlots(c, u, events[0]);
      RunRecalls(c, UseStep(c, u, events[0]), events[0].now, events[1..]);
    }
  }

  /** Whether the next attempt of a key is admitted. */
  function NextAdmitted(c: Config, u: Usage, key: string, now: int): bool
  {
    AcquireStep(c, Found(c, u.table, u.op, now, true), key, now).1
  }

  lemma AdmittedByHistory(c: Config, u: Usage, last: int, key: string, now: int)
    requires Usable(c) && RecallsAll(c, u, last) && SlotsAgree(c, u) && last <= now
    ensures var asks := AsksOf(u.tries, key);
            NextAdmitted(c, u, key, now) <==>
              && Unreleased(u.tickets, key) < c.maxConcurrent
              && Granted(asks, Began(asks, c.window, now)) < c.maxPerWindow
  {
    var asks := AsksOf(u.tries, key);
    SweptRecalls(c, u.table, asks, key, last, now);
    var found := Found(c, u.table, u.op, now, true);
    CurrentByHistory(c, found, asks, key, now);
    assert Active(found, key) == Active(u.table, key) == Unreleased(u.tickets, key);
  }

  /** In every run: an attempt is admitted exactly if fewer slots of its address than allowed are not
      given back, and fewer attempts of it than allowed were admitted since its window began. What
      was swept meanwhile makes no difference. */
  lemma AdmittedExactly(c: Config, events: seq<Use>, start: int, key: string, now: int)
    requires Usable(c) && UsesInOrder(events, start) && LastTime(events, start) <= now
    ensures var u := UseRun(c, UNUSED, events);
            var v := UseStep(c, u, Take(key, now));
            var asks := AsksOf(u.tries, key);
            var admitted := Unreleased(u.tickets, key) < c.maxConcurrent
                            && Granted(asks, Began(asks, c.window, now)) < c.maxPerWindow;
            && v.tries == u.tries + [Try(key, Ask(now, admitted))]
            && v.tickets == u.tickets + if admitted then [Ticket(key, false)] else []
  {
    RunRecalls(c, UNUSED, start, events);
    AdmittedByHistory(c, UseRun(c, UNUSED, events), LastTime(events, start), key, now);
    assert UseRun(c, UNUSED, events).tickets + [] == UseRun(c, UNUSED, events).tickets;
  }

  // ---------------------------------------------------------------- all slots at once

  function Takes(key: string, n: nat): (events: seq<Use>)
    ensures |events| == n
  {
    if n == 0 then [] else [Take(key, 0)] + Takes(key, n - 1)
  }

  /** So many slots of the key and nothing else. */
  predicate Holds(u: Usage, key: string, k: nat)
  {
    && u.table == (if k == 0 then map[] else map[key := Entry(k, 0, k, 0)])
    && Unreleased(u.tickets, key) == k
  }

  lemma TakeOne(c: Config, u: Usage, key: string, k: nat)
    requires Usable(c) && Holds(u, key, k) && k < c.maxConcurrent && k < c.maxPerWindow
    ensures Holds(UseStep(c, u, Take(key, 0)), key, k + 1)
  {
    assert Found(c, u.table, u.op, 0, true) == u.table;
    assert (u.tickets + [Ticket(key, false)])[..|u.tickets|] == u.tickets;
  }

  lemma {:induction false} TakeMany(c: Config, u: Usage, key: string, k: nat, n: nat)
    requires Usable(c) && Holds(u, key, k) && k + n <= c.maxConcurrent && k + n <= c.maxPerWindow
    ensures Holds(UseRun(c, u, Takes(key, n)), key, k + n)
    decreases n
  {
    if n > 0 {
      TakeOne(c, u, key, k);
      assert Takes(key, n)[1..] == Takes(key, n - 1);
      TakeMany(c, UseStep(c, u, Take(key, 0)), key, k + 1, n - 1);
    }
  }

  /** An address can hold as many slots at once as both limits allow. */
  lemma SlotsAtOnce(c: Config, key: string, n: nat) returns (events: seq<Use>)
    requires Usable(c) && n <= c.maxConcurrent && n <= c.maxPerWindow
    ensures Unreleased(UseRun(c, UNUSED, events).tickets, key) == n
    ensures Active(UseRun(c, UNUSED, events).table, key) == n
  {
    events := Takes(key, n);
    TakeMany(c, UNUSED, key, 0, n);
  }
}
