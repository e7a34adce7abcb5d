/** Limiting connections by remote address: internal/ratelimit/ip_guard.go. Times are counted in
    any unit; callers read the clock just before taking the lock, and are taken to get the lock in
    the order of those times. */
module IPGuard {
  const SWEEP_EVERY: nat := 128

  // ---------------------------------------------------------------- the table

  datatype Config = Config(maxConcurrent: nat, maxPerWindow: nat, window: nat)

  predicate Usable(c: Config)
  {
    c.maxConcurrent > 0 && c.maxPerWindow > 0 && c.window > 0
  }

  datatype Entry = Entry(active: nat, windowStart: int, count: nat, lastSeen: int)

  type Table = map<string, Entry>

  predicate Stale(c: Config, e: Entry, now: int)
  {
    e.active == 0 && now - e.lastSeen > 2 * c.window
  }

  function Swept(c: Config, t: Table, now: int): Table
  {
    map k | k in t && !Stale(c, t[k], now) :: t[k]
  }

  /** The entry an attempt is judged by: a new one, or the old one in a new window if the old
      window has passed. */
  function Current(c: Config, t: Table, key: string, now: int): Entry
  {
    var e := if key in t then t[key] else Entry(0, now, 0, 0);
    if now - e.windowStart >= c.window then e.(windowStart := now, count := 0) else e
  }

  predicate Admits(c: Config, e: Entry)
  {
    e.active < c.maxConcurrent && e.count < c.maxPerWindow
  }

  function Judged(c: Config, e: Entry, now: int): Entry
  {
    if Admits(c, e) then e.(active := e.active + 1, count := e.count + 1, lastSeen := now) else e.(lastSeen := now)
  }

  function AcquireStep(c: Config, t: Table, key: string, now: int): (Table, bool)
  {
    var e := Current(c, t, key, now);
    (t[key := Judged(c, e, now)], Admits(c, e))
  }

  function ReleaseStep(t: Table, key: string, now: int): Table
  {
    if key in t && t[key].active > 0 then t[key := t[key].(active := t[key].active - 1, lastSeen := now)] else t
  }

  // ---------------------------------------------------------------- the guard

  class Guard {
    const config: Config
    var entries: Table
    var operations: nat

    constructor (maxConcurrent: int, maxPerWindow: int, window: int)
      ensures Usable(config) && entries == map[] && operations == 0
      ensures maxConcurrent > 0 ==> config.maxConcurrent == maxConcurrent
      ensures maxPerWindow > 0 ==> config.maxPerWindow == maxPerWindow
      ensures window > 0 ==> config.window == window
    {
      config := Config(if maxConcurrent <= 0 then 16 else maxConcurrent,
                       if maxPerWindow <= 0 then 60 else maxPerWindow,
                       if window <= 0 then 60_000_000_000 else window);
      entries, operations := map[], 0;
    }

    /** Deletes the stale keys one by one. */
    method SweepLocked(now: int)
      modifies this`entries
      ensures entries == Swept(config, old(entries), now)
    {
      var keys := entries.Keys;
      ghost var all := entries;
      while keys != {}
        invariant keys <= all.Keys
        invariant forall k :: k in entries <==> k in all && (k in keys || !Stale(config, all[k], now))
        invariant forall k :: k in entries ==> entries[k] == all[k]
        decreases |keys|
      {
        var key :| key in keys;
        keys := keys - {key};
        if entries[key].active == 0 && now - entries[key].lastSeen > 2 * config.window {
          entries := entries - {key};
        }
      }
    }

    method Acquire(key: string, now: int) returns (ok: bool, release: Release?)
      modifies this
      ensures operations == old(operations) + 1
      ensures var swept := if operations % SWEEP_EVERY == 0 then Swept(config, old(entries), now) else old(entries);
              (entries, ok) == AcquireStep(config, swept, key, now)
      ensures ok <==> release != null
      ensures release != null ==> fresh(release) && release.guard == this && release.key == key && !release.done
    {
      operations := operations + 1;
      if operations % SWEEP_EVERY == 0 {
        SweepLocked(now);
      }
      var e := if key in entries then entries[key] else Entry(0, now, 0, 0);
      if now - e.windowStart >= config.window {
        e := e.(windowStart := now, count := 0);
      }
      if e.active >= config.maxConcurrent || e.count >= config.maxPerWindow {
        entries := entries[key := e.(lastSeen := now)];
        return false, null;
      }
      entries := entries[key := Entry(e.active + 1, e.windowStart, e.count + 1, now)];
      release := new Release(this, key);
      return true, release;
    }

    /** One rate-limited attempt that holds no slot. */
    method Allow(key: string, now: int, later: int) returns (ok: bool)
      modifies this
      ensures operations == old(operations) + 1
      ensures var swept := if operations % SWEEP_EVERY == 0 then Swept(config, old(entries), now) else old(entries);
              var (after, admitted) := AcquireStep(config, swept, key, now);
              ok == admitted && entries == if ok then ReleaseStep(after, key, later) else after
    {
      var release;
      ok, release := Acquire(key, now);
      if ok {
        release.Call(later);
      }
    }
  }

  /** The closure that gives a slot back, once. */
  class Release {
    const guard: Guard
    const key: string
    var done: bool

    constructor (guard: Guard, key: string)
      ensures this.guard == guard && this.key == key && !done
    {
      this.guard, this.key, done := guard, key, false;
    }

    method Call(now: int)
      modifies this, guard`entries
      ensures done
      ensures guard.entries == if old(done) then old(guard.entries) else ReleaseStep(old(guard.entries), key, now)
    {
      if done {
        return;
      }
      done := true;
      if key in guard.entries && guard.entries[key].active > 0 {
        var e := guard.entries[key];
        guard.entries := guard.entries[key := e.(active := e.active - 1, lastSeen := now)];
      }
    }
  }
}
