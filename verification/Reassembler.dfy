/** The reassembler of internal/udp/reassembly.go: pooled entries updated in place, a map of the
    pending ones and a per-session counter. Each method is one section under the mutex. */
module Reassembly {
  import opened Words
  import opened UDPFrame
  import opened ReassemblyTable

  const DEFAULT_TIMEOUT: int := 100_000_000

  /** One half-received packet. The slot arrays have a fixed size, so that a recycled entry can
      serve any later packet. */
  class PacketReassembly {
    var sessionID: uint32
    var packetID: uint32
    var fragmentCount: uint8
    var receivedCount: nat
    var totalBytes: nat
    var fragments: seq<Option<bytes>>
    var createdAt: int

    constructor ()
      ensures Blank()
    {
      sessionID, packetID, fragmentCount, receivedCount, totalBytes, createdAt := 0, 0, 0, 0, 0, 0;
      fragments := NoFragments();
    }

    /** As good as new, whatever the identifiers and the time stamp say. */
    predicate Blank()
      reads this
    {
      fragmentCount == 0 && receivedCount == 0 && totalBytes == 0 && fragments == NoFragments()
    }

    function Value(): Partial
      reads this
    {
      Partial(fragmentCount, receivedCount, totalBytes, fragments, createdAt)
    }

    predicate Shape()
      reads this
    {
      && 2 <= fragmentCount <= MAX_FRAGMENTS == |fragments|
      && (forall i :: fragmentCount <= i < MAX_FRAGMENTS ==> fragments[i].None?)
    }

    /** This entry holds the pending packet of that key. */
    predicate Holds(key: Key)
      reads this
    {
      Shape() && sessionID == key.sessionID && packetID == key.packetID
    }

    method Start(key: Key, fragmentCount: uint8, now: int)
      requires Blank() && 2 <= fragmentCount <= MAX_FRAGMENTS
      modifies this
      ensures Holds(key) && Value() == Started(fragmentCount, now)
    {
      sessionID, packetID := key.sessionID, key.packetID;
      this.fragmentCount, receivedCount, totalBytes := fragmentCount, 0, 0;
      createdAt := now;
    }

    method Place(id: nat, payload: bytes)
      requires Shape() && id < fragmentCount && fragments[id].None?
      modifies this`fragments, this`receivedCount, this`totalBytes
      ensures Shape() && Value() == WithFragment(old(Value()), id, payload)
    {
      fragments := fragments[id := Some(payload)];
      receivedCount := receivedCount + 1;
      totalBytes := totalBytes + |payload|;
    }

    /** The slots in use, joined in order. */
    method Assemble() returns (assembled: bytes)
      requires Shape()
      ensures assembled == Contents(fragments, fragmentCount)
    {
      assembled := [];
      for i := 0 to fragmentCount as nat
        invariant assembled == Contents(fragments, i)
      {
        assembled := assembled + (if fragments[i].Some? then fragments[i].value else []);
      }
    }

    /** Clears the counters and the slots in use; no other slot was ever filled. */
    method Recycle()
      requires Shape()
      modifies this
      ensures Blank()
    {
      for i := 0 to fragmentCount as nat
        invariant |fragments| == MAX_FRAGMENTS && fragmentCount == old(fragmentCount)
        invariant forall j :: 0 <= j < i ==> fragments[j].None?
        invariant forall j :: fragmentCount <= j < MAX_FRAGMENTS ==> fragments[j].None?
      {
        fragments := fragments[i := None];
      }
      assert fragments == NoFragments();
      receivedCount, totalBytes, fragmentCount := 0, 0, 0;
    }
  }

  // ---------------------------------------------------------------- the per-session counter

  /** The counter map that agrees with the pending keys: no entry for an absent session. */
  function Counts(keys: set<Key>): map<uint32, nat>
  {
    map s | s in (set k | k in keys :: k.sessionID) :: |KeysOf(keys, s)|
  }

  function CountAt(counts: map<uint32, nat>, s: uint32): nat
  {
    if s in counts then counts[s] else 0
  }

  lemma CountsRead(keys: set<Key>, s: uint32)
    ensures CountAt(Counts(keys), s) == |KeysOf(keys, s)|
    ensures s in Counts(keys) <==> KeysOf(keys, s) != {}
  {
    if k :| k in keys && k.sessionID == s {
      assert k in KeysOf(keys, s);
    } else {
      assert KeysOf(keys, s) == {};
    }
  }

  lemma CountsAfterAdd(keys: set<Key>, key: Key)
    requires key !in keys
    ensures Counts(keys + {key}) == Counts(keys)[key.sessionID := CountAt(Counts(keys), key.sessionID) + 1]
  {
    forall s: uint32
      ensures CountAt(Counts(keys + {key}), s) == CountAt(Counts(keys), s) + (if s == key.sessionID then 1 else 0)
      ensures s in Counts(keys + {key}) <==> s == key.sessionID || s in Counts(keys)
    {
      CountsRead(keys, s);
      CountsRead(keys + {key}, s);
      KeysOfAdd(keys, key, s);
    }
  }

  lemma CountsAfterRemove(keys: set<Key>, key: Key)
    requires key in keys
    ensures Counts(keys - {key}) ==
            var c := CountAt(Counts(keys), key.sessionID);
            if c > 1 then Counts(keys)[key.sessionID := c - 1] else Counts(keys) - {key.sessionID}
  {
    var rest := keys - {key};
    assert rest + {key} == keys;
    CountsAfterAdd(rest, key);
    CountsRead(rest, key.sessionID);
  }

  // ---------------------------------------------------------------- the reassembler

  /** reassemblyPool: the recycled entries that have not been handed out again. */
  class EntryPool {
    var free: set<PacketReassembly>

    constructor ()
      ensures free == {}
    {
      free := {};
    }
  }

  class Reassembler {
    const timeout: int
    var pending: map<Key, PacketReassembly>
    var sessionCount: map<uint32, nat>
    var closed: bool
    /** Shared with all other reassemblers. */
    const pool: EntryPool

    function State(): Table
      reads this, pending.Values
    {
      Table(map k | k in pending :: pending[k].Value(), closed)
    }

    /** Each pending entry knows its own key, so no two keys share an entry, and none is pooled. */
    ghost predicate Consistent()
      reads this, pending.Values, pool, pool.free
    {
      && (forall k :: k in pending ==> pending[k].Holds(k))
      && (forall e :: e in pool.free ==> e.Blank())
      && sessionCount == Counts(pending.Keys)
    }

    /** Every entry this reassembler may write to. */
    ghost function Owned(): set<PacketReassembly>
      reads this, pool
    {
      pending.Values + pool.free
    }

    ghost predicate Valid()
      reads this, pending.Values, pool, pool.free
    {
      Consistent() && GoodTable(State())
    }

    constructor (timeout: int, pool: EntryPool)
      requires forall e :: e in pool.free ==> e.Blank()
      ensures Valid() && State() == EMPTY_TABLE && this.pool == pool && pending == map[]
      ensures this.timeout == (if timeout <= 0 then DEFAULT_TIMEOUT else timeout)
    {
      this.timeout := if timeout <= 0 then DEFAULT_TIMEOUT else timeout;
      this.pool := pool;
      pending, sessionCount, closed := map[], map[], false;
      new;
      ShutdownKeepsGood(EMPTY_TABLE);
    }

    /** reassemblyPool.Get: a recycled entry or a new one, indistinguishable. */
    method TakeEntry() returns (entry: PacketReassembly)
      requires Consistent()
      modifies pool
      ensures Consistent() && entry.Blank() && entry !in pool.free && entry !in pending.Values
      ensures entry in old(pool.free) || fresh(entry)
      ensures pool.free <= old(pool.free)
    {
      var reuse: bool := *;
      if reuse && pool.free != {} {
        entry :| entry in pool.free;
        pool.free := pool.free - {entry};
      } else {
        entry := new PacketReassembly();
      }
    }

    /** reassemblyPool.Put; the pool may also let the entry go. */
    method ReturnEntry(entry: PacketReassembly)
      requires Consistent() && entry.Blank() && entry !in pending.Values
      modifies pool
      ensures Consistent() && pool.free <= old(pool.free) + {entry}
    {
      var keep: bool := *;
      if keep {
        pool.free := pool.free + {entry};
      }
    }

    method CountUp(key: Key)
      requires sessionCount == Counts(pending.Keys) && key !in pending
      modifies this`sessionCount
      ensures sessionCount == Counts(pending.Keys + {key})
    {
      CountsAfterAdd(pending.Keys, key);
      sessionCount := sessionCount[key.sessionID := CountAt(sessionCount, key.sessionID) + 1];
    }

    /** The session's last packet takes the counter with it. */
    method CountDown(key: Key)
      requires sessionCount == Counts(pending.Keys) && key in pending
      modifies this`sessionCount
      ensures sessionCount == Counts(pending.Keys - {key})
    {
      CountsAfterRemove(pending.Keys, key);
      var count := CountAt(sessionCount, key.sessionID);
      if count > 1 {
        sessionCount := sessionCount[key.sessionID := count - 1];
      } else {
        sessionCount := sessionCount - {key.sessionID};
      }
    }

    method Register(key: Key, entry: PacketReassembly)
      requires Consistent() && key !in pending && entry.Holds(key)
      modifies this`pending, this`sessionCount
      ensures Consistent() && pending == old(pending)[key := entry]
      ensures State() == old(State()).(pending := old(State()).pending[key := entry.Value()])
    {
      CountUp(key);
      pending := pending[key := entry];
      assert pending.Keys == old(pending.Keys) + {key};
      assert State().pending == old(State()).pending[key := entry.Value()];
    }

    method Unregister(key: Key)
      requires Consistent() && key in pending
      modifies this`pending, this`sessionCount
      ensures Consistent() && pending == old(pending) - {key}
    {
      CountDown(key);
      pending := pending - {key};
      assert pending.Keys == old(pending.Keys) - {key};
    }

    /** Takes an entry and starts the packet in it. */
    method NewEntry(key: Key, fragmentCount: uint8, now: int) returns (entry: PacketReassembly)
      requires Consistent() && key !in pending && 2 <= fragmentCount <= MAX_FRAGMENTS
      modifies this`pending, this`sessionCount, pool, pool.free
      ensures Consistent() && pending == old(pending)[key := entry]
      ensures Owned() <= old(Owned()) + {entry} && (entry in old(pool.free) || fresh(entry))
      ensures State() == old(State()).(pending := old(State()).pending[key := Started(fragmentCount, now)])
    {
      entry := TakeEntry();
      entry.Start(key, fragmentCount, now);
      assert State() == old(State());
      Register(key, entry);
    }

    /** Drops an entry from the table and recycles it. */
    method DeleteEntry(key: Key, entry: PacketReassembly)
      requires Consistent() && key in pending && pending[key] == entry
      modifies this`pending, this`sessionCount, pool, entry
      ensures Consistent() && pending == old(pending) - {key} && Owned() <= old(Owned())
      ensures State() == Without(old(State()), key) && entry.Blank()
    {
      Unregister(key);
      RecycleUnused(entry);
    }

    /** Recycles an entry that is no longer in the table. */
    method RecycleUnused(entry: PacketReassembly)
      requires Consistent() && entry.Shape() && entry !in pending.Values
      modifies pool, entry
      ensures Consistent() && State() == old(State()) && pool.free <= old(pool.free) + {entry} && entry.Blank()
    {
      entry.Recycle();
      ReturnEntry(entry);
    }

    /** The entry is full: hand the packet over and recycle the entry. */
    method Complete(key: Key, entry: PacketReassembly) returns (out: Outcome)
      requires Consistent() && key in pending && pending[key] == entry
      modifies this`pending, this`sessionCount, pool, entry
      ensures Consistent() && Owned() <= old(Owned())
      ensures State() == Without(old(State()), key) && entry.Blank()
      ensures out == Assembled(Contents(old(entry.fragments), old(entry.fragmentCount)))
    {
      var assembled := entry.Assemble();
      DeleteEntry(key, entry);
      return Assembled(assembled);
    }

    /** Stores a fragment unless it is a duplicate. */
    method Store(key: Key, entry: PacketReassembly, id: nat, payload: bytes) returns (isNew: bool)
      requires Consistent() && key in pending && pending[key] == entry && id < entry.fragmentCount
      modifies entry
      ensures Consistent() && Owned() == old(Owned()) && isNew == old(entry.fragments)[id].None?
      ensures entry.Value() == if isNew then WithFragment(old(entry.Value()), id, payload) else old(entry.Value())
      ensures State() == old(State()).(pending := old(State()).pending[key := entry.Value()])
    {
      isNew := entry.fragments[id].None?;
      if isNew {
        entry.Place(id, payload);
      }
      assert State().pending == old(State()).pending[key := entry.Value()];
    }

    /** The fragment's key has this entry: reject a different fragment count, store the fragment
        unless it is a duplicate, and hand the packet over when it was the last one missing. */
    method Match(key: Key, entry: PacketReassembly, h: Header, payload: bytes) returns (out: Outcome)
      requires Consistent() && key in pending && pending[key] == entry && h.fragmentID < h.fragmentCount
      modifies this`pending, this`sessionCount, pool, entry
      ensures Consistent() && Owned() <= old(Owned()) && (key !in pending ==> entry.Blank())
      ensures (State(), out) == MatchStep(old(State()), key, old(entry.Value()), h, payload)
    {
      if entry.fragmentCount != h.fragmentCount {
        DeleteEntry(key, entry);
        return Failed(BadFragment);
      }
      var isNew := Store(key, entry, h.fragmentID, payload);
      assert State().pending - {key} == old(State()).pending - {key};
      if isNew && entry.totalBytes > MAX_PACKET_SIZE {
        DeleteEntry(key, entry);
        return Failed(CorruptSize);
      }
      if entry.receivedCount == entry.fragmentCount {
        out := Complete(key, entry);
        return;
      }
      return NeedMore;
    }

    /** The pending entry of the key, or a new one if both limits allow it, or null. */
    method FindOrAdmit(key: Key, fragmentCount: uint8, now: int) returns (entry: PacketReassembly?)
      requires Consistent() && 2 <= fragmentCount <= MAX_FRAGMENTS
      modifies this`pending, this`sessionCount, pool, pool.free
      ensures Consistent()
      ensures entry == null <==> !Admitted(old(State()), key)
      ensures entry == null ==> State() == old(State()) && Owned() == old(Owned())
      ensures entry != null ==>
                && key in pending && pending[key] == entry
                && Owned() <= old(Owned()) + {entry} && (entry in old(Owned()) || fresh(entry))
                && State() == old(State()).(
                     pending := old(State()).pending[key := EntryOf(old(State()), key, fragmentCount, now)])
    {
      if key in pending {
        assert State().pending == old(State()).pending[key := pending[key].Value()];
        return pending[key];
      }
      CountsRead(pending.Keys, key.sessionID);
      assert State().pending.Keys == pending.Keys;
      if |pending| >= MAX_GLOBAL {
        return null;
      }
      if CountAt(sessionCount, key.sessionID) >= MAX_PER_SESSION {
        return null;
      }
      entry := NewEntry(key, fragmentCount, now);
    }

    method FeedFragment(h: Header, payload: bytes, now: int) returns (out: Outcome)
      requires Consistent() && ValidFragment(h) && h.fragmentCount != 1
      modifies this`pending, this`sessionCount, pending.Values, pool, pool.free
      ensures Consistent()
      ensures forall e :: e in Owned() ==> e in old(Owned()) || fresh(e)
      ensures (State(), out) == if !Admitted(old(State()), KeyOf(h)) then (old(State()), Failed(LimitExceeded))
                                else MatchStep(old(State()), KeyOf(h), PartialOf(old(State()), h, now), h, payload)
    {
      ghost var t := State();
      var key := Key(h.sessionID, h.packetID);
      var entry := FindOrAdmit(key, h.fragmentCount, now);
      if entry == null {
        return Failed(LimitExceeded);
      }
      ghost var p := PartialOf(t, h, now);
      assert p == entry.Value() by {
        assert State().pending[key] == entry.Value();
      }
      MatchingOverwrites(t, key, p, h, payload);
      out := Match(key, entry, h, payload);
    }

    method FeedAppend(h: Header, payload: bytes, now: int) returns (out: Outcome)
      requires Valid()
      modifies this`pending, this`sessionCount, pending.Values, pool, pool.free
      ensures Valid()
      ensures forall e :: e in Owned() ==> e in old(Owned()) || fresh(e)
      ensures (State(), out) == FeedStep(old(State()), h, payload, now)
    {
      FeedKeepsGood(State(), h, payload, now);
      if h.fragmentCount == 1 && h.fragmentID == 0 {
        return Assembled(payload);
      }
      if h.fragmentCount == 0 || h.fragmentID >= h.fragmentCount || h.fragmentCount > MAX_FRAGMENTS {
        return Failed(BadFragment);
      }
      if closed {
        return Failed(ReassemblerClosed);
      }
      out := FeedFragment(h, payload, now);
    }

    /** One pending packet seen by the cleaner's tick. */
    method ExpireOne(
      k: Key, deadline: int, ghost t: Table, ghost todo: set<Key>, ghost entries: map<Key, PacketReassembly>)
      requires Consistent() && k in todo && todo <= pending.Keys
      requires k in entries && entries[k] == pending[k]
      requires State() == Remaining(t, todo, deadline) && AllBlank(Dropped(entries, t, todo, deadline))
      modifies this`pending, this`sessionCount, pool, pending[k]
      ensures Consistent() && todo - {k} <= pending.Keys
      ensures forall k' :: k' in todo - {k} ==> pending[k'] == old(pending)[k']
      ensures Owned() <= old(Owned())
      ensures State() == Remaining(t, todo - {k}, deadline)
      ensures AllBlank(Dropped(entries, t, todo - {k}, deadline))
    {
      var entry := pending[k];
      assert todo <= State().pending.Keys;
      assert State().pending[k] == entry.Value() == t.pending[k];
      RemainingStep(t, todo, k, deadline);
      DroppedStep(entries, t, todo, k, deadline);
      if entry.createdAt < deadline {
        DeleteEntry(k, entry);
      }
    }

    method ExpireAll(deadline: int, ghost t: Table)
      requires Consistent() && State() == t
      modifies this`pending, this`sessionCount, pool, pending.Values
      ensures Consistent() && Owned() <= old(Owned())
      ensures State() == Remaining(t, {}, deadline)
      ensures AllBlank(Dropped(old(pending), t, {}, deadline))
    {
      ghost var entries := pending;
      var todo := pending.Keys;
      RemainingEnds(t, deadline);
      NothingDropped(entries, t, deadline);
      while todo != {}
        invariant Consistent() && todo <= pending.Keys
        invariant forall k :: k in todo ==> k in entries && pending[k] == entries[k]
        invariant Owned() <= old(Owned())
        invariant AllBlank(Dropped(entries, t, todo, deadline))
        invariant State() == Remaining(t, todo, deadline)
        decreases |todo|
      {
        var k :| k in todo;
        assert pending[k] in entries.Values;
        ExpireOne(k, deadline, t, todo, entries);
        todo := todo - {k};
      }
    }

    /** The cleaner's tick: every packet started before the deadline, which is the time of the tick
        less the timeout, is dropped and recycled. */
    method ExpireOld(deadline: int)
      requires Valid()
      modifies this`pending, this`sessionCount, pool, pending.Values
      ensures Valid() && Owned() <= old(Owned())
      ensures State() == ExpireStep(old(State()), deadline)
      ensures AllBlank(Dropped(old(pending), old(State()), {}, deadline))
    {
      ghost var t := State();
      RemainingEnds(t, deadline);
      ExpireKeepsGood(t, deadline);
      ExpireAll(deadline, t);
    }

    /** Recycles one pending entry, leaving the table itself alone. */
    method RecycleOne(entry: PacketReassembly)
      requires entry.Shape() && forall e :: e in pool.free ==> e.Blank()
      modifies pool, entry
      ensures entry.Blank() && pool.free <= old(pool.free) + {entry}
      ensures forall e :: e in pool.free ==> e.Blank()
    {
      entry.Recycle();
      var keep: bool := *;
      if keep {
        pool.free := pool.free + {entry};
      }
    }

    /** One pending packet at shutdown. The others still hold their own keys. */
    method RecycleKey(k: Key, ghost todo: set<Key>)
      requires k in todo && todo <= pending.Keys && (forall i :: i in todo ==> pending[i].Holds(i))
      requires forall i :: i in pending && i !in todo ==> pending[i].Blank()
      requires forall e :: e in pool.free ==> e.Blank()
      modifies pool, pending[k]
      ensures forall i :: i in todo - {k} ==> pending[i].Holds(i)
      ensures (forall e :: e in pool.free ==> e.Blank()) && Owned() <= old(Owned())
      ensures forall i :: i in pending && i !in todo - {k} ==> pending[i].Blank()
    {
      assert pending[k] in pending.Values;
      RecycleOne(pending[k]);
    }

    method RecycleAll()
      requires Consistent()
      modifies pool, pending.Values
      ensures (forall e :: e in pool.free ==> e.Blank()) && Owned() <= old(Owned())
      ensures forall e :: e in pending.Values ==> e.Blank()
    {
      var todo := pending.Keys;
      while todo != {}
        invariant todo <= pending.Keys
        invariant forall k :: k in todo ==> pending[k].Holds(k)
        invariant forall k :: k in pending && k !in todo ==> pending[k].Blank()
        invariant forall e :: e in pool.free ==> e.Blank()
        invariant Owned() <= old(Owned())
        decreases |todo|
      {
        var k :| k in todo;
        assert pending[k] in pending.Values;
        RecycleKey(k, todo);
        todo := todo - {k};
      }
    }

    method Forget()
      requires forall e :: e in pool.free ==> e.Blank()
      modifies this`pending, this`sessionCount, this`closed
      ensures Consistent() && Owned() <= old(Owned()) && State() == Table(map[], true)
    {
      closed, pending, sessionCount := true, map[], map[];
      assert State().pending == map[];
    }

    /** The end of the cleaner: no packet is pending any more and none is accepted from now on. */
    method Shutdown()
      requires Valid()
      modifies this`pending, this`sessionCount, this`closed, pool, pending.Values
      ensures Valid() && Owned() <= old(Owned())
      ensures State() == ShutdownStep(old(State()))
      ensures forall e :: e in old(pending.Values) ==> e.Blank()
    {
      ShutdownKeepsGood(State());
      RecycleAll();
      Forget();
    }
  }

  // ---------------------------------------------------------------- reassemblers side by side

  /** What a reassembler can be asked to do. */
  datatype Request =
    | Feeding(h: Header, payload: bytes, now: int)
    | Expiring(deadline: int)
    | ShuttingDown

  function RequestStep(t: Table, q: Request): Table
    requires Shaped(t)
  {
    match q
    case Feeding(h, payload, now) => FeedStep(t, h, payload, now).0
    case Expiring(deadline) => ExpireStep(t, deadline)
    case ShuttingDown => ShutdownStep(t)
  }

  /** Two reassemblers with one pool and no pending packet in common. */
  ghost predicate SideBySide(a: Reassembler, b: Reassembler)
    reads a, b
  {
    a != b && a.pool == b.pool && a.pending.Values !! b.pending.Values
  }

  /** A pending entry is not in the pool, whoever put the others there. */
  lemma PendingIsNotFree(r: Reassembler)
    requires r.Consistent()
    ensures r.pending.Values !! r.pool.free
  {
  }

  /** What was apart stays apart if a request brings only entries of one's own, or new ones. */
  lemma StillApart(mine: set<PacketReassembly>, owned: set<PacketReassembly>, others: set<PacketReassembly>)
    requires owned !! others && forall e :: e in mine ==> e in owned || e !in others
    ensures mine !! others
  {
  }

  /** A reassembler does not mind what the pool holds, as long as it is blank. */
  twostate lemma Unharmed(b: Reassembler)
    requires old(b.Valid()) && unchanged(b) && unchanged(old(b.pending.Values))
    requires forall e :: e in b.pool.free ==> e.Blank()
    ensures b.Valid() && b.State() == old(b.State())
  {
    assert b.State() == old(b.State());
  }

  method FeedBeside(a: Reassembler, b: Reassembler, h: Header, payload: bytes, now: int)
    requires a.Valid() && b.Valid() && SideBySide(a, b)
    modifies a, a.pending.Values, a.pool, a.pool.free
    ensures a.Valid() && a.State() == FeedStep(old(a.State()), h, payload, now).0
    ensures b.Valid() && b.State() == old(b.State()) && SideBySide(a, b)
  {
    PendingIsNotFree(b);
    ghost var owned, others := a.Owned(), b.pending.Values;
    var _ := a.FeedAppend(h, payload, now);
    assert a.pending.Values <= a.Owned();
    StillApart(a.pending.Values, owned, others);
    Unharmed(b);
  }

  method ExpireApart(a: Reassembler, deadline: int, ghost others: set<PacketReassembly>)
    requires a.Valid() && a.Owned() !! others
    modifies a, a.pending.Values, a.pool
    ensures a.Valid() && a.State() == ExpireStep(old(a.State()), deadline) && a.pending.Values !! others
  {
    ghost var owned := a.Owned();
    a.ExpireOld(deadline);
    assert a.pending.Values <= a.Owned() <= owned;
  }

  method ExpireBeside(a: Reassembler, b: Reassembler, deadline: int)
    requires a.Valid() && b.Valid() && SideBySide(a, b)
    modifies a, a.pending.Values, a.pool
    ensures a.Valid() && a.State() == ExpireStep(old(a.State()), deadline)
    ensures b.Valid() && b.State() == old(b.State()) && SideBySide(a, b)
  {
    PendingIsNotFree(b);
    ghost var others := b.pending.Values;
    ExpireApart(a, deadline, others);
    Unharmed(b);
  }

  method ShutdownBeside(a: Reassembler, b: Reassembler)
    requires a.Valid() && b.Valid() && SideBySide(a, b)
    modifies a, a.pending.Values, a.pool, a.pool.free
    ensures a.Valid() && a.State() == ShutdownStep(old(a.State()))
    ensures b.Valid() && b.State() == old(b.State()) && SideBySide(a, b)
  {
    PendingIsNotFree(b);
    ghost var owned, others := a.Owned(), b.pending.Values;
    a.Shutdown();
    assert a.pending.Values <= a.Owned();
    StillApart(a.pending.Values, owned, others);
    Unharmed(b);
  }

  /** Entries wander from one reassembler to another through the pool, and yet nothing one of them
      is asked to do touches a packet that is pending in the other. */
  method Beside(a: Reassembler, b: Reassembler, q: Request)
    requires a.Valid() && b.Valid() && SideBySide(a, b)
    modifies a, a.pending.Values, a.pool, a.pool.free
    ensures a.Valid() && a.State() == RequestStep(old(a.State()), q)
    ensures b.Valid() && b.State() == old(b.State()) && SideBySide(a, b)
  {
    match q {
      case Feeding(h, payload, now) => FeedBeside(a, b, h, payload, now);
      case Expiring(deadline) => ExpireBeside(a, b, deadline);
      case ShuttingDown => ShutdownBeside(a, b);
    }
  }

  // ---------------------------------------------------------------- the cleaner's tick, key by key

  /** The table after the cleaner has looked at every key but those still to do. */
  function Remaining(t: Table, todo: set<Key>, deadline: int): Table
  {
    Table(map k | k in t.pending && (k in todo || !Overdue(t.pending[k], deadline)) :: t.pending[k], t.closed)
  }

  /** The entries of the overdue packets the cleaner has looked at. */
  ghost function Dropped(entries: map<Key, PacketReassembly>, t: Table, todo: set<Key>, deadline: int):
    set<PacketReassembly>
  {
    set k | k in entries && k in t.pending && k !in todo && Overdue(t.pending[k], deadline) :: entries[k]
  }

  ghost predicate AllBlank(entries: set<PacketReassembly>)
    reads entries
  {
    forall e :: e in entries ==> e.Blank()
  }

  lemma DroppedStep(entries: map<Key, PacketReassembly>, t: Table, todo: set<Key>, k: Key, deadline: int)
    requires k in todo && k in entries && k in t.pending
    ensures Dropped(entries, t, todo - {k}, deadline)
         == Dropped(entries, t, todo, deadline) + if Overdue(t.pending[k], deadline) then {entries[k]} else {}
  {
  }

  lemma NothingDropped(entries: map<Key, PacketReassembly>, t: Table, deadline: int)
    ensures Dropped(entries, t, t.pending.Keys, deadline) == {}
  {
  }

  lemma RemainingEnds(t: Table, deadline: int)
    ensures Remaining(t, t.pending.Keys, deadline) == t
    ensures Remaining(t, {}, deadline) == ExpireStep(t, deadline)
  {
    assert Remaining(t, t.pending.Keys, deadline).pending == t.pending;
  }

  lemma RemainingStep(t: Table, todo: set<Key>, k: Key, deadline: int)
    requires k in todo && todo <= t.pending.Keys
    ensures Remaining(t, todo - {k}, deadline)
         == if Overdue(t.pending[k], deadline) then Without(Remaining(t, todo, deadline), k)
            else Remaining(t, todo, deadline)
  {
  }
}
