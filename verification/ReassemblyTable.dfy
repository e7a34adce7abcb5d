/** The table of half-received packets of internal/udp/reassembly.go as a value: one step for a
    fragment, for the cleaner's tick and for shutdown, and what every step keeps. */
module ReassemblyTable {
  import opened Words
  import opened UDPFrame

  const MAX_PER_SESSION: nat := 32
  const MAX_GLOBAL: nat := 1024

  datatype Key = Key(sessionID: uint32, packetID: uint32)

  /** A packet some of whose fragments have arrived. */
  datatype Partial = Partial(
    fragmentCount: uint8,
    receivedCount: nat,
    totalBytes: nat,
    fragments: seq<Option<bytes>>,
    createdAt: int)

  datatype Table = Table(pending: map<Key, Partial>, closed: bool)

  datatype FeedError = BadFragment | LimitExceeded | CorruptSize | ReassemblerClosed

  datatype Outcome = NeedMore | Assembled(packet: bytes) | Failed(error: FeedError)

  const EMPTY_TABLE := Table(map[], false)

  function NoFragments(): (slots: seq<Option<bytes>>)
    ensures |slots| == MAX_FRAGMENTS
  {
    seq(MAX_FRAGMENTS, i => None)
  }

  // ---------------------------------------------------------------- counting

  function KeysOf(keys: set<Key>, s: uint32): set<Key>
  {
    set k | k in keys && k.sessionID == s
  }

  /** The number of filled slots among the first n. */
  function Filled(slots: seq<Option<bytes>>, n: nat): (c: nat)
    requires n <= |slots|
    ensures c <= n
  {
    if n == 0 then 0 else Filled(slots, n - 1) + (if slots[n - 1].Some? then 1 else 0)
  }

  /** The bytes held by the first n slots. */
  function Held(slots: seq<Option<bytes>>, n: nat): nat
    requires n <= |slots|
  {
    if n == 0 then 0 else Held(slots, n - 1) + (if slots[n - 1].Some? then |slots[n - 1].value| else 0)
  }

  function Contents(slots: seq<Option<bytes>>, n: nat): bytes
    requires n <= |slots|
  {
    if n == 0 then [] else Contents(slots, n - 1) + (if slots[n - 1].Some? then slots[n - 1].value else [])
  }

  // ---------------------------------------------------------------- the steps

  function Started(fragmentCount: uint8, now: int): Partial
  {
    Partial(fragmentCount, 0, 0, NoFragments(), now)
  }

  function WithFragment(p: Partial, id: nat, payload: bytes): Partial
    requires id < |p.fragments|
  {
    p.(receivedCount := p.receivedCount + 1,
       totalBytes := p.totalBytes + |payload|,
       fragments := p.fragments[id := Some(payload)])
  }

  function Without(t: Table, key: Key): Table
  {
    t.(pending := t.pending - {key})
  }

  predicate Admitted(t: Table, key: Key)
  {
    key in t.pending || (|t.pending| < MAX_GLOBAL && |KeysOf(t.pending.Keys, key.sessionID)| < MAX_PER_SESSION)
  }

  function KeyOf(h: Header): Key
  {
    Key(h.sessionID, h.packetID)
  }

  /** What becomes of the packet p of this key when fragment id arrives for it. */
  function StoreStep(t: Table, key: Key, p: Partial, id: nat, payload: bytes): (Table, Outcome)
    requires id < |p.fragments| && p.fragmentCount <= |p.fragments|
  {
    var isNew := p.fragments[id].None?;
    var p' := if isNew then WithFragment(p, id, payload) else p;
    if isNew && p'.totalBytes > MAX_PACKET_SIZE then (Without(t, key), Failed(CorruptSize))
    else if p'.receivedCount == p'.fragmentCount then
      (Without(t, key), Assembled(Contents(p'.fragments, p'.fragmentCount)))
    else (t.(pending := t.pending[key := p']), NeedMore)
  }

  function EntryOf(t: Table, key: Key, fragmentCount: uint8, now: int): Partial
  {
    if key in t.pending then t.pending[key] else Started(fragmentCount, now)
  }

  /** What becomes of a fragment once its key has the packet p. */
  function MatchStep(t: Table, key: Key, p: Partial, h: Header, payload: bytes): (Table, Outcome)
    requires h.fragmentID < h.fragmentCount && p.fragmentCount <= |p.fragments|
  {
    if p.fragmentCount != h.fragmentCount then (Without(t, key), Failed(BadFragment))
    else StoreStep(t, key, p, h.fragmentID, payload)
  }

  function PartialOf(t: Table, h: Header, now: int): Partial
  {
    EntryOf(t, KeyOf(h), h.fragmentCount, now)
  }

  predicate Shaped(t: Table)
  {
    forall k :: k in t.pending ==> |t.pending[k].fragments| == MAX_FRAGMENTS >= t.pending[k].fragmentCount
  }

  function FeedStep(t: Table, h: Header, payload: bytes, now: int): (Table, Outcome)
    requires Shaped(t)
  {
    if h.fragmentCount == 1 && h.fragmentID == 0 then (t, Assembled(payload))
    else if !ValidFragment(h) then (t, Failed(BadFragment))
    else if t.closed then (t, Failed(ReassemblerClosed))
    else if !Admitted(t, KeyOf(h)) then (t, Failed(LimitExceeded))
    else MatchStep(t, KeyOf(h), PartialOf(t, h, now), h, payload)
  }

  predicate Overdue(p: Partial, deadline: int)
  {
    p.createdAt < deadline
  }

  function ExpireStep(t: Table, deadline: int): Table
  {
    Table(map k | k in t.pending && !Overdue(t.pending[k], deadline) :: t.pending[k], t.closed)
  }

  function ShutdownStep(t: Table): Table
  {
    Table(map[], true)
  }

  /** After shutdown no fragment of a larger packet is taken; a packet in one fragment passes
      through as ever, without touching the table. */
  lemma ClosedTakesNoFragment(t: Table, h: Header, payload: bytes, now: int)
    requires Shaped(t) && t.closed
    ensures FeedStep(t, h, payload, now).0 == t
    ensures FeedStep(t, h, payload, now).1.Failed? <==> !(h.fragmentCount == 1 && h.fragmentID == 0)
  {
  }

  lemma MatchingOverwrites(t: Table, key: Key, p: Partial, h: Header, payload: bytes)
    requires h.fragmentID < h.fragmentCount && p.fragmentCount <= |p.fragments|
    ensures MatchStep(t.(pending := t.pending[key := p]), key, p, h, payload) == MatchStep(t, key, p, h, payload)
  {
    assert t.pending[key := p] - {key} == t.pending - {key};
    if p.fragmentCount == h.fragmentCount {
      var q := if p.fragments[h.fragmentID].None? then WithFragment(p, h.fragmentID, payload) else p;
      assert t.pending[key := p][key := q] == t.pending[key := q];
    }
  }

  // ---------------------------------------------------------------- the invariant

  predicate GoodPartial(p: Partial)
  {
    && 2 <= p.fragmentCount <= MAX_FRAGMENTS == |p.fragments|
    && (forall i :: p.fragmentCount <= i < MAX_FRAGMENTS ==> p.fragments[i].None?)
    && p.receivedCount == Filled(p.fragments, p.fragmentCount) < p.fragmentCount
    && p.totalBytes == Held(p.fragments, p.fragmentCount) <= MAX_PACKET_SIZE
  }

  /** Both admission limits are respected. */
  ghost predicate WithinLimits(keys: set<Key>)
  {
    && |keys| <= MAX_GLOBAL
    && (forall s: uint32 :: |KeysOf(keys, s)| <= MAX_PER_SESSION)
  }

  ghost predicate GoodTable(t: Table)
  {
    && (forall k :: k in t.pending ==> GoodPartial(t.pending[k]))
    && WithinLimits(t.pending.Keys)
    && (t.closed ==> t.pending == map[])
  }

  lemma {:induction false} FilledAfter(slots: seq<Option<bytes>>, id: nat, payload: bytes, n: nat)
    requires id < |slots| && n <= |slots| && slots[id].None?
    ensures var slots' := slots[id := Some(payload)];
            && Filled(slots', n) == Filled(slots, n) + (if id < n then 1 else 0)
            && Held(slots', n) == Held(slots, n) + (if id < n then |payload| else 0)
  {
    if n > 0 {
      FilledAfter(slots, id, payload, n - 1);
    }
  }

  lemma {:induction false} NothingFilled(slots: seq<Option<bytes>>, n: nat)
    requires n <= |slots| && forall i :: 0 <= i < n ==> slots[i].None?
    ensures Filled(slots, n) == 0 && Held(slots, n) == 0
  {
    if n > 0 {
      NothingFilled(slots, n - 1);
    }
  }

  /** Every slot is filled exactly when the counter says so. */
  lemma {:induction false} AllFilled(slots: seq<Option<bytes>>, n: nat)
    requires n <= |slots|
    ensures Filled(slots, n) == n <==> forall i :: 0 <= i < n ==> slots[i].Some?
  {
    if n > 0 {
      AllFilled(slots, n - 1);
    }
  }

  lemma KeysOfAdd(keys: set<Key>, key: Key, s: uint32)
    requires key !in keys
    ensures |KeysOf(keys + {key}, s)| == |KeysOf(keys, s)| + (if key.sessionID == s then 1 else 0)
  {
    assert KeysOf(keys + {key}, s) == if key.sessionID == s then KeysOf(keys, s) + {key} else KeysOf(keys, s);
  }

  lemma KeysOfSubset(keys: set<Key>, keys': set<Key>, s: uint32)
    requires keys <= keys'
    ensures |KeysOf(keys, s)| <= |KeysOf(keys', s)|
  {
    SubsetSize(KeysOf(keys, s), KeysOf(keys', s));
  }

  lemma FewerKeysWithinLimits(keys: set<Key>, keys': set<Key>)
    requires WithinLimits(keys') && keys <= keys'
    ensures WithinLimits(keys)
  {
    SubsetSize(keys, keys');
    forall s: uint32
      ensures |KeysOf(keys, s)| <= MAX_PER_SESSION
    {
      KeysOfSubset(keys, keys', s);
    }
  }

  lemma AdmittedWithinLimits(keys: set<Key>, key: Key)
    requires WithinLimits(keys)
    requires key in keys || (|keys| < MAX_GLOBAL && |KeysOf(keys, key.sessionID)| < MAX_PER_SESSION)
    ensures WithinLimits(keys + {key})
  {
    if key in keys {
      assert keys + {key} == keys;
    } else {
      forall s: uint32
        ensures |KeysOf(keys + {key}, s)| <= MAX_PER_SESSION
      {
        KeysOfAdd(keys, key, s);
      }
    }
  }

  lemma FewerPendingStaysGood(t: Table, pending: map<Key, Partial>)
    requires GoodTable(t) && pending.Keys <= t.pending.Keys
    requires forall k :: k in pending ==> pending[k] == t.pending[k]
    ensures GoodTable(t.(pending := pending))
  {
    FewerKeysWithinLimits(pending.Keys, t.pending.Keys);
  }

  lemma AdmittedKeys(t: Table, key: Key)
    requires WithinLimits(t.pending.Keys) && Admitted(t, key)
    ensures WithinLimits(t.pending.Keys + {key})
  {
    assert |t.pending| == |t.pending.Keys|;
    AdmittedWithinLimits(t.pending.Keys, key);
  }

  lemma OnePendingMoreStaysGood(t: Table, key: Key, p: Partial)
    requires GoodTable(t) && !t.closed && Admitted(t, key) && GoodPartial(p)
    ensures GoodTable(t.(pending := t.pending[key := p]))
  {
    AdmittedKeys(t, key);
    assert t.pending[key := p].Keys == t.pending.Keys + {key};
  }

  lemma GoodAfterFragment(p: Partial, id: nat, payload: bytes)
    requires id < p.fragmentCount
    requires GoodPartial(p) && p.fragments[id].None?
    ensures var p' := WithFragment(p, id, payload);
            p'.receivedCount != p'.fragmentCount && p'.totalBytes <= MAX_PACKET_SIZE ==> GoodPartial(p')
  {
    FilledAfter(p.fragments, id, payload, p.fragmentCount);
  }

  lemma StartedIsGood(fragmentCount: uint8, now: int)
    requires 2 <= fragmentCount <= MAX_FRAGMENTS
    ensures GoodPartial(Started(fragmentCount, now))
  {
    NothingFilled(NoFragments(), fragmentCount);
  }

  lemma StoreKeepsGood(t: Table, key: Key, p: Partial, id: nat, payload: bytes)
    requires GoodTable(t) && !t.closed && Admitted(t, key)
    requires GoodPartial(p) && id < p.fragmentCount
    ensures GoodTable(StoreStep(t, key, p, id, payload).0)
  {
    FewerPendingStaysGood(t, t.pending - {key});
    if StoreStep(t, key, p, id, payload).1 == NeedMore {
      if p.fragments[id].None? {
        GoodAfterFragment(p, id, payload);
        OnePendingMoreStaysGood(t, key, WithFragment(p, id, payload));
      } else {
        OnePendingMoreStaysGood(t, key, p);
      }
    }
  }

  /** What a fragment, an expiry tick and shutdown all keep: counters that agree with the slots,
      packets that are really incomplete and small enough, and both admission limits. */
  lemma FeedKeepsGood(t: Table, h: Header, payload: bytes, now: int)
    requires GoodTable(t)
    ensures GoodTable(FeedStep(t, h, payload, now).0)
  {
    var key, p := KeyOf(h), PartialOf(t, h, now);
    if ValidFragment(h) && h.fragmentCount != 1 && !t.closed && Admitted(t, key) {
      StartedIsGood(h.fragmentCount, now);
      if p.fragmentCount == h.fragmentCount {
        StoreKeepsGood(t, key, p, h.fragmentID, payload);
      } else {
        FewerPendingStaysGood(t, t.pending - {key});
      }
    }
  }

  lemma ExpireKeepsGood(t: Table, deadline: int)
    requires GoodTable(t)
    ensures GoodTable(ExpireStep(t, deadline))
  {
    FewerPendingStaysGood(t, ExpireStep(t, deadline).pending);
  }

  lemma ShutdownKeepsGood(t: Table)
    requires GoodTable(t)
    ensures GoodTable(ShutdownStep(t)) && GoodTable(EMPTY_TABLE)
    ensures ShutdownStep(t).pending == map[] && ShutdownStep(t).closed
  {
    assert forall s: uint32 :: KeysOf({}, s) == {};
  }

  // ---------------------------------------------------------------- who gets in, and for how long

  /** Another packet under this key is not one too many, in all or for its session. */
  predicate RoomFor(t: Table, key: Key)
  {
    key !in t.pending ==> |t.pending| < 1024 && |KeysOf(t.pending.Keys, key.sessionID)| < 32
  }

  /** A fragment of a larger packet is refused for want of room exactly if its packet is not pending
      and 1024 others are, or 32 of its session; and then nothing changes. */
  lemma RefusedExactly(t: Table, h: Header, payload: bytes, now: int)
    requires GoodTable(t) && !t.closed && ValidFragment(h) && h.fragmentCount != 1
    ensures FeedStep(t, h, payload, now).1 == Failed(LimitExceeded) <==>
              && KeyOf(h) !in t.pending
              && (|t.pending| == 1024 || |KeysOf(t.pending.Keys, h.sessionID)| == 32)
    ensures FeedStep(t, h, payload, now).1 == Failed(LimitExceeded) ==> FeedStep(t, h, payload, now).0 == t
    ensures FeedStep(t, h, payload, now).1 == Failed(LimitExceeded) <==> !RoomFor(t, KeyOf(h))
  {
    assert |t.pending| == |t.pending.Keys|;
  }

  /** The slots of a packet of which one fragment is there. */
  predicate OnlySlot(slots: seq<Option<bytes>>, id: nat, payload: bytes)
  {
    && |slots| == 64 && id < 64
    && forall i :: 0 <= i < 64 ==> slots[i] == if i == id then Some(payload) else None
  }

  /** A packet begun at that time, of which this fragment is there. */
  predicate BegunWith(p: Partial, h: Header, payload: bytes, now: int)
  {
    && p.fragmentCount == h.fragmentCount && p.receivedCount == 1 && p.totalBytes == |payload|
    && p.createdAt == now && OnlySlot(p.fragments, h.fragmentID, payload)
  }

  lemma StoringFirst(t: Table, key: Key, h: Header, payload: bytes, now: int)
    requires ValidFragment(h) && h.fragmentCount != 1 && key !in t.pending
    ensures var p := WithFragment(Started(h.fragmentCount, now), h.fragmentID, payload);
            && BegunWith(p, h, payload, now)
            && StoreStep(t, key, Started(h.fragmentCount, now), h.fragmentID, payload)
               == if |payload| > 65535 then (Without(t, key), Failed(CorruptSize))
                  else (t.(pending := t.pending[key := p]), NeedMore)
  {
  }

  /** The first fragment of a packet for which there is room begins it: its packet is pending from
      then on with that fragment and the time. Only one too large for any packet is refused. */
  lemma FirstFragmentBegins(t: Table, h: Header, payload: bytes, now: int)
    requires GoodTable(t) && !t.closed && ValidFragment(h) && h.fragmentCount != 1
    requires KeyOf(h) !in t.pending && RoomFor(t, KeyOf(h))
    ensures var (t', out) := FeedStep(t, h, payload, now);
            if |payload| > 65535 then (t', out) == (t, Failed(CorruptSize))
            else
              && out == NeedMore && t'.pending.Keys == t.pending.Keys + {KeyOf(h)} && !t'.closed
              && t'.pending - {KeyOf(h)} == t.pending && BegunWith(t'.pending[KeyOf(h)], h, payload, now)
  {
    StoringFirst(t, KeyOf(h), h, payload, now);
    AddedAlone(t.pending, KeyOf(h), WithFragment(Started(h.fragmentCount, now), h.fragmentID, payload));
    assert Without(t, KeyOf(h)) == t;
  }

  lemma AddedAlone(pending: map<Key, Partial>, key: Key, p: Partial)
    requires key !in pending
    ensures pending[key := p].Keys == pending.Keys + {key} && pending[key := p] - {key} == pending
    ensures pending - {key} == pending
  {
  }

  /** A fragment of a pending packet: one with another count ends the packet, a duplicate changes
      nothing, and one that makes the packet too large ends it as well. */
  lemma PendingFragmentExactly(t: Table, h: Header, payload: bytes, now: int)
    requires GoodTable(t) && !t.closed && ValidFragment(h) && h.fragmentCount != 1 && KeyOf(h) in t.pending
    ensures var p := t.pending[KeyOf(h)];
            var (t', out) := FeedStep(t, h, payload, now);
            && (out == Failed(BadFragment) <==> h.fragmentCount != p.fragmentCount)
            && (out == Failed(CorruptSize) <==>
                  h.fragmentCount == p.fragmentCount && p.fragments[h.fragmentID].None?
                  && p.totalBytes + |payload| > 65535)
            && (out.Failed? ==> KeyOf(h) !in t'.pending && t'.pending == t.pending - {KeyOf(h)})
            && (h.fragmentCount == p.fragmentCount && p.fragments[h.fragmentID].Some? ==> t' == t && out == NeedMore)
            && (out.Assembled? ==> KeyOf(h) !in t'.pending)
  {
    var p := t.pending[KeyOf(h)];
    assert t.pending[KeyOf(h) := p] == t.pending;
  }

  /** The cleaner's tick keeps exactly the packets whose first fragment came at its deadline or
      later, as they are. */
  lemma TickKeepsExactly(t: Table, deadline: int, key: Key)
    ensures key in ExpireStep(t, deadline).pending <==> key in t.pending && t.pending[key].createdAt >= deadline
    ensures key in ExpireStep(t, deadline).pending ==> ExpireStep(t, deadline).pending[key] == t.pending[key]
    ensures ExpireStep(t, deadline).closed == t.closed
  {
  }

  /** Exactly the packets begun no longer ago than the timeout are pending still. */
  ghost predicate KeptInTime(t: Table, after: Table, now: int, timeout: int)
  {
    forall k :: k in after.pending <==> k in t.pending && now - t.pending[k].createdAt <= timeout
  }

  lemma TickKeepsInTime(t: Table, now: int, timeout: int)
    ensures KeptInTime(t, ExpireStep(t, now - timeout), now, timeout)
  {
  }

  /** As long as a packet is pending, its time is that of its first fragment. */
  lemma BeginningStays(t: Table, h: Header, payload: bytes, now: int, key: Key)
    requires Shaped(t) && key in t.pending && key in FeedStep(t, h, payload, now).0.pending
    ensures FeedStep(t, h, payload, now).0.pending[key].createdAt == t.pending[key].createdAt
  {
  }
}
