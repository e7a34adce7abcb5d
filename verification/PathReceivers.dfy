/** Which receivers of a path manager come back to look at the path, and which do not. */
module PathReceivers {
  import opened Words
  import opened PathManager
  import opened PathRaces
  import opened PathInvariant
  import opened PathRuns

  // ---------------------------------------------------------------- receivers that stay where they are

  /** Waiting to be cancelled, or for a datagram from the relay: no change of the path wakes it. */
  predicate IsStuck(c: Call)
  {
    c.Receive? && (c.stage.Parked? || c.stage.OnRelay?)
  }

  /** A receive under way, its own fallback included. */
  predicate IsReceiver(c: Call)
  {
    c.Receive? || (c.Fallback? && c.caller.ForReceive?)
  }

  /** Nobody cancels the receive and the relay brings it nothing. */
  predicate Unaided(actions: seq<Action>, id: nat)
  {
    forall i :: 0 <= i < |actions| ==> actions[i] != Cancel(id) && actions[i] != Datagram(id)
  }

  predicate LooksAgain(st: State, id: nat)
  {
    id in st.calls && st.calls[id].Receive? && st.calls[id].stage.Begin?
  }

  lemma OthersStay(st: State, a: Action, id: nat)
    requires Inv(st) && Enabled(st, a) && id in st.calls && a.id != id
    ensures id in Apply(st, a).calls && Apply(st, a).calls[id] == st.calls[id]
  {
    if a.Step? {
      OnlyOneMoves(st, a.id);
      assert id in st.calls - {a.id};
      assert (StepOf(st, a.id).calls - {a.id})[id] == (st.calls - {a.id})[id];
    }
  }

  lemma {:induction false} StuckStays(st: State, actions: seq<Action>, t: State, id: nat)
    requires Inv(st) && Leads(st, actions, t) && Unaided(actions, id) && id in st.calls && IsStuck(st.calls[id])
    ensures id in t.calls && t.calls[id] == st.calls[id]
    decreases |actions|
  {
    if actions != [] {
      var a := actions[0];
      assert a != Cancel(id) && a != Datagram(id);
      assert a.id != id;
      ApplyKeeps(st, a);
      OthersStay(st, a, id);
      assert Unaided(actions[1..], id) by {
        assert forall i :: 0 <= i < |actions[1..]| ==> actions[1..][i] == actions[i + 1];
      }
      StuckStays(Apply(st, a), actions[1..], t, id);
    }
  }

  // ---------------------------------------------------------------- runs, put together

  lemma {:induction false} LeadsOn(st: State, a: seq<Action>, mid: State, b: seq<Action>, t: State)
    requires Leads(st, a, mid) && Leads(mid, b, t)
    ensures Leads(st, a + b, t)
    decreases |a|
  {
    if a == [] {
      assert a + b == b;
    } else {
      assert (a + b)[1..] == a[1..] + b;
      LeadsOn(Apply(st, a[0]), a[1..], mid, b, t);
    }
  }

  lemma OneStep(st: State, a: Action)
    requires Enabled(st, a)
    ensures Leads(st, [a], Apply(st, a))
  {
    assert [a][1..] == [];
    assert Leads(Apply(st, a), [], Apply(st, a));
  }

  lemma StepThen(st: State, a: Action, rest: seq<Action>, t: State, id: nat)
    requires Enabled(st, a) && Leads(Apply(st, a), rest, t) && a != Cancel(id) && a != Datagram(id) && Unaided(rest, id)
    ensures Leads(st, [a] + rest, t) && Unaided([a] + rest, id)
  {
    OneStep(st, a);
    LeadsOn(st, [a], Apply(st, a), rest, t);
  }

  // ---------------------------------------------------------------- whoever holds the lock gets done

  /** How many steps a call has before it at most, once it has the lock. */
  function StepsLeft(stage: Stage): nat
  {
    match stage
    case Holding => 7
    case TCPSeen => 6
    case TCPDone => 5
    case UDPSeen => 4
    case Punched => 3
    case Stored => 2
    case _ => 1
  }

  predicate Advances(st: State, t: State, id: nat)
    requires id in st.calls
  {
    id in t.calls && StepsLeft(t.calls[id].stage) < StepsLeft(st.calls[id].stage)
  }

  lemma DirectUDPAdvances(st: State, id: nat)
    requires Moving(st, id) && st.calls[id].SetDirectUDP? && HoldsLock(st.calls[id]) && !st.calls[id].stage.Leaving?
    ensures Advances(st, StepDirectUDP(st, id), id)
  {
  }

  lemma FallbackAdvances(st: State, id: nat)
    requires Moving(st, id) && st.calls[id].Fallback? && HoldsLock(st.calls[id]) && !st.calls[id].stage.Leaving?
    ensures Advances(st, StepFallback(st, id), id) && StepFallback(st, id).calls[id].Fallback?
    ensures StepFallback(st, id).calls[id].caller == st.calls[id].caller
  {
  }

  lemma WarmUpAdvances(st: State, id: nat)
    requires Moving(st, id) && st.calls[id].WarmUp? && HoldsLock(st.calls[id]) && !st.calls[id].stage.Leaving?
    ensures Advances(st, StepWarmUp(st, id), id) && StepWarmUp(st, id).calls[id].WarmUp?
  {
  }

  lemma CloseAdvances(st: State, id: nat)
    requires Moving(st, id) && st.calls[id].Close? && HoldsLock(st.calls[id]) && !st.calls[id].stage.Leaving?
    ensures Advances(st, StepClose(st, id), id)
  {
  }

  lemma HolderAdvances(st: State, id: nat)
    requires Moving(st, id) && HoldsLock(st.calls[id]) && !st.calls[id].stage.Leaving?
    ensures Advances(st, StepOf(st, id), id)
    ensures IsReceiver(st.calls[id]) ==> IsReceiver(StepOf(st, id).calls[id])
  {
    match st.calls[id] {
      case SetDirectUDP(_, _, _) => DirectUDPAdvances(st, id);
      case Fallback(_, _) => FallbackAdvances(st, id);
      case WarmUp(_) => WarmUpAdvances(st, id);
      case Close(_) => CloseAdvances(st, id);
    }
  }

  lemma HolderLeaves(st: State, id: nat)
    requires Moving(st, id) && HoldsLock(st.calls[id]) && st.calls[id].stage.Leaving?
    ensures StepOf(st, id).lock == None && (IsReceiver(st.calls[id]) ==> LooksAgain(StepOf(st, id), id))
  {
    CommonStages(st, id);
  }

  lemma HolderMayMove(st: State)
    requires Inv(st) && st.lock.Some?
    ensures Moving(st, st.lock.value) && HoldsLock(st.calls[st.lock.value])
  {
  }

  lemma InsideKeepsHolder(st: State, id: nat)
    requires Moving(st, id) && HoldsLock(st.calls[id]) && !st.calls[id].stage.Leaving?
    ensures StepOf(st, id).lock == st.lock
  {
    if st.calls[id].stage.Stored? {
      CommonStages(st, id);
    } else {
      InsideStays(st, id);
    }
  }

  lemma InsideStays(st: State, id: nat)
    requires Moving(st, id) && HoldsLock(st.calls[id]) && !CommonStage(st.calls[id].stage)
    ensures StepOf(st, id).lock == st.lock
  {
    match st.calls[id] {
      case SetDirectUDP(_, _, _) => DirectUDPStaysInside(st, id);
      case Fallback(_, _) => FallbackStaysInside(st, id);
      case WarmUp(_) => WarmUpStaysInside(st, id);
      case Close(_) => CloseStaysInside(st, id);
    }
  }

  /** The holder can always go on alone until it gives the lock back. Others stay where they are; a
      receive whose fallback it was looks again. */
  lemma {:induction false} HolderFinishes(st: State, holder: nat, id: nat) returns (actions: seq<Action>, t: State)
    requires Inv(st) && st.lock == Some(holder)
    ensures Leads(st, actions, t) && Inv(t) && t.lock == None && Unaided(actions, id)
    ensures IsReceiver(st.calls[holder]) ==> LooksAgain(t, holder)
    ensures id in st.calls && id != holder ==> id in t.calls && t.calls[id] == st.calls[id]
    decreases StepsLeft(st.calls[holder].stage)
  {
    HolderMayMove(st);
    var next := StepOf(st, holder);
    ApplyKeeps(st, Step(holder));
    if id in st.calls && id != holder {
      OthersStay(st, Step(holder), id);
    }
    if st.calls[holder].stage.Leaving? {
      HolderLeaves(st, holder);
      OneStep(st, Step(holder));
      actions, t := [Step(holder)], next;
    } else {
      HolderAdvances(st, holder);
      InsideKeepsHolder(st, holder);
      var rest;
      rest, t := HolderFinishes(next, holder, id);
      StepThen(st, Step(holder), rest, t, id);
      actions := [Step(holder)] + rest;
    }
  }

  lemma LockFree(st: State, id: nat) returns (actions: seq<Action>, t: State)
    requires Inv(st) && id in st.calls && st.lock != Some(id)
    ensures Leads(st, actions, t) && Inv(t) && t.lock == None && Unaided(actions, id)
    ensures id in t.calls && t.calls[id] == st.calls[id]
  {
    if st.lock.Some? {
      actions, t := HolderFinishes(st, st.lock.value, id);
    } else {
      actions, t := [], st;
    }
  }

  // ---------------------------------------------------------------- a warm-up wakes the receivers

  lemma {:induction false} UnusedId(ids: set<nat>) returns (n: nat)
    ensures forall i :: i in ids ==> i < n
    decreases |ids|
  {
    if ids == {} {
      n := 0;
    } else {
      var i :| i in ids;
      n := UnusedId(ids - {i});
      assert forall j :: j in ids && j != i ==> j in ids - {i};
      n := if i < n then n else i + 1;
    }
  }

  lemma StoredNotifies(st: State, w: nat, channel: nat)
    requires Inv(st) && Moving(st, w) && st.calls[w].WarmUp? && st.calls[w].stage.Stored? && channel < st.made
    ensures channel in StepWarmUp(st, w).closedChannels
  {
  }

  lemma WarmUpKeepsMade(st: State, w: nat)
    requires Moving(st, w) && st.calls[w].WarmUp?
    ensures StepWarmUp(st, w).made == st.made
  {
  }

  /** A warm-up that holds the lock goes on alone until it has closed every channel. */
  lemma {:induction false} WarmUpNotifies(st: State, w: nat, id: nat, channel: nat)
    returns (actions: seq<Action>, t: State)
    requires Inv(st) && st.lock == Some(w) && st.calls[w].WarmUp? && !st.calls[w].stage.Leaving?
    requires id in st.calls && id != w && channel < st.made
    ensures Leads(st, actions, t) && Inv(t) && Unaided(actions, id) && channel in t.closedChannels
    ensures id in t.calls && t.calls[id] == st.calls[id]
    decreases StepsLeft(st.calls[w].stage)
  {
    HolderMayMove(st);
    var next := Apply(st, Step(w));
    ApplyKeeps(st, Step(w));
    OthersStay(st, Step(w), id);
    if st.calls[w].stage.Stored? {
      StoredNotifies(st, w, channel);
      OneStep(st, Step(w));
      actions, t := [Step(w)], next;
    } else {
      WarmUpAdvances(st, w);
      InsideKeepsHolder(st, w);
      WarmUpKeepsMade(st, w);
      WarmUpNotYetLeaving(st, w);
      var rest;
      rest, t := WarmUpNotifies(next, w, id, channel);
      StepThen(st, Step(w), rest, t, id);
      actions := [Step(w)] + rest;
    }
  }

  lemma WarmUpNotYetLeaving(st: State, w: nat)
    requires Moving(st, w) && st.calls[w].WarmUp? && HoldsLock(st.calls[w])
    requires !st.calls[w].stage.Stored? && !st.calls[w].stage.Leaving?
    ensures w in StepWarmUp(st, w).calls && !StepWarmUp(st, w).calls[w].stage.Leaving?
  {
  }

  lemma EnteredTakesLock(st: State, w: nat)
    requires Inv(st) && st.lock == None && w in st.calls && st.calls[w] == WarmUp(Waiting)
    ensures Enabled(st, Step(w)) && Inv(Apply(st, Step(w)))
    ensures Apply(st, Step(w)) == st.(lock := Some(w), calls := st.calls[w := WarmUp(Holding)])
  {
    ApplyKeeps(st, Step(w));
  }

  /** A new warm-up can enter and take a free lock. */
  lemma WarmUpTakesLock(st: State, id: nat) returns (w: nat, actions: seq<Action>, t: State)
    requires Inv(st) && st.lock == None && id in st.calls
    ensures Leads(st, actions, t) && Inv(t) && Unaided(actions, id) && t.made == st.made
    ensures t.lock == Some(w) && w != id && t.calls == st.calls[w := WarmUp(Holding)]
  {
    w := UnusedId(st.calls.Keys);
    var enter := Enter(w, WarmUp(Waiting));
    var entered := st.(calls := st.calls[w := WarmUp(Waiting)]);
    ApplyKeeps(st, enter);
    EnteredTakesLock(entered, w);
    t := Apply(entered, Step(w));
    OneStep(entered, Step(w));
    StepThen(st, enter, [Step(w)], t, id);
    actions := [enter] + [Step(w)];
  }

  // ---------------------------------------------------------------- who looks again

  /** The others can go on so that the receiver looks at the path again, without being cancelled
      and without a datagram from the relay. */
  ghost predicate CanLookAgain(st: State, id: nat)
  {
    exists actions, t :: Leads(st, actions, t) && Unaided(actions, id) && LooksAgain(t, id)
  }

  lemma LooksAgainAfter(st: State, before: seq<Action>, mid: State, id: nat)
    requires Leads(st, before, mid) && Unaided(before, id) && CanLookAgain(mid, id)
    ensures CanLookAgain(st, id)
  {
    var actions, t :| Leads(mid, actions, t) && Unaided(actions, id) && LooksAgain(t, id);
    LeadsOn(st, before, mid, actions, t);
    assert Unaided(before + actions, id);
  }

  lemma AtItsLook(st: State, id: nat)
    requires LooksAgain(st, id)
    ensures CanLookAgain(st, id)
  {
    assert Leads(st, [], st);
  }

  lemma AfterOneStep(st: State, id: nat)
    requires Enabled(st, Step(id)) && CanLookAgain(Apply(st, Step(id)), id)
    ensures CanLookAgain(st, id)
  {
    OneStep(st, Step(id));
    LooksAgainAfter(st, [Step(id)], Apply(st, Step(id)), id);
  }

  lemma OneStepAway(st: State, id: nat)
    requires Enabled(st, Step(id)) && LooksAgain(Apply(st, Step(id)), id)
    ensures CanLookAgain(st, id)
  {
    AtItsLook(Apply(st, Step(id)), id);
    AfterOneStep(st, id);
  }

  lemma TryingLooksAgain(st: State, id: nat)
    requires Inv(st) && id in st.calls && st.calls[id].Receive? && st.calls[id].stage.Trying?
    ensures CanLookAgain(st, id)
  {
    OneStepAway(st, id);
  }

  /** A receiver waiting for a path: a warm-up wakes it, if it has not been woken yet. */
  lemma BlockedLooksAgain(st: State, id: nat)
    requires Inv(st) && id in st.calls && IsBlocked(st.calls[id])
    ensures CanLookAgain(st, id)
  {
    var channel := st.calls[id].channel;
    var freeing, free := LockFree(st, id);
    if channel in free.closedChannels {
      OneStepAway(free, id);
    } else {
      assert channel < free.made;
      var w, entering, mid := WarmUpTakesLock(free, id);
      var notifying, woken := WarmUpNotifies(mid, w, id, channel);
      OneStepAway(woken, id);
      LooksAgainAfter(mid, notifying, woken, id);
      LooksAgainAfter(free, entering, mid, id);
    }
    LooksAgainAfter(st, freeing, free, id);
  }

  lemma RegisteredLooksAgain(st: State, id: nat)
    requires Inv(st) && id in st.calls && st.calls[id].Receive? && st.calls[id].stage.Registered?
    ensures CanLookAgain(st, id)
  {
    ApplyKeeps(st, Step(id));
    var next := Apply(st, Step(id));
    if next.calls[id].stage.Begin? {
      AtItsLook(next, id);
    } else {
      BlockedLooksAgain(next, id);
    }
    AfterOneStep(st, id);
  }

  lemma RegisteringLooksAgain(st: State, id: nat)
    requires Inv(st) && id in st.calls && st.calls[id].Receive? && st.calls[id].stage.Registering?
    ensures CanLookAgain(st, id)
  {
    ApplyKeeps(st, Step(id));
    assert Apply(st, Step(id)) == WithRegistered(st, id);
    RegisteredLooksAgain(Apply(st, Step(id)), id);
    AfterOneStep(st, id);
  }

  lemma InsideLooksAgain(st: State, id: nat)
    requires Inv(st) && st.lock == Some(id) && IsReceiver(st.calls[id])
    ensures CanLookAgain(st, id)
  {
    var finishing, t := HolderFinishes(st, id, id);
    AtItsLook(t, id);
    LooksAgainAfter(st, finishing, t, id);
  }

  lemma TakingLooksAgain(st: State, id: nat)
    requires Inv(st) && id in st.calls && st.calls[id].Fallback? && st.calls[id].caller.ForReceive?
    requires st.calls[id].stage.Waiting? && st.lock == None
    ensures CanLookAgain(st, id)
  {
    ApplyKeeps(st, Step(id));
    CommonStages(st, id);
    InsideLooksAgain(Apply(st, Step(id)), id);
    AfterOneStep(st, id);
  }

  lemma FallbackLooksAgain(st: State, id: nat)
    requires Inv(st) && id in st.calls && st.calls[id].Fallback? && st.calls[id].caller.ForReceive?
    ensures CanLookAgain(st, id)
  {
    if st.lock == Some(id) {
      InsideLooksAgain(st, id);
    } else {
      var freeing, free := LockFree(st, id);
      TakingLooksAgain(free, id);
      LooksAgainAfter(st, freeing, free, id);
    }
  }

  lemma ReadingLooksAgain(st: State, id: nat)
    requires Inv(st) && id in st.calls && st.calls[id].Receive? && st.calls[id].stage.Reading?
    ensures CanLookAgain(st, id)
  {
    var freeing, free := LockFree(st, id);
    var next := Apply(free, Step(id));
    ApplyKeeps(free, Step(id));
    if next.calls[id].Fallback? {
      FallbackLooksAgain(next, id);
    } else {
      TryingLooksAgain(next, id);
    }
    AfterOneStep(free, id);
    LooksAgainAfter(st, freeing, free, id);
  }

  lemma ReceiverLooksAgain(st: State, id: nat)
    requires Inv(st) && id in st.calls && IsReceiver(st.calls[id]) && !IsStuck(st.calls[id])
    ensures CanLookAgain(st, id)
  {
    if st.calls[id].Fallback? {
      FallbackLooksAgain(st, id);
    } else {
      match st.calls[id].stage {
        case Begin => AtItsLook(st, id);
        case Reading => ReadingLooksAgain(st, id);
        case Trying => TryingLooksAgain(st, id);
        case Registering => RegisteringLooksAgain(st, id);
        case Registered => RegisteredLooksAgain(st, id);
        case Blocked => BlockedLooksAgain(st, id);
      }
    }
  }

  /** In every state of a path manager a receive can come to look at the path again, without being
      cancelled and without a datagram from the relay, exactly if it does not sit out a disabled
      path and does not wait on the relay. No upgrade wakes it from either. */
  lemma LooksAgainExactly(st: State, id: nat)
    requires Inv(st) && id in st.calls && IsReceiver(st.calls[id])
    ensures CanLookAgain(st, id) <==> !IsStuck(st.calls[id])
  {
    if !IsStuck(st.calls[id]) {
      ReceiverLooksAgain(st, id);
    } else {
      forall actions, t | Leads(st, actions, t) && Unaided(actions, id)
        ensures !LooksAgain(t, id)
      {
        StuckStays(st, actions, t, id);
      }
    }
  }

  // ---------------------------------------------------------------- receivers an upgrade does not wake

  lemma WarmUpBegins(relay: RelayKind) returns (run: seq<Action>, t: State)
    ensures Leads(Initial(relay), run, t)
    ensures t == Initial(relay).(lock := Some(2), tcp := Relay, calls := map[2 := WarmUp(TCPDone)])
  {
    var st := Initial(relay);
    run, t := Longer(st, [], st, Enter(2, WarmUp(Waiting)));
    run, t := Longer(st, run, t, Step(2));
    run, t := Longer(st, run, t, Step(2));
    run, t := Longer(st, run, t, Step(2));
    assert t.calls == map[2 := WarmUp(TCPDone)];
  }

  lemma WarmUpNotified(relay: RelayKind) returns (run: seq<Action>, t: State)
    ensures Leads(Initial(relay), run, t)
    ensures t == Initial(relay).(lock := Some(2), tcp := Relay, udp := RelayPath(relay),
                                 calls := map[2 := WarmUp(Leaving)])
  {
    var st := Initial(relay);
    run, t := WarmUpBegins(relay);
    run, t := Longer(st, run, t, Step(2));
    run, t := Longer(st, run, t, Step(2));
    run, t := Longer(st, run, t, Step(2));
    assert t.calls == map[2 := WarmUp(Leaving)];
  }

  /** A warm-up that nobody disturbs. */
  lemma WarmUpAlone(relay: RelayKind) returns (run: seq<Action>, t: State)
    ensures Leads(Initial(relay), run, t)
    ensures t == Initial(relay).(tcp := Relay, udp := RelayPath(relay))
  {
    run, t := WarmUpNotified(relay);
    run, t := Longer(Initial(relay), run, t, Step(2));
    assert t.calls == map[];
  }

  /** Where a receiver ends up that looks at the path the warm-up stored. */
  function StuckAt(relay: RelayKind): Stage
  {
    if relay.WithDatagrams? then OnRelay else Parked
  }

  /** A receiver that looks after the warm-up. */
  lemma ReceiverStuck(relay: RelayKind) returns (run: seq<Action>, t: State)
    ensures Leads(Initial(relay), run, t)
    ensures t == Initial(relay).(tcp := Relay, udp := RelayPath(relay), calls := map[0 := Receive(StuckAt(relay), 0)])
  {
    var st := Initial(relay);
    run, t := WarmUpAlone(relay);
    run, t := Longer(st, run, t, Enter(0, Receive(Begin, 0)));
    run, t := Longer(st, run, t, Step(0));
  }

  /** With any relay, or none: a receiver looks after the warm-up, then an upgrade makes the path
      direct and notifies. Nobody holds the lock and senders take the direct path, but the receiver
      sits out the path that was disabled, or waits on the relay. */
  lemma UpgradeMissed(relay: RelayKind) returns (run: seq<Action>, t: State)
    ensures Leads(Initial(relay), run, t)
    ensures t.udp.DirectUDP? && t.punch.Some? && t.lock == None
    ensures t.calls == map[0 := Receive(StuckAt(relay), 0)] && !CanLookAgain(t, 0)
  {
    run, t := ReceiverStuck(relay);
    run, t := UpgradeAlone(Initial(relay), run, t);
    RunKeeps(Initial(relay), run, t);
    LooksAgainExactly(t, 0);
  }

  // ---------------------------------------------------------------- where receivers can get stuck

  /** Receivers sit out a disabled path, or wait on the relay, only with the relay for it. */
  predicate StuckDuly(relay: RelayKind, c: Call)
  {
    IsStuck(c) ==> c.stage == StuckAt(relay)
  }

  predicate AllStuckDuly(st: State)
  {
    forall id :: id in st.calls ==> StuckDuly(st.relay, st.calls[id])
  }

  lemma ReceiveStuckDuly(st: State, id: nat)
    requires PathInv(st) && Moving(st, id) && st.calls[id].Receive?
    ensures var t := StepReceive(st, id); id in t.calls ==> StuckDuly(st.relay, t.calls[id])
  {
  }

  lemma ReturnedIsNotStuck(st: State, id: nat)
    requires id in st.calls && st.calls[id].Fallback?
    ensures var t := Returned(st, id); id in t.calls ==> !IsStuck(t.calls[id])
  {
  }

  lemma FallbackStuckDuly(st: State, id: nat)
    requires Moving(st, id) && st.calls[id].Fallback?
    ensures var t := StepFallback(st, id); id in t.calls ==> !IsStuck(t.calls[id])
  {
    if CommonStage(st.calls[id].stage) {
      CommonStages(st, id);
      ReturnedIsNotStuck(st, id);
    } else {
      FallbackStaysInside(st, id);
    }
  }

  lemma SendStuckDuly(st: State, id: nat)
    requires id in st.calls && st.calls[id].Send?
    ensures var t := StepSend(st, id); id in t.calls ==> !IsStuck(t.calls[id])
  {
  }

  lemma OthersStuckDuly(st: State, id: nat)
    requires id in st.calls && !st.calls[id].Receive? && !st.calls[id].Fallback? && !st.calls[id].Send?
    ensures var t := StepOf(st, id); id in t.calls ==> !t.calls[id].Receive?
  {
    match st.calls[id] {
      case SetDirectUDP(_, _, _) => UpgradeIsNoReceive(st, id);
      case WarmUp(_) => WarmUpIsNoReceive(st, id);
      case SetDirectTCP(_, _) => assert StepOf(st, id) == StepDirectTCP(st, id);
      case Close(_) => assert StepOf(st, id) == StepClose(st, id);
    }
  }

  lemma UpgradeIsNoReceive(st: State, id: nat)
    requires id in st.calls && st.calls[id].SetDirectUDP?
    ensures var t := StepDirectUDP(st, id); id in t.calls ==> !t.calls[id].Receive?
  {
  }

  lemma WarmUpIsNoReceive(st: State, id: nat)
    requires id in st.calls && st.calls[id].WarmUp?
    ensures var t := StepWarmUp(st, id); id in t.calls ==> !t.calls[id].Receive?
  {
  }

  lemma MoverStuckDuly(st: State, id: nat)
    requires PathInv(st) && Moving(st, id)
    ensures var t := StepOf(st, id); id in t.calls ==> StuckDuly(st.relay, t.calls[id])
  {
    match st.calls[id] {
      case Receive(_, _) => ReceiveStuckDuly(st, id);
      case Fallback(_, _) => FallbackStuckDuly(st, id);
      case Send(_, _, _) => SendStuckDuly(st, id);
      case _ => OthersStuckDuly(st, id);
    }
  }

  lemma ApplyKeepsStuckDuly(st: State, a: Action)
    requires Inv(st) && AllStuckDuly(st) && Enabled(st, a)
    ensures AllStuckDuly(Apply(st, a))
  {
    StepMeaning(st, a);
    if a.Step? {
      MoverStuckDuly(st, a.id);
      OnlyOneMoves(st, a.id);
      OthersStuckToo(st, StepOf(st, a.id), a.id);
    }
  }

  lemma OthersStuckToo(st: State, t: State, id: nat)
    requires AllStuckDuly(st) && t.relay == st.relay && t.calls - {id} == st.calls - {id}
    requires id in t.calls ==> StuckDuly(t.relay, t.calls[id])
    ensures AllStuckDuly(t)
  {
    forall i | i in t.calls && i != id
      ensures StuckDuly(t.relay, t.calls[i])
    {
      assert i in t.calls - {id};
      assert t.calls[i] == (t.calls - {id})[i] == (st.calls - {id})[i] == st.calls[i];
    }
  }

  lemma {:induction false} RunKeepsStuckDuly(st: State, actions: seq<Action>, t: State)
    requires Inv(st) && AllStuckDuly(st) && Leads(st, actions, t)
    ensures AllStuckDuly(t) && t.relay == st.relay
    decreases |actions|
  {
    if actions != [] {
      ApplyKeeps(st, actions[0]);
      StepMeaning(st, actions[0]);
      ApplyKeepsStuckDuly(st, actions[0]);
      RunKeepsStuckDuly(Apply(st, actions[0]), actions[1..], t);
    }
  }

  ghost predicate CanBeStuck(relay: RelayKind, stage: Stage)
  {
    exists run, t, id ::
      Leads(Initial(relay), run, t) && id in t.calls && t.calls[id].Receive? && t.calls[id].stage == stage
  }

  lemma StuckOnlyDuly(relay: RelayKind, run: seq<Action>, t: State, id: nat)
    requires Leads(Initial(relay), run, t) && id in t.calls && IsStuck(t.calls[id])
    ensures t.calls[id].stage == StuckAt(relay)
  {
    RunKeepsStuckDuly(Initial(relay), run, t);
  }

  /** No run of a path manager parks a receiver until it is cancelled exactly if its relay takes
      datagrams; and exactly then some run has one that waits on the relay. */
  lemma StuckExactly(relay: RelayKind)
    ensures !CanBeStuck(relay, Parked) <==> relay.WithDatagrams?
    ensures CanBeStuck(relay, OnRelay) <==> relay.WithDatagrams?
  {
    var run, t := ReceiverStuck(relay);
    assert 0 in t.calls && t.calls[0].Receive? && t.calls[0].stage == StuckAt(relay);
    forall other, u, id | Leads(Initial(relay), other, u) && id in u.calls && IsStuck(u.calls[id])
      ensures u.calls[id].stage == StuckAt(relay)
    {
      StuckOnlyDuly(relay, other, u, id);
    }
  }
}
