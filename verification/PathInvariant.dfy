/** Every step of every call on a path manager keeps the invariant. */
module PathInvariant {
  import opened Words
  import opened PathManager
  import opened PathRaces

  // ---------------------------------------------------------------- one call moves

  /** What is known about the call that takes the step. */
  predicate Moving(st: State, id: nat)
  {
    && id in st.calls && Legal(st.calls[id]) && Ready(st, st.calls[id])
    && (HoldsLock(st.calls[id]) <==> st.lock == Some(id))
    && (st.lock.Some? ==> st.lock.value in st.calls && HoldsLock(st.calls[st.lock.value]))
    && (st.calls[id].Close? && !st.calls[id].stage.Begin? ==> st.shut)
  }

  /** Nobody but this call moved, and it got no channel to wait on. */
  predicate OnlyMoves(st: State, t: State, id: nat)
  {
    if id in t.calls then t.calls == st.calls[id := t.calls[id]] && !HasChannel(t.calls[id])
    else t.calls == st.calls - {id}
  }

  predicate SameChannels(st: State, t: State)
  {
    t.channel == st.channel && t.closedChannels == st.closedChannels && t.made == st.made
  }

  predicate SamePath(st: State, t: State)
  {
    t.udp == st.udp && t.punch == st.punch && t.shutDone == st.shutDone && t.relay == st.relay
  }

  /** Such a call takes the lock, notifies and leaves like any other. */
  predicate CommonStage(stage: Stage)
  {
    stage.Waiting? || stage.Stored? || stage.Leaving?
  }

  /** What the three common stages do, whatever the call. */
  lemma CommonStages(st: State, id: nat)
    requires Moving(st, id) && UsesLock(st.calls[id])
    ensures st.calls[id].stage.Waiting? ==> StepOf(st, id) == At(st, id, Holding).(lock := Some(id))
    ensures st.calls[id].stage.Stored? ==> StepOf(st, id) == At(Notified(st), id, Leaving)
    ensures st.calls[id].stage.Leaving? ==>
              StepOf(st, id) == Unlocked(st, id) || (st.calls[id].Fallback? && StepOf(st, id) == Returned(st, id))
  {
  }

  // ---------------------------------------------------------------- the lock

  lemma HolderMoves(st: State, t: State, id: nat)
    requires LockInv(st) && st.lock == Some(id) && t.lock == st.lock && st.shut == t.shut && id in t.calls
    requires t.calls == st.calls[id := t.calls[id]] && HoldsLock(t.calls[id]) && Legal(t.calls[id])
    requires t.calls[id].Close? ==> t.shut
    ensures LockInv(t)
  {
  }

  lemma LockTaken(st: State, id: nat)
    requires LockInv(st) && Moving(st, id) && st.calls[id].stage.Waiting? && UsesLock(st.calls[id])
    ensures LockInv(At(st, id, Holding).(lock := Some(id)))
  {
  }

  lemma LockReturned(st: State, t: State, id: nat)
    requires LockInv(st) && st.lock == Some(id) && t.lock == None && t.shut == st.shut
    requires
      || t.calls == st.calls - {id}
      || (id in t.calls && t.calls == st.calls[id := t.calls[id]] && !UsesLock(t.calls[id]) && t.calls[id].stage.Begin?)
    ensures LockInv(t)
  {
  }

  /** A call that does not hold the lock moves on without it, or returns. */
  predicate StaysOutside(st: State, t: State, id: nat)
  {
    && t.lock == st.lock && (st.shut ==> t.shut)
    && if id in t.calls
       then t.calls == st.calls[id := t.calls[id]] && !HoldsLock(t.calls[id]) && Legal(t.calls[id])
            && (t.calls[id].Close? && !t.calls[id].stage.Begin? ==> t.shut)
       else t.calls == st.calls - {id}
  }

  lemma OutsiderMoves(st: State, t: State, id: nat)
    requires LockInv(st) && id in st.calls && st.lock != Some(id) && StaysOutside(st, t, id)
    ensures LockInv(t)
  {
  }

  lemma DirectTCPStaysOutside(st: State, id: nat)
    requires Moving(st, id) && st.calls[id].SetDirectTCP?
    ensures var t := StepDirectTCP(st, id);
            StaysOutside(st, t, id) && SamePath(st, t) && t.closedPunches == st.closedPunches
  {
  }

  lemma RegisteringStaysOutside(st: State, id: nat)
    requires Moving(st, id) && st.calls[id].Receive?
    ensures var t := WithRegistered(st, id);
            StaysOutside(st, t, id) && SamePath(st, t) && t.closedPunches == st.closedPunches
  {
  }

  lemma ReceiveStaysOutside(st: State, id: nat)
    requires Moving(st, id) && st.calls[id].Receive?
    ensures var t := StepReceive(st, id);
            StaysOutside(st, t, id) && SamePath(st, t) && t.closedPunches == st.closedPunches
  {
    if st.calls[id].stage.Registering? {
      RegisteringStaysOutside(st, id);
    }
  }

  lemma SendStaysOutside(st: State, id: nat)
    requires Moving(st, id) && st.calls[id].Send?
    ensures var t := StepSend(st, id); StaysOutside(st, t, id) && SamePath(st, t) && t.closedPunches == st.closedPunches
  {
  }

  lemma EveryOutsider(st: State, id: nat)
    requires Moving(st, id) && !UsesLock(st.calls[id])
    ensures var t := StepOf(st, id); StaysOutside(st, t, id) && SamePath(st, t) && t.closedPunches == st.closedPunches
  {
    match st.calls[id] {
      case SetDirectTCP(_, _) => DirectTCPStaysOutside(st, id);
      case Send(_, _, _) => SendStaysOutside(st, id);
      case Receive(_, _) => ReceiveStaysOutside(st, id);
    }
  }

  lemma BeginKeepsLock(st: State, id: nat)
    requires LockInv(st) && Moving(st, id) && st.calls[id].stage.Begin? && UsesLock(st.calls[id])
    ensures LockInv(StepOf(st, id))
  {
    OutsiderMoves(st, StepOf(st, id), id);
  }

  lemma OutsiderKeepsLock(st: State, id: nat)
    requires LockInv(st) && Moving(st, id) && !UsesLock(st.calls[id])
    ensures LockInv(StepOf(st, id))
  {
    EveryOutsider(st, id);
    OutsiderMoves(st, StepOf(st, id), id);
  }

  /** In the middle of its critical section a call stays there. */
  predicate StaysInside(st: State, t: State, id: nat)
  {
    && t.lock == st.lock && t.shut == st.shut && id in t.calls
    && t.calls == st.calls[id := t.calls[id]] && HoldsLock(t.calls[id]) && Legal(t.calls[id])
    && (t.calls[id].Close? ==> t.shut)
  }

  /** Notifying leaves a call inside, whatever the call. */
  lemma NotifyingStaysInside(st: State, id: nat)
    requires Moving(st, id) && UsesLock(st.calls[id]) && st.calls[id].stage.Stored?
    ensures StaysInside(st, At(Notified(st), id, Leaving), id)
  {
  }

  lemma DirectUDPStaysInside(st: State, id: nat)
    requires Moving(st, id) && st.calls[id].SetDirectUDP? && HoldsLock(st.calls[id]) && !CommonStage(st.calls[id].stage)
    ensures StaysInside(st, StepDirectUDP(st, id), id)
  {
  }

  lemma FallbackStaysInside(st: State, id: nat)
    requires Moving(st, id) && st.calls[id].Fallback? && HoldsLock(st.calls[id]) && !CommonStage(st.calls[id].stage)
    ensures StaysInside(st, StepFallback(st, id), id)
  {
  }

  lemma WarmUpStaysInside(st: State, id: nat)
    requires Moving(st, id) && st.calls[id].WarmUp? && HoldsLock(st.calls[id]) && !CommonStage(st.calls[id].stage)
    ensures StaysInside(st, StepWarmUp(st, id), id)
  {
  }

  lemma CloseStaysInside(st: State, id: nat)
    requires Moving(st, id) && st.calls[id].Close? && HoldsLock(st.calls[id]) && !st.calls[id].stage.Leaving?
    ensures StaysInside(st, StepClose(st, id), id)
  {
  }

  lemma InsideKeepsLock(st: State, id: nat)
    requires LockInv(st) && Moving(st, id) && HoldsLock(st.calls[id]) && !st.calls[id].stage.Leaving?
    ensures LockInv(StepOf(st, id))
  {
    if st.calls[id].stage.Stored? {
      CommonStages(st, id);
      NotifyingStaysInside(st, id);
    } else {
      match st.calls[id] {
        case SetDirectUDP(_, _, _) => DirectUDPStaysInside(st, id);
        case Fallback(_, _) => FallbackStaysInside(st, id);
        case WarmUp(_) => WarmUpStaysInside(st, id);
        case Close(_) => CloseStaysInside(st, id);
      }
    }
    HolderMoves(st, StepOf(st, id), id);
  }

  lemma StepKeepsLock(st: State, id: nat)
    requires LockInv(st) && Moving(st, id)
    ensures LockInv(StepOf(st, id))
  {
    var c := st.calls[id];
    if !UsesLock(c) {
      OutsiderKeepsLock(st, id);
    } else if c.stage.Begin? {
      BeginKeepsLock(st, id);
    } else if c.stage.Waiting? {
      LockTaken(st, id);
    } else if c.stage.Leaving? {
      LockReturned(st, StepOf(st, id), id);
    } else {
      InsideKeepsLock(st, id);
    }
  }

  // ---------------------------------------------------------------- the UDP path

  /** A step that leaves the path alone, and the call that is in the middle of changing it. */
  lemma BystanderKeepsPath(st: State, t: State, id: nat)
    requires PathInv(st) && Moving(st, id) && SamePath(st, t)
    requires (st.shut ==> t.shut) && st.closedPunches <= t.closedPunches
    requires t.lock == st.lock && st.lock != Some(id)
    requires t.calls - {id} == st.calls - {id}
    ensures PathInv(t)
  {
    if st.lock.Some? {
      assert st.lock.value in st.calls - {id};
      assert t.calls[st.lock.value] == (t.calls - {id})[st.lock.value] == st.calls[st.lock.value];
    }
  }

  lemma OutsiderKeepsPath(st: State, id: nat)
    requires PathInv(st) && Moving(st, id) && !UsesLock(st.calls[id])
    ensures PathInv(StepOf(st, id))
  {
    EveryOutsider(st, id);
    assert StepOf(st, id).calls - {id} == st.calls - {id};
    BystanderKeepsPath(st, StepOf(st, id), id);
  }

  lemma BeginKeepsPath(st: State, id: nat)
    requires PathInv(st) && Moving(st, id) && UsesLock(st.calls[id]) && st.calls[id].stage.Begin?
    ensures PathInv(StepOf(st, id))
  {
    var t := StepOf(st, id);
    assert t.calls - {id} == st.calls - {id};
    BystanderKeepsPath(st, t, id);
  }

  lemma TakingKeepsPath(st: State, id: nat)
    requires PathInv(st) && Moving(st, id) && UsesLock(st.calls[id]) && st.calls[id].stage.Waiting?
    ensures PathInv(At(st, id, Holding).(lock := Some(id)))
  {
  }

  lemma NotifyingKeepsPath(st: State, id: nat)
    requires PathInv(st) && Moving(st, id) && UsesLock(st.calls[id]) && st.calls[id].stage.Stored?
    ensures PathInv(At(Notified(st), id, Leaving))
  {
  }

  lemma LeavingKeepsPath(st: State, t: State, id: nat)
    requires PathInv(st) && Moving(st, id) && UsesLock(st.calls[id]) && st.calls[id].stage.Leaving?
    requires SamePath(st, t) && t.lock == None && t.shut == st.shut && t.closedPunches == st.closedPunches
    ensures PathInv(t)
  {
  }

  lemma CommonKeepsPath(st: State, id: nat)
    requires PathInv(st) && Moving(st, id) && UsesLock(st.calls[id]) && CommonStage(st.calls[id].stage)
    ensures PathInv(StepOf(st, id))
  {
    CommonStages(st, id);
    if st.calls[id].stage.Waiting? {
      TakingKeepsPath(st, id);
    } else if st.calls[id].stage.Stored? {
      NotifyingKeepsPath(st, id);
    } else {
      LeavingKeepsPath(st, StepOf(st, id), id);
    }
  }

  lemma DirectUDPKeepsPath(st: State, id: nat)
    requires PathInv(st) && Moving(st, id) && st.calls[id].SetDirectUDP?
    requires HoldsLock(st.calls[id]) && !CommonStage(st.calls[id].stage)
    ensures PathInv(StepDirectUDP(st, id))
  {
  }

  lemma FallbackKeepsPath(st: State, id: nat)
    requires PathInv(st) && Moving(st, id) && st.calls[id].Fallback?
    requires HoldsLock(st.calls[id]) && !CommonStage(st.calls[id].stage)
    ensures PathInv(StepFallback(st, id))
  {
  }

  lemma WarmUpKeepsPath(st: State, id: nat)
    requires PathInv(st) && Moving(st, id) && st.calls[id].WarmUp?
    requires HoldsLock(st.calls[id]) && !CommonStage(st.calls[id].stage)
    ensures PathInv(StepWarmUp(st, id))
  {
  }

  lemma CloseKeepsPath(st: State, id: nat)
    requires PathInv(st) && Moving(st, id) && st.calls[id].Close?
    requires HoldsLock(st.calls[id]) && !CommonStage(st.calls[id].stage)
    ensures PathInv(StepClose(st, id))
  {
  }

  lemma InsideKeepsPath(st: State, id: nat)
    requires PathInv(st) && Moving(st, id) && HoldsLock(st.calls[id]) && !CommonStage(st.calls[id].stage)
    ensures PathInv(StepOf(st, id))
  {
    match st.calls[id] {
      case SetDirectUDP(_, _, _) => DirectUDPKeepsPath(st, id);
      case Fallback(_, _) => FallbackKeepsPath(st, id);
      case WarmUp(_) => WarmUpKeepsPath(st, id);
      case Close(_) => CloseKeepsPath(st, id);
    }
  }

  lemma StepKeepsPath(st: State, id: nat)
    requires PathInv(st) && Moving(st, id)
    ensures PathInv(StepOf(st, id))
  {
    var c := st.calls[id];
    if !UsesLock(c) {
      OutsiderKeepsPath(st, id);
    } else if c.stage.Begin? {
      BeginKeepsPath(st, id);
    } else if CommonStage(c.stage) {
      CommonKeepsPath(st, id);
    } else {
      InsideKeepsPath(st, id);
    }
  }

  // ---------------------------------------------------------------- the waiting receivers

  /** The path changes, and the duty to notify ends, only as the waiters need it. */
  predicate NotifiesDuly(st: State, t: State)
  {
    || SameChannels(Notified(st), t)
    || (HolderIsAt(t, Stored) && SameChannels(st, t))
    || (t.udp == st.udp && !HolderIsAt(st, Stored) && SameChannels(st, t))
  }

  predicate SetterStep(st: State, t: State, id: nat)
  {
    t.relay == st.relay && OnlyMoves(st, t, id) && NotifiesDuly(st, t)
  }

  /** Calls other than receivers that hold no lock and do not notify. */
  lemma BystanderStep(st: State, t: State, id: nat)
    requires Moving(st, id) && OnlyMoves(st, t, id) && SameChannels(st, t)
    requires t.relay == st.relay && t.udp == st.udp && t.lock == st.lock && st.lock != Some(id)
    ensures SetterStep(st, t, id)
  {
  }

  lemma DirectTCPStep(st: State, id: nat)
    requires Moving(st, id) && st.calls[id].SetDirectTCP?
    ensures SetterStep(st, StepDirectTCP(st, id), id)
  {
    if !st.calls[id].stage.Stored? {
      BystanderStep(st, StepDirectTCP(st, id), id);
    }
  }

  lemma SendStep(st: State, id: nat)
    requires Moving(st, id) && st.calls[id].Send?
    ensures SetterStep(st, StepSend(st, id), id)
  {
    BystanderStep(st, StepSend(st, id), id);
  }

  lemma BeginStep(st: State, id: nat)
    requires Moving(st, id) && UsesLock(st.calls[id]) && st.calls[id].stage.Begin?
    ensures SetterStep(st, StepOf(st, id), id)
  {
    BystanderStep(st, StepOf(st, id), id);
  }

  lemma CommonStep(st: State, id: nat)
    requires Moving(st, id) && UsesLock(st.calls[id]) && CommonStage(st.calls[id].stage)
    ensures SetterStep(st, StepOf(st, id), id)
  {
    CommonStages(st, id);
  }

  lemma DirectUDPStep(st: State, id: nat)
    requires Moving(st, id) && st.calls[id].SetDirectUDP? && HoldsLock(st.calls[id]) && !CommonStage(st.calls[id].stage)
    ensures SetterStep(st, StepDirectUDP(st, id), id)
  {
  }

  lemma FallbackStep(st: State, id: nat)
    requires Moving(st, id) && st.calls[id].Fallback? && HoldsLock(st.calls[id]) && !CommonStage(st.calls[id].stage)
    ensures SetterStep(st, StepFallback(st, id), id)
  {
  }

  lemma WarmUpStep(st: State, id: nat)
    requires Moving(st, id) && st.calls[id].WarmUp? && HoldsLock(st.calls[id]) && !CommonStage(st.calls[id].stage)
    ensures SetterStep(st, StepWarmUp(st, id), id)
  {
  }

  lemma CloseStep(st: State, id: nat)
    requires Moving(st, id) && st.calls[id].Close? && HoldsLock(st.calls[id]) && !CommonStage(st.calls[id].stage)
    ensures SetterStep(st, StepClose(st, id), id)
  {
  }

  lemma InsideStep(st: State, id: nat)
    requires Moving(st, id) && HoldsLock(st.calls[id]) && !CommonStage(st.calls[id].stage)
    ensures SetterStep(st, StepOf(st, id), id)
  {
    match st.calls[id] {
      case SetDirectUDP(_, _, _) => DirectUDPStep(st, id);
      case Fallback(_, _) => FallbackStep(st, id);
      case WarmUp(_) => WarmUpStep(st, id);
      case Close(_) => CloseStep(st, id);
    }
  }

  lemma ReceiveStep(st: State, id: nat)
    requires Moving(st, id) && st.calls[id].Receive? && !IsAwaiting(st.calls[id])
    ensures SetterStep(st, StepReceive(st, id), id)
  {
    BystanderStep(st, StepReceive(st, id), id);
  }

  /** In awaitPathChange up to the point where it blocks. */
  predicate IsAwaiting(c: Call)
  {
    c.Receive? && (c.stage.Registering? || c.stage.Registered?)
  }

  lemma EveryOtherStep(st: State, id: nat)
    requires Moving(st, id) && !IsAwaiting(st.calls[id])
    ensures SetterStep(st, StepOf(st, id), id)
  {
    var c := st.calls[id];
    if c.SetDirectTCP? {
      DirectTCPStep(st, id);
    } else if c.Send? {
      SendStep(st, id);
    } else if c.Receive? {
      ReceiveStep(st, id);
    } else if c.stage.Begin? {
      BeginStep(st, id);
    } else if CommonStage(c.stage) {
      CommonStep(st, id);
    } else {
      InsideStep(st, id);
    }
  }

  lemma SetterKeepsChannels(st: State, t: State, id: nat)
    requires ChannelInv(st) && id in st.calls && SetterStep(st, t, id)
    ensures ChannelInv(t)
  {
  }

  lemma SetterKeepsWakes(st: State, t: State, id: nat)
    requires ChannelInv(st) && WakeInv(st) && id in st.calls && SetterStep(st, t, id)
    ensures WakeInv(t)
  {
    forall i | i in t.calls && IsBlocked(t.calls[i])
      ensures i in st.calls && st.calls[i] == t.calls[i] && t.calls[i].channel < st.made
    {
    }
  }

  lemma RegisteringKeepsWakes(st: State, id: nat)
    requires ChannelInv(st) && WakeInv(st) && id in st.calls && st.calls[id].Receive? && st.calls[id].stage.Registering?
    ensures ChannelInv(StepReceive(st, id)) && WakeInv(StepReceive(st, id))
  {
    var t := StepReceive(st, id);
    assert t == WithRegistered(st, id);
    assert forall i :: i in t.calls && IsBlocked(t.calls[i]) ==> i in st.calls && t.calls[i] == st.calls[i];
  }

  lemma LookingKeepsWakes(st: State, id: nat)
    requires ChannelInv(st) && WakeInv(st) && Moving(st, id) && st.calls[id].Receive? && st.calls[id].stage.Registered?
    ensures ChannelInv(StepReceive(st, id)) && WakeInv(StepReceive(st, id))
  {
  }

  lemma AwaitKeepsWakes(st: State, id: nat)
    requires ChannelInv(st) && WakeInv(st) && Moving(st, id) && IsAwaiting(st.calls[id])
    ensures ChannelInv(StepOf(st, id)) && WakeInv(StepOf(st, id))
  {
    if st.calls[id].stage.Registering? {
      RegisteringKeepsWakes(st, id);
    } else {
      LookingKeepsWakes(st, id);
    }
  }

  // ---------------------------------------------------------------- every action

  lemma StepKeeps(st: State, id: nat)
    requires Inv(st) && Enabled(st, Step(id))
    ensures Inv(StepOf(st, id))
  {
    StepKeepsLock(st, id);
    StepKeepsPath(st, id);
    if IsAwaiting(st.calls[id]) {
      AwaitKeepsWakes(st, id);
    } else {
      EveryOtherStep(st, id);
      SetterKeepsChannels(st, StepOf(st, id), id);
      SetterKeepsWakes(st, StepOf(st, id), id);
    }
  }

  lemma EnterKeepsLock(st: State, id: nat, c: Call)
    requires LockInv(st) && id !in st.calls && Fresh(st, c)
    ensures LockInv(st.(calls := st.calls[id := c]))
  {
  }

  lemma EnterKeepsPath(st: State, id: nat, c: Call)
    requires LockInv(st) && PathInv(st) && id !in st.calls && Fresh(st, c)
    ensures PathInv(st.(calls := st.calls[id := c]))
  {
  }

  lemma EnterKeeps(st: State, id: nat, c: Call)
    requires Inv(st) && id !in st.calls && Fresh(st, c)
    ensures Inv(st.(calls := st.calls[id := c]))
  {
    EnterKeepsLock(st, id, c);
    EnterKeepsPath(st, id, c);
  }

  lemma CancelKeeps(st: State, id: nat)
    requires Inv(st) && id in st.calls && st.calls[id].Receive?
    ensures Inv(Gone(st, id))
  {
  }

  /** A call that holds no lock goes elsewhere, with everything else as it was. */
  lemma ElsewhereKeeps(st: State, id: nat, c: Call)
    requires Inv(st) && id in st.calls && !HoldsLock(st.calls[id]) && !HoldsLock(c)
    requires Legal(c) && !HasChannel(c) && !c.Close?
    ensures Inv(st.(calls := st.calls[id := c]))
  {
    var t := st.(calls := st.calls[id := c]);
    OutsiderMoves(st, t, id);
    assert forall i :: i in t.calls && IsBlocked(t.calls[i]) ==> i in st.calls && t.calls[i] == st.calls[i];
  }

  lemma ApplyKeeps(st: State, a: Action)
    requires Inv(st) && Enabled(st, a)
    ensures Inv(Apply(st, a))
  {
    match a {
      case Enter(id, c) => EnterKeeps(st, id, c);
      case Step(id) => StepKeeps(st, id);
      case Cancel(id) => CancelKeeps(st, id);
      case Datagram(id) => ElsewhereKeeps(st, id, Apply(st, a).calls[id]);
      case Fail(id) => ElsewhereKeeps(st, id, Apply(st, a).calls[id]);
    }
  }
}
