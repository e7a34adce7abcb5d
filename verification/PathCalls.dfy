/** What each call on a path manager comes to when no other call gets in between: what the methods
    of `PathManager.Manager` promise, reached step by step. */
module PathCalls {
  import opened Words
  import opened PathManager
  import opened PathRaces
  import opened PathInvariant
  import opened PathRuns

  /** The call is entered and goes on by its own steps only; if `failing`, its attempts over the
      direct path do not get through. */
  predicate Undisturbed(st: State, id: nat, call: Call, run: seq<Action>, failing: bool, t: State)
  {
    && run != [] && run[0] == Enter(id, call) && Leads(st, run, t)
    && forall i :: 0 < i < |run| ==> run[i] == Step(id) || (failing && run[i] == Fail(id))
  }

  predicate Idle(st: State, id: nat)
  {
    Inv(st) && st.lock == None && id !in st.calls
  }

  lemma Entered(st: State, id: nat, call: Call) returns (run: seq<Action>)
    requires Idle(st, id) && Fresh(st, call)
    ensures Undisturbed(st, id, call, run, false, st.(calls := st.calls[id := call]))
  {
    var t;
    run, t := Longer(st, [], st, Enter(id, call));
  }

  lemma Goes(st: State, id: nat, call: Call, before: seq<Action>, failing: bool, mid: State, t: State)
    returns (run: seq<Action>)
    requires Undisturbed(st, id, call, before, failing, mid) && Enabled(mid, Step(id)) && t == StepOf(mid, id)
    ensures Undisturbed(st, id, call, run, failing, t)
  {
    var next;
    run, next := Longer(st, before, mid, Step(id));
  }

  /** Every channel made so far is closed, and nothing else is different. */
  ghost predicate Woken(st: State, t: State)
  {
    && t == st.(channel := None, closedChannels := t.closedChannels)
    && forall c: nat :: c in t.closedChannels <==> c < t.made
  }

  lemma NotifyingWakes(st: State)
    requires ChannelInv(st)
    ensures Woken(st, Notified(st))
  {
  }

  // ---------------------------------------------------------------- one step of a call with the lock

  /** The call is this far, and `st` is how things stand but for that. */
  function With(st: State, id: nat, call: Call): State
  {
    st.(calls := st.calls[id := call])
  }

  /** It has the lock besides. */
  function Held(st: State, id: nat, call: Call): State
  {
    With(st, id, call).(lock := Some(id))
  }

  lemma Again(st: State, id: nat, call: Call, next: Call)
    ensures With(With(st, id, call), id, next) == With(st, id, next)
    ensures id !in st.calls ==> st.calls[id := call] - {id} == st.calls
  {
    assert st.calls[id := call][id := next] == st.calls[id := next];
  }

  lemma UpgradeSteps(st: State, id: nat, res: nat, lan: bool)
    requires id !in st.calls && st.lock == None && !st.shut
    ensures StepOf(With(st, id, SetDirectUDP(Begin, res, lan)), id) == With(st, id, SetDirectUDP(Waiting, res, lan))
    ensures StepOf(With(st, id, SetDirectUDP(Waiting, res, lan)), id) == Held(st, id, SetDirectUDP(Holding, res, lan))
    ensures StepOf(Held(st, id, SetDirectUDP(Holding, res, lan)), id)
         == Held(st.(punch := Some(res)), id, SetDirectUDP(Punched, res, lan))
  {
    Again(st, id, SetDirectUDP(Begin, res, lan), SetDirectUDP(Waiting, res, lan));
    Again(st, id, SetDirectUDP(Waiting, res, lan), SetDirectUDP(Holding, res, lan));
    Again(st, id, SetDirectUDP(Holding, res, lan), SetDirectUDP(Punched, res, lan));
  }

  lemma HeldNotified(st: State, id: nat, call: Call)
    ensures Notified(Held(st, id, call)) == Held(Notified(st), id, call)
  {
  }

  lemma HeldUnlocked(st: State, id: nat, call: Call)
    requires id !in st.calls && st.lock == None
    ensures Unlocked(Held(st, id, call), id) == st
  {
    Again(st, id, call, call);
  }

  lemma UpgradeEnds(st: State, id: nat, res: nat, lan: bool)
    requires id !in st.calls && st.lock == None
    ensures StepOf(Held(st, id, SetDirectUDP(Punched, res, lan)), id)
         == Held(st.(udp := if lan then DirectLAN else DirectUDP, upgrades := st.upgrades + 1), id,
                 SetDirectUDP(Stored, res, lan))
    ensures StepOf(Held(st, id, SetDirectUDP(Stored, res, lan)), id)
         == Held(Notified(st), id, SetDirectUDP(Leaving, res, lan))
    ensures StepOf(Held(st, id, SetDirectUDP(Leaving, res, lan)), id) == st
  {
    Again(st, id, SetDirectUDP(Punched, res, lan), SetDirectUDP(Stored, res, lan));
    Again(Notified(st), id, SetDirectUDP(Stored, res, lan), SetDirectUDP(Leaving, res, lan));
    HeldNotified(st, id, SetDirectUDP(Stored, res, lan));
    HeldUnlocked(st, id, SetDirectUDP(Leaving, res, lan));
  }

  // ---------------------------------------------------------------- upgrades

  /** A closed manager closes the punch result it is offered. */
  lemma UpgradeRefused(st: State, id: nat, res: nat, lan: bool) returns (run: seq<Action>)
    requires Idle(st, id) && st.shut
    ensures Undisturbed(st, id, SetDirectUDP(Begin, res, lan), run, false,
                        st.(closedPunches := st.closedPunches + {res}))
  {
    var call := SetDirectUDP(Begin, res, lan);
    run := Entered(st, id, call);
    Again(st, id, call, call);
    run := Goes(st, id, call, run, false, With(st, id, call), st.(closedPunches := st.closedPunches + {res}));
  }

  function Upgraded(st: State, res: nat, lan: bool): State
  {
    st.(punch := Some(res), udp := if lan then DirectLAN else DirectUDP, upgrades := st.upgrades + 1)
  }

  lemma UpgradeStores(st: State, id: nat, res: nat, lan: bool) returns (run: seq<Action>)
    requires Idle(st, id) && !st.shut
    ensures Undisturbed(st, id, SetDirectUDP(Begin, res, lan), run, false,
                        Held(Upgraded(st, res, lan), id, SetDirectUDP(Stored, res, lan)))
  {
    var call, punched := SetDirectUDP(Begin, res, lan), st.(punch := Some(res));
    UpgradeSteps(st, id, res, lan);
    run := Entered(st, id, call);
    run := Goes(st, id, call, run, false, With(st, id, call), With(st, id, SetDirectUDP(Waiting, res, lan)));
    run := Goes(st, id, call, run, false, With(st, id, SetDirectUDP(Waiting, res, lan)),
                Held(st, id, SetDirectUDP(Holding, res, lan)));
    run := Goes(st, id, call, run, false, Held(st, id, SetDirectUDP(Holding, res, lan)),
                Held(punched, id, SetDirectUDP(Punched, res, lan)));
    UpgradeEnds(punched, id, res, lan);
    run := Goes(st, id, call, run, false, Held(punched, id, SetDirectUDP(Punched, res, lan)),
                Held(Upgraded(st, res, lan), id, SetDirectUDP(Stored, res, lan)));
  }

  /** An open one takes it, makes the path direct and wakes everyone. */
  lemma UpgradeTaken(st: State, id: nat, res: nat, lan: bool) returns (run: seq<Action>, t: State)
    requires Idle(st, id) && !st.shut
    ensures Undisturbed(st, id, SetDirectUDP(Begin, res, lan), run, false, t) && Woken(Upgraded(st, res, lan), t)
  {
    var call, end := SetDirectUDP(Begin, res, lan), Upgraded(st, res, lan);
    t := Notified(end);
    run := UpgradeStores(st, id, res, lan);
    UpgradeEnds(end, id, res, lan);
    run := Goes(st, id, call, run, false, Held(end, id, SetDirectUDP(Stored, res, lan)),
                Held(t, id, SetDirectUDP(Leaving, res, lan)));
    UpgradeEnds(t, id, res, lan);
    NotifyingWakes(end);
    run := Goes(st, id, call, run, false, Held(t, id, SetDirectUDP(Leaving, res, lan)), t);
  }

  /** The TCP path is upgraded without the lock, unless the manager is closed. */
  lemma TCPUpgrade(st: State, id: nat, lan: bool) returns (run: seq<Action>, t: State)
    requires Idle(st, id)
    ensures Undisturbed(st, id, SetDirectTCP(Begin, lan), run, false, t)
    ensures if st.shut then t == st else Woken(st.(tcp := if lan then DirectLAN else DirectTCP), t)
  {
    var call := SetDirectTCP(Begin, lan);
    run := Entered(st, id, call);
    Again(st, id, call, call);
    if st.shut {
      t := st;
      run := Goes(st, id, call, run, false, With(st, id, call), t);
    } else {
      var end := st.(tcp := if lan then DirectLAN else DirectTCP);
      t := Notified(end);
      TCPSteps(st, id, lan);
      NotifyingWakes(end);
      run := Goes(st, id, call, run, false, With(st, id, call), With(st, id, SetDirectTCP(TCPSeen, lan)));
      run := Goes(st, id, call, run, false, With(st, id, SetDirectTCP(TCPSeen, lan)),
                  With(end, id, SetDirectTCP(Stored, lan)));
      run := Goes(st, id, call, run, false, With(end, id, SetDirectTCP(Stored, lan)), t);
    }
  }

  lemma TCPSteps(st: State, id: nat, lan: bool)
    requires id !in st.calls && !st.shut
    ensures var end := st.(tcp := if lan then DirectLAN else DirectTCP);
            && StepOf(With(st, id, SetDirectTCP(Begin, lan)), id) == With(st, id, SetDirectTCP(TCPSeen, lan))
            && StepOf(With(st, id, SetDirectTCP(TCPSeen, lan)), id) == With(end, id, SetDirectTCP(Stored, lan))
            && StepOf(With(end, id, SetDirectTCP(Stored, lan)), id) == Notified(end)
  {
    Again(st, id, SetDirectTCP(Begin, lan), SetDirectTCP(TCPSeen, lan));
    Again(st, id, SetDirectTCP(TCPSeen, lan), SetDirectTCP(Stored, lan));
  }

  // ---------------------------------------------------------------- giving up the direct path

  /** What is left of a manager whose direct path was given up. */
  function WithoutDirect(st: State): State
    requires st.punch.Some?
  {
    st.(udp := if st.relay.WithDatagrams? then Relay else Disabled,
        punch := None, closedPunches := st.closedPunches + {st.punch.value})
  }

  function Unpunched(st: State): State
    requires st.punch.Some?
  {
    st.(punch := None, closedPunches := st.closedPunches + {st.punch.value})
  }

  lemma FallbackTakes(st: State, id: nat, caller: Caller)
    requires id !in st.calls && st.lock == None && (IsDirect(st.udp) ==> st.punch.Some?)
    ensures StepOf(With(st, id, Fallback(Waiting, caller)), id) == Held(st, id, Fallback(Holding, caller))
    ensures StepOf(Held(st, id, Fallback(Holding, caller)), id)
         == if IsDirect(st.udp) then Held(Unpunched(st), id, Fallback(Punched, caller))
            else Held(st, id, Fallback(Leaving, caller))
  {
    Again(st, id, Fallback(Waiting, caller), Fallback(Holding, caller));
    Again(st, id, Fallback(Holding, caller), Fallback(Punched, caller));
    Again(st, id, Fallback(Holding, caller), Fallback(Leaving, caller));
  }

  lemma FallbackStores(st: State, id: nat, caller: Caller)
    requires id !in st.calls && st.punch.Some?
    ensures StepOf(Held(Unpunched(st), id, Fallback(Punched, caller)), id)
         == Held(WithoutDirect(st), id, Fallback(Stored, caller))
  {
    Again(Unpunched(st), id, Fallback(Punched, caller), Fallback(Stored, caller));
  }

  lemma FallbackNotifies(st: State, id: nat, caller: Caller)
    requires id !in st.calls
    ensures StepOf(Held(st, id, Fallback(Stored, caller)), id) == Held(Notified(st), id, Fallback(Leaving, caller))
  {
    HeldNotified(st, id, Fallback(Stored, caller));
    Again(Notified(st), id, Fallback(Stored, caller), Fallback(Leaving, caller));
  }

  /** Where the caller of a fallback goes on. */
  function GoneOn(st: State, id: nat, caller: Caller): State
  {
    match caller
    case Alone => st
    case ForSend(sender) => With(st, id, Send(Begin, sender, Unknown))
    case ForReceive => With(st, id, Receive(Begin, 0))
  }

  lemma FallbackLeaves(st: State, id: nat, caller: Caller)
    requires id !in st.calls && st.lock == None
    ensures StepOf(Held(st, id, Fallback(Leaving, caller)), id) == GoneOn(st, id, caller)
  {
    HeldUnlocked(st, id, Fallback(Leaving, caller));
    match caller {
      case Alone =>
      case ForSend(sender) => Again(st, id, Fallback(Leaving, caller), Send(Begin, sender, Unknown));
      case ForReceive => Again(st, id, Fallback(Leaving, caller), Receive(Begin, 0));
    }
  }

  /** A direct path is given up for the relay, its punch result closed and everyone woken; any other
      path stays. The caller then goes on. */
  lemma GivesUp(st: State, id: nat, call: Call, before: seq<Action>, failing: bool, mid: State, caller: Caller)
    returns (run: seq<Action>, t: State)
    requires Undisturbed(st, id, call, before, failing, With(mid, id, Fallback(Waiting, caller)))
    requires id !in mid.calls && mid.lock == None && ChannelInv(mid) && (IsDirect(mid.udp) ==> mid.punch.Some?)
    ensures Undisturbed(st, id, call, run, failing, GoneOn(t, id, caller))
    ensures if IsDirect(mid.udp) then Woken(WithoutDirect(mid), t) else t == mid
  {
    FallbackTakes(mid, id, caller);
    run := Goes(st, id, call, before, failing, With(mid, id, Fallback(Waiting, caller)),
                Held(mid, id, Fallback(Holding, caller)));
    if IsDirect(mid.udp) {
      run := Goes(st, id, call, run, failing, Held(mid, id, Fallback(Holding, caller)),
                  Held(Unpunched(mid), id, Fallback(Punched, caller)));
      FallbackStores(mid, id, caller);
      run := Goes(st, id, call, run, failing, Held(Unpunched(mid), id, Fallback(Punched, caller)),
                  Held(WithoutDirect(mid), id, Fallback(Stored, caller)));
      FallbackNotifies(WithoutDirect(mid), id, caller);
      NotifyingWakes(WithoutDirect(mid));
      t := Notified(WithoutDirect(mid));
      run := Goes(st, id, call, run, failing, Held(WithoutDirect(mid), id, Fallback(Stored, caller)),
                  Held(t, id, Fallback(Leaving, caller)));
    } else {
      t := mid;
      run := Goes(st, id, call, run, failing, Held(mid, id, Fallback(Holding, caller)),
                  Held(mid, id, Fallback(Leaving, caller)));
    }
    FallbackLeaves(t, id, caller);
    run := Goes(st, id, call, run, failing, Held(t, id, Fallback(Leaving, caller)), GoneOn(t, id, caller));
  }

  lemma FallbackAlone(st: State, id: nat) returns (run: seq<Action>, t: State)
    requires Idle(st, id)
    ensures Undisturbed(st, id, Fallback(Waiting, Alone), run, false, t)
    ensures IsDirect(st.udp) ==> st.punch.Some? && Woken(WithoutDirect(st), t)
    ensures !IsDirect(st.udp) ==> t == st
  {
    run := Entered(st, id, Fallback(Waiting, Alone));
    run, t := GivesUp(st, id, Fallback(Waiting, Alone), run, false, st, Alone);
  }

  // ---------------------------------------------------------------- warm-up

  /** The relay takes what has no path yet. */
  function WarmTCP(st: State): State
  {
    st.(tcp := if st.tcp.Unknown? then Relay else st.tcp)
  }

  function Warmed(st: State): State
  {
    var udp := if st.relay.WithDatagrams? then Relay else Disabled;
    WarmTCP(st).(udp := if st.udp.Unknown? then udp else st.udp)
  }

  lemma WarmUpSteps(st: State, id: nat)
    requires id !in st.calls && st.lock == None
    ensures StepOf(With(st, id, WarmUp(Waiting)), id) == Held(st, id, WarmUp(Holding))
    ensures StepOf(Held(st, id, WarmUp(Holding)), id)
         == Held(st, id, if st.tcp.Unknown? then WarmUp(TCPSeen) else WarmUp(TCPDone))
    ensures StepOf(Held(st, id, WarmUp(TCPSeen)), id) == Held(st.(tcp := Relay), id, WarmUp(TCPDone))
  {
    Again(st, id, WarmUp(Waiting), WarmUp(Holding));
    Again(st, id, WarmUp(Holding), WarmUp(TCPSeen));
    Again(st, id, WarmUp(Holding), WarmUp(TCPDone));
    Again(st, id, WarmUp(TCPSeen), WarmUp(TCPDone));
  }

  lemma WarmUpEnds(st: State, id: nat)
    requires id !in st.calls && st.lock == None
    ensures StepOf(Held(st, id, WarmUp(TCPDone)), id)
         == Held(st, id, if st.udp.Unknown? then WarmUp(UDPSeen) else WarmUp(Stored))
    ensures StepOf(Held(st, id, WarmUp(UDPSeen)), id)
         == Held(st.(udp := if st.relay.WithDatagrams? then Relay else Disabled), id, WarmUp(Stored))
  {
    Again(st, id, WarmUp(TCPDone), WarmUp(UDPSeen));
    Again(st, id, WarmUp(TCPDone), WarmUp(Stored));
    Again(st, id, WarmUp(UDPSeen), WarmUp(Stored));
  }

  lemma WarmUpLeaves(st: State, id: nat)
    requires id !in st.calls && st.lock == None
    ensures StepOf(Held(st, id, WarmUp(Stored)), id) == Held(Notified(st), id, WarmUp(Leaving))
    ensures StepOf(Held(st, id, WarmUp(Leaving)), id) == st
  {
    HeldNotified(st, id, WarmUp(Stored));
    Again(Notified(st), id, WarmUp(Stored), WarmUp(Leaving));
    HeldUnlocked(st, id, WarmUp(Leaving));
  }

  lemma WarmUpWarmsTCP(st: State, id: nat) returns (run: seq<Action>)
    requires Idle(st, id)
    ensures Undisturbed(st, id, WarmUp(Waiting), run, false, Held(WarmTCP(st), id, WarmUp(TCPDone)))
  {
    WarmUpSteps(st, id);
    run := Entered(st, id, WarmUp(Waiting));
    run := Goes(st, id, WarmUp(Waiting), run, false, With(st, id, WarmUp(Waiting)), Held(st, id, WarmUp(Holding)));
    if st.tcp.Unknown? {
      run := Goes(st, id, WarmUp(Waiting), run, false, Held(st, id, WarmUp(Holding)), Held(st, id, WarmUp(TCPSeen)));
      run := Goes(st, id, WarmUp(Waiting), run, false, Held(st, id, WarmUp(TCPSeen)),
                  Held(WarmTCP(st), id, WarmUp(TCPDone)));
    } else {
      run := Goes(st, id, WarmUp(Waiting), run, false, Held(st, id, WarmUp(Holding)),
                  Held(WarmTCP(st), id, WarmUp(TCPDone)));
    }
  }

  lemma WarmUpWarmsUDP(st: State, id: nat) returns (run: seq<Action>)
    requires Idle(st, id)
    ensures Undisturbed(st, id, WarmUp(Waiting), run, false, Held(Warmed(st), id, WarmUp(Stored)))
  {
    var warm := WarmTCP(st);
    run := WarmUpWarmsTCP(st, id);
    WarmUpEnds(warm, id);
    if st.udp.Unknown? {
      run := Goes(st, id, WarmUp(Waiting), run, false, Held(warm, id, WarmUp(TCPDone)),
                  Held(warm, id, WarmUp(UDPSeen)));
      run := Goes(st, id, WarmUp(Waiting), run, false, Held(warm, id, WarmUp(UDPSeen)),
                  Held(Warmed(st), id, WarmUp(Stored)));
    } else {
      run := Goes(st, id, WarmUp(Waiting), run, false, Held(warm, id, WarmUp(TCPDone)),
                  Held(Warmed(st), id, WarmUp(Stored)));
    }
  }

  lemma WarmUpAlone(st: State, id: nat) returns (run: seq<Action>, t: State)
    requires Idle(st, id)
    ensures Undisturbed(st, id, WarmUp(Waiting), run, false, t) && Woken(Warmed(st), t)
  {
    var warm := Warmed(st);
    t := Notified(warm);
    run := WarmUpWarmsUDP(st, id);
    WarmUpLeaves(warm, id);
    WarmUpLeaves(t, id);
    NotifyingWakes(warm);
    run := Goes(st, id, WarmUp(Waiting), run, false, Held(warm, id, WarmUp(Stored)), Held(t, id, WarmUp(Leaving)));
    run := Goes(st, id, WarmUp(Waiting), run, false, Held(t, id, WarmUp(Leaving)), t);
  }

  // ---------------------------------------------------------------- close

  function Released(st: State): State
  {
    st.(shut := true, shutDone := true,
        closedPunches := st.closedPunches + if st.punch.Some? then {st.punch.value} else {})
  }

  /** The first Close closes the punch result in use, and any other does nothing. */
  lemma CloseAlone(st: State, id: nat) returns (run: seq<Action>)
    requires Idle(st, id)
    ensures Undisturbed(st, id, PathRaces.Close(Begin), run, false, if st.shut then st else Released(st))
  {
    var call, shut, t := PathRaces.Close(Begin), st.(shut := true), Released(st);
    run := Entered(st, id, call);
    Again(st, id, call, PathRaces.Close(Waiting));
    if st.shut {
      run := Goes(st, id, call, run, false, With(st, id, call), st);
    } else {
      run := Goes(st, id, call, run, false, With(st, id, call), With(shut, id, PathRaces.Close(Waiting)));
      CloseSteps(st, id);
      run := Goes(st, id, call, run, false, With(shut, id, PathRaces.Close(Waiting)),
                  Held(shut, id, PathRaces.Close(Holding)));
      run := Goes(st, id, call, run, false, Held(shut, id, PathRaces.Close(Holding)),
                  Held(t, id, PathRaces.Close(Leaving)));
      HeldUnlocked(t, id, PathRaces.Close(Leaving));
      run := Goes(st, id, call, run, false, Held(t, id, PathRaces.Close(Leaving)), t);
    }
  }

  lemma CloseSteps(st: State, id: nat)
    requires id !in st.calls && st.lock == None
    ensures var shut := st.(shut := true);
            && StepOf(With(shut, id, PathRaces.Close(Waiting)), id) == Held(shut, id, PathRaces.Close(Holding))
            && StepOf(Held(shut, id, PathRaces.Close(Holding)), id) == Held(Released(st), id, PathRaces.Close(Leaving))
  {
    Again(st, id, PathRaces.Close(Waiting), PathRaces.Close(Holding));
    Again(st, id, PathRaces.Close(Holding), PathRaces.Close(Leaving));
  }

  // ---------------------------------------------------------------- sends

  /** A send that has looked once more and drawn the next packet ID. */
  function Drawn(st: State, sender: Sender): State
  {
    var packetID := Wrap32(st.nextPacketID + 1);
    st.(nextPacketID := packetID, draws := st.draws + [Draw(sender, st.upgrades, packetID)])
  }

  lemma SendSteps(st: State, id: nat, sender: Sender)
    requires id !in st.calls && !st.udp.Disabled?
    ensures var next := sender.(rounds := sender.rounds + 1);
            && StepOf(With(st, id, Send(Begin, sender, Unknown)), id) == With(st, id, Send(Looked, next, st.udp))
            && StepOf(With(st, id, Send(Looked, next, st.udp)), id)
            == With(Drawn(st, next), id, Send(Numbered, next, st.udp))
  {
    var next := sender.(rounds := sender.rounds + 1);
    Again(st, id, Send(Begin, sender, Unknown), Send(Looked, next, st.udp));
    Again(st, id, Send(Looked, next, st.udp), Send(Numbered, next, st.udp));
  }

  lemma SendDraws(st: State, id: nat, call: Call, before: seq<Action>, failing: bool, mid: State, sender: Sender)
    returns (run: seq<Action>)
    requires Undisturbed(st, id, call, before, failing, With(mid, id, Send(Begin, sender, Unknown)))
    requires id !in mid.calls && !mid.udp.Disabled?
    ensures var next := sender.(rounds := sender.rounds + 1);
            Undisturbed(st, id, call, run, failing, With(Drawn(mid, next), id, Send(Numbered, next, mid.udp)))
  {
    var next := sender.(rounds := sender.rounds + 1);
    SendSteps(mid, id, sender);
    run := Goes(st, id, call, before, failing, With(mid, id, Send(Begin, sender, Unknown)),
                With(mid, id, Send(Looked, next, mid.udp)));
    run := Goes(st, id, call, run, failing, With(mid, id, Send(Looked, next, mid.udp)),
                With(Drawn(mid, next), id, Send(Numbered, next, mid.udp)));
  }

  lemma SendReturns(st: State, id: nat, call: Call)
    requires id !in st.calls && st.lock == None && call.Send?
    ensures call.stage.Numbered? && !IsDirect(call.path) ==> StepOf(With(st, id, call), id) == st
    ensures call.stage.Trying? ==> StepOf(With(st, id, call), id) == st
    ensures call.stage.Begin? && st.udp.Disabled? ==> StepOf(With(st, id, call), id) == st
  {
    Again(st, id, call, call);
  }

  /** Off the direct path a send draws one packet ID, or none if UDP is disabled. */
  lemma SendsOffDirect(st: State, id: nat, call: Call, before: seq<Action>, failing: bool, mid: State, sender: Sender)
    returns (run: seq<Action>)
    requires Undisturbed(st, id, call, before, failing, With(mid, id, Send(Begin, sender, Unknown)))
    requires id !in mid.calls && mid.lock == None && !IsDirect(mid.udp)
    ensures Undisturbed(st, id, call, run, failing,
                        if mid.udp.Disabled? then mid else Drawn(mid, sender.(rounds := sender.rounds + 1)))
  {
    var next := sender.(rounds := sender.rounds + 1);
    if mid.udp.Disabled? {
      SendReturns(mid, id, Send(Begin, sender, Unknown));
      run := Goes(st, id, call, before, failing, With(mid, id, Send(Begin, sender, Unknown)), mid);
    } else {
      run := SendDraws(st, id, call, before, failing, mid, sender);
      SendReturns(Drawn(mid, next), id, Send(Numbered, next, mid.udp));
      run := Goes(st, id, call, run, failing, With(Drawn(mid, next), id, Send(Numbered, next, mid.udp)),
                  Drawn(mid, next));
    }
  }

  /** On a direct path a send has the punch result when it tries, under the ID it drew. */
  lemma SendTries(st: State, id: nat, failing: bool) returns (run: seq<Action>)
    requires Idle(st, id) && IsDirect(st.udp)
    ensures var sender := Sender(1, st.upgrades);
            && st.punch.Some?
            && Undisturbed(st, id, Send(Begin, Sender(0, st.upgrades), Unknown), run, failing,
                           With(Drawn(st, sender), id, Send(Trying, sender, st.udp)))
  {
    var call, sender := Send(Begin, Sender(0, st.upgrades), Unknown), Sender(1, st.upgrades);
    run := Entered(st, id, call);
    run := SendDraws(st, id, call, run, failing, st, Sender(0, st.upgrades));
    Again(Drawn(st, sender), id, Send(Numbered, sender, st.udp), Send(Trying, sender, st.udp));
    run := Goes(st, id, call, run, failing, With(Drawn(st, sender), id, Send(Numbered, sender, st.udp)),
                With(Drawn(st, sender), id, Send(Trying, sender, st.udp)));
  }

  /** A send whose attempt, if it makes one, gets through: the path stays as it is, and one packet
      ID is drawn unless UDP is disabled. */
  lemma SendGetsThrough(st: State, id: nat) returns (run: seq<Action>)
    requires Idle(st, id)
    ensures Undisturbed(st, id, Send(Begin, Sender(0, st.upgrades), Unknown), run, false,
                        if st.udp.Disabled? then st else Drawn(st, Sender(1, st.upgrades)))
  {
    var call, sender := Send(Begin, Sender(0, st.upgrades), Unknown), Sender(1, st.upgrades);
    if IsDirect(st.udp) {
      run := SendTries(st, id, false);
      SendReturns(Drawn(st, sender), id, Send(Trying, sender, st.udp));
      run := Goes(st, id, call, run, false, With(Drawn(st, sender), id, Send(Trying, sender, st.udp)),
                  Drawn(st, sender));
    } else {
      run := Entered(st, id, call);
      run := SendsOffDirect(st, id, call, run, false, st, Sender(0, st.upgrades));
    }
  }

  lemma Fails(st: State, id: nat, call: Call, before: seq<Action>, mid: State, trying: Call)
    returns (run: seq<Action>)
    requires Undisturbed(st, id, call, before, true, With(mid, id, trying))
    requires (trying.Send? || trying.Receive?) && trying.stage.Trying?
    ensures var caller := if trying.Send? then ForSend(trying.sender) else ForReceive;
            Undisturbed(st, id, call, run, true, With(mid, id, Fallback(Waiting, caller)))
  {
    var caller := if trying.Send? then ForSend(trying.sender) else ForReceive;
    Again(mid, id, trying, Fallback(Waiting, caller));
    var next;
    run, next := Longer(st, before, With(mid, id, trying), Fail(id));
  }

  /** A send whose attempt over the direct path fails gives the path up, wakes everyone, and sends
      again under the next packet ID by the relay, if that takes datagrams. */
  lemma SendRetries(st: State, id: nat) returns (run: seq<Action>, t: State)
    requires Idle(st, id) && IsDirect(st.udp)
    ensures Undisturbed(st, id, Send(Begin, Sender(0, st.upgrades), Unknown), run, true,
                        if st.relay.WithDatagrams? then Drawn(t, Sender(2, st.upgrades)) else t)
    ensures st.punch.Some? && Woken(WithoutDirect(Drawn(st, Sender(1, st.upgrades))), t)
  {
    var call, sender := Send(Begin, Sender(0, st.upgrades), Unknown), Sender(1, st.upgrades);
    run := SendTries(st, id, true);
    run := Fails(st, id, call, run, Drawn(st, sender), Send(Trying, sender, st.udp));
    run, t := GivesUp(st, id, call, run, true, Drawn(st, sender), ForSend(sender));
    run := SendsOffDirect(st, id, call, run, true, t, sender);
  }

  // ---------------------------------------------------------------- receives

  /** Where a receive gets that finds this path. */
  function Awaiting(udp: PathType): Stage
  {
    match udp
    case Disabled => Parked
    case Relay => OnRelay
    case Unknown => Registering
    case _ => Reading
  }

  lemma ReceiveLooks(st: State, id: nat)
    requires id !in st.calls && PathInv(st)
    ensures StepOf(With(st, id, Receive(Begin, 0)), id) == With(st, id, Receive(Awaiting(st.udp), 0))
  {
    Again(st, id, Receive(Begin, 0), Receive(Awaiting(st.udp), 0));
  }

  /** On a direct path a receive gets to read the socket; it waits on the relay if the relay has the
      path, and to be cancelled if UDP is disabled. */
  lemma ReceiveAlone(st: State, id: nat) returns (run: seq<Action>)
    requires Idle(st, id) && !st.udp.Unknown?
    ensures Undisturbed(st, id, Receive(Begin, 0), run, false,
                        With(st, id, Receive(if IsDirect(st.udp) then Trying
                                             else if st.udp.Relay? then OnRelay else Parked, 0)))
  {
    run := Entered(st, id, Receive(Begin, 0));
    ReceiveLooks(st, id);
    run := Goes(st, id, Receive(Begin, 0), run, false, With(st, id, Receive(Begin, 0)),
                With(st, id, Receive(Awaiting(st.udp), 0)));
    if IsDirect(st.udp) {
      Again(st, id, Receive(Reading, 0), Receive(Trying, 0));
      run := Goes(st, id, Receive(Begin, 0), run, false, With(st, id, Receive(Reading, 0)),
                  With(st, id, Receive(Trying, 0)));
    }
  }

  /** The channel of the next path change, made if there is none. */
  function Registered(st: State): State
  {
    if st.channel.Some? then st else st.(channel := Some(st.made), made := st.made + 1)
  }

  lemma ReceiveRegisters(st: State, id: nat)
    requires id !in st.calls && st.udp.Unknown?
    ensures var (u, c) := (Registered(st), Registered(st).channel.value);
            && StepOf(With(st, id, Receive(Registering, 0)), id) == With(u, id, Receive(Stage.Registered, c))
            && StepOf(With(u, id, Receive(Stage.Registered, c)), id) == With(u, id, Receive(Blocked, c))
  {
    var (u, c) := (Registered(st), Registered(st).channel.value);
    Again(u, id, Receive(Registering, 0), Receive(Stage.Registered, c));
    Again(u, id, Receive(Stage.Registered, c), Receive(Blocked, c));
  }

  /** Before there is a path it waits for the channel that the next change closes. */
  lemma ReceiveWaits(st: State, id: nat) returns (run: seq<Action>, channel: nat)
    requires Idle(st, id) && st.udp.Unknown?
    ensures Registered(st).channel == Some(channel) && channel !in st.closedChannels
    ensures Undisturbed(st, id, Receive(Begin, 0), run, false, With(Registered(st), id, Receive(Blocked, channel)))
  {
    var u := Registered(st);
    channel := u.channel.value;
    run := Entered(st, id, Receive(Begin, 0));
    ReceiveLooks(st, id);
    run := Goes(st, id, Receive(Begin, 0), run, false, With(st, id, Receive(Begin, 0)),
                With(st, id, Receive(Registering, 0)));
    ReceiveRegisters(st, id);
    run := Goes(st, id, Receive(Begin, 0), run, false, With(st, id, Receive(Registering, 0)),
                With(u, id, Receive(Stage.Registered, channel)));
    run := Goes(st, id, Receive(Begin, 0), run, false, With(u, id, Receive(Stage.Registered, channel)),
                With(u, id, Receive(Blocked, channel)));
  }

  lemma ReceiveLooksAfter(st: State, id: nat)
    requires id !in st.calls && st.udp == if st.relay.WithDatagrams? then Relay else Disabled
    ensures StepOf(With(st, id, Receive(Begin, 0)), id)
         == With(st, id, Receive(if st.relay.WithDatagrams? then OnRelay else Parked, 0))
  {
    Again(st, id, Receive(Begin, 0), Receive(OnRelay, 0));
    Again(st, id, Receive(Begin, 0), Receive(Parked, 0));
  }

  /** A receive that cannot read from the direct path gives it up, wakes everyone, and goes on as the
      relay allows. */
  lemma ReceiveRetries(st: State, id: nat) returns (run: seq<Action>, t: State)
    requires Idle(st, id) && IsDirect(st.udp)
    ensures Undisturbed(st, id, Receive(Begin, 0), run, true,
                        With(t, id, Receive(if st.relay.WithDatagrams? then OnRelay else Parked, 0)))
    ensures st.punch.Some? && Woken(WithoutDirect(st), t)
  {
    var call := Receive(Begin, 0);
    run := ReceiveAlone(st, id);
    run := Fails(st, id, call, run, st, Receive(Trying, 0));
    run, t := GivesUp(st, id, call, run, true, st, ForReceive);
    ReceiveLooksAfter(t, id);
    run := Goes(st, id, call, run, true, With(t, id, call),
                With(t, id, Receive(if st.relay.WithDatagrams? then OnRelay else Parked, 0)));
  }
}
