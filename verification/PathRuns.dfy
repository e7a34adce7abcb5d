/** What holds of a path manager in every run, however its callers interleave. */
module PathRuns {
  import opened Words
  import opened PathManager
  import opened PathRaces
  import opened PathInvariant

  predicate Leads(st: State, actions: seq<Action>, t: State)
    decreases |actions|
  {
    if actions == [] then st == t
    else Enabled(st, actions[0]) && Leads(Apply(st, actions[0]), actions[1..], t)
  }

  lemma {:induction false} RunKeeps(st: State, actions: seq<Action>, t: State)
    requires Inv(st) && Leads(st, actions, t)
    ensures Inv(t)
    decreases |actions|
  {
    if actions != [] {
      ApplyKeeps(st, actions[0]);
      RunKeeps(Apply(st, actions[0]), actions[1..], t);
    }
  }

  // ---------------------------------------------------------------- how the UDP path changes

  /** The ways in which a call may change the UDP path. */
  predicate PathChange(st: State, t: State, c: Call)
  {
    match c
    case SetDirectUDP(_, res, lan) =>
      t.udp == (if lan then DirectLAN else DirectUDP) && t.punch.Some? && !t.shutDone && t.upgrades == st.upgrades + 1
    case Fallback(_, _) =>
      IsDirect(st.udp) && t.udp == RelayPath(st.relay) && t.punch == None && t.upgrades == st.upgrades
    case WarmUp(_) => st.udp.Unknown? && t.udp == RelayPath(st.relay) && t.upgrades == st.upgrades
    case _ => false
  }

  predicate PathKept(st: State, t: State)
  {
    t.udp == st.udp && t.upgrades == st.upgrades
  }

  lemma DirectUDPChange(st: State, id: nat)
    requires PathInv(st) && Moving(st, id) && st.calls[id].SetDirectUDP?
    ensures var t := StepDirectUDP(st, id); t.relay == st.relay && (PathKept(st, t) || PathChange(st, t, st.calls[id]))
  {
  }

  lemma FallbackChange(st: State, id: nat)
    requires PathInv(st) && Moving(st, id) && st.calls[id].Fallback?
    ensures var t := StepFallback(st, id); t.relay == st.relay && (PathKept(st, t) || PathChange(st, t, st.calls[id]))
  {
  }

  lemma WarmUpChange(st: State, id: nat)
    requires PathInv(st) && Moving(st, id) && st.calls[id].WarmUp?
    ensures var t := StepWarmUp(st, id); t.relay == st.relay && (PathKept(st, t) || PathChange(st, t, st.calls[id]))
  {
  }

  lemma OthersKeepPath(st: State, id: nat)
    requires id in st.calls
    requires st.calls[id].SetDirectTCP? || st.calls[id].Close? || st.calls[id].Send? || st.calls[id].Receive?
    ensures PathKept(st, StepOf(st, id)) && StepOf(st, id).relay == st.relay
  {
  }

  lemma StepChange(st: State, id: nat)
    requires PathInv(st) && Moving(st, id)
    ensures var t := StepOf(st, id); t.relay == st.relay && (PathKept(st, t) || PathChange(st, t, st.calls[id]))
  {
    match st.calls[id] {
      case SetDirectUDP(_, _, _) => DirectUDPChange(st, id);
      case Fallback(_, _) => FallbackChange(st, id);
      case WarmUp(_) => WarmUpChange(st, id);
      case _ => OthersKeepPath(st, id);
    }
  }

  /** Only a direct upgrade, the fallback from a direct path and the warm-up of a path still
      unknown change the UDP path, and no step makes it unknown again. */
  lemma StepMeaning(st: State, a: Action)
    requires Inv(st) && Enabled(st, a)
    ensures var t := Apply(st, a);
            && t.relay == st.relay
            && (PathKept(st, t) || (a.Step? && !t.udp.Unknown? && PathChange(st, t, st.calls[a.id])))
  {
    if a.Step? {
      StepChange(st, a.id);
    }
  }

  /** A UDP path, once chosen, is never unknown again, and the relay is the same for good. */
  lemma {:induction false} ChosenForGood(st: State, actions: seq<Action>, t: State)
    requires Inv(st) && Leads(st, actions, t)
    ensures t.relay == st.relay && (!st.udp.Unknown? ==> !t.udp.Unknown?)
    decreases |actions|
  {
    if actions != [] {
      ApplyKeeps(st, actions[0]);
      StepMeaning(st, actions[0]);
      ChosenForGood(Apply(st, actions[0]), actions[1..], t);
    }
  }

  /** Whenever the lock is free a direct path has a punch result and a relayed one a relay that
      takes datagrams; and after Close no punch result in use is left open. */
  lemma PathIsUsable(relay: RelayKind, actions: seq<Action>, t: State)
    requires Leads(Initial(relay), actions, t)
    ensures t.lock == None && IsDirect(t.udp) ==> t.punch.Some?
    ensures t.udp.Relay? ==> relay.WithDatagrams?
    ensures t.shutDone && t.punch.Some? ==> t.punch.value in t.closedPunches
  {
    RunKeeps(Initial(relay), actions, t);
    ChosenForGood(Initial(relay), actions, t);
  }

  // ---------------------------------------------------------------- waking receivers

  /** With a relay, a receiver that is blocked although a UDP path is chosen has a closed channel
      to wake it, or the call that chose the path is still to notify and can do so at once. */
  lemma NoLostWakeup(relay: RelayKind, actions: seq<Action>, t: State, id: nat)
    requires Leads(Initial(relay), actions, t)
    requires !relay.NoRelay? && id in t.calls && IsBlocked(t.calls[id]) && !t.udp.Unknown?
    ensures Enabled(t, Step(id)) || (HolderIsAt(t, Stored) && Enabled(t, Step(t.lock.value)))
  {
    RunKeeps(Initial(relay), actions, t);
    ChosenForGood(Initial(relay), actions, t);
    WokenOrAboutTo(t, id);
  }

  lemma WokenOrAboutTo(t: State, id: nat)
    requires Inv(t) && !t.relay.NoRelay? && id in t.calls && IsBlocked(t.calls[id]) && !t.udp.Unknown?
    ensures Enabled(t, Step(id)) || (HolderIsAt(t, Stored) && Enabled(t, Step(t.lock.value)))
  {
  }

  // ---------------------------------------------------------------- senders

  predicate GivenUp(udp: PathType)
  {
    !udp.Unknown? && !IsDirect(udp)
  }

  /** How many rounds a send can have had, by the number of upgrades since it was called. */
  predicate RoundsBounded(c: Call, udp: PathType, upgrades: nat)
  {
    match c
    case Send(stage, sender, path) =>
      && sender.since <= upgrades
      && var k := upgrades - sender.since;
         if stage.Begin? then sender.rounds <= k || (sender.rounds <= k + 1 && GivenUp(udp))
         else
           && (stage.Trying? ==> IsDirect(path)) && (IsDirect(path) ==> !udp.Unknown?)
           && (sender.rounds <= k + 1 || (sender.rounds <= k + 2 && !IsDirect(path)))
    case Fallback(stage, ForSend(sender)) =>
      && sender.since <= upgrades && !udp.Unknown?
      && var k := upgrades - sender.since;
         sender.rounds <= k + 1 && (stage.Stored? || stage.Leaving? ==> sender.rounds <= k || GivenUp(udp))
    case _ => true
  }

  predicate CallsBounded(st: State)
  {
    forall id :: id in st.calls ==> RoundsBounded(st.calls[id], st.udp, st.upgrades)
  }

  /** A packet ID is drawn for the n-th round only if n - 2 upgrades came since the call. */
  predicate DrawBounded(d: Draw)
  {
    d.sender.since <= d.upgrades && d.sender.rounds <= 2 + (d.upgrades - d.sender.since)
  }

  predicate DrawsNumbered(st: State)
  {
    && st.nextPacketID == Wrap32(|st.draws|)
    && (forall i :: 0 <= i < |st.draws| ==> st.draws[i].packetID == Wrap32(i + 1) && DrawBounded(st.draws[i]))
  }

  /** A path change of another call does not let a send go round more often than allowed. */
  lemma ChangeKeepsBound(st: State, t: State, mover: Call, c: Call)
    requires RoundsBounded(c, st.udp, st.upgrades)
    requires PathKept(st, t) || (!t.udp.Unknown? && PathChange(st, t, mover))
    ensures RoundsBounded(c, t.udp, t.upgrades)
  {
  }

  lemma SendKeepsItsBound(st: State, id: nat)
    requires id in st.calls && st.calls[id].Send? && Legal(st.calls[id])
    requires RoundsBounded(st.calls[id], st.udp, st.upgrades)
    ensures var t := StepSend(st, id); id in t.calls ==> RoundsBounded(t.calls[id], t.udp, t.upgrades)
  {
  }

  lemma ReturningKeepsItsBound(st: State, id: nat)
    requires id in st.calls && st.calls[id].Fallback? && st.calls[id].stage.Leaving?
    requires RoundsBounded(st.calls[id], st.udp, st.upgrades)
    ensures var t := Returned(st, id); id in t.calls ==> RoundsBounded(t.calls[id], t.udp, t.upgrades)
  {
  }

  lemma ChangingKeepsItsBound(st: State, id: nat)
    requires id in st.calls && st.calls[id].Fallback? && (st.calls[id].stage.Punched? || st.calls[id].stage.Stored?)
    requires RoundsBounded(st.calls[id], st.udp, st.upgrades)
    ensures var t := StepFallback(st, id); id in t.calls ==> RoundsBounded(t.calls[id], t.udp, t.upgrades)
  {
  }

  lemma FallbackKeepsItsBound(st: State, id: nat)
    requires id in st.calls && st.calls[id].Fallback? && Legal(st.calls[id])
    requires RoundsBounded(st.calls[id], st.udp, st.upgrades)
    ensures var t := StepFallback(st, id); id in t.calls ==> RoundsBounded(t.calls[id], t.udp, t.upgrades)
  {
    if st.calls[id].stage.Leaving? {
      ReturningKeepsItsBound(st, id);
    } else if !st.calls[id].stage.Waiting? && !st.calls[id].stage.Holding? {
      ChangingKeepsItsBound(st, id);
    }
  }

  /** The call neither is, nor becomes, part of a send, and draws no number. */
  predicate NoSendHere(st: State, t: State, id: nat)
  {
    && (id in t.calls ==> !t.calls[id].Send? && (t.calls[id].Fallback? ==> !t.calls[id].caller.ForSend?))
    && t.draws == st.draws && t.nextPacketID == st.nextPacketID
  }

  lemma DirectUDPIsNoSend(st: State, id: nat)
    requires id in st.calls && st.calls[id].SetDirectUDP?
    ensures NoSendHere(st, StepDirectUDP(st, id), id)
  {
  }

  lemma WarmUpIsNoSend(st: State, id: nat)
    requires id in st.calls && st.calls[id].WarmUp?
    ensures NoSendHere(st, StepWarmUp(st, id), id)
  {
  }

  lemma ReceiveIsNoSend(st: State, id: nat)
    requires id in st.calls && st.calls[id].Receive?
    ensures NoSendHere(st, StepReceive(st, id), id)
  {
  }

  lemma OthersAreNoSends(st: State, id: nat)
    requires id in st.calls && !st.calls[id].Send? && !st.calls[id].Fallback?
    ensures NoSendHere(st, StepOf(st, id), id)
  {
    match st.calls[id] {
      case SetDirectUDP(_, _, _) => DirectUDPIsNoSend(st, id);
      case WarmUp(_) => WarmUpIsNoSend(st, id);
      case SetDirectTCP(_, _) => assert NoSendHere(st, StepDirectTCP(st, id), id);
      case Close(_) => assert NoSendHere(st, StepClose(st, id), id);
      case Receive(_, _) => ReceiveIsNoSend(st, id);
    }
  }

  lemma MoverKeepsItsBound(st: State, id: nat)
    requires id in st.calls && Legal(st.calls[id]) && RoundsBounded(st.calls[id], st.udp, st.upgrades)
    ensures var t := StepOf(st, id); id in t.calls ==> RoundsBounded(t.calls[id], t.udp, t.upgrades)
  {
    match st.calls[id] {
      case Send(_, _, _) => SendKeepsItsBound(st, id);
      case Fallback(_, _) => FallbackKeepsItsBound(st, id);
      case _ => OthersAreNoSends(st, id);
    }
  }

  lemma OnlyOneMoves(st: State, id: nat)
    requires Moving(st, id)
    ensures StepOf(st, id).calls - {id} == st.calls - {id}
  {
    if IsAwaiting(st.calls[id]) {
      ReceiveStaysOutside(st, id);
    } else {
      EveryOtherStep(st, id);
    }
  }

  lemma StepKeepsCallsBounded(st: State, id: nat)
    requires Inv(st) && CallsBounded(st) && Enabled(st, Step(id))
    ensures CallsBounded(StepOf(st, id))
  {
    var t := StepOf(st, id);
    StepMeaning(st, Step(id));
    OthersBounded(st, t, id);
    MoverKeepsItsBound(st, id);
  }

  lemma OthersBounded(st: State, t: State, id: nat)
    requires Moving(st, id) && CallsBounded(st) && t == StepOf(st, id)
    requires PathKept(st, t) || (!t.udp.Unknown? && PathChange(st, t, st.calls[id]))
    ensures forall i :: i in t.calls && i != id ==> RoundsBounded(t.calls[i], t.udp, t.upgrades)
  {
    OnlyOneMoves(st, id);
    forall i | i in t.calls && i != id
      ensures RoundsBounded(t.calls[i], t.udp, t.upgrades)
    {
      assert i in t.calls - {id};
      assert st.calls[i] == (st.calls - {id})[i] == (t.calls - {id})[i] == t.calls[i];
      ChangeKeepsBound(st, t, st.calls[id], st.calls[i]);
    }
  }

  lemma FallbackDrawsNothing(st: State, id: nat)
    requires id in st.calls && st.calls[id].Fallback?
    ensures StepFallback(st, id).draws == st.draws && StepFallback(st, id).nextPacketID == st.nextPacketID
  {
  }

  lemma SendDraws(st: State, id: nat)
    requires id in st.calls && st.calls[id].Send? && DrawsNumbered(st)
    requires RoundsBounded(st.calls[id], st.udp, st.upgrades)
    ensures DrawsNumbered(StepSend(st, id))
  {
    NextNumber(|st.draws|);
  }

  lemma StepDraws(st: State, id: nat)
    requires id in st.calls && DrawsNumbered(st) && RoundsBounded(st.calls[id], st.udp, st.upgrades)
    ensures DrawsNumbered(StepOf(st, id))
  {
    match st.calls[id] {
      case Send(_, _, _) => SendDraws(st, id);
      case Fallback(_, _) => FallbackDrawsNothing(st, id);
      case _ => OthersAreNoSends(st, id);
    }
  }

  lemma NextNumber(n: nat)
    ensures Wrap32(Wrap32(n) + 1) == Wrap32(n + 1)
  {
    var q, r := n / 0x1_0000_0000, n % 0x1_0000_0000;
    assert n == 0x1_0000_0000 * q + r;
    if r + 1 == 0x1_0000_0000 {
      assert n + 1 == 0x1_0000_0000 * (q + 1);
    } else {
      assert n + 1 == 0x1_0000_0000 * q + (r + 1);
    }
  }

  predicate SendsInv(st: State)
  {
    CallsBounded(st) && DrawsNumbered(st)
  }

  lemma ApplyKeepsSends(st: State, a: Action)
    requires Inv(st) && SendsInv(st) && Enabled(st, a)
    ensures SendsInv(Apply(st, a))
  {
    if a.Step? {
      StepKeepsCallsBounded(st, a.id);
      StepDraws(st, a.id);
    }
  }

  lemma {:induction false} RunKeepsSends(st: State, actions: seq<Action>, t: State)
    requires Inv(st) && SendsInv(st) && Leads(st, actions, t)
    ensures SendsInv(t)
    decreases |actions|
  {
    if actions != [] {
      ApplyKeeps(st, actions[0]);
      ApplyKeepsSends(st, actions[0]);
      RunKeepsSends(Apply(st, actions[0]), actions[1..], t);
    }
  }

  /** In every run, whatever else goes on: a send that looks at the path and draws a packet ID for
      the n-th time was called at least n - 2 upgrades ago. Without an upgrade in the meantime it
      retries at most once. */
  lemma RetriesBounded(relay: RelayKind, actions: seq<Action>, t: State, k: nat)
    requires Leads(Initial(relay), actions, t) && k < |t.draws|
    ensures var d := t.draws[k];
            && d.sender.since <= d.upgrades && d.sender.rounds <= 2 + (d.upgrades - d.sender.since)
            && (d.upgrades == d.sender.since ==> d.sender.rounds <= 2)
  {
    RunKeepsSends(Initial(relay), actions, t);
  }

  /** Two IDs drawn in a run, by the same send or by any two, are equal exactly if a multiple of
      2^32 draws lies between them. */
  lemma PacketIDsFresh(relay: RelayKind, actions: seq<Action>, t: State, i: nat, j: nat)
    requires Leads(Initial(relay), actions, t) && i <= j < |t.draws|
    ensures t.draws[i].packetID == t.draws[j].packetID <==> (j - i) % TWO_32 == 0
  {
    RunKeepsSends(Initial(relay), actions, t);
    SameWord(i + 1, j + 1);
  }

  lemma SameWord(x: nat, y: nat)
    requires x <= y
    ensures Wrap32(x) == Wrap32(y) <==> (y - x) % TWO_32 == 0
  {
    var a, b := x / 0x1_0000_0000, y / 0x1_0000_0000;
    assert y - x == 0x1_0000_0000 * (b - a) + (y % 0x1_0000_0000 - x % 0x1_0000_0000);
  }

  /** A send that has fallen back and looks again after no upgrade takes another path: the one
      that was given up stays given up. */
  lemma {:induction false} GivenUpForGood(st: State, actions: seq<Action>, t: State)
    requires Inv(st) && Leads(st, actions, t) && GivenUp(st.udp)
    ensures st.upgrades <= t.upgrades && (t.upgrades == st.upgrades ==> t.udp == st.udp)
    decreases |actions|
  {
    if actions != [] {
      var next := Apply(st, actions[0]);
      ApplyKeeps(st, actions[0]);
      StepMeaning(st, actions[0]);
      UpgradesGrow(next, actions[1..], t);
      if next.upgrades == st.upgrades {
        GivenUpForGood(next, actions[1..], t);
      }
    }
  }

  lemma {:induction false} UpgradesGrow(st: State, actions: seq<Action>, t: State)
    requires Inv(st) && Leads(st, actions, t)
    ensures st.upgrades <= t.upgrades
    decreases |actions|
  {
    if actions != [] {
      ApplyKeeps(st, actions[0]);
      StepMeaning(st, actions[0]);
      UpgradesGrow(Apply(st, actions[0]), actions[1..], t);
    }
  }

  // ---------------------------------------------------------------- the TCP path

  predicate TCPDirect(st: State)
  {
    st.tcp.DirectLAN? || st.tcp.DirectTCP?
  }

  /** A warm-up that found no TCP path and has yet to store one. */
  predicate AboutToRelayTCP(c: Call)
  {
    c.WarmUp? && c.stage.TCPSeen?
  }

  predicate TCPSafe(st: State)
  {
    TCPDirect(st) && forall id :: id in st.calls ==> !AboutToRelayTCP(st.calls[id])
  }

  lemma MoveKeepsTCPSafe(st: State, t: State, id: nat)
    requires TCPSafe(st) && TCPDirect(t) && t.calls - {id} == st.calls - {id}
    requires id in t.calls ==> !AboutToRelayTCP(t.calls[id])
    ensures TCPSafe(t)
  {
    forall i | i in t.calls && i != id
      ensures !AboutToRelayTCP(t.calls[i])
    {
      assert i in t.calls - {id};
      assert t.calls[i] == (t.calls - {id})[i] == (st.calls - {id})[i] == st.calls[i];
    }
  }

  /** The call leaves a direct TCP path direct, and is not about to relay it. */
  predicate SparesTCP(st: State, t: State, id: nat)
  {
    (TCPDirect(st) ==> TCPDirect(t)) && (id in t.calls ==> !AboutToRelayTCP(t.calls[id]))
  }

  lemma WarmUpSparesTCP(st: State, id: nat)
    requires id in st.calls && st.calls[id].WarmUp? && !st.calls[id].stage.TCPSeen? && TCPDirect(st)
    ensures SparesTCP(st, StepWarmUp(st, id), id)
  {
  }

  lemma DirectUDPSparesTCP(st: State, id: nat)
    requires id in st.calls && st.calls[id].SetDirectUDP?
    ensures SparesTCP(st, StepDirectUDP(st, id), id)
  {
  }

  lemma FallbackSparesTCP(st: State, id: nat)
    requires id in st.calls && st.calls[id].Fallback?
    ensures SparesTCP(st, StepFallback(st, id), id)
  {
  }

  lemma SendSparesTCP(st: State, id: nat)
    requires id in st.calls && st.calls[id].Send?
    ensures SparesTCP(st, StepSend(st, id), id)
  {
  }

  lemma OthersSpareTCP(st: State, id: nat)
    requires id in st.calls && (st.calls[id].SetDirectTCP? || st.calls[id].Close? || st.calls[id].Receive?)
    ensures SparesTCP(st, StepOf(st, id), id)
  {
  }

  lemma StepSparesTCP(st: State, id: nat)
    requires id in st.calls && TCPDirect(st) && !AboutToRelayTCP(st.calls[id])
    ensures SparesTCP(st, StepOf(st, id), id)
  {
    match st.calls[id] {
      case WarmUp(_) => WarmUpSparesTCP(st, id);
      case SetDirectUDP(_, _, _) => DirectUDPSparesTCP(st, id);
      case Fallback(_, _) => FallbackSparesTCP(st, id);
      case Send(_, _, _) => SendSparesTCP(st, id);
      case _ => OthersSpareTCP(st, id);
    }
  }

  lemma ApplyKeepsTCPSafe(st: State, a: Action)
    requires Inv(st) && TCPSafe(st) && Enabled(st, a)
    ensures TCPSafe(Apply(st, a))
  {
    if a.Step? {
      StepSparesTCP(st, a.id);
      OnlyOneMoves(st, a.id);
      MoveKeepsTCPSafe(st, StepOf(st, a.id), a.id);
    }
  }

  lemma {:induction false} TCPStaysDirect(st: State, actions: seq<Action>, t: State)
    requires Inv(st) && TCPSafe(st) && Leads(st, actions, t)
    ensures TCPDirect(t)
    decreases |actions|
  {
    if actions != [] {
      ApplyKeeps(st, actions[0]);
      ApplyKeepsTCPSafe(st, actions[0]);
      TCPStaysDirect(Apply(st, actions[0]), actions[1..], t);
    }
  }

  ghost predicate StaysDirectAlways(st: State)
  {
    forall actions, t :: Leads(st, actions, t) ==> TCPDirect(t)
  }

  lemma AboutToRelayDoes(st: State, id: nat) returns (actions: seq<Action>, t: State)
    requires id in st.calls && AboutToRelayTCP(st.calls[id])
    ensures Leads(st, actions, t) && !TCPDirect(t)
  {
    actions, t := [Step(id)], Apply(st, Step(id));
    assert Leads(t, actions[1..], t);
  }

  /** A TCP upgrade does not take the lock. It is safe from being replaced by the relay, whatever
      happens next, exactly if no warm-up stands between having found no TCP path and storing one. */
  lemma TCPUpgradeSafeExactly(st: State)
    requires Inv(st) && TCPDirect(st)
    ensures StaysDirectAlways(st) <==> forall id :: id in st.calls ==> !AboutToRelayTCP(st.calls[id])
  {
    if id :| id in st.calls && AboutToRelayTCP(st.calls[id]) {
      var actions, t := AboutToRelayDoes(st, id);
    } else {
      forall actions, t | Leads(st, actions, t)
        ensures TCPDirect(t)
      {
        TCPStaysDirect(st, actions, t);
      }
    }
  }

  // ---------------------------------------------------------------- runs that go wrong

  /** A run and one more step. */
  lemma {:induction false} Longer(st: State, run: seq<Action>, t: State, a: Action)
    returns (longer: seq<Action>, next: State)
    requires Leads(st, run, t) && Enabled(t, a)
    ensures Leads(st, longer, next) && longer == run + [a] && next == Apply(t, a)
    decreases |run|
  {
    longer, next := run + [a], Apply(t, a);
    if run == [] {
      assert longer[1..] == [];
    } else {
      var rest, _ := Longer(Apply(st, run[0]), run[1..], t, a);
      assert longer[1..] == rest;
    }
  }

  lemma UpgradeBegins(st: State, before: seq<Action>, mid: State) returns (run: seq<Action>, t: State)
    requires Leads(st, before, mid) && 1 !in mid.calls && mid.lock == None && !mid.shut
    ensures Leads(st, run, t)
    ensures t == mid.(lock := Some(1), punch := Some(7), calls := mid.calls[1 := SetDirectUDP(Punched, 7, false)])
  {
    run, t := Longer(st, before, mid, Enter(1, SetDirectUDP(Begin, 7, false)));
    run, t := Longer(st, run, t, Step(1));
    run, t := Longer(st, run, t, Step(1));
    run, t := Longer(st, run, t, Step(1));
    assert t.calls == mid.calls[1 := SetDirectUDP(Punched, 7, false)];
  }

  lemma UpgradeStores(st: State, before: seq<Action>, mid: State) returns (run: seq<Action>, t: State)
    requires Leads(st, before, mid) && 1 !in mid.calls && mid.lock == None && !mid.shut
    ensures Leads(st, run, t)
    ensures t == mid.(lock := Some(1), punch := Some(7), udp := DirectUDP, upgrades := mid.upgrades + 1,
                      calls := mid.calls[1 := SetDirectUDP(Stored, 7, false)])
  {
    run, t := UpgradeBegins(st, before, mid);
    run, t := Longer(st, run, t, Step(1));
    assert t.calls == mid.calls[1 := SetDirectUDP(Stored, 7, false)];
  }

  /** An upgrade that nobody disturbs. */
  lemma UpgradeAlone(st: State, before: seq<Action>, mid: State) returns (run: seq<Action>, t: State)
    requires Leads(st, before, mid) && 1 !in mid.calls && mid.lock == None && !mid.shut && mid.channel == None
    ensures Leads(st, run, t) && t == mid.(udp := DirectUDP, punch := Some(7), upgrades := mid.upgrades + 1)
  {
    run, t := UpgradeStores(st, before, mid);
    run, t := Longer(st, run, t, Step(1));
    run, t := Longer(st, run, t, Step(1));
    assert t.calls == mid.calls;
  }

  /** Without a relay a wakeup can be lost: the path is chosen between the receiver's first look
      and its registration, it does not trust what it sees then, and blocks; nobody will wake it. */
  lemma WakeupLostWithoutRelay() returns (run: seq<Action>, t: State, id: nat)
    ensures Leads(Initial(NoRelay), run, t)
    ensures id in t.calls && IsBlocked(t.calls[id]) && IsDirect(t.udp)
    ensures t.calls.Keys == {id} && !Enabled(t, Step(id))
  {
    var st := Initial(NoRelay);
    id := 0;
    run, t := Longer(st, [], st, Enter(id, Receive(Begin, 0)));
    run, t := Longer(st, run, t, Step(id));
    run, t := UpgradeAlone(st, run, t);
    run, t := Longer(st, run, t, Step(id));
    run, t := Longer(st, run, t, Step(id));
  }

  /** The state that is not safe is reached: a warm-up finds no TCP path, an upgrade comes in
      between, and the warm-up puts the relay over it. */
  lemma WarmUpReplacesTCPUpgrade() returns (run: seq<Action>, t: State)
    ensures Leads(Initial(WithDatagrams), run, t)
    ensures t.tcp.DirectTCP? && 0 in t.calls && t.calls[0].WarmUp? && Enabled(t, Step(0))
    ensures Apply(t, Step(0)).tcp.Relay?
  {
    var st := Initial(WithDatagrams);
    run, t := Longer(st, [], st, Enter(0, WarmUp(Waiting)));
    run, t := Longer(st, run, t, Step(0));
    run, t := Longer(st, run, t, Step(0));
    run, t := Longer(st, run, t, Enter(1, SetDirectTCP(Begin, false)));
    run, t := Longer(st, run, t, Step(1));
    run, t := Longer(st, run, t, Step(1));
  }
}
