/** Which requests are taken into the coordinator's table, told from the history of requests,
    disconnections and closings alone. */
module SignalingRuns {
  import opened Words
  import opened Signaling

  /** Whether the event ends that session: its controller, or someone who names none, closes it, or
      the connection of the target that carries it goes. */
  predicate EndedBy(e: Event, id: uint32, a: Active)
  {
    match e
    case Insert(_, _) => false
    case Unregister(device, writer) => device == a.targetID && writer == a.targetWriter
    case Close(closed, controllerID) => closed == id && controllerID in {"", a.controllerID}
  }

  /** Whether the request at that position was taken. */
  predicate Taken(events: seq<Event>, i: nat)
    requires i < |events|
  {
    events[i].Insert? && InsertStep(Run(map[], events[..i]), events[i].id, events[i].session).1
  }

  /** Whether the session of that request is there before the n-th event. */
  predicate StillOpen(events: seq<Event>, i: nat, n: nat)
    requires i < n <= |events|
  {
    Taken(events, i) && forall j :: i < j < n ==> !EndedBy(events[j], events[i].id, events[i].session)
  }

  function Open(events: seq<Event>, n: nat): set<nat>
    requires n <= |events|
  {
    set i: nat | i < n && StillOpen(events, i, n)
  }

  function OpenWith(events: seq<Event>, n: nat, device: string): set<nat>
    requires n <= |events|
  {
    set i: nat | i in Open(events, n) && Involves(events[i].session, device)
  }

  /** No number is used twice; it takes 2^31 requests for that to happen (`NumbersRepeatExactly`). */
  predicate OwnNumbers(events: seq<Event>)
  {
    forall i, j :: 0 <= i < j < |events| && events[i].Insert? && events[j].Insert? ==> events[i].id != events[j].id
  }

  // ---------------------------------------------------------------- the table is the open sessions

  lemma {:induction false} RunOneMore(t: Table, events: seq<Event>, n: nat)
    requires n < |events|
    ensures Run(t, events[..n + 1]) == Next(Run(t, events[..n]), events[n])
    decreases n
  {
    if n == 0 {
      assert events[..1][1..] == [];
      assert Run(Next(t, events[0]), []) == Next(t, events[0]);
    } else {
      RunOneMore(Next(t, events[0]), events[1..], n - 1);
      assert events[..n + 1][1..] == events[1..][..n];
      assert events[..n][1..] == events[1..][..n - 1];
    }
  }

  predicate InTable(events: seq<Event>, i: nat, t: Table)
    requires i < |events|
  {
    events[i].Insert? && events[i].id in t && t[events[i].id] == events[i].session
  }

  predicate HasRequest(events: seq<Event>, n: nat, id: uint32)
    requires n <= |events|
  {
    exists i :: i in Open(events, n) && events[i].id == id
  }

  lemma OpenOneMore(events: seq<Event>, n: nat, i: nat)
    requires n < |events| && i < n
    ensures StillOpen(events, i, n + 1) <==>
            StillOpen(events, i, n) && !EndedBy(events[n], events[i].id, events[i].session)
  {
  }

  lemma OpenStaysInTable(events: seq<Event>, n: nat, i: nat, t: Table)
    requires OwnNumbers(events) && n < |events| && i < n
    requires StillOpen(events, i, n + 1) && InTable(events, i, t)
    ensures InTable(events, i, Next(t, events[n]))
  {
  }

  lemma TableHasOpen(events: seq<Event>, n: nat, id: uint32, t: Table)
    requires OwnNumbers(events) && n < |events|
    requires t == Run(map[], events[..n]) && id in Next(t, events[n])
    requires id in t ==> HasRequest(events, n, id)
    requires forall i :: i in Open(events, n) ==> InTable(events, i, t)
    ensures HasRequest(events, n + 1, id)
  {
    if id in t {
      var i :| i in Open(events, n) && events[i].id == id;
      assert InTable(events, i, t);
      OpenOneMore(events, n, i);
      assert i in Open(events, n + 1);
    } else {
      assert StillOpen(events, n, n + 1);
      assert n in Open(events, n + 1);
    }
  }

  lemma {:induction false} TableIsOpenSessions(events: seq<Event>, n: nat)
    requires OwnNumbers(events) && n <= |events|
    ensures forall i :: i in Open(events, n) ==> InTable(events, i, Run(map[], events[..n]))
    ensures forall id :: id in Run(map[], events[..n]) ==> HasRequest(events, n, id)
    decreases n
  {
    if n > 0 {
      var t := Run(map[], events[..n - 1]);
      TableIsOpenSessions(events, n - 1);
      RunOneMore(map[], events, n - 1);
      forall i | i in Open(events, n)
        ensures InTable(events, i, Next(t, events[n - 1]))
      {
        if i < n - 1 {
          OpenOneMore(events, n - 1, i);
          assert i in Open(events, n - 1);
          OpenStaysInTable(events, n - 1, i, t);
        }
      }
      forall id | id in Next(t, events[n - 1])
        ensures HasRequest(events, n, id)
      {
        TableHasOpen(events, n - 1, id, t);
      }
    }
  }

  lemma {:induction false} AsManyNumbers(events: seq<Event>, requests: set<nat>, ids: set<uint32>)
    requires OwnNumbers(events)
    requires forall i :: i in requests ==> i < |events| && events[i].Insert? && events[i].id in ids
    requires forall id :: id in ids ==> exists i :: i in requests && events[i].id == id
    ensures |ids| == |requests|
    decreases requests
  {
    if requests != {} {
      var i :| i in requests;
      forall id | id in ids - {events[i].id}
        ensures exists j :: j in requests - {i} && events[j].id == id
      {
        var j :| j in requests && events[j].id == id;
        assert j in requests - {i};
      }
      AsManyNumbers(events, requests - {i}, ids - {events[i].id});
    }
  }

  lemma AsManySessions(events: seq<Event>, n: nat, device: string)
    requires OwnNumbers(events) && n <= |events|
    ensures |Run(map[], events[..n])| == |Open(events, n)|
    ensures |Involved(Run(map[], events[..n]), device)| == |OpenWith(events, n, device)|
  {
    var t := Run(map[], events[..n]);
    TableIsOpenSessions(events, n);
    forall i | i in Open(events, n)
      ensures events[i].id in t.Keys
    {
      assert InTable(events, i, t);
    }
    forall id | id in t.Keys
      ensures exists i :: i in Open(events, n) && events[i].id == id
    {
      assert HasRequest(events, n, id);
    }
    AsManyNumbers(events, Open(events, n), t.Keys);
    assert |t| == |t.Keys|;
    InvolvedAreOpen(events, n, device, t);
    AsManyNumbers(events, OpenWith(events, n, device), Involved(t, device));
  }

  lemma InvolvedAreOpen(events: seq<Event>, n: nat, device: string, t: Table)
    requires n <= |events|
    requires forall i :: i in Open(events, n) ==> InTable(events, i, t)
    requires forall id :: id in t ==> HasRequest(events, n, id)
    ensures forall i :: i in OpenWith(events, n, device) ==> events[i].id in Involved(t, device)
    ensures forall id :: id in Involved(t, device) ==>
              exists i :: i in OpenWith(events, n, device) && events[i].id == id
  {
    forall i | i in OpenWith(events, n, device)
      ensures events[i].id in Involved(t, device)
    {
      assert InTable(events, i, t);
    }
    forall id | id in Involved(t, device)
      ensures exists i :: i in OpenWith(events, n, device) && events[i].id == id
    {
      assert HasRequest(events, n, id);
      var i :| i in Open(events, n) && events[i].id == id;
      assert InTable(events, i, t);
      assert i in OpenWith(events, n, device);
    }
  }

  /** In every interleaving of requests, disconnections and closings, a request is taken exactly if
      fewer than 2048 sessions taken before are still open, and fewer than 64 of them have its
      controller, and fewer than 64 its target, on either side. */
  lemma TakenExactly(events: seq<Event>, n: nat)
    requires OwnNumbers(events) && n < |events| && events[n].Insert?
    ensures var a := events[n].session;
            Taken(events, n) <==>
            && |Open(events, n)| < 2048
            && |OpenWith(events, n, a.controllerID)| < 64
            && |OpenWith(events, n, a.targetID)| < 64
  {
    AsManySessions(events, n, events[n].session.controllerID);
    AsManySessions(events, n, events[n].session.targetID);
  }

  // ---------------------------------------------------------------- the caps are reached

  /** Requests from one controller, or from as many, each to a target of its own. */
  function Request(n: nat, oneController: bool): Event
    requires n < 2048
  {
    var controller := if oneController then "controller" else [n as char];
    Insert(n + TWO_31, Active(controller, [(n + 2048) as char], 0, 0))
  }

  function Requests(n: nat, oneController: bool): seq<Event>
    requires n <= 2048
  {
    seq(n, i requires 0 <= i < n => Request(i, oneController))
  }

  function Positions(n: nat): (positions: set<nat>)
    ensures |positions| == n && forall k :: k in positions <==> 0 <= k < n
  {
    if n == 0 then {} else Positions(n - 1) + {n - 1}
  }

  lemma NextTaken(n: nat, i: nat, oneController: bool)
    requires i < n <= if oneController then 64 else 2048
    requires OwnNumbers(Requests(n, oneController))
    requires Open(Requests(n, oneController), i) == Positions(i)
    ensures Taken(Requests(n, oneController), i)
  {
    var events := Requests(n, oneController);
    var a := events[i].session;
    assert a == Request(i, oneController).session;
    SubsetSize(OpenWith(events, i, a.controllerID), Positions(i));
    forall k | k in Open(events, i)
      ensures !Involves(events[k].session, a.targetID)
      ensures !oneController ==> !Involves(events[k].session, a.controllerID)
    {
      RequestsApart(k, i, oneController);
    }
    assert OpenWith(events, i, a.targetID) == {};
    assert !oneController ==> OpenWith(events, i, a.controllerID) == {};
    TakenExactly(events, i);
  }

  lemma RequestsApart(k: nat, i: nat, oneController: bool)
    requires k < i < 2048
    ensures var earlier, later := Request(k, oneController).session, Request(i, oneController).session;
            && !Involves(earlier, later.targetID)
            && (!oneController ==> !Involves(earlier, later.controllerID))
  {
    assert [k as char][0] != [i as char][0];
    assert [(k + 2048) as char][0] != [(i + 2048) as char][0];
    assert [k as char][0] != [(i + 2048) as char][0] && [(k + 2048) as char][0] != [i as char][0];
    assert |"controller"| == 10;
  }

  lemma OpenAtEnd(events: seq<Event>, n: nat)
    requires n < |events| && Taken(events, n) && Open(events, n) == Positions(n)
    requires forall k :: 0 <= k < |events| ==> events[k].Insert?
    ensures Open(events, n + 1) == Positions(n + 1)
  {
    var m := n + 1;
    forall k | k in Positions(m)
      ensures k in Open(events, m)
    {
      if k < n {
        assert k in Open(events, n);
        OpenOneMore(events, n, k);
      } else {
        assert StillOpen(events, k, m);
      }
    }
  }

  lemma TheirOwnNumbers(n: nat, oneController: bool)
    requires n <= 2048
    ensures OwnNumbers(Requests(n, oneController))
    ensures forall k :: 0 <= k < n ==> Requests(n, oneController)[k].Insert?
  {
    forall i, j | 0 <= i < j < n
      ensures Requests(n, oneController)[i].id != Requests(n, oneController)[j].id
    {
      assert Request(i, oneController).id != Request(j, oneController).id;
    }
  }

  lemma {:induction false} AllTaken(n: nat, i: nat, oneController: bool)
    requires i <= n <= if oneController then 64 else 2048
    ensures Open(Requests(n, oneController), i) == Positions(i)
    decreases i
  {
    if i > 0 {
      TheirOwnNumbers(n, oneController);
      AllTaken(n, i - 1, oneController);
      NextTaken(n, i - 1, oneController);
      OpenAtEnd(Requests(n, oneController), i - 1);
    }
  }

  predicate AllWith(events: seq<Event>, device: string)
  {
    forall k :: 0 <= k < |events| ==> events[k].Insert? && Involves(events[k].session, device)
  }

  lemma TableSize(events: seq<Event>)
    requires OwnNumbers(events) && Open(events, |events|) == Positions(|events|)
    ensures |Run(map[], events)| == |events|
  {
    AsManySessions(events, |events|, "");
    assert events[..|events|] == events;
  }

  lemma DeviceSize(events: seq<Event>, device: string)
    requires OwnNumbers(events) && Open(events, |events|) == Positions(|events|) && AllWith(events, device)
    ensures |Involved(Run(map[], events), device)| == |events|
  {
    AsManySessions(events, |events|, device);
    assert events[..|events|] == events;
    assert OpenWith(events, |events|, device) == Open(events, |events|);
  }

  lemma RequestsWithController(n: nat)
    requires n <= 2048
    ensures AllWith(Requests(n, true), "controller")
  {
    assert forall k :: 0 <= k < n ==> Requests(n, true)[k] == Request(k, true);
  }

  /** Both caps can be used up: of up to 64 requests of one controller for different targets, and of
      up to 2048 requests of different devices, not one is refused. */
  lemma CapsReached(n: nat, oneController: bool)
    requires n <= if oneController then 64 else 2048
    ensures |Run(map[], Requests(n, oneController))| == n
    ensures oneController ==> |Involved(Run(map[], Requests(n, oneController)), "controller")| == n
  {
    TheirOwnNumbers(n, oneController);
    AllTaken(n, n, oneController);
    TableSize(Requests(n, oneController));
    if oneController {
      RequestsWithController(n);
      DeviceSize(Requests(n, oneController), "controller");
    }
  }
}
