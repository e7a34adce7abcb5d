/** One-shot enrollment invitations: internal/storage/sqlite.go. Each SQL statement or transaction
    is one atomic update; the token hash is any function. */
module Enrollment {
  import opened Words

  type TokenHash = string -> string

  datatype Invitation = Invitation(tokenHash: string, expiresAt: int, consumedAt: Option<int>)

  datatype Agent = Agent(hostname: string, secretHash: string, publicPort: uint16, enabled: bool)

  datatype Tables = Tables(invitations: map<string, Invitation>, agents: map<string, Agent>)

  datatype StoreError = EnrollmentInvalid | InvitationNotFound

  // ---------------------------------------------------------------- the statements

  /** The invitation that a valid token opens now. */
  predicate Opens(db: Tables, hash: TokenHash, device: string, token: string, now: int)
  {
    device in db.invitations
    && var inv := db.invitations[device];
       inv.tokenHash == hash(token) && inv.consumedAt.None? && inv.expiresAt > now
  }

  function UpsertStep(db: Tables, hash: TokenHash, device: string, token: string, expiresAt: int): Tables
  {
    var consumed :=
      if device in db.invitations && db.invitations[device].tokenHash == hash(token)
      then db.invitations[device].consumedAt else None;
    db.(invitations := db.invitations[device := Invitation(hash(token), expiresAt, consumed)])
  }

  function ExpiryStep(db: Tables, device: string, expiresAt: int): Result<Tables, StoreError>
  {
    if device !in db.invitations then Err(InvitationNotFound)
    else Ok(db.(invitations := db.invitations[device := db.invitations[device].(expiresAt := expiresAt)]))
  }

  /** The row an enrollment writes: an existing one keeps a port it has, and is enabled. */
  function EnrolledRow(db: Tables, device: string, a: Agent): Agent
  {
    if device !in db.agents then a
    else a.(publicPort := if db.agents[device].publicPort > 0 then db.agents[device].publicPort else a.publicPort,
            enabled := true)
  }

  function EnrollStep(db: Tables, hash: TokenHash, device: string, a: Agent, token: string, now: int):
    Result<Tables, StoreError>
  {
    if Opens(db, hash, device, token, now) then
      Ok(Tables(db.invitations[device := db.invitations[device].(consumedAt := Some(now))],
                db.agents[device := EnrolledRow(db, device, a)]))
    else Err(EnrollmentInvalid)
  }

  class Database {
    const hash: TokenHash
    var invitations: map<string, Invitation>
    var agents: map<string, Agent>

    function State(): Tables
      reads this
    {
      Tables(invitations, agents)
    }

    constructor (hash: TokenHash)
      ensures State() == Tables(map[], map[]) && this.hash == hash
    {
      this.hash, invitations, agents := hash, map[], map[];
    }

    method UpsertEnrollmentInvitation(device: string, token: string, expiresAt: int)
      modifies this`invitations
      ensures State() == UpsertStep(old(State()), hash, device, token, expiresAt)
    {
      if device !in invitations {
        invitations := invitations[device := Invitation(hash(token), expiresAt, None)];
        return;
      }
      var row := invitations[device].(expiresAt := expiresAt);
      if row.tokenHash != hash(token) {
        row := row.(consumedAt := None);
      }
      invitations := invitations[device := row.(tokenHash := hash(token))];
    }

    method UpdateEnrollmentInvitationExpiry(device: string, expiresAt: int) returns (error: Option<StoreError>)
      modifies this`invitations
      ensures match ExpiryStep(old(State()), device, expiresAt)
              case Ok(db) => error == None && State() == db
              case Err(e) => error == Some(e) && State() == old(State())
    {
      if device !in invitations {
        return Some(InvitationNotFound);
      }
      invitations := invitations[device := invitations[device].(expiresAt := expiresAt)];
      return None;
    }

    method ValidateEnrollmentInvitation(device: string, token: string, now: int) returns (valid: bool)
      ensures valid <==>
              device != "" && token != "" && EnrollStep(State(), hash, device, Agent("", "", 0, true), token, now).Ok?
    {
      if device == "" || token == "" {
        return false;
      }
      return Opens(State(), hash, device, token, now);
    }

    /** Consumes the invitation and writes the device's row, or does neither. */
    method CreateAgentWithEnrollment(device: string, a: Agent, token: string, now: int)
      returns (error: Option<StoreError>)
      modifies this
      ensures match EnrollStep(old(State()), hash, device, a, token, now)
              case Ok(db) => error == None && State() == db
              case Err(e) => error == Some(e) && State() == old(State())
    {
      var rows := 0;
      if device in invitations {
        var inv := invitations[device];
        if inv.tokenHash == hash(token) && inv.consumedAt.None? && inv.expiresAt > now {
          invitations := invitations[device := inv.(consumedAt := Some(now))];
          rows := 1;
        }
      }
      if rows != 1 {
        return Some(EnrollmentInvalid);
      }
      if device in agents {
        var port := if agents[device].publicPort > 0 then agents[device].publicPort else a.publicPort;
        agents := agents[device := Agent(a.hostname, a.secretHash, port, true)];
      } else {
        agents := agents[device := a];
      }
      return None;
    }

    method DeleteEnrollmentInvitation(device: string)
      modifies this`invitations
      ensures invitations == old(invitations) - {device}
    {
      invitations := invitations - {device};
    }
  }

  // ---------------------------------------------------------------- what one enrollment does

  /** An enrollment succeeds exactly if in the same step the invitation goes from open to consumed
      and the device gets the new name and credential; otherwise nothing changes. A known device is
      enabled and keeps a port it has, a new one gets the row it asks for, no other is touched. */
  lemma EnrollmentIsAtomic(db: Tables, hash: TokenHash, device: string, a: Agent, token: string, now: int)
    ensures var result := EnrollStep(db, hash, device, a, token, now);
            var t := if result.Ok? then result.value else db;
            && (result.Ok? <==>
                  && device in db.invitations && db.invitations[device].consumedAt == None
                  && t.invitations[device].consumedAt.Some?)
            && (result.Ok? ==>
                  && device in t.agents
                  && t.agents[device].secretHash == a.secretHash && t.agents[device].hostname == a.hostname
                  && (device !in db.agents ==> t.agents[device] == a)
                  && (device in db.agents ==> t.agents[device].enabled)
                  && (device in db.agents && db.agents[device].publicPort == 0 ==>
                        t.agents[device].publicPort == a.publicPort)
                  && (device in db.agents && db.agents[device].publicPort > 0 ==>
                        t.agents[device].publicPort == db.agents[device].publicPort))
            && (forall d :: d != device ==>
                  && (d in t.agents <==> d in db.agents) && (d in db.agents ==> t.agents[d] == db.agents[d])
                  && (d in t.invitations <==> d in db.invitations)
                  && (d in db.invitations ==> t.invitations[d] == db.invitations[d]))
  {
  }

  // ---------------------------------------------------------------- runs

  datatype Event =
    | Upsert(device: string, token: string, expiresAt: int)
    | SetExpiry(device: string, expiresAt: int)
    | Enroll(device: string, agent: Agent, token: string, now: int)
    | DeleteInvitation(device: string)
    | ChangeAgents(agents: map<string, Agent>)

  function Next(db: Tables, hash: TokenHash, e: Event): Tables
  {
    match e
    case Upsert(d, token, expiresAt) => UpsertStep(db, hash, d, token, expiresAt)
    case SetExpiry(d, expiresAt) => var r := ExpiryStep(db, d, expiresAt); if r.Ok? then r.value else db
    case Enroll(d, a, token, now) => var r := EnrollStep(db, hash, d, a, token, now); if r.Ok? then r.value else db
    case DeleteInvitation(d) => db.(invitations := db.invitations - {d})
    case ChangeAgents(agents) => db.(agents := agents)
  }

  function Run(db: Tables, hash: TokenHash, events: seq<Event>): Tables
    decreases |events|
  {
    if events == [] then db else Run(Next(db, hash, events[0]), hash, events[1..])
  }

  /** The administrator withdrew the invitation or put another token in its place. */
  predicate Renews(hash: TokenHash, e: Event, device: string, token: string)
  {
    e == DeleteInvitation(device) || (e.Upsert? && e.device == device && hash(e.token) != hash(token))
  }

  predicate Spent(db: Tables, hash: TokenHash, device: string, token: string)
  {
    && device in db.invitations
    && db.invitations[device].tokenHash == hash(token) && db.invitations[device].consumedAt.Some?
  }

  lemma {:induction false} StaysSpent(db: Tables, hash: TokenHash, device: string, token: string, events: seq<Event>)
    requires Spent(db, hash, device, token)
    requires forall i :: 0 <= i < |events| ==> !Renews(hash, events[i], device, token)
    ensures Spent(Run(db, hash, events), hash, device, token)
    decreases |events|
  {
    if events != [] {
      assert !Renews(hash, events[0], device, token);
      StaysSpent(Next(db, hash, events[0]), hash, device, token, events[1..]);
    }
  }

  /** Between two successful enrollments of a device with the same token the administrator deleted
      the invitation or upserted a different token. Upserting the same token again, or moving its
      expiry, does not revive it. */
  lemma OneShot(db: Tables, hash: TokenHash, device: string, first: Agent, second: Agent, token: string,
                now: int, later: int, events: seq<Event>)
    requires EnrollStep(db, hash, device, first, token, now).Ok?
    requires var enrolled := EnrollStep(db, hash, device, first, token, now).value;
             EnrollStep(Run(enrolled, hash, events), hash, device, second, token, later).Ok?
    ensures exists i :: 0 <= i < |events| && Renews(hash, events[i], device, token)
  {
    var after := EnrollStep(db, hash, device, first, token, now).value;
    if forall i :: 0 <= i < |events| ==> !Renews(hash, events[i], device, token) {
      StaysSpent(after, hash, device, token, events);
    }
  }

  // ---------------------------------------------------------------- when an enrollment succeeds

  lemma {:induction false} RunOneMore(db: Tables, hash: TokenHash, events: seq<Event>, n: nat)
    requires n < |events|
    ensures Run(db, hash, events[..n + 1]) == Next(Run(db, hash, events[..n]), hash, events[n])
    decreases n
  {
    if n == 0 {
      assert events[..1][1..] == [];
    } else {
      RunOneMore(Next(db, hash, events[0]), hash, events[1..], n - 1);
      assert events[..n + 1][1..] == events[1..][..n];
      assert events[..n][1..] == events[1..][..n - 1];
    }
  }

  /** From tables without invitations: the n-th event is an enrollment that succeeded. */
  predicate Succeeded(hash: TokenHash, agents: map<string, Agent>, events: seq<Event>, n: nat)
    requires n < |events|
  {
    events[n].Enroll?
    && var e := events[n];
       EnrollStep(Run(Tables(map[], agents), hash, events[..n]), hash, e.device, e.agent, e.token, e.now).Ok?
  }

  predicate Unrenewed(hash: TokenHash, device: string, token: string, events: seq<Event>, i: nat)
  {
    forall j :: i < j < |events| ==> !Renews(hash, events[j], device, token)
  }

  /** The device's invitation is for that token: it was put there, and nothing renewed since. */
  predicate Invited(hash: TokenHash, device: string, token: string, events: seq<Event>)
  {
    exists i :: 0 <= i < |events| && PutsThere(hash, device, token, events[i])
                && Unrenewed(hash, device, token, events, i)
  }

  predicate PutsThere(hash: TokenHash, device: string, token: string, e: Event)
  {
    e.Upsert? && e.device == device && hash(e.token) == hash(token)
  }

  /** A device with this token enrolled, and nothing renewed since. */
  predicate UsedUp(hash: TokenHash, device: string, token: string, agents: map<string, Agent>, events: seq<Event>)
  {
    exists i :: 0 <= i < |events| && UsesUp(hash, device, token, agents, events, i)
                && Unrenewed(hash, device, token, events, i)
  }

  predicate UsesUp(
    hash: TokenHash, device: string, token: string, agents: map<string, Agent>, events: seq<Event>, i: nat)
    requires i < |events|
  {
    Succeeded(hash, agents, events, i) && events[i].device == device && hash(events[i].token) == hash(token)
  }

  /** The expiry that the administrator gave last. */
  function Expiry(device: string, events: seq<Event>): int
  {
    if events == [] then 0
    else
      var e := events[|events| - 1];
      if (e.Upsert? || e.SetExpiry?) && e.device == device then e.expiresAt
      else Expiry(device, events[..|events| - 1])
  }

  lemma UnrenewedOneMore(hash: TokenHash, device: string, token: string, events: seq<Event>, i: nat)
    requires events != [] && i < |events| - 1
    ensures Unrenewed(hash, device, token, events, i) <==>
            && Unrenewed(hash, device, token, events[..|events| - 1], i)
            && !Renews(hash, events[|events| - 1], device, token)
  {
    assert forall j :: 0 <= j < |events| - 1 ==> events[..|events| - 1][j] == events[j];
  }

  lemma InvitedOneMore(hash: TokenHash, device: string, token: string, events: seq<Event>)
    requires events != []
    ensures var (before, last) := (events[..|events| - 1], events[|events| - 1]);
            Invited(hash, device, token, events) <==>
            || PutsThere(hash, device, token, last)
            || (Invited(hash, device, token, before) && !Renews(hash, last, device, token))
  {
    var n := |events| - 1;
    var before, last := events[..n], events[n];
    if PutsThere(hash, device, token, last) {
      assert Unrenewed(hash, device, token, events, n);
    } else if Invited(hash, device, token, before) && !Renews(hash, last, device, token) {
      var i :| 0 <= i < n && PutsThere(hash, device, token, before[i]) && Unrenewed(hash, device, token, before, i);
      UnrenewedOneMore(hash, device, token, events, i);
      assert PutsThere(hash, device, token, events[i]);
    }
    if Invited(hash, device, token, events) && !PutsThere(hash, device, token, last) {
      var i :| 0 <= i <= n && PutsThere(hash, device, token, events[i]) && Unrenewed(hash, device, token, events, i);
      UnrenewedOneMore(hash, device, token, events, i);
      assert PutsThere(hash, device, token, before[i]);
    }
  }

  lemma UsedUpOneMore(
    hash: TokenHash, device: string, token: string, agents: map<string, Agent>, events: seq<Event>)
    requires events != []
    ensures var (before, last) := (events[..|events| - 1], events[|events| - 1]);
            UsedUp(hash, device, token, agents, events) <==>
            || UsesUp(hash, device, token, agents, events, |events| - 1)
            || (UsedUp(hash, device, token, agents, before) && !Renews(hash, last, device, token))
  {
    var n := |events| - 1;
    var before, last := events[..n], events[n];
    if UsesUp(hash, device, token, agents, events, n) {
      assert Unrenewed(hash, device, token, events, n);
    } else if UsedUp(hash, device, token, agents, before) && !Renews(hash, last, device, token) {
      var i :| 0 <= i < n && UsesUp(hash, device, token, agents, before, i)
               && Unrenewed(hash, device, token, before, i);
      UnrenewedOneMore(hash, device, token, events, i);
      SameUse(hash, device, token, agents, events, i);
    } else if UsedUp(hash, device, token, agents, events) {
      var i :| 0 <= i <= n && UsesUp(hash, device, token, agents, events, i)
               && Unrenewed(hash, device, token, events, i);
      UnrenewedOneMore(hash, device, token, events, i);
      SameUse(hash, device, token, agents, events, i);
    }
  }

  lemma SameUse(
    hash: TokenHash, device: string, token: string, agents: map<string, Agent>, events: seq<Event>, i: nat)
    requires i < |events| - 1
    ensures UsesUp(hash, device, token, agents, events[..|events| - 1], i) <==>
            UsesUp(hash, device, token, agents, events, i)
  {
    assert events[..|events| - 1][..i] == events[..i];
  }

  /** What the tables hold for the device, told from the history. */
  predicate Told(
    db: Tables, hash: TokenHash, device: string, token: string, agents: map<string, Agent>, events: seq<Event>)
  {
    && (Invited(hash, device, token, events) <==>
          device in db.invitations && db.invitations[device].tokenHash == hash(token))
    && (Invited(hash, device, token, events) ==>
          && db.invitations[device].expiresAt == Expiry(device, events)
          && (UsedUp(hash, device, token, agents, events) <==> db.invitations[device].consumedAt.Some?))
    && (UsedUp(hash, device, token, agents, events) ==> Invited(hash, device, token, events))
  }

  lemma ToldOneMore(
    db: Tables, hash: TokenHash, device: string, token: string, agents: map<string, Agent>, events: seq<Event>)
    requires events != [] && db == Run(Tables(map[], agents), hash, events[..|events| - 1])
    requires Told(db, hash, device, token, agents, events[..|events| - 1])
    ensures Told(Next(db, hash, events[|events| - 1]), hash, device, token, agents, events)
  {
    if events[|events| - 1].Enroll? {
      EnrollTold(db, hash, device, token, agents, events);
    } else {
      OtherTold(db, hash, device, token, agents, events);
    }
  }

  lemma EnrollTold(
    db: Tables, hash: TokenHash, device: string, token: string, agents: map<string, Agent>, events: seq<Event>)
    requires events != [] && db == Run(Tables(map[], agents), hash, events[..|events| - 1])
    requires events[|events| - 1].Enroll? && Told(db, hash, device, token, agents, events[..|events| - 1])
    ensures Told(Next(db, hash, events[|events| - 1]), hash, device, token, agents, events)
  {
    InvitedOneMore(hash, device, token, events);
    UsedUpOneMore(hash, device, token, agents, events);
  }

  lemma OtherTold(
    db: Tables, hash: TokenHash, device: string, token: string, agents: map<string, Agent>, events: seq<Event>)
    requires events != [] && !events[|events| - 1].Enroll?
    requires Told(db, hash, device, token, agents, events[..|events| - 1])
    ensures Told(Next(db, hash, events[|events| - 1]), hash, device, token, agents, events)
  {
    InvitedOneMore(hash, device, token, events);
    UsedUpOneMore(hash, device, token, agents, events);
  }

  lemma {:induction false} HistoryTells(
    hash: TokenHash, device: string, token: string, agents: map<string, Agent>, events: seq<Event>)
    ensures Told(Run(Tables(map[], agents), hash, events), hash, device, token, agents, events)
    decreases |events|
  {
    if events != [] {
      var n := |events| - 1;
      HistoryTells(hash, device, token, agents, events[..n]);
      assert events[..n + 1] == events;
      RunOneMore(Tables(map[], agents), hash, events, n);
      ToldOneMore(Run(Tables(map[], agents), hash, events[..n]), hash, device, token, agents, events);
    }
  }

  /** Whatever the administrator and the devices did before, an enrollment succeeds exactly if the
      administrator put this token there and has not renewed it since, no device used it up since,
      and the expiry given last is still to come. */
  lemma EnrollsExactly(
    hash: TokenHash, device: string, token: string, agents: map<string, Agent>, events: seq<Event>, a: Agent, now: int)
    ensures EnrollStep(Run(Tables(map[], agents), hash, events), hash, device, a, token, now).Ok? <==>
            && Invited(hash, device, token, events)
            && !UsedUp(hash, device, token, agents, events)
            && now < Expiry(device, events)
  {
    HistoryTells(hash, device, token, agents, events);
  }

  /** A rotated invitation works once more, until it expires. */
  lemma RotationAdmits(db: Tables, hash: TokenHash, device: string, a: Agent, token: string, expiresAt: int, now: int)
    requires device in db.invitations ==> db.invitations[device].tokenHash != hash(token)
    ensures EnrollStep(UpsertStep(db, hash, device, token, expiresAt), hash, device, a, token, now).Ok?
       <==> now < expiresAt
  {
  }
}
