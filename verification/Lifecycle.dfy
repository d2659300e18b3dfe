/** One case: its row, its status and assignment logs, and everything that changes them. */
module Lifecycle {
  import opened Wrappers

  /** The nine named statuses, and any other string that a forced update may write. */
  datatype Status =
    | Received | UnderReview | InProgress | AwaitingClient | SubmittedToAuthority | AwaitingResponse
    | Completed | Rejected | Cancelled
    | Other(name: string)

  datatype Role = Client | StaffAgent | StaffAdmin | System

  /** The statuses that each status may move to. */
  const VALID_STATUS_TRANSITIONS: map<Status, set<Status>> := map[
    Received := {UnderReview, Cancelled},
    UnderReview := {InProgress, AwaitingClient, Rejected},
    InProgress := {SubmittedToAuthority, AwaitingClient, Rejected},
    AwaitingClient := {InProgress, Rejected, Cancelled},
    SubmittedToAuthority := {AwaitingResponse, Completed, Rejected},
    AwaitingResponse := {Completed, Rejected, InProgress},
    Completed := {},
    Rejected := {},
    Cancelled := {}]

  const CLIENT_CANCELLABLE := {Received, AwaitingClient}

  const TERMINAL_STATUSES := {Completed, Rejected, Cancelled}

  /** The statuses whose change posts a system message. */
  const MESSAGED := {
    UnderReview, InProgress, AwaitingClient, SubmittedToAuthority, AwaitingResponse,
    Completed, Rejected, Cancelled}

  function Allowed(status: Status): set<Status> {
    if status in VALID_STATUS_TRANSITIONS then VALID_STATUS_TRANSITIONS[status] else {}
  }

  /** `forced` is bookkeeping: whether the entry was written by an admin update, which skips the
      transition table. The program does not store it. */
  datatype StatusEntry = StatusEntry(status: Status, actor: string, role: Role, at: int, forced: bool)

  datatype AssignEntry = AssignEntry(previous: Option<string>, agent: string, actor: string, role: Role, at: int)

  datatype AuditEntry = AuditEntry(actor: Option<string>, agent: string, previous: Option<string>)

  /** A row of the case table with the rows of the other tables that belong to it. */
  datatype Case = Case(
    client: string, category: string, tier: string, submittedAt: int, slaDeadline: Option<int>,
    status: Status, agent: Option<string>, assignedAt: Option<int>,
    completedAt: Option<int>, rejectedAt: Option<int>, cancelledAt: Option<int>,
    statusLog: seq<StatusEntry>, assignLog: seq<AssignEntry>, messages: seq<Status>, audit: seq<AuditEntry>)

  datatype CaseError =
    | AccessForbidden
    | InvalidTransition(current: Status, valid: set<Status>)
    | AlreadyAssigned
    | NotFound

  function Submitted(client: string, category: string, tier: string, slaDeadline: int, now: int): Case {
    Case(client, category, tier, now, Some(slaDeadline), Received, None, None, None, None, None,
         [StatusEntry(Received, client, Client, now, false)], [], [Received], [])
  }

  function StatusChanged(c: Case, status: Status, actor: string, role: Role, forced: bool, now: int): Case {
    c.(status := status,
       completedAt := if status == Completed then Some(now) else c.completedAt,
       rejectedAt := if status == Rejected then Some(now) else c.rejectedAt,
       cancelledAt := if status == Cancelled then Some(now) else c.cancelledAt,
       statusLog := c.statusLog + [StatusEntry(status, actor, role, now, forced)],
       messages := if status in MESSAGED then c.messages + [status] else c.messages)
  }

  function Audited(e: AssignEntry): AuditEntry {
    AuditEntry(if e.role == System then None else Some(e.actor), e.agent, e.previous)
  }

  function GivenTo(c: Case, entry: AssignEntry): Case {
    c.(agent := Some(entry.agent), assignedAt := Some(entry.at), assignLog := c.assignLog + [entry],
       audit := c.audit + [Audited(entry)])
  }

  /** The case after it was given to an agent; only a received case changes status by that. */
  function Assigned(c: Case, agent: string, actor: string, role: Role, now: int): Case {
    var given := GivenTo(c, AssignEntry(c.agent, agent, actor, role, now));
    if c.status == Received then StatusChanged(given, UnderReview, actor, role, false, now) else given
  }

  function Transitioned(c: Case, status: Status, user: string, role: Role, force: bool, now: int)
    : Result<Case, CaseError>
  {
    if !force && role == Client && c.client != user then Err(AccessForbidden)
    else if !force && role == StaffAgent && c.agent != Some(user) then Err(AccessForbidden)
    else if !force && status !in Allowed(c.status) then Err(InvalidTransition(c.status, Allowed(c.status)))
    else Ok(StatusChanged(c, status, user, role, force, now))
  }

  function CancelRequested(c: Case, client: string, now: int): Result<Case, CaseError> {
    if c.client != client then Err(AccessForbidden)
    else if c.status !in CLIENT_CANCELLABLE then Err(InvalidTransition(c.status, CLIENT_CANCELLABLE))
    else Transitioned(c, Cancelled, client, Client, false, now)
  }

  /** The claim of a locked row. */
  function Claimed(c: Case, agent: string, now: int): Result<Case, CaseError> {
    if c.agent.Some? then Err(AlreadyAssigned)
    else if c.status != Received then Err(NotFound)
    else Ok(Assigned(c, agent, agent, StaffAgent, now))
  }

  /** The requests and jobs that reach a case. `winner` is the agent that scoring came up with. */
  datatype Event =
    | AdminAssigns(agent: string, admin: string)
    | JobAssigns(winner: Option<string>)
    | AdminRunsScoring(winner: Option<string>)
    | AgentClaims(claimant: string)
    | AgentUpdates(user: string, status: Status)
    | ClientCancels(owner: string)
    | AdminForces(admin: string, status: Status)
    | ClientTakesOver(newClient: string)

  function OrSame(c: Case, r: Result<Case, CaseError>): Case {
    if r.Ok? then r.value else c
  }

  function After(c: Case, e: Event, now: int): Case {
    match e
    case AdminAssigns(agent, admin) => Assigned(c, agent, admin, StaffAdmin, now)
    case JobAssigns(winner) =>
      if c.agent.Some? || winner.None? then c else Assigned(c, winner.value, winner.value, System, now)
    case AdminRunsScoring(winner) =>
      if winner.None? then c else Assigned(c, winner.value, winner.value, System, now)
    case AgentClaims(agent) => OrSame(c, Claimed(c, agent, now))
    case AgentUpdates(agent, status) => OrSame(c, Transitioned(c, status, agent, StaffAgent, false, now))
    case ClientCancels(client) => OrSame(c, CancelRequested(c, client, now))
    case AdminForces(admin, status) => OrSame(c, Transitioned(c, status, admin, StaffAdmin, true, now))
    case ClientTakesOver(client) => c.(client := client)
  }

  datatype Timed = Timed(at: int, event: Event)

  function Run(c: Case, events: seq<Timed>): Case
    decreases |events|
  {
    if events == [] then c else Run(After(c, events[0].event, events[0].at), events[1..])
  }

  // ---- The row is the fold of its logs ----

  /** When the log last mentions a status. */
  function LastAt(log: seq<StatusEntry>, status: Status): Option<int> {
    if log == [] then None
    else if log[|log| - 1].status == status then Some(log[|log| - 1].at)
    else LastAt(log[..|log| - 1], status)
  }

  /** The system messages that the log accounts for. */
  function MessagesOf(log: seq<StatusEntry>): seq<Status> {
    if |log| <= 1 then [Received]
    else
      var status := log[|log| - 1].status;
      MessagesOf(log[..|log| - 1]) + (if status in MESSAGED then [status] else [])
  }

  /** Who holds the case after the first `k` assignments. */
  function HolderAfter(log: seq<AssignEntry>, k: nat): Option<string>
    requires k <= |log|
  {
    if k == 0 then None else Some(log[k - 1].agent)
  }

  predicate IsChain(log: seq<AssignEntry>) {
    forall i :: 0 <= i < |log| ==> log[i].previous == HolderAfter(log, i)
  }

  predicate FollowsTable(log: seq<StatusEntry>) {
    forall i :: 0 < i < |log| ==> log[i].forced || log[i].status in Allowed(log[i - 1].status)
  }

  predicate AuditMirrors(audit: seq<AuditEntry>, log: seq<AssignEntry>) {
    |audit| == |log| && forall i :: 0 <= i < |log| ==> audit[i] == Audited(log[i])
  }

  /** What the status log says about the row. */
  predicate StatusSide(
      status: Status, completedAt: Option<int>, rejectedAt: Option<int>, cancelledAt: Option<int>,
      messages: seq<Status>, log: seq<StatusEntry>)
  {
    log != [] && log[0].status == Received && status == log[|log| - 1].status &&
    completedAt == LastAt(log, Completed) && rejectedAt == LastAt(log, Rejected) &&
    cancelledAt == LastAt(log, Cancelled) && messages == MessagesOf(log) && FollowsTable(log)
  }

  /** What the assignment log says about the row. */
  predicate AssignSide(agent: Option<string>, assignedAt: Option<int>, audit: seq<AuditEntry>, log: seq<AssignEntry>) {
    agent == HolderAfter(log, |log|) && assignedAt == (if log == [] then None else Some(log[|log| - 1].at)) &&
    IsChain(log) && AuditMirrors(audit, log)
  }

  /** Every stored fact about status, agent, times, messages and audit can be read off the logs. */
  predicate IsFoldOfLogs(c: Case) {
    StatusSide(c.status, c.completedAt, c.rejectedAt, c.cancelledAt, c.messages, c.statusLog) &&
    AssignSide(c.agent, c.assignedAt, c.audit, c.assignLog)
  }

  lemma LogGrows(log: seq<StatusEntry>, e: StatusEntry)
    requires log != [] && FollowsTable(log) && (e.forced || e.status in Allowed(log[|log| - 1].status))
    ensures FollowsTable(log + [e])
    ensures forall s :: LastAt(log + [e], s) == if e.status == s then Some(e.at) else LastAt(log, s)
    ensures MessagesOf(log + [e]) == MessagesOf(log) + (if e.status in MESSAGED then [e.status] else [])
  {
    assert (log + [e])[..|log|] == log;
  }

  lemma StatusChangeKeepsFold(c: Case, status: Status, actor: string, role: Role, forced: bool, now: int)
    requires IsFoldOfLogs(c) && (forced || status in Allowed(c.status))
    ensures IsFoldOfLogs(StatusChanged(c, status, actor, role, forced, now))
  {
    LogGrows(c.statusLog, StatusEntry(status, actor, role, now, forced));
  }

  lemma ChainGrows(log: seq<AssignEntry>, entry: AssignEntry)
    requires IsChain(log) && entry.previous == HolderAfter(log, |log|)
    ensures IsChain(log + [entry])
  {
    var grown := log + [entry];
    forall i | 0 <= i < |grown| ensures grown[i].previous == HolderAfter(grown, i) {
      assert HolderAfter(grown, i) == HolderAfter(log, i);
      assert i < |log| ==> grown[i] == log[i];
    }
  }

  lemma GivingKeepsFold(c: Case, entry: AssignEntry)
    requires IsFoldOfLogs(c) && entry.previous == c.agent
    ensures IsFoldOfLogs(GivenTo(c, entry))
  {
    ChainGrows(c.assignLog, entry);
  }

  lemma AssignmentKeepsFold(c: Case, agent: string, actor: string, role: Role, now: int)
    requires IsFoldOfLogs(c)
    ensures IsFoldOfLogs(Assigned(c, agent, actor, role, now))
  {
    var entry := AssignEntry(c.agent, agent, actor, role, now);
    GivingKeepsFold(c, entry);
    if c.status == Received {
      StatusChangeKeepsFold(GivenTo(c, entry), UnderReview, actor, role, false, now);
    }
  }

  /** The events that can set an agent. */
  predicate Assigns(e: Event) {
    e.AdminAssigns? || e.JobAssigns? || e.AdminRunsScoring? || e.AgentClaims?
  }

  lemma AssigningEvent(c: Case, e: Event, now: int) returns (agent: string, actor: string, role: Role)
    requires Assigns(e) && After(c, e, now) != c
    ensures After(c, e, now) == Assigned(c, agent, actor, role, now)
    ensures role == StaffAgent ==> actor == agent
  {
    match e
    case AdminAssigns(a, admin) => agent, actor, role := a, admin, StaffAdmin;
    case JobAssigns(winner) => agent, actor, role := winner.value, winner.value, System;
    case AdminRunsScoring(winner) => agent, actor, role := winner.value, winner.value, System;
    case AgentClaims(a) => agent, actor, role := a, a, StaffAgent;
  }

  lemma ChangingEvent(c: Case, e: Event, now: int) returns (status: Status, actor: string, role: Role)
    requires !Assigns(e) && !e.ClientTakesOver? && After(c, e, now) != c
    ensures After(c, e, now) == StatusChanged(c, status, actor, role, e.AdminForces?, now)
    ensures e.AdminForces? || status in Allowed(c.status)
    ensures e.AgentUpdates? ==> c.agent.Some?
    ensures role == StaffAgent ==> c.agent == Some(actor)
    ensures e.ClientCancels? ==> status == Cancelled
  {
    match e
    case AgentUpdates(a, s) => status, actor, role := s, a, StaffAgent;
    case ClientCancels(owner) => status, actor, role := Cancelled, owner, Client;
    case AdminForces(admin, s) => status, actor, role := s, admin, StaffAdmin;
  }

  lemma EventKeepsFold(c: Case, e: Event, now: int)
    requires IsFoldOfLogs(c)
    ensures IsFoldOfLogs(After(c, e, now))
  {
    if e.ClientTakesOver? || After(c, e, now) == c {
    } else if Assigns(e) {
      var agent, actor, role := AssigningEvent(c, e, now);
      AssignmentKeepsFold(c, agent, actor, role, now);
    } else {
      var status, actor, role := ChangingEvent(c, e, now);
      StatusChangeKeepsFold(c, status, actor, role, e.AdminForces?, now);
    }
  }

  lemma {:induction false} RunKeepsFold(c: Case, events: seq<Timed>)
    requires IsFoldOfLogs(c)
    ensures IsFoldOfLogs(Run(c, events))
    decreases |events|
  {
    if events != [] {
      EventKeepsFold(c, events[0].event, events[0].at);
      RunKeepsFold(After(c, events[0].event, events[0].at), events[1..]);
    }
  }

  lemma SubmittedIsFold(client: string, category: string, tier: string, slaDeadline: int, now: int)
    ensures IsFoldOfLogs(Submitted(client, category, tier, slaDeadline, now))
  {
    var log := Submitted(client, category, tier, slaDeadline, now).statusLog;
    assert log[..0] == [];
  }

  /** In every state that a submitted case can reach, forced updates included, the row is the fold
      of its logs. */
  lemma RowIsFoldOfLogs(client: string, category: string, tier: string, slaDeadline: int, now: int, events: seq<Timed>)
    ensures IsFoldOfLogs(Run(Submitted(client, category, tier, slaDeadline, now), events))
  {
    SubmittedIsFold(client, category, tier, slaDeadline, now);
    RunKeepsFold(Submitted(client, category, tier, slaDeadline, now), events);
  }

  /** Entry `i` is the last one with its status. */
  predicate IsLast(log: seq<StatusEntry>, i: nat)
    requires i < |log|
  {
    forall j :: i < j < |log| ==> log[j].status != log[i].status
  }

  lemma {:induction false} LastAtFindsLast(log: seq<StatusEntry>, status: Status) returns (i: int)
    ensures -1 <= i < |log| && forall j :: i < j < |log| ==> log[j].status != status
    ensures LastAt(log, status) == if i < 0 then None else Some(log[i].at)
    ensures i >= 0 ==> log[i].status == status
  {
    if log == [] || log[|log| - 1].status == status {
      i := |log| - 1;
    } else {
      i := LastAtFindsLast(log[..|log| - 1], status);
    }
  }

  /** A time is that of the last such entry, and unset if there is none. */
  ghost predicate Marks(time: Option<int>, log: seq<StatusEntry>, status: Status) {
    (time.Some? <==> exists i :: 0 <= i < |log| && log[i].status == status) &&
    (forall i: nat :: i < |log| && log[i].status == status && IsLast(log, i) ==> time == Some(log[i].at))
  }

  lemma LastAtMarks(log: seq<StatusEntry>, status: Status)
    ensures Marks(LastAt(log, status), log, status)
  {
    var last := LastAtFindsLast(log, status);
    if last >= 0 {
      forall i: nat | i < |log| && log[i].status == status && IsLast(log, i) ensures i == last {
      }
    }
  }

  /** In every run each terminal time is set exactly when the log has such an entry, and is then the
      time of the last one. */
  lemma TerminalTimesMarkEntries(
      client: string, category: string, tier: string, slaDeadline: int, now: int, events: seq<Timed>)
    ensures var c := Run(Submitted(client, category, tier, slaDeadline, now), events);
            Marks(c.completedAt, c.statusLog, Completed) && Marks(c.rejectedAt, c.statusLog, Rejected) &&
            Marks(c.cancelledAt, c.statusLog, Cancelled)
  {
    RowIsFoldOfLogs(client, category, tier, slaDeadline, now, events);
    var c := Run(Submitted(client, category, tier, slaDeadline, now), events);
    LastAtMarks(c.statusLog, Completed);
    LastAtMarks(c.statusLog, Rejected);
    LastAtMarks(c.statusLog, Cancelled);
  }

  lemma EventGrowsLogs(c: Case, e: Event, now: int)
    ensures c.statusLog <= After(c, e, now).statusLog && c.assignLog <= After(c, e, now).assignLog
  {
  }

  /** Logs only grow. */
  lemma {:induction false} LogsGrow(c: Case, events: seq<Timed>)
    ensures c.statusLog <= Run(c, events).statusLog && c.assignLog <= Run(c, events).assignLog
    decreases |events|
  {
    if events != [] {
      EventGrowsLogs(c, events[0].event, events[0].at);
      LogsGrow(After(c, events[0].event, events[0].at), events[1..]);
    }
  }

  predicate Held(log: seq<AssignEntry>, agent: string) {
    exists j :: 0 <= j < |log| && log[j].agent == agent
  }

  /** Whoever changed the status as an agent had been given the case. */
  predicate ActorsHeldCase(c: Case) {
    forall i :: 0 <= i < |c.statusLog| && c.statusLog[i].role == StaffAgent ==> Held(c.assignLog, c.statusLog[i].actor)
  }

  lemma HeldStays(log: seq<AssignEntry>, e: AssignEntry, agent: string)
    ensures Held(log + [e], agent) <==> Held(log, agent) || e.agent == agent
  {
    var grown := log + [e];
    if j :| 0 <= j < |log| && log[j].agent == agent {
      assert grown[j].agent == agent;
    }
    assert grown[|log|] == e;
  }

  lemma AssignmentKeepsActors(c: Case, agent: string, actor: string, role: Role, now: int)
    requires ActorsHeldCase(c) && (role == StaffAgent ==> actor == agent)
    ensures ActorsHeldCase(Assigned(c, agent, actor, role, now))
  {
    var next := Assigned(c, agent, actor, role, now);
    forall x ensures Held(next.assignLog, x) <==> Held(c.assignLog, x) || x == agent {
      HeldStays(c.assignLog, AssignEntry(c.agent, agent, actor, role, now), x);
    }
  }

  lemma StatusChangeKeepsActors(c: Case, status: Status, actor: string, role: Role, forced: bool, now: int)
    requires IsFoldOfLogs(c) && ActorsHeldCase(c) && (role == StaffAgent ==> c.agent == Some(actor))
    ensures ActorsHeldCase(StatusChanged(c, status, actor, role, forced, now))
  {
    if role == StaffAgent {
      assert c.assignLog[|c.assignLog| - 1].agent == actor;
    }
  }

  lemma EventKeepsActors(c: Case, e: Event, now: int)
    requires IsFoldOfLogs(c) && ActorsHeldCase(c)
    ensures ActorsHeldCase(After(c, e, now))
  {
    if e.ClientTakesOver? || After(c, e, now) == c {
    } else if Assigns(e) {
      var agent, actor, role := AssigningEvent(c, e, now);
      AssignmentKeepsActors(c, agent, actor, role, now);
    } else {
      var status, actor, role := ChangingEvent(c, e, now);
      StatusChangeKeepsActors(c, status, actor, role, e.AdminForces?, now);
    }
  }

  lemma {:induction false} RunKeepsActors(c: Case, events: seq<Timed>)
    requires IsFoldOfLogs(c) && ActorsHeldCase(c)
    ensures ActorsHeldCase(Run(c, events))
    decreases |events|
  {
    if events != [] {
      EventKeepsFold(c, events[0].event, events[0].at);
      EventKeepsActors(c, events[0].event, events[0].at);
      RunKeepsActors(After(c, events[0].event, events[0].at), events[1..]);
    }
  }

  /** In every run each status entry that an agent wrote is by an agent who held the case. */
  lemma OnlyHoldersChangeStatus(
      client: string, category: string, tier: string, slaDeadline: int, now: int, events: seq<Timed>)
    ensures ActorsHeldCase(Run(Submitted(client, category, tier, slaDeadline, now), events))
  {
    SubmittedIsFold(client, category, tier, slaDeadline, now);
    RunKeepsActors(Submitted(client, category, tier, slaDeadline, now), events);
  }

  // ---- What every event writes ----

  /** Whom the event gives the case to: the admin's choice whatever the case, the admin's scoring
      whatever the case, the job only if nobody has it, a claim only of a queued case. */
  function GivesTo(c: Case, e: Event): Option<string> {
    match e
    case AdminAssigns(agent, _) => Some(agent)
    case AdminRunsScoring(winner) => winner
    case JobAssigns(winner) => if c.agent.None? then winner else None
    case AgentClaims(claimant) => if c.agent.None? && c.status == Received then Some(claimant) else None
    case AgentUpdates(_, _) => None
    case ClientCancels(_) => None
    case AdminForces(_, _) => None
    case ClientTakesOver(_) => None
  }

  /** Which status the event sets: the first assignment starts the review, agents follow the table on
      their own cases, clients cancel their own, admins set anything. */
  function MovesTo(c: Case, e: Event): Option<Status> {
    match e
    case AgentUpdates(user, status) =>
      if c.agent == Some(user) && c.status in VALID_STATUS_TRANSITIONS && status in VALID_STATUS_TRANSITIONS[c.status]
      then Some(status) else None
    case ClientCancels(owner) =>
      if c.client == owner && c.status in {Received, AwaitingClient} then Some(Cancelled) else None
    case AdminForces(_, status) => Some(status)
    case _ => if GivesTo(c, e).Some? && c.status == Received then Some(UnderReview) else None
  }

  /** In whose name the event writes. */
  function ActorOf(e: Event): (string, Role) {
    match e
    case AdminAssigns(_, admin) => (admin, StaffAdmin)
    case JobAssigns(winner) => (if winner.Some? then winner.value else "", System)
    case AdminRunsScoring(winner) => (if winner.Some? then winner.value else "", System)
    case AgentClaims(claimant) => (claimant, StaffAgent)
    case AgentUpdates(user, _) => (user, StaffAgent)
    case ClientCancels(owner) => (owner, Client)
    case AdminForces(admin, _) => (admin, StaffAdmin)
    case ClientTakesOver(newClient) => (newClient, Client)
  }

  /** The statuses that clients are told about by a message. */
  predicate Announced(status: Status) {
    status != Received && !status.Other?
  }

  /** Every event writes exactly these log entries, and nothing else but a new client. As the rest of
      the row is the fold of the logs, this is all that it does. */
  lemma EventWritesLogs(c: Case, e: Event, now: int)
    ensures var next, actor := After(c, e, now), ActorOf(e);
            next.assignLog == c.assignLog + (
              if GivesTo(c, e).Some? then [AssignEntry(c.agent, GivesTo(c, e).value, actor.0, actor.1, now)] else []) &&
            next.statusLog == c.statusLog + (
              if MovesTo(c, e).Some? then [StatusEntry(MovesTo(c, e).value, actor.0, actor.1, now, e.AdminForces?)]
              else [])
    ensures After(c, e, now).client == if e.ClientTakesOver? then e.newClient else c.client
  {
  }

  /** With them go an audit entry, without an actor if the system assigns, and an announcement. */
  lemma EventIsAuditedAndAnnounced(c: Case, e: Event, now: int)
    ensures After(c, e, now).audit == c.audit + (
              if GivesTo(c, e).None? then []
              else [AuditEntry(if e.JobAssigns? || e.AdminRunsScoring? then None else Some(ActorOf(e).0),
                               GivesTo(c, e).value, c.agent)])
    ensures After(c, e, now).messages == c.messages + (
              if MovesTo(c, e).Some? && Announced(MovesTo(c, e).value) then [MovesTo(c, e).value] else [])
  {
  }

  /** A status update passes exactly if it is forced, or follows the table and comes from the case's own
      client or agent, or from neither role. */
  lemma TransitionAcceptedIff(c: Case, status: Status, user: string, role: Role, force: bool, now: int)
    ensures Transitioned(c, status, user, role, force, now).Ok? <==>
            force ||
            (c.status in VALID_STATUS_TRANSITIONS && status in VALID_STATUS_TRANSITIONS[c.status] &&
             (role == Client ==> user == c.client) && (role == StaffAgent ==> c.agent == Some(user)))
  {
  }

  // ---- Runs in order ----

  predicate Unforced(events: seq<Timed>) {
    forall i :: 0 <= i < |events| ==> !events[i].event.AdminForces?
  }

  predicate Orderly(c: Case) {
    IsFoldOfLogs(c) &&
    c.status in VALID_STATUS_TRANSITIONS &&
    (forall i :: 0 <= i < |c.statusLog| ==> (c.statusLog[i].status == Received <==> i == 0)) &&
    (c.status == Received ==> c.assignLog == []) &&
    (c.agent.None? ==> c.status in {Received, Cancelled}) &&
    (c.completedAt.Some? <==> c.status == Completed) &&
    (c.rejectedAt.Some? <==> c.status == Rejected) &&
    (c.cancelledAt.Some? <==> c.status == Cancelled)
  }

  /** No edge leads back to Received, none leaves a terminal status, and all stay in the table. */
  lemma TableFacts(status: Status, next: Status)
    requires next in Allowed(status)
    ensures next != Received && status !in TERMINAL_STATUSES && next in VALID_STATUS_TRANSITIONS
  {
  }

  /** The guard under which a status change keeps a case in order. */
  predicate SafeMove(c: Case, status: Status) {
    status in VALID_STATUS_TRANSITIONS && status != Received &&
    (c.agent.None? ==> status == Cancelled) &&
    (c.status in TERMINAL_STATUSES ==> status == c.status)
  }

  lemma SafeMoveKeepsOrder(c: Case, status: Status, actor: string, role: Role, forced: bool, now: int)
    requires Orderly(c) && (forced || status in Allowed(c.status)) && SafeMove(c, status)
    ensures Orderly(StatusChanged(c, status, actor, role, forced, now))
  {
    StatusChangeKeepsFold(c, status, actor, role, forced, now);
    var log, next := c.statusLog, StatusChanged(c, status, actor, role, forced, now).statusLog;
    forall i | 0 <= i < |next| ensures next[i].status == Received <==> i == 0 {
      assert i < |log| ==> next[i] == log[i];
    }
  }

  lemma UnsafeMoveBreaksOrder(c: Case, status: Status, actor: string, role: Role, forced: bool, now: int)
    requires Orderly(c) && Orderly(StatusChanged(c, status, actor, role, forced, now))
    ensures SafeMove(c, status)
  {
    var next := StatusChanged(c, status, actor, role, forced, now);
    assert next.statusLog[|c.statusLog|].status == status;
  }

  lemma AssignmentKeepsOrder(c: Case, agent: string, actor: string, role: Role, now: int)
    requires Orderly(c)
    ensures Orderly(Assigned(c, agent, actor, role, now))
  {
    AssignmentKeepsFold(c, agent, actor, role, now);
    if c.status == Received {
      TableFacts(Received, UnderReview);
    }
  }

  lemma TakeOverKeepsOrder(c: Case, client: string)
    requires Orderly(c)
    ensures Orderly(c.(client := client))
  {
    assert IsFoldOfLogs(c.(client := client));
  }

  lemma EventKeepsOrder(c: Case, e: Event, now: int)
    requires Orderly(c) && !e.AdminForces?
    ensures Orderly(After(c, e, now))
  {
    if After(c, e, now) == c {
    } else if e.ClientTakesOver? {
      TakeOverKeepsOrder(c, e.newClient);
    } else if Assigns(e) {
      var agent, actor, role := AssigningEvent(c, e, now);
      AssignmentKeepsOrder(c, agent, actor, role, now);
    } else {
      var status, actor, role := ChangingEvent(c, e, now);
      TableFacts(c.status, status);
      SafeMoveKeepsOrder(c, status, actor, role, false, now);
    }
  }

  lemma ForcedChange(c: Case, admin: string, status: Status, now: int)
    ensures After(c, AdminForces(admin, status), now) == StatusChanged(c, status, admin, StaffAdmin, true, now)
  {
  }

  /** A forced update keeps the order exactly under that guard, whatever the case and the status. */
  lemma ForcedUpdateKeepsOrderIff(c: Case, admin: string, status: Status, now: int)
    requires Orderly(c)
    ensures Orderly(After(c, AdminForces(admin, status), now)) <==> SafeMove(c, status)
  {
    ForcedChange(c, admin, status, now);
    if SafeMove(c, status) {
      SafeMoveKeepsOrder(c, status, admin, StaffAdmin, true, now);
    } else if Orderly(After(c, AdminForces(admin, status), now)) {
      UnsafeMoveBreaksOrder(c, status, admin, StaffAdmin, true, now);
    }
  }

  /** Every forced update of the run meets its guard when it comes. */
  predicate Guarded(c: Case, events: seq<Timed>)
    decreases |events|
  {
    events == [] ||
    ((events[0].event.AdminForces? ==> SafeMove(c, events[0].event.status)) &&
     Guarded(After(c, events[0].event, events[0].at), events[1..]))
  }

  predicate OrderlyThroughout(c: Case, events: seq<Timed>)
    decreases |events|
  {
    Orderly(c) && (events == [] || OrderlyThroughout(After(c, events[0].event, events[0].at), events[1..]))
  }

  /** A run stays in order throughout exactly when all its forced updates are guarded: Received is
      then only the first entry, a received case has no agent and no assignment, an unassigned one
      is received or cancelled, and the one terminal time that is set is that of the status. */
  lemma {:induction false} RunIsOrderlyIff(c: Case, events: seq<Timed>)
    requires Orderly(c)
    ensures OrderlyThroughout(c, events) <==> Guarded(c, events)
    ensures Guarded(c, events) ==> Orderly(Run(c, events))
    decreases |events|
  {
    if events != [] {
      var e, next := events[0], After(c, events[0].event, events[0].at);
      if e.event.AdminForces? {
        ForcedUpdateKeepsOrderIff(c, e.event.admin, e.event.status, e.at);
      } else {
        EventKeepsOrder(c, e.event, e.at);
      }
      if Orderly(next) {
        RunIsOrderlyIff(next, events[1..]);
      }
    }
  }

  lemma {:induction false} UnforcedIsGuarded(c: Case, events: seq<Timed>)
    requires Unforced(events)
    ensures Guarded(c, events)
    decreases |events|
  {
    if events != [] {
      UnforcedIsGuarded(After(c, events[0].event, events[0].at), events[1..]);
    }
  }

  /** In particular every run without forced updates stays in order. */
  lemma UnforcedRunsAreOrderly(c: Case, events: seq<Timed>)
    requires Orderly(c) && Unforced(events)
    ensures OrderlyThroughout(c, events) && Orderly(Run(c, events))
  {
    UnforcedIsGuarded(c, events);
    RunIsOrderlyIff(c, events);
  }

  lemma SubmittedIsOrderly(client: string, category: string, tier: string, slaDeadline: int, now: int)
    ensures Orderly(Submitted(client, category, tier, slaDeadline, now))
  {
    SubmittedIsFold(client, category, tier, slaDeadline, now);
    var log := Submitted(client, category, tier, slaDeadline, now).statusLog;
    assert log[..0] == [];
  }

  /** A terminal status, its time and the status log are final, although an agent may still be set. */
  lemma {:induction false} TerminalIsAbsorbing(c: Case, events: seq<Timed>)
    requires c.status in TERMINAL_STATUSES && Unforced(events)
    ensures var end := Run(c, events);
            end.status == c.status && end.statusLog == c.statusLog && end.messages == c.messages &&
            end.completedAt == c.completedAt && end.rejectedAt == c.rejectedAt && end.cancelledAt == c.cancelledAt
    decreases |events|
  {
    if events != [] {
      TerminalIsAbsorbing(After(c, events[0].event, events[0].at), events[1..]);
    }
  }

  /** The events that give a case to an agent although it is closed: the admin's, which look at
      neither status nor agent, and the job's if nobody has the case. A claim is not among them. */
  predicate GivesClosed(agent: Option<string>, e: Event) {
    e.AdminAssigns? || (e.AdminRunsScoring? && e.winner.Some?) || (e.JobAssigns? && e.winner.Some? && agent.None?)
  }

  /** What any event does to a case with a terminal status. */
  lemma ClosedCaseEvent(c: Case, e: Event, now: int)
    requires c.status in TERMINAL_STATUSES
    ensures var next := After(c, e, now);
            (|next.assignLog| > |c.assignLog| <==> GivesClosed(c.agent, e)) &&
            (next.agent != c.agent ==> GivesClosed(c.agent, e)) &&
            (next.statusLog != c.statusLog <==> e.AdminForces?) &&
            (next.status != c.status <==> e.AdminForces? && e.status != c.status)
  {
    if e.AdminForces? {
      assert |After(c, e, now).statusLog| == |c.statusLog| + 1;
    }
  }

  /** A closed case changes hands in an unforced run exactly when one of those events comes. */
  lemma {:induction false} ClosedCaseIsGivenIff(c: Case, events: seq<Timed>)
    requires c.status in TERMINAL_STATUSES && Unforced(events)
    ensures Run(c, events).assignLog != c.assignLog <==>
            exists i :: 0 <= i < |events| && GivesClosed(c.agent, events[i].event)
    decreases |events|
  {
    if events != [] {
      var next, rest := After(c, events[0].event, events[0].at), events[1..];
      ClosedCaseEvent(c, events[0].event, events[0].at);
      LogsGrow(next, rest);
      if !GivesClosed(c.agent, events[0].event) {
        ClosedCaseIsGivenIff(next, rest);
        if i :| 0 <= i < |rest| && GivesClosed(c.agent, rest[i].event) {
          assert events[i + 1] == rest[i];
        }
      }
    }
  }

  /** For one, a forced update can put a case in process that has no agent, or reopen a closed one. */
  lemma ForcedUpdateBreaksOrder(c: Case, admin: string, now: int)
    requires Orderly(c) && c.status == Received
    ensures !Orderly(After(c, AdminForces(admin, InProgress), now))
    ensures var closed := After(c, AdminForces(admin, Completed), now);
            After(closed, AdminForces(admin, Received), now).status == Received
  {
  }

  /** The unassigned queue lists a case. */
  predicate Queued(c: Case) {
    c.status == Received && c.agent.None?
  }

  /** No case gets lost: in unforced and in guarded runs the queue is exactly the received cases,
      exactly they can be claimed, and every other case that is not closed has an agent. */
  lemma QueueIsExact(c: Case, events: seq<Timed>, agent: string, now: int)
    requires Orderly(c) && (Unforced(events) || Guarded(c, events))
    ensures var end := Run(c, events);
            (Queued(end) <==> end.status == Received) &&
            (Claimed(end, agent, now).Ok? <==> Queued(end)) &&
            (!Queued(end) && end.status !in TERMINAL_STATUSES ==> end.agent.Some?)
  {
    if Unforced(events) {
      UnforcedIsGuarded(c, events);
    }
    RunIsOrderlyIff(c, events);
  }

  /** Clients can cancel exactly the statuses from which the table lets them; the inner check of a
      cancellation never fails. */
  lemma CancellationNeedsOwnerAndStatus(c: Case, client: string, now: int)
    ensures CancelRequested(c, client, now).Ok? <==> c.client == client && Cancelled in Allowed(c.status)
  {
  }

  /** The row as the services change it in place. */
  class CaseRow {
    var client: string
    const category: string
    const tier: string
    const submittedAt: int
    const slaDeadline: Option<int>
    var status: Status
    var agent: Option<string>
    var assignedAt: Option<int>
    var completedAt: Option<int>
    var rejectedAt: Option<int>
    var cancelledAt: Option<int>
    var statusLog: seq<StatusEntry>
    var assignLog: seq<AssignEntry>
    var messages: seq<Status>
    var audit: seq<AuditEntry>

    function View(): Case
      reads this
    {
      Case(client, category, tier, submittedAt, slaDeadline, status, agent, assignedAt,
           completedAt, rejectedAt, cancelledAt, statusLog, assignLog, messages, audit)
    }

    constructor Submit(client: string, category: string, tier: string, slaDeadline: int, now: int)
      ensures View() == Submitted(client, category, tier, slaDeadline, now)
      ensures Orderly(View())
    {
      this.client, this.category, this.tier := client, category, tier;
      this.submittedAt, this.slaDeadline := now, Some(slaDeadline);
      status, agent, assignedAt := Received, None, None;
      completedAt, rejectedAt, cancelledAt := None, None, None;
      statusLog := [StatusEntry(Received, client, Client, now, false)];
      assignLog, messages, audit := [], [Received], [];
      new;
      SubmittedIsOrderly(client, category, tier, slaDeadline, now);
    }

    method ApplyStatusChange(newStatus: Status, actor: string, role: Role, forced: bool, now: int)
      modifies this
      ensures View() == StatusChanged(old(View()), newStatus, actor, role, forced, now)
    {
      status := newStatus;
      if newStatus == Completed {
        completedAt := Some(now);
      } else if newStatus == Rejected {
        rejectedAt := Some(now);
      } else if newStatus == Cancelled {
        cancelledAt := Some(now);
      }
      statusLog := statusLog + [StatusEntry(newStatus, actor, role, now, forced)];
      if newStatus in MESSAGED {
        messages := messages + [newStatus];
      }
    }

    /** The variant on the assignment side, which checks the table itself. */
    method ApplyCheckedStatusChange(newStatus: Status, actor: string, role: Role, now: int)
      returns (r: Result<(), CaseError>)
      modifies this
      ensures r.Ok? <==> newStatus in Allowed(old(status)) || newStatus == old(status)
      ensures r.Ok? ==> View() == StatusChanged(old(View()), newStatus, actor, role, false, now)
      ensures r.Err? ==> View() == old(View()) && r.error == InvalidTransition(status, Allowed(status))
    {
      var allowed := Allowed(status);
      if newStatus !in allowed && newStatus != status {
        return Err(InvalidTransition(status, allowed));
      }
      ApplyStatusChange(newStatus, actor, role, false, now);
      return Ok(());
    }

    method DoAssign(agentId: string, actor: string, role: Role, now: int)
      modifies this
      ensures View() == Assigned(old(View()), agentId, actor, role, now)
    {
      var previous := agent;
      agent := Some(agentId);
      assignedAt := Some(now);
      assignLog := assignLog + [AssignEntry(previous, agentId, actor, role, now)];
      if status == Received {
        var r := ApplyCheckedStatusChange(UnderReview, actor, role, now);
        assert r.Ok?;
      }
      audit := audit + [AuditEntry(if role == System then None else Some(actor), agentId, previous)];
    }

    method TransitionStatus(newStatus: Status, user: string, role: Role, force: bool, now: int)
      returns (r: Result<(), CaseError>)
      modifies this
      ensures var spec := Transitioned(old(View()), newStatus, user, role, force, now);
              View() == OrSame(old(View()), spec) && (r.Ok? <==> spec.Ok?) && (r.Err? ==> r.error == spec.error)
    {
      if !force {
        if role == Client && client != user {
          return Err(AccessForbidden);
        }
        if role == StaffAgent && agent != Some(user) {
          return Err(AccessForbidden);
        }
        var allowed := Allowed(status);
        if newStatus !in allowed {
          return Err(InvalidTransition(status, allowed));
        }
      }
      ApplyStatusChange(newStatus, user, role, force, now);
      return Ok(());
    }

    method CancelApplication(clientId: string, now: int) returns (r: Result<(), CaseError>)
      modifies this
      ensures var spec := CancelRequested(old(View()), clientId, now);
              View() == OrSame(old(View()), spec) && (r.Ok? <==> spec.Ok?) && (r.Err? ==> r.error == spec.error)
    {
      if client != clientId {
        return Err(AccessForbidden);
      }
      if status !in CLIENT_CANCELLABLE {
        return Err(InvalidTransition(status, CLIENT_CANCELLABLE));
      }
      r := TransitionStatus(Cancelled, clientId, Client, false, now);
    }

    /** The part of a claim that runs once the row lock is held. */
    method ClaimLocked(agentId: string, now: int) returns (r: Result<(), CaseError>)
      modifies this
      ensures var spec := Claimed(old(View()), agentId, now);
              View() == OrSame(old(View()), spec) && (r.Ok? <==> spec.Ok?) && (r.Err? ==> r.error == spec.error)
    {
      if agent.Some? {
        return Err(AlreadyAssigned);
      }
      if status != Received {
        return Err(NotFound);
      }
      DoAssign(agentId, agentId, StaffAgent, now);
      return Ok(());
    }
  }
}
