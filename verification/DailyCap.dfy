/** The daily cap of an agent, for requests one at a time. */
module DailyCap {
  import opened Wrappers
  import opened Lifecycle
  import opened Scoring
  import opened Assignments

  // ---- How the day's count moves ----

  lemma {:induction false} TallyUpdate(cases: seq<Case>, i: nat, c: Case, f: Case -> nat)
    requires i < |cases|
    ensures Tally(cases[i := c], f) + f(cases[i]) == Tally(cases, f) + f(c)
  {
    var front := cases[..|cases| - 1];
    if i < |front| {
      TallyUpdate(front, i, c, f);
      assert cases[i := c][..|cases| - 1] == front[i := c];
    } else {
      assert cases[i := c][..|cases| - 1] == front;
    }
  }

  lemma CountOneMore(log: seq<AssignEntry>, e: AssignEntry, a: string, since: int)
    ensures CountSince(log + [e], a, since)
         == CountSince(log, a, since) + (if e.agent == a && e.at >= since then 1 else 0)
  {
    assert (log + [e])[..|log|] == log;
  }

  /** An assignment adds one to the day's count of the agent that gets the case, and to no other. */
  lemma AssignmentCounts(cases: seq<Case>, i: nat, w: string, actor: string, role: Role, now: int, a: string)
    requires i < |cases|
    ensures DailyCount(cases[i := Assigned(cases[i], w, actor, role, now)], a, now) ==
            DailyCount(cases, a, now) + (if a == w then 1 else 0)
  {
    var c := cases[i];
    TallyUpdate(cases, i, Assigned(c, w, actor, role, now), AssignedSince(a, DayStart(now)));
    CountOneMore(c.assignLog, AssignEntry(c.agent, w, actor, role, now), a, DayStart(now));
  }

  lemma {:induction false} CountFalls(log: seq<AssignEntry>, a: string, since: int, later: int)
    requires since <= later
    ensures CountSince(log, a, later) <= CountSince(log, a, since)
  {
    if log != [] {
      CountFalls(log[..|log| - 1], a, since, later);
    }
  }

  lemma {:induction false} DailyCountFalls(cases: seq<Case>, a: string, now: int, later: int)
    requires now <= later
    ensures DailyCount(cases, a, later) <= DailyCount(cases, a, now)
  {
    if cases != [] {
      DailyCountFalls(cases[..|cases| - 1], a, now, later);
      CountFalls(cases[|cases| - 1].assignLog, a, DayStart(now), DayStart(later));
    }
  }

  /** Whoever closes an open case, in whatever way, frees its agent of exactly that one case. */
  lemma ClosingFreesItsAgent(cases: seq<Case>, i: nat, e: Lifecycle.Event, now: int, a: string)
    requires i < |cases| && cases[i].status !in {Completed, Rejected, Cancelled}
    requires Lifecycle.After(cases[i], e, now).status in {Completed, Rejected, Cancelled}
    ensures var after := cases[i := Lifecycle.After(cases[i], e, now)];
            after[i].agent == cases[i].agent &&
            |OpenCases(after, a)| == |OpenCases(cases, a)| - (if cases[i].agent == Some(a) then 1 else 0)
  {
    var next := Lifecycle.After(cases[i], e, now);
    TallyUpdate(cases, i, next, ActiveFor(a));
    ActiveCountIsExact(cases, a);
    ActiveCountIsExact(cases[i := next], a);
  }

  // ---- One request at a time ----

  datatype Event =
    | Submit(client: string, category: string, tier: string, slaDeadline: int)
    | AdminAssign(i: nat, user: Option<User>, admin: string)
    | Claim(i: nat, agent: string)
    | Job(i: nat, users: seq<User>, skills: SkillTable)
    | Rerun(i: nat, users: seq<User>, skills: SkillTable)
    | Change(i: nat, event: Lifecycle.Event)

  function OrSameDesk(d: Desk, r: Result<Desk, DeskError>): Desk {
    if r.Ok? then r.value else d
  }

  function After(d: Desk, e: Event, now: int): Desk {
    match e
    case Submit(client, category, tier, sla) => d.(cases := d.cases + [Submitted(client, category, tier, sla, now)])
    case AdminAssign(i, user, admin) => OrSameDesk(d, AdminAssigned(d, i, user, admin, now))
    case Claim(i, a) => OrSameDesk(d, ClaimGranted(d, i, a, now))
    case Job(i, users, skills) => JobRan(d, i, users, skills, now)
    case Rerun(i, users, skills) => OrSameDesk(d, RerunByAdmin(d, i, users, skills, now))
    case Change(i, e) =>
      if i >= |d.cases| || Assigns(e) then d else d.(cases := d.cases[i := Lifecycle.After(d.cases[i], e, now)])
  }

  predicate Assigning(e: Event) {
    e.AdminAssign? || e.Claim? || e.Job? || e.Rerun?
  }

  /** The assignment that an event made. */
  datatype Grant = Grant(i: nat, agent: string, actor: string, role: Role)

  predicate Made(d: Desk, next: Desk, g: Grant, now: int) {
    g.i < |d.cases| && next.cases == d.cases[g.i := Assigned(d.cases[g.i], g.agent, g.actor, g.role, now)]
  }

  lemma GrantRespectsSettings(d: Desk, e: Event, now: int) returns (g: Grant)
    requires Assigning(e) && After(d, e, now) != d
    ensures Made(d, After(d, e, now), g, now)
    ensures SettingsOf(d.settings, g.agent).accepting
    ensures !AtCap(d.cases, SettingsOf(d.settings, g.agent).cap, g.agent, now)
  {
    match e
    case AdminAssign(i, user, admin) => g := Grant(i, user.value.id, admin, StaffAdmin);
    case Claim(i, a) => g := Grant(i, a, a, StaffAgent);
    case Job(i, users, skills) => g := ScheduledGrant(d, i, users, skills, now);
    case Rerun(i, users, skills) => g := ScheduledGrant(d, i, users, skills, now);
  }

  lemma ScheduledGrant(d: Desk, i: nat, users: seq<User>, skills: SkillTable, now: int) returns (g: Grant)
    requires i < |d.cases| && Scheduled(d, i, users, skills, now) != d
    ensures Made(d, Scheduled(d, i, users, skills, now), g, now)
    ensures SettingsOf(d.settings, g.agent).accepting
    ensures !AtCap(d.cases, SettingsOf(d.settings, g.agent).cap, g.agent, now)
  {
    var rows := EligibleRows(d.cases, users, d.settings, now);
    var w := WinnerIsFirstBest(ContextOf(d.cases, d.cases[i], skills, rows, now), rows);
    var k := UserForRow(d.cases, users, d.settings, now, w);
    g := Grant(i, rows[w].id, rows[w].id, System);
  }

  /** Every claim, admin assignment and automatic assignment leaves its agent's count for the day
      at or below the cap in force when it was checked, and no other agent's count changes. */
  lemma AssignedUnderCap(d: Desk, e: Event, now: int) returns (g: Grant)
    requires Assigning(e) && After(d, e, now) != d
    ensures Made(d, After(d, e, now), g, now) && SettingsOf(d.settings, g.agent).accepting
    ensures forall a :: DailyCount(After(d, e, now).cases, a, now) ==
              DailyCount(d.cases, a, now) + (if a == g.agent then 1 else 0)
    ensures var cap := SettingsOf(d.settings, g.agent).cap;
            cap.Some? ==> DailyCount(After(d, e, now).cases, g.agent, now) <= cap.value
  {
    g := GrantRespectsSettings(d, e, now);
    forall a ensures DailyCount(After(d, e, now).cases, a, now) ==
                     DailyCount(d.cases, a, now) + (if a == g.agent then 1 else 0)
    {
      AssignmentCounts(d.cases, g.i, g.agent, g.actor, g.role, now, a);
    }
  }

  lemma SettingsStay(d: Desk, e: Event, now: int, a: string)
    ensures SettingsOf(After(d, e, now).settings, a) == SettingsOf(d.settings, a)
  {
  }

  /** Submissions and status changes assign nobody. */
  lemma OtherEventsCountNothing(d: Desk, e: Event, now: int, a: string)
    requires !Assigning(e)
    ensures DailyCount(After(d, e, now).cases, a, now) == DailyCount(d.cases, a, now)
  {
    var f := AssignedSince(a, DayStart(now));
    match e
    case Submit(client, category, tier, sla) =>
      assert (d.cases + [Submitted(client, category, tier, sla, now)])[..|d.cases|] == d.cases;
    case Change(i, inner) =>
      if i < |d.cases| && !Assigns(inner) {
        TallyUpdate(d.cases, i, Lifecycle.After(d.cases[i], inner, now), f);
      }
  }

  /** The agent accepts cases and has had fewer since midnight than its cap, if it has one. An agent
      without settings accepts everything. */
  predicate HasRoom(d: Desk, a: string, midnight: int) {
    a in d.settings ==>
      d.settings[a].accepting &&
      (d.settings[a].cap.Some? ==> |AssignmentsFrom(d.cases, a, midnight)| < d.settings[a].cap.value)
  }

  lemma AvailableIff(d: Desk, a: string, now: int, midnight: int)
    requires midnight % 86400 == 0 && midnight <= now < midnight + 86400
    ensures Available(d, a, now).Ok? <==> HasRoom(d, a, midnight)
  {
    DailyCountIsExact(d.cases, a, now, midnight);
  }

  /** A claim is granted exactly to an agent with room, for a case in the queue. */
  lemma ClaimGrantedIff(d: Desk, i: nat, a: string, now: int, midnight: int)
    requires midnight % 86400 == 0 && midnight <= now < midnight + 86400
    ensures ClaimGranted(d, i, a, now).Ok? <==>
            HasRoom(d, a, midnight) && i < |d.cases| && d.cases[i].agent.None? && d.cases[i].status == Received
  {
    AvailableIff(d, a, now, midnight);
  }

  /** An admin's assignment is granted exactly to an active agent with room, for any existing case. */
  lemma AdminAssignedIff(d: Desk, i: nat, user: Option<User>, admin: string, now: int, midnight: int)
    requires midnight % 86400 == 0 && midnight <= now < midnight + 86400
    ensures AdminAssigned(d, i, user, admin, now).Ok? <==>
            i < |d.cases| && user.Some? && user.value.isAgent && user.value.isActive &&
            HasRoom(d, user.value.id, midnight)
  {
    if user.Some? {
      AvailableIff(d, user.value.id, now, midnight);
    }
  }

  lemma ScheduledChanges(d: Desk, i: nat, users: seq<User>, skills: SkillTable, now: int)
    requires i < |d.cases|
    ensures Scheduled(d, i, users, skills, now) != d <==>
            Winner(d.cases, d.cases[i], users, d.settings, skills, now).0.Some?
  {
    var next := Scheduled(d, i, users, skills, now);
    if Winner(d.cases, d.cases[i], users, d.settings, skills, now).0.Some? {
      assert |next.cases[i].assignLog| == |d.cases[i].assignLog| + 1;
    }
  }

  predicate SomeoneQualifies(ctx: Context, rows: seq<AgentRow>) {
    exists n :: 0 <= n < |rows| && Score(ctx, rows[n]) >= 15.0
  }

  /** The job assigns exactly an existing case without agent for which some eligible agent scores 15 or
      more; the admin's re-run does so whoever has the case. */
  lemma ScoringAssignsIff(d: Desk, i: nat, users: seq<User>, skills: SkillTable, now: int)
    ensures var rows := EligibleRows(d.cases, users, d.settings, now);
            var found := i < |d.cases| && SomeoneQualifies(ContextOf(d.cases, d.cases[i], skills, rows, now), rows);
            (JobRan(d, i, users, skills, now) != d <==> found && d.cases[i].agent.None?) &&
            (OrSameDesk(d, RerunByAdmin(d, i, users, skills, now)) != d <==> found)
  {
    if i < |d.cases| {
      var rows := EligibleRows(d.cases, users, d.settings, now);
      NoWinnerIff(ContextOf(d.cases, d.cases[i], skills, rows, now), rows);
      ScheduledChanges(d, i, users, skills, now);
    }
  }

  ghost predicate WithinCaps(d: Desk, now: int) {
    forall a :: DailyCount(d.cases, a, now) <= CapOf(d, a) || SettingsOf(d.settings, a).cap.None?
  }

  function CapOf(d: Desk, a: string): nat {
    var cap := SettingsOf(d.settings, a).cap;
    if cap.Some? && cap.value > 0 then cap.value else 0
  }

  lemma EventKeepsCaps(d: Desk, e: Event, clock: int, now: int)
    requires WithinCaps(d, clock) && clock <= now
    ensures WithinCaps(After(d, e, now), now)
  {
    var next := After(d, e, now);
    forall a ensures DailyCount(d.cases, a, now) <= CapOf(d, a) || SettingsOf(d.settings, a).cap.None? {
      DailyCountFalls(d.cases, a, clock, now);
    }
    if Assigning(e) && next != d {
      var g := AssignedUnderCap(d, e, now);
    }
    forall a ensures DailyCount(next.cases, a, now) <= CapOf(next, a) || SettingsOf(next.settings, a).cap.None? {
      SettingsStay(d, e, now, a);
      if !Assigning(e) {
        OtherEventsCountNothing(d, e, now, a);
      }
    }
  }

  datatype Timed = Timed(at: int, event: Event)

  predicate Ordered(run: seq<Timed>, clock: int)
    decreases |run|
  {
    run == [] || (clock <= run[0].at && Ordered(run[1..], run[0].at))
  }

  function Run(d: Desk, run: seq<Timed>): Desk
    decreases |run|
  {
    if run == [] then d else Run(After(d, run[0].event, run[0].at), run[1..])
  }

  function EndOf(run: seq<Timed>, clock: int): int {
    if run == [] then clock else run[|run| - 1].at
  }

  /** With settings left alone, no agent's count for the day passes the cap in any serial run,
      across midnights. */
  lemma {:induction false} CapsHoldInEveryRun(d: Desk, run: seq<Timed>, clock: int)
    requires WithinCaps(d, clock) && Ordered(run, clock)
    ensures WithinCaps(Run(d, run), EndOf(run, clock))
    decreases |run|
  {
    if run != [] {
      EventKeepsCaps(d, run[0].event, clock, run[0].at);
      CapsHoldInEveryRun(After(d, run[0].event, run[0].at), run[1..], run[0].at);
    }
  }
}
