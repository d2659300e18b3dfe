/** All cases together: the counts that scheduling reads off the logs, and the requests that assign. */
module Assignments {
  import opened Wrappers
  import opened Lifecycle
  import opened Scoring

  const DAY := 86400
  const SLA_WINDOW := 30 * DAY

  function DayStart(now: int): int {
    now - now % DAY
  }

  // ---- Queries over the case and assignment tables ----

  function Tally(cases: seq<Case>, f: Case -> nat): nat {
    if cases == [] then 0 else Tally(cases[..|cases| - 1], f) + f(cases[|cases| - 1])
  }

  function ActiveFor(a: string): Case -> nat {
    (c: Case) => if c.agent == Some(a) && c.status !in TERMINAL_STATUSES then 1 else 0
  }

  function ActiveCount(cases: seq<Case>, a: string): nat {
    Tally(cases, ActiveFor(a))
  }

  /** Assignments of an agent in one log since a moment. */
  function CountSince(log: seq<AssignEntry>, a: string, since: int): nat {
    if log == [] then 0
    else
      var last := log[|log| - 1];
      CountSince(log[..|log| - 1], a, since) + (if last.agent == a && last.at >= since then 1 else 0)
  }

  function AssignedSince(a: string, since: int): Case -> nat {
    (c: Case) => CountSince(c.assignLog, a, since)
  }

  function DailyCount(cases: seq<Case>, a: string, now: int): nat {
    Tally(cases, AssignedSince(a, DayStart(now)))
  }

  function Later(x: Option<int>, y: Option<int>): Option<int> {
    if Older(x, y) then y else x
  }

  function LatestIn(log: seq<AssignEntry>, a: string): Option<int> {
    if log == [] then None
    else
      var last := log[|log| - 1];
      Later(LatestIn(log[..|log| - 1], a), if last.agent == a then Some(last.at) else None)
  }

  function LastAssigned(cases: seq<Case>, a: string): Option<int> {
    if cases == [] then None
    else Later(LastAssigned(cases[..|cases| - 1], a), LatestIn(cases[|cases| - 1].assignLog, a))
  }

  /** A finished case counts in the SLA rate of its agent for 30 days. */
  predicate Rateable(c: Case, a: string, now: int) {
    c.agent == Some(a) && c.status in {Completed, Rejected} && c.completedAt.Some? &&
    c.completedAt.value >= now - SLA_WINDOW
  }

  function Finished(a: string, now: int): Case -> nat {
    (c: Case) => if Rateable(c, a, now) then 1 else 0
  }

  function FinishedInTime(a: string, now: int): Case -> nat {
    (c: Case) =>
      if Rateable(c, a, now) && c.slaDeadline.Some? && c.completedAt.value <= c.slaDeadline.value then 1 else 0
  }

  function SlaCompliance(cases: seq<Case>, a: string, now: int): Option<real> {
    var total := Tally(cases, Finished(a, now));
    if total == 0 then None else Some(Tally(cases, FinishedInTime(a, now)) as real / total as real * 100.0)
  }

  lemma {:induction false} InTimeWithinFinished(cases: seq<Case>, a: string, now: int)
    ensures Tally(cases, FinishedInTime(a, now)) <= Tally(cases, Finished(a, now))
  {
    if cases != [] {
      InTimeWithinFinished(cases[..|cases| - 1], a, now);
    }
  }

  lemma FractionRange(t: real, n: real)
    requires 0.0 <= t <= n && n > 0.0
    ensures 0.0 <= t / n <= 1.0
  {
    assert t / n * n == t;
  }

  /** The query's rates are percentages. */
  lemma SlaComplianceRange(cases: seq<Case>, a: string, now: int)
    ensures var r := SlaCompliance(cases, a, now); r.Some? ==> 0.0 <= r.value <= 100.0
  {
    InTimeWithinFinished(cases, a, now);
    var t, n := Tally(cases, FinishedInTime(a, now)), Tally(cases, Finished(a, now));
    if n > 0 {
      FractionRange(t as real, n as real);
    }
  }

  // ---- The counts, read off the tables ----

  /** The cases of an agent that are not closed. */
  function OpenCases(cases: seq<Case>, a: string): set<nat> {
    set i: nat | i < |cases| && cases[i].agent == Some(a) && cases[i].status !in {Completed, Rejected, Cancelled}
  }

  /** The assignments to an agent that are stamped at `since` or later, by case and place in its log. */
  function AssignmentsFrom(cases: seq<Case>, a: string, since: int): set<(nat, nat)> {
    set i: nat, j: nat |
      i < |cases| && j < |cases[i].assignLog| && cases[i].assignLog[j].agent == a &&
      cases[i].assignLog[j].at >= since :: (i, j)
  }

  /** An agent's cases that were completed or rejected, with a completion time in the last 30 days. */
  function RecentlyFinished(cases: seq<Case>, a: string, now: int): set<nat> {
    set i: nat | i < |cases| && cases[i].agent == Some(a) && cases[i].status in {Completed, Rejected} &&
                 cases[i].completedAt.Some? && cases[i].completedAt.value >= now - 2592000
  }

  /** Those of them that were completed by their deadline. */
  function OnTime(cases: seq<Case>, a: string, now: int): set<nat> {
    set i | i in RecentlyFinished(cases, a, now) && cases[i].slaDeadline.Some? &&
            cases[i].completedAt.value <= cases[i].slaDeadline.value
  }

  /** The cases that a 0-1 tally counts. */
  function Chosen(cases: seq<Case>, f: Case -> nat): set<nat> {
    set i: nat | i < |cases| && f(cases[i]) == 1
  }

  lemma ChosenGrows(front: seq<Case>, c: Case, f: Case -> nat)
    ensures Chosen(front + [c], f) == Chosen(front, f) + (if f(c) == 1 then {|front|} else {})
    ensures |front| !in Chosen(front, f)
  {
    var all := front + [c];
    assert forall i :: 0 <= i < |front| ==> all[i] == front[i];
  }

  lemma {:induction false} TallyCountsChosen(cases: seq<Case>, f: Case -> nat)
    requires forall c :: f(c) <= 1
    ensures Tally(cases, f) == |Chosen(cases, f)|
  {
    if cases != [] {
      var front, c := cases[..|cases| - 1], cases[|cases| - 1];
      TallyCountsChosen(front, f);
      ChosenGrows(front, c, f);
      assert front + [c] == cases;
    }
  }

  lemma ActiveCountIsExact(cases: seq<Case>, a: string)
    ensures ActiveCount(cases, a) == |OpenCases(cases, a)|
  {
    TallyCountsChosen(cases, ActiveFor(a));
    assert Chosen(cases, ActiveFor(a)) == OpenCases(cases, a);
  }

  /** The assignments of one case's log. */
  function LogFrom(i: nat, log: seq<AssignEntry>, a: string, since: int): set<(nat, nat)> {
    set j: nat | j < |log| && log[j].agent == a && log[j].at >= since :: (i, j)
  }

  lemma LogFromGrows(i: nat, log: seq<AssignEntry>, e: AssignEntry, a: string, since: int)
    ensures LogFrom(i, log + [e], a, since)
         == LogFrom(i, log, a, since) + (if e.agent == a && e.at >= since then {(i, |log|)} else {})
    ensures (i, |log|) !in LogFrom(i, log, a, since)
  {
    var grown := log + [e];
    assert forall j :: 0 <= j < |log| ==> grown[j] == log[j];
    forall x ensures x in LogFrom(i, grown, a, since) <==>
                     x in LogFrom(i, log, a, since) || (e.agent == a && e.at >= since && x == (i, |log|))
    {
    }
  }

  lemma {:induction false} CountSinceIsExact(i: nat, log: seq<AssignEntry>, a: string, since: int)
    ensures CountSince(log, a, since) == |LogFrom(i, log, a, since)|
  {
    if log == [] {
      assert LogFrom(i, log, a, since) == {};
    } else {
      var front, last := log[..|log| - 1], log[|log| - 1];
      CountSinceIsExact(i, front, a, since);
      LogFromGrows(i, front, last, a, since);
      assert front + [last] == log;
    }
  }

  lemma AssignmentsGrow(front: seq<Case>, c: Case, a: string, since: int)
    ensures AssignmentsFrom(front + [c], a, since)
         == AssignmentsFrom(front, a, since) + LogFrom(|front|, c.assignLog, a, since)
    ensures AssignmentsFrom(front, a, since) !! LogFrom(|front|, c.assignLog, a, since)
  {
    var all := front + [c];
    assert forall i :: 0 <= i < |front| ==> all[i] == front[i];
  }

  lemma DisjointSizes<T>(x: set<T>, y: set<T>, union: set<T>)
    requires x !! y && union == x + y
    ensures |union| == |x| + |y|
  {
  }

  lemma {:induction false} AssignmentsAreCounted(cases: seq<Case>, a: string, since: int)
    ensures Tally(cases, AssignedSince(a, since)) == |AssignmentsFrom(cases, a, since)|
  {
    if cases == [] {
      assert AssignmentsFrom(cases, a, since) == {};
    } else {
      var front, c := cases[..|cases| - 1], cases[|cases| - 1];
      assert front + [c] == cases;
      AssignmentsAreCounted(front, a, since);
      CountSinceIsExact(|front|, c.assignLog, a, since);
      AssignmentsGrow(front, c, a, since);
      DisjointSizes(AssignmentsFrom(front, a, since), LogFrom(|front|, c.assignLog, a, since),
                    AssignmentsFrom(cases, a, since));
    }
  }

  /** A day begins at midnight. */
  lemma DayStartIsMidnight(now: int)
    ensures DayStart(now) % 86400 == 0 && DayStart(now) <= now < DayStart(now) + 86400
  {
  }

  /** The count for the day is that of the assignments since the last midnight. */
  lemma DailyCountIsExact(cases: seq<Case>, a: string, now: int, midnight: int)
    requires midnight % 86400 == 0 && midnight <= now < midnight + 86400
    ensures DailyCount(cases, a, now) == |AssignmentsFrom(cases, a, midnight)|
  {
    assert midnight == DayStart(now);
    AssignmentsAreCounted(cases, a, midnight);
  }

  /** The last assignment is the time of an entry for the agent than which none is later, and absent
      if there is no entry. */
  predicate IsLastAssignment(cases: seq<Case>, a: string, last: Option<int>) {
    (last.Some? ==>
       exists i, j :: 0 <= i < |cases| && 0 <= j < |cases[i].assignLog| && cases[i].assignLog[j].agent == a &&
                      cases[i].assignLog[j].at == last.value) &&
    (forall i, j :: 0 <= i < |cases| && 0 <= j < |cases[i].assignLog| && cases[i].assignLog[j].agent == a ==>
       last.Some? && cases[i].assignLog[j].at <= last.value)
  }

  lemma {:induction false} LatestInIsExact(log: seq<AssignEntry>, a: string)
    ensures var last := LatestIn(log, a);
            (last.Some? ==> exists j :: 0 <= j < |log| && log[j].agent == a && log[j].at == last.value) &&
            (forall j :: 0 <= j < |log| && log[j].agent == a ==> last.Some? && log[j].at <= last.value)
  {
    if log != [] {
      LatestInIsExact(log[..|log| - 1], a);
      assert forall j :: 0 <= j < |log| - 1 ==> log[..|log| - 1][j] == log[j];
    }
  }

  lemma {:induction false} LastAssignedIsExact(cases: seq<Case>, a: string)
    ensures IsLastAssignment(cases, a, LastAssigned(cases, a))
  {
    if cases != [] {
      var n := |cases| - 1;
      var front := cases[..n];
      LastAssignedIsExact(front, a);
      LatestInIsExact(cases[n].assignLog, a);
      var before, latest := LastAssigned(front, a), LatestIn(cases[n].assignLog, a);
      if before.Some? && !Older(before, latest) {
        var i, j :| 0 <= i < |front| && 0 <= j < |front[i].assignLog| && front[i].assignLog[j].agent == a &&
                    front[i].assignLog[j].at == before.value;
        assert cases[i].assignLog[j].at == before.value;
      } else if latest.Some? {
        var j :| 0 <= j < |cases[n].assignLog| && cases[n].assignLog[j].agent == a &&
                 cases[n].assignLog[j].at == latest.value;
      }
      forall i, j | 0 <= i < |cases| && 0 <= j < |cases[i].assignLog| && cases[i].assignLog[j].agent == a
        ensures LastAssigned(cases, a).Some? && cases[i].assignLog[j].at <= LastAssigned(cases, a).value
      {
        if i < n {
          assert front[i].assignLog[j].agent == a;
        }
      }
    }
  }

  lemma FinishedAreCounted(cases: seq<Case>, a: string, now: int)
    ensures Tally(cases, Finished(a, now)) == |RecentlyFinished(cases, a, now)|
  {
    TallyCountsChosen(cases, Finished(a, now));
    assert Chosen(cases, Finished(a, now)) == RecentlyFinished(cases, a, now);
  }

  lemma OnTimeAreCounted(cases: seq<Case>, a: string, now: int)
    ensures Tally(cases, FinishedInTime(a, now)) == |OnTime(cases, a, now)|
  {
    TallyCountsChosen(cases, FinishedInTime(a, now));
    assert Chosen(cases, FinishedInTime(a, now)) == OnTime(cases, a, now);
  }

  /** An agent's SLA rate is the percentage of its recently finished cases that were on time. */
  lemma SlaComplianceIsExact(cases: seq<Case>, a: string, now: int)
    ensures var r, finished := SlaCompliance(cases, a, now), RecentlyFinished(cases, a, now);
            (r.Some? <==> finished != {}) &&
            (r.Some? ==> r.value * |finished| as real == 100.0 * |OnTime(cases, a, now)| as real)
  {
    FinishedAreCounted(cases, a, now);
    OnTimeAreCounted(cases, a, now);
    var t, n := |OnTime(cases, a, now)| as real, |RecentlyFinished(cases, a, now)| as real;
    if n > 0.0 {
      assert t / n * n == t;
      assert (t / n * 100.0) * n == 100.0 * (t / n * n);
    }
  }

  // ---- Eligibility and scoring ----

  datatype Settings = Settings(accepting: bool, cap: Option<int>)

  const DEFAULT_SETTINGS := Settings(true, None)

  datatype User = User(id: string, isAgent: bool, isActive: bool, recentSession: bool)

  type SettingsTable = map<string, Settings>
  type SkillTable = map<string, seq<Skill>>

  function SettingsOf(settings: SettingsTable, a: string): Settings {
    if a in settings then settings[a] else DEFAULT_SETTINGS
  }

  predicate Qualifies(u: User, settings: SettingsTable) {
    u.isAgent && u.isActive && u.recentSession && u.id in settings && settings[u.id].accepting
  }

  predicate AtCap(cases: seq<Case>, cap: Option<int>, a: string, now: int) {
    cap.Some? && DailyCount(cases, a, now) >= cap.value
  }

  predicate MayTakeCases(cases: seq<Case>, u: User, settings: SettingsTable, now: int) {
    Qualifies(u, settings) && !AtCap(cases, settings[u.id].cap, u.id, now)
  }

  function RowOf(cases: seq<Case>, settings: SettingsTable, a: string): AgentRow {
    AgentRow(a, SettingsOf(settings, a).cap, ActiveCount(cases, a), LastAssigned(cases, a))
  }

  /** The eligible agents, in the order in which the database happens to list the users. */
  function EligibleRows(cases: seq<Case>, users: seq<User>, settings: SettingsTable, now: int): seq<AgentRow> {
    if users == [] then []
    else
      var u := users[|users| - 1];
      EligibleRows(cases, users[..|users| - 1], settings, now) +
      (if MayTakeCases(cases, u, settings, now) then [RowOf(cases, settings, u.id)] else [])
  }

  predicate Eligible(cases: seq<Case>, users: seq<User>, settings: SettingsTable, now: int, a: string) {
    exists k :: 0 <= k < |users| && users[k].id == a && MayTakeCases(cases, users[k], settings, now)
  }

  lemma {:induction false} RowForUser(cases: seq<Case>, users: seq<User>, settings: SettingsTable, now: int, k: nat)
    returns (i: nat)
    requires k < |users| && MayTakeCases(cases, users[k], settings, now)
    ensures var rows := EligibleRows(cases, users, settings, now);
            i < |rows| && rows[i] == RowOf(cases, settings, users[k].id)
  {
    var front := users[..|users| - 1];
    if k < |front| {
      i := RowForUser(cases, front, settings, now, k);
    } else {
      i := |EligibleRows(cases, front, settings, now)|;
    }
  }

  lemma {:induction false} UserForRow(cases: seq<Case>, users: seq<User>, settings: SettingsTable, now: int, i: nat)
    returns (k: nat)
    requires i < |EligibleRows(cases, users, settings, now)|
    ensures k < |users| && MayTakeCases(cases, users[k], settings, now)
    ensures EligibleRows(cases, users, settings, now)[i] == RowOf(cases, settings, users[k].id)
  {
    var front := users[..|users| - 1];
    if i < |EligibleRows(cases, front, settings, now)| {
      k := UserForRow(cases, front, settings, now, i);
    } else {
      k := |users| - 1;
    }
  }

  /** The account may be given a case: an active agent's, with a session of late, that accepts cases
      and has had fewer since midnight than its cap. */
  predicate MayBeGiven(cases: seq<Case>, u: User, settings: SettingsTable, midnight: int) {
    u.isAgent && u.isActive && u.recentSession && u.id in settings && settings[u.id].accepting &&
    (settings[u.id].cap.Some? ==> |AssignmentsFrom(cases, u.id, midnight)| < settings[u.id].cap.value)
  }

  /** The query returns a row for exactly the accounts that may be given a case, with the agent's cap,
      the number of its open cases and the time of its last assignment. */
  lemma EligibleRowsAreExact(
      cases: seq<Case>, users: seq<User>, settings: SettingsTable, now: int, midnight: int, row: AgentRow)
    requires midnight % 86400 == 0 && midnight <= now < midnight + 86400
    ensures row in EligibleRows(cases, users, settings, now) <==>
            (exists k :: 0 <= k < |users| && users[k].id == row.id &&
                         MayBeGiven(cases, users[k], settings, midnight)) &&
            row.cap == settings[row.id].cap && row.active == |OpenCases(cases, row.id)| &&
            IsLastAssignment(cases, row.id, row.lastAssigned)
  {
    var rows := EligibleRows(cases, users, settings, now);
    forall u: User ensures MayBeGiven(cases, u, settings, midnight) <==> MayTakeCases(cases, u, settings, now) {
      DailyCountIsExact(cases, u.id, now, midnight);
    }
    ActiveCountIsExact(cases, row.id);
    LastAssignedIsExact(cases, row.id);
    if row in rows {
      var i: nat :| i < |rows| && rows[i] == row;
      var k := UserForRow(cases, users, settings, now, i);
      assert users[k].id == row.id;
    }
    if k: nat :| k < |users| && users[k].id == row.id && MayBeGiven(cases, users[k], settings, midnight) {
      var i := RowForUser(cases, users, settings, now, k);
      if row.cap == settings[row.id].cap && row.active == |OpenCases(cases, row.id)| &&
         IsLastAssignment(cases, row.id, row.lastAssigned)
      {
        LastAssignmentIsUnique(cases, row.id, row.lastAssigned, LastAssigned(cases, row.id));
        assert rows[i] == row;
      }
    }
  }

  lemma LastAssignmentIsUnique(cases: seq<Case>, a: string, x: Option<int>, y: Option<int>)
    requires IsLastAssignment(cases, a, x) && IsLastAssignment(cases, a, y)
    ensures x == y
  {
  }

  method FetchEligibleAgents(cases: seq<Case>, users: seq<User>, settings: SettingsTable, now: int)
    returns (result: seq<AgentRow>)
    ensures result == EligibleRows(cases, users, settings, now)
  {
    result := [];
    for k := 0 to |users|
      invariant result == EligibleRows(cases, users[..k], settings, now)
    {
      var u := users[k];
      assert users[..k + 1][..k] == users[..k];
      if Qualifies(u, settings) {
        var cap, daily := settings[u.id].cap, DailyCount(cases, u.id, now);
        if cap.Some? && daily >= cap.value {
          continue;
        }
        result := result + [AgentRow(u.id, cap, ActiveCount(cases, u.id), LastAssigned(cases, u.id))];
      }
    }
    assert users[..|users|] == users;
  }

  function IdsOf(rows: seq<AgentRow>): set<string> {
    set i | 0 <= i < |rows| :: rows[i].id
  }

  function SlaRates(cases: seq<Case>, rows: seq<AgentRow>, now: int): map<string, real> {
    map a | a in IdsOf(rows) && SlaCompliance(cases, a, now).Some? :: SlaCompliance(cases, a, now).value
  }

  function ContextOf(cases: seq<Case>, c: Case, skills: SkillTable, rows: seq<AgentRow>, now: int): Context {
    Context(c.category, c.tier, skills, SlaRates(cases, rows, now))
  }

  /** Scoring of a case against the database as it is. */
  function Winner(cases: seq<Case>, c: Case, users: seq<User>, settings: SettingsTable, skills: SkillTable, now: int)
    : (Option<string>, real)
  {
    var rows := EligibleRows(cases, users, settings, now);
    Choose(Scores(ContextOf(cases, c, skills, rows, now), rows))
  }

  predicate SkillsRated(skills: SkillTable) {
    forall a :: a in skills ==> forall i :: 0 <= i < |skills[a]| ==> 1 <= skills[a][i].level <= 5
  }

  lemma EligibleRowsAreCapped(cases: seq<Case>, users: seq<User>, settings: SettingsTable, now: int)
    ensures Capped(EligibleRows(cases, users, settings, now))
  {
    var rows := EligibleRows(cases, users, settings, now);
    forall i | 0 <= i < |rows| ensures rows[i].cap.Some? ==> rows[i].cap.value >= 1 {
      var k := UserForRow(cases, users, settings, now, i);
    }
  }

  /** On real data: scoring finds nobody for a case off the urgent tier exactly when nobody is
      eligible, and the score it then reports tells the two reasons apart. */
  lemma NobodyMeansNobodyEligible(
      cases: seq<Case>, c: Case, users: seq<User>, settings: SettingsTable, skills: SkillTable, now: int)
    requires SkillsRated(skills)
    ensures var (winner, score) := Winner(cases, c, users, settings, skills, now);
            (score == 0.0 <==> forall a :: !Eligible(cases, users, settings, now, a)) &&
            (c.tier != "urgent" ==> (winner.None? <==> forall a :: !Eligible(cases, users, settings, now, a)))
  {
    var rows := EligibleRows(cases, users, settings, now);
    var ctx := ContextOf(cases, c, skills, rows, now);
    EligibleRowsAreCapped(cases, users, settings, now);
    forall a | a in ctx.slaRates ensures 0.0 <= ctx.slaRates[a] <= 100.0 {
      SlaComplianceRange(cases, a, now);
    }
    if rows != [] {
      var k := UserForRow(cases, users, settings, now, 0);
      assert Eligible(cases, users, settings, now, users[k].id);
      ChosenScoreRange(ctx, rows);
    } else {
      forall a ensures !Eligible(cases, users, settings, now, a) {
        if k: nat :| k < |users| && users[k].id == a && MayTakeCases(cases, users[k], settings, now) {
          var i := RowForUser(cases, users, settings, now, k);
        }
      }
    }
  }

  // ---- Assigning, one request at a time ----

  datatype DeskError =
    | CaseMissing
    | AgentMissing
    | AgentNotAvailable
    | DailyCapExceeded(cap: int)
    | Refused(reason: CaseError)

  datatype Desk = Desk(cases: seq<Case>, settings: SettingsTable)

  function Available(d: Desk, a: string, now: int): Result<(), DeskError> {
    var s := SettingsOf(d.settings, a);
    if !s.accepting then Err(AgentNotAvailable)
    else if AtCap(d.cases, s.cap, a, now) then Err(DailyCapExceeded(s.cap.value))
    else Ok(())
  }

  /** The validation leaves a settings row behind for an agent that had none. */
  function Given(d: Desk, i: nat, c: Case, a: string): Desk
    requires i < |d.cases|
  {
    Desk(d.cases[i := c], d.settings[a := SettingsOf(d.settings, a)])
  }

  /** `user` is the account behind the requested agent id, if there is one. */
  function AdminAssigned(d: Desk, i: nat, user: Option<User>, admin: string, now: int): Result<Desk, DeskError> {
    if i >= |d.cases| then Err(CaseMissing)
    else if user.None? || !user.value.isAgent || !user.value.isActive then Err(AgentMissing)
    else if Available(d, user.value.id, now).Err? then Err(Available(d, user.value.id, now).error)
    else Ok(Given(d, i, Assigned(d.cases[i], user.value.id, admin, StaffAdmin, now), user.value.id))
  }

  /** The claim of a case that nobody else has locked; a missing case reads as taken. */
  function ClaimGranted(d: Desk, i: nat, a: string, now: int): Result<Desk, DeskError> {
    if Available(d, a, now).Err? then Err(Available(d, a, now).error)
    else if i >= |d.cases| then Err(Refused(AlreadyAssigned))
    else
      var r := Claimed(d.cases[i], a, now);
      if r.Err? then Err(Refused(r.error)) else Ok(Given(d, i, r.value, a))
  }

  function Scheduled(d: Desk, i: nat, users: seq<User>, skills: SkillTable, now: int): Desk
    requires i < |d.cases|
  {
    var winner := Winner(d.cases, d.cases[i], users, d.settings, skills, now).0;
    if winner.None? then d
    else d.(cases := d.cases[i := Assigned(d.cases[i], winner.value, winner.value, System, now)])
  }

  /** The background job leaves a missing or already assigned case alone. */
  function JobRan(d: Desk, i: nat, users: seq<User>, skills: SkillTable, now: int): Desk {
    if i >= |d.cases| || d.cases[i].agent.Some? then d else Scheduled(d, i, users, skills, now)
  }

  /** The admin's re-run does not look whether the case has an agent. */
  function RerunByAdmin(d: Desk, i: nat, users: seq<User>, skills: SkillTable, now: int): Result<Desk, DeskError> {
    if i >= |d.cases| then Err(CaseMissing) else Ok(Scheduled(d, i, users, skills, now))
  }

  class AssignmentsService {
    var cases: seq<Case>
    var settings: SettingsTable

    function View(): Desk
      reads this
    {
      Desk(cases, settings)
    }

    constructor ()
      ensures View() == Desk([], map[])
    {
      cases, settings := [], map[];
    }

    method ValidateAgentAvailable(a: string, now: int) returns (r: Result<(), DeskError>)
      ensures r == Available(View(), a, now)
    {
      var s := if a in settings then settings[a] else DEFAULT_SETTINGS;
      if !s.accepting {
        return Err(AgentNotAvailable);
      }
      if s.cap.Some? {
        var count := DailyCount(cases, a, now);
        if count >= s.cap.value {
          return Err(DailyCapExceeded(s.cap.value));
        }
      }
      return Ok(());
    }

    method AssignByAdmin(i: nat, user: Option<User>, admin: string, now: int) returns (r: Result<(), DeskError>)
      modifies this
      ensures var spec := AdminAssigned(old(View()), i, user, admin, now);
              if spec.Ok? then r == Ok(()) && View() == spec.value else r == Err(spec.error) && View() == old(View())
    {
      if i >= |cases| {
        return Err(CaseMissing);
      }
      if user.None? || !user.value.isAgent || !user.value.isActive {
        return Err(AgentMissing);
      }
      var a := user.value.id;
      r := ValidateAgentAvailable(a, now);
      if r.Ok? {
        settings := settings[a := SettingsOf(settings, a)];
        cases := cases[i := Assigned(cases[i], a, admin, StaffAdmin, now)];
      }
    }

    method ClaimUnassigned(i: nat, a: string, now: int) returns (r: Result<(), DeskError>)
      modifies this
      ensures var spec := ClaimGranted(old(View()), i, a, now);
              if spec.Ok? then r == Ok(()) && View() == spec.value else r == Err(spec.error) && View() == old(View())
    {
      r := ValidateAgentAvailable(a, now);
      if r.Err? {
        return;
      }
      if i >= |cases| || cases[i].agent.Some? {
        return Err(Refused(AlreadyAssigned));
      }
      if cases[i].status != Received {
        return Err(Refused(NotFound));
      }
      settings := settings[a := SettingsOf(settings, a)];
      cases := cases[i := Assigned(cases[i], a, a, StaffAgent, now)];
    }

    method AutoAssignApplicationJob(i: nat, users: seq<User>, skills: SkillTable, now: int)
      modifies this`cases
      ensures View() == JobRan(old(View()), i, users, skills, now)
    {
      if i >= |cases| || cases[i].agent.Some? {
        return;
      }
      var rows := FetchEligibleAgents(cases, users, settings, now);
      var winner, score := ScoreAgents(ContextOf(cases, cases[i], skills, rows, now), rows);
      if winner.Some? {
        cases := cases[i := Assigned(cases[i], winner.value, winner.value, System, now)];
      }
    }

    method AutoAssignByAdmin(i: nat, users: seq<User>, skills: SkillTable, now: int)
      returns (r: Result<bool, DeskError>)
      modifies this`cases
      ensures var spec := RerunByAdmin(old(View()), i, users, skills, now);
              if spec.Ok? then View() == spec.value && r == Ok(View() != old(View()))
              else r == Err(spec.error) && View() == old(View())
    {
      if i >= |cases| {
        return Err(CaseMissing);
      }
      var rows := FetchEligibleAgents(cases, users, settings, now);
      var winner, score := ScoreAgents(ContextOf(cases, cases[i], skills, rows, now), rows);
      if winner.None? {
        return Ok(false);
      }
      var given := Assigned(cases[i], winner.value, winner.value, System, now);
      assert |given.assignLog| == |cases[i].assignLog| + 1;
      cases := cases[i := given];
      return Ok(true);
    }
  }
}
