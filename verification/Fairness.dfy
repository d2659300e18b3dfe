/** Auto-assignment over a day: equal agents end up with equally many cases. */
module Fairness {
  import opened Wrappers
  import opened Lifecycle
  import opened Scoring
  import opened Assignments

  /** A freshly submitted case, and the users, settings and skills as its job finds them. */
  datatype Arrival = Arrival(
    at: int, client: string, category: string, tier: string, slaDeadline: int,
    users: seq<User>, settings: SettingsTable, skills: SkillTable)

  function Fresh(r: Arrival): Case {
    Submitted(r.client, r.category, r.tier, r.slaDeadline, r.at)
  }

  /** The table after the case was submitted and its auto-assignment job ran. */
  function Served(cases: seq<Case>, r: Arrival): seq<Case> {
    JobRan(Desk(cases + [Fresh(r)], r.settings), |cases|, r.users, r.skills, r.at).cases
  }

  function ServedAll(cases: seq<Case>, arrivals: seq<Arrival>): seq<Case>
    decreases |arrivals|
  {
    if arrivals == [] then cases else ServedAll(Served(cases, arrivals[0]), arrivals[1..])
  }

  function SlaOf(cases: seq<Case>, a: string, now: int): real {
    var r := SlaCompliance(cases, a, now);
    if r.Some? then r.value else 50.0
  }

  function ExpertiseOf(r: Arrival, a: string): real {
    ExpertisePoints(Context(r.category, r.tier, r.skills, map[]), a)
  }

  /** For this case the given agents are the qualified ones, with the same cap and the same expertise
      in the case's category. */
  ghost predicate LevelRoster(r: Arrival, agents: set<string>, cap: Option<int>) {
    (forall a :: a in agents <==>
       exists k :: 0 <= k < |r.users| && r.users[k].id == a && Qualifies(r.users[k], r.settings)) &&
    (forall a :: a in agents ==> SettingsOf(r.settings, a).cap == cap) &&
    (forall a, b :: a in agents && b in agents ==> ExpertiseOf(r, a) == ExpertiseOf(r, b))
  }

  /** They have the same SLA rate, too, and so differ only in their load. */
  ghost predicate LevelField(cases: seq<Case>, r: Arrival, agents: set<string>, cap: Option<int>) {
    LevelRoster(r, agents, cap) &&
    (forall a, b :: a in agents && b in agents ==>
       SlaOf(cases + [Fresh(r)], a, r.at) == SlaOf(cases + [Fresh(r)], b, r.at))
  }

  /** A strictly increasing clock within one day, and a level field for every case. */
  ghost predicate LevelDay(cases: seq<Case>, arrivals: seq<Arrival>, agents: set<string>, cap: Option<int>, clock: int)
    decreases |arrivals|
  {
    arrivals == [] ||
    (clock < arrivals[0].at && DayStart(clock) == DayStart(arrivals[0].at) &&
     LevelField(cases, arrivals[0], agents, cap) &&
     LevelDay(Served(cases, arrivals[0]), arrivals[1..], agents, cap, arrivals[0].at))
  }

  /** No assignment is dated after `clock`. */
  predicate LoggedBy(cases: seq<Case>, clock: int) {
    forall i, j :: 0 <= i < |cases| && 0 <= j < |cases[i].assignLog| ==> cases[i].assignLog[j].at <= clock
  }

  /** All agents have `level` or `level + 1` active cases, have had equally many more or fewer today,
      and whoever is behind has also waited longer. */
  ghost predicate Balanced(cases: seq<Case>, agents: set<string>, level: nat, offset: int, clock: int) {
    (forall a :: a in agents ==> level <= ActiveCount(cases, a) <= level + 1) &&
    (forall a :: a in agents ==> DailyCount(cases, a, clock) as int == ActiveCount(cases, a) + offset) &&
    (forall a, b :: a in agents && b in agents && ActiveCount(cases, a) < ActiveCount(cases, b) ==>
       !Older(LastAssigned(cases, b), LastAssigned(cases, a)))
  }

  // ---- Counts after one arrival ----

  lemma AppendedTally(cases: seq<Case>, c: Case, f: Case -> nat)
    ensures Tally(cases + [c], f) == Tally(cases, f) + f(c)
  {
    assert (cases + [c])[..|cases|] == cases;
  }

  lemma AppendedLast(cases: seq<Case>, c: Case, a: string)
    ensures LastAssigned(cases + [c], a) == Later(LastAssigned(cases, a), LatestIn(c.assignLog, a))
  {
    assert (cases + [c])[..|cases|] == cases;
  }

  /** A case without an agent changes no count. */
  lemma FreshCaseCountsNothing(cases: seq<Case>, r: Arrival, a: string, now: int)
    ensures var all := cases + [Fresh(r)];
            ActiveCount(all, a) == ActiveCount(cases, a) && DailyCount(all, a, now) == DailyCount(cases, a, now) &&
            LastAssigned(all, a) == LastAssigned(cases, a)
  {
    AppendedTally(cases, Fresh(r), ActiveFor(a));
    AppendedTally(cases, Fresh(r), AssignedSince(a, DayStart(now)));
    AppendedLast(cases, Fresh(r), a);
  }

  lemma {:induction false} LastIsLogged(cases: seq<Case>, a: string, clock: int)
    requires LoggedBy(cases, clock)
    ensures var t := LastAssigned(cases, a); t.Some? ==> t.value <= clock
  {
    if cases != [] {
      LastIsLogged(cases[..|cases| - 1], a, clock);
      LatestIsLogged(cases[|cases| - 1].assignLog, a, clock);
    }
  }

  lemma {:induction false} LatestIsLogged(log: seq<AssignEntry>, a: string, clock: int)
    requires forall j :: 0 <= j < |log| ==> log[j].at <= clock
    ensures var t := LatestIn(log, a); t.Some? ==> t.value <= clock
  {
    if log != [] {
      LatestIsLogged(log[..|log| - 1], a, clock);
    }
  }

  lemma SingleEntry(e: AssignEntry, a: string, since: int)
    ensures CountSince([e], a, since) == if e.agent == a && e.at >= since then 1 else 0
    ensures LatestIn([e], a) == if e.agent == a then Some(e.at) else None
  {
    assert [e][..0] == [];
  }

  /** The agent that gets the case has one more active case, one more today, and is the one that was
      assigned last; nobody else changes. */
  lemma GivenCaseCounts(cases: seq<Case>, r: Arrival, w: string, a: string, clock: int)
    requires LoggedBy(cases, clock) && clock < r.at
    ensures var all := cases + [Assigned(Fresh(r), w, w, System, r.at)];
            ActiveCount(all, a) == ActiveCount(cases, a) + (if a == w then 1 else 0) &&
            DailyCount(all, a, r.at) == DailyCount(cases, a, r.at) + (if a == w then 1 else 0) &&
            LastAssigned(all, a) == if a == w then Some(r.at) else LastAssigned(cases, a)
  {
    var c := Assigned(Fresh(r), w, w, System, r.at);
    AppendedTally(cases, c, ActiveFor(a));
    AppendedTally(cases, c, AssignedSince(a, DayStart(r.at)));
    AppendedLast(cases, c, a);
    LastIsLogged(cases, a, clock);
    assert c.assignLog == [AssignEntry(None, w, w, System, r.at)];
    SingleEntry(AssignEntry(None, w, w, System, r.at), a, DayStart(r.at));
    assert ActiveFor(a)(c) == if a == w then 1 else 0;
  }

  // ---- The scheduler picks an agent that is behind ----

  /** On a level field fewer active cases mean a better score until the workload term saturates,
      and never a worse one. */
  lemma FewerCasesScoreBetter(ctx: Context, a: AgentRow, b: AgentRow)
    requires ExpertisePoints(ctx, a.id) == ExpertisePoints(ctx, b.id) && SlaRate(ctx, a.id) == SlaRate(ctx, b.id)
    requires a.cap == b.cap && EffectiveCap(a) >= 1 && a.active <= b.active
    ensures Score(ctx, a) >= Score(ctx, b)
  {
    LoadRatioOrder(a.active, b.active, EffectiveCap(a));
    Dominance(ctx, a, b);
  }

  lemma RateInContext(cases: seq<Case>, c: Case, skills: SkillTable, rows: seq<AgentRow>, now: int, i: nat)
    requires i < |rows|
    ensures SlaRate(ContextOf(cases, c, skills, rows, now), rows[i].id) == SlaOf(cases, rows[i].id, now)
  {
    assert rows[i].id in IdsOf(rows);
  }

  /** The winner is an agent of the field with the fewest active cases. */
  lemma WinnerIsBehind(
      cases: seq<Case>, r: Arrival, agents: set<string>, cap: Option<int>, level: nat, offset: int, clock: int)
    returns (w: string)
    requires LevelField(cases, r, agents, cap) && Balanced(cases, agents, level, offset, clock)
    requires DayStart(clock) == DayStart(r.at)
    requires Served(cases, r) != cases + [Fresh(r)]
    ensures w in agents && Served(cases, r) == cases + [Assigned(Fresh(r), w, w, System, r.at)]
    ensures forall a :: a in agents ==> ActiveCount(cases, w) <= ActiveCount(cases, a)
  {
    var all := cases + [Fresh(r)];
    var rows := EligibleRows(all, r.users, r.settings, r.at);
    var ctx := ContextOf(all, Fresh(r), r.skills, rows, r.at);
    var n := WinnerIsFirstBest(ctx, rows);
    w := rows[n].id;
    var k := UserForRow(all, r.users, r.settings, r.at, n);
    assert r.users[k].id == w;
    assert all[|cases| := Assigned(Fresh(r), w, w, System, r.at)] == cases + [Assigned(Fresh(r), w, w, System, r.at)];
    forall a | a in agents ensures ActiveCount(cases, w) <= ActiveCount(cases, a) {
      if ActiveCount(cases, a) < ActiveCount(cases, w) {
        NobodyAheadOfTheLeast(cases, r, agents, cap, level, offset, clock, a, n);
      }
    }
  }

  /** An agent with fewer cases than the winner would be eligible too and come first. */
  lemma NobodyAheadOfTheLeast(
      cases: seq<Case>, r: Arrival, agents: set<string>, cap: Option<int>, level: nat, offset: int, clock: int,
      a: string, n: nat)
    requires LevelField(cases, r, agents, cap) && Balanced(cases, agents, level, offset, clock)
    requires DayStart(clock) == DayStart(r.at) && a in agents
    requires var all := cases + [Fresh(r)];
             var rows := EligibleRows(all, r.users, r.settings, r.at);
             n < |rows| && rows[n].id in agents &&
             ActiveCount(cases, a) < ActiveCount(cases, rows[n].id)
    ensures var all := cases + [Fresh(r)];
            var rows := EligibleRows(all, r.users, r.settings, r.at);
            var ctx := ContextOf(all, Fresh(r), r.skills, rows, r.at);
            exists i :: 0 <= i < |rows| && Score(ctx, rows[i]) >= Score(ctx, rows[n]) &&
                        !Older(rows[n].lastAssigned, rows[i].lastAssigned)
  {
    var all := cases + [Fresh(r)];
    var rows := EligibleRows(all, r.users, r.settings, r.at);
    var ctx := ContextOf(all, Fresh(r), r.skills, rows, r.at);
    var w := rows[n].id;
    var k := UserForRow(all, r.users, r.settings, r.at, n);
    FreshCaseCountsNothing(cases, r, a, r.at);
    FreshCaseCountsNothing(cases, r, w, r.at);
    var m: nat :| m < |r.users| && r.users[m].id == a && Qualifies(r.users[m], r.settings);
    assert DailyCount(cases, a, r.at) == DailyCount(cases, a, clock);
    assert DailyCount(cases, w, r.at) == DailyCount(cases, w, clock);
    var i := RowForUser(all, r.users, r.settings, r.at, m);
    RateInContext(all, Fresh(r), r.skills, rows, r.at, i);
    RateInContext(all, Fresh(r), r.skills, rows, r.at, n);
    assert ExpertisePoints(ctx, a) == ExpertiseOf(r, a) && ExpertisePoints(ctx, w) == ExpertiseOf(r, w);
    FewerCasesScoreBetter(ctx, rows[i], rows[n]);
  }

  // ---- Runs ----

  /** The counts of `after` are those of `before`, except that `w` got a case at `now`. */
  ghost predicate OneCaseTo(before: seq<Case>, after: seq<Case>, w: Option<string>, now: int) {
    (forall a :: ActiveCount(after, a) == ActiveCount(before, a) + (if w == Some(a) then 1 else 0)) &&
    (forall a :: DailyCount(after, a, now) == DailyCount(before, a, now) + (if w == Some(a) then 1 else 0)) &&
    (forall a :: LastAssigned(after, a) == if w == Some(a) then Some(now) else LastAssigned(before, a))
  }

  lemma BalanceMovesOn(
      before: seq<Case>, after: seq<Case>, agents: set<string>, level: nat, offset: int, clock: int,
      w: Option<string>, now: int)
    returns (next: nat)
    requires Balanced(before, agents, level, offset, clock) && OneCaseTo(before, after, w, now)
    requires LoggedBy(before, clock) && clock < now && DayStart(clock) == DayStart(now)
    requires w.Some? ==>
      w.value in agents && forall a :: a in agents ==> ActiveCount(before, w.value) <= ActiveCount(before, a)
    ensures Balanced(after, agents, next, offset, now)
  {
    next := if w.Some? then ActiveCount(before, w.value) else level;
    forall a ensures DailyCount(before, a, now) == DailyCount(before, a, clock) {
    }
    forall a ensures var t := LastAssigned(before, a); t.Some? ==> t.value < now {
      LastIsLogged(before, a, clock);
    }
  }

  lemma ArrivalKeepsBalance(
      cases: seq<Case>, r: Arrival, agents: set<string>, cap: Option<int>, level: nat, offset: int, clock: int)
    returns (next: nat)
    requires LevelField(cases, r, agents, cap) && Balanced(cases, agents, level, offset, clock)
    requires LoggedBy(cases, clock) && clock < r.at && DayStart(clock) == DayStart(r.at)
    ensures Balanced(Served(cases, r), agents, next, offset, r.at) && LoggedBy(Served(cases, r), r.at)
  {
    if Served(cases, r) == cases + [Fresh(r)] {
      forall a ensures ActiveCount(Served(cases, r), a) == ActiveCount(cases, a)
               ensures DailyCount(Served(cases, r), a, r.at) == DailyCount(cases, a, r.at)
               ensures LastAssigned(Served(cases, r), a) == LastAssigned(cases, a)
      {
        FreshCaseCountsNothing(cases, r, a, r.at);
      }
      next := BalanceMovesOn(cases, Served(cases, r), agents, level, offset, clock, None, r.at);
    } else {
      var w := WinnerIsBehind(cases, r, agents, cap, level, offset, clock);
      forall a ensures ActiveCount(Served(cases, r), a) == ActiveCount(cases, a) + (if a == w then 1 else 0)
               ensures DailyCount(Served(cases, r), a, r.at) == DailyCount(cases, a, r.at) + (if a == w then 1 else 0)
               ensures LastAssigned(Served(cases, r), a) == if a == w then Some(r.at) else LastAssigned(cases, a)
      {
        GivenCaseCounts(cases, r, w, a, clock);
      }
      next := BalanceMovesOn(cases, Served(cases, r), agents, level, offset, clock, Some(w), r.at);
    }
    ServedIsLogged(cases, r, clock);
  }

  lemma ServedIsLogged(cases: seq<Case>, r: Arrival, clock: int)
    requires LoggedBy(cases, clock) && clock < r.at
    ensures LoggedBy(Served(cases, r), r.at)
  {
    var after := Served(cases, r);
    forall i, j | 0 <= i < |after| && 0 <= j < |after[i].assignLog| ensures after[i].assignLog[j].at <= r.at {
      if i < |cases| {
        assert after[i] == cases[i];
      }
    }
  }

  lemma {:induction false} DayKeepsBalance(
      cases: seq<Case>, arrivals: seq<Arrival>, agents: set<string>, cap: Option<int>,
      level: nat, offset: int, clock: int)
    requires LevelDay(cases, arrivals, agents, cap, clock) && Balanced(cases, agents, level, offset, clock)
    requires LoggedBy(cases, clock)
    ensures forall a, b :: a in agents && b in agents ==>
              ActiveCount(ServedAll(cases, arrivals), a) <= ActiveCount(ServedAll(cases, arrivals), b) + 1
    decreases |arrivals|
  {
    if arrivals != [] {
      var next := ArrivalKeepsBalance(cases, arrivals[0], agents, cap, level, offset, clock);
      DayKeepsBalance(Served(cases, arrivals[0]), arrivals[1..], agents, cap, next, offset, arrivals[0].at);
    }
  }

  lemma {:induction false} DayPrefix(
      cases: seq<Case>, arrivals: seq<Arrival>, agents: set<string>, cap: Option<int>, clock: int, k: nat)
    requires LevelDay(cases, arrivals, agents, cap, clock) && k <= |arrivals|
    ensures LevelDay(cases, arrivals[..k], agents, cap, clock)
    decreases |arrivals|
  {
    if k > 0 {
      var r, rest, part := arrivals[0], arrivals[1..], arrivals[..k];
      DayPrefix(Served(cases, r), rest, agents, cap, r.at, k - 1);
      assert part[0] == r && part[1..] == rest[..k - 1];
    }
  }

  /** Agents that are alike except for their load, and start the day's run with equal active and
      daily counts, are never more than one active case apart: after any number `k` of arrivals, in
      whatever order the database lists them, beyond saturation of the workload term and up to the
      daily cap. */
  lemma SchedulingIsFair(
      cases: seq<Case>, arrivals: seq<Arrival>, agents: set<string>, cap: Option<int>, clock: int,
      active: nat, daily: nat, a: string, b: string, k: nat)
    requires LevelDay(cases, arrivals, agents, cap, clock) && LoggedBy(cases, clock) && k <= |arrivals|
    requires forall x :: x in agents ==> ActiveCount(cases, x) == active && DailyCount(cases, x, clock) == daily
    requires a in agents && b in agents
    ensures var after := ServedAll(cases, arrivals[..k]);
            -1 <= ActiveCount(after, a) as int - ActiveCount(after, b) <= 1
  {
    DayPrefix(cases, arrivals, agents, cap, clock, k);
    DayKeepsBalance(cases, arrivals[..k], agents, cap, active, daily as int - active, clock);
  }

  // ---- Before any case is finished ----

  predicate NothingFinished(cases: seq<Case>) {
    forall i :: 0 <= i < |cases| ==> cases[i].completedAt.None?
  }

  /** The part of a level day that does not look at the cases. */
  ghost predicate RosterDay(arrivals: seq<Arrival>, agents: set<string>, cap: Option<int>, clock: int)
    decreases |arrivals|
  {
    arrivals == [] ||
    (clock < arrivals[0].at && DayStart(clock) == DayStart(arrivals[0].at) &&
     LevelRoster(arrivals[0], agents, cap) && RosterDay(arrivals[1..], agents, cap, arrivals[0].at))
  }

  lemma {:induction false} NothingRated(cases: seq<Case>, a: string, now: int)
    requires NothingFinished(cases)
    ensures Tally(cases, Finished(a, now)) == 0
  {
    if cases != [] {
      NothingRated(cases[..|cases| - 1], a, now);
    }
  }

  lemma ServingFinishesNothing(cases: seq<Case>, r: Arrival)
    requires NothingFinished(cases)
    ensures NothingFinished(Served(cases, r))
  {
    var after := Served(cases, r);
    forall i | 0 <= i < |after| ensures after[i].completedAt.None? {
      if i < |cases| {
        assert after[i] == cases[i];
      }
    }
  }

  /** As long as no case is finished, all agents have the default SLA rate throughout the day, so the
      rosters alone make the field level. */
  lemma {:induction false} RosterDayIsLevel(
      cases: seq<Case>, arrivals: seq<Arrival>, agents: set<string>, cap: Option<int>, clock: int)
    requires NothingFinished(cases) && RosterDay(arrivals, agents, cap, clock)
    ensures LevelDay(cases, arrivals, agents, cap, clock)
    decreases |arrivals|
  {
    if arrivals != [] {
      var r := arrivals[0];
      forall a ensures SlaOf(cases + [Fresh(r)], a, r.at) == 50.0 {
        NothingRated(cases + [Fresh(r)], a, r.at);
      }
      ServingFinishesNothing(cases, r);
      RosterDayIsLevel(Served(cases, r), arrivals[1..], agents, cap, r.at);
    }
  }
}
