/** The weighted score by which a case is given to an agent. */
module Scoring {
  import opened Wrappers
  import opened Sorting

  const MIN_ASSIGNMENT_SCORE := 15.0
  const SOFT_CAP := 20

  datatype Skill = Skill(category: string, level: int)

  /** An eligible agent as the query returns it. */
  datatype AgentRow = AgentRow(id: string, cap: Option<int>, active: nat, lastAssigned: Option<int>)

  /** What else a score depends on: the case's category and tier, skills and SLA rates. */
  datatype Context = Context(
    category: string, tier: string, skills: map<string, seq<Skill>>, slaRates: map<string, real>)

  datatype Scored = Scored(id: string, total: real, lastAssigned: Option<int>)

  function EffectiveCap(row: AgentRow): int {
    if row.cap.Some? && row.cap.value != 0 then row.cap.value else SOFT_CAP
  }

  function Match(skills: seq<Skill>, category: string): Option<Skill> {
    if skills == [] then None
    else if skills[0].category == category then Some(skills[0])
    else Match(skills[1..], category)
  }

  function SkillsOf(ctx: Context, id: string): seq<Skill> {
    if id in ctx.skills then ctx.skills[id] else []
  }

  function ExpertisePoints(ctx: Context, id: string): real {
    var m := Match(SkillsOf(ctx, id), ctx.category);
    (if m.Some? then (m.value.level as real / 5.0) * 100.0 else 25.0) * 0.40
  }

  function LoadRatio(active: nat, cap: int): real
    requires cap != 0
  {
    var ratio := active as real / cap as real;
    if ratio < 1.0 then ratio else 1.0
  }

  function WorkloadPoints(active: nat, cap: int): real
    requires cap != 0
  {
    var left := 100.0 - LoadRatio(active, cap) * 100.0;
    (if left > 0.0 then left else 0.0) * 0.30
  }

  function SlaRate(ctx: Context, id: string): real {
    if id in ctx.slaRates then ctx.slaRates[id] else 50.0
  }

  function UrgencyPoints(ctx: Context, id: string): real {
    if ctx.tier == "urgent" then SlaRate(ctx, id) * 0.10 else 10.0
  }

  function Score(ctx: Context, row: AgentRow): real {
    ExpertisePoints(ctx, row.id) + WorkloadPoints(row.active, EffectiveCap(row))
    + SlaRate(ctx, row.id) * 0.20 + UrgencyPoints(ctx, row.id)
  }

  function Rated(ctx: Context, row: AgentRow): Scored {
    Scored(row.id, Score(ctx, row), row.lastAssigned)
  }

  function Scores(ctx: Context, rows: seq<AgentRow>): (s: seq<Scored>)
    ensures |s| == |rows|
  {
    seq(|rows|, i requires 0 <= i < |rows| => Rated(ctx, rows[i]))
  }

  /** Never assigned counts as older than any time. */
  predicate Older(a: Option<int>, b: Option<int>) {
    a.None? || (b.Some? && a.value <= b.value)
  }

  predicate Ahead(a: Scored, b: Scored) {
    a.total > b.total || (a.total == b.total && Older(a.lastAssigned, b.lastAssigned))
  }

  lemma AheadIsTotalPreorder()
    ensures TotalPreorder(Ahead)
  {
  }

  /** The chosen agent, if any, and the best score. */
  function Choose(scores: seq<Scored>): (Option<string>, real) {
    if scores == [] then (None, 0.0)
    else
      var best := StableSort(scores, Ahead)[0];
      (if best.total < MIN_ASSIGNMENT_SCORE then None else Some(best.id), best.total)
  }

  method ScoreAgents(ctx: Context, eligible: seq<AgentRow>) returns (winner: Option<string>, score: real)
    ensures (winner, score) == Choose(Scores(ctx, eligible))
  {
    if eligible == [] {
      return None, 0.0;
    }
    var scores: seq<Scored> := [];
    for i := 0 to |eligible|
      invariant scores == Scores(ctx, eligible[..i])
    {
      var agent := eligible[i];
      var cap := if agent.cap.None? || agent.cap.value == 0 then SOFT_CAP else agent.cap.value;
      var found := Match(SkillsOf(ctx, agent.id), ctx.category);
      var expertise := 25.0;
      if found.Some? {
        expertise := (found.value.level as real / 5.0) * 100.0;
      }
      var workloadRatio := agent.active as real / cap as real;
      if workloadRatio > 1.0 {
        workloadRatio := 1.0;
      }
      var workload := 100.0 - workloadRatio * 100.0;
      if workload < 0.0 {
        workload := 0.0;
      }
      var slaRate := SlaRate(ctx, agent.id);
      var urgencyPts := 10.0;
      if ctx.tier == "urgent" {
        urgencyPts := slaRate * 0.10;
      } else if ctx.tier == "express" && slaRate > 80.0 {
        urgencyPts := 10.0;
      }
      var total := expertise * 0.40 + workload * 0.30 + slaRate * 0.20 + urgencyPts;
      assert Rated(ctx, agent) == Scored(agent.id, total, agent.lastAssigned);
      assert eligible[..i + 1] == eligible[..i] + [agent];
      scores := scores + [Scored(agent.id, total, agent.lastAssigned)];
    }
    assert eligible[..|eligible|] == eligible;
    scores := StableSort(scores, Ahead);
    if scores[0].total < MIN_ASSIGNMENT_SCORE {
      return None, scores[0].total;
    }
    return Some(scores[0].id), scores[0].total;
  }

  // ---- The winner ----

  /** The winner has the best score, among equals the longest unassigned, then the first in input order. */
  lemma WinnerIsFirstBest(ctx: Context, rows: seq<AgentRow>) returns (w: nat)
    requires Choose(Scores(ctx, rows)).0.Some?
    ensures w < |rows| && Choose(Scores(ctx, rows)) == (Some(rows[w].id), Score(ctx, rows[w]))
    ensures forall i :: 0 <= i < |rows| ==>
              Score(ctx, rows[i]) < Score(ctx, rows[w]) ||
              (Score(ctx, rows[i]) == Score(ctx, rows[w]) &&
               Older(rows[w].lastAssigned, rows[i].lastAssigned) &&
               (i < w ==> !Older(rows[i].lastAssigned, rows[w].lastAssigned)))
  {
    AheadIsTotalPreorder();
    var scores := Scores(ctx, rows);
    w := SortHeadIsFirstLeast(scores, Ahead);
    forall i | 0 <= i < |rows|
      ensures Ahead(Rated(ctx, rows[w]), Rated(ctx, rows[i]))
      ensures i < w ==> !Ahead(Rated(ctx, rows[i]), Rated(ctx, rows[w]))
    {
      assert scores[i] == Rated(ctx, rows[i]) && scores[w] == Rated(ctx, rows[w]);
    }
  }

  // ---- Range of the score ----

  /** What the request schema and the SLA query guarantee. */
  predicate WellFormed(ctx: Context) {
    (forall id :: id in ctx.skills ==> forall i :: 0 <= i < |ctx.skills[id]| ==> 1 <= ctx.skills[id][i].level <= 5) &&
    (forall id :: id in ctx.slaRates ==> 0.0 <= ctx.slaRates[id] <= 100.0)
  }

  /** Caps are at least 1 wherever they are set: an agent with a smaller one is not eligible. */
  predicate Capped(rows: seq<AgentRow>) {
    forall i :: 0 <= i < |rows| ==> rows[i].cap.Some? ==> rows[i].cap.value >= 1
  }

  lemma {:induction false} MatchIsListed(skills: seq<Skill>, category: string)
    ensures var m := Match(skills, category);
            m.Some? ==> exists i :: 0 <= i < |skills| && skills[i] == m.value && m.value.category == category
  {
    if skills != [] && skills[0].category != category {
      MatchIsListed(skills[1..], category);
      if Match(skills, category).Some? {
        var i :| 0 <= i < |skills| - 1 && skills[1..][i] == Match(skills, category).value;
        assert skills[i + 1] == Match(skills, category).value;
      }
    }
  }

  lemma LoadRatioRange(active: nat, cap: int)
    requires cap >= 1
    ensures 0.0 <= LoadRatio(active, cap) <= 1.0
    ensures active >= cap ==> LoadRatio(active, cap) == 1.0
  {
    var a, c := active as real, cap as real;
    assert a / c >= 0.0;
    if active >= cap {
      assert a / c >= 1.0;
    }
  }

  lemma ExpertiseRange(ctx: Context, id: string)
    requires WellFormed(ctx)
    ensures 8.0 <= ExpertisePoints(ctx, id) <= 40.0
  {
    MatchIsListed(SkillsOf(ctx, id), ctx.category);
  }

  /** Scores lie in [8, 100]; off the urgent tier they are at least 18. */
  lemma ScoreRange(ctx: Context, row: AgentRow)
    requires WellFormed(ctx) && Capped([row])
    ensures 8.0 <= Score(ctx, row) <= 100.0
    ensures ctx.tier != "urgent" ==> Score(ctx, row) >= 18.0
  {
    assert [row][0] == row;
    ExpertiseRange(ctx, row.id);
    LoadRatioRange(row.active, EffectiveCap(row));
  }

  /** All ends of the ranges are reached: 100 on every tier, 18 off the urgent tier and 8 on it. */
  lemma ScoreRangeIsTight(tier: string)
    ensures var best := Context("tax", tier, map["a" := [Skill("tax", 5)]], map["a" := 100.0]);
            WellFormed(best) && Score(best, AgentRow("a", Some(1), 0, None)) == 100.0
    ensures var worst := Context("tax", tier, map["a" := [Skill("tax", 1)]], map["a" := 0.0]);
            WellFormed(worst) &&
            Score(worst, AgentRow("a", None, SOFT_CAP, None)) == if tier == "urgent" then 8.0 else 18.0
  {
    var best := Context("tax", tier, map["a" := [Skill("tax", 5)]], map["a" := 100.0]);
    assert Match(SkillsOf(best, "a"), "tax") == Some(Skill("tax", 5));
    var worst := Context("tax", tier, map["a" := [Skill("tax", 1)]], map["a" := 0.0]);
    assert Match(SkillsOf(worst, "a"), "tax") == Some(Skill("tax", 1));
  }

  lemma ChosenScoreRange(ctx: Context, rows: seq<AgentRow>)
    requires WellFormed(ctx) && Capped(rows) && rows != []
    ensures Choose(Scores(ctx, rows)).1 >= 8.0
    ensures ctx.tier != "urgent" ==> Choose(Scores(ctx, rows)).1 >= 18.0
  {
    AheadIsTotalPreorder();
    var w := SortHeadIsFirstLeast(Scores(ctx, rows), Ahead);
    assert Scores(ctx, rows)[w] == Rated(ctx, rows[w]);
    ScoreRange(ctx, rows[w]);
  }

  /** Off the urgent tier the threshold rejects nobody: no winner means no eligible agent. */
  lemma ThresholdOnlyBitesUrgent(ctx: Context, rows: seq<AgentRow>)
    requires WellFormed(ctx) && Capped(rows) && ctx.tier != "urgent"
    ensures Choose(Scores(ctx, rows)).0.None? <==> rows == []
  {
    if rows != [] {
      ChosenScoreRange(ctx, rows);
    }
  }

  /** On any tier: no winner exactly when every eligible agent scores below the threshold. */
  lemma NoWinnerIff(ctx: Context, rows: seq<AgentRow>)
    ensures Choose(Scores(ctx, rows)).0.None? <==>
            forall i :: 0 <= i < |rows| ==> Score(ctx, rows[i]) < MIN_ASSIGNMENT_SCORE
  {
    if rows != [] {
      AheadIsTotalPreorder();
      var scores := Scores(ctx, rows);
      var w := SortHeadIsFirstLeast(scores, Ahead);
      assert scores[w] == Rated(ctx, rows[w]);
      forall i | 0 <= i < |rows| ensures Score(ctx, rows[i]) <= Score(ctx, rows[w]) {
        assert Ahead(scores[w], scores[i]) && scores[i] == Rated(ctx, rows[i]);
      }
    }
  }

  /** An urgent case can be left without an agent although one is eligible. */
  lemma UrgentCanBeRejected()
    ensures var ctx := Context("tax", "urgent", map["a" := [Skill("tax", 1)]], map["a" := 0.0]);
            WellFormed(ctx) && Choose(Scores(ctx, [AgentRow("a", Some(1), 1, None)])) == (None, 8.0)
  {
    var ctx := Context("tax", "urgent", map["a" := [Skill("tax", 1)]], map["a" := 0.0]);
    var rows := [AgentRow("a", Some(1), 1, None)];
    assert Match(SkillsOf(ctx, "a"), "tax") == Some(Skill("tax", 1));
    assert Score(ctx, rows[0]) == 8.0;
    assert Scores(ctx, rows) == [Scored("a", 8.0, None)];
    assert StableSort(Scores(ctx, rows), Ahead)[0] == Scored("a", 8.0, None);
  }

  /** The cap of an agent, or 20 without one. */
  function CapOr20(row: AgentRow): int {
    if row.cap.Some? then row.cap.value else 20
  }

  lemma RatioTimesCap(active: nat, cap: int)
    requires cap >= 1
    ensures LoadRatio(active, cap) * cap as real == if active < cap then active as real else cap as real
  {
    var q := active as real / cap as real;
    assert q * cap as real == active as real;
    if active >= cap {
      LoadRatioRange(active, cap);
    } else {
      assert q < 1.0;
    }
  }

  /** The workload points, times the cap: 30 for every case below the cap. */
  lemma WorkloadTimesCap(active: nat, cap: int)
    requires cap >= 1
    ensures WorkloadPoints(active, cap) * cap as real == if active < cap then 30.0 * (cap - active) as real else 0.0
  {
    var r, c := LoadRatio(active, cap), cap as real;
    LoadRatioRange(active, cap);
    RatioTimesCap(active, cap);
    assert WorkloadPoints(active, cap) == 30.0 - 30.0 * r;
    assert (30.0 - 30.0 * r) * c == 30.0 * c - 30.0 * (r * c);
  }

  lemma OneCaseLess(active: nat, cap: int, loss: real)
    requires cap >= 1 && loss == WorkloadPoints(active, cap) - WorkloadPoints(active + 1, cap)
    ensures loss * cap as real == if active < cap then 30.0 else 0.0
  {
    WorkloadTimesCap(active, cap);
    WorkloadTimesCap(active + 1, cap);
    Distribute(WorkloadPoints(active, cap), WorkloadPoints(active + 1, cap), cap as real);
  }

  /** What the agent's score loses by one more case. */
  function CaseLoss(ctx: Context, row: AgentRow): real {
    Score(ctx, row) - Score(ctx, row.(active := row.active + 1))
  }

  lemma OneMoreCase(ctx: Context, row: AgentRow, cap: int, loss: real)
    requires cap == CapOr20(row) >= 1 && loss == CaseLoss(ctx, row)
    ensures loss * cap as real == if row.active < cap then 30.0 else 0.0
  {
    OnlyLoadDiffers(ctx, row, row.active + 1);
    OneCaseLess(row.active, cap, loss);
  }

  /** One more case costs a cap-th part of 30 points below the cap, nothing from there on; from idle
      to the cap it is 30 points in all. */
  lemma PriceOfACase(ctx: Context, row: AgentRow)
    requires Capped([row])
    ensures CapOr20(row) >= 1
    ensures CaseLoss(ctx, row) * CapOr20(row) as real == if row.active < CapOr20(row) then 30.0 else 0.0
    ensures Score(ctx, row.(active := 0)) - Score(ctx, row.(active := CapOr20(row))) == 30.0
  {
    assert [row][0] == row;
    PriceFromIdle(ctx, row);
    OneMoreCase(ctx, row, CapOr20(row), CaseLoss(ctx, row));
  }

  lemma PriceFromIdle(ctx: Context, row: AgentRow)
    requires CapOr20(row) >= 1
    ensures Score(ctx, row.(active := 0)) - Score(ctx, row.(active := CapOr20(row))) == 30.0
  {
    OnlyLoadDiffers(ctx, row.(active := 0), CapOr20(row));
    WorkloadEnds(CapOr20(row));
  }

  lemma OnlyLoadDiffers(ctx: Context, row: AgentRow, n: nat)
    requires CapOr20(row) >= 1
    ensures Score(ctx, row) - Score(ctx, row.(active := n))
         == WorkloadPoints(row.active, CapOr20(row)) - WorkloadPoints(n, CapOr20(row))
  {
  }

  lemma WorkloadEnds(cap: nat)
    requires cap >= 1
    ensures WorkloadPoints(0, cap) == 30.0 && WorkloadPoints(cap, cap) == 0.0
  {
    assert 0 as real / cap as real == 0.0;
    LoadRatioRange(cap, cap);
  }

  lemma Distribute(a: real, b: real, c: real)
    ensures (a - b) * c == a * c - b * c && (a + b) * c == a * c + b * c
  {
  }

  /** What skill is worth: 8 points a level, and 10 for none. */
  lemma PriceOfALevel(ctx: Context, a: AgentRow, b: AgentRow)
    requires a.cap == b.cap && a.active == b.active && Capped([a]) && SlaRate(ctx, a.id) == SlaRate(ctx, b.id)
    ensures var x, y := Match(SkillsOf(ctx, a.id), ctx.category), Match(SkillsOf(ctx, b.id), ctx.category);
            Score(ctx, a) - Score(ctx, b)
              == (if x.Some? then 8.0 * x.value.level as real else 10.0)
                 - (if y.Some? then 8.0 * y.value.level as real else 10.0)
  {
    assert [a][0] == a;
  }

  /** What a percent of punctuality is worth: 0.2 points, and 0.3 on the urgent tier; an agent without
      a rate counts as one with 50 percent. */
  lemma PriceOfAPercent(ctx: Context, row: AgentRow, rates: map<string, real>)
    requires Capped([row])
    ensures var rate := if row.id in ctx.slaRates then ctx.slaRates[row.id] else 50.0;
            var other := if row.id in rates then rates[row.id] else 50.0;
            Score(ctx, row) - Score(ctx.(slaRates := rates), row)
              == (rate - other) * (if ctx.tier == "urgent" then 0.3 else 0.2)
  {
    assert [row][0] == row;
  }

  /** The skill that counts is the first listed one of the category. */
  lemma {:induction false} MatchIsFirst(skills: seq<Skill>, category: string, i: nat)
    requires i < |skills| && skills[i].category == category && forall j :: 0 <= j < i ==> skills[j].category != category
    ensures Match(skills, category) == Some(skills[i])
  {
    if i > 0 {
      forall j | 0 <= j < i - 1 ensures skills[1..][j].category != category {
        assert skills[1..][j] == skills[j + 1];
      }
      MatchIsFirst(skills[1..], category, i - 1);
    }
  }

  /** Points for load and punctuality that an urgent case asks of an agent without skill, or of level 1. */
  function Asked(skill: Option<Skill>): real {
    if skill.Some? then 7.0 else 5.0
  }

  lemma BelowThresholdByPoints(ctx: Context, row: AgentRow)
    requires WellFormed(ctx) && Capped([row]) && CapOr20(row) >= 1
    ensures var skill := Match(SkillsOf(ctx, row.id), ctx.category);
            Score(ctx, row) < MIN_ASSIGNMENT_SCORE <==>
            ctx.tier == "urgent" && (skill.Some? ==> skill.value.level == 1) &&
            WorkloadPoints(row.active, CapOr20(row)) + 0.3 * SlaRate(ctx, row.id) < Asked(skill)
  {
    ScoreRange(ctx, row);
    MatchIsListed(SkillsOf(ctx, row.id), ctx.category);
    LoadRatioRange(row.active, CapOr20(row));
  }

  /** With `active` cases of at most `cap`, load and punctuality together bring less than `asked`
      points; all of it times the cap. */
  predicate FallsShort(active: nat, cap: int, rate: real, asked: real) {
    (if active < cap then 30.0 * (cap - active) as real else 0.0) + 0.3 * rate * cap as real < asked * cap as real
  }

  lemma PointsBelow(active: nat, cap: int, rate: real, asked: real)
    requires cap >= 1
    ensures WorkloadPoints(active, cap) + 0.3 * rate < asked <==> FallsShort(active, cap, rate, asked)
  {
    var w := WorkloadPoints(active, cap);
    WorkloadTimesCap(active, cap);
    ScaledLess(w + 0.3 * rate, asked, cap as real);
    Distribute(w, 0.3 * rate, cap as real);
  }

  /** Exactly who falls under the threshold: on the urgent tier, an agent without a listed skill of
      level 2 or more that is too busy or too often late to make up for it. */
  lemma BelowThresholdIff(ctx: Context, row: AgentRow)
    requires WellFormed(ctx) && Capped([row])
    ensures var skill := Match(SkillsOf(ctx, row.id), ctx.category);
            Score(ctx, row) < MIN_ASSIGNMENT_SCORE <==>
            ctx.tier == "urgent" && (skill.Some? ==> skill.value.level == 1) &&
            FallsShort(row.active, CapOr20(row), SlaRate(ctx, row.id), Asked(skill))
  {
    assert [row][0] == row;
    BelowThresholdByPoints(ctx, row);
    var skill := Match(SkillsOf(ctx, row.id), ctx.category);
    PointsBelow(row.active, CapOr20(row), SlaRate(ctx, row.id), Asked(skill));
  }

  lemma ScaledLess(x: real, y: real, c: real)
    requires c > 0.0
    ensures x < y <==> x * c < y * c
  {
    if x < y {
      assert (y - x) * c > 0.0;
    } else {
      assert (x - y) * c >= 0.0;
    }
  }

  datatype Reason = NoEligibleAgents | BelowThreshold(best: real)

  /** The reason that admins are told, from the score alone. */
  function ReportedReason(score: real): Reason {
    if score == 0.0 then NoEligibleAgents else BelowThreshold(score)
  }

  /** A score of 0 means nobody was eligible, so the reported reason is the true one. */
  lemma ReportedReasonIsTrue(ctx: Context, rows: seq<AgentRow>)
    requires WellFormed(ctx) && Capped(rows) && Choose(Scores(ctx, rows)).0.None?
    ensures ReportedReason(Choose(Scores(ctx, rows)).1).NoEligibleAgents? <==> rows == []
    ensures rows != [] ==> Choose(Scores(ctx, rows)).1 < MIN_ASSIGNMENT_SCORE
  {
    if rows != [] {
      ChosenScoreRange(ctx, rows);
    }
  }

  // ---- Comparing agents ----

  lemma LoadRatioOrder(a: nat, b: nat, cap: int)
    requires cap >= 1 && a <= b
    ensures LoadRatio(a, cap) <= LoadRatio(b, cap)
    ensures a < b && a < cap ==> LoadRatio(a, cap) < LoadRatio(b, cap)
  {
    var x, y, c := a as real, b as real, cap as real;
    assert x / c <= y / c;
    if a < b && a < cap {
      assert x / c < y / c;
      assert x / c < 1.0;
    }
  }

  /** An agent at least as good in expertise points, load ratio and SLA rate never scores lower. */
  lemma Dominance(ctx: Context, a: AgentRow, b: AgentRow)
    requires ExpertisePoints(ctx, a.id) >= ExpertisePoints(ctx, b.id)
    requires EffectiveCap(a) >= 1 && EffectiveCap(b) >= 1
    requires LoadRatio(a.active, EffectiveCap(a)) <= LoadRatio(b.active, EffectiveCap(b))
    requires SlaRate(ctx, a.id) >= SlaRate(ctx, b.id)
    ensures Score(ctx, a) >= Score(ctx, b)
  {
  }

  /** One more active case never raises a score, and lowers it until the cap is reached. */
  lemma MoreLoadNeverHelps(ctx: Context, row: AgentRow, more: nat)
    requires Capped([row]) && row.active <= more
    ensures Score(ctx, row.(active := more)) <= Score(ctx, row)
    ensures row.active < more && row.active < EffectiveCap(row) ==> Score(ctx, row.(active := more)) < Score(ctx, row)
  {
    assert [row][0] == row;
    LoadRatioOrder(row.active, more, EffectiveCap(row));
    LoadRatioRange(more, EffectiveCap(row));
    LoadRatioRange(row.active, EffectiveCap(row));
  }

  /** A listed skill of level 1 is worth less than no listed skill; from level 2 on it is worth more. */
  lemma SkillBeatsNoSkillIff(ctx: Context, skilled: string, unskilled: string)
    requires WellFormed(ctx)
    requires Match(SkillsOf(ctx, skilled), ctx.category).Some? && Match(SkillsOf(ctx, unskilled), ctx.category).None?
    ensures ExpertisePoints(ctx, skilled) > ExpertisePoints(ctx, unskilled) <==>
            Match(SkillsOf(ctx, skilled), ctx.category).value.level >= 2
  {
    MatchIsListed(SkillsOf(ctx, skilled), ctx.category);
  }
}
