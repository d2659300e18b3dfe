/** Agents that claim the same case concurrently, with a row lock that is skipped when taken. */
module ClaimRace {
  import opened Wrappers
  import opened Lifecycle

  /** Where one claim transaction stands. */
  datatype Phase =
    | Idle
    | Validated
    | Holding                // has the row lock and the row
    | Cleared                // found the row unassigned and received
    | Written(draft: Case)   // assigned it, not yet committed
    | Committed
    | Refused(error: CaseError)
    | NotAvailable           // failed the agent's own validation
    | Aborted

  /** The committed row, who holds its lock, and the phase of every claim. Claim `t` is made by
      agent `agents[t]`. */
  datatype Sys = Sys(row: Case, lock: Option<nat>, phases: seq<Phase>)

  datatype Step =
    | Validate(t: nat, ok: bool)
    | Lock(t: nat)
    | Inspect(t: nat)
    | Write(t: nat, now: int)
    | Commit(t: nat)
    | Abort(t: nat)

  predicate Locks(p: Phase) {
    p.Holding? || p.Cleared? || p.Written?
  }

  predicate Finished(p: Phase) {
    p.Committed? || p.Refused? || p.NotAvailable? || p.Aborted?
  }

  predicate Enabled(s: Sys, e: Step) {
    e.t < |s.phases| &&
    var p := s.phases[e.t];
    match e
    case Validate(_, _) => p.Idle?
    case Lock(_) => p.Validated?
    case Inspect(_) => p.Holding?
    case Write(_, _) => p.Cleared?
    case Commit(_) => p.Written?
    case Abort(_) => !Finished(p)
  }

  function Enter(s: Sys, t: nat, p: Phase): Sys
    requires t < |s.phases|
  {
    s.(phases := s.phases[t := p])
  }

  /** A transaction that ends gives back the lock if it has it. */
  function Leave(s: Sys, t: nat, p: Phase): Sys
    requires t < |s.phases|
  {
    Enter(s.(lock := if s.lock == Some(t) then None else s.lock), t, p)
  }

  function After(s: Sys, agents: seq<string>, e: Step): Sys
    requires |agents| == |s.phases| && Enabled(s, e)
  {
    match e
    case Validate(t, ok) => Enter(s, t, if ok then Validated else NotAvailable)
    case Lock(t) =>
      if s.lock.Some? then Enter(s, t, Refused(AlreadyAssigned)) else Enter(s.(lock := Some(t)), t, Holding)
    case Inspect(t) =>
      if s.row.agent.Some? then Leave(s, t, Refused(AlreadyAssigned))
      else if s.row.status != Received then Leave(s, t, Refused(NotFound))
      else Enter(s, t, Cleared)
    case Write(t, now) => Enter(s, t, Written(Assigned(s.row, agents[t], agents[t], StaffAgent, now)))
    case Commit(t) => Leave(s.(row := s.phases[t].draft), t, Committed)
    case Abort(t) => Leave(s, t, Aborted)
  }

  function Start(row: Case, n: nat): Sys {
    Sys(row, None, seq(n, _ => Idle))
  }

  predicate IsRun(s: Sys, agents: seq<string>, steps: seq<Step>)
    requires |agents| == |s.phases|
    decreases |steps|
  {
    steps == [] || (Enabled(s, steps[0]) && IsRun(After(s, agents, steps[0]), agents, steps[1..]))
  }

  function EndOf(s: Sys, agents: seq<string>, steps: seq<Step>): (end: Sys)
    requires |agents| == |s.phases| && IsRun(s, agents, steps)
    ensures |end.phases| == |s.phases|
    decreases |steps|
  {
    if steps == [] then s else EndOf(After(s, agents, steps[0]), agents, steps[1..])
  }

  predicate Won(s: Sys, t: nat) {
    t < |s.phases| && s.phases[t].Committed?
  }

  /** The row `row` given to `agent` by a claim, at some time. */
  ghost predicate IsClaimOf(row: Case, agent: string, result: Case) {
    exists now :: result == Assigned(row, agent, agent, StaffAgent, now)
  }

  /** The lock holder is the one claim between lock and end; at most one claim has committed, and
      the row is as it was, or as that claim left it. */
  ghost predicate Exclusive(s: Sys, row: Case, agents: seq<string>) {
    |agents| == |s.phases| &&
    (s.lock.Some? ==> s.lock.value < |s.phases|) &&
    (forall t: nat :: t < |s.phases| ==> (Locks(s.phases[t]) <==> s.lock == Some(t))) &&
    (forall t: nat, u: nat :: Won(s, t) && Won(s, u) ==> t == u) &&
    ((forall t: nat :: !Won(s, t)) ==> s.row == row) &&
    (forall t: nat :: Won(s, t) ==> Claimable(row) && IsClaimOf(row, agents[t], s.row)) &&
    (forall t: nat :: t < |s.phases| && (s.phases[t].Cleared? || s.phases[t].Written?) ==> Claimable(s.row)) &&
    (forall t: nat :: t < |s.phases| && s.phases[t].Written? ==> IsClaimOf(s.row, agents[t], s.phases[t].draft))
  }

  predicate Claimable(row: Case) {
    row.agent.None? && row.status == Received
  }

  lemma ClaimTakesRow(row: Case, agent: string, result: Case)
    requires IsClaimOf(row, agent, result)
    ensures !Claimable(result)
  {
  }

  /** Steps that neither write nor commit move one claim and perhaps the lock. */
  lemma QuietStepKeepsExclusive(s: Sys, row: Case, agents: seq<string>, e: Step)
    requires Exclusive(s, row, agents) && Enabled(s, e) && !e.Write? && !e.Commit?
    ensures Exclusive(After(s, agents, e), row, agents)
  {
    var next := After(s, agents, e);
    assert next.row == s.row && |next.phases| == |s.phases|;
    assert forall t: nat :: t < |s.phases| && t != e.t ==> next.phases[t] == s.phases[t];
    assert !next.phases[e.t].Committed? && !next.phases[e.t].Written?;
    assert forall t: nat :: Won(next, t) <==> Won(s, t);
    assert Locks(next.phases[e.t]) <==> next.lock == Some(e.t);
  }

  lemma WriteKeepsExclusive(s: Sys, row: Case, agents: seq<string>, e: Step)
    requires Exclusive(s, row, agents) && Enabled(s, e) && e.Write?
    ensures Exclusive(After(s, agents, e), row, agents)
  {
    var next := After(s, agents, e);
    assert IsClaimOf(s.row, agents[e.t], next.phases[e.t].draft);
    assert forall t: nat :: t < |s.phases| && t != e.t ==> next.phases[t] == s.phases[t];
    assert forall t: nat :: Won(next, t) <==> Won(s, t);
  }

  /** A commit comes from the lock holder, whose row was still claimable: nobody had won before. */
  lemma CommitKeepsExclusive(s: Sys, row: Case, agents: seq<string>, e: Step)
    requires Exclusive(s, row, agents) && Enabled(s, e) && e.Commit?
    ensures Exclusive(After(s, agents, e), row, agents)
  {
    forall t: nat | Won(s, t) ensures false {
      ClaimTakesRow(row, agents[t], s.row);
    }
    var next := After(s, agents, e);
    assert forall t: nat :: t < |s.phases| && t != e.t ==> next.phases[t] == s.phases[t];
    assert Won(next, e.t);
    forall t: nat ensures Won(next, t) <==> t == e.t {
      assert !Won(s, t);
    }
    assert forall t: nat :: t < |s.phases| ==> !Locks(next.phases[t]);
    assert IsClaimOf(row, agents[e.t], next.row);
  }

  lemma StepKeepsExclusive(s: Sys, row: Case, agents: seq<string>, e: Step)
    requires Exclusive(s, row, agents) && Enabled(s, e)
    ensures Exclusive(After(s, agents, e), row, agents)
  {
    if e.Write? {
      WriteKeepsExclusive(s, row, agents, e);
    } else if e.Commit? {
      CommitKeepsExclusive(s, row, agents, e);
    } else {
      QuietStepKeepsExclusive(s, row, agents, e);
    }
  }

  lemma {:induction false} RunKeepsExclusive(s: Sys, row: Case, agents: seq<string>, steps: seq<Step>)
    requires Exclusive(s, row, agents) && IsRun(s, agents, steps)
    ensures Exclusive(EndOf(s, agents, steps), row, agents)
    decreases |steps|
  {
    if steps != [] {
      StepKeepsExclusive(s, row, agents, steps[0]);
      RunKeepsExclusive(After(s, agents, steps[0]), row, agents, steps[1..]);
    }
  }

  /** However any number of claims interleave and abort, at most one commits. The row then is the
      original one, assigned once, to the agent of that claim; otherwise it is unchanged. */
  lemma AtMostOneClaimCommits(row: Case, agents: seq<string>, steps: seq<Step>, t: nat, u: nat)
    requires IsRun(Start(row, |agents|), agents, steps)
    ensures var end := EndOf(Start(row, |agents|), agents, steps);
            (Won(end, t) && Won(end, u) ==> t == u) &&
            (Won(end, t) ==> Claimable(row) && IsClaimOf(row, agents[t], end.row) &&
                             |end.row.assignLog| == |row.assignLog| + 1 && row.assignLog <= end.row.assignLog) &&
            ((forall w: nat :: !Won(end, w)) ==> end.row == row)
  {
    RunKeepsExclusive(Start(row, |agents|), row, agents, steps);
  }

  predicate NoAborts(steps: seq<Step>) {
    forall i :: 0 <= i < |steps| ==> !steps[i].Abort?
  }

  /** Nobody is turned away for nothing: a refused claim met the lock of another one or its result. */
  ghost predicate RefusedForAReason(s: Sys) {
    (forall t: nat :: t < |s.phases| ==> !s.phases[t].Aborted?) &&
    ((exists t: nat :: t < |s.phases| && s.phases[t].Refused?) ==> s.lock.Some? || exists w: nat :: Won(s, w))
  }

  lemma StepKeepsReason(s: Sys, row: Case, agents: seq<string>, e: Step)
    requires Exclusive(s, row, agents) && RefusedForAReason(s) && Claimable(row)
    requires Enabled(s, e) && !e.Abort?
    ensures RefusedForAReason(After(s, agents, e))
  {
    var next := After(s, agents, e);
    assert forall t: nat :: t < |s.phases| && t != e.t ==> next.phases[t] == s.phases[t];
    assert forall t: nat :: Won(s, t) ==> Won(next, t);
    if e.Commit? {
      assert Won(next, e.t);
    }
  }

  lemma {:induction false} RunKeepsReason(s: Sys, row: Case, agents: seq<string>, steps: seq<Step>)
    requires Exclusive(s, row, agents) && RefusedForAReason(s) && Claimable(row)
    requires IsRun(s, agents, steps) && NoAborts(steps)
    ensures RefusedForAReason(EndOf(s, agents, steps))
    decreases |steps|
  {
    if steps != [] {
      StepKeepsExclusive(s, row, agents, steps[0]);
      StepKeepsReason(s, row, agents, steps[0]);
      RunKeepsReason(After(s, agents, steps[0]), row, agents, steps[1..]);
    }
  }

  /** When the case can be claimed, nobody aborts, every claim has ended and at least one agent
      passed its validation, exactly one claim has won. */
  lemma ExactlyOneClaimWins(row: Case, agents: seq<string>, steps: seq<Step>, v: nat) returns (winner: nat)
    requires Claimable(row) && IsRun(Start(row, |agents|), agents, steps) && NoAborts(steps)
    requires var end := EndOf(Start(row, |agents|), agents, steps);
             (forall t: nat :: t < |end.phases| ==> Finished(end.phases[t])) &&
             v < |end.phases| && !end.phases[v].NotAvailable?
    ensures var end := EndOf(Start(row, |agents|), agents, steps);
            forall t: nat :: Won(end, t) <==> t == winner
  {
    var start := Start(row, |agents|);
    RunKeepsExclusive(start, row, agents, steps);
    RunKeepsReason(start, row, agents, steps);
    var end := EndOf(start, agents, steps);
    if end.phases[v].Committed? {
      winner := v;
      assert Won(end, v);
    } else {
      assert end.phases[v].Refused?;
      assert end.lock.Some? ==> Locks(end.phases[end.lock.value]);
      winner :| Won(end, winner);
    }
  }
}
