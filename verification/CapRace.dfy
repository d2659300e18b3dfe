/** Assignments to one agent that are checked, written and committed concurrently. */
module CapRace {
  import opened Wrappers
  import opened Lifecycle
  import opened Assignments
  import DailyCap

  /** A transaction that passed the cap check; its entry is stamped when it is written. */
  datatype Flight = Checked | Written(at: int)

  /** The committed assignment log, and the transactions in flight for the agent. */
  datatype Sys = Sys(now: int, log: seq<AssignEntry>, flights: map<nat, Flight>)

  datatype Limits = Limits(agent: string, cap: nat, inFlight: nat)

  datatype Step =
    | Tick(seconds: nat)
    | Check(txn: nat)
    | Write(txn: nat)
    | Commit(txn: nat)
    | Abort(txn: nat)
    | OtherAgent(entry: AssignEntry)

  function CountToday(s: Sys, l: Limits): nat {
    CountSince(s.log, l.agent, DayStart(s.now))
  }

  function EntryOf(l: Limits, at: int): AssignEntry {
    AssignEntry(None, l.agent, l.agent, StaffAgent, at)
  }

  predicate Enabled(s: Sys, l: Limits, e: Step) {
    match e
    case Tick(_) => true
    case Check(t) => t !in s.flights && |s.flights| < l.inFlight && CountToday(s, l) < l.cap
    case Write(t) => t in s.flights && s.flights[t].Checked?
    case Commit(t) => t in s.flights && s.flights[t].Written?
    case Abort(t) => t in s.flights
    case OtherAgent(entry) => entry.agent != l.agent
  }

  function After(s: Sys, l: Limits, e: Step): Sys
    requires Enabled(s, l, e)
  {
    match e
    case Tick(d) => s.(now := s.now + d)
    case Check(t) => s.(flights := s.flights[t := Checked])
    case Write(t) => s.(flights := s.flights[t := Written(s.now)])
    case Commit(t) => s.(log := s.log + [EntryOf(l, s.flights[t].at)], flights := s.flights - {t})
    case Abort(t) => s.(flights := s.flights - {t})
    case OtherAgent(entry) => s.(log := s.log + [entry])
  }

  predicate IsRun(s: Sys, l: Limits, steps: seq<Step>)
    decreases |steps|
  {
    steps == [] || (Enabled(s, l, steps[0]) && IsRun(After(s, l, steps[0]), l, steps[1..]))
  }

  function EndOf(s: Sys, l: Limits, steps: seq<Step>): Sys
    requires IsRun(s, l, steps)
    decreases |steps|
  {
    if steps == [] then s else EndOf(After(s, l, steps[0]), l, steps[1..])
  }

  /** What is committed for today and what may still be. */
  predicate Bounded(s: Sys, l: Limits) {
    CountToday(s, l) + |s.flights| <= l.cap + l.inFlight - 1
  }

  lemma CommitKeepsBound(s: Sys, l: Limits, t: nat)
    requires Bounded(s, l) && Enabled(s, l, Commit(t))
    ensures Bounded(After(s, l, Commit(t)), l)
  {
    assert (s.flights - {t}).Keys == s.flights.Keys - {t};
    DailyCap.CountOneMore(s.log, EntryOf(l, s.flights[t].at), l.agent, DayStart(s.now));
  }

  lemma FlightsKeepBound(s: Sys, l: Limits, e: Step)
    requires Bounded(s, l) && Enabled(s, l, e) && (e.Check? || e.Write? || e.Abort?)
    ensures Bounded(After(s, l, e), l)
  {
    match e
    case Check(t) => assert s.flights[t := Checked].Keys == s.flights.Keys + {t};
    case Write(t) => assert s.flights[t := Written(s.now)].Keys == s.flights.Keys;
    case Abort(t) => assert (s.flights - {t}).Keys == s.flights.Keys - {t};
  }

  lemma StepKeepsBound(s: Sys, l: Limits, e: Step)
    requires Bounded(s, l) && Enabled(s, l, e)
    ensures Bounded(After(s, l, e), l)
  {
    if e.Tick? {
      DailyCap.CountFalls(s.log, l.agent, DayStart(s.now), DayStart(s.now + e.seconds));
    } else if e.Commit? {
      CommitKeepsBound(s, l, e.txn);
    } else if e.OtherAgent? {
      DailyCap.CountOneMore(s.log, e.entry, l.agent, DayStart(s.now));
    } else {
      FlightsKeepBound(s, l, e);
    }
  }

  lemma {:induction false} RunKeepsBound(s: Sys, l: Limits, steps: seq<Step>)
    requires Bounded(s, l) && IsRun(s, l, steps)
    ensures Bounded(EndOf(s, l, steps), l)
    decreases |steps|
  {
    if steps != [] {
      StepKeepsBound(s, l, steps[0]);
      RunKeepsBound(After(s, l, steps[0]), l, steps[1..]);
    }
  }

  /** With at most `inFlight` check-then-commit transactions at a time, the committed count of the
      day never passes cap + inFlight - 1, whatever the interleaving. */
  lemma CapOverrunIsBounded(s: Sys, l: Limits, steps: seq<Step>)
    requires l.inFlight >= 1 && s.flights == map[] && CountToday(s, l) <= l.cap && IsRun(s, l, steps)
    ensures CountToday(EndOf(s, l, steps), l) <= l.cap + l.inFlight - 1
  {
    RunKeepsBound(s, l, steps);
  }

  // ---- The same for every day ----

  /** Assignments of an agent in one log that are stamped on a day, given by its first second. */
  function CountOn(log: seq<AssignEntry>, a: string, day: int): nat {
    if log == [] then 0
    else
      var last := log[|log| - 1];
      CountOn(log[..|log| - 1], a, day) + (if last.agent == a && DayStart(last.at) == day then 1 else 0)
  }

  /** A transaction that is not written yet can be stamped today or later. */
  predicate MayLandOn(f: Flight, day: int, now: int) {
    match f
    case Checked => DayStart(now) <= day
    case Written(at) => DayStart(at) == day
  }

  function Landing(s: Sys, day: int): set<nat> {
    set t | t in s.flights && MayLandOn(s.flights[t], day, s.now)
  }

  predicate DayBounded(s: Sys, l: Limits, day: int) {
    CountOn(s.log, l.agent, day) + |Landing(s, day)| <= l.cap + l.inFlight - 1
  }

  lemma CountOnOneMore(log: seq<AssignEntry>, e: AssignEntry, a: string, day: int)
    ensures CountOn(log + [e], a, day)
         == CountOn(log, a, day) + (if e.agent == a && DayStart(e.at) == day then 1 else 0)
  {
    assert (log + [e])[..|log|] == log;
  }

  /** The check counts everything from midnight on, and so at least what is stamped on that day. */
  lemma {:induction false} CheckCoversDay(log: seq<AssignEntry>, a: string, day: int, since: int)
    requires since <= day
    ensures CountOn(log, a, day) <= CountSince(log, a, since)
  {
    if log != [] {
      CheckCoversDay(log[..|log| - 1], a, day, since);
    }
  }

  lemma SubsetIsSmaller(a: set<nat>, b: set<nat>)
    requires a <= b
    ensures |a| <= |b|
  {
    assert b == a + (b - a);
  }

  lemma CheckKeepsDayBound(s: Sys, l: Limits, t: nat, day: int)
    requires DayBounded(s, l, day) && Enabled(s, l, Check(t))
    ensures DayBounded(After(s, l, Check(t)), l, day)
  {
    var next := After(s, l, Check(t));
    if DayStart(s.now) <= day {
      CheckCoversDay(s.log, l.agent, day, DayStart(s.now));
      assert next.flights.Keys == s.flights.Keys + {t};
      SubsetIsSmaller(Landing(next, day), next.flights.Keys);
    } else {
      assert Landing(next, day) == Landing(s, day);
    }
  }

  lemma CommitKeepsDayBound(s: Sys, l: Limits, t: nat, day: int)
    requires DayBounded(s, l, day) && Enabled(s, l, Commit(t))
    ensures DayBounded(After(s, l, Commit(t)), l, day)
  {
    CountOnOneMore(s.log, EntryOf(l, s.flights[t].at), l.agent, day);
    assert Landing(After(s, l, Commit(t)), day) == Landing(s, day) - {t};
  }

  lemma StepKeepsDayBound(s: Sys, l: Limits, e: Step, day: int)
    requires DayBounded(s, l, day) && Enabled(s, l, e)
    ensures DayBounded(After(s, l, e), l, day)
  {
    if e.Check? {
      CheckKeepsDayBound(s, l, e.txn, day);
    } else if e.Commit? {
      CommitKeepsDayBound(s, l, e.txn, day);
    } else {
      SubsetIsSmaller(Landing(After(s, l, e), day), Landing(s, day));
      if e.OtherAgent? {
        CountOnOneMore(s.log, e.entry, l.agent, day);
      }
    }
  }

  lemma {:induction false} RunKeepsDayBound(s: Sys, l: Limits, steps: seq<Step>, day: int)
    requires DayBounded(s, l, day) && IsRun(s, l, steps)
    ensures DayBounded(EndOf(s, l, steps), l, day)
    decreases |steps|
  {
    if steps != [] {
      StepKeepsDayBound(s, l, steps[0], day);
      RunKeepsDayBound(After(s, l, steps[0]), l, steps[1..], day);
    }
  }

  /** The entries stamped on any one day, past ones included, stay within the bound, also those that
      are stamped before midnight and committed after it. */
  lemma EveryDayOverrunIsBounded(s: Sys, l: Limits, steps: seq<Step>, day: int)
    requires l.inFlight >= 1 && s.flights == map[] && CountOn(s.log, l.agent, day) <= l.cap && IsRun(s, l, steps)
    ensures CountOn(EndOf(s, l, steps).log, l.agent, day) <= l.cap + l.inFlight - 1
  {
    assert Landing(s, day) == {};
    RunKeepsDayBound(s, l, steps, day);
  }

  // ---- The bound is reached ----

  /** Transactions `from` up to `until` have all passed the check. */
  predicate InFlight(s: Sys, from: nat, until: nat) {
    forall t :: from <= t < until ==> t in s.flights && s.flights[t].Checked?
  }

  function Checks(from: nat, until: nat): seq<Step>
    requires from <= until
    decreases until - from
  {
    if from == until then [] else [Check(from)] + Checks(from + 1, until)
  }

  function Landings(from: nat, until: nat): seq<Step>
    requires from <= until
    decreases until - from
  {
    if from == until then [] else [Write(from), Commit(from)] + Landings(from + 1, until)
  }

  lemma {:induction false} LandAll(s: Sys, l: Limits, from: nat, until: nat)
    requires from <= until && InFlight(s, from, until)
    ensures IsRun(s, l, Landings(from, until))
    ensures CountToday(EndOf(s, l, Landings(from, until)), l) == CountToday(s, l) + (until - from)
    decreases until - from
  {
    if from < until {
      var steps := Landings(from, until);
      var written := After(s, l, Write(from));
      var landed := After(written, l, Commit(from));
      assert steps[1..][1..] == Landings(from + 1, until) && steps[1..][0] == Commit(from);
      DailyCap.CountOneMore(s.log, EntryOf(l, s.now), l.agent, DayStart(s.now));
      LandAll(landed, l, from + 1, until);
      assert IsRun(written, l, steps[1..]);
    }
  }

  /** The transactions below `n`, and no others, are in flight. */
  predicate FirstChecked(s: Sys, n: nat) {
    InFlight(s, 0, n) && |s.flights| == n && forall t :: t in s.flights ==> t < n
  }

  lemma CheckOneMore(s: Sys, l: Limits, n: nat)
    requires n < l.inFlight && FirstChecked(s, n) && CountToday(s, l) < l.cap
    ensures Enabled(s, l, Check(n)) && FirstChecked(After(s, l, Check(n)), n + 1)
  {
    assert After(s, l, Check(n)).flights.Keys == s.flights.Keys + {n};
  }

  lemma {:induction false} CheckAllThenLand(s: Sys, l: Limits, n: nat)
    requires n <= l.inFlight && FirstChecked(s, n) && CountToday(s, l) < l.cap
    ensures IsRun(s, l, Checks(n, l.inFlight) + Landings(0, l.inFlight))
    ensures CountToday(EndOf(s, l, Checks(n, l.inFlight) + Landings(0, l.inFlight)), l) == CountToday(s, l) + l.inFlight
    decreases l.inFlight as int - n
  {
    var steps := Checks(n, l.inFlight) + Landings(0, l.inFlight);
    if n == l.inFlight {
      assert steps == Landings(0, n);
      LandAll(s, l, 0, n);
    } else {
      CheckOneMore(s, l, n);
      var next := After(s, l, Check(n));
      assert steps[0] == Check(n) && steps[1..] == Checks(n + 1, l.inFlight) + Landings(0, l.inFlight);
      CheckAllThenLand(next, l, n + 1);
    }
  }

  /** From one below the cap, transactions that are all checked before any commits reach the bound. */
  lemma CapOverrunIsReached(s: Sys, l: Limits)
    requires l.cap >= 1 && s.flights == map[] && CountToday(s, l) == l.cap - 1
    ensures IsRun(s, l, Checks(0, l.inFlight) + Landings(0, l.inFlight))
    ensures CountToday(EndOf(s, l, Checks(0, l.inFlight) + Landings(0, l.inFlight)), l) == l.cap + l.inFlight - 1
  {
    CheckAllThenLand(s, l, 0);
  }
}
