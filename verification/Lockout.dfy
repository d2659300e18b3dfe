/** Login lockout: a fixed-window failure counter plus a lock marker, for one identifier and address. */
module Lockout {
  import opened Wrappers
  import opened TtlStore

  datatype Policy = Policy(maxAttempts: int, window: int)

  datatype Guard = Guard(attempts: Cell<nat>, until: Cell<int>)

  const FRESH := Guard(Absent, Absent)

  /** A login request; `valid` says whether the user exists and the password matches. */
  datatype Attempt = Attempt(at: int, valid: bool)

  datatype Outcome = Locked(until: int) | WrongPassword | LoggedIn

  function Failed(g: Guard, p: Policy, now: int): Guard {
    var attempts := Bump(g.attempts, p.window, now);
    Guard(attempts, if attempts.value >= p.maxAttempts then SetEx(now + p.window, p.window, now) else g.until)
  }

  function After(g: Guard, p: Policy, a: Attempt): (Guard, Outcome) {
    if Live(g.until, a.at) then (g, Locked(g.until.value))
    else if a.valid then (FRESH, LoggedIn)
    else (Failed(g, p, a.at), WrongPassword)
  }

  predicate Ordered(trace: seq<Attempt>) {
    forall i, j :: 0 <= i <= j < |trace| ==> trace[i].at <= trace[j].at
  }

  /** The time of the latest of the first `k` requests. */
  function ClockAt(trace: seq<Attempt>, k: nat): int
    requires k <= |trace|
  {
    if trace == [] then 0 else if k == 0 then trace[0].at else trace[k - 1].at
  }

  /** The keys after the first `k` requests. */
  function GuardAfter(trace: seq<Attempt>, p: Policy, k: nat): Guard
    requires k <= |trace|
  {
    if k == 0 then FRESH else After(GuardAfter(trace, p, k - 1), p, trace[k - 1]).0
  }

  function OutcomeAt(trace: seq<Attempt>, p: Policy, k: nat): Outcome
    requires k < |trace|
  {
    After(GuardAfter(trace, p, k), p, trace[k]).1
  }

  /** Failed password checks among requests i..j with a time in [from, from + window). */
  function FailuresIn(trace: seq<Attempt>, p: Policy, from: int, i: nat, j: nat): nat
    requires i <= j <= |trace|
    decreases j - i
  {
    if i == j then 0
    else
      (if from <= trace[i].at < from + p.window && OutcomeAt(trace, p, i) == WrongPassword then 1 else 0)
      + FailuresIn(trace, p, from, i + 1, j)
  }

  function LockoutBound(p: Policy): nat {
    if p.maxAttempts <= 1 then 1 else 2 * p.maxAttempts - 2
  }

  function PerEpoch(p: Policy): nat {
    if p.maxAttempts <= 1 then 1 else p.maxAttempts
  }

  /** A counter that reached the limit never outlives the lock marker it raised. */
  predicate Consistent(g: Guard, p: Policy, clock: int) {
    (g.attempts.Held? ==>
       g.attempts.value >= 1 && g.attempts.expiry.Some? && g.attempts.expiry.value <= clock + p.window) &&
    (g.until.Held? ==> g.until.expiry.Some?) &&
    (g.attempts.Held? && g.attempts.value >= p.maxAttempts ==>
       g.until.Held? && g.attempts.expiry.value <= g.until.expiry.value)
  }

  lemma {:induction false} ReachableConsistent(trace: seq<Attempt>, p: Policy, k: nat)
    requires p.window >= 1 && k <= |trace| && Ordered(trace)
    ensures Consistent(GuardAfter(trace, p, k), p, ClockAt(trace, k))
  {
    if k > 0 {
      ReachableConsistent(trace, p, k - 1);
    }
  }

  /** What a stretch without a successful login can still fail inside the window. */
  function Budget(g: Guard, p: Policy, from: int, clock: int): int
    requires Consistent(g, p, clock)
  {
    if from + p.window <= clock then 0
    else if g.attempts.Absent? then LockoutBound(p)
    else
      var n, expiry := g.attempts.value, g.attempts.expiry.value;
      if n >= p.maxAttempts then
        var lifted := g.until.expiry.value;
        if from + p.window <= lifted then 0 else if from <= lifted then PerEpoch(p) else LockoutBound(p)
      else if expiry <= from then LockoutBound(p)
      else if expiry < from + p.window then PerEpoch(p) + p.maxAttempts - 1 - n
      else p.maxAttempts - n
  }

  /** One request that does not log in uses no more of the budget than it counts. */
  lemma BudgetCoversAttempt(g: Guard, p: Policy, a: Attempt, from: int, clock: int)
    requires p.window >= 1 && Consistent(g, p, clock) && clock <= a.at
    requires After(g, p, a).1 != LoggedIn && Consistent(After(g, p, a).0, p, a.at)
    ensures Budget(After(g, p, a).0, p, from, a.at)
            + (if from <= a.at < from + p.window && After(g, p, a).1 == WrongPassword then 1 else 0)
            <= Budget(g, p, from, clock)
  {
  }

  lemma BudgetCoversRequest(trace: seq<Attempt>, p: Policy, from: int, i: nat)
    requires p.window >= 1 && i < |trace| && Ordered(trace) && OutcomeAt(trace, p, i) != LoggedIn
    ensures Consistent(GuardAfter(trace, p, i), p, ClockAt(trace, i))
    ensures Consistent(GuardAfter(trace, p, i + 1), p, ClockAt(trace, i + 1))
    ensures Budget(GuardAfter(trace, p, i + 1), p, from, ClockAt(trace, i + 1))
            + (if from <= trace[i].at < from + p.window && OutcomeAt(trace, p, i) == WrongPassword then 1 else 0)
            <= Budget(GuardAfter(trace, p, i), p, from, ClockAt(trace, i))
  {
    ReachableConsistent(trace, p, i);
    ReachableConsistent(trace, p, i + 1);
    BudgetCoversAttempt(GuardAfter(trace, p, i), p, trace[i], from, ClockAt(trace, i));
  }

  lemma {:induction false} BudgetCoversStretch(trace: seq<Attempt>, p: Policy, from: int, i: nat, j: nat)
    requires p.window >= 1 && i <= j <= |trace| && Ordered(trace)
    requires forall k :: i <= k < j ==> OutcomeAt(trace, p, k) != LoggedIn
    ensures Consistent(GuardAfter(trace, p, i), p, ClockAt(trace, i))
    ensures FailuresIn(trace, p, from, i, j) <= Budget(GuardAfter(trace, p, i), p, from, ClockAt(trace, i))
    decreases j - i
  {
    ReachableConsistent(trace, p, i);
    if i < j {
      BudgetCoversRequest(trace, p, from, i);
      BudgetCoversStretch(trace, p, from, i + 1, j);
    }
  }

  /** Between two successful logins no interval of one window's length sees more than
      2 * maxAttempts - 2 evaluated wrong passwords. */
  lemma LockoutSlidingWindow(trace: seq<Attempt>, p: Policy, from: int, i: nat, j: nat)
    requires p.window >= 1 && i <= j <= |trace| && Ordered(trace)
    requires forall k :: i <= k < j ==> OutcomeAt(trace, p, k) != LoggedIn
    ensures FailuresIn(trace, p, from, i, j) <= LockoutBound(p)
  {
    BudgetCoversStretch(trace, p, from, i, j);
  }

  /** One failure opens a counter; the failures just before and just after it lapses stay below
      the limit until the very last one. */
  function WorstTrace(p: Policy): seq<Attempt>
    requires p.maxAttempts >= 2
  {
    seq(2 * p.maxAttempts - 1, i requires 0 <= i =>
      Attempt(if i == 0 then 0 else if i < p.maxAttempts - 1 then p.window - 1 else p.window, false))
  }

  lemma {:induction false} WorstTraceGuard(p: Policy, k: nat)
    requires p.maxAttempts >= 2 && p.window >= 2 && k < 2 * p.maxAttempts - 1
    ensures var g, m := GuardAfter(WorstTrace(p), p, k), p.maxAttempts;
            g.until == Absent &&
            (1 <= k < m ==> g.attempts == Held(k, Some(p.window))) &&
            (m <= k ==> g.attempts == Held(k - m + 1, Some(p.window + p.window)))
  {
    if k > 0 {
      WorstTraceGuard(p, k - 1);
    }
  }

  lemma {:induction false} WorstTraceCount(p: Policy, i: nat)
    requires p.maxAttempts >= 2 && p.window >= 2 && 1 <= i <= 2 * p.maxAttempts - 1
    ensures FailuresIn(WorstTrace(p), p, 1, i, 2 * p.maxAttempts - 1) == 2 * p.maxAttempts - 1 - i
    decreases 2 * p.maxAttempts - i
  {
    if i < 2 * p.maxAttempts - 1 {
      WorstTraceGuard(p, i);
      WorstTraceCount(p, i + 1);
    }
  }

  /** The bound is exact for every limit of two or more and every window of two ticks or more. */
  lemma LockoutBoundIsReached(p: Policy)
    requires p.maxAttempts >= 2 && p.window >= 2
    ensures Ordered(WorstTrace(p))
    ensures forall k :: 0 <= k < |WorstTrace(p)| ==> OutcomeAt(WorstTrace(p), p, k) != LoggedIn
    ensures FailuresIn(WorstTrace(p), p, 1, 0, |WorstTrace(p)|) == LockoutBound(p)
  {
    WorstTraceCount(p, 1);
    forall k: nat | k < |WorstTrace(p)| ensures OutcomeAt(WorstTrace(p), p, k) != LoggedIn {
      WorstTraceGuard(p, k);
    }
  }

  // ---- Every answer, from the earlier ones ----

  /** Index of the failure that opened the count standing after the first `k` requests: a success wipes
      the count, and the first failure one window after the opening starts a new one. */
  function CountOpener(trace: seq<Attempt>, p: Policy, k: nat): (s: Option<nat>)
    requires k <= |trace|
    ensures s.Some? ==> s.value < k
  {
    if k == 0 then None
    else
      var before, last := CountOpener(trace, p, k - 1), OutcomeAt(trace, p, k - 1);
      if last == LoggedIn then None
      else if last.Locked? then before
      else if before.Some? && trace[k - 1].at < trace[before.value].at + p.window then before
      else Some(k - 1)
  }

  /** Wrong passwords among requests s..k. */
  function WrongOnes(trace: seq<Attempt>, p: Policy, s: nat, k: nat): nat
    requires s <= k <= |trace|
  {
    if s == k then 0 else WrongOnes(trace, p, s, k - 1) + (if OutcomeAt(trace, p, k - 1) == WrongPassword then 1 else 0)
  }

  /** Request `j` was a wrong password that brought its count to the limit. */
  predicate Locks(trace: seq<Attempt>, p: Policy, j: nat) {
    j < |trace| && OutcomeAt(trace, p, j) == WrongPassword && CountOpener(trace, p, j + 1).Some? &&
    WrongOnes(trace, p, CountOpener(trace, p, j + 1).value, j + 1) >= p.maxAttempts
  }

  /** When the latest lock among the first `k` requests ends; a success lifts it. */
  function LockEnd(trace: seq<Attempt>, p: Policy, k: nat): Option<int>
    requires k <= |trace|
  {
    if k == 0 || OutcomeAt(trace, p, k - 1) == LoggedIn then None
    else if Locks(trace, p, k - 1) then Some(trace[k - 1].at + p.window)
    else LockEnd(trace, p, k - 1)
  }

  lemma {:induction false} CounterIsExact(trace: seq<Attempt>, p: Policy, k: nat)
    requires k <= |trace| && Ordered(trace) && p.window >= 1
    ensures var s := CountOpener(trace, p, k);
            GuardAfter(trace, p, k).attempts ==
              if s.None? then Absent else Held(WrongOnes(trace, p, s.value, k), Some(trace[s.value].at + p.window))
    ensures var s := CountOpener(trace, p, k); s.Some? ==> WrongOnes(trace, p, s.value, k) >= 1
  {
    if k > 0 {
      CounterIsExact(trace, p, k - 1);
      assert WrongOnes(trace, p, k - 1, k - 1) == 0;
    }
  }

  lemma {:induction false} MarkerIsExact(trace: seq<Attempt>, p: Policy, k: nat)
    requires k <= |trace| && Ordered(trace) && p.window >= 1
    ensures var end := LockEnd(trace, p, k);
            GuardAfter(trace, p, k).until == if end.None? then Absent else Held(end.value, end)
  {
    if k > 0 {
      MarkerIsExact(trace, p, k - 1);
      CounterIsExact(trace, p, k);
    }
  }

  /** The answer to a login request, in every run: it is locked out exactly until the latest lock
      ends; otherwise the password decides. */
  lemma LoginIsExact(trace: seq<Attempt>, p: Policy, k: nat)
    requires k < |trace| && Ordered(trace) && p.window >= 1
    ensures var end := LockEnd(trace, p, k);
            OutcomeAt(trace, p, k) ==
              if end.Some? && trace[k].at < end.value then Locked(end.value)
              else if trace[k].valid then LoggedIn else WrongPassword
  {
    MarkerIsExact(trace, p, k);
  }

  class AuthService {
    const policy: Policy
    var attempts: map<string, Cell<nat>>
    var until: map<string, Cell<int>>

    constructor (policy: Policy)
      ensures this.policy == policy && attempts == map[] && until == map[]
    {
      this.policy := policy;
      attempts, until := map[], map[];
    }

    /** The two keys kept for one identifier and address. */
    function View(who: string): Guard
      reads this
    {
      Guard(if who in attempts then attempts[who] else Absent, if who in until then until[who] else Absent)
    }

    method AssertNotLocked(who: string, now: int) returns (r: Result<(), int>)
      ensures r == if Live(View(who).until, now) then Err(View(who).until.value) else Ok(())
    {
      var marker := View(who).until;
      if Live(marker, now) {
        return Err(marker.value);
      }
      return Ok(());
    }

    method RecordLoginFailure(who: string, now: int)
      requires policy.window >= 1
      modifies this
      ensures View(who) == Failed(old(View(who)), policy, now)
      ensures forall other :: other != who ==> View(other) == old(View(other))
    {
      attempts := attempts[who := Incr(View(who).attempts, now)];
      var current := attempts[who].value;
      if current == 1 {
        attempts := attempts[who := Expire(attempts[who], policy.window, now)];
      }
      if current >= policy.maxAttempts {
        until := until[who := SetEx(now + policy.window, policy.window, now)];
      }
    }

    method ClearLockout(who: string)
      modifies this
      ensures View(who) == FRESH
      ensures forall other :: other != who ==> View(other) == old(View(other))
    {
      attempts := attempts - {who};
      until := until - {who};
    }

    /** The part of a login request that decides whether the password is looked at. */
    method Login(who: string, valid: bool, now: int) returns (outcome: Outcome)
      requires policy.window >= 1
      modifies this
      ensures (View(who), outcome) == After(old(View(who)), policy, Attempt(now, valid))
      ensures forall other :: other != who ==> View(other) == old(View(other))
    {
      var check := AssertNotLocked(who, now);
      if check.Err? {
        return Locked(check.error);
      }
      if !valid {
        RecordLoginFailure(who, now);
        return WrongPassword;
      }
      ClearLockout(who);
      return LoggedIn;
    }
  }
}
