/** One-time-code challenges: a code with a guess budget under an expiring key. */
module Otp {
  import opened Wrappers
  import opened TtlStore

  datatype Policy = Policy(maxAttempts: int, ttl: int, resendCooldown: int)

  datatype Challenge = Challenge(code: string, attemptsRemaining: int, expiresAt: int)

  /** The two keys kept per challenge id. */
  datatype Box = Box(challenge: Cell<Challenge>, cooldown: Cell<()>)

  const EMPTY := Box(Absent, Absent)

  datatype Event = Create(at: int, code: string) | Resend(at: int, code: string) | Verify(at: int, submitted: string)

  datatype Outcome = Created | CoolingDown | Expired | Wrong(remaining: int) | Right

  function Issued(p: Policy, code: string, now: int): Cell<Challenge> {
    SetEx(Challenge(code, p.maxAttempts, now + p.ttl), p.ttl, now)
  }

  /** The TTL command on a live key that has an expiry, and -1 on one that has none. */
  function Ttl<V>(c: Cell<V>, now: int): int
    requires Live(c, now)
  {
    if c.expiry.Some? then c.expiry.value - now else -1
  }

  function Guessed(c: Cell<Challenge>, submitted: string, now: int): (Cell<Challenge>, Outcome) {
    if !Live(c, now) then (c, Expired)
    else if c.value.code == submitted then (Absent, Right)
    else
      var left := c.value.attemptsRemaining - 1;
      if left <= 0 then (Absent, Wrong(0))
      else
        var ttl := Ttl(c, now);
        (SetEx(c.value.(attemptsRemaining := left), if ttl > 1 then ttl else 1, now), Wrong(left))
  }

  function After(b: Box, p: Policy, e: Event): (Box, Outcome) {
    match e
    case Create(now, code) => (b.(challenge := Issued(p, code, now)), Created)
    case Resend(now, code) =>
      if Live(b.cooldown, now) then (b, CoolingDown)
      else (Box(Issued(p, code, now), SetEx((), p.resendCooldown, now)), Created)
    case Verify(now, submitted) =>
      var (cell, outcome) := Guessed(b.challenge, submitted, now);
      (b.(challenge := cell), outcome)
  }

  function BoxAfter(trace: seq<Event>, p: Policy, k: nat): Box
    requires k <= |trace|
  {
    if k == 0 then EMPTY else After(BoxAfter(trace, p, k - 1), p, trace[k - 1]).0
  }

  function OutcomeAt(trace: seq<Event>, p: Policy, k: nat): Outcome
    requires k < |trace|
  {
    After(BoxAfter(trace, p, k), p, trace[k]).1
  }

  predicate Evaluated(o: Outcome) {
    o.Wrong? || o.Right?
  }

  function Guesses(trace: seq<Event>, p: Policy, i: nat, j: nat): nat
    requires i <= j <= |trace|
  {
    if i == j then 0 else Guesses(trace, p, i, j - 1) + (if Evaluated(OutcomeAt(trace, p, j - 1)) then 1 else 0)
  }

  function Creations(trace: seq<Event>, p: Policy, k: nat): nat
    requires k <= |trace|
  {
    if k == 0 then 0 else Creations(trace, p, k - 1) + (if OutcomeAt(trace, p, k - 1) == Created then 1 else 0)
  }

  /** A challenge accepts at least one guess, even when the configured budget is not positive. */
  function GuessBudget(p: Policy): nat {
    if p.maxAttempts <= 1 then 1 else p.maxAttempts
  }

  /** Guesses that the stored challenge would still evaluate if its key never lapsed. */
  function Remaining(b: Box): nat {
    if b.challenge.Absent? then 0
    else if b.challenge.value.attemptsRemaining <= 1 then 1
    else b.challenge.value.attemptsRemaining
  }

  lemma AddBudget(budget: nat, n: nat)
    ensures budget * (n + 1) == budget * n + budget
  {
  }

  /** Only a creation adds guesses, and every evaluated one uses one up. */
  lemma EventSpendsGuesses(b: Box, p: Policy, e: Event)
    ensures var (next, o) := After(b, p, e);
            o == Created ==> Remaining(next) == GuessBudget(p)
    ensures var (next, o) := After(b, p, e);
            o != Created ==> Remaining(next) + (if Evaluated(o) then 1 else 0) <= Remaining(b)
  {
  }

  /** Evaluated guesses plus the guesses still open never exceed the budget of all challenges
      created, over any run. */
  lemma {:induction false} GuessBudgetHolds(trace: seq<Event>, p: Policy, k: nat)
    requires k <= |trace|
    ensures Guesses(trace, p, 0, k) + Remaining(BoxAfter(trace, p, k)) <= GuessBudget(p) * Creations(trace, p, k)
  {
    if k > 0 {
      GuessBudgetHolds(trace, p, k - 1);
      EventSpendsGuesses(BoxAfter(trace, p, k - 1), p, trace[k - 1]);
      AddBudget(GuessBudget(p), Creations(trace, p, k - 1));
    }
  }

  /** One challenge is guessed at most GuessBudget times before the next one is created. */
  lemma {:induction false} GuessesPerChallenge(trace: seq<Event>, p: Policy, i: nat, j: nat)
    requires i <= j <= |trace|
    requires forall k :: i <= k < j ==> OutcomeAt(trace, p, k) != Created
    ensures Guesses(trace, p, i, j) + Remaining(BoxAfter(trace, p, j))
         <= Remaining(BoxAfter(trace, p, i)) <= GuessBudget(p)
  {
    RemainingWithinBudget(trace, p, i);
    if i < j {
      GuessesPerChallenge(trace, p, i, j - 1);
      EventSpendsGuesses(BoxAfter(trace, p, j - 1), p, trace[j - 1]);
      assert OutcomeAt(trace, p, j - 1) != Created;
    }
  }

  lemma {:induction false} RemainingWithinBudget(trace: seq<Event>, p: Policy, k: nat)
    requires k <= |trace|
    ensures Remaining(BoxAfter(trace, p, k)) <= GuessBudget(p)
  {
    if k > 0 {
      RemainingWithinBudget(trace, p, k - 1);
    }
  }

  /** Between two successes a challenge was created: none succeeds twice. */
  lemma {:induction false} SuccessIsSpent(trace: seq<Event>, p: Policy, i: nat, j: nat)
    requires i < j < |trace|
    requires OutcomeAt(trace, p, i) == Right && OutcomeAt(trace, p, j) == Right
    ensures exists k :: i < k < j && OutcomeAt(trace, p, k) == Created
  {
    if forall k :: i < k < j ==> OutcomeAt(trace, p, k) != Created {
      GuessesPerChallenge(trace, p, i + 1, j);
    }
  }

  /** The time of the latest creation among the first `k` events, if any. */
  function LastCreation(trace: seq<Event>, p: Policy, k: nat): Option<int>
    requires k <= |trace|
  {
    if k == 0 then None
    else if OutcomeAt(trace, p, k - 1) == Created then Some(trace[k - 1].at)
    else LastCreation(trace, p, k - 1)
  }

  /** Wrong guesses rewrite the key but never move its expiry: it stays at creation plus TTL, the
      moment that the stored record announces. */
  lemma {:induction false} ExpiryIsFixedAtCreation(trace: seq<Event>, p: Policy, k: nat)
    requires k <= |trace| && p.ttl >= 1
    ensures var c := BoxAfter(trace, p, k).challenge;
            c.Held? ==> LastCreation(trace, p, k).Some? &&
                        c.expiry == Some(LastCreation(trace, p, k).value + p.ttl) &&
                        c.value.expiresAt == LastCreation(trace, p, k).value + p.ttl
  {
    if k > 0 {
      ExpiryIsFixedAtCreation(trace, p, k - 1);
    }
  }

  predicate Ordered(trace: seq<Event>) {
    forall i, j :: 0 <= i <= j < |trace| ==> trace[i].at <= trace[j].at
  }

  lemma {:induction false} CooldownHolds(trace: seq<Event>, p: Policy, i: nat, k: nat)
    requires Ordered(trace) && i < k <= |trace|
    requires trace[i].Resend? && OutcomeAt(trace, p, i) == Created
    ensures var c := BoxAfter(trace, p, k).cooldown;
            c.Held? && c.expiry.Some? && trace[i].at + p.resendCooldown <= c.expiry.value
  {
    if i + 1 < k {
      CooldownHolds(trace, p, i, k - 1);
    }
  }

  /** Two codes that were sent again are at least one cooldown apart. */
  lemma ResendsAreSpaced(trace: seq<Event>, p: Policy, i: nat, j: nat)
    requires Ordered(trace) && i < j < |trace|
    requires trace[i].Resend? && OutcomeAt(trace, p, i) == Created
    requires trace[j].Resend? && OutcomeAt(trace, p, j) == Created
    ensures trace[j].at >= trace[i].at + p.resendCooldown
  {
    CooldownHolds(trace, p, i, j);
  }

  // ---- Every answer, from the events alone ----

  /** Index of the latest creation among the first `k` events. */
  function LatestCreation(trace: seq<Event>, p: Policy, k: nat): (i: Option<nat>)
    requires k <= |trace|
    ensures i.Some? ==> i.value < k && OutcomeAt(trace, p, i.value) == Created
    ensures i.Some? ==> forall j :: i.value < j < k ==> OutcomeAt(trace, p, j) != Created
    ensures i.None? ==> forall j :: 0 <= j < k ==> OutcomeAt(trace, p, j) != Created
  {
    if k == 0 then None
    else if OutcomeAt(trace, p, k - 1) == Created then Some(k - 1)
    else LatestCreation(trace, p, k - 1)
  }

  function CodeOf(e: Event): string {
    match e
    case Create(_, code) => code
    case Resend(_, code) => code
    case Verify(_, submitted) => submitted
  }

  /** How many codes were submitted among events i..k. */
  function Submissions(trace: seq<Event>, i: nat, k: nat): nat
    requires i <= k <= |trace|
  {
    if i == k then 0 else Submissions(trace, i, k - 1) + (if trace[k - 1].Verify? then 1 else 0)
  }

  /** Between events `i` and `k` the code of `i` was submitted. */
  predicate Solved(trace: seq<Event>, i: nat, k: nat)
    requires i < k <= |trace|
  {
    exists j :: i < j < k && trace[j].Verify? && trace[j].submitted == CodeOf(trace[i])
  }

  /** Nothing has ended the challenge that event `i` created: not its code, not its time, not its
      guesses. */
  predicate StillOpen(trace: seq<Event>, p: Policy, i: nat, k: nat, now: int)
    requires i < k <= |trace|
  {
    !Solved(trace, i, k) && now < trace[i].at + p.ttl && Submissions(trace, i + 1, k) < GuessBudget(p)
  }

  lemma SolvedGrows(trace: seq<Event>, i: nat, k: nat)
    requires i < k < |trace|
    ensures Solved(trace, i, k + 1) <==>
            Solved(trace, i, k) || (trace[k].Verify? && trace[k].submitted == CodeOf(trace[i]))
  {
    if j :| i < j < k + 1 && trace[j].Verify? && trace[j].submitted == CodeOf(trace[i]) {
      assert j < k ==> Solved(trace, i, k);
    }
  }

  /** What the key holds after the events since creation `i`: its code with the guesses left, until
      something ends it. */
  predicate KeptAs(c: Cell<Challenge>, trace: seq<Event>, p: Policy, i: nat, k: nat)
    requires i < k <= |trace|
  {
    var expiry := trace[i].at + p.ttl;
    if StillOpen(trace, p, i, k, trace[k - 1].at)
    then c == Held(Challenge(CodeOf(trace[i]), p.maxAttempts - Submissions(trace, i + 1, k), expiry), Some(expiry))
    else !Live(c, trace[k - 1].at)
  }

  /** A submission moves the key from one such state to the next. */
  lemma SubmissionKeeps(trace: seq<Event>, p: Policy, i: nat, k: nat, b: Box)
    requires Ordered(trace) && i < k < |trace| && KeptAs(b.challenge, trace, p, i, k) && trace[k].Verify?
    ensures KeptAs(After(b, p, trace[k]).0.challenge, trace, p, i, k + 1)
  {
    SolvedGrows(trace, i, k);
    assert trace[k - 1].at <= trace[k].at;
  }

  lemma {:induction false} KeyFollowsEvents(trace: seq<Event>, p: Policy, i: nat, k: nat)
    requires Ordered(trace) && p.ttl >= 1 && i < k <= |trace|
    requires OutcomeAt(trace, p, i) == Created && forall j :: i < j < k ==> OutcomeAt(trace, p, j) != Created
    ensures KeptAs(BoxAfter(trace, p, k).challenge, trace, p, i, k)
  {
    if i + 1 < k {
      KeyFollowsEvents(trace, p, i, k - 1);
      assert OutcomeAt(trace, p, k - 1) != Created;
      if trace[k - 1].Verify? {
        SubmissionKeeps(trace, p, i, k - 1, BoxAfter(trace, p, k - 1));
      } else {
        SolvedGrows(trace, i, k - 1);
        assert trace[k - 2].at <= trace[k - 1].at;
      }
    }
  }

  lemma {:induction false} NothingWithoutCreation(trace: seq<Event>, p: Policy, k: nat)
    requires k <= |trace| && forall j :: 0 <= j < k ==> OutcomeAt(trace, p, j) != Created
    ensures BoxAfter(trace, p, k).challenge == Absent
  {
    if k > 0 {
      NothingWithoutCreation(trace, p, k - 1);
      assert OutcomeAt(trace, p, k - 1) != Created;
    }
  }

  /** The answer to a submission, in every run: a challenge that is still open is solved by exactly
      the code that it was created with, and any other code is answered with the guesses that are
      left; otherwise, and if nothing was ever created, the code has expired. */
  lemma VerifyIsExact(trace: seq<Event>, p: Policy, k: nat)
    requires Ordered(trace) && p.ttl >= 1 && k < |trace| && trace[k].Verify?
    ensures OutcomeAt(trace, p, k) ==
      match LatestCreation(trace, p, k)
      case None => Expired
      case Some(i) =>
        var left := p.maxAttempts - Submissions(trace, i + 1, k) - 1;
        if !StillOpen(trace, p, i, k, trace[k].at) then Expired
        else if trace[k].submitted == CodeOf(trace[i]) then Right
        else Wrong(if left > 0 then left else 0)
  {
    var latest := LatestCreation(trace, p, k);
    if latest.None? {
      NothingWithoutCreation(trace, p, k);
    } else {
      KeyFollowsEvents(trace, p, latest.value, k);
      assert trace[k - 1].at <= trace[k].at;
    }
  }

  /** Exactly these events create a challenge: a request for one, and a request to send another
      unless one was sent again less than a cooldown ago. */
  lemma CreatedIff(trace: seq<Event>, p: Policy, k: nat)
    requires Ordered(trace) && k < |trace|
    ensures OutcomeAt(trace, p, k) == Created <==>
            trace[k].Create? || (trace[k].Resend? && !CoolingAt(trace, p, k, trace[k].at))
  {
    CooldownIsExact(trace, p, k, trace[k].at);
  }

  /** One of the first `k` events sent a code again less than a cooldown before `now`. */
  predicate CoolingAt(trace: seq<Event>, p: Policy, k: nat, now: int)
    requires k <= |trace|
  {
    exists j :: 0 <= j < k && trace[j].Resend? && OutcomeAt(trace, p, j) == Created &&
                now < trace[j].at + p.resendCooldown
  }

  lemma {:induction false} CooldownIsExact(trace: seq<Event>, p: Policy, k: nat, now: int)
    requires Ordered(trace) && k <= |trace| && (k > 0 ==> trace[k - 1].at <= now)
    ensures Live(BoxAfter(trace, p, k).cooldown, now) <==> CoolingAt(trace, p, k, now)
  {
    if k > 0 {
      CooldownIsExact(trace, p, k - 1, trace[k - 1].at);
      CooldownIsExact(trace, p, k - 1, now);
    }
  }

  class OtpService {
    const policy: Policy
    var challenges: map<string, Cell<Challenge>>
    var cooldowns: map<string, Cell<()>>

    constructor (policy: Policy)
      ensures this.policy == policy && challenges == map[] && cooldowns == map[]
    {
      this.policy := policy;
      challenges, cooldowns := map[], map[];
    }

    function View(id: string): Box
      reads this
    {
      Box(if id in challenges then challenges[id] else Absent, if id in cooldowns then cooldowns[id] else Absent)
    }

    method CreateChallenge(id: string, code: string, now: int) returns (challenge: Challenge)
      modifies this`challenges
      ensures View(id) == After(old(View(id)), policy, Create(now, code)).0
      ensures challenge == Challenge(code, policy.maxAttempts, now + policy.ttl)
      ensures forall other :: other != id ==> View(other) == old(View(other))
    {
      challenge := Challenge(code, policy.maxAttempts, now + policy.ttl);
      challenges := challenges[id := SetEx(challenge, policy.ttl, now)];
    }

    /** The new challenge, or the seconds the caller is told to wait. */
    method ResendChallenge(id: string, code: string, now: int) returns (r: Result<Challenge, int>)
      modifies this
      ensures (View(id), if r.Ok? then Created else CoolingDown) == After(old(View(id)), policy, Resend(now, code))
      ensures r.Err? ==> r.error == policy.resendCooldown
      ensures forall other :: other != id ==> View(other) == old(View(other))
    {
      if Live(View(id).cooldown, now) {
        return Err(policy.resendCooldown);
      }
      cooldowns := cooldowns[id := SetEx((), policy.resendCooldown, now)];
      var challenge := CreateChallenge(id, code, now);
      return Ok(challenge);
    }

    method VerifyChallenge(id: string, submitted: string, now: int) returns (outcome: Outcome)
      modifies this`challenges
      ensures (View(id), outcome) == After(old(View(id)), policy, Verify(now, submitted))
      ensures forall other :: other != id ==> View(other) == old(View(other))
    {
      var stored := View(id).challenge;
      if !Live(stored, now) {
        return Expired;
      }
      var challenge := stored.value;
      if challenge.code != submitted {
        challenge := challenge.(attemptsRemaining := challenge.attemptsRemaining - 1);
        if challenge.attemptsRemaining <= 0 {
          challenges := challenges - {id};
          return Wrong(0);
        }
        var remainingTtl := Ttl(stored, now);
        challenges := challenges[id := SetEx(challenge, if remainingTtl > 1 then remainingTtl else 1, now)];
        return Wrong(challenge.attemptsRemaining);
      }
      challenges := challenges - {id};
      return Right;
    }
  }
}
