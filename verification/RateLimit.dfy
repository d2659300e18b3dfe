/** The fixed-window request counter, and what it guarantees over sliding windows. */
module RateLimit {
  import opened Wrappers
  import opened TtlStore

  /** The Redis commands that reach one limiter key. Between a request's INCR and its EXPIRE
      any number of other requests may run. */
  datatype Event = Request(at: int) | Arm(at: int)

  function After(c: Cell<nat>, e: Event, window: int): Cell<nat> {
    match e
    case Request(t) => Incr(c, t)
    case Arm(t) => Expire(c, window, t)
  }

  /** Commands come in clock order, and EXPIRE is only sent for a key that has none yet. */
  predicate WellTimed(c: Cell<nat>, trace: seq<Event>, window: int, clock: int)
    decreases |trace|
  {
    trace == [] ||
    (clock <= trace[0].at &&
     (trace[0].Arm? ==> c.Held? && c.expiry.None?) &&
     WellTimed(After(c, trace[0], window), trace[1..], window, trace[0].at))
  }

  /** How many requests with a time in [from, from + window) are let through. */
  function AdmittedIn(c: Cell<nat>, trace: seq<Event>, limit: nat, window: int, from: int): nat
    decreases |trace|
  {
    if trace == [] then 0
    else
      var next := After(c, trace[0], window);
      var passes := trace[0].Request? && from <= trace[0].at < from + window && next.Held? && next.value <= limit;
      (if passes then 1 else 0) + AdmittedIn(next, trace[1..], limit, window, from)
  }

  function SlidingBound(limit: nat): nat {
    if limit == 0 then 0 else 2 * limit - 1
  }

  function Spare(limit: nat, used: nat): nat {
    if used < limit then limit - used else 0
  }

  /** What the window can still admit, from the state of the key alone. */
  function Budget(c: Cell<nat>, limit: nat, window: int, from: int, clock: int): nat {
    if from + window <= clock then 0 else
    match c
    case Absent => SlidingBound(limit)
    case Held(n, None) => if from <= clock then Spare(limit, n) else SlidingBound(limit)
    case Held(n, Some(expiry)) =>
      if expiry <= from then SlidingBound(limit)
      else if expiry < from + window then Spare(limit, n) + limit
      else Spare(limit, n)
  }

  lemma {:induction false} BudgetCoversWindow(
      c: Cell<nat>, trace: seq<Event>, limit: nat, window: int, from: int, clock: int)
    requires WellTimed(c, trace, window, clock)
    requires window >= 1 && (c.Held? ==> c.value >= 1)
    ensures AdmittedIn(c, trace, limit, window, from) <= Budget(c, limit, window, from, clock)
    decreases |trace|
  {
    if trace != [] {
      BudgetCoversWindow(After(c, trace[0], window), trace[1..], limit, window, from, trace[0].at);
    }
  }

  /** No interval of one window's length ever admits 2 * limit requests, however the INCR and
      EXPIRE commands of different requests interleave. */
  lemma SlidingWindowBound(trace: seq<Event>, limit: nat, window: int, from: int, clock: int)
    requires window >= 1 && WellTimed(Absent, trace, window, clock)
    ensures AdmittedIn(Absent, trace, limit, window, from) <= SlidingBound(limit)
  {
    BudgetCoversWindow(Absent, trace, limit, window, from, clock);
  }

  /** What a trace says that begins with a request. */
  lemma RequestFirst(c: Cell<nat>, t: int, rest: seq<Event>, limit: nat, window: int, from: int, clock: int)
    ensures var next := Incr(c, t);
            (WellTimed(c, [Request(t)] + rest, window, clock) <==> clock <= t && WellTimed(next, rest, window, t)) &&
            AdmittedIn(c, [Request(t)] + rest, limit, window, from)
              == (if from <= t < from + window && next.value <= limit then 1 else 0)
                 + AdmittedIn(next, rest, limit, window, from)
  {
    var all := [Request(t)] + rest;
    assert all[0] == Request(t) && all[1..] == rest;
  }

  /** What a trace says that begins with a request and the EXPIRE it sends. */
  lemma ArmedRequestFirst(c: Cell<nat>, t: int, rest: seq<Event>, limit: nat, window: int, from: int, clock: int)
    requires clock <= t && Incr(c, t) == Held(1, None)
    ensures var next := Held(1, Some(t + window));
            (WellTimed(c, [Request(t), Arm(t)] + rest, window, clock) <==> WellTimed(next, rest, window, t)) &&
            AdmittedIn(c, [Request(t), Arm(t)] + rest, limit, window, from)
              == (if from <= t < from + window && 1 <= limit then 1 else 0)
                 + AdmittedIn(next, rest, limit, window, from)
  {
    var armed := [Arm(t)] + rest;
    assert armed[0] == Arm(t) && armed[1..] == rest;
    RequestFirst(c, t, armed, limit, window, from, clock);
    assert [Request(t), Arm(t)] + rest == [Request(t)] + armed;
  }

  function Burst(t: int, n: nat): seq<Event> {
    seq(n, _ => Request(t))
  }

  lemma {:induction false} BurstOnOpenKey(
      used: nat, expiry: int, t: int, n: nat, rest: seq<Event>, limit: nat, window: int, from: int, clock: int)
    requires 1 <= used && used + n <= limit && clock <= t < expiry && from <= t < from + window
    requires WellTimed(Held(used + n, Some(expiry)), rest, window, if n == 0 then clock else t)
    ensures WellTimed(Held(used, Some(expiry)), Burst(t, n) + rest, window, clock)
    ensures AdmittedIn(Held(used, Some(expiry)), Burst(t, n) + rest, limit, window, from)
         == n + AdmittedIn(Held(used + n, Some(expiry)), rest, limit, window, from)
    decreases n
  {
    if n == 0 {
      assert Burst(t, n) + rest == rest;
    } else {
      var more := Burst(t, n - 1) + rest;
      assert Burst(t, n) + rest == [Request(t)] + more;
      BurstOnOpenKey(used + 1, expiry, t, n - 1, rest, limit, window, from, t);
      RequestFirst(Held(used, Some(expiry)), t, more, limit, window, from, clock);
    }
  }

  /** One request opens a counter; just before it lapses the rest of its quota is spent, and the
      whole quota of the next counter right after. */
  function WorstTrace(limit: nat, window: int): seq<Event>
    requires limit >= 1
  {
    [Request(0), Arm(0)] + (Burst(window - 1, limit - 1) + ([Request(window), Arm(window)] + Burst(window, limit - 1)))
  }

  /** A whole quota, spent at once on a key that is dead. */
  lemma FullBurst(c: Cell<nat>, t: int, rest: seq<Event>, limit: nat, window: int, from: int, clock: int)
    requires limit >= 1 && window >= 1 && clock <= t && !Live(c, t) && from <= t < from + window
    requires WellTimed(Held(limit, Some(t + window)), rest, window, t)
    ensures var all := [Request(t), Arm(t)] + (Burst(t, limit - 1) + rest);
            WellTimed(c, all, window, clock) &&
            AdmittedIn(c, all, limit, window, from)
              == limit + AdmittedIn(Held(limit, Some(t + window)), rest, limit, window, from)
  {
    BurstOnOpenKey(1, t + window, t, limit - 1, rest, limit, window, from, t);
    ArmedRequestFirst(c, t, Burst(t, limit - 1) + rest, limit, window, from, clock);
  }

  /** The sliding-window bound is exact for every limit and every window of two ticks or more. */
  lemma SlidingWindowBoundIsReached(limit: nat, window: int)
    requires limit >= 1 && window >= 2
    ensures WellTimed(Absent, WorstTrace(limit, window), window, 0)
    ensures AdmittedIn(Absent, WorstTrace(limit, window), limit, window, 1) == SlidingBound(limit)
  {
    var second := [Request(window), Arm(window)] + Burst(window, limit - 1);
    FullBurst(Held(limit, Some(window)), window, [], limit, window, 1, if limit == 1 then 0 else window - 1);
    assert Burst(window, limit - 1) + [] == Burst(window, limit - 1);
    BurstOnOpenKey(1, window, window - 1, limit - 1, second, limit, window, 1, 0);
    ArmedRequestFirst(Absent, 0, Burst(window - 1, limit - 1) + second, limit, window, 1, 0);
  }

  // ---- Requests served one at a time ----

  /** The key after the first `k` requests, when each finishes before the next starts. */
  function CellAfter(times: seq<int>, window: int, k: nat): Cell<nat>
    requires k <= |times|
  {
    if k == 0 then Absent else Bump(CellAfter(times, window, k - 1), window, times[k - 1])
  }

  predicate Admitted(times: seq<int>, limit: nat, window: int, i: nat)
    requires i < |times|
  {
    var c := CellAfter(times, window, i + 1);
    c.Held? && c.value <= limit
  }

  predicate Ordered(times: seq<int>) {
    forall i, j :: 0 <= i <= j < |times| ==> times[i] <= times[j]
  }

  /** Index of the request that opened the epoch of request `i`: an epoch runs for one window
      from its first request, whatever happens in it. */
  function EpochStart(times: seq<int>, window: int, i: nat): (s: nat)
    requires i < |times|
    ensures s <= i
  {
    if i == 0 then 0
    else
      var s := EpochStart(times, window, i - 1);
      if times[i] < times[s] + window then s else i
  }

  lemma {:induction false} CellTracksEpoch(times: seq<int>, window: int, i: nat)
    requires Ordered(times) && i < |times| && window >= 1
    ensures var s := EpochStart(times, window, i);
            CellAfter(times, window, i + 1) == Held(i - s + 1, Some(times[s] + window))
  {
    if i > 0 {
      CellTracksEpoch(times, window, i - 1);
    }
  }

  /** In every epoch exactly the first `limit` requests pass; rejected ones do not prolong it. */
  lemma EpochAdmitsFirstLimit(times: seq<int>, limit: nat, window: int, i: nat)
    requires Ordered(times) && i < |times| && window >= 1
    ensures Admitted(times, limit, window, i) <==> i - EpochStart(times, window, i) < limit
  {
    CellTracksEpoch(times, window, i);
  }

  /** The command trace of a one-at-a-time run that continues from `k` served requests. */
  function Commands(times: seq<int>, window: int, k: nat): seq<Event>
    requires k <= |times|
    decreases |times| - k
  {
    if k == |times| then []
    else
      var isFirst := Incr(CellAfter(times, window, k), times[k]).value == 1;
      (if isFirst then [Request(times[k]), Arm(times[k])] else [Request(times[k])]) + Commands(times, window, k + 1)
  }

  function ServedIn(times: seq<int>, limit: nat, window: int, from: int, k: nat): nat
    requires k <= |times|
    decreases |times| - k
  {
    if k == |times| then 0
    else
      (if from <= times[k] < from + window && Admitted(times, limit, window, k) then 1 else 0)
      + ServedIn(times, limit, window, from, k + 1)
  }

  lemma NextCell(times: seq<int>, window: int, k: nat)
    requires Ordered(times) && k < |times| && window >= 1
    ensures var counted, next := Incr(CellAfter(times, window, k), times[k]), CellAfter(times, window, k + 1);
            if counted.value == 1 then counted == Held(1, None) && next == Held(1, Some(times[k] + window))
            else next == counted
  {
    if k > 0 {
      CellTracksEpoch(times, window, k - 1);
    }
  }

  /** The commands of one served request, and those of the later ones. */
  lemma CommandsOfNext(times: seq<int>, limit: nat, window: int, from: int, k: nat, clock: int)
    requires Ordered(times) && k < |times| && window >= 1 && clock <= times[k]
    requires WellTimed(CellAfter(times, window, k + 1), Commands(times, window, k + 1), window, times[k])
    ensures WellTimed(CellAfter(times, window, k), Commands(times, window, k), window, clock)
    ensures AdmittedIn(CellAfter(times, window, k), Commands(times, window, k), limit, window, from)
         == (if from <= times[k] < from + window && Admitted(times, limit, window, k) then 1 else 0)
            + AdmittedIn(CellAfter(times, window, k + 1), Commands(times, window, k + 1), limit, window, from)
  {
    NextCell(times, window, k);
    var c, rest := CellAfter(times, window, k), Commands(times, window, k + 1);
    if Incr(c, times[k]).value == 1 {
      ArmedRequestFirst(c, times[k], rest, limit, window, from, clock);
    } else {
      RequestFirst(c, times[k], rest, limit, window, from, clock);
    }
  }

  lemma {:induction false} CommandsMatchRequests(
      times: seq<int>, limit: nat, window: int, from: int, k: nat, clock: int)
    requires Ordered(times) && k <= |times| && window >= 1
    requires k < |times| ==> clock <= times[k]
    ensures WellTimed(CellAfter(times, window, k), Commands(times, window, k), window, clock)
    ensures AdmittedIn(CellAfter(times, window, k), Commands(times, window, k), limit, window, from)
         == ServedIn(times, limit, window, from, k)
    decreases |times| - k
  {
    if k < |times| {
      CommandsMatchRequests(times, limit, window, from, k + 1, times[k]);
      CommandsOfNext(times, limit, window, from, k, clock);
    }
  }

  /** The sliding-window bound for requests that are served one at a time. */
  lemma ServedSlidingWindowBound(times: seq<int>, limit: nat, window: int, from: int)
    requires Ordered(times) && window >= 1
    ensures ServedIn(times, limit, window, from, 0) <= SlidingBound(limit)
  {
    var clock := if times == [] then 0 else times[0];
    CommandsMatchRequests(times, limit, window, from, 0, clock);
    SlidingWindowBound(Commands(times, window, 0), limit, window, from, clock);
  }

  class RedisRateLimiter {
    var store: map<string, Cell<nat>>

    constructor ()
      ensures store == map[]
    {
      store := map[];
    }

    function Lookup(key: string): Cell<nat>
      reads this
    {
      if key in store then store[key] else Absent
    }

    /** Ok, or the number of seconds the caller is told to wait. */
    method Enforce(key: string, limit: nat, windowSeconds: int, now: int) returns (r: Result<(), int>)
      requires windowSeconds >= 1
      modifies this
      ensures store == old(store)[key := Bump(old(Lookup(key)), windowSeconds, now)]
      ensures r == if Lookup(key).value <= limit then Ok(()) else Err(windowSeconds)
    {
      store := store[key := Incr(Lookup(key), now)];
      var current := store[key].value;
      if current == 1 {
        store := store[key := Expire(store[key], windowSeconds, now)];
      }
      if current > limit {
        return Err(windowSeconds);
      }
      return Ok(());
    }
  }
}
