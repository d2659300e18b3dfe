/** The maintenance flag behind two caches: memory of each process over a shared Redis key. */
module Maintenance {
  import opened Wrappers
  import opened TtlStore

  const REDIS_TTL := 60
  const MEMORY_TTL := 60

  /** A process's cached answer and the clock reading it is stamped with. */
  datatype Stamp = Stamp(value: bool, at: int)

  /** A value that was committed to the database, with the moment of its commit. */
  datatype Commit = Commit(value: bool, at: int)

  /** Where a request stands; `started` is the clock reading it took first. */
  datatype Phase =
    | AskRedis(started: int)
    | AskDatabase(started: int)
    | Loaded(started: int, value: bool)
    | Known(started: int, value: bool)

  datatype Request = Request(process: nat, phase: Phase)

  /** Database history, shared key and per-process memory, with the requests in flight. */
  datatype Sys = Sys(
    hasRedis: bool, now: int, history: seq<Commit>, redis: Cell<bool>,
    memory: map<nat, Stamp>, inFlight: map<nat, Request>)

  /** Every await of the source is a point between two of these steps. */
  datatype Step =
    | Tick(seconds: nat)
    | Start(request: nat, process: nat)
    | ReadRedis(request: nat)
    | ReadDatabase(request: nat)
    | WriteRedis(request: nat)
    | Finish(request: nat)
    | ForgetMemory(process: nat)
    | DeleteRedis
    | CommitFlag(flag: bool)

  predicate Fresh(s: Sys, process: nat) {
    process in s.memory && s.now - s.memory[process].at < MEMORY_TTL
  }

  predicate At(s: Sys, request: nat, latency: nat) {
    request in s.inFlight && s.now - s.inFlight[request].phase.started <= latency
  }

  /** A request moves only while it is within the latency allowed for requests. */
  predicate Enabled(s: Sys, e: Step, latency: nat) {
    match e
    case Tick(_) => true
    case Start(r, _) => r !in s.inFlight
    case ReadRedis(r) => At(s, r, latency) && s.inFlight[r].phase.AskRedis?
    case ReadDatabase(r) => At(s, r, latency) && s.inFlight[r].phase.AskDatabase?
    case WriteRedis(r) => At(s, r, latency) && s.inFlight[r].phase.Loaded?
    case Finish(r) => At(s, r, latency) && s.inFlight[r].phase.Known?
    case ForgetMemory(_) => true
    case DeleteRedis => true
    case CommitFlag(_) => true
  }

  function InDatabase(s: Sys): bool
    requires s.history != []
  {
    s.history[|s.history| - 1].value
  }

  function Move(s: Sys, request: nat, phase: Phase): Sys
    requires request in s.inFlight
  {
    s.(inFlight := s.inFlight[request := s.inFlight[request].(phase := phase)])
  }

  function After(s: Sys, e: Step, latency: nat): Sys
    requires s.history != [] && Enabled(s, e, latency)
  {
    match e
    case Tick(d) => s.(now := s.now + d)
    case Start(r, p) =>
      if Fresh(s, p) then s
      else s.(inFlight := s.inFlight[r := Request(p, if s.hasRedis then AskRedis(s.now) else AskDatabase(s.now))])
    case ReadRedis(r) =>
      var t := s.inFlight[r].phase.started;
      Move(s, r, if Live(s.redis, s.now) then Known(t, s.redis.value) else AskDatabase(t))
    case ReadDatabase(r) =>
      var t := s.inFlight[r].phase.started;
      Move(s, r, if s.hasRedis then Loaded(t, InDatabase(s)) else Known(t, InDatabase(s)))
    case WriteRedis(r) =>
      var phase := s.inFlight[r].phase;
      Move(s.(redis := SetEx(phase.value, REDIS_TTL, s.now)), r, Known(phase.started, phase.value))
    case Finish(r) =>
      var q := s.inFlight[r];
      s.(memory := s.memory[q.process := Stamp(q.phase.value, q.phase.started)], inFlight := s.inFlight - {r})
    case ForgetMemory(p) => s.(memory := s.memory - {p})
    case DeleteRedis => if s.hasRedis then s.(redis := Absent) else s
    case CommitFlag(v) => s.(history := s.history + [Commit(v, s.now)])
  }

  /** The answer that a step hands to a caller, if it ends a request. */
  function Answer(s: Sys, e: Step, latency: nat): Option<bool>
    requires Enabled(s, e, latency)
  {
    if e.Start? && Fresh(s, e.process) then Some(s.memory[e.process].value)
    else if e.Finish? then Some(s.inFlight[e.request].phase.value)
    else None
  }

  function Boot(hasRedis: bool, flag: bool, now: int): Sys {
    Sys(hasRedis, now, [Commit(flag, now)], Absent, map[], map[])
  }

  predicate IsRun(s: Sys, steps: seq<Step>, latency: nat)
    requires s.history != []
    decreases |steps|
  {
    steps == [] || (Enabled(s, steps[0], latency) && IsRun(After(s, steps[0], latency), steps[1..], latency))
  }

  function EndOf(s: Sys, steps: seq<Step>, latency: nat): (end: Sys)
    requires s.history != [] && IsRun(s, steps, latency)
    ensures end.history != []
    decreases |steps|
  {
    if steps == [] then s else EndOf(After(s, steps[0], latency), steps[1..], latency)
  }

  /** `value` was the committed flag at the moment `t`. */
  predicate WasCommitted(history: seq<Commit>, value: bool, t: int) {
    exists i :: 0 <= i < |history| && InForce(history, i, t) && history[i].value == value
  }

  predicate InForce(history: seq<Commit>, i: nat, t: int)
    requires i < |history|
  {
    history[i].at <= t && (i + 1 < |history| ==> t <= history[i + 1].at)
  }

  /** The value was committed at some moment between `oldest` and `newest`. */
  ghost predicate CommittedWithin(history: seq<Commit>, value: bool, oldest: int, newest: int) {
    exists t :: oldest <= t <= newest && WasCommitted(history, value, t)
  }

  ghost predicate HistorySound(history: seq<Commit>, now: int) {
    history != [] && (forall i :: 0 <= i < |history| ==> history[i].at <= now) &&
    (forall i, j :: 0 <= i <= j < |history| ==> history[i].at <= history[j].at)
  }

  ghost predicate RedisSound(history: seq<Commit>, redis: Cell<bool>, latency: nat, now: int) {
    redis.Held? ==>
      redis.expiry.Some? &&
      CommittedWithin(history, redis.value, redis.expiry.value - REDIS_TTL - latency, now)
  }

  ghost predicate MemorySound(history: seq<Commit>, memory: map<nat, Stamp>, latency: nat, now: int) {
    forall p :: p in memory ==> CommittedWithin(history, memory[p].value, memory[p].at + 1 - REDIS_TTL - latency, now)
  }

  ghost predicate Invariant(s: Sys, latency: nat) {
    HistorySound(s.history, s.now) && RedisSound(s.history, s.redis, latency, s.now) &&
    MemorySound(s.history, s.memory, latency, s.now) &&
    (forall r :: r in s.inFlight ==> RequestSound(s, s.inFlight[r].phase, latency))
  }

  ghost predicate RequestSound(s: Sys, phase: Phase, latency: nat) {
    phase.started <= s.now &&
    (phase.Loaded? ==> CommittedWithin(s.history, phase.value, phase.started, s.now)) &&
    (phase.Known? ==> CommittedWithin(s.history, phase.value, phase.started + 1 - REDIS_TTL - latency, s.now))
  }

  lemma StillCommitted(history: seq<Commit>, c: Commit, value: bool, oldest: int, newest: int)
    requires CommittedWithin(history, value, oldest, newest) && newest <= c.at
    ensures CommittedWithin(history + [c], value, oldest, c.at)
  {
    var t :| oldest <= t <= newest && WasCommitted(history, value, t);
    var i :| 0 <= i < |history| && InForce(history, i, t) && history[i].value == value;
    assert InForce(history + [c], i, t);
    assert WasCommitted(history + [c], value, t);
  }

  lemma CurrentIsCommitted(s: Sys)
    requires s.history != [] && s.history[|s.history| - 1].at <= s.now
    ensures CommittedWithin(s.history, InDatabase(s), s.now, s.now)
  {
    assert InForce(s.history, |s.history| - 1, s.now);
    assert WasCommitted(s.history, InDatabase(s), s.now);
  }

  lemma CommitKeepsCachesSound(s: Sys, c: Commit, latency: nat)
    requires Invariant(s, latency) && c.at == s.now
    ensures RedisSound(s.history + [c], s.redis, latency, s.now)
    ensures MemorySound(s.history + [c], s.memory, latency, s.now)
  {
    if s.redis.Held? {
      StillCommitted(s.history, c, s.redis.value, s.redis.expiry.value - REDIS_TTL - latency, s.now);
    }
    forall p | p in s.memory
      ensures CommittedWithin(s.history + [c], s.memory[p].value, s.memory[p].at + 1 - REDIS_TTL - latency, s.now)
    {
      StillCommitted(s.history, c, s.memory[p].value, s.memory[p].at + 1 - REDIS_TTL - latency, s.now);
    }
  }

  lemma CommitKeepsRequestSound(s: Sys, flag: bool, phase: Phase, latency: nat)
    requires RequestSound(s, phase, latency)
    ensures RequestSound(s.(history := s.history + [Commit(flag, s.now)]), phase, latency)
  {
    if phase.Loaded? {
      StillCommitted(s.history, Commit(flag, s.now), phase.value, phase.started, s.now);
    } else if phase.Known? {
      StillCommitted(s.history, Commit(flag, s.now), phase.value, phase.started + 1 - REDIS_TTL - latency, s.now);
    }
  }

  lemma CommitKeepsInvariant(s: Sys, flag: bool, latency: nat)
    requires Invariant(s, latency)
    ensures Invariant(After(s, CommitFlag(flag), latency), latency)
  {
    var c, next := Commit(flag, s.now), After(s, CommitFlag(flag), latency);
    CommitKeepsCachesSound(s, c, latency);
    forall r | r in s.inFlight ensures RequestSound(next, s.inFlight[r].phase, latency) {
      CommitKeepsRequestSound(s, flag, s.inFlight[r].phase, latency);
    }
  }

  lemma Widen(history: seq<Commit>, value: bool, oldest: int, newest: int, older: int, newer: int)
    requires CommittedWithin(history, value, oldest, newest) && older <= oldest && newest <= newer
    ensures CommittedWithin(history, value, older, newer)
  {
    var t :| oldest <= t <= newest && WasCommitted(history, value, t);
    assert older <= t <= newer;
  }

  lemma TickKeepsInvariant(s: Sys, seconds: nat, latency: nat)
    requires Invariant(s, latency)
    ensures Invariant(After(s, Tick(seconds), latency), latency)
  {
    var next := After(s, Tick(seconds), latency);
    if s.redis.Held? {
      var oldest := s.redis.expiry.value - REDIS_TTL - latency;
      Widen(s.history, s.redis.value, oldest, s.now, oldest, next.now);
    }
    forall p | p in s.memory
      ensures CommittedWithin(s.history, s.memory[p].value, s.memory[p].at + 1 - REDIS_TTL - latency, next.now)
    {
      var oldest := s.memory[p].at + 1 - REDIS_TTL - latency;
      Widen(s.history, s.memory[p].value, oldest, s.now, oldest, next.now);
    }
    forall r | r in s.inFlight ensures RequestSound(next, s.inFlight[r].phase, latency) {
      var phase := s.inFlight[r].phase;
      if phase.Loaded? {
        Widen(s.history, phase.value, phase.started, s.now, phase.started, next.now);
      } else if phase.Known? {
        var oldest := phase.started + 1 - REDIS_TTL - latency;
        Widen(s.history, phase.value, oldest, s.now, oldest, next.now);
      }
    }
  }

  /** A request's own step preserves the invariant when its new phase and the new key are sound. */
  lemma MoveKeepsInvariant(s: Sys, next: Sys, request: nat, latency: nat)
    requires Invariant(s, latency) && request in s.inFlight && request in next.inFlight
    requires next == s.(redis := next.redis, inFlight := s.inFlight[request := next.inFlight[request]])
    requires RequestSound(s, next.inFlight[request].phase, latency)
    requires next.redis.Held? ==>
      next.redis.expiry.Some? &&
      CommittedWithin(s.history, next.redis.value, next.redis.expiry.value - REDIS_TTL - latency, s.now)
    ensures Invariant(next, latency)
  {
    forall r | r in next.inFlight ensures RequestSound(next, next.inFlight[r].phase, latency) {
      assert r != request ==> RequestSound(s, s.inFlight[r].phase, latency);
    }
  }

  lemma ReadRedisKeepsInvariant(s: Sys, r: nat, latency: nat)
    requires Invariant(s, latency) && Enabled(s, ReadRedis(r), latency)
    ensures Invariant(After(s, ReadRedis(r), latency), latency)
  {
    var t := s.inFlight[r].phase.started;
    assert RequestSound(s, s.inFlight[r].phase, latency);
    if Live(s.redis, s.now) {
      Widen(s.history, s.redis.value, s.redis.expiry.value - REDIS_TTL - latency, s.now,
        t + 1 - REDIS_TTL - latency, s.now);
    }
    MoveKeepsInvariant(s, After(s, ReadRedis(r), latency), r, latency);
  }

  lemma ReadDatabaseKeepsInvariant(s: Sys, r: nat, latency: nat)
    requires Invariant(s, latency) && Enabled(s, ReadDatabase(r), latency)
    ensures Invariant(After(s, ReadDatabase(r), latency), latency)
  {
    var t := s.inFlight[r].phase.started;
    assert RequestSound(s, s.inFlight[r].phase, latency);
    CurrentIsCommitted(s);
    Widen(s.history, InDatabase(s), s.now, s.now, t, s.now);
    Widen(s.history, InDatabase(s), t, s.now, t + 1 - REDIS_TTL - latency, s.now);
    MoveKeepsInvariant(s, After(s, ReadDatabase(r), latency), r, latency);
  }

  /** The one step where the latency counts: the key's life starts after the read it publishes. */
  lemma WriteRedisKeepsInvariant(s: Sys, r: nat, latency: nat)
    requires Invariant(s, latency) && Enabled(s, WriteRedis(r), latency)
    ensures Invariant(After(s, WriteRedis(r), latency), latency)
  {
    var phase := s.inFlight[r].phase;
    assert RequestSound(s, phase, latency);
    Widen(s.history, phase.value, phase.started, s.now, s.now - latency, s.now);
    Widen(s.history, phase.value, phase.started, s.now, phase.started + 1 - REDIS_TTL - latency, s.now);
    MoveKeepsInvariant(s, After(s, WriteRedis(r), latency), r, latency);
  }

  lemma FinishKeepsInvariant(s: Sys, r: nat, latency: nat)
    requires Invariant(s, latency) && Enabled(s, Finish(r), latency)
    ensures Invariant(After(s, Finish(r), latency), latency)
  {
    assert RequestSound(s, s.inFlight[r].phase, latency);
    var next := After(s, Finish(r), latency);
    forall q | q in next.inFlight ensures RequestSound(next, next.inFlight[q].phase, latency) {
      assert RequestSound(s, s.inFlight[q].phase, latency);
    }
  }

  lemma StartKeepsInvariant(s: Sys, r: nat, p: nat, latency: nat)
    requires Invariant(s, latency) && Enabled(s, Start(r, p), latency)
    ensures Invariant(After(s, Start(r, p), latency), latency)
  {
    var next := After(s, Start(r, p), latency);
    forall q | q in next.inFlight ensures RequestSound(next, next.inFlight[q].phase, latency) {
      assert q in s.inFlight ==> RequestSound(s, s.inFlight[q].phase, latency);
    }
  }

  lemma ForgetKeepsInvariant(s: Sys, e: Step, latency: nat)
    requires Invariant(s, latency) && (e.ForgetMemory? || e.DeleteRedis?)
    ensures Invariant(After(s, e, latency), latency)
  {
    var next := After(s, e, latency);
    forall q | q in next.inFlight ensures RequestSound(next, next.inFlight[q].phase, latency) {
      assert RequestSound(s, s.inFlight[q].phase, latency);
    }
  }

  lemma StepKeepsInvariant(s: Sys, e: Step, latency: nat)
    requires Invariant(s, latency) && Enabled(s, e, latency)
    ensures Invariant(After(s, e, latency), latency)
  {
    match e
    case Tick(d) => TickKeepsInvariant(s, d, latency);
    case Start(r, p) => StartKeepsInvariant(s, r, p, latency);
    case ReadRedis(r) => ReadRedisKeepsInvariant(s, r, latency);
    case ReadDatabase(r) => ReadDatabaseKeepsInvariant(s, r, latency);
    case WriteRedis(r) => WriteRedisKeepsInvariant(s, r, latency);
    case Finish(r) => FinishKeepsInvariant(s, r, latency);
    case ForgetMemory(_) => ForgetKeepsInvariant(s, e, latency);
    case DeleteRedis => ForgetKeepsInvariant(s, e, latency);
    case CommitFlag(flag) => CommitKeepsInvariant(s, flag, latency);
  }

  lemma {:induction false} RunKeepsInvariant(s: Sys, steps: seq<Step>, latency: nat)
    requires Invariant(s, latency) && IsRun(s, steps, latency)
    ensures Invariant(EndOf(s, steps, latency), latency)
    decreases |steps|
  {
    if steps != [] {
      StepKeepsInvariant(s, steps[0], latency);
      RunKeepsInvariant(After(s, steps[0], latency), steps[1..], latency);
    }
  }

  /** How far an answer can lag behind the database, for requests that take at most `latency`: one
      publishes late, and another keeps what it reads for the memory's lifetime, or just as late. */
  function MaxStaleness(latency: nat): nat {
    59 + latency + (if latency < 60 then 59 else latency)
  }

  lemma BootSound(hasRedis: bool, flag: bool, now: int, latency: nat)
    ensures Invariant(Boot(hasRedis, flag, now), latency)
  {
  }

  /** Whatever the interleaving of requests, commits and invalidations of any number of processes,
      an answer was the committed flag at some moment no longer ago than MaxStaleness. */
  lemma BoundedStaleness(hasRedis: bool, flag: bool, now: int, steps: seq<Step>, e: Step, latency: nat)
    requires IsRun(Boot(hasRedis, flag, now), steps, latency)
    requires var end := EndOf(Boot(hasRedis, flag, now), steps, latency);
             Enabled(end, e, latency) && Answer(end, e, latency).Some?
    ensures var end := EndOf(Boot(hasRedis, flag, now), steps, latency);
            CommittedWithin(end.history, Answer(end, e, latency).value, end.now - MaxStaleness(latency), end.now)
  {
    var boot := Boot(hasRedis, flag, now);
    BootSound(hasRedis, flag, now, latency);
    RunKeepsInvariant(boot, steps, latency);
    var end := EndOf(boot, steps, latency);
    var value := Answer(end, e, latency).value;
    if e.Start? {
      Widen(end.history, value, end.memory[e.process].at + 1 - REDIS_TTL - latency, end.now,
        end.now - MaxStaleness(latency), end.now);
    } else {
      var phase := end.inFlight[e.request].phase;
      assert RequestSound(end, phase, latency);
      Widen(end.history, value, phase.started + 1 - REDIS_TTL - latency, end.now,
        end.now - MaxStaleness(latency), end.now);
    }
  }

  /** A flag left alone for longer than that is what every process answers. */
  lemma SettledFlagIsSeen(hasRedis: bool, flag: bool, now: int, steps: seq<Step>, e: Step, latency: nat)
    requires IsRun(Boot(hasRedis, flag, now), steps, latency)
    requires var end := EndOf(Boot(hasRedis, flag, now), steps, latency);
             Enabled(end, e, latency) && Answer(end, e, latency).Some? &&
             end.history[|end.history| - 1].at < end.now - MaxStaleness(latency)
    ensures var end := EndOf(Boot(hasRedis, flag, now), steps, latency);
            Answer(end, e, latency).value == InDatabase(end)
  {
    var boot := Boot(hasRedis, flag, now);
    BoundedStaleness(hasRedis, flag, now, steps, e, latency);
    BootSound(hasRedis, flag, now, latency);
    RunKeepsInvariant(boot, steps, latency);
    var end := EndOf(boot, steps, latency);
    var value := Answer(end, e, latency).value;
    var t :| end.now - MaxStaleness(latency) <= t <= end.now && WasCommitted(end.history, value, t);
    var i :| 0 <= i < |end.history| && InForce(end.history, i, t) && end.history[i].value == value;
    assert i == |end.history| - 1;
  }

  lemma {:induction false} ExtendRun(s: Sys, steps: seq<Step>, e: Step, latency: nat)
    requires s.history != [] && IsRun(s, steps, latency) && Enabled(EndOf(s, steps, latency), e, latency)
    ensures IsRun(s, steps + [e], latency)
    ensures EndOf(s, steps + [e], latency) == After(EndOf(s, steps, latency), e, latency)
    decreases |steps|
  {
    if steps == [] {
      assert [] + [e] == [e] && [e][1..] == [];
    } else {
      assert (steps + [e])[1..] == steps[1..] + [e];
      ExtendRun(After(s, steps[0], latency), steps[1..], e, latency);
    }
  }

  lemma {:induction false} JoinRuns(s: Sys, first: seq<Step>, second: seq<Step>, latency: nat)
    requires s.history != [] && IsRun(s, first, latency) && IsRun(EndOf(s, first, latency), second, latency)
    ensures IsRun(s, first + second, latency)
    ensures EndOf(s, first + second, latency) == EndOf(EndOf(s, first, latency), second, latency)
    decreases |first|
  {
    if first == [] {
      assert first + second == second;
    } else {
      assert (first + second)[1..] == first[1..] + second;
      JoinRuns(After(s, first[0], latency), first[1..], second, latency);
    }
  }

  lemma TwoSteps(s: Sys, a: Step, b: Step, latency: nat)
    requires s.history != [] && Enabled(s, a, latency) && Enabled(After(s, a, latency), b, latency)
    ensures IsRun(s, [a, b], latency)
    ensures EndOf(s, [a, b], latency) == After(After(s, a, latency), b, latency)
  {
    ExtendRun(s, [], a, latency);
    assert [] + [a] == [a];
    ExtendRun(s, [a], b, latency);
    assert [a] + [b] == [a, b];
  }

  function Ask(request: nat, process: nat): seq<Step> {
    [Start(request, process), ReadRedis(request)]
  }

  /** A request that finds no cached answer reads the database. */
  function Fetch(request: nat, process: nat): seq<Step> {
    Ask(request, process) + [ReadDatabase(request)]
  }

  lemma AskRuns(s: Sys, request: nat, process: nat, latency: nat)
    requires s.history != [] && request !in s.inFlight && !Fresh(s, process) && s.hasRedis
    ensures IsRun(s, Ask(request, process), latency)
    ensures EndOf(s, Ask(request, process), latency) ==
      s.(inFlight := s.inFlight[request := Request(process,
           if Live(s.redis, s.now) then Known(s.now, s.redis.value) else AskDatabase(s.now))])
  {
    TwoSteps(s, Start(request, process), ReadRedis(request), latency);
  }

  lemma FetchRuns(s: Sys, request: nat, process: nat, latency: nat)
    requires s.history != [] && request !in s.inFlight && !Fresh(s, process) && s.hasRedis && !Live(s.redis, s.now)
    ensures IsRun(s, Fetch(request, process), latency)
    ensures EndOf(s, Fetch(request, process), latency) ==
      s.(inFlight := s.inFlight[request := Request(process, Loaded(s.now, InDatabase(s)))])
  {
    AskRuns(s, request, process, latency);
    ExtendRun(s, Ask(request, process), ReadDatabase(request), latency);
  }

  /** An admin switches the flag on: the caches are cleared, but before the commit a request of
      process 0 reads the database again. */
  function FlipUnderRead(): seq<Step> {
    [ForgetMemory(0), DeleteRedis] + Fetch(0, 0) + [CommitFlag(true)]
  }

  /** That request publishes the old value as late as it may ... */
  function PublishLate(latency: nat): seq<Step> {
    [Tick(latency), WriteRedis(0)] + [Tick(REDIS_TTL - 1)]
  }

  /** ... and process 1 picks it up in the last second of the shared key. */
  function PickUpLast(): seq<Step> {
    Ask(1, 1) + [Finish(1), Tick(MEMORY_TTL - 1)]
  }

  /** If requests may take longer than the memory lasts, it does so by dallying itself. */
  function PickUpSlowly(latency: nat): seq<Step> {
    Ask(1, 1) + [Tick(latency)]
  }

  function LateReader(latency: nat): seq<Step> {
    FlipUnderRead() + PublishLate(latency) + (if latency < MEMORY_TTL then PickUpLast() else PickUpSlowly(latency))
  }

  function LateAnswer(latency: nat): Step {
    if latency < MEMORY_TTL then Start(2, 1) else Finish(1)
  }

  lemma FlipUnderReadRuns(latency: nat)
    ensures var boot := Boot(true, false, 0);
            IsRun(boot, FlipUnderRead(), latency) &&
            EndOf(boot, FlipUnderRead(), latency) ==
              Sys(true, 0, [Commit(false, 0), Commit(true, 0)], Absent, map[], map[0 := Request(0, Loaded(0, false))])
  {
    var boot := Boot(true, false, 0);
    TwoSteps(boot, ForgetMemory(0), DeleteRedis, latency);
    FetchRuns(boot, 0, 0, latency);
    JoinRuns(boot, [ForgetMemory(0), DeleteRedis], Fetch(0, 0), latency);
    ExtendRun(boot, [ForgetMemory(0), DeleteRedis] + Fetch(0, 0), CommitFlag(true), latency);
  }

  lemma PublishLateRuns(s: Sys, latency: nat)
    requires s.history != [] && 0 in s.inFlight && s.inFlight[0] == Request(0, Loaded(s.now, false))
    ensures IsRun(s, PublishLate(latency), latency)
    ensures EndOf(s, PublishLate(latency), latency) ==
      s.(now := s.now + latency + REDIS_TTL - 1, redis := Held(false, Some(s.now + latency + REDIS_TTL)),
         inFlight := s.inFlight[0 := Request(0, Known(s.now, false))])
  {
    TwoSteps(s, Tick(latency), WriteRedis(0), latency);
    ExtendRun(s, [Tick(latency), WriteRedis(0)], Tick(REDIS_TTL - 1), latency);
  }

  lemma PickUpLastRuns(s: Sys, latency: nat)
    requires s.history != [] && 1 !in s.inFlight && !Fresh(s, 1) && s.hasRedis && Live(s.redis, s.now)
    ensures IsRun(s, PickUpLast(), latency)
    ensures EndOf(s, PickUpLast(), latency) ==
      s.(now := s.now + MEMORY_TTL - 1, memory := s.memory[1 := Stamp(s.redis.value, s.now)])
  {
    AskRuns(s, 1, 1, latency);
    var asked := EndOf(s, Ask(1, 1), latency);
    assert asked.inFlight - {1} == s.inFlight;
    TwoSteps(asked, Finish(1), Tick(MEMORY_TTL - 1), latency);
    JoinRuns(s, Ask(1, 1), [Finish(1), Tick(MEMORY_TTL - 1)], latency);
  }

  lemma PickUpSlowlyRuns(s: Sys, latency: nat)
    requires s.history != [] && 1 !in s.inFlight && !Fresh(s, 1) && s.hasRedis && Live(s.redis, s.now)
    ensures IsRun(s, PickUpSlowly(latency), latency)
    ensures EndOf(s, PickUpSlowly(latency), latency) ==
      s.(now := s.now + latency, inFlight := s.inFlight[1 := Request(1, Known(s.now, s.redis.value))])
  {
    AskRuns(s, 1, 1, latency);
    ExtendRun(s, Ask(1, 1), Tick(latency), latency);
  }

  lemma LateReaderRuns(latency: nat)
    ensures var boot := Boot(true, false, 0);
            IsRun(boot, LateReader(latency), latency) &&
            var end := EndOf(boot, LateReader(latency), latency);
            end.now == MaxStaleness(latency) && end.history == [Commit(false, 0), Commit(true, 0)] &&
            Enabled(end, LateAnswer(latency), latency) && Answer(end, LateAnswer(latency), latency) == Some(false)
  {
    var boot := Boot(true, false, 0);
    FlipUnderReadRuns(latency);
    var flipped := EndOf(boot, FlipUnderRead(), latency);
    PublishLateRuns(flipped, latency);
    JoinRuns(boot, FlipUnderRead(), PublishLate(latency), latency);
    var published := EndOf(flipped, PublishLate(latency), latency);
    if latency < MEMORY_TTL {
      PickUpLastRuns(published, latency);
      JoinRuns(boot, FlipUnderRead() + PublishLate(latency), PickUpLast(), latency);
    } else {
      PickUpSlowlyRuns(published, latency);
      JoinRuns(boot, FlipUnderRead() + PublishLate(latency), PickUpSlowly(latency), latency);
    }
  }

  /** MaxStaleness is exact: process 1 then answers a value that was last committed that long ago. */
  lemma StalenessBoundIsReached(latency: nat)
    ensures var boot := Boot(true, false, 0);
            IsRun(boot, LateReader(latency), latency) &&
            var end := EndOf(boot, LateReader(latency), latency);
            Enabled(end, LateAnswer(latency), latency) && Answer(end, LateAnswer(latency), latency) == Some(false) &&
            !CommittedWithin(end.history, false, end.now - MaxStaleness(latency) + 1, end.now)
  {
    LateReaderRuns(latency);
  }

  // ---- A call that nothing interrupts ----

  /** State and answer of a call whose awaits take no time. */
  function Read(s: Sys, process: nat): (Sys, bool)
    requires s.history != []
  {
    if Fresh(s, process) then (s, s.memory[process].value)
    else if s.hasRedis && Live(s.redis, s.now) then
      (s.(memory := s.memory[process := Stamp(s.redis.value, s.now)]), s.redis.value)
    else
      var value := InDatabase(s);
      (s.(redis := if s.hasRedis then SetEx(value, REDIS_TTL, s.now) else s.redis,
          memory := s.memory[process := Stamp(value, s.now)]), value)
  }

  function ReadSteps(s: Sys, process: nat, request: nat): seq<Step> {
    if Fresh(s, process) then []
    else if !s.hasRedis then [Start(request, process), ReadDatabase(request)]
    else if Live(s.redis, s.now) then Ask(request, process)
    else Fetch(request, process) + [WriteRedis(request)]
  }

  /** An undisturbed call is one run of the protocol, so the staleness bound covers it. */
  lemma ReadIsARun(s: Sys, process: nat, request: nat)
    requires s.history != [] && request !in s.inFlight
    ensures var steps := ReadSteps(s, process, request);
            IsRun(s, steps, 0) &&
            var before := EndOf(s, steps, 0);
            var last := if Fresh(s, process) then Start(request, process) else Finish(request);
            Enabled(before, last, 0) && Answer(before, last, 0) == Some(Read(s, process).1) &&
            After(before, last, 0) == Read(s, process).0
  {
    if !Fresh(s, process) {
      if !s.hasRedis {
        TwoSteps(s, Start(request, process), ReadDatabase(request), 0);
      } else if Live(s.redis, s.now) {
        AskRuns(s, request, process, 0);
      } else {
        FetchRuns(s, request, process, 0);
        ExtendRun(s, Fetch(request, process), WriteRedis(request), 0);
      }
      assert EndOf(s, ReadSteps(s, process, request), 0).inFlight - {request} == s.inFlight;
    }
  }

  class MaintenanceCache {
    const hasRedis: bool
    var flag: bool
    var redis: Cell<bool>
    var memory: map<nat, Stamp>
    ghost var history: seq<Commit>

    ghost function View(now: int): Sys
      reads this
    {
      Sys(hasRedis, now, history, redis, memory, map[])
    }

    ghost predicate Valid()
      reads this
    {
      history != [] && history[|history| - 1].value == flag
    }

    constructor (hasRedis: bool, flag: bool, now: int)
      ensures Valid() && this.hasRedis == hasRedis && View(now) == Boot(hasRedis, flag, now)
    {
      this.hasRedis, this.flag, redis, memory, history := hasRedis, flag, Absent, map[], [Commit(flag, now)];
    }

    method GetMaintenanceMode(process: nat, now: int) returns (value: bool)
      requires Valid()
      modifies this`redis, this`memory
      ensures Valid() && (View(now), value) == Read(old(View(now)), process)
    {
      if process in memory {
        var cached := memory[process];
        if now - cached.at < MEMORY_TTL {
          return cached.value;
        }
      }
      if hasRedis && Live(redis, now) {
        value := redis.value;
        memory := memory[process := Stamp(value, now)];
        return;
      }
      value := flag;
      if hasRedis {
        redis := SetEx(value, REDIS_TTL, now);
      }
      memory := memory[process := Stamp(value, now)];
    }

    method InvalidateAsync(process: nat, ghost now: int)
      requires Valid()
      modifies this`redis, this`memory
      ensures Valid() && View(now) == After(After(old(View(now)), ForgetMemory(process), 0), DeleteRedis, 0)
    {
      memory := memory - {process};
      if hasRedis {
        redis := Absent;
      }
    }

    /** The caches are cleared before the new flag is committed. */
    method UpdateSettings(process: nat, maintenanceMode: Option<bool>, ghost now: int)
      requires Valid()
      modifies this
      ensures Valid()
      ensures View(now) ==
        if maintenanceMode.None? then old(View(now))
        else After(After(After(old(View(now)), ForgetMemory(process), 0), DeleteRedis, 0),
                   CommitFlag(maintenanceMode.value), 0)
    {
      if maintenanceMode.Some? {
        InvalidateAsync(process, now);
        flag, history := maintenanceMode.value, history + [Commit(maintenanceMode.value, now)];
      }
    }
  }
}
