/** Refresh tokens: one record per token, one revocation marker per family, both expiring keys. */
module Sessions {
  import opened Wrappers
  import opened TtlStore

  /** Lifetime of a revocation marker. */
  const REVOCATION_TTL := 86400

  datatype Config = Config(clientTtl: int, staffTtl: int)

  datatype Record = Record(user: string, family: nat)

  /** The Redis keys, plus two pieces of bookkeeping that the program does not store: `lineage`
      gives each issued token the login that it goes back to, `spent` collects the tokens that a
      refresh or a sign-out has used up. Tokens and families are numbered as they are issued. */
  datatype State = State(
    records: map<nat, Cell<Record>>, revoked: map<nat, Cell<()>>, lineage: seq<nat>, spent: set<nat>)

  const INITIAL := State(map[], map[], [], {})

  /** `staff` is whether the user's role is a staff role, `active` whether the account still exists
      and is active, at the time of the event. */
  datatype Event =
    | Login(at: int, user: string, staff: bool)
    | Refresh(at: int, token: nat, staff: bool, active: bool)
    | SignOut(at: int, token: nat)

  datatype Outcome = Issued(token: nat) | Unauthorized | SignedOut

  function Lifetime(cfg: Config, staff: bool): int {
    if staff then cfg.staffTtl else cfg.clientTtl
  }

  predicate LiveIn<V>(m: map<nat, Cell<V>>, key: nat, now: int) {
    key in m && Live(m[key], now)
  }

  predicate Validates(s: State, token: nat, now: int) {
    LiveIn(s.records, token, now) && !LiveIn(s.revoked, s.records[token].value.family, now)
  }

  function Issue(s: State, cfg: Config, user: string, staff: bool, lineage: nat, now: int): State {
    var token := |s.lineage|;
    s.(records := s.records[token := SetEx(Record(user, token), Lifetime(cfg, staff), now)],
       lineage := s.lineage + [lineage])
  }

  function Spend(s: State, token: nat, family: nat, now: int): State {
    s.(revoked := s.revoked[family := SetEx((), REVOCATION_TTL, now)], spent := s.spent + {token})
  }

  function After(s: State, cfg: Config, e: Event): (State, Outcome) {
    match e
    case Login(now, user, staff) =>
      (Issue(s, cfg, user, staff, |s.lineage|, now), Issued(|s.lineage|))
    case Refresh(now, token, staff, active) =>
      if !Validates(s, token, now) || !active || token >= |s.lineage| then (s, Unauthorized)
      else
        var record := s.records[token].value;
        (Spend(Issue(s, cfg, record.user, staff, s.lineage[token], now), token, record.family, now),
         Issued(|s.lineage|))
    case SignOut(now, token) =>
      (if Validates(s, token, now) then Spend(s, token, s.records[token].value.family, now) else s, SignedOut)
  }

  predicate Ordered(trace: seq<Event>) {
    forall i, j :: 0 <= i <= j < |trace| ==> trace[i].at <= trace[j].at
  }

  function StateAfter(trace: seq<Event>, cfg: Config, k: nat): State
    requires k <= |trace|
  {
    if k == 0 then INITIAL else After(StateAfter(trace, cfg, k - 1), cfg, trace[k - 1]).0
  }

  /** The time of the latest of the first `k` events. */
  function ClockAt(trace: seq<Event>, k: nat): int
    requires k <= |trace|
  {
    if trace == [] then 0 else if k == 0 then trace[0].at else trace[k - 1].at
  }

  /** When the record of an issued token lapses. */
  function LapsesAt(s: State, token: nat): int
    requires token in s.records && s.records[token].Held? && s.records[token].expiry.Some?
  {
    s.records[token].expiry.value
  }

  ghost predicate WellFormed(s: State) {
    (forall t: nat :: t in s.records <==> t < |s.lineage|) &&
    (forall t: nat :: t in s.records ==>
       s.records[t].Held? && s.records[t].expiry.Some? && s.records[t].value.family == t) &&
    (forall t: nat :: t in s.revoked <==> t in s.spent) &&
    (forall t: nat :: t in s.spent ==> t in s.records && s.revoked[t].Held? && s.revoked[t].expiry.Some?) &&
    (forall t: nat :: t < |s.lineage| ==> s.lineage[t] <= t)
  }

  /** A lineage has a single token that has not been used up. */
  ghost predicate SingleHeads(s: State) {
    forall t: nat, u: nat ::
      t < u < |s.lineage| && s.lineage[t] == s.lineage[u] ==> t in s.spent || u in s.spent
  }

  ghost predicate MarkersOutliveRecords(s: State)
    requires WellFormed(s)
  {
    forall t: nat :: t in s.spent ==> LapsesAt(s, t) <= s.revoked[t].expiry.value
  }

  predicate TtlsCovered(cfg: Config) {
    cfg.clientTtl <= 86400 && cfg.staffTtl <= 86400
  }

  /** No record was written to last beyond a marker set at `clock` or later. */
  ghost predicate RecordsCovered(s: State, clock: int)
    requires WellFormed(s)
  {
    forall t: nat :: t in s.records ==> LapsesAt(s, t) <= clock + REVOCATION_TTL
  }

  lemma SpendKeepsWellFormed(s: State, token: nat, now: int)
    requires WellFormed(s) && token in s.records
    ensures WellFormed(Spend(s, token, token, now))
  {
  }

  lemma EventKeepsWellFormed(s: State, cfg: Config, e: Event)
    requires WellFormed(s)
    ensures WellFormed(After(s, cfg, e).0)
  {
    match e
    case Login(now, user, staff) =>
    case Refresh(now, token, staff, active) =>
      if After(s, cfg, e).1.Issued? {
        SpendKeepsWellFormed(Issue(s, cfg, s.records[token].value.user, staff, s.lineage[token], now), token, now);
      }
    case SignOut(now, token) =>
      if Validates(s, token, now) {
        SpendKeepsWellFormed(s, token, now);
      }
  }

  lemma {:induction false} ReachableWellFormed(trace: seq<Event>, cfg: Config, k: nat)
    requires k <= |trace|
    ensures WellFormed(StateAfter(trace, cfg, k))
  {
    if k > 0 {
      ReachableWellFormed(trace, cfg, k - 1);
      EventKeepsWellFormed(StateAfter(trace, cfg, k - 1), cfg, trace[k - 1]);
    }
  }

  ghost predicate Covered(s: State, clock: int) {
    WellFormed(s) && MarkersOutliveRecords(s) && RecordsCovered(s, clock)
  }

  lemma IssueKeepsCovered(s: State, cfg: Config, user: string, staff: bool, lineage: nat, clock: int, now: int)
    requires Covered(s, clock) && clock <= now && TtlsCovered(cfg) && lineage <= |s.lineage|
    ensures Covered(Issue(s, cfg, user, staff, lineage, now), now)
  {
  }

  lemma SpendKeepsCovered(s: State, token: nat, now: int)
    requires Covered(s, now) && token in s.records
    ensures Covered(Spend(s, token, token, now), now)
  {
  }

  lemma EventKeepsCovered(s: State, cfg: Config, e: Event, clock: int)
    requires Covered(s, clock) && clock <= e.at && TtlsCovered(cfg)
    ensures Covered(After(s, cfg, e).0, e.at)
  {
    match e
    case Login(now, user, staff) =>
      IssueKeepsCovered(s, cfg, user, staff, |s.lineage|, clock, now);
    case Refresh(now, token, staff, active) =>
      if After(s, cfg, e).1.Issued? {
        var user := s.records[token].value.user;
        IssueKeepsCovered(s, cfg, user, staff, s.lineage[token], clock, now);
        SpendKeepsCovered(Issue(s, cfg, user, staff, s.lineage[token], now), token, now);
      }
    case SignOut(now, token) =>
      if Validates(s, token, now) {
        SpendKeepsCovered(s, token, now);
      }
  }

  lemma EventKeepsSingleHeads(s: State, cfg: Config, e: Event, clock: int)
    requires Covered(s, clock) && SingleHeads(s)
    ensures SingleHeads(After(s, cfg, e).0)
  {
    if e.Refresh? && After(s, cfg, e).1.Issued? {
      assert e.token !in s.spent;
    }
  }

  lemma {:induction false} ReachableCovered(trace: seq<Event>, cfg: Config, k: nat)
    requires k <= |trace| && Ordered(trace) && TtlsCovered(cfg)
    ensures Covered(StateAfter(trace, cfg, k), ClockAt(trace, k)) && SingleHeads(StateAfter(trace, cfg, k))
  {
    if k > 0 {
      ReachableCovered(trace, cfg, k - 1);
      EventKeepsCovered(StateAfter(trace, cfg, k - 1), cfg, trace[k - 1], ClockAt(trace, k - 1));
      EventKeepsSingleHeads(StateAfter(trace, cfg, k - 1), cfg, trace[k - 1], ClockAt(trace, k - 1));
    }
  }

  /** A token validates exactly while its record lasts and nothing has used it up. */
  lemma ValidationIsExact(trace: seq<Event>, cfg: Config, k: nat, token: nat, now: int)
    requires k <= |trace| && Ordered(trace) && TtlsCovered(cfg)
    ensures var s := StateAfter(trace, cfg, k);
            Validates(s, token, now) <==>
            LiveIn(s.records, token, now) && token !in s.spent
  {
    ReachableWellFormed(trace, cfg, k);
    ReachableCovered(trace, cfg, k);
  }

  /** At most one token of a login's lineage validates at any time. */
  lemma OneValidTokenPerLineage(trace: seq<Event>, cfg: Config, k: nat, t: nat, u: nat, now: int)
    requires k <= |trace| && Ordered(trace) && TtlsCovered(cfg)
    requires var s := StateAfter(trace, cfg, k);
             t < |s.lineage| && u < |s.lineage| && s.lineage[t] == s.lineage[u] &&
             Validates(s, t, now) && Validates(s, u, now)
    ensures t == u
  {
    ReachableCovered(trace, cfg, k);
    ValidationIsExact(trace, cfg, k, t, now);
    ValidationIsExact(trace, cfg, k, u, now);
  }

  /** Every token carries the user of the token that its lineage began with. */
  ghost predicate UsersMatch(s: State)
    requires WellFormed(s)
  {
    forall t: nat :: t < |s.lineage| ==> s.records[t].value.user == s.records[s.lineage[t]].value.user
  }

  lemma EventKeepsUsers(s: State, cfg: Config, e: Event)
    requires WellFormed(s) && UsersMatch(s) && WellFormed(After(s, cfg, e).0)
    ensures UsersMatch(After(s, cfg, e).0)
  {
  }

  lemma {:induction false} ReachableUsersMatch(trace: seq<Event>, cfg: Config, k: nat)
    requires k <= |trace|
    ensures WellFormed(StateAfter(trace, cfg, k)) && UsersMatch(StateAfter(trace, cfg, k))
  {
    ReachableWellFormed(trace, cfg, k);
    if k > 0 {
      ReachableUsersMatch(trace, cfg, k - 1);
      EventKeepsUsers(StateAfter(trace, cfg, k - 1), cfg, trace[k - 1]);
    }
  }

  /** A refreshed session belongs to the user who logged in. */
  lemma LineageKeepsUser(trace: seq<Event>, cfg: Config, k: nat, t: nat, u: nat, now: int)
    requires k <= |trace|
    requires var s := StateAfter(trace, cfg, k);
             t < |s.lineage| && u < |s.lineage| && s.lineage[t] == s.lineage[u] &&
             LiveIn(s.records, t, now) && LiveIn(s.records, u, now)
    ensures var s := StateAfter(trace, cfg, k);
            s.records[t].value.user == s.records[u].value.user
  {
    ReachableUsersMatch(trace, cfg, k);
  }

  lemma {:induction false} SpentGrows(trace: seq<Event>, cfg: Config, i: nat, j: nat)
    requires i <= j <= |trace|
    ensures StateAfter(trace, cfg, i).spent <= StateAfter(trace, cfg, j).spent
    ensures StateAfter(trace, cfg, i).lineage <= StateAfter(trace, cfg, j).lineage
  {
    if i < j {
      SpentGrows(trace, cfg, i, j - 1);
    }
  }

  /** After a refresh or a sign-out took a token, no later state accepts it, at any time. */
  lemma UsedTokenStaysDead(trace: seq<Event>, cfg: Config, i: nat, j: nat, now: int)
    requires i < j <= |trace| && Ordered(trace) && TtlsCovered(cfg)
    requires !trace[i].Login? && Validates(StateAfter(trace, cfg, i), trace[i].token, trace[i].at)
    requires trace[i].Refresh? ==> After(StateAfter(trace, cfg, i), cfg, trace[i]).1.Issued?
    ensures !Validates(StateAfter(trace, cfg, j), trace[i].token, now)
  {
    TakingSpends(trace, cfg, i);
    SpentGrows(trace, cfg, i + 1, j);
    ValidationIsExact(trace, cfg, j, trace[i].token, now);
  }

  lemma TakingSpends(trace: seq<Event>, cfg: Config, i: nat)
    requires i < |trace| && !trace[i].Login? && Validates(StateAfter(trace, cfg, i), trace[i].token, trace[i].at)
    requires trace[i].Refresh? ==> After(StateAfter(trace, cfg, i), cfg, trace[i]).1.Issued?
    ensures trace[i].token in StateAfter(trace, cfg, i + 1).spent
  {
  }

  /** An event changes the validity of tokens of its own lineage only. */
  lemma OtherLineagesUnaffected(trace: seq<Event>, cfg: Config, k: nat, other: nat, now: int)
    requires k < |trace| && other < |StateAfter(trace, cfg, k).lineage|
    requires !trace[k].Login? && trace[k].token < |StateAfter(trace, cfg, k).lineage| ==>
               StateAfter(trace, cfg, k).lineage[other] != StateAfter(trace, cfg, k).lineage[trace[k].token]
    ensures Validates(StateAfter(trace, cfg, k + 1), other, now) <==> Validates(StateAfter(trace, cfg, k), other, now)
    ensures StateAfter(trace, cfg, k + 1).lineage[..|StateAfter(trace, cfg, k).lineage|]
         == StateAfter(trace, cfg, k).lineage
  {
    ReachableWellFormed(trace, cfg, k);
    ReachableWellFormed(trace, cfg, k + 1);
  }

  /** A token that was used up is refused from then on, in every run of the configuration. */
  ghost predicate RevocationIsPermanent(cfg: Config) {
    forall trace: seq<Event>, k: nat, token: nat, now: int ::
      k <= |trace| && Ordered(trace) && token in StateAfter(trace, cfg, k).spent ==>
      !Validates(StateAfter(trace, cfg, k), token, now)
  }

  /** Revocation is permanent exactly when no refresh lifetime exceeds the marker's. */
  lemma RevocationPermanentIff(cfg: Config)
    ensures RevocationIsPermanent(cfg) <==> TtlsCovered(cfg)
  {
    if TtlsCovered(cfg) {
      forall trace: seq<Event>, k: nat, token: nat, now: int
        | k <= |trace| && Ordered(trace) && token in StateAfter(trace, cfg, k).spent
        ensures !Validates(StateAfter(trace, cfg, k), token, now)
      {
        ValidationIsExact(trace, cfg, k, token, now);
      }
    } else {
      MarkerLapsesFirst(cfg, cfg.clientTtl <= REVOCATION_TTL);
    }
  }

  function SignOutAtOnce(staff: bool): seq<Event> {
    [Login(0, "u", staff), SignOut(0, 0)]
  }

  /** With a longer lifetime, a token signed out at once is accepted again a day later. */
  lemma MarkerLapsesFirst(cfg: Config, staff: bool)
    requires Lifetime(cfg, staff) > REVOCATION_TTL
    ensures Ordered(SignOutAtOnce(staff)) && 0 in StateAfter(SignOutAtOnce(staff), cfg, 2).spent
    ensures Validates(StateAfter(SignOutAtOnce(staff), cfg, 2), 0, REVOCATION_TTL)
  {
    var trace := SignOutAtOnce(staff);
    assert StateAfter(trace, cfg, 0) == INITIAL;
    assert StateAfter(trace, cfg, 1) == After(INITIAL, cfg, trace[0]).0;
    assert Validates(StateAfter(trace, cfg, 1), 0, 0);
  }

  // ---- Every answer, from the events alone ----

  function OutcomeAt(trace: seq<Event>, cfg: Config, k: nat): Outcome
    requires k < |trace|
  {
    After(StateAfter(trace, cfg, k), cfg, trace[k]).1
  }

  /** When the token that event `m` issued lapses: after the TTL of the role it was issued for. */
  function LapseOf(e: Event, cfg: Config): int
    requires !e.SignOut?
  {
    e.at + (if e.staff then cfg.staffTtl else cfg.clientTtl)
  }

  /** Event `m`, a login or a refresh, issued the token. */
  predicate IssuedBy(trace: seq<Event>, cfg: Config, m: nat, token: nat) {
    m < |trace| && !trace[m].SignOut? && OutcomeAt(trace, cfg, m) == Issued(token)
  }

  /** Between events `m` and `k` the token was presented to sign out, or to refresh an active account. */
  predicate UsedBetween(trace: seq<Event>, token: nat, m: nat, k: nat)
    requires k <= |trace|
  {
    exists j :: m < j < k && Uses(trace[j], token)
  }

  predicate Uses(e: Event, token: nat) {
    (e.SignOut? && e.token == token) || (e.Refresh? && e.token == token && e.active)
  }

  /** Before event `k` the token was issued, and at `now` it has not lapsed and was not used. */
  predicate Usable(trace: seq<Event>, cfg: Config, k: nat, token: nat, now: int)
    requires k <= |trace|
  {
    exists m: nat :: m < k && IssuedBy(trace, cfg, m, token) && now < LapseOf(trace[m], cfg) &&
                     !UsedBetween(trace, token, m, k)
  }

  /** A token's record stays as its login or refresh wrote it. */
  lemma {:induction false} IssuedRecord(trace: seq<Event>, cfg: Config, m: nat, k: nat, token: nat)
    requires m < k <= |trace| && IssuedBy(trace, cfg, m, token)
    ensures token == |StateAfter(trace, cfg, m).lineage| < |StateAfter(trace, cfg, k).lineage|
    ensures var c := StateAfter(trace, cfg, k).records;
            token in c && c[token].Held? && c[token].expiry == Some(LapseOf(trace[m], cfg)) &&
            (trace[m].Login? ==> c[token].value.user == trace[m].user)
    decreases k
  {
    if m + 1 < k {
      IssuedRecord(trace, cfg, m, k - 1, token);
    }
  }

  /** Every token was issued by some event. */
  lemma {:induction false} IssuerOf(trace: seq<Event>, cfg: Config, k: nat, token: nat) returns (m: nat)
    requires k <= |trace| && token < |StateAfter(trace, cfg, k).lineage|
    ensures m < k && IssuedBy(trace, cfg, m, token)
    decreases k
  {
    if token < |StateAfter(trace, cfg, k - 1).lineage| {
      m := IssuerOf(trace, cfg, k - 1, token);
    } else {
      m := k - 1;
    }
  }

  lemma SpendingUses(s: State, cfg: Config, e: Event, token: nat)
    requires WellFormed(s) && token in After(s, cfg, e).0.spent && token !in s.spent
    ensures Uses(e, token) && token < |s.lineage|
  {
  }

  lemma NewTokenIsUnspent(trace: seq<Event>, cfg: Config, m: nat, token: nat)
    requires IssuedBy(trace, cfg, m, token)
    ensures token !in StateAfter(trace, cfg, m + 1).spent
  {
    var s := StateAfter(trace, cfg, m);
    ReachableWellFormed(trace, cfg, m);
    assert token == |s.lineage|;
    if token in After(s, cfg, trace[m]).0.spent {
      SpendingUses(s, cfg, trace[m], token);
    }
  }

  lemma {:induction false} SpentWasUsed(trace: seq<Event>, cfg: Config, m: nat, k: nat, token: nat)
    requires m < k <= |trace| && IssuedBy(trace, cfg, m, token) && token in StateAfter(trace, cfg, k).spent
    ensures UsedBetween(trace, token, m, k)
    decreases k
  {
    NewTokenIsUnspent(trace, cfg, m, token);
    if token in StateAfter(trace, cfg, k - 1).spent {
      SpentWasUsed(trace, cfg, m, k - 1, token);
    } else {
      ReachableWellFormed(trace, cfg, k - 1);
      SpendingUses(StateAfter(trace, cfg, k - 1), cfg, trace[k - 1], token);
    }
  }

  lemma UsedIsSpent(trace: seq<Event>, cfg: Config, m: nat, j: nat, k: nat, token: nat)
    requires Ordered(trace) && TtlsCovered(cfg) && m < j < k <= |trace| && IssuedBy(trace, cfg, m, token)
    requires Uses(trace[j], token) && trace[j].at < LapseOf(trace[m], cfg)
    ensures token in StateAfter(trace, cfg, k).spent
  {
    IssuedRecord(trace, cfg, m, j, token);
    ValidationIsExact(trace, cfg, j, token, trace[j].at);
    assert token in StateAfter(trace, cfg, j + 1).spent;
    SpentGrows(trace, cfg, j + 1, k);
  }

  /** In every run a token validates exactly while it is usable as the events tell. */
  lemma ValidatesIffUsable(trace: seq<Event>, cfg: Config, k: nat, token: nat, now: int)
    requires k <= |trace| && Ordered(trace) && TtlsCovered(cfg) && (k > 0 ==> trace[k - 1].at <= now)
    ensures Validates(StateAfter(trace, cfg, k), token, now) <==> Usable(trace, cfg, k, token, now)
  {
    var s := StateAfter(trace, cfg, k);
    ValidationIsExact(trace, cfg, k, token, now);
    ReachableWellFormed(trace, cfg, k);
    if Validates(s, token, now) {
      var m := IssuerOf(trace, cfg, k, token);
      IssuedRecord(trace, cfg, m, k, token);
      if j :| m < j < k && Uses(trace[j], token) {
        UsedIsSpent(trace, cfg, m, j, k, token);
      }
    }
    if m: nat :| m < k && IssuedBy(trace, cfg, m, token) && now < LapseOf(trace[m], cfg) &&
                 !UsedBetween(trace, token, m, k) {
      IssuedRecord(trace, cfg, m, k, token);
      if token in s.spent {
        SpentWasUsed(trace, cfg, m, k, token);
      }
    }
  }

  /** A refresh is answered with a new token exactly for an active account and a usable token; any
      other is refused and changes nothing. Sessions come only from logins and such refreshes. */
  lemma RefreshIsExact(trace: seq<Event>, cfg: Config, k: nat)
    requires k < |trace| && Ordered(trace) && TtlsCovered(cfg)
    ensures var s, next := StateAfter(trace, cfg, k), StateAfter(trace, cfg, k + 1);
            var e := trace[k];
            var granted := e.Refresh? && e.active && Usable(trace, cfg, k, e.token, e.at);
            (e.Refresh? ==> OutcomeAt(trace, cfg, k) == if granted then Issued(|s.lineage|) else Unauthorized) &&
            (e.Refresh? && !granted ==> next == s) &&
            |next.lineage| == |s.lineage| + (if e.Login? || granted then 1 else 0)
  {
    var s, e := StateAfter(trace, cfg, k), trace[k];
    ReachableWellFormed(trace, cfg, k);
    if !e.Login? {
      ValidatesIffUsable(trace, cfg, k, e.token, e.at);
    }
  }

  class TokenService {
    const cfg: Config
    var records: map<nat, Cell<Record>>
    var revoked: map<nat, Cell<()>>
    var nextId: nat
    ghost var lineage: seq<nat>
    ghost var spent: set<nat>

    ghost function View(): State
      reads this
    {
      State(records, revoked, lineage, spent)
    }

    ghost predicate Valid()
      reads this
    {
      nextId == |lineage| && WellFormed(View())
    }

    constructor (cfg: Config)
      ensures this.cfg == cfg && Valid() && View() == INITIAL
    {
      this.cfg := cfg;
      records, revoked, nextId, lineage, spent := map[], map[], 0, [], {};
    }

    method IssueSessionBundle(user: string, staff: bool, now: int, ghost origin: nat) returns (token: nat)
      requires Valid() && origin <= nextId
      modifies this
      ensures Valid() && token == old(nextId)
      ensures View() == Issue(old(View()), cfg, user, staff, origin, now)
    {
      token := nextId;
      var ttlSeconds := if staff then cfg.staffTtl else cfg.clientTtl;
      records := records[token := SetEx(Record(user, token), ttlSeconds, now)];
      nextId := nextId + 1;
      lineage := lineage + [origin];
    }

    method ValidateRefreshToken(token: nat, now: int) returns (payload: Option<Record>)
      ensures payload == if Validates(View(), token, now) then Some(records[token].value) else None
    {
      if token !in records || !Live(records[token], now) {
        return None;
      }
      var found := records[token].value;
      if found.family in revoked && Live(revoked[found.family], now) {
        return None;
      }
      return Some(found);
    }

    method RevokeRefreshFamily(family: nat, now: int, ghost token: nat)
      requires Valid() && family == token && token in records
      modifies this`revoked, this`spent
      ensures Valid() && View() == Spend(old(View()), token, family, now)
    {
      revoked := revoked[family := SetEx((), REVOCATION_TTL, now)];
      spent := spent + {token};
    }

    method OpenSession(user: string, staff: bool, now: int) returns (token: nat)
      requires Valid()
      modifies this
      ensures Valid() && (View(), Issued(token)) == After(old(View()), cfg, Login(now, user, staff))
    {
      token := IssueSessionBundle(user, staff, now, nextId);
    }

    /** The new token is issued before the presented one is revoked, as the service does it. */
    method RefreshSession(token: nat, staff: bool, active: bool, now: int) returns (r: Outcome)
      requires Valid()
      modifies this
      ensures Valid() && (View(), r) == After(old(View()), cfg, Refresh(now, token, staff, active))
    {
      var payload := ValidateRefreshToken(token, now);
      if payload.None? || !active {
        return Unauthorized;
      }
      var issued := IssueSessionBundle(payload.value.user, staff, now, lineage[token]);
      RevokeRefreshFamily(payload.value.family, now, token);
      return Issued(issued);
    }

    method EndSession(token: nat, now: int)
      requires Valid()
      modifies this
      ensures Valid() && View() == After(old(View()), cfg, SignOut(now, token)).0
    {
      var payload := ValidateRefreshToken(token, now);
      if payload.Some? {
        RevokeRefreshFamily(payload.value.family, now, token);
      }
    }
  }
}
