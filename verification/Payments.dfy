/** The payments ledger: payments, the paid flag of applications, the money audit and receipts. */
module Payments {
  import opened Wrappers

  const RECEIPT_TRIES := 20
  const MOMO_EXPIRY := 120

  datatype Method = MtnMomo | AirtelMoney | Card | Unsupported(name: string)

  datatype Status = Pending | Processing | Paid | TimedOut

  /** Payments are numbered in the order of their creation. */
  datatype Payment = Payment(
    app: string, amount: int, governmentFee: int, method_: Method, providerTx: string, status: Status,
    receipt: Option<string>, paidAt: Option<int>, expiresAt: Option<int>, createdAt: int)

  datatype App = App(client: string, paid: bool, amount: int)

  /** The fees of the application's pricing tier. */
  datatype Tier = Tier(platformFee: int, governmentFee: int)

  /** An audit entry of kind Money, and a system message that announces a receipt. */
  datatype Money = Money(payment: nat, amount: int)
  datatype Message = Message(app: string, amount: int, receipt: string)

  datatype Ledger = Ledger(payments: seq<Payment>, apps: map<string, App>, audit: seq<Money>, messages: seq<Message>)

  datatype PayError =
    | AppNotFound | AccessForbidden | AlreadyPaid | GatewayError
    | PaymentNotFound | PaymentExpired | NoReceiptNumber

  /** The candidate receipt numbers that one generation draws. */
  type Draws = s: seq<string> | |s| == RECEIPT_TRIES witness seq(RECEIPT_TRIES, _ => "")

  predicate IsMomo(m: Method) {
    m.MtnMomo? || m.AirtelMoney?
  }

  function NewPayment(app: string, m: Method, tier: Tier, providerTx: string, now: int): Payment {
    Payment(app, tier.platformFee + 0, tier.governmentFee, m, providerTx, if IsMomo(m) then Processing else Pending,
            None, None, if IsMomo(m) then Some(now + MOMO_EXPIRY) else None, now)
  }

  /** `credential` is the phone number or card token, empty if missing; `providerTx` is the gateway's answer. */
  function Initiated(
      l: Ledger, app: string, m: Method, credential: string, tier: Option<Tier>, client: string,
      providerTx: string, now: int)
    : Result<Ledger, PayError>
  {
    if app !in l.apps then Err(AppNotFound)
    else if l.apps[app].client != client then Err(AccessForbidden)
    else if l.apps[app].paid then Err(AlreadyPaid)
    else if tier.None? then Err(AppNotFound)
    else if m.Unsupported? || credential == "" then Err(GatewayError)
    else Ok(l.(payments := l.payments + [NewPayment(app, m, tier.value, providerTx, now)]))
  }

  predicate ReceiptExists(payments: seq<Payment>, number: string) {
    exists i :: 0 <= i < |payments| && payments[i].receipt == Some(number)
  }

  function FirstUnused(draws: seq<string>, payments: seq<Payment>): Option<string> {
    if draws == [] then None
    else if !ReceiptExists(payments, draws[0]) then Some(draws[0])
    else FirstUnused(draws[1..], payments)
  }

  function Settled(p: Payment, receipt: string, now: int): Payment {
    p.(status := Paid, paidAt := Some(now), receipt := Some(receipt))
  }

  function Booked(l: Ledger, id: nat, receipt: string, now: int): Ledger
    requires id < |l.payments| && l.payments[id].app in l.apps
  {
    var p := l.payments[id];
    Ledger(l.payments[id := Settled(p, receipt, now)],
           l.apps[p.app := l.apps[p.app].(paid := true, amount := p.amount)],
           l.audit + [Money(id, p.amount)],
           l.messages + [Message(p.app, p.amount, receipt)])
  }

  function Confirmed(l: Ledger, id: nat, draws: Draws, now: int): Result<Ledger, PayError> {
    if id >= |l.payments| then Err(PaymentNotFound)
    else if l.payments[id].status == Paid then Ok(l)
    else if l.payments[id].status == TimedOut then Err(PaymentExpired)
    else
      var number := FirstUnused(draws, l.payments);
      if number.None? then Err(NoReceiptNumber)
      else if l.payments[id].app !in l.apps then Err(AppNotFound)
      else Ok(Booked(l, id, number.value, now))
  }

  function Polled(l: Ledger, id: nat, client: string, gatewayPaid: bool, draws: Draws, now: int)
    : Result<Ledger, PayError>
  {
    if id >= |l.payments| then Err(PaymentNotFound)
    else
      var p := l.payments[id];
      if p.app !in l.apps || l.apps[p.app].client != client then Err(PaymentNotFound)
      else if p.status == Processing && p.providerTx != "" && gatewayPaid then Confirmed(l, id, draws, now)
      else Ok(l)
  }

  /** `hit` is the payment that the lookup by provider transaction returned, if any. */
  function WebhookCame(l: Ledger, hit: Option<nat>, paid: bool, draws: Draws, now: int): Result<Ledger, PayError> {
    if hit.None? || hit.value >= |l.payments| then Err(PaymentNotFound)
    else if paid && l.payments[hit.value].status != Paid then Confirmed(l, hit.value, draws, now)
    else Ok(l)
  }

  function TimeoutRan(l: Ledger, id: nat, gatewayPaid: bool, draws: Draws, now: int): Result<Ledger, PayError> {
    if id >= |l.payments| || l.payments[id].status != Processing then Ok(l)
    else if gatewayPaid then Confirmed(l, id, draws, now)
    else Ok(l.(payments := l.payments[id := l.payments[id].(status := TimedOut)]))
  }

  datatype Event =
    | Submit(app: string, client: string, quoted: int)
    | Initiate(app: string, method_: Method, credential: string, tier: Option<Tier>, client: string, providerTx: string)
    | Poll(id: nat, client: string, gatewayPaid: bool, draws: Draws)
    | Webhook(hit: Option<nat>, gatewayPaid: bool, draws: Draws)
    | Timeout(id: nat, gatewayPaid: bool, draws: Draws)
    | CardConfirm(id: nat, draws: Draws)

  function Outcome(l: Ledger, e: Event, now: int): Result<Ledger, PayError> {
    match e
    case Submit(app, client, quoted) =>
      if app in l.apps then Err(AccessForbidden) else Ok(l.(apps := l.apps[app := App(client, false, quoted)]))
    case Initiate(app, m, credential, tier, client, tx) => Initiated(l, app, m, credential, tier, client, tx, now)
    case Poll(id, client, paid, draws) => Polled(l, id, client, paid, draws, now)
    case Webhook(hit, paid, draws) => WebhookCame(l, hit, paid, draws, now)
    case Timeout(id, paid, draws) => TimeoutRan(l, id, paid, draws, now)
    case CardConfirm(id, draws) => Confirmed(l, id, draws, now)
  }

  /** A request that raises is rolled back. */
  function After(l: Ledger, e: Event, now: int): Ledger {
    var r := Outcome(l, e, now);
    if r.Ok? then r.value else l
  }

  datatype Timed = Timed(at: int, event: Event)

  const OPENING := Ledger([], map[], [], [])

  function Run(l: Ledger, events: seq<Timed>): Ledger
    decreases |events|
  {
    if events == [] then l else Run(After(l, events[0].event, events[0].at), events[1..])
  }

  // ---- Every event is one of four moves ----

  /** Nothing, a new application, a new payment, a time-out, or a booking. */
  datatype Move =
    | Nothing
    | NewApp(app: string, row: App)
    | NewPay(payment: Payment)
    | Expire(id: nat)
    | Book(id: nat, receipt: string)

  predicate Possible(l: Ledger, m: Move) {
    match m
    case Nothing => true
    case NewApp(app, row) => app !in l.apps && !row.paid
    case NewPay(p) =>
      p.app in l.apps && !l.apps[p.app].paid && p.receipt.None? && p.paidAt.None? && !p.method_.Unsupported? &&
      p.status == (if IsMomo(p.method_) then Processing else Pending) &&
      p.expiresAt == if IsMomo(p.method_) then Some(p.createdAt + MOMO_EXPIRY) else None
    case Expire(id) => id < |l.payments| && l.payments[id].status == Processing
    case Book(id, receipt) =>
      id < |l.payments| && l.payments[id].app in l.apps && l.payments[id].status in {Pending, Processing} &&
      !ReceiptExists(l.payments, receipt)
  }

  function Moved(l: Ledger, m: Move, now: int): Ledger
    requires Possible(l, m)
  {
    match m
    case Nothing => l
    case NewApp(app, row) => l.(apps := l.apps[app := row])
    case NewPay(p) => l.(payments := l.payments + [p])
    case Expire(id) => l.(payments := l.payments[id := l.payments[id].(status := TimedOut)])
    case Book(id, receipt) => Booked(l, id, receipt, now)
  }

  /** The number returned is a drawn one that no payment has, and the first such. */
  lemma {:induction false} FirstUnusedIsFresh(draws: seq<string>, payments: seq<Payment>)
    ensures var r := FirstUnused(draws, payments);
            r.Some? ==> r.value in draws && !ReceiptExists(payments, r.value)
    ensures FirstUnused(draws, payments).None? <==> forall i :: 0 <= i < |draws| ==> ReceiptExists(payments, draws[i])
  {
    if draws != [] && ReceiptExists(payments, draws[0]) {
      FirstUnusedIsFresh(draws[1..], payments);
    }
  }

  lemma ConfirmMove(l: Ledger, id: nat, draws: Draws, now: int) returns (m: Move)
    requires Confirmed(l, id, draws, now).Ok?
    ensures Possible(l, m) && Confirmed(l, id, draws, now) == Ok(Moved(l, m, now))
    ensures m.Nothing? || (m.Book? && m.id == id)
  {
    FirstUnusedIsFresh(draws, l.payments);
    m := if l.payments[id].status == Paid then Nothing else Book(id, FirstUnused(draws, l.payments).value);
  }

  lemma MoveOf(l: Ledger, e: Event, now: int) returns (m: Move)
    ensures Possible(l, m) && After(l, e, now) == Moved(l, m, now)
  {
    m := Nothing;
    if After(l, e, now) != l {
      match e
      case Submit(app, client, quoted) => m := NewApp(app, App(client, false, quoted));
      case Initiate(app, method_, credential, tier, client, tx) =>
        m := NewPay(NewPayment(app, method_, tier.value, tx, now));
      case Poll(id, client, paid, draws) => m := ConfirmMove(l, id, draws, now);
      case Webhook(hit, paid, draws) => m := ConfirmMove(l, hit.value, draws, now);
      case Timeout(id, paid, draws) =>
        if paid {
          m := ConfirmMove(l, id, draws, now);
        } else {
          m := Expire(id);
        }
      case CardConfirm(id, draws) => m := ConfirmMove(l, id, draws, now);
    }
  }

  // ---- The ledger is consistent ----

  function Entries(audit: seq<Money>, id: nat): nat {
    if audit == [] then 0
    else Entries(audit[..|audit| - 1], id) + (if audit[|audit| - 1].payment == id then 1 else 0)
  }

  function AuditTotal(audit: seq<Money>): int {
    if audit == [] then 0 else AuditTotal(audit[..|audit| - 1]) + audit[|audit| - 1].amount
  }

  function PaidTotal(payments: seq<Payment>): int {
    if payments == [] then 0
    else
      var p := payments[|payments| - 1];
      PaidTotal(payments[..|payments| - 1]) + (if p.status == Paid then p.amount else 0)
  }

  /** Paid, receipt and payment time go together; the status fits the method. */
  predicate PaymentSound(p: Payment) {
    (p.status == Paid <==> p.receipt.Some?) && (p.status == Paid <==> p.paidAt.Some?) && !p.method_.Unsupported? &&
    (if IsMomo(p.method_) then p.status != Pending else p.status in {Pending, Paid}) &&
    p.expiresAt == if IsMomo(p.method_) then Some(p.createdAt + MOMO_EXPIRY) else None
  }

  predicate SomePaidWith(payments: seq<Payment>, app: string, amount: int) {
    exists i :: 0 <= i < |payments| && payments[i].app == app && payments[i].status == Paid &&
                payments[i].amount == amount
  }

  predicate SomePaid(payments: seq<Payment>, app: string) {
    exists i :: 0 <= i < |payments| && payments[i].app == app && payments[i].status == Paid
  }

  ghost predicate RowsSound(l: Ledger) {
    (forall i :: 0 <= i < |l.payments| ==> PaymentSound(l.payments[i]) && l.payments[i].app in l.apps) &&
    (forall i, j :: 0 <= i < j < |l.payments| && l.payments[i].receipt.Some? ==>
       l.payments[i].receipt != l.payments[j].receipt)
  }

  ghost predicate AppsAgree(l: Ledger) {
    (forall app :: app in l.apps ==> (l.apps[app].paid <==> SomePaid(l.payments, app))) &&
    (forall app :: app in l.apps && l.apps[app].paid ==> SomePaidWith(l.payments, app, l.apps[app].amount))
  }

  predicate BooksPayment(l: Ledger, k: nat)
    requires k < |l.audit| == |l.messages|
  {
    var e := l.audit[k];
    e.payment < |l.payments| && l.payments[e.payment].status == Paid && l.payments[e.payment].amount == e.amount &&
    l.payments[e.payment].receipt == Some(l.messages[k].receipt) &&
    l.messages[k] == Message(l.payments[e.payment].app, e.amount, l.messages[k].receipt)
  }

  /** Audit entries and receipt messages are written in pairs, one pair per paid payment. */
  ghost predicate BooksAgree(l: Ledger) {
    |l.audit| == |l.messages| &&
    (forall k: nat :: k < |l.audit| ==> BooksPayment(l, k)) &&
    (forall i: nat :: Entries(l.audit, i) == if i < |l.payments| && l.payments[i].status == Paid then 1 else 0) &&
    AuditTotal(l.audit) == PaidTotal(l.payments)
  }

  ghost predicate Consistent(l: Ledger) {
    RowsSound(l) && AppsAgree(l) && BooksAgree(l)
  }

  lemma RowsStaySound(l: Ledger, m: Move, now: int)
    requires RowsSound(l) && Possible(l, m)
    ensures RowsSound(Moved(l, m, now))
  {
  }

  lemma SomePaidAppended(payments: seq<Payment>, p: Payment, app: string)
    ensures SomePaid(payments + [p], app) <==> SomePaid(payments, app) || (p.app == app && p.status == Paid)
  {
    var all := payments + [p];
    if i :| 0 <= i < |payments| && payments[i].app == app && payments[i].status == Paid {
      assert all[i] == payments[i];
    }
    assert all[|payments|] == p;
  }

  lemma SomePaidUpdated(payments: seq<Payment>, id: nat, p: Payment, app: string)
    requires id < |payments| && payments[id].status != Paid && p.app == payments[id].app
    ensures SomePaid(payments[id := p], app) <==> SomePaid(payments, app) || (p.app == app && p.status == Paid)
  {
    var all := payments[id := p];
    if i :| 0 <= i < |payments| && payments[i].app == app && payments[i].status == Paid {
      assert all[i] == payments[i];
    }
    assert all[id] == p;
  }

  lemma AmountStaysPaid(l: Ledger, m: Move, now: int, app: string)
    requires AppsAgree(l) && Possible(l, m) && app in Moved(l, m, now).apps && Moved(l, m, now).apps[app].paid
    ensures SomePaidWith(Moved(l, m, now).payments, app, Moved(l, m, now).apps[app].amount)
  {
    var next := Moved(l, m, now);
    if m.Book? && l.payments[m.id].app == app {
      assert next.payments[m.id].status == Paid;
    } else {
      var i :| 0 <= i < |l.payments| && l.payments[i].app == app && l.payments[i].status == Paid &&
               l.payments[i].amount == l.apps[app].amount;
      assert next.payments[i] == l.payments[i];
    }
  }

  lemma AppsStayInAgreement(l: Ledger, m: Move, now: int)
    requires RowsSound(l) && AppsAgree(l) && Possible(l, m)
    ensures AppsAgree(Moved(l, m, now))
  {
    var next := Moved(l, m, now);
    forall app | app in next.apps ensures next.apps[app].paid <==> SomePaid(next.payments, app) {
      match m
      case NewPay(p) => SomePaidAppended(l.payments, p, app);
      case Expire(id) => SomePaidUpdated(l.payments, id, l.payments[id].(status := TimedOut), app);
      case Book(id, receipt) => SomePaidUpdated(l.payments, id, Settled(l.payments[id], receipt, now), app);
      case NewApp(new_, row) =>
      case Nothing =>
    }
    forall app | app in next.apps && next.apps[app].paid
      ensures SomePaidWith(next.payments, app, next.apps[app].amount)
    {
      AmountStaysPaid(l, m, now, app);
    }
  }

  lemma {:induction false} PaidTotalUpdated(payments: seq<Payment>, id: nat, p: Payment)
    requires id < |payments| && payments[id].status != Paid
    ensures PaidTotal(payments[id := p]) == PaidTotal(payments) + (if p.status == Paid then p.amount else 0)
  {
    var front := payments[..|payments| - 1];
    if id < |front| {
      PaidTotalUpdated(front, id, p);
      assert payments[id := p][..|payments| - 1] == front[id := p];
    } else {
      assert payments[id := p][..|payments| - 1] == front;
    }
  }

  lemma BookingKeepsBooks(l: Ledger, id: nat, receipt: string, now: int)
    requires RowsSound(l) && BooksAgree(l) && Possible(l, Book(id, receipt))
    ensures BooksAgree(Booked(l, id, receipt, now))
  {
    var next := Booked(l, id, receipt, now);
    PaidTotalUpdated(l.payments, id, Settled(l.payments[id], receipt, now));
    assert next.audit[..|l.audit|] == l.audit;
    forall k: nat | k < |next.audit| ensures BooksPayment(next, k) {
      if k < |l.audit| {
        assert BooksPayment(l, k);
        assert next.audit[k] == l.audit[k] && next.messages[k] == l.messages[k];
        assert next.payments[l.audit[k].payment] == l.payments[l.audit[k].payment];
      }
    }
    forall i: nat
      ensures Entries(next.audit, i) == if i < |next.payments| && next.payments[i].status == Paid then 1 else 0
    {
      assert Entries(next.audit, i) == Entries(l.audit, i) + (if i == id then 1 else 0);
    }
  }

  /** A move that changes no paid payment leaves the books right. */
  lemma OtherMovesKeepBooks(l: Ledger, m: Move, now: int)
    requires RowsSound(l) && BooksAgree(l) && Possible(l, m) && !m.Book?
    ensures BooksAgree(Moved(l, m, now))
  {
    var next := Moved(l, m, now);
    assert next.audit == l.audit && next.messages == l.messages;
    if m.NewPay? {
      assert next.payments[..|l.payments|] == l.payments;
    } else if m.Expire? {
      PaidTotalUpdated(l.payments, m.id, l.payments[m.id].(status := TimedOut));
    }
    forall i: nat | i < |l.payments| && l.payments[i].status == Paid ensures next.payments[i] == l.payments[i] {
    }
    forall k: nat | k < |l.audit| ensures BooksPayment(next, k) {
      assert BooksPayment(l, k);
    }
  }

  lemma MoveKeepsConsistency(l: Ledger, m: Move, now: int)
    requires Consistent(l) && Possible(l, m)
    ensures Consistent(Moved(l, m, now))
  {
    RowsStaySound(l, m, now);
    AppsStayInAgreement(l, m, now);
    if m.Book? {
      BookingKeepsBooks(l, m.id, m.receipt, now);
    } else {
      OtherMovesKeepBooks(l, m, now);
    }
  }

  lemma {:induction false} RunKeepsConsistency(l: Ledger, events: seq<Timed>)
    requires Consistent(l)
    ensures Consistent(Run(l, events))
    decreases |events|
  {
    if events != [] {
      var m := MoveOf(l, events[0].event, events[0].at);
      MoveKeepsConsistency(l, m, events[0].at);
      RunKeepsConsistency(After(l, events[0].event, events[0].at), events[1..]);
    }
  }

  /** Over any run of requests, webhooks and jobs, with any answers of the gateway: every paid
      payment has exactly one audit entry and one receipt message, the audited amounts add up to
      the paid amounts, receipts are distinct, and an application is paid iff a payment of it is, for the amount that
      the application records. */
  lemma LedgerIsConsistent(events: seq<Timed>)
    ensures Consistent(Run(OPENING, events))
  {
    RunKeepsConsistency(OPENING, events);
  }

  // ---- What stays as it is ----

  predicate Final(s: Status) {
    s == Paid || s == TimedOut
  }

  /** A paid or timed-out payment never changes again, in any field. */
  lemma {:induction false} FinalPaymentsAreFrozen(l: Ledger, events: seq<Timed>, id: nat)
    requires id < |l.payments| && Final(l.payments[id].status)
    ensures id < |Run(l, events).payments| && Run(l, events).payments[id] == l.payments[id]
    decreases |events|
  {
    if events != [] {
      var m := MoveOf(l, events[0].event, events[0].at);
      FinalPaymentsAreFrozen(After(l, events[0].event, events[0].at), events[1..], id);
    }
  }

  /** The timeout job settles an open mobile-money payment unless the gateway reports it paid and all
      drawn receipt numbers are taken, when it raises. A settled payment is so for the rest of the
      run. A card payment is left alone by that job. */
  lemma TimeoutSettlesMomo(before: seq<Timed>, after: seq<Timed>, id: nat, gatewayPaid: bool, draws: Draws, now: int)
    requires id < |Run(OPENING, before).payments|
    ensures var l := Run(OPENING, before);
            var next := After(l, Timeout(id, gatewayPaid, draws), now);
            if IsMomo(l.payments[id].method_)
            then
              (Final(next.payments[id].status) <==>
                Final(l.payments[id].status) || !gatewayPaid ||
                exists i :: 0 <= i < |draws| && !ReceiptExists(l.payments, draws[i])) &&
              (Final(next.payments[id].status) ==>
                id < |Run(next, after).payments| && Run(next, after).payments[id] == next.payments[id])
            else next == l
  {
    LedgerIsConsistent(before);
    var l := Run(OPENING, before);
    assert PaymentSound(l.payments[id]);
    FirstUnusedIsFresh(draws, l.payments);
    var next := After(l, Timeout(id, gatewayPaid, draws), now);
    if Final(next.payments[id].status) {
      FinalPaymentsAreFrozen(next, after, id);
    }
  }

  function PaymentsOf(payments: seq<Payment>, app: string): set<nat> {
    set i: nat | i < |payments| && payments[i].app == app
  }

  /** A paid application stays paid and gets no further payment. */
  lemma {:induction false} PaidApplicationIsClosed(l: Ledger, events: seq<Timed>, app: string)
    requires app in l.apps && l.apps[app].paid
    ensures var end := Run(l, events);
            app in end.apps && end.apps[app].paid && PaymentsOf(end.payments, app) == PaymentsOf(l.payments, app)
    decreases |events|
  {
    if events != [] {
      var m := MoveOf(l, events[0].event, events[0].at);
      var next := After(l, events[0].event, events[0].at);
      assert PaymentsOf(next.payments, app) == PaymentsOf(l.payments, app);
      PaidApplicationIsClosed(next, events[1..], app);
    }
  }

  /** A confirmation succeeds exactly for a payment that has not timed out and, if it is still open,
      finds an unused receipt number among the drawn ones. */
  lemma ConfirmationSucceedsIff(l: Ledger, id: nat, draws: Draws, now: int)
    requires RowsSound(l)
    ensures Confirmed(l, id, draws, now).Ok? <==>
            id < |l.payments| && l.payments[id].status != TimedOut &&
            (l.payments[id].status == Paid || exists i :: 0 <= i < |draws| && !ReceiptExists(l.payments, draws[i]))
  {
    FirstUnusedIsFresh(draws, l.payments);
  }

  function Always(number: string): Draws {
    seq(RECEIPT_TRIES, _ => number)
  }

  lemma AlwaysDraws(number: string, payments: seq<Payment>)
    requires !ReceiptExists(payments, number)
    ensures FirstUnused(Always(number), payments) == Some(number)
  {
    assert Always(number)[0] == number;
  }

  // ---- Which events settle a payment, and which open one ----

  /** The event reports payment `i` paid: a poll by its owner or the timeout job on a payment that is
      processing, a webhook, or the card job. */
  predicate Reports(l: Ledger, e: Event, i: nat) {
    i < |l.payments| &&
    var p := l.payments[i];
    match e
    case Poll(id, client, paid, _) =>
      id == i && paid && p.status == Processing && p.providerTx != "" &&
      p.app in l.apps && l.apps[p.app].client == client
    case Webhook(hit, paid, _) => hit == Some(i) && paid
    case Timeout(id, paid, _) => id == i && paid && p.status == Processing
    case CardConfirm(id, _) => id == i
    case Submit(_, _, _) => false
    case Initiate(_, _, _, _, _, _) => false
  }

  function DrawsOf(e: Event): seq<string> {
    match e
    case Poll(_, _, _, draws) => draws
    case Webhook(_, _, draws) => draws
    case Timeout(_, _, draws) => draws
    case CardConfirm(_, draws) => draws
    case Submit(_, _, _) => []
    case Initiate(_, _, _, _, _, _) => []
  }

  predicate DrawsUnused(l: Ledger, e: Event) {
    exists d :: 0 <= d < |DrawsOf(e)| && !ReceiptExists(l.payments, DrawsOf(e)[d])
  }

  predicate Pays(l: Ledger, e: Event, i: nat) {
    i < |l.payments| && !Final(l.payments[i].status) && Reports(l, e, i) && DrawsUnused(l, e)
  }

  predicate Expires(l: Ledger, e: Event, i: nat) {
    i < |l.payments| && l.payments[i].status == Processing && e.Timeout? && e.id == i && !e.gatewayPaid
  }

  /** What every event does to every payment. */
  lemma EventOnPayment(l: Ledger, e: Event, i: nat, now: int)
    requires RowsSound(l) && i < |l.payments|
    ensures var p, next := l.payments[i], After(l, e, now).payments;
            i < |next| &&
            (p.status != Paid ==> (next[i].status == Paid <==> Pays(l, e, i))) &&
            (p.status != TimedOut ==> (next[i].status == TimedOut <==> Expires(l, e, i))) &&
            (Pays(l, e, i) ==>
               next[i] == Settled(p, next[i].receipt.value, now) && next[i].receipt.value in DrawsOf(e) &&
               !ReceiptExists(l.payments, next[i].receipt.value)) &&
            (!Pays(l, e, i) && !Expires(l, e, i) ==> next[i] == p)
  {
    FirstUnusedIsFresh(DrawsOf(e), l.payments);
    if e.Initiate? {
      assert Outcome(l, e, now).Ok? ==> After(l, e, now).payments[..|l.payments|] == l.payments;
    }
  }

  /** The ledger before event `k` of a run. */
  function Before(events: seq<Timed>, k: nat): Ledger
    requires k <= |events|
  {
    Run(OPENING, events[..k])
  }

  lemma {:induction false} RunSteps(l: Ledger, events: seq<Timed>, k: nat)
    requires k < |events|
    ensures Run(l, events[..k + 1]) == After(Run(l, events[..k]), events[k].event, events[k].at)
    decreases k
  {
    var next := After(l, events[0].event, events[0].at);
    assert events[..k + 1][1..] == events[1..][..k];
    if k == 0 {
      assert events[..k] == [] && events[1..][..0] == [];
    } else {
      assert events[..k][1..] == events[1..][..k - 1];
      RunSteps(next, events[1..], k - 1);
    }
  }

  predicate PaysAt(events: seq<Timed>, k: nat, i: nat) {
    k < |events| && Pays(Before(events, k), events[k].event, i)
  }

  predicate ExpiresAt(events: seq<Timed>, k: nat, i: nat) {
    k < |events| && Expires(Before(events, k), events[k].event, i)
  }

  /** After `n` events the payment is paid exactly if one of them paid it, and timed out exactly if one
      of them was its timeout. */
  ghost predicate SettledAsTold(events: seq<Timed>, i: nat, n: nat)
    requires n <= |events| && i < |Before(events, n).payments|
  {
    (Before(events, n).payments[i].status == Paid <==> exists k: nat :: k < n && PaysAt(events, k, i)) &&
    (Before(events, n).payments[i].status == TimedOut <==> exists k: nat :: k < n && ExpiresAt(events, k, i))
  }

  lemma StatusStep(l: Ledger, e: Event, i: nat, now: int)
    requires RowsSound(l) && i < |l.payments|
    ensures var next := After(l, e, now);
            i < |next.payments| &&
            (next.payments[i].status == Paid <==> l.payments[i].status == Paid || Pays(l, e, i)) &&
            (next.payments[i].status == TimedOut <==> l.payments[i].status == TimedOut || Expires(l, e, i))
  {
    EventOnPayment(l, e, i, now);
    if Final(l.payments[i].status) {
      var m := MoveOf(l, e, now);
    }
  }

  lemma OldPaymentStep(events: seq<Timed>, i: nat, n: nat)
    requires n < |events| && i < |Before(events, n).payments| && SettledAsTold(events, i, n)
    ensures i < |Before(events, n + 1).payments| && SettledAsTold(events, i, n + 1)
  {
    RunSteps(OPENING, events, n);
    LedgerIsConsistent(events[..n]);
    StatusStep(Before(events, n), events[n].event, i, events[n].at);
    assert PaysAt(events, n, i) <==> Pays(Before(events, n), events[n].event, i);
    assert ExpiresAt(events, n, i) <==> Expires(Before(events, n), events[n].event, i);
  }

  lemma NewPaymentStep(events: seq<Timed>, i: nat, n: nat)
    requires n < |events| && |Before(events, n).payments| <= i < |Before(events, n + 1).payments|
    ensures SettledAsTold(events, i, n + 1)
  {
    RunSteps(OPENING, events, n);
    InitiationIsExact(Before(events, n), events[n].event, events[n].at);
    forall k: nat | k < n + 1 ensures !PaysAt(events, k, i) && !ExpiresAt(events, k, i) {
      PaymentsOnlyGrow(events, k, n);
    }
  }

  /** Over any run a payment is paid exactly when an event came that paid it while it was open, and
      timed out exactly when its timeout job found it open and unpaid. */
  lemma {:induction false} PaymentIsSettledIff(events: seq<Timed>, i: nat, n: nat)
    requires n <= |events| && i < |Before(events, n).payments|
    ensures SettledAsTold(events, i, n)
    decreases n
  {
    assert n > 0;
    if i < |Before(events, n - 1).payments| {
      PaymentIsSettledIff(events, i, n - 1);
      OldPaymentStep(events, i, n - 1);
    } else {
      NewPaymentStep(events, i, n - 1);
    }
  }

  /** What an initiation needs: an unpaid application of the client, its tier, a supported method and
      a phone number or card. */
  predicate Acceptable(l: Ledger, e: Event) {
    e.Initiate? && e.app in l.apps && l.apps[e.app].client == e.client && !l.apps[e.app].paid &&
    e.tier.Some? && !e.method_.Unsupported? && e.credential != ""
  }

  /** The payment was opened on the terms of the event: for the platform fee alone. */
  predicate OnTermsOf(p: Payment, e: Event, at: int)
    requires e.Initiate? && e.tier.Some?
  {
    p.app == e.app && p.amount == e.tier.value.platformFee && p.governmentFee == e.tier.value.governmentFee &&
    p.method_ == e.method_ && p.providerTx == e.providerTx && p.createdAt == at &&
    p.expiresAt == (if e.method_.Card? then None else Some(at + 120))
  }

  lemma InitiationIsExact(l: Ledger, e: Event, now: int)
    ensures |After(l, e, now).payments| == |l.payments| + (if Acceptable(l, e) then 1 else 0)
    ensures Acceptable(l, e) ==>
              var p := After(l, e, now).payments[|l.payments|];
              OnTermsOf(p, e, now) && p.status == (if e.method_.Card? then Pending else Processing)
  {
  }

  lemma EventKeepsTerms(l: Ledger, e: Event, i: nat, now: int)
    requires i < |l.payments|
    ensures var old_, new_ := l.payments[i], After(l, e, now).payments[i];
            new_ == old_.(status := new_.status, receipt := new_.receipt, paidAt := new_.paidAt)
  {
    var m := MoveOf(l, e, now);
  }

  predicate OpenedAt(events: seq<Timed>, k: nat, i: nat) {
    k < |events| && |Before(events, k).payments| == i && Acceptable(Before(events, k), events[k].event)
  }

  /** Every payment of a run comes from one accepted initiation, and has its terms for good. */
  lemma {:induction false} PaymentOrigin(events: seq<Timed>, n: nat, i: nat) returns (k: nat)
    requires n <= |events| && i < |Before(events, n).payments|
    ensures k < n && OpenedAt(events, k, i)
    ensures OnTermsOf(Before(events, n).payments[i], events[k].event, events[k].at)
    decreases n
  {
    assert n > 0;
    var l, e := Before(events, n - 1), events[n - 1];
    RunSteps(OPENING, events, n - 1);
    InitiationIsExact(l, e.event, e.at);
    if i < |l.payments| {
      k := PaymentOrigin(events, n - 1, i);
      EventKeepsTerms(l, e.event, i, e.at);
    } else {
      k := n - 1;
    }
  }

  lemma {:induction false} PaymentsOnlyGrow(events: seq<Timed>, k: nat, n: nat)
    requires k <= n <= |events|
    ensures |Before(events, k).payments| <= |Before(events, n).payments|
    decreases n
  {
    if k < n {
      PaymentsOnlyGrow(events, k, n - 1);
      RunSteps(OPENING, events, n - 1);
      InitiationIsExact(Before(events, n - 1), events[n - 1].event, events[n - 1].at);
    }
  }

  /** Every paid payment was paid by one event: at its time, with an unused receipt number it drew. */
  lemma {:induction false} PaidPaymentIsAsEventSaid(events: seq<Timed>, n: nat, i: nat, k: nat)
    requires k < n <= |events| && PaysAt(events, k, i)
    ensures i < |Before(events, n).payments|
    ensures var p := Before(events, n).payments[i];
            p.status == Paid && p.paidAt == Some(events[k].at) && p.receipt.Some? &&
            p.receipt.value in DrawsOf(events[k].event) && !ReceiptExists(Before(events, k).payments, p.receipt.value)
    decreases n
  {
    var l, e := Before(events, n - 1), events[n - 1];
    RunSteps(OPENING, events, n - 1);
    if k == n - 1 {
      LedgerIsConsistent(events[..k]);
      EventOnPayment(l, e.event, i, e.at);
    } else {
      PaidPaymentIsAsEventSaid(events, n - 1, i, k);
      var m := MoveOf(l, e.event, e.at);
    }
  }

  // ---- How many payments of an application can be paid ----

  predicate LiveOf(l: Ledger, app: string, i: nat) {
    i < |l.payments| && l.payments[i].app == app && l.payments[i].status != TimedOut
  }

  predicate NoneLive(l: Ledger, app: string) {
    forall i: nat :: i < |l.payments| ==> !LiveOf(l, app, i)
  }

  /** At most one payment of the application has not timed out. */
  predicate OneLive(l: Ledger, app: string) {
    forall i: nat, j: nat :: i < j < |l.payments| ==> !LiveOf(l, app, i) || !LiveOf(l, app, j)
  }

  predicate AtMostOnePaid(l: Ledger, app: string) {
    forall i, j :: 0 <= i < j < |l.payments| && l.payments[i].app == app && l.payments[j].app == app ==>
      l.payments[i].status != Paid || l.payments[j].status != Paid
  }

  /** An initiation for the application that is accepted. */
  predicate Opens(l: Ledger, e: Event, app: string, now: int) {
    e.Initiate? && e.app == app && Outcome(l, e, now).Ok?
  }

  /** Whatever else happens, no payment of the application comes to life. */
  lemma OtherEventsOpenNothing(l: Ledger, e: Event, app: string, now: int, i: nat)
    requires !Opens(l, e, app, now) && LiveOf(After(l, e, now), app, i)
    ensures LiveOf(l, app, i)
  {
    var m := MoveOf(l, e, now);
  }

  /** Only an accepted initiation beside a payment that has not timed out makes a second one live. */
  lemma OneLiveKeptIff(l: Ledger, e: Event, app: string, now: int)
    requires OneLive(l, app)
    ensures OneLive(After(l, e, now), app) <==> (Opens(l, e, app, now) ==> NoneLive(l, app))
  {
    var next := After(l, e, now);
    if Opens(l, e, app, now) {
      var p := NewPayment(app, e.method_, e.tier.value, e.providerTx, now);
      assert next.payments == l.payments + [p];
      forall i: nat ensures LiveOf(next, app, i) <==> LiveOf(l, app, i) || i == |l.payments| {
      }
      assert LiveOf(next, app, |l.payments|);
      assert OneLive(next, app) ==> forall i: nat :: i < |l.payments| ==> !LiveOf(next, app, i);
    } else {
      forall i: nat, j: nat | i < j && LiveOf(next, app, i) && LiveOf(next, app, j) ensures false {
        OtherEventsOpenNothing(l, e, app, now, i);
        OtherEventsOpenNothing(l, e, app, now, j);
      }
    }
  }

  /** Every accepted initiation for the application finds only timed-out payments of it. */
  predicate OpensWhenClear(l: Ledger, events: seq<Timed>, app: string)
    decreases |events|
  {
    events == [] ||
    ((Opens(l, events[0].event, app, events[0].at) ==> NoneLive(l, app)) &&
     OpensWhenClear(After(l, events[0].event, events[0].at), events[1..], app))
  }

  predicate OneLiveThroughout(l: Ledger, events: seq<Timed>, app: string)
    decreases |events|
  {
    OneLive(l, app) && (events == [] || OneLiveThroughout(After(l, events[0].event, events[0].at), events[1..], app))
  }

  lemma OneLiveMeansOnePaid(l: Ledger, app: string)
    requires OneLive(l, app)
    ensures AtMostOnePaid(l, app)
  {
    forall i: nat, j: nat | i < j < |l.payments| && l.payments[i].app == app && l.payments[j].app == app
      ensures l.payments[i].status != Paid || l.payments[j].status != Paid
    {
      assert !LiveOf(l, app, i) || !LiveOf(l, app, j);
    }
  }

  /** An application has one live payment throughout a run exactly when payments are opened only
      after the earlier ones timed out; at most one of them is then ever paid. */
  lemma {:induction false} OneLiveThroughoutIff(l: Ledger, events: seq<Timed>, app: string)
    requires OneLive(l, app)
    ensures OneLiveThroughout(l, events, app) <==> OpensWhenClear(l, events, app)
    ensures OpensWhenClear(l, events, app) ==> OneLive(Run(l, events), app) && AtMostOnePaid(Run(l, events), app)
    decreases |events|
  {
    OneLiveMeansOnePaid(l, app);
    if events != [] {
      var next := After(l, events[0].event, events[0].at);
      OneLiveKeptIff(l, events[0].event, app, events[0].at);
      if OneLive(next, app) {
        OneLiveThroughoutIff(next, events[1..], app);
      }
    }
  }

  /** Two payments of one application that have not timed out can both become paid, whether both are
      open or one is paid already: the paid flag only stops new ones. */
  lemma TwoOpenPaymentsCanBothBePaid(l: Ledger, i: nat, j: nat, first: string, second: string, now: int)
    requires Consistent(l) && i != j && i < |l.payments| && j < |l.payments| && l.payments[i].app == l.payments[j].app
    requires l.payments[i].status != TimedOut && l.payments[j].status != TimedOut
    requires first != second && !ReceiptExists(l.payments, first) && !ReceiptExists(l.payments, second)
    ensures var one := Confirmed(l, i, Always(first), now);
            one.Ok? &&
            var two := Confirmed(one.value, j, Always(second), now);
            two.Ok? && two.value.payments[i].status == Paid && two.value.payments[j].status == Paid
  {
    AlwaysDraws(first, l.payments);
    AlwaysDraws(second, l.payments);
    if l.payments[i].status != Paid {
      var one := Booked(l, i, first, now);
      assert !ReceiptExists(one.payments, second) by {
        assert forall k :: 0 <= k < |l.payments| && k != i ==> one.payments[k] == l.payments[k];
      }
      AlwaysDraws(second, one.payments);
    }
  }

  function LongestReceipt(payments: seq<Payment>): nat {
    if payments == [] then 0
    else
      var rest, r := LongestReceipt(payments[1..]), payments[0].receipt;
      if r.Some? && |r.value| > rest then |r.value| else rest
  }

  lemma {:induction false} LongNumberIsUnused(payments: seq<Payment>, number: string)
    requires |number| > LongestReceipt(payments)
    ensures !ReceiptExists(payments, number)
  {
    if payments != [] {
      LongNumberIsUnused(payments[1..], number);
      if i :| 0 <= i < |payments| && payments[i].receipt == Some(number) {
        assert i > 0 && payments[1..][i - 1].receipt == Some(number);
      }
    }
  }

  predicate NoInitiations(events: seq<Timed>) {
    forall i :: 0 <= i < |events| ==> !events[i].event.Initiate?
  }

  lemma {:induction false} NothingOpens(l: Ledger, events: seq<Timed>, app: string)
    requires NoInitiations(events)
    ensures OpensWhenClear(l, events, app)
    decreases |events|
  {
    if events != [] {
      NothingOpens(After(l, events[0].event, events[0].at), events[1..], app);
    }
  }

  /** A webhook with a fresh receipt number to draw books any payment that has not timed out. */
  function Hook(id: nat, number: string): Event {
    Webhook(Some(id), true, Always(number))
  }

  lemma HookConfirms(l: Ledger, id: nat, number: string, now: int)
    requires id < |l.payments| && Confirmed(l, id, Always(number), now).Ok?
    ensures After(l, Hook(id, number), now) == Confirmed(l, id, Always(number), now).value
  {
  }

  lemma RunOfTwo(l: Ledger, a: Event, b: Event, now: int)
    ensures Run(l, [Timed(now, a), Timed(now, b)]) == After(After(l, a, now), b, now)
  {
    var last := [Timed(now, b)];
    assert Run(After(l, a, now), last) == Run(After(After(l, a, now), b, now), last[1..]);
    assert [Timed(now, a), Timed(now, b)][1..] == last;
  }

  /** Two webhooks that leave two payments of the application paid. */
  lemma TwoLiveCanBePaid(l: Ledger, i: nat, j: nat, app: string) returns (events: seq<Timed>)
    requires Consistent(l) && i < j && LiveOf(l, app, i) && LiveOf(l, app, j)
    ensures NoInitiations(events) && !AtMostOnePaid(Run(l, events), app)
  {
    var n := LongestReceipt(l.payments) + 1;
    var first: string, second: string := seq(n, _ => 'R'), seq(n + 1, _ => 'R');
    LongNumberIsUnused(l.payments, first);
    LongNumberIsUnused(l.payments, second);
    assert |first| != |second|;
    TwoOpenPaymentsCanBothBePaid(l, i, j, first, second, 0);
    var mid := Confirmed(l, i, Always(first), 0).value;
    HookConfirms(l, i, first, 0);
    HookConfirms(mid, j, second, 0);
    RunOfTwo(l, Hook(i, first), Hook(j, second), 0);
    events := [Timed(0, Hook(i, first)), Timed(0, Hook(j, second))];
    var end := Confirmed(mid, j, Always(second), 0).value;
    assert NoInitiations(events);
    assert end == Run(l, events);
    assert |end.payments| == |l.payments| && end.payments[i].app == app && end.payments[j].app == app;
    assert end.payments[i].status == Paid && end.payments[j].status == Paid;
  }

  /** Having one live payment is exactly what rules out two paid ones, whatever confirmations and
      jobs may still come. */
  lemma OneLiveRulesOutTwoPaid(l: Ledger, app: string)
    requires Consistent(l)
    ensures OneLive(l, app) <==> forall events :: NoInitiations(events) ==> AtMostOnePaid(Run(l, events), app)
  {
    if OneLive(l, app) {
      forall events | NoInitiations(events) ensures AtMostOnePaid(Run(l, events), app) {
        NothingOpens(l, events, app);
        OneLiveThroughoutIff(l, events, app);
      }
    } else {
      var i: nat, j: nat :| i < j < |l.payments| && LiveOf(l, app, i) && LiveOf(l, app, j);
      var events := TwoLiveCanBePaid(l, i, j, app);
    }
  }

  class PaymentsService {
    var payments: seq<Payment>
    var apps: map<string, App>
    var audit: seq<Money>
    var messages: seq<Message>

    function View(): Ledger
      reads this
    {
      Ledger(payments, apps, audit, messages)
    }

    constructor ()
      ensures View() == OPENING
    {
      payments, apps, audit, messages := [], map[], [], [];
    }

    method GenerateReceiptNumber(draws: Draws) returns (number: Option<string>)
      ensures number == FirstUnused(draws, payments)
    {
      assert draws[0..] == draws;
      for i := 0 to RECEIPT_TRIES
        invariant FirstUnused(draws, payments) == FirstUnused(draws[i..], payments)
      {
        var candidate := draws[i];
        if !ReceiptExists(payments, candidate) {
          return Some(candidate);
        }
        assert draws[i..][1..] == draws[i + 1..];
      }
      return None;
    }

    /** The new payment's id. */
    method InitiatePayment(
        app: string, m: Method, credential: string, tier: Option<Tier>, client: string, providerTx: string, now: int)
      returns (r: Result<nat, PayError>)
      modifies this`payments
      ensures var spec := Initiated(old(View()), app, m, credential, tier, client, providerTx, now);
              if spec.Ok? then r == Ok(|old(payments)|) && View() == spec.value
              else r == Err(spec.error) && View() == old(View())
    {
      if app !in apps {
        return Err(AppNotFound);
      }
      if apps[app].client != client {
        return Err(AccessForbidden);
      }
      if apps[app].paid {
        return Err(AlreadyPaid);
      }
      if tier.None? {
        return Err(AppNotFound);
      }
      var amount := tier.value.platformFee + 0;
      var id := |payments|;
      if m.MtnMomo? || m.AirtelMoney? {
        if credential == "" {
          return Err(GatewayError);
        }
        payments := payments + [Payment(app, amount, tier.value.governmentFee, m, providerTx, Processing,
                                        None, None, Some(now + MOMO_EXPIRY), now)];
        return Ok(id);
      }
      if m.Card? {
        if credential == "" {
          return Err(GatewayError);
        }
        payments := payments + [Payment(app, amount, tier.value.governmentFee, m, providerTx, Pending,
                                        None, None, None, now)];
        return Ok(id);
      }
      return Err(GatewayError);
    }

    method ConfirmPayment(id: nat, draws: Draws, now: int) returns (r: Result<(), PayError>)
      modifies this
      ensures var spec := Confirmed(old(View()), id, draws, now);
              if spec.Ok? then r == Ok(()) && View() == spec.value else r == Err(spec.error) && View() == old(View())
    {
      if id >= |payments| {
        return Err(PaymentNotFound);
      }
      var payment := payments[id];
      if payment.status == Paid {
        return Ok(());
      }
      if payment.status == TimedOut {
        return Err(PaymentExpired);
      }
      var number := GenerateReceiptNumber(draws);
      if number.None? {
        return Err(NoReceiptNumber);
      }
      if payment.app !in apps {
        return Err(AppNotFound);
      }
      payment := payment.(status := Paid, paidAt := Some(now), receipt := number);
      payments := payments[id := payment];
      apps := apps[payment.app := apps[payment.app].(paid := true, amount := payment.amount)];
      messages := messages + [Message(payment.app, payment.amount, number.value)];
      audit := audit + [Money(id, payment.amount)];
      return Ok(());
    }

    method GetPaymentStatus(id: nat, client: string, gatewayPaid: bool, draws: Draws, now: int)
      returns (r: Result<Status, PayError>)
      modifies this
      ensures var spec := Polled(old(View()), id, client, gatewayPaid, draws, now);
              if spec.Ok? then id < |payments| && r == Ok(payments[id].status) && View() == spec.value
              else r == Err(spec.error) && View() == old(View())
    {
      if id >= |payments| {
        return Err(PaymentNotFound);
      }
      var payment := payments[id];
      if payment.app !in apps || apps[payment.app].client != client {
        return Err(PaymentNotFound);
      }
      if payment.status == Processing && payment.providerTx != "" && gatewayPaid {
        var confirmed := ConfirmPayment(id, draws, now);
        if confirmed.Err? {
          return Err(confirmed.error);
        }
      }
      return Ok(payments[id].status);
    }

    method HandleCardWebhook(hit: Option<nat>, paid: bool, draws: Draws, now: int) returns (r: Result<(), PayError>)
      modifies this
      ensures var spec := WebhookCame(old(View()), hit, paid, draws, now);
              if spec.Ok? then r == Ok(()) && View() == spec.value else r == Err(spec.error) && View() == old(View())
    {
      if hit.None? || hit.value >= |payments| {
        return Err(PaymentNotFound);
      }
      if paid && payments[hit.value].status != Paid {
        r := ConfirmPayment(hit.value, draws, now);
      } else {
        return Ok(());
      }
    }

    method PaymentTimeoutJob(id: nat, gatewayPaid: bool, draws: Draws, now: int) returns (r: Result<(), PayError>)
      modifies this
      ensures var spec := TimeoutRan(old(View()), id, gatewayPaid, draws, now);
              if spec.Ok? then r == Ok(()) && View() == spec.value else r == Err(spec.error) && View() == old(View())
    {
      if id >= |payments| || payments[id].status != Processing {
        return Ok(());
      }
      if gatewayPaid {
        r := ConfirmPayment(id, draws, now);
        return;
      }
      payments := payments[id := payments[id].(status := TimedOut)];
      return Ok(());
    }
  }
}
