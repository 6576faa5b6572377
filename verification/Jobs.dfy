/**
 * The tables of the jobs domain and what each service function does to them in
 * one atomic step. Every function takes the transaction's `now()` as a
 * parameter, so a run may use any times, in any order.
 */
module Jobs {
  import opened Common

  type UserId = nat
  type RequestId = nat
  type AccountId = nat
  /** Milliseconds. */
  type Time = int

  const MINUTE: int := 60_000

  // ----- Tables -----------------------------------------------------------

  datatype Urgency = Normal | Urgent | Emergency
  datatype Status = Pending | Matched | Completed | Cancelled

  /** The priority fee of an urgency, in hundredths of a peso. */
  function Surcharge(u: Urgency): nat {
    match u case Normal => 0 case Urgent => 50_00 case Emergency => 100_00
  }

  /** How long an urgency gives the mechanic, in minutes; Normal has no window. */
  function WindowMinutes(u: Urgency): Option<nat> {
    match u case Normal => None case Urgent => Some(3 * 24 * 60) case Emergency => Some(12 * 60)
  }

  /** A progress flag and its timestamp are always written together, so one optional time stands for both. */
  datatype Progress = Progress(
    navigating: Option<Time>,
    enRoute: Option<Time>,
    arrived: Option<Time>,
    workStarted: Option<Time>,
    serviceCompleted: Option<Time>)

  const NO_PROGRESS := Progress(None, None, None, None, None)

  /** Why a match came apart. A user id stands for the display name that is stamped. */
  datatype Stamps = Stamps(
    reason: Option<string>,
    who: Option<UserId>,
    at: Option<Time>,
    expiredAt: Option<Time>,
    expiredBy: Option<UserId>)

  const NO_STAMPS := Stamps(None, None, None, None, None)

  /** A row of service_requests. `agreed` is in hundredths of a peso. */
  datatype Request = Request(
    client: UserId,
    urgency: Urgency,
    surcharge: nat,
    status: Status,
    mechanic: Option<UserId>,
    acceptedAt: Option<Time>,
    deadlineAt: Option<Time>,
    completedAt: Option<Time>,
    progress: Progress,
    agreed: Option<Pos>,
    stamps: Stamps)

  /** quotes is unique on (request, mechanic), so that pair identifies the row. */
  datatype QuoteKey = QuoteKey(request: RequestId, mechanic: UserId)

  datatype Quote = Quote(
    price: nat,
    eta: Pos,
    accepted: bool,
    withdrawnAt: Option<Time>,
    rejectedAt: Option<Time>)

  predicate Live(q: Quote) {
    q.withdrawnAt.None? && q.rejectedAt.None?
  }

  /** A row of payments; only completed ones are ever written. Amounts and points in hundredths. */
  datatype Payment = Payment(
    request: RequestId,
    client: UserId,
    mechanic: UserId,
    amount: nat,
    fee: nat,
    feeWithPoints: Option<nat>,
    clientPoints: nat,
    mechanicPoints: nat,
    completedAt: Time)

  datatype EntryKind = ClientJobCompleted | MechanicJobCompleted | ClientPaidSurcharge | MechanicConverted

  /** A signed row of points_ledger. */
  datatype Entry = Entry(user: UserId, kind: EntryKind, points: int, pesos: Option<nat>, request: Option<RequestId>)

  /** Client awards in hundredths, the mechanic's rate in ten-thousandths per peso. */
  datatype Policy = Policy(normal: nat, urgent: nat, emergency: nat, perPeso: nat)

  datatype Approval = Waiting | Approved | Rejected
  datatype Account = Account(user: UserId, status: Approval, escalated: bool)

  datatype Db = Db(
    requests: map<RequestId, Request>,
    quotes: map<QuoteKey, Quote>,
    payments: seq<Payment>,
    ledger: seq<Entry>,
    policy: Policy,
    accounts: map<AccountId, Account>)

  const INITIAL_POLICY := Policy(1_00, 3_00, 5_00, 500)
  const EMPTY_DB := Db(map[], map[], [], [], INITIAL_POLICY, map[])

  // ----- Queries ----------------------------------------------------------

  predicate Active(r: Request) {
    r.status == Pending || r.status == Matched
  }

  predicate IsApproved(db: Db, user: UserId) {
    exists a :: a in db.accounts && db.accounts[a].user == user && db.accounts[a].status == Approved
  }

  /** The partial unique index of migration 006. */
  predicate HasActive(db: Db, client: UserId) {
    exists i :: i in db.requests && db.requests[i].client == client && Active(db.requests[i])
  }

  predicate HoldsEmergency(r: Request, mechanic: UserId) {
    r.mechanic == Some(mechanic) && r.urgency == Emergency && r.status == Matched
  }

  /** The partial unique index of migration 008. */
  predicate HasEmergency(db: Db, mechanic: UserId) {
    exists i :: i in db.requests && HoldsEmergency(db.requests[i], mechanic)
  }

  /** One user's share when `who` names a user, everybody's otherwise. */
  predicate Counts(who: Option<UserId>, u: UserId) {
    who.None? || who.value == u
  }

  function LedgerSum(ledger: seq<Entry>, who: Option<UserId>): int {
    if ledger == [] then 0
    else
      var e := ledger[|ledger| - 1];
      LedgerSum(ledger[..|ledger| - 1], who) + if Counts(who, e.user) then e.points else 0
  }

  /** A balance is the sum of a user's ledger rows. */
  function Balance(ledger: seq<Entry>, user: UserId): int {
    LedgerSum(ledger, Some(user))
  }

  predicate HasPayment(payments: seq<Payment>, id: RequestId) {
    exists p :: p in payments && p.request == id
  }

  /** The key of the partial unique index points_ledger_once_per_job. */
  predicate SameJobEntry(a: Entry, b: Entry) {
    a.request.Some? && a.request == b.request && a.user == b.user && a.kind == b.kind
  }

  predicate Clashes(ledger: seq<Entry>, e: Entry) {
    exists a :: a in ledger && SameJobEntry(a, e)
  }

  /** The accepted quote the ETA lock and the payment look up. */
  predicate HasAcceptedQuote(db: Db, id: RequestId) {
    && id in db.requests
    && db.requests[id].mechanic.Some?
    && var k := QuoteKey(id, db.requests[id].mechanic.value);
    k in db.quotes && db.quotes[k].accepted
  }

  function AcceptedQuote(db: Db, id: RequestId): Quote
    requires HasAcceptedQuote(db, id)
  {
    db.quotes[QuoteKey(id, db.requests[id].mechanic.value)]
  }

  /** When the mechanic promised to arrive. */
  function Due(db: Db, id: RequestId): Option<Time> {
    if HasAcceptedQuote(db, id) && db.requests[id].acceptedAt.Some?
    then Some(db.requests[id].acceptedAt.value + AcceptedQuote(db, id).eta * MINUTE)
    else None
  }

  function Deadline(u: Urgency, acceptedAt: Time): Option<Time> {
    match WindowMinutes(u)
    case Some(w) => Some(acceptedAt + w * MINUTE)
    case None => None
  }

  /** What the client owes the mechanic, when it can be told. */
  function AmountDue(db: Db, id: RequestId): Option<nat>
    requires id in db.requests
  {
    var r := db.requests[id];
    if r.urgency == Emergency then (if r.agreed.Some? then Some(r.agreed.value) else None)
    else if HasAcceptedQuote(db, id) then Some(AcceptedQuote(db, id).price)
    else None
  }

  // ----- Booking and quotes -----------------------------------------------

  function NewRequest(client: UserId, u: Urgency): Request {
    Request(client, u, Surcharge(u), Pending, None, None, None, None, NO_PROGRESS, None, NO_STAMPS)
  }

  function Book(db: Db, client: UserId, id: RequestId, u: Urgency): Outcome<Db> {
    if id in db.requests || HasActive(db, client) then Refused(Conflict)
    else Done(db.(requests := db.requests[id := NewRequest(client, u)]))
  }

  predicate EtaFits(u: Urgency, eta: Pos) {
    WindowMinutes(u).Some? ==> eta <= WindowMinutes(u).value
  }

  function SubmitQuote(db: Db, mechanic: UserId, id: RequestId, price: nat, eta: Pos): Outcome<Db> {
    var k := QuoteKey(id, mechanic);
    if !IsApproved(db, mechanic) then Refused(Forbidden)
    else if id !in db.requests then Refused(NotFound)
    else if db.requests[id].status != Pending then Refused(Conflict)
    else if db.requests[id].urgency == Emergency then Refused(Conflict)
    else if !EtaFits(db.requests[id].urgency, eta) then Refused(BadRequest)
    else if k in db.quotes
            && (db.quotes[k].rejectedAt.Some? || db.quotes[k].accepted || db.quotes[k].withdrawnAt.None?) then
      Refused(Conflict)
    else Done(db.(quotes := db.quotes[k := Quote(price, eta, false, None, None)]))
  }

  function WithdrawQuote(db: Db, mechanic: UserId, id: RequestId, now: Time): Outcome<Db> {
    var k := QuoteKey(id, mechanic);
    if k !in db.quotes || !Live(db.quotes[k]) || db.quotes[k].accepted then Refused(NotFound)
    else Done(db.(quotes := db.quotes[k := db.quotes[k].(withdrawnAt := Some(now))]))
  }

  function RejectQuote(db: Db, client: UserId, id: RequestId, k: QuoteKey, now: Time): Outcome<Db> {
    if k !in db.quotes || k.request != id || !Live(db.quotes[k]) || db.quotes[k].accepted then Refused(NotFound)
    else if id !in db.requests || db.requests[id].client != client then Refused(NotFound)
    else Done(db.(quotes := db.quotes[k := db.quotes[k].(rejectedAt := Some(now))]))
  }

  // ----- Accepting --------------------------------------------------------

  function Match(r: Request, mechanic: UserId, now: Time): Request {
    r.(status := Matched, mechanic := Some(mechanic), acceptedAt := Some(now),
       deadlineAt := Deadline(r.urgency, now), stamps := NO_STAMPS)
  }

  /** `UPDATE quotes SET accepted = (id = $2) WHERE request_id = $1`. */
  function AcceptOnly(quotes: map<QuoteKey, Quote>, id: RequestId, k: QuoteKey): map<QuoteKey, Quote> {
    map x | x in quotes :: if x.request == id then quotes[x].(accepted := x == k) else quotes[x]
  }

  function AcceptQuote(db: Db, client: UserId, id: RequestId, k: QuoteKey, now: Time): Outcome<Db> {
    if id !in db.requests || db.requests[id].client != client then Refused(NotFound)
    else if db.requests[id].status != Pending then Refused(Conflict)
    else if db.requests[id].urgency == Emergency then Refused(Conflict)
    else if k !in db.quotes || k.request != id || !Live(db.quotes[k]) then Refused(NotFound)
    else Done(db.(requests := db.requests[id := Match(db.requests[id], k.mechanic, now)],
                  quotes := AcceptOnly(db.quotes, id, k)))
  }

  /** The emergency accept record: inserted, or the mechanic's earlier one revived. */
  function AcceptRecord(quotes: map<QuoteKey, Quote>, k: QuoteKey, eta: Pos): map<QuoteKey, Quote> {
    quotes[k := Quote(if k in quotes then quotes[k].price else 0, eta, true, None, None)]
  }

  function AcceptEmergency(db: Db, mechanic: UserId, id: RequestId, eta: Pos, now: Time): Outcome<Db> {
    if !IsApproved(db, mechanic) then Refused(Forbidden)
    else if !EtaFits(Emergency, eta) then Refused(BadRequest)
    else if id !in db.requests then Refused(NotFound)
    else if db.requests[id].urgency != Emergency then Refused(Conflict)
    else if db.requests[id].status != Pending then Refused(Conflict)
    else if HasEmergency(db, mechanic) then Refused(Conflict)
    else Done(db.(requests := db.requests[id := Match(db.requests[id], mechanic, now)],
                  quotes := AcceptRecord(db.quotes, QuoteKey(id, mechanic), eta)))
  }

  // ----- Progress ---------------------------------------------------------

  datatype StatusStep = Navigating | EnRoute | Arrived | WorkStarted | ServiceCompleted

  function Advanced(p: Progress, step: StatusStep, now: Time): Progress {
    match step
    case Navigating => p.(navigating := Coalesce(p.navigating, now))
    case EnRoute => p.(enRoute := Coalesce(p.enRoute, now))
    case Arrived => p.(arrived := Coalesce(p.arrived, now), enRoute := Coalesce(p.enRoute, now))
    case WorkStarted => p.(workStarted := Coalesce(p.workStarted, now))
    case ServiceCompleted => p.(serviceCompleted := Coalesce(p.serviceCompleted, now))
  }

  predicate StepAllowed(p: Progress, step: StatusStep) {
    && (step == WorkStarted ==> p.arrived.Some?)
    && (step == ServiceCompleted ==> p.workStarted.Some?)
  }

  function AdvanceStatus(db: Db, mechanic: UserId, id: RequestId, step: StatusStep, now: Time): Outcome<Db> {
    if id !in db.requests || db.requests[id].mechanic != Some(mechanic) then Refused(NotFound)
    else if db.requests[id].status != Matched then Refused(Conflict)
    else if !StepAllowed(db.requests[id].progress, step) then Refused(Conflict)
    else
      var r := db.requests[id];
      Done(db.(requests := db.requests[id := r.(progress := Advanced(r.progress, step, now))]))
  }

  function SetAgreedAmount(db: Db, mechanic: UserId, id: RequestId, amount: Pos): Outcome<Db> {
    if id !in db.requests || db.requests[id].mechanic != Some(mechanic) then Refused(NotFound)
    else if db.requests[id].urgency != Emergency then Refused(Conflict)
    else if db.requests[id].status != Matched then Refused(Conflict)
    else Done(db.(requests := db.requests[id := db.requests[id].(agreed := Some(amount))]))
  }

  // ----- Payment and points -----------------------------------------------

  function ClientAward(p: Policy, u: Urgency): nat {
    match u case Normal => p.normal case Urgent => p.urgent case Emergency => p.emergency
  }

  /** `round(amount * rate, 2)` on numerics: the exact product rounded half up. */
  function MechanicAward(p: Policy, amount: nat): nat {
    (amount * p.perPeso + 5_000) / 10_000
  }

  function Settlement(id: RequestId, r: Request, amount: nat, covered: bool, rates: Policy, now: Time): Payment
    requires r.mechanic.Some?
  {
    Payment(id, r.client, r.mechanic.value, amount, r.surcharge,
            if covered then Some(r.surcharge) else None,
            ClientAward(rates, r.urgency), MechanicAward(rates, amount), now)
  }

  function FeeEntries(p: Payment): seq<Entry> {
    if p.feeWithPoints.Some?
    then [Entry(p.client, ClientPaidSurcharge, 0 - p.feeWithPoints.value, p.feeWithPoints, Some(p.request))]
    else []
  }

  function ClientCredits(p: Payment): seq<Entry> {
    if p.clientPoints > 0 then [Entry(p.client, ClientJobCompleted, p.clientPoints, None, Some(p.request))] else []
  }

  function MechanicCredits(p: Payment): seq<Entry> {
    if p.mechanicPoints > 0
    then [Entry(p.mechanic, MechanicJobCompleted, p.mechanicPoints, None, Some(p.request))] else []
  }

  /** Every ledger row one settlement writes, in order. */
  function SettlementEntries(p: Payment): seq<Entry> {
    FeeEntries(p) + ClientCredits(p) + MechanicCredits(p)
  }

  /** Some insert of the settlement would hit a unique index. */
  predicate Collides(db: Db, p: Payment) {
    || HasPayment(db.payments, p.request)
    || exists e :: e in SettlementEntries(p) && Clashes(db.ledger, e)
  }

  function Settled(db: Db, p: Payment): Db
    requires p.request in db.requests
  {
    db.(payments := db.payments + [p],
        ledger := db.ledger + SettlementEntries(p),
        requests := db.requests[p.request :=
          db.requests[p.request].(status := Completed, completedAt := Some(p.completedAt))])
  }

  predicate FeeCovered(db: Db, client: UserId, fee: nat) {
    fee > 0 && Balance(db.ledger, client) >= fee
  }

  /** Why a payment stops before writing: None means it goes ahead. */
  function PayRefusal(db: Db, client: UserId, id: RequestId, expected: Option<nat>): Option<Refusal> {
    if id !in db.requests || db.requests[id].client != client then Some(NotFound)
    else if db.requests[id].status == Completed then None
    else if db.requests[id].status != Matched || db.requests[id].mechanic.None? then Some(Conflict)
    else if db.requests[id].progress.serviceCompleted.None? then Some(Conflict)
    else if AmountDue(db, id).None? then Some(Conflict)
    else if expected.Some? && expected != AmountDue(db, id) then Some(Conflict)
    else None
  }

  /** `rates` is the points policy the payment's insert reads. */
  function Pay(db: Db, client: UserId, id: RequestId, withPoints: bool, expected: Option<nat>, rates: Policy, now: Time)
    : Outcome<Db>
  {
    var refusal := PayRefusal(db, client, id, expected);
    if refusal.Some? then Refused(refusal.value)
    else if db.requests[id].status == Completed then Done(db)
    else
      var r := db.requests[id];
      var covered := withPoints && FeeCovered(db, client, r.surcharge);
      var p := Settlement(id, r, AmountDue(db, id).value, covered, rates, now);
      if !Collides(db, p) then Done(Settled(db, p))
      else if HasPayment(db.payments, id) then Done(db)
      else Refused(Unexpected)
  }

  function ConvertPoints(db: Db, user: UserId, points: Pos): Outcome<Db> {
    if Balance(db.ledger, user) < points then Refused(Conflict)
    else Done(db.(ledger := db.ledger + [Entry(user, MechanicConverted, 0 - points, Some(points), None)]))
  }

  // ----- A match comes apart ----------------------------------------------

  predicate EtaLocked(db: Db, id: RequestId, now: Time) {
    Due(db, id).Some? && Due(db, id).value > now
  }

  /** assertClientMayLeaveMatch. */
  predicate ClientMayLeave(db: Db, id: RequestId, now: Time)
    requires id in db.requests
  {
    var p := db.requests[id].progress;
    p.workStarted.None? && (p.arrived.Some? || !EtaLocked(db, id, now))
  }

  function CancelledRow(r: Request, reason: Option<string>, now: Time): Request {
    r.(status := Cancelled, stamps := r.stamps.(reason := reason, who := Some(r.client), at := Some(now)))
  }

  function CancelRequest(db: Db, client: UserId, id: RequestId, reason: Option<string>, now: Time): Outcome<Db> {
    if id !in db.requests || db.requests[id].client != client then Refused(NotFound)
    else if db.requests[id].status == Matched && !ClientMayLeave(db, id, now) then Refused(Conflict)
    else if !Active(db.requests[id]) then Refused(Conflict)
    else Done(db.(requests := db.requests[id := CancelledRow(db.requests[id], reason, now)]))
  }

  function PooledRow(r: Request, stamps: Stamps): Request {
    if r.status != Matched then r
    else r.(status := Pending, mechanic := None, acceptedAt := None, deadlineAt := None,
            progress := NO_PROGRESS, agreed := None, stamps := stamps)
  }

  function PooledQuote(q: Quote, withdraw: bool, now: Time): Quote {
    q.(accepted := false, withdrawnAt := if withdraw then Coalesce(q.withdrawnAt, now) else q.withdrawnAt)
  }

  function PooledQuotes(quotes: map<QuoteKey, Quote>, id: RequestId, mechanic: UserId, withdraw: bool, now: Time)
    : map<QuoteKey, Quote>
  {
    map k | k in quotes ::
      if k.request == id then PooledQuote(quotes[k], withdraw && k.mechanic == mechanic, now) else quotes[k]
  }

  function ReturnToPool(db: Db, id: RequestId, mechanic: UserId, withdraw: bool, stamps: Stamps, now: Time): Db
    requires id in db.requests
  {
    db.(quotes := PooledQuotes(db.quotes, id, mechanic, withdraw, now),
        requests := db.requests[id := PooledRow(db.requests[id], stamps)])
  }

  function Reopen(db: Db, client: UserId, id: RequestId, now: Time): Outcome<Db> {
    if id !in db.requests || db.requests[id].client != client then Refused(NotFound)
    else if db.requests[id].status != Matched || db.requests[id].mechanic.None? then Refused(Conflict)
    else if !ClientMayLeave(db, id, now) then Refused(Conflict)
    else
      var r := db.requests[id];
      Done(ReturnToPool(db, id, r.mechanic.value, r.urgency == Emergency, NO_STAMPS, now))
  }

  /** The reason arrives trimmed; a blank one is refused. */
  function MechanicCancel(db: Db, mechanic: UserId, id: RequestId, reason: string, now: Time): Outcome<Db> {
    if reason == "" then Refused(BadRequest)
    else if id !in db.requests || db.requests[id].mechanic != Some(mechanic) then Refused(NotFound)
    else if db.requests[id].status != Matched then Refused(Conflict)
    else if db.requests[id].urgency == Emergency then Refused(Conflict)
    else if db.requests[id].progress.navigating.Some? || db.requests[id].progress.enRoute.Some?
            || db.requests[id].progress.arrived.Some? || db.requests[id].progress.workStarted.Some?
    then Refused(Conflict)
    else Done(ReturnToPool(db, id, mechanic, true, Stamps(Some(reason), Some(mechanic), Some(now), None, None), now))
  }

  // ----- The expiry sweep -------------------------------------------------

  const EXPIRED_REASON := "Did not complete the job within the allowed time."

  predicate Overdue(r: Request, now: Time) {
    && r.status == Matched
    && r.mechanic.Some?
    && r.progress.workStarted.None?
    && r.deadlineAt.Some?
    && r.deadlineAt.value <= now
  }

  function OverdueSet(db: Db, now: Time): set<RequestId> {
    set i | i in db.requests && Overdue(db.requests[i], now)
  }

  function ExpiryStamps(mechanic: UserId, now: Time): Stamps {
    Stamps(Some(EXPIRED_REASON), Some(mechanic), Some(now), Some(now), Some(mechanic))
  }

  /** Releases a set of overdue jobs at once: what any number of loop rounds add up to. */
  function Expire(db: Db, ids: set<RequestId>, now: Time): Db {
    db.(requests := map i | i in db.requests ::
          var r := db.requests[i];
          if i in ids && Overdue(r, now) then PooledRow(r, ExpiryStamps(r.mechanic.value, now)) else r,
        quotes := map k | k in db.quotes ::
          if k.request in ids && k.request in db.requests && Overdue(db.requests[k.request], now) then
            var r := db.requests[k.request];
            PooledQuote(db.quotes[k], r.urgency == Emergency && r.mechanic == Some(k.mechanic), now)
          else db.quotes[k])
  }

  function Sweep(db: Db, now: Time): Db {
    Expire(db, OverdueSet(db, now), now)
  }

  // ----- Verification -----------------------------------------------------

  /** The user has a request awaiting review. */
  predicate AwaitsReview(db: Db, user: UserId) {
    exists a :: a in db.accounts && db.accounts[a].user == user && db.accounts[a].status == Waiting
  }

  function SubmitVerification(db: Db, user: UserId, id: AccountId): Outcome<Db> {
    if id in db.accounts || AwaitsReview(db, user) then Refused(Conflict)
    else Done(db.(accounts := db.accounts[id := Account(user, Waiting, false)]))
  }

  datatype Verdict = Approve | Reject | Escalate

  function DecideVerification(db: Db, permitted: bool, id: AccountId, verdict: Verdict): Outcome<Db> {
    if !permitted then Refused(Forbidden)
    else if id !in db.accounts then Refused(NotFound)
    else if db.accounts[id].status != Waiting then Refused(Conflict)
    else if verdict == Escalate && db.accounts[id].escalated then Refused(Conflict)
    else
      var a := db.accounts[id];
      var decided :=
        match verdict
        case Escalate => a.(escalated := true)
        case Approve => a.(status := Approved)
        case Reject => a.(status := Rejected);
      Done(db.(accounts := db.accounts[id := decided]))
  }

  // ----- One step of the whole domain -------------------------------------

  datatype Action =
    | DoBook(client: UserId, id: RequestId, urgency: Urgency)
    | DoSubmitQuote(mechanic: UserId, id: RequestId, price: nat, eta: Pos)
    | DoWithdrawQuote(mechanic: UserId, id: RequestId)
    | DoRejectQuote(client: UserId, id: RequestId, quote: QuoteKey)
    | DoAcceptQuote(client: UserId, id: RequestId, quote: QuoteKey)
    | DoAcceptEmergency(mechanic: UserId, id: RequestId, eta: Pos)
    | DoAdvance(mechanic: UserId, id: RequestId, step: StatusStep)
    | DoSetAgreed(mechanic: UserId, id: RequestId, amount: Pos)
    | DoPay(client: UserId, id: RequestId, withPoints: bool, expected: Option<nat>, rates: Policy)
    | DoCancel(client: UserId, id: RequestId, reason: Option<string>)
    | DoReopen(client: UserId, id: RequestId)
    | DoMechanicCancel(mechanic: UserId, id: RequestId, why: string)
    | DoExpire(ids: set<RequestId>)
    | DoConvert(user: UserId, points: Pos)
    | DoSetPolicy(policy: Policy)
    | DoSubmitVerification(user: UserId, account: AccountId)
    | DoDecideVerification(permitted: bool, account: AccountId, verdict: Verdict)

  function Perform(db: Db, a: Action, now: Time): Outcome<Db> {
    match a
    case DoBook(client, id, u) => Book(db, client, id, u)
    case DoSubmitQuote(mechanic, id, price, eta) => SubmitQuote(db, mechanic, id, price, eta)
    case DoWithdrawQuote(mechanic, id) => WithdrawQuote(db, mechanic, id, now)
    case DoRejectQuote(client, id, k) => RejectQuote(db, client, id, k, now)
    case DoAcceptQuote(client, id, k) => AcceptQuote(db, client, id, k, now)
    case DoAcceptEmergency(mechanic, id, eta) => AcceptEmergency(db, mechanic, id, eta, now)
    case DoAdvance(mechanic, id, step) => AdvanceStatus(db, mechanic, id, step, now)
    case DoSetAgreed(mechanic, id, amount) => SetAgreedAmount(db, mechanic, id, amount)
    case DoPay(client, id, withPoints, expected, rates) => Pay(db, client, id, withPoints, expected, rates, now)
    case DoCancel(client, id, reason) => CancelRequest(db, client, id, reason, now)
    case DoReopen(client, id) => Reopen(db, client, id, now)
    case DoMechanicCancel(mechanic, id, why) => MechanicCancel(db, mechanic, id, why, now)
    case DoExpire(ids) => Done(Expire(db, ids, now))
    case DoConvert(user, points) => ConvertPoints(db, user, points)
    case DoSetPolicy(policy) => Done(db.(policy := policy))
    case DoSubmitVerification(user, id) => SubmitVerification(db, user, id)
    case DoDecideVerification(permitted, id, verdict) => DecideVerification(db, permitted, id, verdict)
  }

  /** The tables after the step: a refusal rolls back. */
  function After(db: Db, a: Action, now: Time): Db {
    match Perform(db, a, now)
    case Done(d) => d
    case Refused(_) => db
  }
}
