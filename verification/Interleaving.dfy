/**
 * Interleaved transactions under READ COMMITTED. Accepting, paying, converting
 * and sweeping run statement by statement, take row locks, see only committed
 * rows and their own writes, and commit or roll back as a whole. Each commit is
 * shown to be one atomic step of Jobs, so everything proved of runs there holds
 * of every interleaving.
 */
module Interleaving {
  import opened Common
  import opened Jobs
  import opened JobsRuns
  import Sweeping

  // ----- Transactions -----------------------------------------------------

  /**
   * A row lock, the lock an insert takes on a unique-index key, one quote row, or all the quote rows of one
   * request.
   */
  datatype Lock =
    | RequestLock(id: RequestId)
    | SlotLock(mechanic: UserId)
    | UserLock(user: UserId)
    | QuoteLock(key: QuoteKey)
    | QuotesLock(id: RequestId)

  datatype Job =
    | AcceptJob(client: UserId, id: RequestId, quote: QuoteKey)
    | EmergencyJob(mechanic: UserId, id: RequestId, eta: Pos)
    | PayJob(client: UserId, id: RequestId, withPoints: bool, expected: Option<nat>)
    | ConvertJob(user: UserId, points: Pos)
    | SweepJob

  /** Where a transaction stands, with the local variables it read on the way. */
  datatype Pc =
    | Begin
    // acceptQuote
    | AcceptLocked(row: Request)
    | AcceptReady(row: Request)
    | AcceptRowWritten(row: Request)
    | AcceptDone(row: Request)
    // acceptEmergency
    | EmergencyApproved
    | EmergencyLocked(row: Request)
    | EmergencyRowWritten(row: Request)
    | EmergencyDone(row: Request)
    // payForJob
    | PayLocked(row: Request)
    | PayPriced(row: Request, amount: nat)
    | PayUserLocked(row: Request, amount: nat)
    | PayFeeDecided(row: Request, amount: nat, covered: bool)
    | PayInserted(row: Request, amount: nat, covered: bool, rates: Policy)
    | PayRowWritten(row: Request, amount: nat, covered: bool, rates: Policy)
    | PayDone(row: Request, amount: nat, covered: bool, rates: Policy)
    | PaidAlready(row: Request)
    // convertPointsToBalance
    | ConvertLocked
    | ConvertChecked
    | ConvertDone
    // expireOverdueJobs
    | SweepLocking(todo: seq<RequestId>, rows: seq<RequestId>)
    | SweepReleasing(todo: seq<RequestId>, freed: set<RequestId>)

  /** Uncommitted writes: row versions and appended rows. */
  datatype Delta = Delta(
    requests: map<RequestId, Request>,
    quotes: map<QuoteKey, Quote>,
    payments: seq<Payment>,
    ledger: seq<Entry>)

  const NO_DELTA := Delta(map[], map[], [], [])

  datatype Tx = Tx(job: Job, now: Time, pc: Pc, delta: Delta, held: set<Lock>)

  type TxId = nat
  datatype Sys = Sys(db: Db, txs: map<TxId, Tx>)

  const INIT_SYS := Sys(EMPTY_DB, map[])

  /** What a transaction sees: the committed rows under its own writes. Committing makes this the database. */
  function View(db: Db, d: Delta): Db {
    db.(requests := db.requests + d.requests, quotes := db.quotes + d.quotes,
        payments := db.payments + d.payments, ledger := db.ledger + d.ledger)
  }

  /** The lock the next statement waits for. */
  function Wanted(tx: Tx): Option<Lock> {
    match tx.pc
    case Begin =>
      (match tx.job
       case AcceptJob(_, id, _) => Some(RequestLock(id))
       case PayJob(_, id, _, _) => Some(RequestLock(id))
       case ConvertJob(u, _) => Some(UserLock(u))
       case _ => None)
    case AcceptLocked(_) =>
      if tx.job.AcceptJob? && tx.job.quote.request == tx.job.id then Some(QuoteLock(tx.job.quote)) else None
    case AcceptRowWritten(_) => if tx.job.AcceptJob? then Some(QuotesLock(tx.job.id)) else None
    case EmergencyApproved => if tx.job.EmergencyJob? then Some(RequestLock(tx.job.id)) else None
    case EmergencyLocked(_) => if tx.job.EmergencyJob? then Some(SlotLock(tx.job.mechanic)) else None
    case EmergencyRowWritten(_) => if tx.job.EmergencyJob? then Some(QuotesLock(tx.job.id)) else None
    case PayPriced(row, _) =>
      if tx.job.PayJob? && tx.job.withPoints && row.surcharge > 0 then Some(UserLock(tx.job.client)) else None
    case SweepLocking(todo, _) => if todo != [] then Some(RequestLock(todo[0])) else None
    case SweepReleasing(todo, _) => if todo != [] then Some(QuotesLock(todo[0])) else None
    case _ => None
  }

  predicate Free(sys: Sys, t: TxId, l: Lock) {
    forall o :: o in sys.txs && o != t ==> l !in sys.txs[o].held
  }

  predicate Blocked(sys: Sys, t: TxId)
    requires t in sys.txs
  {
    Wanted(sys.txs[t]).Some? && !Free(sys, t, Wanted(sys.txs[t]).value)
  }

  function Locked(tx: Tx): set<Lock> {
    if Wanted(tx).Some? then tx.held + {Wanted(tx).value} else tx.held
  }

  predicate Finished(tx: Tx) {
    || tx.pc.AcceptDone? || tx.pc.EmergencyDone? || tx.pc.PayDone? || tx.pc.PaidAlready? || tx.pc.ConvertDone?
    || (tx.pc.SweepReleasing? && tx.pc.todo == [])
  }

  // ----- Statements -------------------------------------------------------

  /** `UPDATE quotes SET accepted = (id = $2) WHERE request_id = $1`, as the row versions it writes. */
  function AcceptVersions(quotes: map<QuoteKey, Quote>, id: RequestId, k: QuoteKey): map<QuoteKey, Quote> {
    map x | x in quotes && x.request == id :: quotes[x].(accepted := x == k)
  }

  function ReleaseVersions(quotes: map<QuoteKey, Quote>, id: RequestId, r: Request, now: Time): map<QuoteKey, Quote> {
    map k | k in quotes && k.request == id ::
      PooledQuote(quotes[k], r.urgency == Emergency && r.mechanic == Some(k.mechanic), now)
  }

  function AcceptStatement(db: Db, tx: Tx): Outcome<Tx>
    requires tx.job.AcceptJob?
  {
    var id, k, v := tx.job.id, tx.job.quote, View(db, tx.delta);
    match tx.pc
    case Begin =>
      if id !in v.requests || v.requests[id].client != tx.job.client then Refused(NotFound)
      else if v.requests[id].status != Pending || v.requests[id].urgency == Emergency then Refused(Conflict)
      else Done(tx.(pc := AcceptLocked(v.requests[id])))
    case AcceptLocked(row) =>
      if k !in v.quotes || k.request != id || !Live(v.quotes[k]) then Refused(NotFound)
      else Done(tx.(pc := AcceptReady(row)))
    case AcceptReady(row) =>
      Done(tx.(pc := AcceptRowWritten(row),
               delta := tx.delta.(requests := tx.delta.requests[id := Match(row, k.mechanic, tx.now)])))
    case AcceptRowWritten(row) =>
      Done(tx.(pc := AcceptDone(row), delta := tx.delta.(quotes := tx.delta.quotes + AcceptVersions(v.quotes, id, k))))
    case _ => Refused(Unexpected)
  }

  function EmergencyStatement(db: Db, tx: Tx): Outcome<Tx>
    requires tx.job.EmergencyJob?
  {
    var id, m, v := tx.job.id, tx.job.mechanic, View(db, tx.delta);
    match tx.pc
    case Begin =>
      if !IsApproved(v, m) then Refused(Forbidden)
      else if !EtaFits(Emergency, tx.job.eta) then Refused(BadRequest)
      else Done(tx.(pc := EmergencyApproved))
    case EmergencyApproved =>
      if id !in v.requests then Refused(NotFound)
      else if v.requests[id].urgency != Emergency || v.requests[id].status != Pending then Refused(Conflict)
      else if HasEmergency(v, m) then Refused(Conflict)
      else Done(tx.(pc := EmergencyLocked(v.requests[id])))
    case EmergencyLocked(row) =>
      // The partial unique index: whoever inserted the key first has committed or rolled back by now.
      if HasEmergency(v, m) then Refused(Conflict)
      else Done(tx.(pc := EmergencyRowWritten(row),
                    delta := tx.delta.(requests := tx.delta.requests[id := Match(row, m, tx.now)])))
    case EmergencyRowWritten(row) =>
      var k := QuoteKey(id, m);
      Done(tx.(pc := EmergencyDone(row),
               delta := tx.delta.(quotes := tx.delta.quotes[k := AcceptRecord(v.quotes, k, tx.job.eta)[k]])))
    case _ => Refused(Unexpected)
  }

  function PayStatement(db: Db, tx: Tx): Outcome<Tx>
    requires tx.job.PayJob?
  {
    var id, v := tx.job.id, View(db, tx.delta);
    match tx.pc
    case Begin =>
      if id !in v.requests || v.requests[id].client != tx.job.client then Refused(NotFound)
      else if v.requests[id].status == Completed then Done(tx.(pc := PaidAlready(v.requests[id])))
      else if v.requests[id].status != Matched || v.requests[id].mechanic.None? then Refused(Conflict)
      else if v.requests[id].progress.serviceCompleted.None? then Refused(Conflict)
      else Done(tx.(pc := PayLocked(v.requests[id])))
    case PayLocked(row) =>
      if id !in v.requests || AmountDue(v, id).None? then Refused(Conflict)
      else if tx.job.expected.Some? && tx.job.expected != AmountDue(v, id) then Refused(Conflict)
      else Done(tx.(pc := PayPriced(row, AmountDue(v, id).value)))
    case PayPriced(row, amount) =>
      Done(tx.(pc := if Wanted(tx).Some? then PayUserLocked(row, amount) else PayFeeDecided(row, amount, false)))
    case PayUserLocked(row, amount) =>
      if !FeeCovered(v, tx.job.client, row.surcharge) then Done(tx.(pc := PayFeeDecided(row, amount, false)))
      else
        var debit := Entry(tx.job.client, ClientPaidSurcharge, 0 - row.surcharge, Some(row.surcharge), Some(id));
        if Clashes(v.ledger, debit) then Refused(Unexpected)
        else Done(tx.(pc := PayFeeDecided(row, amount, true), delta := tx.delta.(ledger := tx.delta.ledger + [debit])))
    case PayFeeDecided(row, amount, covered) =>
      if HasPayment(v.payments, id) || row.mechanic.None? then Refused(Unexpected)
      else
        var p := Settlement(id, row, amount, covered, v.policy, tx.now);
        Done(tx.(pc := PayInserted(row, amount, covered, v.policy),
                 delta := tx.delta.(payments := tx.delta.payments + [p])))
    case PayInserted(row, amount, covered, rates) =>
      var paid := row.(status := Completed, completedAt := Some(tx.now));
      Done(tx.(pc := PayRowWritten(row, amount, covered, rates),
               delta := tx.delta.(requests := tx.delta.requests[id := paid])))
    case PayRowWritten(row, amount, covered, rates) =>
      if row.mechanic.None? then Refused(Unexpected)
      else
        var p := Settlement(id, row, amount, covered, rates, tx.now);
        var credits := ClientCredits(p) + MechanicCredits(p);
        if exists e :: e in credits && Clashes(v.ledger, e) then Refused(Unexpected)
        else Done(tx.(pc := PayDone(row, amount, covered, rates),
                      delta := tx.delta.(ledger := tx.delta.ledger + credits)))
    case _ => Refused(Unexpected)
  }

  function ConvertStatement(db: Db, tx: Tx): Outcome<Tx>
    requires tx.job.ConvertJob?
  {
    var u, points := tx.job.user, tx.job.points;
    match tx.pc
    case Begin => Done(tx.(pc := ConvertLocked))
    case ConvertLocked =>
      if Balance(View(db, tx.delta).ledger, u) < points then Refused(Conflict)
      else Done(tx.(pc := ConvertChecked))
    case ConvertChecked =>
      var e := Entry(u, MechanicConverted, 0 - points, Some(points), None);
      Done(tx.(pc := ConvertDone, delta := tx.delta.(ledger := tx.delta.ledger + [e])))
    case _ => Refused(Unexpected)
  }

  /** The SELECT ... ORDER BY id FOR UPDATE takes its candidates, locks them one by one and checks each again. */
  function SweepStatement(db: Db, tx: Tx): Outcome<Tx>
    requires tx.job.SweepJob?
  {
    var v := View(db, tx.delta);
    match tx.pc
    case Begin => Done(tx.(pc := SweepLocking(Sweeping.SortedIds(OverdueSet(v, tx.now)), [])))
    case SweepLocking(todo, rows) =>
      if todo == [] then Done(tx.(pc := SweepReleasing(rows, {})))
      else
        var id := todo[0];
        var due := id in v.requests && Overdue(v.requests[id], tx.now);
        Done(tx.(pc := SweepLocking(todo[1..], if due then rows + [id] else rows)))
    case SweepReleasing(todo, freed) =>
      if todo == [] || todo[0] !in v.requests || v.requests[todo[0]].mechanic.None? then Refused(Unexpected)
      else
        var id := todo[0];
        var r := v.requests[id];
        Done(tx.(pc := SweepReleasing(todo[1..], freed + {id}),
                 delta := tx.delta.(
                   requests := tx.delta.requests[id := PooledRow(r, ExpiryStamps(r.mechanic.value, tx.now))],
                   quotes := tx.delta.quotes + ReleaseVersions(v.quotes, id, r, tx.now))))
    case _ => Refused(Unexpected)
  }

  /** The next statement of a transaction, once its lock is granted; Refused rolls it back. */
  function Statement(db: Db, tx: Tx): Outcome<Tx> {
    var granted := tx.(held := Locked(tx));
    match tx.job
    case AcceptJob(_, _, _) => AcceptStatement(db, granted)
    case EmergencyJob(_, _, _) => EmergencyStatement(db, granted)
    case PayJob(_, _, _, _) => PayStatement(db, granted)
    case ConvertJob(_, _) => ConvertStatement(db, granted)
    case SweepJob => SweepStatement(db, granted)
  }

  // ----- Moves of the system ----------------------------------------------

  /** The locks a single-statement or single-row action needs free; it takes effect at once. */
  function Needs(a: Action): set<Lock> {
    match a
    case DoSubmitQuote(_, id, _, _) => {RequestLock(id), QuotesLock(id)}
    case DoWithdrawQuote(m, id) => {QuotesLock(id), QuoteLock(QuoteKey(id, m))}
    case DoRejectQuote(_, id, k) => {QuotesLock(id), QuoteLock(k)}
    case DoAdvance(_, id, _) => {RequestLock(id)}
    case DoSetAgreed(_, id, _) => {RequestLock(id)}
    case DoCancel(_, id, _) => {RequestLock(id)}
    case DoReopen(_, id) => {RequestLock(id), QuotesLock(id)}
    case DoMechanicCancel(_, id, _) => {RequestLock(id), QuotesLock(id)}
    case _ => {}
  }

  /** Every action that is not one of the interleaved transactions. */
  predicate Brief(a: Action) {
    !(a.DoAcceptQuote? || a.DoAcceptEmergency? || a.DoPay? || a.DoConvert? || a.DoExpire?)
  }

  predicate Unhindered(sys: Sys, a: Action) {
    Brief(a) && forall l, t :: l in Needs(a) && t in sys.txs ==> l !in sys.txs[t].held
  }

  datatype Move =
    | Spawn(tx: TxId, job: Job, now: Time)
    | Proceed(tx: TxId)
    | RollBack(tx: TxId)
    | Brisk(event: Event)

  /** A move that is not enabled leaves the system as it is. */
  function Step(sys: Sys, m: Move): Sys {
    match m
    case Spawn(t, job, now) =>
      if t in sys.txs then sys else sys.(txs := sys.txs[t := Tx(job, now, Begin, NO_DELTA, {})])
    case RollBack(t) => sys.(txs := sys.txs - {t})
    case Brisk(e) =>
      if Unhindered(sys, e.action) then sys.(db := Next(sys.db, e)) else sys
    case Proceed(t) =>
      if t !in sys.txs || Blocked(sys, t) then sys
      else if Finished(sys.txs[t]) then Sys(View(sys.db, sys.txs[t].delta), sys.txs - {t})
      else
        match Statement(sys.db, sys.txs[t])
        case Done(tx) => sys.(txs := sys.txs[t := tx])
        case Refused(_) => sys.(txs := sys.txs - {t})
  }

  predicate IsSysRun(runs: seq<Sys>, moves: seq<Move>) {
    && |runs| == |moves| + 1
    && runs[0] == INIT_SYS
    && forall k {:trigger moves[k]} :: 0 <= k < |moves| ==> runs[k + 1] == Step(runs[k], moves[k])
  }
}
