/** What each interleaved transaction may rely on while it holds its locks, and why others leave it alone. */
module Isolation {
  import opened Common
  import opened Jobs
  import opened JobsInvariant
  import opened JobsRuns
  import opened Interleaving
  import Sweeping

  // ----- What a transaction knows at each point ---------------------------

  predicate AcceptGuard(db: Db, tx: Tx, row: Request)
    requires tx.job.AcceptJob?
  {
    && tx.job.id in db.requests && db.requests[tx.job.id] == row
    && row.client == tx.job.client && row.status == Pending && row.urgency != Emergency
  }

  predicate QuoteGuard(db: Db, tx: Tx)
    requires tx.job.AcceptJob?
  {
    tx.job.quote in db.quotes && tx.job.quote.request == tx.job.id && Live(db.quotes[tx.job.quote])
  }

  predicate AcceptOk(db: Db, tx: Tx)
    requires tx.job.AcceptJob?
  {
    var id, k := tx.job.id, tx.job.quote;
    var both := {RequestLock(id), QuoteLock(k)};
    match tx.pc
    case Begin => tx.held == {} && tx.delta == NO_DELTA
    case AcceptLocked(row) => tx.held == {RequestLock(id)} && tx.delta == NO_DELTA && AcceptGuard(db, tx, row)
    case AcceptReady(row) => tx.held == both && tx.delta == NO_DELTA && AcceptGuard(db, tx, row) && QuoteGuard(db, tx)
    case AcceptRowWritten(row) =>
      && tx.held == both && AcceptGuard(db, tx, row) && QuoteGuard(db, tx)
      && tx.delta == Delta(map[id := Match(row, k.mechanic, tx.now)], map[], [], [])
    case AcceptDone(row) =>
      && tx.held == both + {QuotesLock(id)} && AcceptGuard(db, tx, row) && QuoteGuard(db, tx)
      && tx.delta == Delta(map[id := Match(row, k.mechanic, tx.now)], AcceptVersions(db.quotes, id, k), [], [])
    case _ => false
  }

  predicate EmergencyGuard(db: Db, tx: Tx, row: Request)
    requires tx.job.EmergencyJob?
  {
    && tx.job.id in db.requests && db.requests[tx.job.id] == row
    && row.status == Pending && row.urgency == Emergency
  }

  predicate EmergencyOk(db: Db, tx: Tx)
    requires tx.job.EmergencyJob?
  {
    var id, m := tx.job.id, tx.job.mechanic;
    var k := QuoteKey(id, m);
    match tx.pc
    case Begin => tx.held == {} && tx.delta == NO_DELTA
    case EmergencyApproved =>
      tx.held == {} && tx.delta == NO_DELTA && IsApproved(db, m) && EtaFits(Emergency, tx.job.eta)
    case EmergencyLocked(row) =>
      && tx.held == {RequestLock(id)} && tx.delta == NO_DELTA
      && IsApproved(db, m) && EtaFits(Emergency, tx.job.eta) && EmergencyGuard(db, tx, row)
    case EmergencyRowWritten(row) =>
      && tx.held == {RequestLock(id), SlotLock(m)}
      && IsApproved(db, m) && EtaFits(Emergency, tx.job.eta) && EmergencyGuard(db, tx, row) && !HasEmergency(db, m)
      && tx.delta == Delta(map[id := Match(row, m, tx.now)], map[], [], [])
    case EmergencyDone(row) =>
      && tx.held == {RequestLock(id), SlotLock(m), QuotesLock(id)}
      && IsApproved(db, m) && EtaFits(Emergency, tx.job.eta) && EmergencyGuard(db, tx, row) && !HasEmergency(db, m)
      && tx.delta == Delta(map[id := Match(row, m, tx.now)],
                           map[k := AcceptRecord(db.quotes, k, tx.job.eta)[k]], [], [])
    case _ => false
  }

  predicate PayGuard(db: Db, tx: Tx, row: Request)
    requires tx.job.PayJob?
  {
    && tx.job.id in db.requests && db.requests[tx.job.id] == row
    && row.client == tx.job.client && row.status == Matched && row.mechanic.Some? && row.progress.serviceCompleted.Some?
  }

  predicate Priced(db: Db, tx: Tx, amount: nat)
    requires tx.job.PayJob? && tx.job.id in db.requests
  {
    AmountDue(db, tx.job.id) == Some(amount) && (tx.job.expected.None? || tx.job.expected == Some(amount))
  }

  /** A fee is taken in points only under the client's lock, with a balance that covers it. */
  predicate CoverOk(db: Db, tx: Tx, row: Request, covered: bool)
    requires tx.job.PayJob?
  {
    covered ==> tx.job.withPoints && UserLock(tx.job.client) in tx.held && FeeCovered(db, tx.job.client, row.surcharge)
  }

  predicate PayHolds(tx: Tx)
    requires tx.job.PayJob?
  {
    RequestLock(tx.job.id) in tx.held && tx.held <= {RequestLock(tx.job.id), UserLock(tx.job.client)}
  }

  predicate Paying(db: Db, tx: Tx, row: Request, amount: nat, covered: bool)
    requires tx.job.PayJob?
  {
    PayHolds(tx) && PayGuard(db, tx, row) && Priced(db, tx, amount) && CoverOk(db, tx, row, covered)
  }

  function FeeRows(id: RequestId, row: Request, covered: bool): seq<Entry> {
    if covered then [Entry(row.client, ClientPaidSurcharge, 0 - row.surcharge, Some(row.surcharge), Some(id))] else []
  }

  predicate PayOk(db: Db, tx: Tx)
    requires tx.job.PayJob?
  {
    var id := tx.job.id;
    match tx.pc
    case Begin => tx.held == {} && tx.delta == NO_DELTA
    case PaidAlready(row) =>
      && tx.held == {RequestLock(id)} && tx.delta == NO_DELTA
      && id in db.requests && db.requests[id] == row && row.client == tx.job.client && row.status == Completed
    case PayLocked(row) => tx.held == {RequestLock(id)} && tx.delta == NO_DELTA && PayGuard(db, tx, row)
    case PayPriced(row, amount) =>
      tx.held == {RequestLock(id)} && tx.delta == NO_DELTA && PayGuard(db, tx, row) && Priced(db, tx, amount)
    case PayUserLocked(row, amount) =>
      && tx.held == {RequestLock(id), UserLock(tx.job.client)} && tx.delta == NO_DELTA && tx.job.withPoints
      && PayGuard(db, tx, row) && Priced(db, tx, amount)
    case PayFeeDecided(row, amount, covered) =>
      Paying(db, tx, row, amount, covered) && tx.delta == Delta(map[], map[], [], FeeRows(id, row, covered))
    case PayInserted(row, amount, covered, rates) =>
      && Paying(db, tx, row, amount, covered)
      && var p := Settlement(id, row, amount, covered, rates, tx.now);
      tx.delta == Delta(map[], map[], [p], FeeEntries(p))
    case PayRowWritten(row, amount, covered, rates) =>
      && Paying(db, tx, row, amount, covered)
      && var p := Settlement(id, row, amount, covered, rates, tx.now);
      tx.delta == Delta(map[id := row.(status := Completed, completedAt := Some(tx.now))], map[], [p], FeeEntries(p))
    case PayDone(row, amount, covered, rates) =>
      && Paying(db, tx, row, amount, covered)
      && var p := Settlement(id, row, amount, covered, rates, tx.now);
      tx.delta == Delta(map[id := row.(status := Completed, completedAt := Some(tx.now))], map[], [p],
                        SettlementEntries(p))
    case _ => false
  }

  function ConvertEntry(u: UserId, points: Pos): Entry {
    Entry(u, MechanicConverted, 0 - points, Some(points), None)
  }

  predicate ConvertOk(db: Db, tx: Tx)
    requires tx.job.ConvertJob?
  {
    var u, points := tx.job.user, tx.job.points;
    match tx.pc
    case Begin => tx.held == {} && tx.delta == NO_DELTA
    case ConvertLocked => tx.held == {UserLock(u)} && tx.delta == NO_DELTA
    case ConvertChecked => tx.held == {UserLock(u)} && tx.delta == NO_DELTA && Balance(db.ledger, u) >= points
    case ConvertDone =>
      && tx.held == {UserLock(u)} && Balance(db.ledger, u) >= points
      && tx.delta == Delta(map[], map[], [], [ConvertEntry(u, points)])
    case _ => false
  }

  /** The job is locked by the sweep and overdue at its time. */
  predicate Caught(db: Db, tx: Tx, id: RequestId) {
    RequestLock(id) in tx.held && id in db.requests && Overdue(db.requests[id], tx.now)
  }

  /** The row versions a sweep has written once it freed these jobs. */
  function FreedDelta(db: Db, freed: set<RequestId>, now: Time): Delta {
    Delta(map i | i in db.requests && i in freed && Overdue(db.requests[i], now) ::
            PooledRow(db.requests[i], ExpiryStamps(db.requests[i].mechanic.value, now)),
          map k | k in db.quotes && k.request in freed && k.request in db.requests
                  && Overdue(db.requests[k.request], now) ::
            PooledQuote(db.quotes[k], db.requests[k.request].urgency == Emergency
                                      && db.requests[k.request].mechanic == Some(k.mechanic), now),
          [], [])
  }

  predicate SweepOk(db: Db, tx: Tx)
    requires tx.job.SweepJob?
  {
    match tx.pc
    case Begin => tx.held == {} && tx.delta == NO_DELTA
    case SweepLocking(todo, rows) =>
      && tx.delta == NO_DELTA
      && Sweeping.Ascending(todo) && Sweeping.Ascending(rows)
      && (forall l :: l in tx.held ==> l.RequestLock? && forall y :: y in todo ==> l.id < y)
      && (forall x :: x in rows ==> Caught(db, tx, x))
    case SweepReleasing(todo, freed) =>
      && Sweeping.Ascending(todo)
      && (forall l :: l in tx.held ==> l.RequestLock? || (l.QuotesLock? && l.id in freed))
      && (forall x, y :: x in freed && y in todo ==> x < y)
      && (forall x :: x in todo ==> Caught(db, tx, x))
      && (forall x :: x in freed ==> Caught(db, tx, x) && QuotesLock(x) in tx.held)
      && tx.delta == FreedDelta(db, freed, tx.now)
    case _ => false
  }

  predicate TxOk(db: Db, tx: Tx) {
    match tx.job
    case AcceptJob(_, _, _) => AcceptOk(db, tx)
    case EmergencyJob(_, _, _) => EmergencyOk(db, tx)
    case PayJob(_, _, _, _) => PayOk(db, tx)
    case ConvertJob(_, _) => ConvertOk(db, tx)
    case SweepJob => SweepOk(db, tx)
  }

  // ----- Rely: what a lock protects ---------------------------------------

  /** What the holder of a lock may count on while others act. */
  predicate Keeps(db: Db, next: Db, l: Lock) {
    match l
    case RequestLock(i) =>
      i in db.requests ==>
        && i in next.requests && next.requests[i] == db.requests[i]
        && forall k :: k in db.quotes && k.request == i && db.quotes[k].accepted ==>
             k in next.quotes && next.quotes[k] == db.quotes[k]
    case SlotLock(m) => HasEmergency(next, m) ==> HasEmergency(db, m)
    case UserLock(u) => Balance(next.ledger, u) >= Balance(db.ledger, u)
    case QuoteLock(k) => k in db.quotes ==> k in next.quotes && next.quotes[k] == db.quotes[k]
    case QuotesLock(i) =>
      && (forall k :: k in db.quotes && k.request == i ==> k in next.quotes && next.quotes[k] == db.quotes[k])
      && (forall k :: k in next.quotes && k.request == i ==> k in db.quotes)
  }

  predicate KeepsAll(db: Db, next: Db, held: set<Lock>) {
    forall l :: l in held ==> Keeps(db, next, l)
  }

  ghost predicate KeepsApprovals(db: Db, next: Db) {
    forall u :: IsApproved(db, u) ==> IsApproved(next, u)
  }

  lemma AcceptStable(db: Db, next: Db, tx: Tx)
    requires tx.job.AcceptJob? && AcceptOk(db, tx) && KeepsAll(db, next, tx.held)
    ensures AcceptOk(next, tx)
  {
  }

  lemma EmergencyStable(db: Db, next: Db, tx: Tx)
    requires tx.job.EmergencyJob? && EmergencyOk(db, tx) && KeepsAll(db, next, tx.held) && KeepsApprovals(db, next)
    ensures EmergencyOk(next, tx)
  {
  }

  /** A locked job keeps owing what it owed, though its quotes are not locked: an accepted quote has no other writer. */
  lemma OwedStable(db: Db, next: Db, id: RequestId)
    requires id in db.requests && Keeps(db, next, RequestLock(id)) && AmountDue(db, id).Some?
    ensures id in next.requests && AmountDue(next, id) == AmountDue(db, id)
  {
  }

  lemma PayStable(db: Db, next: Db, tx: Tx)
    requires tx.job.PayJob? && PayOk(db, tx) && KeepsAll(db, next, tx.held)
    ensures PayOk(next, tx)
  {
    var id := tx.job.id;
    if RequestLock(id) in tx.held {
      assert Keeps(db, next, RequestLock(id));
      if AmountDue(db, id).Some? { OwedStable(db, next, id); }
    }
    if UserLock(tx.job.client) in tx.held { assert Keeps(db, next, UserLock(tx.job.client)); }
  }

  lemma ConvertStable(db: Db, next: Db, tx: Tx)
    requires tx.job.ConvertJob? && ConvertOk(db, tx) && KeepsAll(db, next, tx.held)
    ensures ConvertOk(next, tx)
  {
  }

  lemma FreedQuoteStable(db: Db, next: Db, freed: set<RequestId>, now: Time, k: QuoteKey)
    requires k.request in freed ==>
               && k.request in db.requests && k.request in next.requests
               && next.requests[k.request] == db.requests[k.request]
               && Keeps(db, next, QuotesLock(k.request))
    ensures var a, b := FreedDelta(db, freed, now).quotes, FreedDelta(next, freed, now).quotes;
            (k in a <==> k in b) && (k in a ==> b[k] == a[k])
  {
  }

  lemma FreedQuotesStable(db: Db, next: Db, freed: set<RequestId>, now: Time)
    requires forall x :: x in freed ==> x in db.requests && x in next.requests && next.requests[x] == db.requests[x]
    requires forall x :: x in freed ==> Keeps(db, next, QuotesLock(x))
    ensures FreedDelta(next, freed, now).quotes == FreedDelta(db, freed, now).quotes
  {
    var a, b := FreedDelta(db, freed, now).quotes, FreedDelta(next, freed, now).quotes;
    forall k ensures (k in a <==> k in b) && (k in a ==> b[k] == a[k]) {
      FreedQuoteStable(db, next, freed, now, k);
    }
  }

  lemma FreedStable(db: Db, next: Db, freed: set<RequestId>, now: Time)
    requires forall x :: x in freed ==> x in db.requests && x in next.requests && next.requests[x] == db.requests[x]
    requires forall x :: x in freed ==> Keeps(db, next, QuotesLock(x))
    ensures FreedDelta(next, freed, now) == FreedDelta(db, freed, now)
  {
    assert FreedDelta(next, freed, now).requests == FreedDelta(db, freed, now).requests;
    FreedQuotesStable(db, next, freed, now);
  }

  lemma SweepStable(db: Db, next: Db, tx: Tx)
    requires tx.job.SweepJob? && SweepOk(db, tx) && KeepsAll(db, next, tx.held)
    ensures SweepOk(next, tx)
  {
    forall x | Caught(db, tx, x) ensures Caught(next, tx, x) && next.requests[x] == db.requests[x] {
      assert Keeps(db, next, RequestLock(x));
    }
    if tx.pc.SweepReleasing? {
      FreedStable(db, next, tx.pc.freed, tx.now);
    }
  }

  /** Another transaction's step leaves everything a transaction knows true, if it keeps what its locks protect. */
  lemma Stable(db: Db, next: Db, tx: Tx)
    requires TxOk(db, tx) && KeepsAll(db, next, tx.held) && KeepsApprovals(db, next)
    ensures TxOk(next, tx)
  {
    match tx.job
    case AcceptJob(_, _, _) => AcceptStable(db, next, tx);
    case EmergencyJob(_, _, _) => EmergencyStable(db, next, tx);
    case PayJob(_, _, _, _) => PayStable(db, next, tx);
    case ConvertJob(_, _) => ConvertStable(db, next, tx);
    case SweepJob => SweepStable(db, next, tx);
  }

  // ----- Each statement keeps what its transaction knows ------------------

  lemma ViewOfNothing(db: Db)
    ensures View(db, NO_DELTA) == db
  {
  }

  lemma AcceptStatementOk(db: Db, tx: Tx)
    requires tx.job.AcceptJob? && AcceptOk(db, tx) && Statement(db, tx).Done?
    ensures Statement(db, tx).value.job == tx.job && AcceptOk(db, Statement(db, tx).value)
  {
    ViewOfNothing(db);
    assert db.quotes + map[] == db.quotes;
  }

  lemma EmergencyStatementOk(db: Db, tx: Tx)
    requires tx.job.EmergencyJob? && EmergencyOk(db, tx) && Statement(db, tx).Done?
    ensures Statement(db, tx).value.job == tx.job && EmergencyOk(db, Statement(db, tx).value)
  {
    ViewOfNothing(db);
    assert db.quotes + map[] == db.quotes;
  }

  lemma PayReadsOk(db: Db, tx: Tx)
    requires tx.job.PayJob? && PayOk(db, tx) && Statement(db, tx).Done?
    requires tx.pc.Begin? || tx.pc.PayLocked? || tx.pc.PayPriced? || tx.pc.PayUserLocked?
    ensures Statement(db, tx).value.job == tx.job && PayOk(db, Statement(db, tx).value)
  {
    ViewOfNothing(db);
  }

  lemma PayWritesOk(db: Db, tx: Tx)
    requires tx.job.PayJob? && PayOk(db, tx) && Statement(db, tx).Done?
    requires tx.pc.PayFeeDecided? || tx.pc.PayInserted? || tx.pc.PayRowWritten?
    ensures Statement(db, tx).value.job == tx.job && PayOk(db, Statement(db, tx).value)
  {
    if tx.pc.PayRowWritten? {
      var p := Settlement(tx.job.id, tx.pc.row, tx.pc.amount, tx.pc.covered, tx.pc.rates, tx.now);
      assert FeeEntries(p) + (ClientCredits(p) + MechanicCredits(p)) == SettlementEntries(p);
    }
  }

  lemma PayStatementOk(db: Db, tx: Tx)
    requires tx.job.PayJob? && PayOk(db, tx) && Statement(db, tx).Done?
    ensures Statement(db, tx).value.job == tx.job && PayOk(db, Statement(db, tx).value)
  {
    if tx.pc.Begin? || tx.pc.PayLocked? || tx.pc.PayPriced? || tx.pc.PayUserLocked? {
      PayReadsOk(db, tx);
    } else {
      PayWritesOk(db, tx);
    }
  }

  lemma ConvertStatementOk(db: Db, tx: Tx)
    requires tx.job.ConvertJob? && ConvertOk(db, tx) && Statement(db, tx).Done?
    ensures Statement(db, tx).value.job == tx.job && ConvertOk(db, Statement(db, tx).value)
  {
    ViewOfNothing(db);
  }

  lemma FreedOneMore(db: Db, freed: set<RequestId>, id: RequestId, now: Time)
    requires id in db.requests && id !in freed && Overdue(db.requests[id], now)
    ensures var d, v := FreedDelta(db, freed, now), View(db, FreedDelta(db, freed, now));
            && id in v.requests && v.requests[id] == db.requests[id]
            && d.requests[id := PooledRow(db.requests[id], ExpiryStamps(db.requests[id].mechanic.value, now))]
               == FreedDelta(db, freed + {id}, now).requests
  {
  }

  /** The sweep's own writes do not touch the quotes of a job it has not freed. */
  lemma UnfreedQuotes(db: Db, freed: set<RequestId>, id: RequestId, now: Time)
    requires id in db.requests && id !in freed
    ensures var v := View(db, FreedDelta(db, freed, now));
            ReleaseVersions(v.quotes, id, db.requests[id], now) == ReleaseVersions(db.quotes, id, db.requests[id], now)
  {
  }

  lemma FreedOneMoreQuotes(db: Db, freed: set<RequestId>, id: RequestId, now: Time)
    requires id in db.requests && id !in freed && Overdue(db.requests[id], now)
    ensures FreedDelta(db, freed, now).quotes + ReleaseVersions(db.quotes, id, db.requests[id], now)
         == FreedDelta(db, freed + {id}, now).quotes
  {
  }

  lemma SweepLocksOne(db: Db, tx: Tx)
    requires tx.job.SweepJob? && SweepOk(db, tx) && tx.pc.SweepLocking? && Statement(db, tx).Done?
    ensures Statement(db, tx).value.job == tx.job && SweepOk(db, Statement(db, tx).value)
  {
    ViewOfNothing(db);
    var next := Statement(db, tx).value;
    if tx.pc.todo == [] {
      assert FreedDelta(db, {}, tx.now).requests == map[] && FreedDelta(db, {}, tx.now).quotes == map[];
    } else {
      var id := tx.pc.todo[0];
      forall l | l in next.held ensures l.RequestLock? && forall y :: y in next.pc.todo ==> l.id < y {
        if l in tx.held {
          assert forall y :: y in next.pc.todo ==> y in tx.pc.todo;
        }
      }
      forall x | x in next.pc.rows ensures Caught(db, next, x) && (x in tx.pc.rows ==> x < id) {
        if x in tx.pc.rows {
          assert Caught(db, tx, x);
          assert id in tx.pc.todo && RequestLock(x).id < id;
        }
      }
      forall i, j | 0 <= i < j < |next.pc.rows| ensures next.pc.rows[i] < next.pc.rows[j] {
        assert next.pc.rows[i] in tx.pc.rows;
      }
    }
  }

  lemma SweepFreedDelta(db: Db, tx: Tx)
    requires tx.job.SweepJob? && SweepOk(db, tx) && tx.pc.SweepReleasing? && Statement(db, tx).Done?
    ensures var id, next := tx.pc.todo[0], Statement(db, tx).value;
            next == tx.(held := tx.held + {QuotesLock(id)}, pc := SweepReleasing(tx.pc.todo[1..], tx.pc.freed + {id}),
                        delta := FreedDelta(db, tx.pc.freed + {id}, tx.now))
  {
    var id, freed := tx.pc.todo[0], tx.pc.freed;
    assert Caught(db, tx, id);
    FreedOneMore(db, freed, id, tx.now);
    UnfreedQuotes(db, freed, id, tx.now);
    FreedOneMoreQuotes(db, freed, id, tx.now);
  }

  lemma SweepFreesOne(db: Db, tx: Tx)
    requires tx.job.SweepJob? && SweepOk(db, tx) && tx.pc.SweepReleasing? && Statement(db, tx).Done?
    ensures Statement(db, tx).value.job == tx.job && SweepOk(db, Statement(db, tx).value)
  {
    SweepFreedDelta(db, tx);
    SweepMovesOn(db, tx, tx.(held := tx.held + {QuotesLock(tx.pc.todo[0])},
      pc := SweepReleasing(tx.pc.todo[1..], tx.pc.freed + {tx.pc.todo[0]}),
      delta := FreedDelta(db, tx.pc.freed + {tx.pc.todo[0]}, tx.now)));
  }

  lemma SweepMovesOn(db: Db, tx: Tx, next: Tx)
    requires tx.job.SweepJob? && SweepOk(db, tx) && tx.pc.SweepReleasing? && tx.pc.todo != []
    requires next == tx.(held := tx.held + {QuotesLock(tx.pc.todo[0])},
      pc := SweepReleasing(tx.pc.todo[1..], tx.pc.freed + {tx.pc.todo[0]}),
      delta := FreedDelta(db, tx.pc.freed + {tx.pc.todo[0]}, tx.now))
    ensures SweepOk(db, next)
  {
    var id := tx.pc.todo[0];
    forall x | x in next.pc.todo ensures x in tx.pc.todo && id < x && Caught(db, next, x) {
      assert x in tx.pc.todo;
      assert Caught(db, tx, x);
    }
    forall x | x in next.pc.freed ensures Caught(db, next, x) && QuotesLock(x) in next.held {
      assert Caught(db, tx, x);
    }
  }

  lemma SweepStatementOk(db: Db, tx: Tx)
    requires tx.job.SweepJob? && SweepOk(db, tx) && Statement(db, tx).Done?
    ensures Statement(db, tx).value.job == tx.job && SweepOk(db, Statement(db, tx).value)
  {
    if tx.pc.SweepLocking? {
      SweepLocksOne(db, tx);
    } else if tx.pc.SweepReleasing? {
      SweepFreesOne(db, tx);
    }
  }

  lemma StatementOk(db: Db, tx: Tx)
    requires TxOk(db, tx) && Statement(db, tx).Done?
    ensures TxOk(db, Statement(db, tx).value)
  {
    match tx.job
    case AcceptJob(_, _, _) => AcceptStatementOk(db, tx);
    case EmergencyJob(_, _, _) => EmergencyStatementOk(db, tx);
    case PayJob(_, _, _, _) => PayStatementOk(db, tx);
    case ConvertJob(_, _) => ConvertStatementOk(db, tx);
    case SweepJob => SweepStatementOk(db, tx);
  }

  lemma StatementLocks(db: Db, tx: Tx)
    requires Statement(db, tx).Done?
    ensures Statement(db, tx).value.held == Locked(tx)
  {
    match tx.job
    case AcceptJob(_, _, _) =>
    case EmergencyJob(_, _, _) =>
    case PayJob(_, _, _, _) =>
    case ConvertJob(_, _) =>
    case SweepJob =>
  }

  // ----- Guarantee: what a commit leaves alone ----------------------------

  predicate SlotUnder(r: Request, held: set<Lock>) {
    r.mechanic.Some? && HoldsEmergency(r, r.mechanic.value) ==> SlotLock(r.mechanic.value) in held
  }

  /** Everything a transaction has written lies under its own locks. */
  predicate WritesUnder(d: Delta, held: set<Lock>) {
    && (forall i :: i in d.requests ==> RequestLock(i) in held)
    && (forall i :: i in d.requests ==> SlotUnder(d.requests[i], held))
    && (forall k :: k in d.quotes ==> RequestLock(k.request) in held && QuotesLock(k.request) in held)
    && (forall e :: e in d.ledger && e.points < 0 ==> UserLock(e.user) in held)
  }

  lemma MatchWritesUnder(db: Db, tx: Tx)
    requires (tx.job.AcceptJob? && AcceptOk(db, tx)) || (tx.job.EmergencyJob? && EmergencyOk(db, tx))
    ensures WritesUnder(tx.delta, tx.held)
  {
  }

  lemma MoneyWritesUnder(db: Db, tx: Tx)
    requires (tx.job.PayJob? && PayOk(db, tx)) || (tx.job.ConvertJob? && ConvertOk(db, tx))
    ensures WritesUnder(tx.delta, tx.held)
  {
  }

  lemma SweepWritesUnder(db: Db, tx: Tx)
    requires tx.job.SweepJob? && SweepOk(db, tx)
    ensures WritesUnder(tx.delta, tx.held)
  {
    if tx.pc.SweepReleasing? {
      forall x | x in tx.pc.freed ensures RequestLock(x) in tx.held && QuotesLock(x) in tx.held {
        assert Caught(db, tx, x);
      }
    }
  }

  lemma TxWritesUnder(db: Db, tx: Tx)
    requires TxOk(db, tx)
    ensures WritesUnder(tx.delta, tx.held)
  {
    match tx.job
    case AcceptJob(_, _, _) => MatchWritesUnder(db, tx);
    case EmergencyJob(_, _, _) => MatchWritesUnder(db, tx);
    case PayJob(_, _, _, _) => MoneyWritesUnder(db, tx);
    case ConvertJob(_, _) => MoneyWritesUnder(db, tx);
    case SweepJob => SweepWritesUnder(db, tx);
  }

  lemma {:induction false} OnlyCredits(ledger: seq<Entry>, u: UserId)
    requires forall e :: e in ledger && e.user == u ==> e.points >= 0
    ensures LedgerSum(ledger, Some(u)) >= 0
  {
    if ledger != [] {
      assert ledger[|ledger| - 1] in ledger;
      OnlyCredits(ledger[..|ledger| - 1], u);
    }
  }

  /** The lock is not among these, nor, for a single quote row, the lock of its request that its holder has too. */
  predicate Outside(l: Lock, locks: set<Lock>) {
    l !in locks && (l.QuoteLock? ==> RequestLock(l.key.request) !in locks)
  }

  /** A single quote row is only ever locked under the lock of its request. */
  lemma QuoteUnderRequest(db: Db, tx: Tx, k: QuoteKey)
    requires TxOk(db, tx) && QuoteLock(k) in tx.held
    ensures RequestLock(k.request) in tx.held
  {
  }

  /** A commit keeps whatever a lock held by someone else protects. */
  lemma CommitKeeps(db: Db, d: Delta, held: set<Lock>, l: Lock)
    requires WritesUnder(d, held) && Outside(l, held)
    ensures Keeps(db, View(db, d), l)
  {
    match l
    case UserLock(u) =>
      forall e | e in d.ledger && e.user == u ensures e.points >= 0 {
      }
      OnlyCredits(d.ledger, u);
      LedgerAppend(db.ledger, d.ledger, Some(u));
    case SlotLock(m) =>
      if HasEmergency(View(db, d), m) {
        var i :| i in View(db, d).requests && HoldsEmergency(View(db, d).requests[i], m);
        assert i !in d.requests;
      }
    case _ =>
  }

  lemma BriskKeepsRow(db: Db, e: Event, id: RequestId)
    requires Brief(e.action) && RequestLock(id) !in Needs(e.action) && id in db.requests
    ensures Keeps(db, Next(db, e), RequestLock(id))
  {
    if !Targets(e.action, id) {
      OtherJobsUntouched(db, e, id);
    }
  }

  lemma BriskKeepsQuotes(db: Db, e: Event, id: RequestId)
    requires Brief(e.action) && QuotesLock(id) !in Needs(e.action)
    ensures Keeps(db, Next(db, e), QuotesLock(id))
  {
    if !Targets(e.action, id) {
      OtherJobsUntouched(db, e, id);
    }
  }

  lemma BriskKeepsQuote(db: Db, e: Event, k: QuoteKey)
    requires Brief(e.action) && Outside(QuoteLock(k), Needs(e.action))
    ensures Keeps(db, Next(db, e), QuoteLock(k))
  {
    if !Targets(e.action, k.request) {
      OtherJobsUntouched(db, e, k.request);
    }
  }

  lemma BriskTakesNoEmergency(db: Db, e: Event, i: RequestId, m: UserId)
    requires Brief(e.action) && i in Next(db, e).requests && HoldsEmergency(Next(db, e).requests[i], m)
    ensures i in db.requests && HoldsEmergency(db.requests[i], m)
  {
    if !Targets(e.action, i) {
      OtherJobsUntouched(db, e, i);
    }
  }

  lemma BriskKeepsSlot(db: Db, e: Event, m: UserId)
    requires Brief(e.action)
    ensures Keeps(db, Next(db, e), SlotLock(m))
  {
    if HasEmergency(Next(db, e), m) {
      var i :| i in Next(db, e).requests && HoldsEmergency(Next(db, e).requests[i], m);
      BriskTakesNoEmergency(db, e, i, m);
    }
  }

  lemma BriskKeepsMoney(db: Db, e: Event)
    requires Brief(e.action)
    ensures Next(db, e).ledger == db.ledger
  {
  }

  /** A brief action keeps whatever any lock it does not need protects. */
  lemma BriskKeeps(db: Db, e: Event, l: Lock)
    requires Brief(e.action) && Outside(l, Needs(e.action))
    ensures Keeps(db, Next(db, e), l)
  {
    match l
    case RequestLock(i) => if i in db.requests { BriskKeepsRow(db, e, i); }
    case SlotLock(m) => BriskKeepsSlot(db, e, m);
    case UserLock(u) => BriskKeepsMoney(db, e);
    case QuoteLock(k) => BriskKeepsQuote(db, e, k);
    case QuotesLock(i) => BriskKeepsQuotes(db, e, i);
  }
}
