/**
 * The run an interleaving follows, and what its payments had read. The log of
 * committed steps is one run of atomic steps, so results about two moments of a
 * run hold of two moments of an interleaving; a committed payment used the
 * points policy and the balance that were committed while it was under way; and
 * a sweep releases exactly the jobs that were due as it began and as it commits.
 */
module History {
  import opened Common
  import opened Jobs
  import opened JobsInvariant
  import opened JobsRuns
  import opened Interleaving
  import opened Isolation
  import opened Serialisable
  import Points

  // ----- The log of committed steps ---------------------------------------

  function Logged(sys: Sys, m: Move): seq<Event> {
    var c := Committed(sys, m);
    if c.Some? then [c.value] else []
  }

  /** The steps the first n moves committed, in order. */
  function CommitLog(runs: seq<Sys>, moves: seq<Move>, n: nat): seq<Event>
    requires |moves| <= |runs| && n <= |moves|
  {
    if n == 0 then [] else CommitLog(runs, moves, n - 1) + Logged(runs[n - 1], moves[n - 1])
  }

  /** The committed tables before the first of those steps and after each of them. */
  function CommitStates(runs: seq<Sys>, moves: seq<Move>, n: nat): seq<Db>
    requires |moves| < |runs| && n <= |moves|
  {
    if n == 0 then [EMPTY_DB]
    else CommitStates(runs, moves, n - 1) + if Committed(runs[n - 1], moves[n - 1]).Some? then [runs[n].db] else []
  }

  /** A run that ends in this state. */
  predicate RunTo(states: seq<Db>, events: seq<Event>, db: Db) {
    IsRun(states, events) && states[0] == EMPTY_DB && states[|events|] == db
  }

  lemma RunToNext(states: seq<Db>, events: seq<Event>, db: Db, e: Event)
    requires RunTo(states, events, db)
    ensures RunTo(states + [Next(db, e)], events + [e], Next(db, e))
  {
  }

  /** The committed steps of every interleaving form one run, which ends in its committed tables. */
  lemma {:induction false} InterleavingIsARun(runs: seq<Sys>, moves: seq<Move>, n: nat)
    requires IsSysRun(runs, moves) && n <= |moves|
    ensures RunTo(CommitStates(runs, moves, n), CommitLog(runs, moves, n), runs[n].db)
  {
    if n > 0 {
      InterleavingIsARun(runs, moves, n - 1);
      EveryMoveIsAtomic(runs, moves, n - 1);
      var c := Committed(runs[n - 1], moves[n - 1]);
      if c.Some? {
        RunToNext(CommitStates(runs, moves, n - 1), CommitLog(runs, moves, n - 1), runs[n - 1].db, c.value);
      }
    }
  }

  lemma {:induction false} LogGrows(runs: seq<Sys>, moves: seq<Move>, k: nat, d: nat)
    requires |moves| < |runs| && k + d <= |moves|
    ensures CommitLog(runs, moves, k) <= CommitLog(runs, moves, k + d)
    ensures CommitStates(runs, moves, k) <= CommitStates(runs, moves, k + d)
  {
    if d > 0 {
      LogGrows(runs, moves, k, d - 1);
    }
  }

  /** Where a moment of the interleaving stands in its run; later moments stand later. */
  function At(runs: seq<Sys>, moves: seq<Move>, k: nat): nat
    requires |moves| <= |runs| && k <= |moves|
  {
    |CommitLog(runs, moves, k)|
  }

  /** The run passes through the committed tables of every moment of the interleaving, in order. */
  lemma RunPassesThrough(runs: seq<Sys>, moves: seq<Move>, k: nat, n: nat)
    requires IsSysRun(runs, moves) && k <= n <= |moves|
    ensures At(runs, moves, k) <= At(runs, moves, n) < |CommitStates(runs, moves, n)|
    ensures CommitStates(runs, moves, n)[At(runs, moves, k)] == runs[k].db
  {
    InterleavingIsARun(runs, moves, k);
    InterleavingIsARun(runs, moves, n);
    LogGrows(runs, moves, k, n - k);
  }

  /** So a settlement is final over every interleaving. */
  lemma SettlementIsFinalUnderInterleaving(runs: seq<Sys>, moves: seq<Move>, i: nat, j: nat, p: Payment)
    requires IsSysRun(runs, moves) && i <= j <= |moves| && p in runs[i].db.payments
    ensures p in runs[j].db.payments && p.request in runs[i].db.requests && p.request in runs[j].db.requests
    ensures runs[j].db.requests[p.request] == runs[i].db.requests[p.request]
    ensures forall x :: x in runs[j].db.payments && x.request == p.request ==> x == p
  {
    InterleavingIsARun(runs, moves, j);
    RunPassesThrough(runs, moves, i, j);
    RunPassesThrough(runs, moves, j, j);
    EmptyReachable();
    SettlementIsFinal(CommitStates(runs, moves, j), CommitLog(runs, moves, j),
                      At(runs, moves, i), At(runs, moves, j), p);
  }

  /** And from the moment work starts the parties of a job are fixed over every interleaving. */
  lemma PointOfNoReturnUnderInterleaving(runs: seq<Sys>, moves: seq<Move>, i: nat, j: nat, id: RequestId)
    requires IsSysRun(runs, moves) && i <= j <= |moves|
    requires id in runs[i].db.requests && runs[i].db.requests[id].progress.workStarted.Some?
    ensures id in runs[j].db.requests
    ensures var r, n := runs[i].db.requests[id], runs[j].db.requests[id];
            n.client == r.client && n.mechanic == r.mechanic && (n.status == Matched || n.status == Completed)
  {
    InterleavingIsARun(runs, moves, j);
    RunPassesThrough(runs, moves, i, j);
    RunPassesThrough(runs, moves, j, j);
    EmptyReachable();
    PointOfNoReturn(CommitStates(runs, moves, j), CommitLog(runs, moves, j),
                    At(runs, moves, i), At(runs, moves, j), id);
  }

  // ----- One transaction through the moves --------------------------------

  /** The same transaction is under way at every moment from j to n. */
  predicate UnderWay(runs: seq<Sys>, t: TxId, j: nat, n: nat) {
    && j <= n < |runs| && t in runs[n].txs
    && forall x :: j <= x <= n ==> t in runs[x].txs && runs[x].txs[t].job == runs[n].txs[t].job
  }

  /** A transaction is where it was, or it has just begun, or the move was its next statement. */
  lemma TxStep(sys: Sys, m: Move, t: TxId)
    requires t in Step(sys, m).txs
    ensures var tx := Step(sys, m).txs[t];
            || tx.pc.Begin?
            || (t in sys.txs && tx == sys.txs[t])
            || (t in sys.txs && Statement(sys.db, sys.txs[t]) == Done(tx))
  {
  }

  lemma UnderWayOn(runs: seq<Sys>, t: TxId, j: nat, n: nat)
    requires UnderWay(runs, t, j, n) && n + 1 < |runs| && t in runs[n + 1].txs
    requires runs[n + 1].txs[t].job == runs[n].txs[t].job
    ensures UnderWay(runs, t, j, n + 1)
  {
  }

  // ----- The rates a payment used -----------------------------------------

  function RatesRead(pc: Pc): Option<Policy> {
    match pc
    case PayInserted(_, _, _, rates) => Some(rates)
    case PayRowWritten(_, _, _, rates) => Some(rates)
    case PayDone(_, _, _, rates) => Some(rates)
    case _ => None
  }

  lemma RatesStep(db: Db, tx: Tx)
    requires Statement(db, tx).Done? && RatesRead(Statement(db, tx).value.pc).Some?
    ensures Statement(db, tx).value.job == tx.job
    ensures var rates := RatesRead(Statement(db, tx).value.pc);
            if RatesRead(tx.pc).Some? then rates == RatesRead(tx.pc) else rates == Some(db.policy)
  {
  }

  /** Moment j: the transaction is under way and these rates are the committed policy. */
  predicate InForce(runs: seq<Sys>, t: TxId, j: nat, n: nat, rates: Policy) {
    UnderWay(runs, t, j, n) && runs[j].db.policy == rates
  }

  /** At some moment up to n, while the transaction was under way, these rates were the committed policy. */
  ghost predicate EverInForce(runs: seq<Sys>, t: TxId, n: nat, rates: Policy) {
    exists j: nat :: InForce(runs, t, j, n, rates)
  }

  /** A move either finds the rates already read or reads the committed policy. */
  lemma RatesMove(runs: seq<Sys>, moves: seq<Move>, n: nat, t: TxId)
    requires IsSysRun(runs, moves) && n < |moves| && t in runs[n + 1].txs && RatesRead(runs[n + 1].txs[t].pc).Some?
    ensures t in runs[n].txs && runs[n + 1].txs[t].job == runs[n].txs[t].job
    ensures var rates := RatesRead(runs[n + 1].txs[t].pc);
            RatesRead(runs[n].txs[t].pc) == rates || Some(runs[n].db.policy) == rates
  {
    var m := moves[n];
    TxStep(runs[n], m, t);
    if runs[n + 1].txs[t] != runs[n].txs[t] {
      RatesStep(runs[n].db, runs[n].txs[t]);
    }
  }

  lemma ForceCarries(runs: seq<Sys>, t: TxId, n: nat, rates: Policy)
    requires n + 1 < |runs| && t in runs[n].txs && t in runs[n + 1].txs && runs[n + 1].txs[t].job == runs[n].txs[t].job
    requires runs[n].db.policy == rates || EverInForce(runs, t, n, rates)
    ensures EverInForce(runs, t, n + 1, rates)
  {
    if runs[n].db.policy == rates {
      assert UnderWay(runs, t, n, n);
      UnderWayOn(runs, t, n, n);
      assert InForce(runs, t, n, n + 1, rates);
    } else {
      var j: nat :| InForce(runs, t, j, n, rates);
      UnderWayOn(runs, t, j, n);
      assert InForce(runs, t, j, n + 1, rates);
    }
  }

  /** The rates a payment writes were the committed policy at some moment while it was under way. */
  lemma {:induction false} RatesWereInForce(runs: seq<Sys>, moves: seq<Move>, n: nat, t: TxId)
    requires IsSysRun(runs, moves) && n < |runs| && t in runs[n].txs && RatesRead(runs[n].txs[t].pc).Some?
    ensures EverInForce(runs, t, n, RatesRead(runs[n].txs[t].pc).value)
  {
    if n > 0 {
      RatesMove(runs, moves, n - 1, t);
      var rates := RatesRead(runs[n].txs[t].pc).value;
      if RatesRead(runs[n - 1].txs[t].pc) == Some(rates) {
        RatesWereInForce(runs, moves, n - 1, t);
      }
      ForceCarries(runs, t, n - 1, rates);
    }
  }

  // ----- The balance a payment found too short ----------------------------

  /** The fee was asked in points and is being taken in pesos; the fee itself. */
  function FeeInPesos(tx: Tx): Option<nat> {
    if !tx.job.PayJob? || !tx.job.withPoints then None
    else
      match tx.pc
      case PayFeeDecided(row, _, covered) => if covered || row.surcharge == 0 then None else Some(row.surcharge)
      case PayInserted(row, _, covered, _) => if covered || row.surcharge == 0 then None else Some(row.surcharge)
      case PayRowWritten(row, _, covered, _) => if covered || row.surcharge == 0 then None else Some(row.surcharge)
      case PayDone(row, _, covered, _) => if covered || row.surcharge == 0 then None else Some(row.surcharge)
      case _ => None
  }

  lemma FeeStep(db: Db, tx: Tx)
    requires TxOk(db, tx) && Statement(db, tx).Done? && FeeInPesos(Statement(db, tx).value).Some?
    ensures var next := Statement(db, tx).value;
            && next.job == tx.job
            && if FeeInPesos(tx).Some? then FeeInPesos(next) == FeeInPesos(tx)
               else Balance(db.ledger, tx.job.client) < FeeInPesos(next).value
  {
    ViewOfNothing(db);
  }

  /** Moment j: the transaction is under way and the client's committed balance is below the fee. */
  predicate Short(runs: seq<Sys>, t: TxId, j: nat, n: nat, client: UserId, fee: nat) {
    UnderWay(runs, t, j, n) && Balance(runs[j].db.ledger, client) < fee
  }

  /** At some moment up to n, while the transaction was under way, the committed balance was below the fee. */
  ghost predicate EverShort(runs: seq<Sys>, t: TxId, n: nat, client: UserId, fee: nat) {
    exists j: nat :: Short(runs, t, j, n, client, fee)
  }

  /** A move either finds the fee already decided or finds the committed balance short. */
  lemma FeeMove(runs: seq<Sys>, moves: seq<Move>, n: nat, t: TxId)
    requires IsSysRun(runs, moves) && n < |moves| && t in runs[n + 1].txs && FeeInPesos(runs[n + 1].txs[t]).Some?
    ensures t in runs[n].txs && runs[n + 1].txs[t].job == runs[n].txs[t].job
    ensures var tx, fee := runs[n + 1].txs[t], FeeInPesos(runs[n + 1].txs[t]);
            FeeInPesos(runs[n].txs[t]) == fee || Balance(runs[n].db.ledger, tx.job.client) < fee.value
  {
    var m := moves[n];
    TxStep(runs[n], m, t);
    if runs[n + 1].txs[t] != runs[n].txs[t] {
      assert TxOk(runs[n].db, runs[n].txs[t]) by { SysRunOk(runs, moves, n); }
      FeeStep(runs[n].db, runs[n].txs[t]);
    }
  }

  lemma ShortCarries(runs: seq<Sys>, t: TxId, n: nat, client: UserId, fee: nat)
    requires n + 1 < |runs| && t in runs[n].txs && t in runs[n + 1].txs && runs[n + 1].txs[t].job == runs[n].txs[t].job
    requires Balance(runs[n].db.ledger, client) < fee || EverShort(runs, t, n, client, fee)
    ensures EverShort(runs, t, n + 1, client, fee)
  {
    if Balance(runs[n].db.ledger, client) < fee {
      assert UnderWay(runs, t, n, n);
      UnderWayOn(runs, t, n, n);
      assert Short(runs, t, n, n + 1, client, fee);
    } else {
      var j: nat :| Short(runs, t, j, n, client, fee);
      UnderWayOn(runs, t, j, n);
      assert Short(runs, t, j, n + 1, client, fee);
    }
  }

  /**
   * A fee asked in points is taken in pesos only if the balance was short at some moment while the payment
   * was under way.
   */
  lemma {:induction false} PesosOnlyWhenShort(runs: seq<Sys>, moves: seq<Move>, n: nat, t: TxId)
    requires IsSysRun(runs, moves) && n < |runs| && t in runs[n].txs && FeeInPesos(runs[n].txs[t]).Some?
    ensures EverShort(runs, t, n, runs[n].txs[t].job.client, FeeInPesos(runs[n].txs[t]).value)
  {
    if n > 0 {
      FeeMove(runs, moves, n - 1, t);
      var client, fee := runs[n].txs[t].job.client, FeeInPesos(runs[n].txs[t]).value;
      if FeeInPesos(runs[n - 1].txs[t]) == Some(fee) {
        PesosOnlyWhenShort(runs, moves, n - 1, t);
      }
      ShortCarries(runs, t, n - 1, client, fee);
    }
  }

  // ----- Every committed payment ------------------------------------------

  /** The payment a finished payment transaction has written. */
  function Written(tx: Tx): Payment
    requires tx.job.PayJob? && tx.pc.PayDone? && tx.pc.row.mechanic.Some?
  {
    Settlement(tx.job.id, tx.pc.row, tx.pc.amount, tx.pc.covered, tx.pc.rates, tx.now)
  }

  /** Move k is the commit of payment p by transaction t. */
  predicate CommitsPayment(runs: seq<Sys>, moves: seq<Move>, k: nat, t: TxId, p: Payment) {
    && k < |moves| && k + 1 < |runs| && moves[k] == Proceed(t)
    && t in runs[k].txs && runs[k].txs[t].job.PayJob? && runs[k].txs[t].pc.PayDone?
    && runs[k].txs[t].pc.row.mechanic.Some?
    && p == Written(runs[k].txs[t]) && p.request in runs[k].db.requests
    && runs[k + 1].db == Settled(runs[k].db, p)
  }

  lemma DoneWritesSettlement(db: Db, tx: Tx)
    requires PaymentsOk(db) && LedgerOk(db) && tx.job.PayJob? && PayOk(db, tx) && tx.pc.PayDone?
    ensures tx.pc.row.mechanic.Some? && tx.job.id in db.requests
    ensures View(db, tx.delta) == Settled(db, Written(tx))
  {
    var a := CommitEvent(tx).action;
    PayCommits(db, tx);
    PaySettles(db, a, tx.now);
    assert PaymentOf(db, a, tx.now) == Written(tx);
  }

  lemma OthersWriteNoPayment(db: Db, tx: Tx)
    requires TxOk(db, tx) && Finished(tx) && !tx.pc.PayDone?
    ensures View(db, tx.delta).payments == db.payments
  {
  }

  lemma PaymentMove(runs: seq<Sys>, moves: seq<Move>, k: nat, p: Payment)
    requires IsSysRun(runs, moves) && k < |moves| && p in runs[k + 1].db.payments && p !in runs[k].db.payments
    ensures exists t :: CommitsPayment(runs, moves, k, t, p)
  {
    var sys := runs[k];
    EveryMoveIsAtomic(runs, moves, k);
    match moves[k]
    case Spawn(_, _, _) =>
    case RollBack(_) =>
    case Brisk(e) => Points.MoneyGrowsOnlyByPay(sys.db, e);
    case Proceed(t) =>
      var tx := sys.txs[t];
      assert TxOk(sys.db, tx) && PaymentsOk(sys.db) && LedgerOk(sys.db) by {
        SysRunOk(runs, moves, k);
        ReachableInv(sys.db);
      }
      if tx.pc.PayDone? {
        DoneWritesSettlement(sys.db, tx);
        assert CommitsPayment(runs, moves, k, t, p);
      } else {
        OthersWriteNoPayment(sys.db, tx);
      }
  }

  /** Every payment ever committed was committed by one payment transaction. */
  lemma {:induction false} EveryPaymentCommitted(runs: seq<Sys>, moves: seq<Move>, n: nat, p: Payment)
    requires IsSysRun(runs, moves) && n <= |moves| && p in runs[n].db.payments
    ensures exists k: nat, t :: k < n && CommitsPayment(runs, moves, k, t, p)
  {
    if p in runs[n - 1].db.payments {
      EveryPaymentCommitted(runs, moves, n - 1, p);
    } else {
      PaymentMove(runs, moves, n - 1, p);
      var t :| CommitsPayment(runs, moves, n - 1, t, p);
    }
  }

  /** Awards by a policy committed while the payment was under way, the mechanic's rounded half up. */
  ghost predicate AwardedFairly(runs: seq<Sys>, t: TxId, k: nat, p: Payment, u: Urgency) {
    exists rates :: EverInForce(runs, t, k, rates) && Points.AwardedBy(rates, p, u)
  }

  /**
   * The fee: in points only if asked and covered at the commit, in pesos though asked in points only if it
   * was short.
   */
  ghost predicate FeeTakenFairly(runs: seq<Sys>, t: TxId, k: nat, p: Payment)
    requires k < |runs| && t in runs[k].txs && runs[k].txs[t].job.PayJob?
  {
    var asked := runs[k].txs[t].job.withPoints;
    && (p.feeWithPoints.Some? ==> asked && p.fee > 0 && Balance(runs[k].db.ledger, p.client) >= p.fee)
    && (asked && p.fee > 0 && p.feeWithPoints.None? ==> EverShort(runs, t, k, p.client, p.fee))
  }

  /**
   * What a commit of a payment has done: exactly its settlement, with awards by
   * a policy in force while it ran and the fee taken as the balance allowed.
   */
  lemma CommittedPayment(runs: seq<Sys>, moves: seq<Move>, k: nat, t: TxId, p: Payment)
    requires IsSysRun(runs, moves) && CommitsPayment(runs, moves, k, t, p)
    ensures AwardedFairly(runs, t, k, p, runs[k].db.requests[p.request].urgency) && FeeTakenFairly(runs, t, k, p)
  {
    var tx := runs[k].txs[t];
    assert PayOk(runs[k].db, tx) by {
      SysRunOk(runs, moves, k);
      assert TxOk(runs[k].db, tx);
    }
    RatesWereInForce(runs, moves, k, t);
    Points.AwardRounding(tx.pc.rates, p.amount);
    assert Points.AwardedBy(tx.pc.rates, p, runs[k].db.requests[p.request].urgency);
    if FeeInPesos(tx).Some? {
      PesosOnlyWhenShort(runs, moves, k, t);
    }
  }

  /**
   * Over every interleaving, with the policy changing at any time: every
   * committed payment was settled by one transaction, by a policy that was
   * committed while it ran, with its fee taken as the committed balance allowed.
   */
  lemma EveryPaymentFair(runs: seq<Sys>, moves: seq<Move>, n: nat, p: Payment)
    requires IsSysRun(runs, moves) && n <= |moves| && p in runs[n].db.payments
    ensures exists k: nat, t :: k < n && Fair(runs, moves, k, t, p)
  {
    EveryPaymentCommitted(runs, moves, n, p);
    var k: nat, t :| k < n && CommitsPayment(runs, moves, k, t, p);
    CommittedPayment(runs, moves, k, t, p);
    assert Fair(runs, moves, k, t, p);
  }

  ghost predicate Fair(runs: seq<Sys>, moves: seq<Move>, k: nat, t: TxId, p: Payment) {
    && CommitsPayment(runs, moves, k, t, p)
    && AwardedFairly(runs, t, k, p, runs[k].db.requests[p.request].urgency)
    && FeeTakenFairly(runs, t, k, p)
  }

  // ----- What an interleaved sweep releases -------------------------------

  /** The sweep looked at the job under its lock and passed it over, since it was not due any more. */
  predicate PassedOver(db: Db, tx: Tx, x: RequestId) {
    RequestLock(x) in tx.held && x in db.requests && !Overdue(db.requests[x], tx.now)
  }

  /** Every job the sweep found due at first is still before it, or in its hands, or passed over. */
  predicate Tracks(db: Db, tx: Tx, found: set<RequestId>) {
    && (forall x :: x in found ==> x in db.requests)
    && match tx.pc
       case SweepLocking(todo, rows) =>
         && (forall x :: x in found ==> x in todo || x in rows || PassedOver(db, tx, x))
         && (forall x :: x in todo ==> x in found)
         && (forall x :: x in rows ==> x in found)
       case SweepReleasing(todo, freed) =>
         && (forall x :: x in found ==> x in todo || x in freed || PassedOver(db, tx, x))
         && (forall x :: x in todo ==> x in found)
         && (forall x :: x in freed ==> x in found)
       case _ => false
  }

  lemma TracksFromTheStart(db: Db, tx: Tx)
    requires tx.job.SweepJob? && tx.pc.Begin? && SweepOk(db, tx)
    ensures Statement(db, tx).Done? && Tracks(db, Statement(db, tx).value, OverdueSet(db, tx.now))
    ensures Statement(db, tx).value.job == tx.job && Statement(db, tx).value.now == tx.now
  {
    ViewOfNothing(db);
    var ids := Sweeping.SortedIds(OverdueSet(db, tx.now));
    assert Sweeping.Lists(ids, OverdueSet(db, tx.now));
  }

  lemma TracksThroughStatement(db: Db, tx: Tx, found: set<RequestId>)
    requires tx.job.SweepJob? && SweepOk(db, tx) && Tracks(db, tx, found) && Statement(db, tx).Done?
    ensures Tracks(db, Statement(db, tx).value, found)
    ensures Statement(db, tx).value.job == tx.job && Statement(db, tx).value.now == tx.now
  {
    ViewOfNothing(db);
  }

  lemma TracksThroughOthers(db: Db, next: Db, tx: Tx, found: set<RequestId>)
    requires Tracks(db, tx, found) && KeepsAll(db, next, tx.held)
    requires forall x :: x in found ==> x in next.requests
    ensures Tracks(next, tx, found)
  {
    forall x | PassedOver(db, tx, x) ensures PassedOver(next, tx, x) {
      assert Keeps(db, next, RequestLock(x));
    }
  }

  /** A move that leaves a transaction as it was keeps what its locks protect. */
  lemma MoveKeepsHeld(sys: Sys, m: Move, t: TxId)
    requires SysOk(sys) && t in sys.txs && t in Step(sys, m).txs && Step(sys, m).txs[t] == sys.txs[t]
    ensures KeepsAll(sys.db, Step(sys, m).db, sys.txs[t].held)
  {
    match m
    case Spawn(_, _, _) =>
    case RollBack(_) =>
    case Brisk(e) => if Unhindered(sys, e.action) { BriskKeepsHeld(sys, e, t); }
    case Proceed(o) =>
      if o in sys.txs && !Blocked(sys, o) && Finished(sys.txs[o]) { CommitKeepsHeld(sys, o, t); }
  }

  /** Under way, a transaction either stands still or runs its next statement, which commits nothing. */
  lemma StillOrNext(sys: Sys, m: Move, t: TxId)
    requires t in sys.txs && t in Step(sys, m).txs
    ensures Step(sys, m).txs[t] == sys.txs[t]
            || (Step(sys, m).db == sys.db && Statement(sys.db, sys.txs[t]) == Done(Step(sys, m).txs[t]))
  {
  }

  lemma RowsStay(runs: seq<Sys>, moves: seq<Move>, n: nat, id: RequestId)
    requires IsSysRun(runs, moves) && n < |moves| && id in runs[n].db.requests
    ensures id in runs[n + 1].db.requests
  {
    EveryMoveIsAtomic(runs, moves, n);
    var c := Committed(runs[n], moves[n]);
    if c.Some? {
      assert RowsOk(runs[n].db) by {
        SysRunOk(runs, moves, n);
        ReachableInv(runs[n].db);
      }
      RowStep(runs[n].db, c.value, id);
    }
  }

  lemma TracksMove(runs: seq<Sys>, moves: seq<Move>, n: nat, t: TxId, found: set<RequestId>)
    requires IsSysRun(runs, moves) && n < |moves| && t in runs[n].txs && t in runs[n + 1].txs
    requires runs[n].txs[t].job.SweepJob? && Tracks(runs[n].db, runs[n].txs[t], found)
    ensures Tracks(runs[n + 1].db, runs[n + 1].txs[t], found) && runs[n + 1].txs[t].now == runs[n].txs[t].now
  {
    assert SysOk(runs[n]) by { SysRunOk(runs, moves, n); }
    var sys, tx := runs[n], runs[n].txs[t];
    assert TxOk(sys.db, tx);
    StillOrNext(sys, moves[n], t);
    if runs[n + 1].txs[t] == tx {
      MoveKeepsHeld(sys, moves[n], t);
      forall x | x in found ensures x in runs[n + 1].db.requests {
        RowsStay(runs, moves, n, x);
      }
      TracksThroughOthers(sys.db, runs[n + 1].db, tx, found);
    } else {
      TracksThroughStatement(sys.db, tx, found);
    }
  }

  /** Move j ran the sweep's SELECT of candidates, and the same sweep is under way up to moment n. */
  predicate SweptFrom(runs: seq<Sys>, t: TxId, j: nat, n: nat) {
    && j < n && UnderWay(runs, t, j, n) && runs[n].txs[t].job.SweepJob?
    && runs[j].txs[t].pc.Begin? && runs[j + 1].txs[t].pc != Begin
  }

  lemma {:induction false} TracksUpTo(runs: seq<Sys>, moves: seq<Move>, j: nat, n: nat, t: TxId)
    requires IsSysRun(runs, moves) && n < |runs| && SweptFrom(runs, t, j, n)
    ensures runs[n].txs[t].now == runs[j].txs[t].now
    ensures Tracks(runs[n].db, runs[n].txs[t], OverdueSet(runs[j].db, runs[j].txs[t].now))
  {
    assert t in runs[n - 1].txs && runs[n - 1].txs[t].job == runs[n].txs[t].job;
    if n == j + 1 {
      assert SweepOk(runs[j].db, runs[j].txs[t]) by {
        SysRunOk(runs, moves, j);
        assert TxOk(runs[j].db, runs[j].txs[t]);
      }
      StillOrNext(runs[j], moves[j], t);
      TracksFromTheStart(runs[j].db, runs[j].txs[t]);
    } else {
      TracksUpTo(runs, moves, j, n - 1, t);
      TracksMove(runs, moves, n - 1, t, OverdueSet(runs[j].db, runs[j].txs[t].now));
    }
  }

  /**
   * Over every interleaving: the jobs a sweep commits are exactly those that were due when it selected its
   * candidates and are still due as it commits.
   */
  lemma SweepFreesExactly(runs: seq<Sys>, moves: seq<Move>, j: nat, n: nat, t: TxId)
    requires IsSysRun(runs, moves) && n < |moves| && SweptFrom(runs, t, j, n)
    requires moves[n] == Proceed(t) && Finished(runs[n].txs[t])
    ensures var now := runs[j].txs[t].now;
            var freed := OverdueSet(runs[j].db, now) * OverdueSet(runs[n].db, now);
            && Committed(runs[n], moves[n]) == Some(Event(DoExpire(freed), now))
            && runs[n + 1].db == Expire(runs[n].db, freed, now)
  {
    var db, tx, found := runs[n].db, runs[n].txs[t], OverdueSet(runs[j].db, runs[j].txs[t].now);
    assert TxOk(db, tx) by { SysRunOk(runs, moves, n); }
    TracksUpTo(runs, moves, j, n, t);
    SweepCommits(db, tx);
    FreedIsExpired(db, tx.pc.freed, tx.now);
    assert tx.pc.freed == found * OverdueSet(db, tx.now);
  }

  /** So no job that was due when the sweep began to select is still due, at its time, once it has committed. */
  lemma SweepLeavesNothingDue(runs: seq<Sys>, moves: seq<Move>, j: nat, n: nat, t: TxId)
    requires IsSysRun(runs, moves) && n < |moves| && SweptFrom(runs, t, j, n)
    requires moves[n] == Proceed(t) && Finished(runs[n].txs[t])
    ensures var now := runs[j].txs[t].now;
            OverdueSet(runs[j].db, now) * OverdueSet(runs[n + 1].db, now) == {}
  {
    SweepFreesExactly(runs, moves, j, n, t);
  }
}
