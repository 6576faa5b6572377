/** Every commit is one atomic step, so every interleaving keeps what every run keeps; and no interleaving deadlocks. */
module Serialisable {
  import opened Common
  import opened Jobs
  import opened JobsInvariant
  import opened JobsRuns
  import opened Interleaving
  import opened Isolation

  // ----- A commit is an atomic step ---------------------------------------

  /**
   * The atomic step a finished transaction amounts to: a payment took the fee in points or not, at the rates
   * it read; one that found the job paid already wrote nothing, whatever it would have used.
   */
  function CommitEvent(tx: Tx): Event
    requires Finished(tx)
  {
    var action :=
      match tx.job
      case AcceptJob(client, id, k) => DoAcceptQuote(client, id, k)
      case EmergencyJob(m, id, eta) => DoAcceptEmergency(m, id, eta)
      case PayJob(client, id, _, expected) =>
        (match tx.pc
         case PayDone(_, _, covered, rates) => DoPay(client, id, covered, expected, rates)
         case _ => DoPay(client, id, false, expected, INITIAL_POLICY))
      case ConvertJob(u, points) => DoConvert(u, points)
      case SweepJob => DoExpire(if tx.pc.SweepReleasing? then tx.pc.freed else {});
    Event(action, tx.now)
  }

  predicate CommitsAs(db: Db, tx: Tx)
    requires Finished(tx)
  {
    Perform(db, CommitEvent(tx).action, tx.now) == Done(View(db, tx.delta))
  }

  lemma NothingAppended(db: Db)
    ensures db.payments + [] == db.payments && db.ledger + [] == db.ledger
  {
  }

  lemma AcceptCommits(db: Db, tx: Tx)
    requires tx.job.AcceptJob? && AcceptOk(db, tx) && Finished(tx)
    ensures CommitsAs(db, tx)
  {
    NothingAppended(db);
    var id, k := tx.job.id, tx.job.quote;
    assert db.quotes + AcceptVersions(db.quotes, id, k) == AcceptOnly(db.quotes, id, k);
    assert View(db, tx.delta).requests == db.requests[id := Match(db.requests[id], k.mechanic, tx.now)];
  }

  lemma EmergencyCommits(db: Db, tx: Tx)
    requires tx.job.EmergencyJob? && EmergencyOk(db, tx) && Finished(tx)
    ensures CommitsAs(db, tx)
  {
    NothingAppended(db);
    var id, m := tx.job.id, tx.job.mechanic;
    var k := QuoteKey(id, m);
    assert View(db, tx.delta).quotes == AcceptRecord(db.quotes, k, tx.job.eta);
    assert View(db, tx.delta).requests == db.requests[id := Match(db.requests[id], m, tx.now)];
  }

  lemma PayCommits(db: Db, tx: Tx)
    requires PaymentsOk(db) && LedgerOk(db)
    requires tx.job.PayJob? && PayOk(db, tx) && Finished(tx)
    ensures CommitsAs(db, tx)
  {
    if tx.pc.PayDone? {
      var p := Settlement(tx.job.id, tx.pc.row, tx.pc.amount, tx.pc.covered, tx.pc.rates, tx.now);
      var a := CommitEvent(tx).action;
      PaySettles(db, a, tx.now);
      assert PaymentOf(db, a, tx.now) == p;
      assert View(db, tx.delta).quotes == db.quotes;
      assert View(db, tx.delta).requests == Settled(db, p).requests;
    } else {
      ViewOfNothing(db);
    }
  }

  lemma ConvertCommits(db: Db, tx: Tx)
    requires tx.job.ConvertJob? && ConvertOk(db, tx) && Finished(tx)
    ensures CommitsAs(db, tx)
  {
    NothingAppended(db);
    assert View(db, tx.delta).quotes == db.quotes && View(db, tx.delta).requests == db.requests;
  }

  lemma FreedIsExpired(db: Db, freed: set<RequestId>, now: Time)
    ensures View(db, FreedDelta(db, freed, now)) == Expire(db, freed, now)
  {
    NothingAppended(db);
    assert db.requests + FreedDelta(db, freed, now).requests == Expire(db, freed, now).requests;
    assert db.quotes + FreedDelta(db, freed, now).quotes == Expire(db, freed, now).quotes;
  }

  lemma SweepCommits(db: Db, tx: Tx)
    requires tx.job.SweepJob? && SweepOk(db, tx) && Finished(tx)
    ensures CommitsAs(db, tx)
    ensures forall x :: x in tx.pc.freed ==> x in OverdueSet(db, tx.now)
  {
    assert forall x :: x in tx.pc.freed ==> Caught(db, tx, x);
    FreedIsExpired(db, tx.pc.freed, tx.now);
  }

  /** What a transaction commits is exactly the atomic step of its action, taken at the moment of the commit. */
  lemma CommitIsStep(db: Db, tx: Tx)
    requires Reachable(db) && TxOk(db, tx) && Finished(tx)
    ensures CommitsAs(db, tx) && View(db, tx.delta) == Next(db, CommitEvent(tx))
  {
    ReachableInv(db);
    match tx.job
    case AcceptJob(_, _, _) => AcceptCommits(db, tx);
    case EmergencyJob(_, _, _) => EmergencyCommits(db, tx);
    case PayJob(_, _, _, _) => PayCommits(db, tx);
    case ConvertJob(_, _) => ConvertCommits(db, tx);
    case SweepJob => SweepCommits(db, tx);
  }

  // ----- The system invariant ---------------------------------------------

  predicate Exclusive(sys: Sys) {
    forall t, o :: t in sys.txs && o in sys.txs && t != o ==> sys.txs[t].held !! sys.txs[o].held
  }

  ghost predicate SysOk(sys: Sys) {
    && Reachable(sys.db)
    && Exclusive(sys)
    && forall t :: t in sys.txs ==> TxOk(sys.db, sys.txs[t])
  }

  lemma ApprovalsKept(db: Db, e: Event)
    ensures KeepsApprovals(db, Next(db, e))
  {
    forall u | IsApproved(db, u) ensures IsApproved(Next(db, e), u) {
      ApprovalForever(db, e.action, e.now, u);
    }
  }

  /** A commit keeps what every lock of another transaction protects. */
  lemma CommitKeepsHeld(sys: Sys, t: TxId, o: TxId)
    requires SysOk(sys) && t in sys.txs && o in sys.txs && t != o && Finished(sys.txs[t])
    ensures KeepsAll(sys.db, View(sys.db, sys.txs[t].delta), sys.txs[o].held)
  {
    var db, tx, other := sys.db, sys.txs[t], sys.txs[o];
    TxWritesUnder(db, tx);
    forall l | l in other.held ensures Keeps(db, View(db, tx.delta), l) {
      if l.QuoteLock? { QuoteUnderRequest(db, other, l.key); }
      CommitKeeps(db, tx.delta, tx.held, l);
    }
  }

  lemma OthersStableUnderCommit(sys: Sys, t: TxId, o: TxId)
    requires SysOk(sys) && t in sys.txs && o in sys.txs && t != o && Finished(sys.txs[t])
    ensures TxOk(View(sys.db, sys.txs[t].delta), sys.txs[o])
  {
    var db, tx, other := sys.db, sys.txs[t], sys.txs[o];
    CommitKeepsHeld(sys, t, o);
    CommitIsStep(db, tx);
    ApprovalsKept(db, CommitEvent(tx));
    Stable(db, View(db, tx.delta), other);
  }

  lemma BriskKeepsHeld(sys: Sys, e: Event, o: TxId)
    requires SysOk(sys) && o in sys.txs && Brief(e.action)
    requires forall l :: l in Needs(e.action) ==> l !in sys.txs[o].held
    ensures KeepsAll(sys.db, Next(sys.db, e), sys.txs[o].held)
  {
    forall l | l in sys.txs[o].held ensures Keeps(sys.db, Next(sys.db, e), l) {
      if l.QuoteLock? { QuoteUnderRequest(sys.db, sys.txs[o], l.key); }
      BriskKeeps(sys.db, e, l);
    }
  }

  lemma OthersStableUnderBrisk(sys: Sys, e: Event, o: TxId)
    requires SysOk(sys) && o in sys.txs && Brief(e.action)
    requires forall l :: l in Needs(e.action) ==> l !in sys.txs[o].held
    ensures TxOk(Next(sys.db, e), sys.txs[o])
  {
    BriskKeepsHeld(sys, e, o);
    ApprovalsKept(sys.db, e);
    Stable(sys.db, Next(sys.db, e), sys.txs[o]);
  }

  lemma CommitOk(sys: Sys, t: TxId)
    requires SysOk(sys) && t in sys.txs && Finished(sys.txs[t])
    ensures SysOk(Sys(View(sys.db, sys.txs[t].delta), sys.txs - {t}))
  {
    CommitIsStep(sys.db, sys.txs[t]);
    ReachableNext(sys.db, CommitEvent(sys.txs[t]));
    forall o | o in sys.txs && o != t ensures TxOk(View(sys.db, sys.txs[t].delta), sys.txs[o]) {
      OthersStableUnderCommit(sys, t, o);
    }
  }

  lemma ProceedOk(sys: Sys, t: TxId, tx: Tx)
    requires SysOk(sys) && t in sys.txs && !Blocked(sys, t) && Statement(sys.db, sys.txs[t]) == Done(tx)
    ensures SysOk(sys.(txs := sys.txs[t := tx]))
  {
    StatementOk(sys.db, sys.txs[t]);
    StatementLocks(sys.db, sys.txs[t]);
    var next := sys.(txs := sys.txs[t := tx]);
    forall o | o in sys.txs && o != t ensures tx.held !! sys.txs[o].held {
      assert sys.txs[t].held !! sys.txs[o].held;
    }
    assert Exclusive(next);
  }

  lemma StepOk(sys: Sys, m: Move)
    requires SysOk(sys)
    ensures SysOk(Step(sys, m))
  {
    match m
    case Spawn(t, job, now) =>
    case RollBack(t) =>
    case Brisk(e) =>
      if Unhindered(sys, e.action) {
        ReachableNext(sys.db, e);
        forall o | o in sys.txs ensures TxOk(Next(sys.db, e), sys.txs[o]) {
          OthersStableUnderBrisk(sys, e, o);
        }
      }
    case Proceed(t) =>
      if t in sys.txs && !Blocked(sys, t) {
        if Finished(sys.txs[t]) {
          CommitOk(sys, t);
        } else if Statement(sys.db, sys.txs[t]).Done? {
          ProceedOk(sys, t, Statement(sys.db, sys.txs[t]).value);
        }
      }
  }

  lemma {:induction false} SysRunOk(runs: seq<Sys>, moves: seq<Move>, n: nat)
    requires IsSysRun(runs, moves) && n < |runs|
    ensures SysOk(runs[n])
  {
    if n == 0 {
      EmptyReachable();
    } else {
      SysRunOk(runs, moves, n - 1);
      StepOk(runs[n - 1], moves[n - 1]);
    }
  }

  // ----- Main results -----------------------------------------------------

  /** The atomic step a move commits, if any. */
  function Committed(sys: Sys, m: Move): Option<Event> {
    match m
    case Brisk(e) => if Unhindered(sys, e.action) then Some(e) else None
    case Proceed(t) =>
      if t in sys.txs && !Blocked(sys, t) && Finished(sys.txs[t]) then Some(CommitEvent(sys.txs[t])) else None
    case _ => None
  }

  /** Each move takes exactly the atomic step it commits on the committed tables, and otherwise leaves them alone. */
  lemma EveryMoveIsAtomic(runs: seq<Sys>, moves: seq<Move>, k: nat)
    requires IsSysRun(runs, moves) && k < |moves|
    ensures runs[k + 1].db ==
            match Committed(runs[k], moves[k])
            case Some(e) => Next(runs[k].db, e)
            case None => runs[k].db
  {
    SysRunOk(runs, moves, k);
    var sys := runs[k];
    match moves[k]
    case Spawn(_, _, _) =>
    case RollBack(_) =>
    case Brisk(e) =>
    case Proceed(t) =>
      if t in sys.txs && !Blocked(sys, t) && Finished(sys.txs[t]) {
        CommitIsStep(sys.db, sys.txs[t]);
      }
  }

  /** What a committed step adds to accepts less returns. */
  function WinsBy(db: Db, c: Option<Event>, id: RequestId): int {
    if c.None? then 0 else WinGain(db, c.value, id)
  }

  /** Committed accepts less committed returns to the pool, over the first n moves. */
  function CommittedWins(runs: seq<Sys>, moves: seq<Move>, id: RequestId, n: nat): int
    requires |moves| <= |runs| && n <= |moves|
  {
    if n == 0 then 0
    else CommittedWins(runs, moves, id, n - 1) + WinsBy(runs[n - 1].db, Committed(runs[n - 1], moves[n - 1]), id)
  }

  lemma StepWins(db: Db, c: Option<Event>, id: RequestId)
    requires Reachable(db)
    ensures Held(if c.Some? then Next(db, c.value) else db, id) == Held(db, id) + WinsBy(db, c, id)
  {
    if c.Some? {
      assert RowsOk(db) by { ReachableInv(db); }
      WinOrReturn(db, c.value, id);
    }
  }

  lemma MoveWins(runs: seq<Sys>, moves: seq<Move>, id: RequestId, k: nat)
    requires IsSysRun(runs, moves) && k < |moves|
    ensures Held(runs[k + 1].db, id) == Held(runs[k].db, id) + WinsBy(runs[k].db, Committed(runs[k], moves[k]), id)
  {
    assert Reachable(runs[k].db) by { SysRunOk(runs, moves, k); }
    EveryMoveIsAtomic(runs, moves, k);
    StepWins(runs[k].db, Committed(runs[k], moves[k]), id);
  }

  /**
   * Over every interleaving the accepts that committed on a job, less its returns, are 1 while it has a
   * mechanic and 0 otherwise.
   */
  lemma {:induction false} OneWinnerUnderInterleaving(runs: seq<Sys>, moves: seq<Move>, id: RequestId, n: nat)
    requires IsSysRun(runs, moves) && n <= |moves|
    ensures CommittedWins(runs, moves, id, n) == Held(runs[n].db, id)
  {
    if n > 0 {
      OneWinnerUnderInterleaving(runs, moves, id, n - 1);
      MoveWins(runs, moves, id, n - 1);
    }
  }

  /** Every committed state of every interleaving is reached by some run of atomic steps. */
  lemma InterleavingsAreSerialisable(runs: seq<Sys>, moves: seq<Move>, n: nat)
    requires IsSysRun(runs, moves) && n < |runs|
    ensures Reachable(runs[n].db)
  {
    SysRunOk(runs, moves, n);
  }

  /** No interleaving of payments, conversions and credits overdraws anybody's committed points. */
  lemma NoOverdraftUnderInterleaving(runs: seq<Sys>, moves: seq<Move>, n: nat, u: UserId)
    requires IsSysRun(runs, moves) && n < |runs|
    ensures Balance(runs[n].db.ledger, u) >= 0
  {
    InterleavingsAreSerialisable(runs, moves, n);
    ReachableInv(runs[n].db);
  }
}
