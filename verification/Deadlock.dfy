/** Locks are taken in one global order, so waiting transactions never form a cycle and one can always move. */
module Deadlock {
  import opened Common
  import opened Jobs
  import opened JobsInvariant
  import opened JobsRuns
  import opened Interleaving
  import opened Isolation
  import opened Serialisable

  function Tier(l: Lock): nat {
    match l
    case RequestLock(_) => 0
    case SlotLock(_) => 1
    case UserLock(_) => 2
    case QuoteLock(_) => 3
    case QuotesLock(_) => 4
  }

  function KeyOf(l: Lock): nat {
    match l
    case RequestLock(i) => i
    case SlotLock(m) => m
    case UserLock(u) => u
    case QuoteLock(k) => k.request
    case QuotesLock(i) => i
  }

  /**
   * Requests in id order, then a unique-index key, then one user, then a quote row, then all quotes in
   * request-id order.
   */
  predicate Below(a: Lock, b: Lock) {
    Tier(a) < Tier(b) || (Tier(a) == Tier(b) && KeyOf(a) < KeyOf(b))
  }

  /** A transaction only waits for a lock above every lock it holds. */
  lemma WaitsAbove(db: Db, tx: Tx, l: Lock)
    requires TxOk(db, tx) && Wanted(tx).Some? && l in tx.held
    ensures Below(l, Wanted(tx).value)
  {
    if tx.job.SweepJob? {
      if tx.pc.SweepLocking? {
        assert tx.pc.todo[0] in tx.pc.todo;
      } else if tx.pc.SweepReleasing? {
        assert tx.pc.todo[0] in tx.pc.todo;
      }
    }
  }

  predicate TxsOk(sys: Sys) {
    forall t :: t in sys.txs ==> TxOk(sys.db, sys.txs[t])
  }

  /** t waits for a lock that o holds. */
  predicate WaitsFor(sys: Sys, t: TxId, o: TxId) {
    && t in sys.txs && o in sys.txs && t != o
    && Wanted(sys.txs[t]).Some?
    && Wanted(sys.txs[t]).value in sys.txs[o].held
  }

  /** A chain of transactions, each waiting for the next. */
  predicate WaitChain(sys: Sys, chain: seq<TxId>) {
    forall k :: 0 <= k < |chain| - 1 ==> WaitsFor(sys, chain[k], chain[k + 1])
  }

  lemma {:induction false} ChainClimbs(sys: Sys, chain: seq<TxId>)
    requires TxsOk(sys) && WaitChain(sys, chain) && |chain| >= 2
    requires WaitsFor(sys, chain[|chain| - 2], chain[|chain| - 1])
    ensures chain[0] in sys.txs
    ensures forall l :: l in sys.txs[chain[0]].held ==> Below(l, Wanted(sys.txs[chain[|chain| - 2]]).value)
  {
    var t, last := chain[0], Wanted(sys.txs[chain[|chain| - 2]]).value;
    assert WaitsFor(sys, chain[0], chain[1]);
    forall l | l in sys.txs[t].held ensures Below(l, last) {
      WaitsAbove(sys.db, sys.txs[t], l);
      if |chain| > 2 {
        var rest := chain[1..];
        assert rest[|rest| - 2] == chain[|chain| - 2];
        forall k | 0 <= k < |rest| - 1 ensures WaitsFor(sys, rest[k], rest[k + 1]) {
          assert WaitsFor(sys, chain[k + 1], chain[k + 2]);
        }
        ChainClimbs(sys, rest);
      }
    }
  }

  /** No deadlock: in no reachable system does a chain of waiting transactions close on itself. */
  lemma NoWaitCycle(runs: seq<Sys>, moves: seq<Move>, n: nat, chain: seq<TxId>)
    requires IsSysRun(runs, moves) && n < |runs|
    requires |chain| >= 2 && WaitChain(runs[n], chain)
    ensures chain[0] != chain[|chain| - 1]
  {
    SysRunOk(runs, moves, n);
    var sys := runs[n];
    assert WaitsFor(sys, chain[|chain| - 2], chain[|chain| - 1]);
    ChainClimbs(sys, chain);
  }

  // ----- Somebody can always move -----------------------------------------

  lemma BlockedByHolder(sys: Sys, t: TxId) returns (o: TxId)
    requires t in sys.txs && Blocked(sys, t)
    ensures WaitsFor(sys, t, o)
  {
    o :| o in sys.txs && o != t && Wanted(sys.txs[t]).value in sys.txs[o].held;
  }

  /** Among finitely many waiting transactions one waits for a highest lock. */
  lemma {:induction false} HighestWaiter(sys: Sys, s: set<TxId>) returns (t: TxId)
    requires s != {} && forall x :: x in s ==> x in sys.txs && Wanted(sys.txs[x]).Some?
    ensures t in s && forall x :: x in s ==> !Below(Wanted(sys.txs[t]).value, Wanted(sys.txs[x]).value)
  {
    var y :| y in s;
    if s == {y} {
      t := y;
    } else {
      assert s - {y} != {} by {
        assert s == (s - {y}) + {y};
      }
      t := HighestWaiter(sys, s - {y});
      if Below(Wanted(sys.txs[t]).value, Wanted(sys.txs[y]).value) {
        t := y;
      }
    }
  }

  lemma HolderWaitsHigher(sys: Sys, t: TxId, o: TxId)
    requires TxsOk(sys) && WaitsFor(sys, t, o) && Blocked(sys, o)
    ensures Below(Wanted(sys.txs[t]).value, Wanted(sys.txs[o]).value)
  {
    WaitsAbove(sys.db, sys.txs[o], Wanted(sys.txs[t]).value);
  }

  predicate AllBlocked(sys: Sys) {
    forall t :: t in sys.txs ==> Blocked(sys, t)
  }

  /** A blocked holder waits for a higher lock than those who wait for it. */
  predicate WaitsClimb(sys: Sys) {
    forall t, o :: t in sys.txs && o in sys.txs && WaitsFor(sys, t, o) && Blocked(sys, o) ==>
      Below(Wanted(sys.txs[t]).value, Wanted(sys.txs[o]).value)
  }

  lemma NotAllBlocked(sys: Sys)
    requires WaitsClimb(sys) && sys.txs.Keys != {}
    ensures !AllBlocked(sys)
  {
    if AllBlocked(sys) {
      var t := HighestWaiter(sys, sys.txs.Keys);
      var o := BlockedByHolder(sys, t);
      assert false;
    }
  }

  lemma SomeoneUnblocked(sys: Sys)
    requires TxsOk(sys) && sys.txs != map[]
    ensures exists t :: t in sys.txs && !Blocked(sys, t)
  {
    forall t, o | t in sys.txs && o in sys.txs && WaitsFor(sys, t, o) && Blocked(sys, o)
      ensures Below(Wanted(sys.txs[t]).value, Wanted(sys.txs[o]).value)
    {
      HolderWaitsHigher(sys, t, o);
    }
    assert sys.txs.Keys != {};
    NotAllBlocked(sys);
  }

  /** In every reachable system with transactions under way, one of them is not blocked. */
  lemma SomeoneCanMove(runs: seq<Sys>, moves: seq<Move>, n: nat)
    requires IsSysRun(runs, moves) && n < |runs| && runs[n].txs != map[]
    ensures exists t :: t in runs[n].txs && !Blocked(runs[n], t)
  {
    SysRunOk(runs, moves, n);
    SomeoneUnblocked(runs[n]);
  }

  // ----- The unique-violation branches ------------------------------------

  lemma UnpaidJobHasNoRows(db: Db, id: RequestId)
    requires PaymentsOk(db) && LedgerOk(db) && id in db.requests && db.requests[id].status == Matched
    ensures !HasPayment(db.payments, id)
    ensures forall e :: e in db.ledger ==> e.request != Some(id)
  {
  }

  lemma PayNeverCollides(db: Db, tx: Tx)
    requires PaymentsOk(db) && LedgerOk(db) && tx.job.PayJob? && PayOk(db, tx) && !Finished(tx)
    ensures Statement(db, tx) != Refused(Unexpected)
  {
    ViewOfNothing(db);
    if !tx.pc.Begin? {
      UnpaidJobHasNoRows(db, tx.job.id);
    }
  }

  lemma NeverCollides(db: Db, tx: Tx)
    requires Reachable(db) && TxOk(db, tx) && !Finished(tx)
    ensures Statement(db, tx) != Refused(Unexpected)
  {
    if tx.job.PayJob? {
      ReachableInv(db);
      PayNeverCollides(db, tx);
    } else if tx.job.SweepJob? && tx.pc.SweepReleasing? {
      FreedOneMoreAhead(db, tx);
    }
  }

  lemma FreedOneMoreAhead(db: Db, tx: Tx)
    requires tx.job.SweepJob? && SweepOk(db, tx) && tx.pc.SweepReleasing? && tx.pc.todo != []
    ensures Statement(db, tx).Done?
  {
    assert tx.pc.todo[0] in tx.pc.todo && tx.pc.todo[0] !in tx.pc.freed;
    assert Caught(db, tx, tx.pc.todo[0]);
    FreedOneMore(db, tx.pc.freed, tx.pc.todo[0], tx.now);
  }

  /** With its locks held, no statement of any interleaving runs into a unique violation of payments or the ledger. */
  lemma NoUniqueViolation(runs: seq<Sys>, moves: seq<Move>, n: nat, t: TxId)
    requires IsSysRun(runs, moves) && n < |runs| && t in runs[n].txs && !Finished(runs[n].txs[t])
    ensures Statement(runs[n].db, runs[n].txs[t]) != Refused(Unexpected)
  {
    SysRunOk(runs, moves, n);
    NeverCollides(runs[n].db, runs[n].txs[t]);
  }
}
