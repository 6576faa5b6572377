/**
 * A transaction that nobody disturbs answers as its atomic step does, and
 * commits the same tables: the split form neither refuses what the step allows
 * nor allows what it refuses.
 */
module Alone {
  import opened Common
  import opened Jobs
  import opened JobsInvariant
  import opened JobsRuns
  import opened Interleaving
  import opened Isolation
  import opened Serialisable
  import Deadlock
  import History
  import Sweeping

  /** Statement after statement up to the commit, or the refusal that rolls it back. */
  function RunOn(db: Db, tx: Tx, n: nat): Outcome<Db>
    decreases n
  {
    if Finished(tx) then Done(View(db, tx.delta))
    else if n == 0 then Refused(Unexpected)
    else
      match Statement(db, tx)
      case Done(next) => RunOn(db, next, n - 1)
      case Refused(why) => Refused(why)
  }

  function Start(job: Job, now: Time): Tx {
    Tx(job, now, Begin, NO_DELTA, {})
  }

  /** The call a transaction carries out; a payment reads the policy in force, a sweep takes whatever is due. */
  function CallOf(db: Db, tx: Tx): Action {
    match tx.job
    case AcceptJob(client, id, k) => DoAcceptQuote(client, id, k)
    case EmergencyJob(m, id, eta) => DoAcceptEmergency(m, id, eta)
    case PayJob(client, id, withPoints, expected) => DoPay(client, id, withPoints, expected, db.policy)
    case ConvertJob(u, points) => DoConvert(u, points)
    case SweepJob => DoExpire(OverdueSet(db, tx.now))
  }

  /** How many statements are left at most. */
  function Rank(db: Db, tx: Tx): nat {
    match tx.pc
    case Begin => if tx.job.SweepJob? then 2 * |OverdueSet(db, tx.now)| + 2 else 7
    case AcceptLocked(_) => 3
    case AcceptReady(_) => 2
    case AcceptRowWritten(_) => 1
    case EmergencyApproved => 3
    case EmergencyLocked(_) => 2
    case EmergencyRowWritten(_) => 1
    case PayLocked(_) => 6
    case PayPriced(_, _) => 5
    case PayUserLocked(_, _) => 4
    case PayFeeDecided(_, _, _) => 3
    case PayInserted(_, _, _, _) => 2
    case PayRowWritten(_, _, _, _) => 1
    case ConvertLocked => 2
    case ConvertChecked => 1
    case SweepLocking(todo, rows) => 2 * |todo| + |rows| + 1
    case SweepReleasing(todo, _) => |todo|
    case _ => 0
  }

  /** What was decided on the way was decided on these tables. */
  predicate Undisturbed(db: Db, tx: Tx) {
    && TxOk(db, tx)
    && (tx.job.PayJob? ==>
          match tx.pc
          case PayFeeDecided(row, _, covered) => Covers(db, tx, row, covered)
          case PayInserted(row, _, covered, rates) => Covers(db, tx, row, covered) && rates == db.policy
          case PayRowWritten(row, _, covered, rates) => Covers(db, tx, row, covered) && rates == db.policy
          case PayDone(row, _, covered, rates) => Covers(db, tx, row, covered) && rates == db.policy
          case _ => true)
    && (tx.job.SweepJob? && !tx.pc.Begin? ==> History.Tracks(db, tx, OverdueSet(db, tx.now)))
  }

  predicate Covers(db: Db, tx: Tx, row: Request, covered: bool)
    requires tx.job.PayJob?
  {
    covered <==> tx.job.withPoints && FeeCovered(db, tx.job.client, row.surcharge)
  }

  // ----- One statement ----------------------------------------------------

  predicate StepsOn(db: Db, tx: Tx, next: Tx) {
    Undisturbed(db, next) && next.job == tx.job && next.now == tx.now && Rank(db, next) < Rank(db, tx)
  }

  predicate AnswersRight(db: Db, tx: Tx) {
    match Statement(db, tx)
    case Done(next) => StepsOn(db, tx, next)
    case Refused(why) => Perform(db, CallOf(db, tx), tx.now) == Refused(why)
  }

  lemma AcceptAnswers(db: Db, tx: Tx)
    requires Undisturbed(db, tx) && tx.job.AcceptJob? && !Finished(tx)
    ensures AnswersRight(db, tx)
  {
    ViewOfNothing(db);
    if Statement(db, tx).Done? { AcceptStatementOk(db, tx); }
  }

  lemma EmergencyAnswers(db: Db, tx: Tx)
    requires Undisturbed(db, tx) && tx.job.EmergencyJob? && !Finished(tx)
    ensures AnswersRight(db, tx)
  {
    ViewOfNothing(db);
    if Statement(db, tx).Done? { EmergencyStatementOk(db, tx); }
  }

  lemma ConvertAnswers(db: Db, tx: Tx)
    requires Undisturbed(db, tx) && tx.job.ConvertJob? && !Finished(tx)
    ensures AnswersRight(db, tx)
  {
    ViewOfNothing(db);
    if Statement(db, tx).Done? { ConvertStatementOk(db, tx); }
  }

  lemma PayReadsAnswer(db: Db, tx: Tx)
    requires Undisturbed(db, tx) && tx.job.PayJob?
    requires tx.pc.Begin? || tx.pc.PayLocked? || tx.pc.PayPriced?
    ensures AnswersRight(db, tx)
  {
    ViewOfNothing(db);
    if Statement(db, tx).Done? { PayStatementOk(db, tx); }
  }

  lemma PayWritesAnswer(db: Db, tx: Tx)
    requires Reachable(db) && Undisturbed(db, tx) && tx.job.PayJob?
    requires tx.pc.PayUserLocked? || tx.pc.PayFeeDecided? || tx.pc.PayInserted? || tx.pc.PayRowWritten?
    ensures AnswersRight(db, tx)
  {
    ViewOfNothing(db);
    Deadlock.NeverCollides(db, tx);
    assert Statement(db, tx).Done?;
    PayStatementOk(db, tx);
  }

  lemma PayAnswers(db: Db, tx: Tx)
    requires Reachable(db) && Undisturbed(db, tx) && tx.job.PayJob? && !Finished(tx)
    ensures AnswersRight(db, tx)
  {
    if tx.pc.Begin? || tx.pc.PayLocked? || tx.pc.PayPriced? {
      PayReadsAnswer(db, tx);
    } else {
      PayWritesAnswer(db, tx);
    }
  }

  lemma SweepAnswers(db: Db, tx: Tx)
    requires Undisturbed(db, tx) && tx.job.SweepJob? && !Finished(tx)
    ensures AnswersRight(db, tx)
  {
    ViewOfNothing(db);
    if tx.pc.Begin? {
      History.TracksFromTheStart(db, tx);
    } else {
      if tx.pc.SweepReleasing? { Deadlock.FreedOneMoreAhead(db, tx); }
      History.TracksThroughStatement(db, tx, OverdueSet(db, tx.now));
    }
    SweepStatementOk(db, tx);
  }

  lemma StatementAnswers(db: Db, tx: Tx)
    requires Reachable(db) && Undisturbed(db, tx) && !Finished(tx)
    ensures AnswersRight(db, tx)
  {
    match tx.job
    case AcceptJob(_, _, _) => AcceptAnswers(db, tx);
    case EmergencyJob(_, _, _) => EmergencyAnswers(db, tx);
    case PayJob(_, _, _, _) => PayAnswers(db, tx);
    case ConvertJob(_, _) => ConvertAnswers(db, tx);
    case SweepJob => SweepAnswers(db, tx);
  }

  // ----- The whole transaction --------------------------------------------

  lemma CommitsCall(db: Db, tx: Tx)
    requires Reachable(db) && Undisturbed(db, tx) && Finished(tx)
    ensures Perform(db, CallOf(db, tx), tx.now) == Done(View(db, tx.delta))
  {
    CommitIsStep(db, tx);
    if tx.job.SweepJob? {
      SweepCommits(db, tx);
      assert tx.pc.freed == OverdueSet(db, tx.now);
    }
  }

  predicate RunsRight(db: Db, tx: Tx, n: nat) {
    RunOn(db, tx, n) == Perform(db, CallOf(db, tx), tx.now)
  }

  /** The answer of the rest of the run is the answer of the whole. */
  lemma StepUp(db: Db, tx: Tx, n: nat)
    requires AnswersRight(db, tx) && !Finished(tx) && 0 < n
    requires Statement(db, tx).Done? ==> RunsRight(db, Statement(db, tx).value, n - 1)
    ensures RunsRight(db, tx, n)
  {
    assert Statement(db, tx).Done? ==> CallOf(db, Statement(db, tx).value) == CallOf(db, tx);
  }

  /** The transaction one statement on, if that statement goes through. */
  lemma StepDown(db: Db, tx: Tx, n: nat) returns (next: Option<Tx>)
    requires Reachable(db) && Undisturbed(db, tx) && !Finished(tx) && Rank(db, tx) <= n
    ensures if next.Some? then
              0 < n && Undisturbed(db, next.value) && Rank(db, next.value) <= n - 1
              && (RunsRight(db, next.value, n - 1) ==> RunsRight(db, tx, n))
            else RunsRight(db, tx, n)
  {
    StatementAnswers(db, tx);
    var o := Statement(db, tx);
    next := if o.Done? then Some(o.value) else None;
    if next.None? || RunsRight(db, next.value, n - 1) { StepUp(db, tx, n); }
  }

  lemma {:induction false} RunsOnRight(db: Db, tx: Tx, n: nat)
    requires Reachable(db) && Undisturbed(db, tx) && Rank(db, tx) <= n
    ensures RunsRight(db, tx, n)
    decreases n
  {
    if Finished(tx) {
      CommitsCall(db, tx);
    } else {
      var next := StepDown(db, tx, n);
      if next.Some? {
        RunsOnRight(db, next.value, n - 1);
      }
    }
  }

  /** Every split transaction, left alone, is its atomic step, with the same answer. */
  lemma AloneIsItsStep(db: Db, job: Job, now: Time, n: nat)
    requires Reachable(db) && Rank(db, Start(job, now)) <= n
    ensures RunOn(db, Start(job, now), n) == Perform(db, CallOf(db, Start(job, now)), now)
  {
    RunsOnRight(db, Start(job, now), n);
  }
}
