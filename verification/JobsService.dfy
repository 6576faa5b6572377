/**
 * The service functions of src/services/jobs.service.ts and
 * points.service.ts as they run: each method is one transaction that updates
 * the tables statement by statement, and is proved to carry out its step.
 */
module JobsService {
  import opened Common
  import opened Jobs
  import Sweeping

  /** A transaction either commits the step's result and returns, or rolls back and throws. */
  predicate Carries(before: Db, step: Outcome<Db>, after: Db, outcome: Outcome<()>) {
    match step
    case Done(d) => after == d && outcome == Done(())
    case Refused(why) => after == before && outcome == Refused(why)
  }

  /** None of these rows would hit points_ledger_once_per_job. */
  predicate Inserts(ledger: seq<Entry>, rows: seq<Entry>) {
    forall e :: e in rows ==> !Clashes(ledger, e)
  }

  /** A collision is a second payment of the job or a ledger row clashing, part by part. */
  lemma CollidesByPart(db: Db, p: Payment)
    ensures !Collides(db, p) <==>
      && !HasPayment(db.payments, p.request)
      && Inserts(db.ledger, FeeEntries(p)) && Inserts(db.ledger, ClientCredits(p))
      && Inserts(db.ledger, MechanicCredits(p))
  {
  }

  /** Rows of other kinds added before do not make an insert clash. */
  lemma OtherKindNoClash(ledger: seq<Entry>, added: seq<Entry>, rows: seq<Entry>)
    requires forall a, e :: a in added && e in rows ==> a.kind != e.kind
    ensures Inserts(ledger + added, rows) <==> Inserts(ledger, rows)
  {
  }

  class Store {
    var requests: map<RequestId, Request>
    var quotes: map<QuoteKey, Quote>
    var payments: seq<Payment>
    var ledger: seq<Entry>
    var policy: Policy
    var accounts: map<AccountId, Account>

    constructor ()
      ensures Snapshot() == EMPTY_DB
    {
      requests, quotes, payments, ledger, accounts := map[], map[], [], [], map[];
      policy := INITIAL_POLICY;
    }

    function Snapshot(): Db
      reads this
    {
      Db(requests, quotes, payments, ledger, policy, accounts)
    }

    // ----- Booking and quotes ---------------------------------------------

    method CreateServiceRequest(client: UserId, id: RequestId, urgency: Urgency) returns (outcome: Outcome<()>)
      modifies this
      ensures Carries(old(Snapshot()), Book(old(Snapshot()), client, id, urgency), Snapshot(), outcome)
    {
      var surcharge := Surcharge(urgency);
      // The primary key, then the partial unique index on active requests.
      if id in requests || HasActive(Snapshot(), client) {
        return Refused(Conflict);
      }
      requests := requests[id := Request(client, urgency, surcharge, Pending, None, None, None, None, NO_PROGRESS,
                                         None, NO_STAMPS)];
      return Done(());
    }

    method SubmitQuote(mechanic: UserId, id: RequestId, price: nat, eta: Pos) returns (outcome: Outcome<()>)
      modifies this
      ensures Carries(old(Snapshot()), Jobs.SubmitQuote(old(Snapshot()), mechanic, id, price, eta), Snapshot(), outcome)
    {
      if !IsApproved(Snapshot(), mechanic) { return Refused(Forbidden); }
      if id !in requests { return Refused(NotFound); }
      var req := requests[id];
      if req.status != Pending { return Refused(Conflict); }
      if req.urgency == Emergency { return Refused(Conflict); }
      var window := WindowMinutes(req.urgency);
      if window.Some? && eta > window.value { return Refused(BadRequest); }
      var k := QuoteKey(id, mechanic);
      if k in quotes {
        var existing := quotes[k];
        if existing.rejectedAt.Some? { return Refused(Conflict); }
        if existing.accepted { return Refused(Conflict); }
        if existing.withdrawnAt.None? { return Refused(Conflict); }
        quotes := quotes[k := existing.(price := price, eta := eta, withdrawnAt := None)];
      } else {
        quotes := quotes[k := Quote(price, eta, false, None, None)];
      }
      return Done(());
    }

    method WithdrawQuote(mechanic: UserId, id: RequestId, now: Time) returns (outcome: Outcome<()>)
      modifies this
      ensures Carries(old(Snapshot()), Jobs.WithdrawQuote(old(Snapshot()), mechanic, id, now), Snapshot(), outcome)
    {
      var k := QuoteKey(id, mechanic);
      if k in quotes && quotes[k].withdrawnAt.None? && quotes[k].rejectedAt.None? && !quotes[k].accepted {
        quotes := quotes[k := quotes[k].(withdrawnAt := Some(now))];
        return Done(());
      }
      return Refused(NotFound);
    }

    method RejectQuote(client: UserId, id: RequestId, k: QuoteKey, now: Time) returns (outcome: Outcome<()>)
      modifies this
      ensures Carries(old(Snapshot()), Jobs.RejectQuote(old(Snapshot()), client, id, k, now), Snapshot(), outcome)
    {
      if k in quotes && k.request == id && quotes[k].withdrawnAt.None? && quotes[k].rejectedAt.None?
         && !quotes[k].accepted && id in requests && requests[id].client == client {
        quotes := quotes[k := quotes[k].(rejectedAt := Some(now))];
        return Done(());
      }
      return Refused(NotFound);
    }

    // ----- Accepting ------------------------------------------------------

    method AcceptQuote(client: UserId, id: RequestId, k: QuoteKey, now: Time) returns (outcome: Outcome<()>)
      modifies this
      ensures Carries(old(Snapshot()), Jobs.AcceptQuote(old(Snapshot()), client, id, k, now), Snapshot(), outcome)
    {
      if id !in requests || requests[id].client != client { return Refused(NotFound); }
      var req := requests[id];
      if req.status != Pending { return Refused(Conflict); }
      if req.urgency == Emergency { return Refused(Conflict); }
      if k !in quotes || k.request != id || quotes[k].withdrawnAt.Some? || quotes[k].rejectedAt.Some? {
        return Refused(NotFound);
      }
      var window := WindowMinutes(req.urgency);
      requests := requests[id := req.(status := Matched, mechanic := Some(k.mechanic), acceptedAt := Some(now),
        deadlineAt := if window.Some? then Some(now + window.value * MINUTE) else None, stamps := NO_STAMPS)];
      quotes := map x | x in quotes :: if x.request == id then quotes[x].(accepted := x == k) else quotes[x];
      return Done(());
    }

    method AcceptEmergency(mechanic: UserId, id: RequestId, eta: Pos, now: Time) returns (outcome: Outcome<()>)
      modifies this
      ensures Carries(old(Snapshot()), Jobs.AcceptEmergency(old(Snapshot()), mechanic, id, eta, now), Snapshot(),
                      outcome)
    {
      if !IsApproved(Snapshot(), mechanic) { return Refused(Forbidden); }
      var window := 12 * 60;
      if eta > window { return Refused(BadRequest); }
      if id !in requests { return Refused(NotFound); }
      var req := requests[id];
      if req.urgency != Emergency { return Refused(Conflict); }
      if req.status != Pending { return Refused(Conflict); }
      if HasEmergency(Snapshot(), mechanic) { return Refused(Conflict); }
      requests := requests[id := req.(status := Matched, mechanic := Some(mechanic), acceptedAt := Some(now),
        deadlineAt := Some(now + window * MINUTE), stamps := NO_STAMPS)];
      var k := QuoteKey(id, mechanic);
      if k in quotes {
        quotes := quotes[k := quotes[k].(accepted := true, eta := eta, withdrawnAt := None, rejectedAt := None)];
      } else {
        quotes := quotes[k := Quote(0, eta, true, None, None)];
      }
      return Done(());
    }

    // ----- Progress -------------------------------------------------------

    method AdvanceJobStatus(mechanic: UserId, id: RequestId, step: StatusStep, now: Time) returns (outcome: Outcome<()>)
      modifies this
      ensures Carries(old(Snapshot()), AdvanceStatus(old(Snapshot()), mechanic, id, step, now), Snapshot(), outcome)
    {
      if id !in requests || requests[id].mechanic != Some(mechanic) { return Refused(NotFound); }
      var row := requests[id];
      if row.status != Matched { return Refused(Conflict); }
      var p := row.progress;
      match step {
        case Navigating => p := p.(navigating := Coalesce(p.navigating, now));
        case EnRoute => p := p.(enRoute := Coalesce(p.enRoute, now));
        case Arrived =>
          p := p.(arrived := Coalesce(p.arrived, now));
          p := p.(enRoute := Coalesce(p.enRoute, now));
        case WorkStarted =>
          if row.progress.arrived.None? { return Refused(Conflict); }
          p := p.(workStarted := Coalesce(p.workStarted, now));
        case ServiceCompleted =>
          if row.progress.workStarted.None? { return Refused(Conflict); }
          p := p.(serviceCompleted := Coalesce(p.serviceCompleted, now));
      }
      requests := requests[id := row.(progress := p)];
      return Done(());
    }

    method SetAgreedAmount(mechanic: UserId, id: RequestId, amount: Pos) returns (outcome: Outcome<()>)
      modifies this
      ensures Carries(old(Snapshot()), Jobs.SetAgreedAmount(old(Snapshot()), mechanic, id, amount), Snapshot(), outcome)
    {
      if id !in requests || requests[id].mechanic != Some(mechanic) { return Refused(NotFound); }
      if requests[id].urgency != Emergency { return Refused(Conflict); }
      if requests[id].status != Matched { return Refused(Conflict); }
      requests := requests[id := requests[id].(agreed := Some(amount))];
      return Done(());
    }

    // ----- Payment and points ---------------------------------------------

    /** At most one insert under points_ledger_once_per_job; false is a unique violation. */
    method InsertEntry(rows: seq<Entry>) returns (ok: bool)
      requires |rows| <= 1
      modifies this`ledger
      ensures ok == Inserts(old(ledger), rows)
      ensures ledger == if ok then old(ledger) + rows else old(ledger)
    {
      if |rows| == 0 { return true; }
      assert forall e :: e in rows ==> e == rows[0];
      ok := !Clashes(ledger, rows[0]);
      if ok { ledger := ledger + rows; }
    }

    /** The two award inserts. */
    method InsertAwards(p: Payment) returns (ok: bool)
      modifies this`ledger
      ensures ok == (Inserts(old(ledger), ClientCredits(p)) && Inserts(old(ledger), MechanicCredits(p)))
      ensures ok ==> ledger == old(ledger) + ClientCredits(p) + MechanicCredits(p)
    {
      ok := InsertEntry(if p.clientPoints > 0
        then [Entry(p.client, ClientJobCompleted, p.clientPoints, None, Some(p.request))] else []);
      if !ok { return; }
      OtherKindNoClash(old(ledger), ClientCredits(p), MechanicCredits(p));
      ok := InsertEntry(if p.mechanicPoints > 0
        then [Entry(p.mechanic, MechanicJobCompleted, p.mechanicPoints, None, Some(p.request))] else []);
    }

    /**
     * The statements of the payment transaction; on a unique violation it stops, leaving the rollback to its
     * caller.
     */
    method WriteSettlement(p: Payment) returns (ok: bool)
      requires p.request in requests
      modifies this
      ensures ok == !Collides(old(Snapshot()), p)
      ensures ok ==> Snapshot() == Settled(old(Snapshot()), p)
    {
      CollidesByPart(Snapshot(), p);
      OtherKindNoClash(ledger, FeeEntries(p), ClientCredits(p));
      OtherKindNoClash(ledger, FeeEntries(p), MechanicCredits(p));
      ok := InsertEntry(if p.feeWithPoints.Some?
        then [Entry(p.client, ClientPaidSurcharge, 0 - p.feeWithPoints.value, p.feeWithPoints, Some(p.request))]
        else []);
      if !ok { return; }
      if HasPayment(payments, p.request) { return false; }
      payments := payments + [p];
      requests := requests[p.request := requests[p.request].(status := Completed, completedAt := Some(p.completedAt))];
      ok := InsertAwards(p);
      assert old(ledger) + FeeEntries(p) + ClientCredits(p) + MechanicCredits(p) == old(ledger) + SettlementEntries(p);
    }

    /** The mechanic's amount: the accepted quote's price, or the agreed one on an Emergency. */
    method AmountToPay(id: RequestId) returns (amount: Option<nat>)
      requires id in requests && requests[id].mechanic.Some?
      ensures amount == AmountDue(Snapshot(), id)
    {
      var req := requests[id];
      if req.urgency == Emergency {
        return if req.agreed.Some? then Some(req.agreed.value) else None;
      }
      var k := QuoteKey(id, req.mechanic.value);
      if k !in quotes || !quotes[k].accepted { return None; }
      return Some(quotes[k].price);
    }

    /** The transaction around the statements: on a unique violation every table is as it was. */
    method CommitSettlement(p: Payment) returns (ok: bool)
      requires p.request in requests
      modifies this
      ensures ok == !Collides(old(Snapshot()), p)
      ensures Snapshot() == if ok then Settled(old(Snapshot()), p) else old(Snapshot())
    {
      var saved := Snapshot();
      ok := WriteSettlement(p);
      if !ok {
        requests, quotes, payments, ledger := saved.requests, saved.quotes, saved.payments, saved.ledger;
        policy, accounts := saved.policy, saved.accounts;
      }
    }

    method PayForJob(client: UserId, id: RequestId, withPoints: bool, expected: Option<nat>, now: Time)
      returns (outcome: Outcome<()>)
      modifies this
      ensures Carries(old(Snapshot()), Pay(old(Snapshot()), client, id, withPoints, expected, old(policy), now),
                      Snapshot(), outcome)
    {
      if id !in requests || requests[id].client != client { return Refused(NotFound); }
      var req := requests[id];
      if req.status == Completed { return Done(()); }
      if req.status != Matched || req.mechanic.None? { return Refused(Conflict); }
      if req.progress.serviceCompleted.None? { return Refused(Conflict); }
      var amount := AmountToPay(id);
      if amount.None? { return Refused(Conflict); }
      if expected.Some? && expected.value != amount.value { return Refused(Conflict); }
      var fee := req.surcharge;
      var feeWithPoints: Option<nat> := None;
      if withPoints && fee > 0 {
        if Balance(ledger, client) >= fee { feeWithPoints := Some(fee); }
      }
      var p := Payment(id, client, req.mechanic.value, amount.value, fee, feeWithPoints,
                       ClientAward(policy, req.urgency), MechanicAward(policy, amount.value), now);
      var ok := CommitSettlement(p);
      if !ok {
        if exists x :: x in payments && x.request == id { return Done(()); }
        return Refused(Unexpected);
      }
      return Done(());
    }

    method ConvertPointsToBalance(user: UserId, points: Pos) returns (outcome: Outcome<()>)
      modifies this
      ensures Carries(old(Snapshot()), ConvertPoints(old(Snapshot()), user, points), Snapshot(), outcome)
    {
      if !(Balance(ledger, user) >= points) { return Refused(Conflict); }
      ledger := ledger + [Entry(user, MechanicConverted, 0 - points, Some(points), None)];
      return Done(());
    }

    method UpdatePointsPolicy(rates: Policy)
      modifies this
      ensures Snapshot() == old(Snapshot()).(policy := rates)
    {
      policy := rates;
    }

    // ----- A match comes apart --------------------------------------------

    method CancelServiceRequest(client: UserId, id: RequestId, reason: Option<string>, now: Time)
      returns (outcome: Outcome<()>)
      modifies this
      ensures Carries(old(Snapshot()), CancelRequest(old(Snapshot()), client, id, reason, now), Snapshot(), outcome)
    {
      if id !in requests || requests[id].client != client { return Refused(NotFound); }
      var req := requests[id];
      if req.status == Matched {
        var may := MayLeaveMatch(id, now);
        if !may { return Refused(Conflict); }
      } else if req.status != Pending {
        return Refused(Conflict);
      }
      requests := requests[id := req.(status := Cancelled,
        stamps := req.stamps.(reason := reason, who := Some(client), at := Some(now)))];
      return Done(());
    }

    /** assertClientMayLeaveMatch: the ETA lock read from the accepted quote. */
    method MayLeaveMatch(id: RequestId, now: Time) returns (may: bool)
      requires id in requests
      ensures may == ClientMayLeave(Snapshot(), id, now)
      ensures var r := requests[id];
              var kept := r.mechanic.Some? && QuoteKey(id, r.mechanic.value) in quotes
                          && quotes[QuoteKey(id, r.mechanic.value)].accepted && r.acceptedAt.Some?;
              may <==>
                && r.progress.workStarted.None?
                && (r.progress.arrived.Some? || !kept
                    || r.acceptedAt.value + quotes[QuoteKey(id, r.mechanic.value)].eta * 60_000 <= now)
    {
      var req := requests[id];
      if req.progress.workStarted.Some? { return false; }
      if req.progress.arrived.Some? { return true; }
      if req.mechanic.Some? && QuoteKey(id, req.mechanic.value) in quotes
         && quotes[QuoteKey(id, req.mechanic.value)].accepted
         && req.acceptedAt.Some? {
        var due := req.acceptedAt.value + quotes[QuoteKey(id, req.mechanic.value)].eta * MINUTE;
        return !(due > now);
      }
      return true;
    }

    method PutBackInPool(id: RequestId, mechanic: UserId, withdraw: bool, stamps: Stamps, now: Time)
      requires id in requests
      modifies this
      ensures Snapshot() == ReturnToPool(old(Snapshot()), id, mechanic, withdraw, stamps, now)
    {
      quotes := map k | k in quotes ::
        if k.request != id then quotes[k]
        else quotes[k].(accepted := false,
          withdrawnAt := if withdraw && k.mechanic == mechanic then Coalesce(quotes[k].withdrawnAt, now)
                         else quotes[k].withdrawnAt);
      if requests[id].status == Matched {
        requests := requests[id := requests[id].(
          status := Pending, mechanic := None, acceptedAt := None, deadlineAt := None,
          progress := NO_PROGRESS, agreed := None, stamps := stamps)];
      }
      assert quotes == PooledQuotes(old(quotes), id, mechanic, withdraw, now);
      assert requests == old(requests)[id := PooledRow(old(requests)[id], stamps)];
    }

    method ReopenServiceRequest(client: UserId, id: RequestId, now: Time) returns (outcome: Outcome<()>)
      modifies this
      ensures Carries(old(Snapshot()), Reopen(old(Snapshot()), client, id, now), Snapshot(), outcome)
    {
      if id !in requests || requests[id].client != client { return Refused(NotFound); }
      var req := requests[id];
      if req.status != Matched || req.mechanic.None? { return Refused(Conflict); }
      var may := MayLeaveMatch(id, now);
      if !may { return Refused(Conflict); }
      PutBackInPool(id, req.mechanic.value, req.urgency == Emergency, NO_STAMPS, now);
      return Done(());
    }

    method MechanicCancelJob(mechanic: UserId, id: RequestId, why: string, now: Time) returns (outcome: Outcome<()>)
      modifies this
      ensures Carries(old(Snapshot()), MechanicCancel(old(Snapshot()), mechanic, id, why, now), Snapshot(), outcome)
    {
      if |why| == 0 { return Refused(BadRequest); }
      if id !in requests || requests[id].mechanic != Some(mechanic) { return Refused(NotFound); }
      var req := requests[id];
      if req.status != Matched { return Refused(Conflict); }
      if req.urgency == Emergency { return Refused(Conflict); }
      var p := req.progress;
      if p.navigating.Some? || p.enRoute.Some? || p.arrived.Some? || p.workStarted.Some? { return Refused(Conflict); }
      PutBackInPool(id, mechanic, true, Stamps(Some(why), Some(mechanic), Some(now), None, None), now);
      return Done(());
    }

    // ----- The expiry sweep -----------------------------------------------

    /** The loop body of the sweep. */
    method ReleaseRow(id: RequestId, now: Time)
      requires id in requests && requests[id].mechanic.Some?
      modifies this
      ensures Snapshot() == Sweeping.Release(old(Snapshot()), id, now)
    {
      var row := requests[id];
      var holder := row.mechanic.value;
      PutBackInPool(id, holder, row.urgency == Emergency,
                    Stamps(Some(EXPIRED_REASON), Some(holder), Some(now), Some(now), Some(holder)), now);
    }

    /** Releases the selected rows one after the other, in whatever order they come. */
    method ReleaseRows(rows: seq<RequestId>, now: Time)
      requires Sweeping.Distinct(rows)
      requires forall i :: 0 <= i < |rows| ==> rows[i] in requests && Overdue(requests[rows[i]], now)
      modifies this
      ensures Snapshot() == Expire(old(Snapshot()), Sweeping.Upto(rows, |rows|), now)
    {
      Sweeping.ExpireNone(Snapshot(), now);
      var n := 0;
      while n < |rows|
        invariant 0 <= n <= |rows|
        invariant Snapshot() == Expire(old(Snapshot()), Sweeping.Upto(rows, n), now)
      {
        Sweeping.UptoNext(rows, n);
        Sweeping.ReleaseOneMore(old(Snapshot()), Sweeping.Upto(rows, n), rows[n], now);
        ReleaseRow(rows[n], now);
        n := n + 1;
      }
    }

    /** Returns exactly the number of due jobs, and leaves the tables as one order-free release of all of them. */
    method ExpireOverdueJobs(now: Time) returns (expired: nat)
      modifies this
      ensures Snapshot() == Sweep(old(Snapshot()), now)
      ensures expired == |OverdueSet(old(Snapshot()), now)|
    {
      if !exists i :: i in requests && Overdue(requests[i], now) {
        Sweeping.NothingDueNothingDone(Snapshot(), now);
        return 0;
      }
      var due := OverdueSet(Snapshot(), now);
      var rows := Sweeping.SortedIds(due);
      Sweeping.UptoAll(rows, due);
      ReleaseRows(rows, now);
      return |rows|;
    }

    // ----- Verification ---------------------------------------------------

    method SubmitVerification(user: UserId, id: AccountId) returns (outcome: Outcome<()>)
      modifies this
      ensures Carries(old(Snapshot()), Jobs.SubmitVerification(old(Snapshot()), user, id), Snapshot(), outcome)
    {
      if id in accounts || AwaitsReview(Snapshot(), user) {
        return Refused(Conflict);
      }
      accounts := accounts[id := Account(user, Waiting, false)];
      return Done(());
    }

    method DecideVerification(permitted: bool, id: AccountId, verdict: Verdict) returns (outcome: Outcome<()>)
      modifies this
      ensures Carries(old(Snapshot()), Jobs.DecideVerification(old(Snapshot()), permitted, id, verdict), Snapshot(),
                      outcome)
    {
      if !permitted { return Refused(Forbidden); }
      if id !in accounts { return Refused(NotFound); }
      var row := accounts[id];
      if row.status != Waiting { return Refused(Conflict); }
      if verdict == Escalate && row.escalated { return Refused(Conflict); }
      if verdict == Escalate {
        accounts := accounts[id := row.(escalated := true)];
      } else {
        accounts := accounts[id := row.(status := if verdict == Approve then Approved else Rejected)];
      }
      return Done(());
    }
  }
}
