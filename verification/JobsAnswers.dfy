/**
 * Who may do what, and what everybody else is told. The conditions are read off
 * the tables alone, in terms of what the invariants make of them: that a
 * matched job has its mechanic's accepted quote, that an accepted quote is
 * live, and so on.
 */
module JobsAnswers {
  import opened Common
  import opened Jobs
  import opened JobsInvariant
  import opened JobsRuns

  // ----- Exactly who may do what ------------------------------------------

  predicate Vetted(db: Db, mechanic: UserId) {
    exists a :: a in db.accounts && db.accounts[a].user == mechanic && db.accounts[a].status.Approved?
  }

  predicate OwnJob(db: Db, client: UserId, id: RequestId) {
    id in db.requests && db.requests[id].client == client
  }

  predicate OnJob(db: Db, mechanic: UserId, id: RequestId) {
    id in db.requests && db.requests[id].mechanic == Some(mechanic)
  }

  /** The quote is on the table and not the one its job was given to. */
  predicate OnOffer(db: Db, k: QuoteKey) {
    && k in db.quotes && db.quotes[k].withdrawnAt.None? && db.quotes[k].rejectedAt.None?
    && !OnJob(db, k.mechanic, k.request)
  }

  /** The mechanic is not held to the job any more: no work begun, and arrived or past the promised time. */
  predicate ClientIsFree(db: Db, id: RequestId, now: Time)
    requires Backed(db, id)
  {
    var r := db.requests[id];
    r.progress.workStarted.None? && (r.progress.arrived.Some? || Promised(db, id) <= now)
  }

  /** The amount a finished job is paid: the accepted quote's price, or on an Emergency the agreed amount. */
  predicate Costs(db: Db, id: RequestId, amount: nat)
    requires Backed(db, id)
  {
    var r := db.requests[id];
    if r.urgency == Emergency then r.agreed == Some(amount)
    else db.quotes[QuoteKey(id, r.mechanic.value)].price == amount
  }

  ghost predicate MayPay(db: Db, id: RequestId, expected: Option<nat>) {
    && StatusIs(db, id, Matched) && Backed(db, id) && db.requests[id].progress.serviceCompleted.Some?
    && exists amount: nat :: Costs(db, id, amount) && (expected.None? || expected == Some(amount))
  }

  ghost predicate May(db: Db, a: Action, now: Time) {
    match a
    case DoBook(client, id, _) =>
      id !in db.requests && forall i :: OwnJob(db, client, i) ==> Closed(db.requests[i])
    case DoSubmitQuote(m, id, _, eta) =>
      && Vetted(db, m) && StatusIs(db, id, Pending)
      && (db.requests[id].urgency == Normal || (db.requests[id].urgency == Urgent && eta <= 4320))
      && (QuoteKey(id, m) in db.quotes ==>
            db.quotes[QuoteKey(id, m)].withdrawnAt.Some? && db.quotes[QuoteKey(id, m)].rejectedAt.None?)
    case DoWithdrawQuote(m, id) => OnOffer(db, QuoteKey(id, m))
    case DoRejectQuote(client, id, k) => OwnJob(db, client, id) && k.request == id && OnOffer(db, k)
    case DoAcceptQuote(client, id, k) =>
      && OwnJob(db, client, id) && k.request == id && OnOffer(db, k)
      && db.requests[id].status == Pending && db.requests[id].urgency != Emergency
    case DoAcceptEmergency(m, id, eta) =>
      && Vetted(db, m) && eta <= 720 && StatusIs(db, id, Pending) && db.requests[id].urgency == Emergency
      && forall i :: OnJob(db, m, i) && db.requests[i].urgency == Emergency ==> Closed(db.requests[i])
    case DoAdvance(m, id, step) =>
      && OnJob(db, m, id) && db.requests[id].status == Matched
      && (step == WorkStarted ==> db.requests[id].progress.arrived.Some?)
      && (step == ServiceCompleted ==> db.requests[id].progress.workStarted.Some?)
    case DoSetAgreed(m, id, _) =>
      OnJob(db, m, id) && db.requests[id].status == Matched && db.requests[id].urgency == Emergency
    case DoPay(client, id, _, expected, _) =>
      OwnJob(db, client, id) && (db.requests[id].status == Completed || MayPay(db, id, expected))
    case DoCancel(client, id, _) =>
      && OwnJob(db, client, id)
      && (db.requests[id].status == Pending
          || (db.requests[id].status == Matched && Backed(db, id) && ClientIsFree(db, id, now)))
    case DoReopen(client, id) =>
      OwnJob(db, client, id) && db.requests[id].status == Matched && Backed(db, id) && ClientIsFree(db, id, now)
    case DoMechanicCancel(m, id, why) =>
      && why != "" && OnJob(db, m, id) && db.requests[id].status == Matched && db.requests[id].urgency != Emergency
      && db.requests[id].progress.navigating.None? && db.requests[id].progress.enRoute.None?
    case DoExpire(_) => true
    case DoConvert(user, points) => points <= Balance(db.ledger, user)
    case DoSetPolicy(_) => true
    case DoSubmitVerification(user, id) =>
      && id !in db.accounts
      && forall a :: a in db.accounts && db.accounts[a].user == user ==> !db.accounts[a].status.Waiting?
    case DoDecideVerification(permitted, id, verdict) =>
      && permitted && id in db.accounts && db.accounts[id].status.Waiting?
      && !(verdict.Escalate? && db.accounts[id].escalated)
  }

  lemma QuotingAnswers(db: Db, a: Action, now: Time)
    requires JobsOk(db)
    requires a.DoBook? || a.DoSubmitQuote? || a.DoWithdrawQuote? || a.DoRejectQuote?
    ensures Perform(db, a, now).Done? <==> May(db, a, now)
  {
  }

  lemma MatchingAnswers(db: Db, a: Action, now: Time)
    requires JobsOk(db) && (a.DoAcceptQuote? || a.DoAcceptEmergency?)
    ensures Perform(db, a, now).Done? <==> May(db, a, now)
  {
  }

  lemma LeavingAnswers(db: Db, a: Action, now: Time)
    requires JobsOk(db) && (a.DoCancel? || a.DoReopen? || a.DoMechanicCancel?)
    ensures Perform(db, a, now).Done? <==> May(db, a, now)
  {
    if a.id in db.requests {
      assert RequestOk(db.requests[a.id]);
      if db.requests[a.id].status == Matched { MatchIsBacked(db, a.id); }
    }
  }

  lemma PayAnswers(db: Db, a: Action, now: Time)
    requires JobsOk(db) && PaymentsOk(db) && LedgerOk(db) && a.DoPay?
    ensures Perform(db, a, now).Done? <==> May(db, a, now)
  {
    if StatusIs(db, a.id, Matched) {
      MatchIsBacked(db, a.id);
      if AmountDue(db, a.id).Some? { assert Costs(db, a.id, AmountDue(db, a.id).value); }
      if PayRefusal(db, a.client, a.id, a.expected).None? { PaySettles(db, a, now); }
    }
  }

  /** In every reachable state a call succeeds exactly when May says so. */
  lemma SucceedsExactly(db: Db, a: Action, now: Time)
    requires Reachable(db)
    ensures Perform(db, a, now).Done? <==> May(db, a, now)
  {
    ReachableInv(db);
    if a.DoBook? || a.DoSubmitQuote? || a.DoWithdrawQuote? || a.DoRejectQuote? {
      QuotingAnswers(db, a, now);
    } else if a.DoAcceptQuote? || a.DoAcceptEmergency? {
      MatchingAnswers(db, a, now);
    } else if a.DoCancel? || a.DoReopen? || a.DoMechanicCancel? {
      LeavingAnswers(db, a, now);
    } else if a.DoPay? {
      PayAnswers(db, a, now);
    }
  }

  /**
   * The ETA lock: in every reachable state the client of a matched job may
   * cancel it or put it back exactly when work has not started and the mechanic
   * has arrived, or the accept plus the minutes of their quote has passed.
   */
  lemma ClientLeavesExactly(db: Db, id: RequestId, reason: Option<string>, now: Time)
    requires Reachable(db) && IsMatched(db, id)
    ensures Backed(db, id)
    ensures var r := db.requests[id];
            var free :=
              && r.progress.workStarted.None?
              && (r.progress.arrived.Some?
                  || r.acceptedAt.value + db.quotes[QuoteKey(id, r.mechanic.value)].eta * 60_000 <= now);
            && (Perform(db, DoCancel(r.client, id, reason), now).Done? <==> free)
            && (Perform(db, DoReopen(r.client, id), now).Done? <==> free)
  {
    SucceedsExactly(db, DoCancel(db.requests[id].client, id, reason), now);
    SucceedsExactly(db, DoReopen(db.requests[id].client, id), now);
    MatchHolds(db, id);
  }

  // ----- Exactly what a refused caller is told ----------------------------

  /** Not entitled to this kind of call at all. */
  predicate Unentitled(db: Db, a: Action) {
    match a
    case DoSubmitQuote(m, _, _, _) => !Vetted(db, m)
    case DoAcceptEmergency(m, _, _) => !Vetted(db, m)
    case DoDecideVerification(permitted, _, _) => !permitted
    case _ => false
  }

  /** The figures or words of the call are wrong whatever the job. */
  predicate Malformed(db: Db, a: Action) {
    match a
    case DoSubmitQuote(_, id, _, eta) => StatusIs(db, id, Pending) && db.requests[id].urgency == Urgent && eta > 4320
    case DoAcceptEmergency(_, _, eta) => eta > 720
    case DoMechanicCancel(_, _, why) => why == ""
    case _ => false
  }

  /** What the caller names is not theirs to see, or is not there. */
  predicate OutOfSight(db: Db, a: Action) {
    match a
    case DoSubmitQuote(_, id, _, _) => id !in db.requests
    case DoWithdrawQuote(_, _) => true
    case DoRejectQuote(_, _, _) => true
    case DoAcceptQuote(client, id, k) =>
      || !OwnJob(db, client, id)
      || (db.requests[id].status == Pending && db.requests[id].urgency != Emergency
          && !(k.request == id && OnOffer(db, k)))
    case DoAcceptEmergency(_, id, _) => id !in db.requests
    case DoAdvance(m, id, _) => !OnJob(db, m, id)
    case DoSetAgreed(m, id, _) => !OnJob(db, m, id)
    case DoPay(client, id, _, _, _) => !OwnJob(db, client, id)
    case DoCancel(client, id, _) => !OwnJob(db, client, id)
    case DoReopen(client, id) => !OwnJob(db, client, id)
    case DoMechanicCancel(m, id, _) => !OnJob(db, m, id)
    case DoDecideVerification(_, id, _) => id !in db.accounts
    case _ => false
  }

  /** First entitlement, then form, then sight; whoever passes all three is told of the conflict. */
  function Told(db: Db, a: Action): Refusal {
    if Unentitled(db, a) then Forbidden
    else if Malformed(db, a) then BadRequest
    else if OutOfSight(db, a) then NotFound
    else Conflict
  }

  lemma RefusedQuoting(db: Db, a: Action, now: Time)
    requires JobsOk(db) && Perform(db, a, now).Refused?
    requires a.DoBook? || a.DoSubmitQuote? || a.DoWithdrawQuote? || a.DoRejectQuote?
             || a.DoAcceptQuote? || a.DoAcceptEmergency?
    ensures Perform(db, a, now).why == Told(db, a)
  {
  }

  lemma RefusedWorking(db: Db, a: Action, now: Time)
    requires JobsOk(db) && PaymentsOk(db) && LedgerOk(db) && Perform(db, a, now).Refused?
    requires !(a.DoBook? || a.DoSubmitQuote? || a.DoWithdrawQuote? || a.DoRejectQuote?
               || a.DoAcceptQuote? || a.DoAcceptEmergency?)
    ensures Perform(db, a, now).why == Told(db, a)
  {
    if a.DoPay? && PayRefusal(db, a.client, a.id, a.expected).None? && db.requests[a.id].status != Completed {
      PaySettles(db, a, now);
    }
  }

  /**
   * In every reachable state a refused caller is told exactly this: a party to
   * the job hears of the conflict, and somebody else's job looks the same as no
   * job at all. The unexpected branches never answer.
   */
  lemma RefusedExactly(db: Db, a: Action, now: Time)
    requires Reachable(db) && Perform(db, a, now).Refused?
    ensures Perform(db, a, now).why == Told(db, a)
  {
    ReachableInv(db);
    if a.DoBook? || a.DoSubmitQuote? || a.DoWithdrawQuote? || a.DoRejectQuote?
       || a.DoAcceptQuote? || a.DoAcceptEmergency? {
      RefusedQuoting(db, a, now);
    } else {
      RefusedWorking(db, a, now);
    }
  }
}
