/** Who writes what: one column of the jobs tables at a time, every call that changes it and the value it leaves. */
module JobsWrites {
  import opened Common
  import opened Jobs
  import opened JobsInvariant
  import opened JobsRuns
  import opened JobsAnswers

  predicate Succeeds(db: Db, e: Event) {
    Perform(db, e.action, e.now).Done?
  }

  /** The deadline of a job has come and no work was begun. */
  predicate Lapsed(db: Db, id: RequestId, now: Time) {
    && StatusIs(db, id, Matched) && db.requests[id].progress.workStarted.None?
    && db.requests[id].deadlineAt.Some? && db.requests[id].deadlineAt.value <= now
  }

  /** The call puts the job back in the pool. */
  predicate PutsBack(db: Db, e: Event, id: RequestId) {
    match e.action
    case DoReopen(_, i) => i == id && Succeeds(db, e)
    case DoMechanicCancel(_, i, _) => i == id && Succeeds(db, e)
    case DoExpire(ids) => id in ids && Lapsed(db, id, e.now)
    case _ => false
  }

  /** Who the call gives the job to. */
  function TakenBy(db: Db, e: Event, id: RequestId): Option<UserId> {
    if !Succeeds(db, e) then None
    else
      match e.action
      case DoAcceptQuote(_, i, k) => if i == id then Some(k.mechanic) else None
      case DoAcceptEmergency(m, i, _) => if i == id then Some(m) else None
      case _ => None
  }

  /** The call marks this progress step; arriving marks being en route too. */
  predicate Marks(db: Db, e: Event, id: RequestId, step: StatusStep) {
    && e.action.DoAdvance? && e.action.id == id && Succeeds(db, e)
    && (e.action.step == step || (step == EnRoute && e.action.step == Arrived))
  }

  function Mark(p: Progress, step: StatusStep): Option<Time> {
    match step
    case Navigating => p.navigating
    case EnRoute => p.enRoute
    case Arrived => p.arrived
    case WorkStarted => p.workStarted
    case ServiceCompleted => p.serviceCompleted
  }

  // ----- service_requests -------------------------------------------------

  predicate PartiesWritten(db: Db, e: Event, id: RequestId, n: Request)
    requires id in db.requests
  {
    var r := db.requests[id];
    if TakenBy(db, e, id).Some? then
      && n.mechanic == TakenBy(db, e, id) && n.acceptedAt == Some(e.now)
      && n.deadlineAt == (match r.urgency
                          case Normal => None
                          case Urgent => Some(e.now + 3 * 24 * 60 * 60_000)
                          case Emergency => Some(e.now + 12 * 60 * 60_000))
    else if PutsBack(db, e, id) then n.mechanic.None? && n.acceptedAt.None? && n.deadlineAt.None?
    else n.mechanic == r.mechanic && n.acceptedAt == r.acceptedAt && n.deadlineAt == r.deadlineAt
  }

  predicate StatusWritten(db: Db, e: Event, id: RequestId, n: Request)
    requires id in db.requests
  {
    var r := db.requests[id];
    var paid := e.action.DoPay? && e.action.id == id && r.status == Matched && Succeeds(db, e);
    && n.status == (if TakenBy(db, e, id).Some? then Matched
                    else if PutsBack(db, e, id) then Pending
                    else if paid then Completed
                    else if e.action.DoCancel? && e.action.id == id && Succeeds(db, e) then Cancelled
                    else r.status)
    && n.completedAt == if paid then Some(e.now) else r.completedAt
  }

  predicate ProgressWritten(db: Db, e: Event, id: RequestId, n: Request)
    requires id in db.requests
  {
    forall step ::
      Mark(n.progress, step) ==
        if PutsBack(db, e, id) then None
        else if Marks(db, e, id, step) && Mark(db.requests[id].progress, step).None? then Some(e.now)
        else Mark(db.requests[id].progress, step)
  }

  predicate AgreedWritten(db: Db, e: Event, id: RequestId, n: Request)
    requires id in db.requests
  {
    n.agreed ==
      if e.action.DoSetAgreed? && e.action.id == id && Succeeds(db, e) then Some(e.action.amount)
      else if PutsBack(db, e, id) then None
      else db.requests[id].agreed
  }

  /** What the client is shown of why a match came apart. */
  predicate StampsWritten(db: Db, e: Event, id: RequestId, n: Request)
    requires id in db.requests
  {
    var was := db.requests[id].stamps;
    if TakenBy(db, e, id).Some? then n.stamps == Stamps(None, None, None, None, None)
    else if PutsBack(db, e, id) then
      match e.action
      case DoMechanicCancel(m, _, why) => n.stamps == Stamps(Some(why), Some(m), Some(e.now), None, None)
      case DoExpire(_) =>
        n.stamps == Stamps(Some("Did not complete the job within the allowed time."), db.requests[id].mechanic,
                           Some(e.now), Some(e.now), db.requests[id].mechanic)
      case _ => n.stamps == Stamps(None, None, None, None, None)
    else if e.action.DoCancel? && e.action.id == id && Succeeds(db, e) then
      n.stamps == Stamps(e.action.reason, Some(e.action.client), Some(e.now), was.expiredAt, was.expiredBy)
    else n.stamps == was
  }

  predicate RowWritten(db: Db, e: Event, id: RequestId, n: Request)
    requires id in db.requests
  {
    var r := db.requests[id];
    && n.client == r.client && n.urgency == r.urgency && n.surcharge == r.surcharge
    && PartiesWritten(db, e, id, n) && StatusWritten(db, e, id, n) && ProgressWritten(db, e, id, n)
    && AgreedWritten(db, e, id, n) && StampsWritten(db, e, id, n)
  }

  predicate BookedAs(e: Event, n: Request) {
    && e.action.DoBook?
    && n == Request(e.action.client, e.action.urgency,
                    (match e.action.urgency case Normal => 0 case Urgent => 50_00 case Emergency => 100_00),
                    Pending, None, None, None, None, Progress(None, None, None, None, None), None,
                    Stamps(None, None, None, None, None))
  }

  // ----- quotes -----------------------------------------------------------

  /** What a call of the quote's mechanic offers: price, minutes, and whether it is accepted on the spot. */
  predicate Offers(db: Db, e: Event, k: QuoteKey) {
    && (e.action.DoSubmitQuote? || e.action.DoAcceptEmergency?)
    && e.action.id == k.request && e.action.mechanic == k.mechanic && Succeeds(db, e)
  }

  predicate OfferWritten(db: Db, e: Event, k: QuoteKey, n: Quote) {
    && n.withdrawnAt.None? && n.rejectedAt.None?
    && (e.action.DoSubmitQuote? ==> n.price == e.action.price && n.eta == e.action.eta && !n.accepted)
    && (e.action.DoAcceptEmergency? ==>
          n.price == (if k in db.quotes then db.quotes[k].price else 0) && n.eta == e.action.eta && n.accepted)
  }

  predicate QuoteWritten(db: Db, e: Event, k: QuoteKey, n: Quote)
    requires k in db.quotes && k.request in db.requests
  {
    var q, r, a := db.quotes[k], db.requests[k.request], e.action;
    var back := PutsBack(db, e, k.request);
    && n.price == q.price && n.eta == q.eta
    && n.accepted == (if a.DoAcceptQuote? && a.id == k.request && Succeeds(db, e) then k == a.quote
                      else q.accepted && !back)
    && n.withdrawnAt ==
       (if a.DoWithdrawQuote? && k == QuoteKey(a.id, a.mechanic) && Succeeds(db, e) then Some(e.now)
        else if back && q.accepted && (a.DoMechanicCancel? || r.urgency == Emergency) then Some(e.now)
        else q.withdrawnAt)
    && n.rejectedAt ==
       if a.DoRejectQuote? && a.quote == k && Succeeds(db, e) then Some(e.now) else q.rejectedAt
  }

  lemma RowByOffering(db: Db, e: Event, id: RequestId)
    requires JobsOk(db) && id in db.requests && Targets(e.action, id)
    requires e.action.DoBook? || e.action.DoSubmitQuote? || e.action.DoWithdrawQuote? || e.action.DoRejectQuote?
    ensures id in Next(db, e).requests && RowWritten(db, e, id, Next(db, e).requests[id])
  {
    assert Next(db, e).requests[id] == db.requests[id];
  }

  lemma RowByTaking(db: Db, e: Event, id: RequestId)
    requires JobsOk(db) && id in db.requests
    requires e.action.DoAcceptQuote? && e.action.id == id
    ensures id in Next(db, e).requests && RowWritten(db, e, id, Next(db, e).requests[id])
  {
  }

  lemma RowByClaiming(db: Db, e: Event, id: RequestId)
    requires JobsOk(db) && id in db.requests
    requires e.action.DoAcceptEmergency? && e.action.id == id
    ensures id in Next(db, e).requests && RowWritten(db, e, id, Next(db, e).requests[id])
  {
  }

  lemma MarkAdvanced(p: Progress, call: StatusStep, now: Time, step: StatusStep)
    ensures Mark(Advanced(p, call, now), step) ==
              if (call == step || (step == EnRoute && call == Arrived)) && Mark(p, step).None? then Some(now)
              else Mark(p, step)
  {
  }

  lemma RowByAdvancing(db: Db, e: Event, id: RequestId)
    requires id in db.requests && e.action.DoAdvance? && e.action.id == id
    ensures id in Next(db, e).requests && RowWritten(db, e, id, Next(db, e).requests[id])
  {
    var r, n := db.requests[id], Next(db, e).requests[id];
    assert n == if Succeeds(db, e) then r.(progress := Advanced(r.progress, e.action.step, e.now)) else r;
    forall step { MarkAdvanced(r.progress, e.action.step, e.now, step); }
  }

  lemma RowByAgreeing(db: Db, e: Event, id: RequestId)
    requires JobsOk(db) && id in db.requests && Targets(e.action, id)
    requires e.action.DoSetAgreed? || e.action.DoCancel?
    ensures id in Next(db, e).requests && RowWritten(db, e, id, Next(db, e).requests[id])
  {
  }

  lemma RowByPaying(db: Db, e: Event, id: RequestId)
    requires PaymentsOk(db) && LedgerOk(db) && id in db.requests && e.action.DoPay? && e.action.id == id
    ensures id in Next(db, e).requests && RowWritten(db, e, id, Next(db, e).requests[id])
  {
    if PayRefusal(db, e.action.client, id, e.action.expected).None? && db.requests[id].status != Completed {
      PaySettles(db, e.action, e.now);
      assert Next(db, e) == Settled(db, PaymentOf(db, e.action, e.now));
    } else {
      assert Next(db, e) == db;
    }
  }

  lemma RowByReturning(db: Db, e: Event, id: RequestId)
    requires JobsOk(db) && id in db.requests
    requires (e.action.DoReopen? || e.action.DoMechanicCancel?) && e.action.id == id
    ensures id in Next(db, e).requests && RowWritten(db, e, id, Next(db, e).requests[id])
  {
    assert RequestOk(db.requests[id]);
  }

  lemma RowByLapsing(db: Db, e: Event, id: RequestId)
    requires JobsOk(db) && id in db.requests
    requires e.action.DoExpire?
    ensures id in Next(db, e).requests && RowWritten(db, e, id, Next(db, e).requests[id])
  {
    assert RequestOk(db.requests[id]);
    assert Overdue(db.requests[id], e.now) <==> Lapsed(db, id, e.now);
  }

  /** Every column of every row after every call. */
  lemma RowsWritten(db: Db, e: Event, id: RequestId)
    requires Reachable(db) && id in db.requests
    ensures id in Next(db, e).requests && RowWritten(db, e, id, Next(db, e).requests[id])
  {
    ReachableInv(db);
    if !Targets(e.action, id) {
      OtherRowsUntouched(db, e, id);
    } else if e.action.DoExpire? {
      RowByLapsing(db, e, id);
    } else if e.action.DoReopen? || e.action.DoMechanicCancel? {
      RowByReturning(db, e, id);
    } else if e.action.DoPay? {
      RowByPaying(db, e, id);
    } else if e.action.DoAdvance? {
      RowByAdvancing(db, e, id);
    } else if e.action.DoSetAgreed? || e.action.DoCancel? {
      RowByAgreeing(db, e, id);
    } else if e.action.DoAcceptQuote? {
      RowByTaking(db, e, id);
    } else if e.action.DoAcceptEmergency? {
      RowByClaiming(db, e, id);
    } else {
      RowByOffering(db, e, id);
    }
  }

  /** A row appears only by booking, as the booking says. */
  lemma RowsAppear(db: Db, e: Event, id: RequestId)
    requires id !in db.requests
    ensures id in Next(db, e).requests <==> e.action.DoBook? && e.action.id == id && Succeeds(db, e)
    ensures id in Next(db, e).requests ==> BookedAs(e, Next(db, e).requests[id])
  {
    if !Targets(e.action, id) { OtherRowsUntouched(db, e, id); }
  }

  lemma QuoteByOffering(db: Db, e: Event, k: QuoteKey)
    requires JobsOk(db) && e.action.DoSubmitQuote? && e.action.id == k.request
    ensures QuotesWrittenAt(db, e, k)
  {
  }

  lemma QuoteByWithdrawing(db: Db, e: Event, k: QuoteKey)
    requires JobsOk(db) && e.action.DoWithdrawQuote? && e.action.id == k.request
    ensures QuotesWrittenAt(db, e, k)
  {
  }

  lemma QuoteByRejecting(db: Db, e: Event, k: QuoteKey)
    requires JobsOk(db) && e.action.DoRejectQuote? && e.action.id == k.request
    ensures QuotesWrittenAt(db, e, k)
  {
  }

  lemma QuoteByTaking(db: Db, e: Event, k: QuoteKey)
    requires JobsOk(db) && e.action.DoAcceptQuote? && e.action.id == k.request
    ensures QuotesWrittenAt(db, e, k)
  {
  }

  lemma QuoteByClaiming(db: Db, e: Event, k: QuoteKey)
    requires JobsOk(db) && e.action.DoAcceptEmergency? && e.action.id == k.request
    ensures QuotesWrittenAt(db, e, k)
  {
  }

  lemma QuoteByReturning(db: Db, e: Event, k: QuoteKey)
    requires JobsOk(db) && (e.action.DoReopen? || e.action.DoMechanicCancel?) && e.action.id == k.request
    ensures QuotesWrittenAt(db, e, k)
  {
    if k in db.quotes {
      assert QuoteOk(db.requests[k.request], k, db.quotes[k]) && RequestOk(db.requests[k.request]);
    }
  }

  lemma QuoteByLapsing(db: Db, e: Event, k: QuoteKey)
    requires JobsOk(db) && e.action.DoExpire?
    ensures QuotesWrittenAt(db, e, k)
  {
    if k in db.quotes {
      assert QuoteOk(db.requests[k.request], k, db.quotes[k]) && RequestOk(db.requests[k.request]);
      assert Overdue(db.requests[k.request], e.now) <==> Lapsed(db, k.request, e.now);
      var r, back := db.requests[k.request], PutsBack(db, e, k.request);
      assert Next(db, e).quotes[k] ==
             if back then PooledQuote(db.quotes[k], r.urgency == Emergency && r.mechanic == Some(k.mechanic), e.now)
             else db.quotes[k];
    }
  }

  lemma QuotesStay(db: Db, e: Event)
    requires e.action.DoBook? || e.action.DoAdvance? || e.action.DoSetAgreed? || e.action.DoPay? || e.action.DoCancel?
    ensures Next(db, e).quotes == db.quotes
  {
  }

  lemma QuoteByOther(db: Db, e: Event, k: QuoteKey)
    requires JobsOk(db)
    requires e.action.DoBook? || e.action.DoAdvance? || e.action.DoSetAgreed? || e.action.DoPay? || e.action.DoCancel?
    ensures QuotesWrittenAt(db, e, k)
  {
    QuotesStay(db, e);
    assert !Offers(db, e, k) && !PutsBack(db, e, k.request);
  }

  /** A quote appears only by an offer of its mechanic, and otherwise changes as QuoteWritten says. */
  predicate QuotesWrittenAt(db: Db, e: Event, k: QuoteKey) {
    var next := Next(db, e).quotes;
    if Offers(db, e, k) then k in next && OfferWritten(db, e, k, next[k])
    else
      && (k in next <==> k in db.quotes)
      && (k in db.quotes ==> k.request in db.requests && QuoteWritten(db, e, k, next[k]))
  }

  /** Every column of every quote after every call. */
  lemma QuotesWritten(db: Db, e: Event, k: QuoteKey)
    requires Reachable(db)
    ensures QuotesWrittenAt(db, e, k)
  {
    ReachableInv(db);
    if !Targets(e.action, k.request) {
      OtherQuotesUntouched(db, e, k);
    } else if e.action.DoExpire? {
      QuoteByLapsing(db, e, k);
    } else if e.action.DoReopen? || e.action.DoMechanicCancel? {
      QuoteByReturning(db, e, k);
    } else if e.action.DoBook? || e.action.DoAdvance? || e.action.DoSetAgreed? || e.action.DoPay?
              || e.action.DoCancel? {
      QuoteByOther(db, e, k);
    } else if e.action.DoAcceptQuote? {
      QuoteByTaking(db, e, k);
    } else if e.action.DoAcceptEmergency? {
      QuoteByClaiming(db, e, k);
    } else if e.action.DoSubmitQuote? {
      QuoteByOffering(db, e, k);
    } else if e.action.DoWithdrawQuote? {
      QuoteByWithdrawing(db, e, k);
    } else {
      QuoteByRejecting(db, e, k);
    }
  }

  // ----- The other tables -------------------------------------------------

  /** The policy in force is the one last set. */
  lemma PolicyWritten(db: Db, e: Event)
    ensures Next(db, e).policy == if e.action.DoSetPolicy? then e.action.policy else db.policy
  {
  }

  predicate Decides(db: Db, e: Event, id: AccountId, verdict: Verdict) {
    e.action == DoDecideVerification(true, id, verdict) && Succeeds(db, e)
  }

  predicate AccountWritten(db: Db, e: Event, id: AccountId, n: Account)
    requires id in db.accounts
  {
    var x := db.accounts[id];
    && n.user == x.user
    && n.status == (if Decides(db, e, id, Approve) then Approved else if Decides(db, e, id, Reject) then Rejected
                    else x.status)
    && n.escalated == (x.escalated || Decides(db, e, id, Escalate))
  }

  /** A verification row appears when it is asked for and takes one verdict. */
  lemma AccountsWritten(db: Db, e: Event, id: AccountId)
    ensures id in db.accounts ==> id in Next(db, e).accounts && AccountWritten(db, e, id, Next(db, e).accounts[id])
    ensures id !in db.accounts ==>
              var asked := e.action.DoSubmitVerification? && e.action.account == id && Succeeds(db, e);
              && (id in Next(db, e).accounts <==> asked)
              && (asked ==> Next(db, e).accounts[id] == Account(e.action.user, Waiting, false))
  {
    if !e.action.DoSubmitVerification? && !e.action.DoDecideVerification? {
      AccountsStay(db, e);
    }
  }

  lemma AccountsStay(db: Db, e: Event)
    requires !e.action.DoSubmitVerification? && !e.action.DoDecideVerification?
    ensures Next(db, e).accounts == db.accounts
  {
  }
}
