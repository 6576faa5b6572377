/** What holds over whole runs of the jobs domain, in any order and at any times. */
module JobsRuns {
  import opened Common
  import opened Jobs
  import opened JobsInvariant

  datatype Event = Event(action: Action, now: Time)

  function Next(db: Db, e: Event): Db {
    After(db, e.action, e.now)
  }

  predicate IsRun(states: seq<Db>, events: seq<Event>) {
    && |states| == |events| + 1
    && forall k {:trigger events[k]} :: 0 <= k < |events| ==> states[k + 1] == Next(states[k], events[k])
  }

  /** A state some run from the empty database ends in. */
  ghost predicate Reachable(db: Db) {
    exists states, events :: IsRun(states, events) && states[0] == EMPTY_DB && states[|events|] == db
  }

  lemma {:induction false} RunKeepsInv(states: seq<Db>, events: seq<Event>, n: nat)
    requires IsRun(states, events) && n < |states| && Inv(states[0])
    ensures Inv(states[n])
  {
    if n > 0 {
      RunKeepsInv(states, events, n - 1);
      InvKept(states[n - 1], events[n - 1].action, events[n - 1].now);
    }
  }

  /** Every invariant of JobsInvariant holds in every reachable state. */
  lemma ReachableInv(db: Db)
    requires Reachable(db)
    ensures Inv(db)
  {
    var states, events :| IsRun(states, events) && states[0] == EMPTY_DB && states[|events|] == db;
    RunKeepsInv(states, events, |events|);
  }

  lemma EmptyReachable()
    ensures Reachable(EMPTY_DB)
  {
    var states: seq<Db>, events: seq<Event> := [EMPTY_DB], [];
    assert IsRun(states, events) && states[0] == EMPTY_DB && states[|events|] == EMPTY_DB;
  }

  lemma ReachableNext(db: Db, e: Event)
    requires Reachable(db)
    ensures Reachable(Next(db, e))
  {
    var states, events :| IsRun(states, events) && states[0] == EMPTY_DB && states[|events|] == db;
    var longer, more := states + [Next(db, e)], events + [e];
    assert IsRun(longer, more) && longer[0] == EMPTY_DB && longer[|more|] == Next(db, e);
  }

  lemma {:induction false} RunReachable(states: seq<Db>, events: seq<Event>, n: nat)
    requires IsRun(states, events) && n < |states| && Reachable(states[0])
    ensures Reachable(states[n])
  {
    if n > 0 {
      RunReachable(states, events, n - 1);
      ReachableNext(states[n - 1], events[n - 1]);
    }
  }

  // ----- How one match lives and ends -------------------------------------

  predicate IsMatched(db: Db, id: RequestId) {
    id in db.requests && db.requests[id].status == Matched
  }

  predicate ProgressKept(p: Progress, n: Progress) {
    && (p.navigating.Some? ==> n.navigating == p.navigating)
    && (p.enRoute.Some? ==> n.enRoute == p.enRoute)
    && (p.arrived.Some? ==> n.arrived == p.arrived)
    && (p.workStarted.Some? ==> n.workStarted == p.workStarted)
    && (p.serviceCompleted.Some? ==> n.serviceCompleted == p.serviceCompleted)
  }

  /** The same match: mechanic, clock, deadline and accepted quote untouched, progress only added to. */
  predicate SameMatch(db: Db, next: Db, id: RequestId) {
    && IsMatched(db, id) && IsMatched(next, id)
    && next.requests[id].client == db.requests[id].client
    && next.requests[id].urgency == db.requests[id].urgency
    && next.requests[id].mechanic == db.requests[id].mechanic
    && next.requests[id].acceptedAt == db.requests[id].acceptedAt
    && next.requests[id].deadlineAt == db.requests[id].deadlineAt
    && HasAcceptedQuote(db, id) && HasAcceptedQuote(next, id)
    && AcceptedQuote(next, id) == AcceptedQuote(db, id)
    && ProgressKept(db.requests[id].progress, next.requests[id].progress)
  }

  /** A job with a mechanic, its clock, and that mechanic's quote. */
  predicate Backed(db: Db, id: RequestId) {
    && id in db.requests && db.requests[id].mechanic.Some? && db.requests[id].acceptedAt.Some?
    && QuoteKey(id, db.requests[id].mechanic.value) in db.quotes
  }

  /** The arrival the mechanic promised, read off the two rows: the accept plus the quoted minutes. */
  function Promised(db: Db, id: RequestId): Time
    requires Backed(db, id)
  {
    db.requests[id].acceptedAt.value + db.quotes[QuoteKey(id, db.requests[id].mechanic.value)].eta * 60_000
  }

  /** The client may leave: work has not started, and the mechanic arrived or the promised time has come. */
  predicate LeaveOpen(db: Db, id: RequestId, now: Time)
    requires IsMatched(db, id) && Backed(db, id)
  {
    var p := db.requests[id].progress;
    p.workStarted.None? && (p.arrived.Some? || Promised(db, id) <= now)
  }

  /** Exactly the calls that take a matched job out of its match. */
  predicate EndsMatch(db: Db, e: Event, id: RequestId)
    requires IsMatched(db, id) && Backed(db, id)
  {
    var r := db.requests[id];
    match e.action
    case DoCancel(client, i, _) => i == id && client == r.client && LeaveOpen(db, id, e.now)
    case DoReopen(client, i) => i == id && client == r.client && LeaveOpen(db, id, e.now)
    case DoMechanicCancel(mechanic, i, why) =>
      i == id && r.mechanic == Some(mechanic) && why != "" && r.urgency != Emergency
      && r.progress.navigating.None? && r.progress.enRoute.None?
    case DoExpire(ids) =>
      id in ids && r.progress.workStarted.None? && r.deadlineAt.Some? && r.deadlineAt.value <= e.now
    case DoPay(client, i, _, expected, _) =>
      i == id && client == r.client && r.progress.serviceCompleted.Some? && AmountDue(db, id).Some?
      && (expected.None? || expected == AmountDue(db, id))
    case _ => false
  }

  /** A matched job is always backed by its accepted quote, so the ETA-lock query finds its row. */
  lemma MatchIsBacked(db: Db, id: RequestId)
    requires RowsOk(db) && QuotesOk(db) && MatchesBacked(db) && IsMatched(db, id)
    ensures HasAcceptedQuote(db, id) && Backed(db, id) && Due(db, id) == Some(Promised(db, id))
    ensures Live(AcceptedQuote(db, id)) && EtaFits(db.requests[id].urgency, AcceptedQuote(db, id).eta)
  {
  }

  /** The job whose row and quotes an action may rewrite. */
  predicate Targets(a: Action, id: RequestId) {
    match a
    case DoBook(_, i, _) => i == id
    case DoSubmitQuote(_, i, _, _) => i == id
    case DoWithdrawQuote(_, i) => i == id
    case DoRejectQuote(_, i, _) => i == id
    case DoAcceptQuote(_, i, _) => i == id
    case DoAcceptEmergency(_, i, _) => i == id
    case DoAdvance(_, i, _) => i == id
    case DoSetAgreed(_, i, _) => i == id
    case DoPay(_, i, _, _, _) => i == id
    case DoCancel(_, i, _) => i == id
    case DoReopen(_, i) => i == id
    case DoMechanicCancel(_, i, _) => i == id
    case DoExpire(ids) => id in ids
    case _ => false
  }

  /** The row of one job and all its quotes are the same in both states. */
  predicate JobUntouched(db: Db, next: Db, id: RequestId) {
    && (id in db.requests <==> id in next.requests)
    && (id in db.requests ==> next.requests[id] == db.requests[id])
    && (forall k :: k in db.quotes && k.request == id ==> k in next.quotes && next.quotes[k] == db.quotes[k])
    && (forall k :: k in next.quotes && k.request == id ==> k in db.quotes)
  }

  lemma RowUntouchedByExpiry(db: Db, ids: set<RequestId>, now: Time, id: RequestId)
    requires id !in ids
    ensures id in db.requests <==> id in Expire(db, ids, now).requests
    ensures id in db.requests ==> Expire(db, ids, now).requests[id] == db.requests[id]
  {
  }

  lemma OtherRowsUntouched(db: Db, e: Event, id: RequestId)
    requires !Targets(e.action, id)
    ensures id in db.requests <==> id in Next(db, e).requests
    ensures id in db.requests ==> Next(db, e).requests[id] == db.requests[id]
  {
    if e.action.DoExpire? {
      RowUntouchedByExpiry(db, e.action.ids, e.now, id);
    }
  }

  lemma OtherQuotesUntouched(db: Db, e: Event, k: QuoteKey)
    requires !Targets(e.action, k.request)
    ensures k in db.quotes <==> k in Next(db, e).quotes
    ensures k in db.quotes ==> Next(db, e).quotes[k] == db.quotes[k]
  {
  }

  /** A call on one job leaves every other job as it is. */
  lemma OtherJobsUntouched(db: Db, e: Event, id: RequestId)
    requires !Targets(e.action, id)
    ensures JobUntouched(db, Next(db, e), id)
  {
    OtherRowsUntouched(db, e, id);
    var next := Next(db, e);
    forall k: QuoteKey | k.request == id
      ensures (k in db.quotes <==> k in next.quotes) && (k in db.quotes ==> next.quotes[k] == db.quotes[k])
    {
      OtherQuotesUntouched(db, e, k);
    }
  }

  lemma UntouchedMatch(db: Db, next: Db, id: RequestId)
    requires JobsOk(db) && IsMatched(db, id) && JobUntouched(db, next, id)
    ensures SameMatch(db, next, id)
  {
  }

  /** While a job is matched its accepted quote cannot be replaced, withdrawn or rejected. */
  lemma QuotingKeepsMatch(db: Db, e: Event, id: RequestId)
    requires JobsOk(db) && IsMatched(db, id)
    requires e.action.DoBook? || e.action.DoSubmitQuote? || e.action.DoWithdrawQuote? || e.action.DoRejectQuote?
             || e.action.DoAcceptQuote? || e.action.DoAcceptEmergency?
    requires e.action.id == id
    ensures SameMatch(db, Next(db, e), id)
  {
    MatchIsBacked(db, id);
  }

  lemma AdvancedKeeps(p: Progress, step: StatusStep, now: Time)
    ensures ProgressKept(p, Advanced(p, step, now))
  {
  }

  lemma ProgressKeepsRow(db: Db, e: Event, id: RequestId)
    requires IsMatched(db, id) && (e.action.DoAdvance? || e.action.DoSetAgreed?) && e.action.id == id
    ensures Next(db, e).quotes == db.quotes && IsMatched(Next(db, e), id)
    ensures var r, n := db.requests[id], Next(db, e).requests[id];
            ProgressKept(r.progress, n.progress) && n == r.(progress := n.progress, agreed := n.agreed)
  {
    if e.action.DoAdvance? {
      AdvancedKeeps(db.requests[id].progress, e.action.step, e.now);
    }
  }

  lemma ProgressKeepsMatch(db: Db, e: Event, id: RequestId)
    requires JobsOk(db) && IsMatched(db, id) && (e.action.DoAdvance? || e.action.DoSetAgreed?) && e.action.id == id
    ensures SameMatch(db, Next(db, e), id)
  {
    MatchIsBacked(db, id);
    ProgressKeepsRow(db, e, id);
  }

  predicate StatusIs(db: Db, id: RequestId, s: Status) {
    id in db.requests && db.requests[id].status == s
  }

  /** Where the call that ends a match leaves the job. */
  function EndStatus(a: Action): Status {
    if a.DoCancel? then Cancelled else if a.DoPay? then Completed else Pending
  }

  predicate ClearVerdict(db: Db, e: Event, id: RequestId)
    requires IsMatched(db, id) && Backed(db, id)
  {
    if EndsMatch(db, e, id)
    then Perform(db, e.action, e.now).Done? && StatusIs(Next(db, e), id, EndStatus(e.action))
    else SameMatch(db, Next(db, e), id)
  }

  lemma CancelVerdict(db: Db, e: Event, id: RequestId)
    requires JobsOk(db) && IsMatched(db, id) && Backed(db, id)
    requires e.action.DoCancel? && e.action.id == id
    ensures ClearVerdict(db, e, id)
  {
    MatchIsBacked(db, id);
  }

  lemma ReopenVerdict(db: Db, e: Event, id: RequestId)
    requires JobsOk(db) && IsMatched(db, id) && Backed(db, id)
    requires e.action.DoReopen? && e.action.id == id
    ensures ClearVerdict(db, e, id)
  {
    MatchIsBacked(db, id);
    assert ClientMayLeave(db, id, e.now) <==> LeaveOpen(db, id, e.now);
  }

  lemma MechanicCancelVerdict(db: Db, e: Event, id: RequestId)
    requires JobsOk(db) && IsMatched(db, id) && Backed(db, id)
    requires e.action.DoMechanicCancel? && e.action.id == id
    ensures ClearVerdict(db, e, id)
  {
    MatchIsBacked(db, id);
    assert RequestOk(db.requests[id]);
  }

  lemma NotExpiredUntouched(db: Db, ids: set<RequestId>, now: Time, id: RequestId)
    requires id in db.requests && !(id in ids && Overdue(db.requests[id], now))
    ensures JobUntouched(db, Expire(db, ids, now), id)
  {
  }

  lemma ExpireVerdict(db: Db, e: Event, id: RequestId)
    requires JobsOk(db) && IsMatched(db, id) && Backed(db, id)
    requires e.action.DoExpire?
    ensures ClearVerdict(db, e, id)
  {
    assert RequestOk(db.requests[id]);
    if !EndsMatch(db, e, id) {
      NotExpiredUntouched(db, e.action.ids, e.now, id);
      UntouchedMatch(db, Next(db, e), id);
    }
  }

  /** A payment of a matched job goes ahead exactly when EndsMatch says so. */
  lemma PayPermitted(db: Db, e: Event, id: RequestId)
    requires IsMatched(db, id) && Backed(db, id) && db.requests[id].mechanic.Some? && e.action.DoPay?
    requires e.action.id == id
    ensures EndsMatch(db, e, id) <==> PayRefusal(db, e.action.client, id, e.action.expected).None?
  {
  }

  lemma PayCompletes(db: Db, e: Event, id: RequestId)
    requires PaymentsOk(db) && LedgerOk(db) && IsMatched(db, id) && e.action.DoPay? && e.action.id == id
    requires PayRefusal(db, e.action.client, id, e.action.expected).None?
    ensures Perform(db, e.action, e.now).Done? && StatusIs(Next(db, e), id, Completed)
  {
    PaySettles(db, e.action, e.now);
  }

  lemma RefusedPayKeeps(db: Db, e: Event, id: RequestId)
    requires e.action.DoPay? && PayRefusal(db, e.action.client, e.action.id, e.action.expected).Some?
    ensures Next(db, e) == db
  {
  }

  lemma PayVerdict(db: Db, e: Event, id: RequestId)
    requires JobsOk(db) && PaymentsOk(db) && LedgerOk(db) && IsMatched(db, id) && Backed(db, id)
    requires e.action.DoPay? && e.action.id == id
    ensures ClearVerdict(db, e, id)
  {
    MatchIsBacked(db, id);
    PayPermitted(db, e, id);
    if EndsMatch(db, e, id) {
      PayCompletes(db, e, id);
    } else {
      RefusedPayKeeps(db, e, id);
    }
  }

  /** A match ends on exactly the calls of EndsMatch, each of which succeeds, and any other call leaves it alone. */
  lemma MatchEndsExactly(db: Db, e: Event, id: RequestId)
    requires Reachable(db) && IsMatched(db, id)
    ensures Backed(db, id) && ClearVerdict(db, e, id)
  {
    ReachableInv(db);
    MatchIsBacked(db, id);
    if !Targets(e.action, id) {
      OtherJobsUntouched(db, e, id);
      UntouchedMatch(db, Next(db, e), id);
    } else if e.action.DoCancel? {
      CancelVerdict(db, e, id);
    } else if e.action.DoReopen? {
      ReopenVerdict(db, e, id);
    } else if e.action.DoMechanicCancel? {
      MechanicCancelVerdict(db, e, id);
    } else if e.action.DoExpire? {
      ExpireVerdict(db, e, id);
    } else if e.action.DoPay? {
      PayVerdict(db, e, id);
    } else if e.action.DoAdvance? || e.action.DoSetAgreed? {
      ProgressKeepsMatch(db, e, id);
    } else {
      QuotingKeepsMatch(db, e, id);
    }
  }

  // ----- Requests and quotes stay in step ---------------------------------

  /** The accepted quotes of a job: none without a mechanic, that mechanic's alone with one. */
  predicate Coupled(db: Db, id: RequestId)
    requires id in db.requests
  {
    var r := db.requests[id];
    && (r.mechanic.Some? ==> HasAcceptedQuote(db, id) && Live(AcceptedQuote(db, id)))
    && (forall k :: k in db.quotes && k.request == id && db.quotes[k].accepted ==> r.mechanic == Some(k.mechanic))
    && (r.status == Pending ==> r == NewRequest(r.client, r.urgency).(stamps := r.stamps))
    && (r.status == Matched || r.status == Completed ==> r.mechanic.Some?)
    && (r.urgency == Emergency ==>
          forall k :: k in db.quotes && k.request == id && !db.quotes[k].accepted ==> db.quotes[k].withdrawnAt.Some?)
  }

  /**
   * In every reachable state a job has a mechanic exactly when one quote of it
   * is accepted, which is that mechanic's and live; a pending job is as clean
   * as a new one; and an Emergency's other quotes are all withdrawn.
   */
  lemma MatchQuoteCoupling(db: Db, id: RequestId)
    requires Reachable(db) && id in db.requests
    ensures Coupled(db, id)
    ensures db.requests[id].mechanic.Some? <==> exists k :: k in db.quotes && k.request == id && db.quotes[k].accepted
  {
    ReachableInv(db);
    assert RequestOk(db.requests[id]);
    if db.requests[id].mechanic.Some? {
      var k := QuoteKey(id, db.requests[id].mechanic.value);
      assert k in db.quotes && QuoteOk(db.requests[id], k, db.quotes[k]);
    }
    forall k | k in db.quotes && k.request == id ensures QuoteOk(db.requests[id], k, db.quotes[k]) {
    }
  }

  // ----- The ETA guarantee ------------------------------------------------

  /** The arrival the mechanic promised never falls after the completion deadline. */
  lemma ArrivalBeforeDeadline(db: Db, id: RequestId)
    requires JobsOk(db) && IsMatched(db, id)
    ensures Backed(db, id)
    ensures db.requests[id].deadlineAt.Some? ==> Promised(db, id) <= db.requests[id].deadlineAt.value
  {
  }

  /** The mechanic is committed: the job is an Emergency, or they have set off. */
  predicate Bound(r: Request) {
    r.urgency == Emergency || r.progress.navigating.Some? || r.progress.enRoute.Some?
  }

  /**
   * Inside the promised time and before arrival, no client call and no sweep
   * ends the match; once the mechanic is committed, nothing does.
   */
  lemma EtaGuarantee(db: Db, e: Event, id: RequestId)
    requires Reachable(db) && IsMatched(db, id) && db.requests[id].progress.arrived.None?
    requires Backed(db, id) && e.now < Promised(db, id)
    ensures SameMatch(db, Next(db, e), id)
            || (e.action.DoMechanicCancel? && db.requests[id].mechanic == Some(e.action.mechanic))
    ensures Bound(db.requests[id]) ==> SameMatch(db, Next(db, e), id)
  {
    MatchEndsExactly(db, e, id);
    ReachableInv(db);
    ArrivalBeforeDeadline(db, id);
    assert RequestOk(db.requests[id]);
  }

  lemma SameMatchTrans(a: Db, b: Db, c: Db, id: RequestId)
    requires SameMatch(a, b, id) && SameMatch(b, c, id)
    ensures SameMatch(a, c, id)
  {
  }

  /**
   * Over any run: a committed match stands, with its mechanic, clock and quote,
   * up to the promised arrival time, unless the mechanic arrives first.
   */
  lemma {:induction false} EtaGuaranteeOverRuns(states: seq<Db>, events: seq<Event>, id: RequestId, n: nat)
    requires IsRun(states, events) && n < |states|
    requires Reachable(states[0]) && IsMatched(states[0], id) && Bound(states[0].requests[id])
    requires Backed(states[0], id)
    requires forall k :: 0 <= k < n ==> events[k].now < Promised(states[0], id)
    requires forall k :: 0 <= k < n && IsMatched(states[k], id) ==> states[k].requests[id].progress.arrived.None?
    ensures SameMatch(states[0], states[n], id)
  {
    if n == 0 {
      MatchHolds(states[0], id);
    } else {
      EtaGuaranteeOverRuns(states, events, id, n - 1);
      RunReachable(states, events, n - 1);
      EtaGuarantee(states[n - 1], events[n - 1], id);
      SameMatchTrans(states[0], states[n - 1], states[n], id);
    }
  }

  lemma MatchHolds(db: Db, id: RequestId)
    requires Reachable(db) && IsMatched(db, id)
    ensures SameMatch(db, db, id) && Backed(db, id)
  {
    ReachableInv(db);
    MatchIsBacked(db, id);
  }

  // ----- One winner -------------------------------------------------------

  /** The call matches the job to a mechanic. */
  predicate Wins(db: Db, e: Event, id: RequestId) {
    (e.action.DoAcceptQuote? || e.action.DoAcceptEmergency?) && e.action.id == id && Perform(db, e.action, e.now).Done?
  }

  /** The call puts the job back in the pool. */
  predicate Returns(db: Db, e: Event, id: RequestId) {
    || ((e.action.DoReopen? || e.action.DoMechanicCancel?) && e.action.id == id && Perform(db, e.action, e.now).Done?)
    || (e.action.DoExpire? && id in e.action.ids && id in db.requests && Overdue(db.requests[id], e.now))
  }

  function Held(db: Db, id: RequestId): int {
    if id in db.requests && db.requests[id].mechanic.Some? then 1 else 0
  }

  /** What a step adds to accepts less returns. */
  function WinGain(db: Db, e: Event, id: RequestId): int {
    (if Wins(db, e, id) then 1 else 0) - (if Returns(db, e, id) then 1 else 0)
  }

  /** Successful accepts less returns to the pool, over the first n steps. */
  function NetWins(states: seq<Db>, events: seq<Event>, id: RequestId, n: nat): int
    requires |events| <= |states| && n <= |events|
  {
    if n == 0 then 0
    else NetWins(states, events, id, n - 1) + WinGain(states[n - 1], events[n - 1], id)
  }

  lemma WinOrReturnHere(db: Db, e: Event, id: RequestId)
    requires Targets(e.action, id) && (id in db.requests ==> RequestOk(db.requests[id]))
    ensures Held(Next(db, e), id) - Held(db, id) == WinGain(db, e, id)
  {
  }

  lemma WinOrReturn(db: Db, e: Event, id: RequestId)
    requires RowsOk(db)
    ensures Held(Next(db, e), id) - Held(db, id) == WinGain(db, e, id)
  {
    if Targets(e.action, id) {
      WinOrReturnHere(db, e, id);
    } else {
      OtherRowsUntouched(db, e, id);
    }
  }

  lemma HeldNext(states: seq<Db>, events: seq<Event>, id: RequestId, n: nat)
    requires IsRun(states, events) && n < |events| && Reachable(states[0])
    ensures Held(states[n + 1], id) == Held(states[n], id) + WinGain(states[n], events[n], id)
  {
    assert RowsOk(states[n]) by {
      RunReachable(states, events, n);
      ReachableInv(states[n]);
    }
    WinOrReturn(states[n], events[n], id);
  }

  /** Accepts and returns of a job alternate: their difference is 1 while it has a mechanic and 0 otherwise. */
  lemma {:induction false} OneWinner(states: seq<Db>, events: seq<Event>, id: RequestId, n: nat)
    requires IsRun(states, events) && n <= |events| && Reachable(states[0]) && id !in states[0].requests
    ensures NetWins(states, events, id, n) == Held(states[n], id)
  {
    if n > 0 {
      OneWinner(states, events, id, n - 1);
      HeldNext(states, events, id, n - 1);
    }
  }

  // ----- What never changes back ------------------------------------------

  predicate Closed(r: Request) {
    r.status == Completed || r.status == Cancelled
  }

  /** How a row may change over any number of steps. */
  predicate RowEvolves(r: Request, n: Request) {
    && n.client == r.client && n.urgency == r.urgency && n.surcharge == r.surcharge
    && (Closed(r) ==> n == r)
    && (r.progress.workStarted.Some? && !Closed(r) ==>
          && n.mechanic == r.mechanic && n.acceptedAt == r.acceptedAt && n.deadlineAt == r.deadlineAt
          && (n.status == Matched || n.status == Completed)
          && ProgressKept(r.progress, n.progress))
  }

  /** A rejected quote stays rejected and is never accepted. */
  predicate QuoteEvolves(q: Quote, n: Quote) {
    q.rejectedAt.Some? ==> n.rejectedAt == q.rejectedAt && !n.accepted
  }

  lemma RowEvolvesTrans(a: Request, b: Request, c: Request)
    requires RowEvolves(a, b) && RowEvolves(b, c)
    ensures RowEvolves(a, c)
  {
  }

  lemma IdentityKept(db: Db, e: Event, id: RequestId)
    requires id in db.requests && Targets(e.action, id)
    ensures id in Next(db, e).requests
    ensures var r, n := db.requests[id], Next(db, e).requests[id];
            n.client == r.client && n.urgency == r.urgency && n.surcharge == r.surcharge
  {
  }

  lemma ClosedRowKept(db: Db, e: Event, id: RequestId)
    requires id in db.requests && Closed(db.requests[id]) && Targets(e.action, id)
    ensures Next(db, e).requests[id] == db.requests[id]
  {
  }

  lemma WorkingRowKept(db: Db, e: Event, id: RequestId)
    requires IsMatched(db, id) && ProgressOk(db.requests[id].progress) && db.requests[id].progress.workStarted.Some?
    requires Targets(e.action, id)
    ensures RowEvolves(db.requests[id], Next(db, e).requests[id])
  {
    if e.action.DoAdvance? {
      AdvancedKeeps(db.requests[id].progress, e.action.step, e.now);
    } else {
      IdentityKept(db, e, id);
    }
  }

  lemma RowStep(db: Db, e: Event, id: RequestId)
    requires RowsOk(db) && id in db.requests
    ensures id in Next(db, e).requests && RowEvolves(db.requests[id], Next(db, e).requests[id])
  {
    assert RequestOk(db.requests[id]);
    if !Targets(e.action, id) {
      OtherJobsUntouched(db, e, id);
    } else {
      IdentityKept(db, e, id);
      if Closed(db.requests[id]) {
        ClosedRowKept(db, e, id);
      } else if db.requests[id].progress.workStarted.Some? {
        WorkingRowKept(db, e, id);
      }
    }
  }

  lemma QuotingQuoteStep(db: Db, e: Event, k: QuoteKey)
    requires JobsOk(db) && k in db.quotes
    requires e.action.DoBook? || e.action.DoSubmitQuote? || e.action.DoWithdrawQuote? || e.action.DoRejectQuote?
    ensures k in Next(db, e).quotes && QuoteEvolves(db.quotes[k], Next(db, e).quotes[k])
    ensures db.quotes[k].accepted ==> Next(db, e).quotes[k] == db.quotes[k]
  {
  }

  lemma MatchingQuoteStep(db: Db, e: Event, k: QuoteKey)
    requires QuoteOkAt(db, k) && (e.action.DoAcceptQuote? || e.action.DoAcceptEmergency?)
    ensures k in Next(db, e).quotes && QuoteEvolves(db.quotes[k], Next(db, e).quotes[k])
    ensures StatusIs(db, k.request, Completed) ==> Next(db, e).quotes[k] == db.quotes[k]
  {
  }

  predicate QuoteOkAt(db: Db, k: QuoteKey) {
    k in db.quotes && k.request in db.requests && QuoteOk(db.requests[k.request], k, db.quotes[k])
  }

  /** Withdrawing and un-accepting never touch a rejection, and a completed job's quotes are left alone. */
  lemma ReleasingQuoteStep(db: Db, e: Event, k: QuoteKey)
    requires QuoteOkAt(db, k) && (e.action.DoReopen? || e.action.DoMechanicCancel? || e.action.DoExpire?)
    ensures k in Next(db, e).quotes && QuoteEvolves(db.quotes[k], Next(db, e).quotes[k])
    ensures StatusIs(db, k.request, Completed) ==> Next(db, e).quotes[k] == db.quotes[k]
  {
  }

  lemma OtherQuoteStep(db: Db, e: Event, k: QuoteKey)
    requires QuoteOkAt(db, k)
    requires e.action.DoAdvance? || e.action.DoSetAgreed? || e.action.DoPay? || e.action.DoCancel?
             || e.action.DoConvert?
             || e.action.DoSetPolicy? || e.action.DoSubmitVerification? || e.action.DoDecideVerification?
    ensures Next(db, e).quotes == db.quotes && QuoteEvolves(db.quotes[k], db.quotes[k])
  {
  }

  lemma QuoteStep(db: Db, e: Event, k: QuoteKey)
    requires JobsOk(db) && k in db.quotes
    ensures k in Next(db, e).quotes && QuoteEvolves(db.quotes[k], Next(db, e).quotes[k])
    ensures StatusIs(db, k.request, Completed) && db.quotes[k].accepted ==> Next(db, e).quotes[k] == db.quotes[k]
  {
    assert QuoteOkAt(db, k);
    if e.action.DoBook? || e.action.DoSubmitQuote? || e.action.DoWithdrawQuote? || e.action.DoRejectQuote? {
      QuotingQuoteStep(db, e, k);
    } else if e.action.DoAcceptQuote? || e.action.DoAcceptEmergency? {
      MatchingQuoteStep(db, e, k);
    } else if e.action.DoReopen? || e.action.DoMechanicCancel? || e.action.DoExpire? {
      ReleasingQuoteStep(db, e, k);
    } else {
      OtherQuoteStep(db, e, k);
    }
  }

  lemma MoneyGrows(db: Db, e: Event)
    ensures db.payments <= Next(db, e).payments && db.ledger <= Next(db, e).ledger
  {
    match e.action
    case DoPay(_, _, _, _, _) =>
    case DoConvert(_, _) =>
    case _ =>
  }

  lemma RowAt(states: seq<Db>, events: seq<Event>, k: nat, id: RequestId)
    requires IsRun(states, events) && k < |events| && Reachable(states[0]) && id in states[k].requests
    ensures id in states[k + 1].requests && RowEvolves(states[k].requests[id], states[k + 1].requests[id])
  {
    RunReachable(states, events, k);
    ReachableInv(states[k]);
    RowStep(states[k], events[k], id);
  }

  lemma QuoteAt(states: seq<Db>, events: seq<Event>, n: nat, k: QuoteKey)
    requires IsRun(states, events) && n < |events| && Reachable(states[0]) && k in states[n].quotes
    ensures k in states[n + 1].quotes && QuoteEvolves(states[n].quotes[k], states[n + 1].quotes[k])
  {
    RunReachable(states, events, n);
    ReachableInv(states[n]);
    QuoteStep(states[n], events[n], k);
  }

  lemma RowHere(db: Db, id: RequestId)
    requires Reachable(db) && id in db.requests
    ensures RowEvolves(db.requests[id], db.requests[id])
  {
    ReachableInv(db);
    assert RequestOk(db.requests[id]);
  }

  lemma RejectedNotAccepted(db: Db, k: QuoteKey)
    requires Reachable(db) && k in db.quotes
    ensures QuoteEvolves(db.quotes[k], db.quotes[k])
  {
    ReachableInv(db);
    assert QuoteOk(db.requests[k.request], k, db.quotes[k]);
  }

  /** Between any two moments of a run a row only changes as RowEvolves allows. */
  lemma {:induction false} RunRow(states: seq<Db>, events: seq<Event>, i: nat, d: nat, id: RequestId)
    requires IsRun(states, events) && i + d < |states| && Reachable(states[0]) && id in states[i].requests
    ensures id in states[i + d].requests && RowEvolves(states[i].requests[id], states[i + d].requests[id])
  {
    if d == 0 {
      RunReachable(states, events, i);
      RowHere(states[i], id);
    } else {
      RunRow(states, events, i, d - 1, id);
      RowAt(states, events, i + d - 1, id);
      RowEvolvesTrans(states[i].requests[id], states[i + d - 1].requests[id], states[i + d].requests[id]);
    }
  }

  lemma {:induction false} RunPayments(states: seq<Db>, events: seq<Event>, i: nat, d: nat)
    requires IsRun(states, events) && i + d < |states|
    ensures states[i].payments <= states[i + d].payments && states[i].ledger <= states[i + d].ledger
  {
    if d > 0 {
      RunPayments(states, events, i, d - 1);
      MoneyGrows(states[i + d - 1], events[i + d - 1]);
    }
  }

  /**
   * The point of no return: from the moment work starts the parties and the
   * clock of a job are fixed for the rest of every run, and it can only stay
   * matched or be completed.
   */
  lemma PointOfNoReturn(states: seq<Db>, events: seq<Event>, i: nat, j: nat, id: RequestId)
    requires IsRun(states, events) && i <= j < |states| && Reachable(states[0])
    requires id in states[i].requests && states[i].requests[id].progress.workStarted.Some?
    ensures id in states[j].requests
    ensures var r, n := states[i].requests[id], states[j].requests[id];
            && n.client == r.client && n.mechanic == r.mechanic && n.mechanic.Some? && n.acceptedAt == r.acceptedAt
            && (n.status == Matched || n.status == Completed)
            && n.progress.arrived == r.progress.arrived && n.progress.workStarted == r.progress.workStarted
  {
    RunRow(states, events, i, j - i, id);
    RunReachable(states, events, i);
    ReachableInv(states[i]);
    assert RequestOk(states[i].requests[id]);
  }

  /** A quote the client rejected is never accepted in any later state, and stays rejected. */
  lemma {:induction false} RejectedForever(states: seq<Db>, events: seq<Event>, i: nat, d: nat, k: QuoteKey)
    requires IsRun(states, events) && i + d < |states| && Reachable(states[0])
    requires k in states[i].quotes && states[i].quotes[k].rejectedAt.Some?
    ensures k in states[i + d].quotes
    ensures states[i + d].quotes[k].rejectedAt == states[i].quotes[k].rejectedAt && !states[i + d].quotes[k].accepted
  {
    if d == 0 {
      RunReachable(states, events, i);
      RejectedNotAccepted(states[i], k);
    } else {
      RejectedForever(states, events, i, d - 1, k);
      QuoteAt(states, events, i + d - 1, k);
    }
  }

  /**
   * A mechanic once approved is approved in every later state, so the check made before the transaction
   * cannot go stale.
   */
  lemma {:induction false} ApprovedForever(states: seq<Db>, events: seq<Event>, i: nat, d: nat, u: UserId)
    requires IsRun(states, events) && i + d < |states| && IsApproved(states[i], u)
    ensures IsApproved(states[i + d], u)
  {
    if d > 0 {
      ApprovedForever(states, events, i, d - 1, u);
      var e := events[i + d - 1];
      ApprovalForever(states[i + d - 1], e.action, e.now, u);
    }
  }

  // ----- Settlement -------------------------------------------------------

  /** A job is completed exactly when it has a payment, and then it has one. */
  lemma CompletedIffPaidOnce(db: Db, id: RequestId)
    requires Reachable(db)
    ensures StatusIs(db, id, Completed) <==> HasPayment(db.payments, id)
    ensures forall i, j :: 0 <= i < j < |db.payments| ==> db.payments[i].request != id || db.payments[j].request != id
  {
    assert PaymentsOk(db) by { ReachableInv(db); }
    if HasPayment(db.payments, id) {
      var p :| p in db.payments && p.request == id;
      assert PaymentOk(db, p);
    }
  }

  lemma PaymentUnique(db: Db, p: Payment)
    requires PaymentsOk(db) && p in db.payments
    ensures PaymentOk(db, p) && forall x :: x in db.payments && x.request == p.request ==> x == p
  {
  }

  /** Once a job is paid, its row, its payment and what it owed are the same in every later state. */
  lemma SettlementIsFinal(states: seq<Db>, events: seq<Event>, i: nat, j: nat, p: Payment)
    requires IsRun(states, events) && i <= j < |states| && Reachable(states[0]) && p in states[i].payments
    ensures p in states[j].payments && PaymentOk(states[i], p) && PaymentOk(states[j], p)
    ensures states[j].requests[p.request] == states[i].requests[p.request]
    ensures forall x :: x in states[j].payments && x.request == p.request ==> x == p
  {
    RunReachable(states, events, i);
    RunReachable(states, events, j);
    RunPayments(states, events, i, j - i);
    assert p in states[j].payments[..|states[i].payments|];
    PaidOnceAt(states[i], p);
    PaidOnceAt(states[j], p);
    RunRow(states, events, i, j - i, p.request);
  }

  lemma PaidOnceAt(db: Db, p: Payment)
    requires Reachable(db) && p in db.payments
    ensures PaymentOk(db, p) && forall x :: x in db.payments && x.request == p.request ==> x == p
  {
    ReachableInv(db);
    PaymentUnique(db, p);
  }

  /** The mechanic really set the agreed amount. */
  predicate Agrees(db: Db, e: Event, id: RequestId) {
    e.action.DoSetAgreed? && e.action.id == id && Perform(db, e.action, e.now).Done?
  }

  predicate Engaged(db: Db, id: RequestId) {
    StatusIs(db, id, Matched) || StatusIs(db, id, Completed)
  }

  lemma AgreedOnlyThen(db: Db, e: Event, id: RequestId)
    requires Engaged(db, id) && Engaged(Next(db, e), id) && !Agrees(db, e, id)
    ensures Next(db, e).requests[id].agreed == db.requests[id].agreed
  {
    if !Targets(e.action, id) {
      OtherJobsUntouched(db, e, id);
    }
  }

  /** What is owed on a matched job moves only with the mechanic's agreed amount. */
  lemma OwedStep(db: Db, e: Event, id: RequestId)
    requires Reachable(db) && IsMatched(db, id)
    requires !Agrees(db, e, id) && !StatusIs(Next(db, e), id, Pending)
    ensures id in Next(db, e).requests && AmountDue(Next(db, e), id) == AmountDue(db, id)
  {
    MatchEndsExactly(db, e, id);
    ReachableInv(db);
    if !Targets(e.action, id) {
      OtherJobsUntouched(db, e, id);
    } else if EndsMatch(db, e, id) {
      if e.action.DoPay? {
        PaySettles(db, e.action, e.now);
      }
    } else {
      AgreedOnlyThen(db, e, id);
    }
  }

  /**
   * The client pays what was owed: from a state where a matched job owes an
   * amount, if the mechanic does not set another one and the job does not go
   * back to the pool, its payment is of that amount.
   */
  lemma PaidWhatWasOwed(states: seq<Db>, events: seq<Event>, i: nat, d: nat, p: Payment)
    requires IsRun(states, events) && i + d < |states| && Reachable(states[0]) && IsMatched(states[i], p.request)
    requires HeldTo(states, events, i, d, p.request) && p in states[i + d].payments
    ensures Some(p.amount) == AmountDue(states[i], p.request)
  {
    OwedOverRun(states, events, i, d, p.request);
    RunReachable(states, events, i + d);
    PaidOnceAt(states[i + d], p);
  }

  /** Step k agrees no amount and does not put the job back in the pool. */
  predicate HoldsAt(states: seq<Db>, events: seq<Event>, k: nat, id: RequestId) {
    k + 1 < |states| && k < |events| && !Agrees(states[k], events[k], id) && !StatusIs(states[k + 1], id, Pending)
  }

  predicate HeldTo(states: seq<Db>, events: seq<Event>, i: nat, d: nat, id: RequestId) {
    forall k :: i <= k < i + d ==> HoldsAt(states, events, k, id)
  }

  /** The job is still open or completed and owes the same, or it was cancelled. */
  predicate OwesStill(db: Db, next: Db, id: RequestId)
    requires id in db.requests
  {
    && id in next.requests
    && next.requests[id].status != Pending
    && (next.requests[id].status != Cancelled ==> AmountDue(next, id) == AmountDue(db, id))
  }

  lemma {:induction false} OwedOverRun(states: seq<Db>, events: seq<Event>, i: nat, d: nat, id: RequestId)
    requires IsRun(states, events) && i + d < |states| && Reachable(states[0]) && IsMatched(states[i], id)
    requires HeldTo(states, events, i, d, id)
    ensures OwesStill(states[i], states[i + d], id)
  {
    if d > 0 {
      OwedOverRun(states, events, i, d - 1, id);
      RunReachable(states, events, i + d - 1);
      var e := events[i + d - 1];
      assert HoldsAt(states, events, i + d - 1, id);
      OwesStep(states[i], states[i + d - 1], e, id);
    }
  }

  lemma OwesStep(first: Db, db: Db, e: Event, id: RequestId)
    requires Reachable(db) && id in first.requests && OwesStill(first, db, id)
    requires !Agrees(db, e, id) && !StatusIs(Next(db, e), id, Pending)
    ensures OwesStill(first, Next(db, e), id)
  {
    if IsMatched(db, id) {
      OwedStep(db, e, id);
    } else {
      ClosedOwesSame(db, e, id);
    }
  }

  lemma ClosedOwesSame(db: Db, e: Event, id: RequestId)
    requires Reachable(db) && id in db.requests && Closed(db.requests[id])
    ensures id in Next(db, e).requests && Next(db, e).requests[id] == db.requests[id]
    ensures StatusIs(db, id, Completed) ==> AmountDue(Next(db, e), id) == AmountDue(db, id)
  {
    ReachableInv(db);
    RowStep(db, e, id);
    assert RequestOk(db.requests[id]);
    if StatusIs(db, id, Completed) {
      var k := QuoteKey(id, db.requests[id].mechanic.value);
      assert QuoteOk(db.requests[id], k, db.quotes[k]);
      QuoteStep(db, e, k);
    }
  }

  /** Accepting a quote makes the job owe its price; an Emergency owes the amount last agreed. */
  lemma OwedFrom(db: Db, e: Event)
    requires JobsOk(db) && Perform(db, e.action, e.now).Done?
    ensures e.action.DoAcceptQuote? ==>
              IsMatched(Next(db, e), e.action.id)
              && AmountDue(Next(db, e), e.action.id) == Some(db.quotes[e.action.quote].price)
    ensures e.action.DoSetAgreed? ==>
              IsMatched(Next(db, e), e.action.id) && AmountDue(Next(db, e), e.action.id) == Some(e.action.amount)
  {
  }

  lemma AcceptReachable(states: seq<Db>, events: seq<Event>, i: nat)
    requires IsRun(states, events) && i < |events| && Reachable(states[0])
    ensures JobsOk(states[i])
  {
    RunReachable(states, events, i);
    ReachableInv(states[i]);
  }

  /** A quoted job keeps its urgency, so no agreed amount is ever taken for it. */
  lemma QuotedNeverAgrees(states: seq<Db>, events: seq<Event>, i: nat, k: nat, id: RequestId)
    requires IsRun(states, events) && i <= k < |events| && Reachable(states[0])
    requires id in states[i].requests && states[i].requests[id].urgency != Emergency
    ensures !Agrees(states[k], events[k], id)
  {
    RunRow(states, events, i, k - i, id);
  }

  predicate OutOfPool(states: seq<Db>, id: RequestId, i: nat, n: nat)
    requires n < |states|
  {
    forall k :: i < k <= n ==> !StatusIs(states[k], id, Pending)
  }

  lemma QuotedHolds(states: seq<Db>, events: seq<Event>, i: nat, n: nat, id: RequestId)
    requires IsRun(states, events) && i < n < |states| && Reachable(states[0]) && OutOfPool(states, id, i, n)
    requires id in states[i].requests && states[i].requests[id].urgency != Emergency
    ensures HeldTo(states, events, i + 1, n - i - 1, id)
  {
    forall k | i + 1 <= k < n ensures HoldsAt(states, events, k, id) {
      QuotedNeverAgrees(states, events, i, k, id);
      assert !StatusIs(states[k + 1], id, Pending);
    }
  }

  lemma AcceptOwes(states: seq<Db>, events: seq<Event>, i: nat)
    requires IsRun(states, events) && i < |events| && Reachable(states[0])
    requires events[i].action.DoAcceptQuote? && Perform(states[i], events[i].action, events[i].now).Done?
    ensures var a := events[i].action;
            && a.id in states[i].requests && states[i].requests[a.id].urgency != Emergency
            && IsMatched(states[i + 1], a.id)
            && a.quote in states[i].quotes && AmountDue(states[i + 1], a.id) == Some(states[i].quotes[a.quote].price)
  {
    AcceptReachable(states, events, i);
    OwedFrom(states[i], events[i]);
  }

  /**
   * The client pays the price the accepted quote had at the moment of acceptance, whatever happens to quotes
   * meanwhile.
   */
  lemma PaidThePriceAccepted(states: seq<Db>, events: seq<Event>, i: nat, n: nat, p: Payment)
    requires IsRun(states, events) && i < n < |states| && Reachable(states[0])
    requires events[i].action.DoAcceptQuote? && Perform(states[i], events[i].action, events[i].now).Done?
    requires p in states[n].payments && p.request == events[i].action.id && OutOfPool(states, p.request, i, n)
    ensures events[i].action.quote in states[i].quotes && p.amount == states[i].quotes[events[i].action.quote].price
  {
    AcceptOwes(states, events, i);
    QuotedHolds(states, events, i, n, p.request);
    PaidWhatWasOwed(states, events, i + 1, n - i - 1, p);
  }

  /** An Emergency is paid the amount last agreed. */
  lemma PaidTheAmountAgreed(states: seq<Db>, events: seq<Event>, i: nat, n: nat, p: Payment)
    requires IsRun(states, events) && i < n < |states| && Reachable(states[0])
    requires Agrees(states[i], events[i], p.request) && HeldTo(states, events, i + 1, n - i - 1, p.request)
    requires p in states[n].payments
    ensures p.amount == events[i].action.amount
  {
    AcceptReachable(states, events, i);
    OwedFrom(states[i], events[i]);
    PaidWhatWasOwed(states, events, i + 1, n - i - 1, p);
  }

  // Conversely, every payment of a run has such a step behind it.

  /** A job becomes engaged only by an accept that succeeds. */
  lemma EngagedStep(db: Db, e: Event, id: RequestId)
    requires Reachable(db) && Engaged(Next(db, e), id) && !Engaged(db, id)
    ensures Wins(db, e, id)
  {
    if !Targets(e.action, id) {
      OtherJobsUntouched(db, e, id);
    } else if id in db.requests && Closed(db.requests[id]) {
      ClosedRowKept(db, e, id);
    }
  }

  /** Step i matched the job, which has been out of the pool since. */
  predicate MatchedAt(states: seq<Db>, events: seq<Event>, i: nat, n: nat, id: RequestId) {
    i < n < |states| && i < |events| && Wins(states[i], events[i], id) && OutOfPool(states, id, i, n)
  }

  /** Some step before n matched the job, which has been out of the pool since. */
  ghost predicate EverMatched(states: seq<Db>, events: seq<Event>, n: nat, id: RequestId) {
    exists i: nat :: MatchedAt(states, events, i, n, id)
  }

  lemma MatchedAtStep(states: seq<Db>, events: seq<Event>, n: nat, id: RequestId)
    requires IsRun(states, events) && n < |events| && Reachable(states[0]) && Engaged(states[n + 1], id)
    ensures Engaged(states[n], id) || EverMatched(states, events, n + 1, id)
  {
    RunReachable(states, events, n);
    var e := events[n];
    if !Engaged(states[n], id) {
      EngagedStep(states[n], e, id);
      assert MatchedAt(states, events, n, n + 1, id);
    }
  }

  lemma MatchedAtCarries(states: seq<Db>, events: seq<Event>, i: nat, n: nat, id: RequestId)
    requires MatchedAt(states, events, i, n, id) && n + 1 < |states| && Engaged(states[n + 1], id)
    ensures MatchedAt(states, events, i, n + 1, id)
  {
  }

  lemma EverMatchedCarries(states: seq<Db>, events: seq<Event>, n: nat, id: RequestId)
    requires EverMatched(states, events, n, id) && n + 1 < |states| && Engaged(states[n + 1], id)
    ensures EverMatched(states, events, n + 1, id)
  {
    var i: nat :| MatchedAt(states, events, i, n, id);
    MatchedAtCarries(states, events, i, n, id);
  }

  lemma {:induction false} EngagedHasAccept(states: seq<Db>, events: seq<Event>, n: nat, id: RequestId)
    requires IsRun(states, events) && n < |states| && Reachable(states[0]) && !Engaged(states[0], id)
    requires Engaged(states[n], id)
    ensures EverMatched(states, events, n, id)
  {
    MatchedAtStep(states, events, n - 1, id);
    if Engaged(states[n - 1], id) {
      EngagedHasAccept(states, events, n - 1, id);
      EverMatchedCarries(states, events, n - 1, id);
    }
  }

  /** The client's accept of a quote that fixed the amount of p. */
  predicate AcceptBehind(states: seq<Db>, events: seq<Event>, i: nat, n: nat, p: Payment) {
    && MatchedAt(states, events, i, n, p.request)
    && events[i].action.DoAcceptQuote?
    && events[i].action.quote in states[i].quotes && p.amount == states[i].quotes[events[i].action.quote].price
  }

  /** Every payment of a quoted job has its accept behind it, with no return to the pool since, and is of that price. */
  lemma QuotedPaymentHasItsAccept(states: seq<Db>, events: seq<Event>, n: nat, p: Payment)
    requires IsRun(states, events) && n < |states| && states[0] == EMPTY_DB && p in states[n].payments
    requires p.request in states[n].requests && states[n].requests[p.request].urgency != Emergency
    ensures exists i: nat :: AcceptBehind(states, events, i, n, p)
  {
    EmptyReachable();
    PaidIsEngaged(states, events, n, p);
    EngagedHasAccept(states, events, n, p.request);
    var i: nat :| MatchedAt(states, events, i, n, p.request);
    AcceptIsBehind(states, events, i, n, p);
  }

  lemma PaidIsEngaged(states: seq<Db>, events: seq<Event>, n: nat, p: Payment)
    requires IsRun(states, events) && n < |states| && Reachable(states[0]) && p in states[n].payments
    ensures Engaged(states[n], p.request)
    ensures states[n].requests[p.request].urgency == Emergency ==> states[n].requests[p.request].agreed.Some?
  {
    RunReachable(states, events, n);
    PaidOnceAt(states[n], p);
  }

  lemma AcceptIsBehind(states: seq<Db>, events: seq<Event>, i: nat, n: nat, p: Payment)
    requires IsRun(states, events) && n < |states| && Reachable(states[0]) && p in states[n].payments
    requires p.request in states[n].requests && states[n].requests[p.request].urgency != Emergency
    requires MatchedAt(states, events, i, n, p.request)
    ensures AcceptBehind(states, events, i, n, p)
  {
    assert events[i].action.DoAcceptQuote? by {
      RunRow(states, events, i, n - i, p.request);
    }
    PaidThePriceAccepted(states, events, i, n, p);
  }

  lemma WinsUnagreed(db: Db, e: Event, id: RequestId)
    requires RowsOk(db) && Wins(db, e, id)
    ensures id in Next(db, e).requests && Next(db, e).requests[id].agreed.None?
  {
    assert RequestOk(db.requests[id]);
  }

  /** An agreed amount was there before, unless the mechanic just set it. */
  lemma AgreedStep(db: Db, e: Event, id: RequestId)
    requires Reachable(db) && Engaged(Next(db, e), id) && Next(db, e).requests[id].agreed.Some? && !Agrees(db, e, id)
    ensures Engaged(db, id) && db.requests[id].agreed.Some?
  {
    ReachableInv(db);
    if !Engaged(db, id) {
      EngagedStep(db, e, id);
      WinsUnagreed(db, e, id);
    } else {
      AgreedOnlyThen(db, e, id);
    }
  }

  /** Step i set the agreed amount; since then none was set and the job stayed out of the pool. */
  predicate AgreedAt(states: seq<Db>, events: seq<Event>, i: nat, n: nat, id: RequestId) {
    i < n < |states| && i < |events| && Agrees(states[i], events[i], id) && HeldTo(states, events, i + 1, n - i - 1, id)
  }

  lemma {:induction false} AgreedHasStep(states: seq<Db>, events: seq<Event>, n: nat, id: RequestId)
    requires IsRun(states, events) && n < |states| && states[0] == EMPTY_DB
    requires Engaged(states[n], id) && states[n].requests[id].agreed.Some?
    ensures exists i: nat :: AgreedAt(states, events, i, n, id)
  {
    EmptyReachable();
    RunReachable(states, events, n - 1);
    var e := events[n - 1];
    if Agrees(states[n - 1], e, id) {
      assert AgreedAt(states, events, n - 1, n, id);
    } else {
      AgreedStep(states[n - 1], e, id);
      AgreedHasStep(states, events, n - 1, id);
      var i: nat :| AgreedAt(states, events, i, n - 1, id);
      assert HoldsAt(states, events, n - 1, id);
      assert AgreedAt(states, events, i, n, id);
    }
  }

  /** Every payment of an Emergency has its agreement behind it, the last before payment, and is of that amount. */
  lemma EmergencyPaymentHasItsAgreement(states: seq<Db>, events: seq<Event>, n: nat, p: Payment)
    requires IsRun(states, events) && n < |states| && states[0] == EMPTY_DB && p in states[n].payments
    requires p.request in states[n].requests && states[n].requests[p.request].urgency == Emergency
    ensures exists i: nat :: AgreedAt(states, events, i, n, p.request) && events[i].action.amount == p.amount
  {
    EmptyReachable();
    PaidIsEngaged(states, events, n, p);
    AgreedHasStep(states, events, n, p.request);
    var i: nat :| AgreedAt(states, events, i, n, p.request);
    PaidTheAmountAgreed(states, events, i, n, p);
  }

  // ----- No dead end ------------------------------------------------------

  /** Actions carried out one after the other at one time. */
  function Replay(db: Db, actions: seq<Action>, now: Time): Db
    decreases actions
  {
    if actions == [] then db else Replay(After(db, actions[0], now), actions[1..], now)
  }

  /** The call goes ahead; a payment reads the policy in force. */
  predicate Permitted(db: Db, a: Action, now: Time) {
    Perform(db, a, now).Done? && (a.DoPay? ==> a.rates == db.policy)
  }

  predicate AllPermitted(db: Db, actions: seq<Action>, now: Time)
    decreases actions
  {
    actions == [] || (Permitted(db, actions[0], now) && AllPermitted(After(db, actions[0], now), actions[1..], now))
  }

  /** What finishes a matched job from any stage of it: arrive, work, complete, agree if need be, pay. */
  function FinishPlan(id: RequestId, r: Request, price: Pos, rates: Policy): seq<Action>
    requires r.mechanic.Some?
  {
    var m := r.mechanic.value;
    [DoAdvance(m, id, Arrived), DoAdvance(m, id, WorkStarted), DoAdvance(m, id, ServiceCompleted)]
    + (if r.urgency == Emergency then [DoSetAgreed(m, id, price)] else [])
    + [DoPay(r.client, id, false, None, rates)]
  }

  lemma StepDone(db: Db, a: Action, now: Time, id: RequestId)
    requires Reachable(db) && IsMatched(db, id)
    requires a.DoAdvance? || a.DoSetAgreed?
    requires a.id == id && db.requests[id].mechanic == Some(a.mechanic)
    requires a.DoAdvance? ==> StepAllowed(db.requests[id].progress, a.step)
    requires a.DoSetAgreed? ==> db.requests[id].urgency == Emergency
    ensures Permitted(db, a, now) && Reachable(After(db, a, now)) && SameMatch(db, After(db, a, now), id)
    ensures After(db, a, now).policy == db.policy
  {
    ReachableInv(db);
    ReachableNext(db, Event(a, now));
    ProgressKeepsMatch(db, Event(a, now), id);
  }

  lemma PayDone(db: Db, now: Time, id: RequestId)
    requires Reachable(db) && IsMatched(db, id) && db.requests[id].progress.serviceCompleted.Some?
    requires AmountDue(db, id).Some?
    ensures var pay := DoPay(db.requests[id].client, id, false, None, db.policy);
            Permitted(db, pay, now) && StatusIs(After(db, pay, now), id, Completed)
  {
    var pay := DoPay(db.requests[id].client, id, false, None, db.policy);
    MatchEndsExactly(db, Event(pay, now), id);
    assert EndsMatch(db, Event(pay, now), id);
  }

  /** Carrying out the actions is permitted at every step and leaves the job in the given status. */
  predicate Reaches(db: Db, actions: seq<Action>, now: Time, id: RequestId, s: Status) {
    AllPermitted(db, actions, now) && StatusIs(Replay(db, actions, now), id, s)
  }

  lemma ReachesCons(db: Db, a: Action, rest: seq<Action>, now: Time, id: RequestId, s: Status)
    requires Permitted(db, a, now) && Reaches(After(db, a, now), rest, now, id, s)
    ensures Reaches(db, [a] + rest, now, id, s)
  {
  }

  lemma PayReaches(db: Db, now: Time, id: RequestId)
    requires Reachable(db) && IsMatched(db, id) && db.requests[id].progress.serviceCompleted.Some?
    requires AmountDue(db, id).Some?
    ensures Reaches(db, [DoPay(db.requests[id].client, id, false, None, db.policy)], now, id, Completed)
  {
    PayDone(db, now, id);
    var pay := DoPay(db.requests[id].client, id, false, None, db.policy);
    assert [pay] == [pay] + [];
    ReachesCons(db, pay, [], now, id, Completed);
  }

  function TailPlan(id: RequestId, r: Request, price: Pos, rates: Policy): seq<Action>
    requires r.mechanic.Some?
  {
    (if r.urgency == Emergency then [DoSetAgreed(r.mechanic.value, id, price)] else [])
    + [DoPay(r.client, id, false, None, rates)]
  }

  lemma TailReaches(db: Db, id: RequestId, price: Pos, now: Time)
    requires Reachable(db) && IsMatched(db, id) && db.requests[id].mechanic.Some?
    requires db.requests[id].progress.serviceCompleted.Some?
    ensures Reaches(db, TailPlan(id, db.requests[id], price, db.policy), now, id, Completed)
  {
    var r := db.requests[id];
    var pay := DoPay(r.client, id, false, None, db.policy);
    if r.urgency == Emergency {
      var agree := DoSetAgreed(r.mechanic.value, id, price);
      StepDone(db, agree, now, id);
      PayReaches(After(db, agree, now), now, id);
      ReachesCons(db, agree, [pay], now, id, Completed);
    } else {
      MatchHolds(db, id);
      PayReaches(db, now, id);
      assert TailPlan(id, r, price, db.policy) == [pay];
    }
  }

  /** One more progress step in front of a plan that finishes the job. */
  lemma AdvanceReaches(db: Db, id: RequestId, step: StatusStep, rest: seq<Action>, now: Time)
    requires Reachable(db) && IsMatched(db, id) && db.requests[id].mechanic.Some?
    requires StepAllowed(db.requests[id].progress, step)
    requires var next := After(db, DoAdvance(db.requests[id].mechanic.value, id, step), now);
             SameMatch(db, next, id) && next.policy == db.policy && Reachable(next) ==>
               Reaches(next, rest, now, id, Completed)
    ensures Reaches(db, [DoAdvance(db.requests[id].mechanic.value, id, step)] + rest, now, id, Completed)
  {
    var a := DoAdvance(db.requests[id].mechanic.value, id, step);
    StepDone(db, a, now, id);
    ReachesCons(db, a, rest, now, id, Completed);
  }

  lemma ServiceReaches(db: Db, id: RequestId, price: Pos, now: Time)
    requires Reachable(db) && IsMatched(db, id) && db.requests[id].mechanic.Some?
    requires db.requests[id].progress.workStarted.Some?
    ensures var r := db.requests[id];
            Reaches(db, [DoAdvance(r.mechanic.value, id, ServiceCompleted)] + TailPlan(id, r, price, db.policy),
                    now, id, Completed)
  {
    var r := db.requests[id];
    var next := After(db, DoAdvance(r.mechanic.value, id, ServiceCompleted), now);
    if SameMatch(db, next, id) && next.policy == db.policy && Reachable(next) {
      TailReaches(next, id, price, now);
      assert TailPlan(id, next.requests[id], price, db.policy) == TailPlan(id, r, price, db.policy);
    }
    AdvanceReaches(db, id, ServiceCompleted, TailPlan(id, r, price, db.policy), now);
  }

  lemma WorkReaches(db: Db, id: RequestId, price: Pos, now: Time)
    requires Reachable(db) && IsMatched(db, id) && db.requests[id].mechanic.Some?
    requires db.requests[id].progress.arrived.Some?
    ensures var r := db.requests[id];
            Reaches(db, [DoAdvance(r.mechanic.value, id, WorkStarted)]
                        + ([DoAdvance(r.mechanic.value, id, ServiceCompleted)] + TailPlan(id, r, price, db.policy)),
                    now, id, Completed)
  {
    var r := db.requests[id];
    var next := After(db, DoAdvance(r.mechanic.value, id, WorkStarted), now);
    if SameMatch(db, next, id) && next.policy == db.policy && Reachable(next) {
      ServiceReaches(next, id, price, now);
      assert TailPlan(id, next.requests[id], price, db.policy) == TailPlan(id, r, price, db.policy);
    }
    AdvanceReaches(db, id, WorkStarted,
                   [DoAdvance(r.mechanic.value, id, ServiceCompleted)] + TailPlan(id, r, price, db.policy), now);
  }

  /**
   * From every reachable matched job, at whatever stage, the finishing plan is permitted step by step and
   * completes it, paying at the policy in force.
   */
  lemma MatchedJobCanFinish(db: Db, id: RequestId, price: Pos, now: Time)
    requires Reachable(db) && IsMatched(db, id)
    ensures db.requests[id].mechanic.Some?
    ensures Reaches(db, FinishPlan(id, db.requests[id], price, db.policy), now, id, Completed)
  {
    MatchHolds(db, id);
    var r := db.requests[id];
    var m := r.mechanic.value;
    var tail := TailPlan(id, r, price, db.policy);
    var rest := [DoAdvance(m, id, WorkStarted)] + ([DoAdvance(m, id, ServiceCompleted)] + tail);
    var next := After(db, DoAdvance(m, id, Arrived), now);
    if SameMatch(db, next, id) && next.policy == db.policy && Reachable(next) {
      WorkReaches(next, id, price, now);
      assert TailPlan(id, next.requests[id], price, db.policy) == TailPlan(id, r, price, db.policy);
    }
    AdvanceReaches(db, id, Arrived, rest, now);
    assert FinishPlan(id, r, price, db.policy) == [DoAdvance(m, id, Arrived)] + rest;
  }

  /** A pending job can always be cancelled by its client, so no reachable open job is stuck. */
  lemma PendingJobCanClose(db: Db, id: RequestId, now: Time)
    requires StatusIs(db, id, Pending)
    ensures Reaches(db, [DoCancel(db.requests[id].client, id, None)], now, id, Cancelled)
  {
  }

  ghost predicate CanFinish(db: Db, id: RequestId, now: Time) {
    exists actions :: Reaches(db, actions, now, id, Completed)
  }

  lemma StepThenFinish(db: Db, a: Action, id: RequestId, now: Time)
    requires Permitted(db, a, now) && CanFinish(After(db, a, now), id, now)
    ensures CanFinish(db, id, now)
  {
    var rest :| Reaches(After(db, a, now), rest, now, id, Completed);
    ReachesCons(db, a, rest, now, id, Completed);
  }

  lemma MatchingCanFinish(db: Db, a: Action, id: RequestId, now: Time)
    requires Reachable(db) && Permitted(db, a, now) && IsMatched(After(db, a, now), id)
    ensures CanFinish(db, id, now)
  {
    var next := After(db, a, now);
    ReachableNext(db, Event(a, now));
    MatchedJobCanFinish(next, id, 1, now);
    assert Reaches(next, FinishPlan(id, next.requests[id], 1, next.policy), now, id, Completed);
    StepThenFinish(db, a, id, now);
  }

  /** A live quote of m, or the room for one. */
  predicate MayQuote(db: Db, id: RequestId, m: UserId) {
    var k := QuoteKey(id, m);
    IsApproved(db, m) && (k in db.quotes ==> db.quotes[k].rejectedAt.None?)
  }

  lemma QuoteThenFinish(db: Db, id: RequestId, m: UserId, now: Time)
    requires Reachable(db) && StatusIs(db, id, Pending) && db.requests[id].urgency != Emergency && MayQuote(db, id, m)
    requires var k := QuoteKey(id, m); k in db.quotes ==> !Live(db.quotes[k])
    ensures CanFinish(db, id, now)
  {
    var k, a := QuoteKey(id, m), DoSubmitQuote(m, id, 1, 1);
    MatchQuoteCoupling(db, id);
    var next := After(db, a, now);
    ReachableNext(db, Event(a, now));
    MatchingCanFinish(next, DoAcceptQuote(db.requests[id].client, id, k), id, now);
    StepThenFinish(db, a, id, now);
  }

  /**
   * Every reachable pending job can still be completed by any approved mechanic
   * who holds no Emergency (for an Emergency) or was not rejected for it
   * (otherwise), whatever its past.
   */
  lemma PendingJobCanFinish(db: Db, id: RequestId, m: UserId, now: Time)
    requires Reachable(db) && StatusIs(db, id, Pending)
    requires if db.requests[id].urgency == Emergency then IsApproved(db, m) && !HasEmergency(db, m)
             else MayQuote(db, id, m)
    ensures CanFinish(db, id, now)
  {
    var k, client := QuoteKey(id, m), db.requests[id].client;
    if db.requests[id].urgency == Emergency {
      MatchingCanFinish(db, DoAcceptEmergency(m, id, 1), id, now);
    } else if k in db.quotes && Live(db.quotes[k]) {
      MatchingCanFinish(db, DoAcceptQuote(client, id, k), id, now);
    } else {
      QuoteThenFinish(db, id, m, now);
    }
  }

  /** A mechanic is approved and a client books a job. */
  function FirstSteps(client: UserId, mechanic: UserId, id: RequestId, u: Urgency): seq<Action> {
    [DoSubmitVerification(mechanic, 0), DoDecideVerification(true, 0, Approve), DoBook(client, id, u)]
  }

  /**
   * From an empty database a mechanic can be approved and a job of any urgency booked, and then it can be
   * matched, finished and paid.
   */
  lemma FirstJobCanBePaid(client: UserId, mechanic: UserId, id: RequestId, u: Urgency, now: Time)
    ensures AllPermitted(EMPTY_DB, FirstSteps(client, mechanic, id, u), now)
    ensures var booked := Replay(EMPTY_DB, FirstSteps(client, mechanic, id, u), now);
            && booked.requests == map[id := NewRequest(client, u)]
            && CanFinish(booked, id, now)
  {
    var ask, approve := DoSubmitVerification(mechanic, 0), DoDecideVerification(true, 0, Approve);
    var asked := After(EMPTY_DB, ask, now);
    var approved := After(asked, approve, now);
    var booked := After(approved, DoBook(client, id, u), now);
    assert Reachable(booked) by {
      EmptyReachable();
      ReachableNext(EMPTY_DB, Event(ask, now));
      ReachableNext(asked, Event(approve, now));
      ReachableNext(approved, Event(DoBook(client, id, u), now));
    }
    assert 0 in booked.accounts && booked.accounts[0] == Account(mechanic, Approved, false);
    PendingJobCanFinish(booked, id, mechanic, now);
    FirstStepsTaken(client, mechanic, id, u, now);
  }

  lemma FirstStepsTaken(client: UserId, mechanic: UserId, id: RequestId, u: Urgency, now: Time)
    ensures AllPermitted(EMPTY_DB, FirstSteps(client, mechanic, id, u), now)
    ensures var asked := After(EMPTY_DB, DoSubmitVerification(mechanic, 0), now);
            Replay(EMPTY_DB, FirstSteps(client, mechanic, id, u), now)
            == After(After(asked, DoDecideVerification(true, 0, Approve), now), DoBook(client, id, u), now)
  {
    var ask, approve := DoSubmitVerification(mechanic, 0), DoDecideVerification(true, 0, Approve);
    var book := DoBook(client, id, u);
    var asked := After(EMPTY_DB, ask, now);
    var approved := After(asked, approve, now);
    ReplayCons(approved, book, [], now);
    ReplayCons(asked, approve, [book], now);
    ReplayCons(EMPTY_DB, ask, [approve, book], now);
    assert [book] + [] == [book] && [approve] + [book] == [approve, book];
    assert [ask] + [approve, book] == FirstSteps(client, mechanic, id, u);
  }

  lemma ReplayCons(db: Db, a: Action, rest: seq<Action>, now: Time)
    ensures Replay(db, [a] + rest, now) == Replay(After(db, a, now), rest, now)
    ensures AllPermitted(db, [a] + rest, now) <==>
            Permitted(db, a, now) && AllPermitted(After(db, a, now), rest, now)
  {
    assert ([a] + rest)[1..] == rest;
  }
}
