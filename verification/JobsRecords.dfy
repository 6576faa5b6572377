/** What the tables tell of the calls behind them, over whole runs from the empty database. */
module JobsRecords {
  import opened Common
  import opened Jobs
  import opened JobsInvariant
  import opened JobsRuns
  import opened JobsAnswers
  import opened JobsWrites

  lemma WrittenAt(states: seq<Db>, events: seq<Event>, i: nat, k: QuoteKey)
    requires IsRun(states, events) && i < |events| && Reachable(states[0])
    ensures Reachable(states[i]) && QuotesWrittenAt(states[i], events[i], k)
    ensures states[i + 1] == Next(states[i], events[i])
  {
    RunReachable(states, events, i);
    QuotesWritten(states[i], events[i], k);
  }

  // ----- Rejecting --------------------------------------------------------

  /** A quote its client rejected carries that moment for ever: it is never accepted, and never offered again. */
  lemma RejectionHolds(states: seq<Db>, events: seq<Event>, i: nat, j: nat, client: UserId, id: RequestId, k: QuoteKey)
    requires IsRun(states, events) && i < j < |states| && Reachable(states[0])
    requires events[i].action == DoRejectQuote(client, id, k) && Succeeds(states[i], events[i])
    ensures k in states[j].quotes
    ensures states[j].quotes[k].rejectedAt == Some(events[i].now) && !states[j].quotes[k].accepted
    ensures j < |events| ==> !Offers(states[j], events[j], k)
    ensures j < |events| && events[j].action.DoAcceptQuote? && events[j].action.quote == k ==>
              !Succeeds(states[j], events[j])
  {
    WrittenAt(states, events, i, k);
    SucceedsExactly(states[i], events[i].action, events[i].now);
    RejectedForever(states, events, i + 1, j - i - 1, k);
    RunReachable(states, events, j);
    assert k in states[j].quotes && states[j].quotes[k].rejectedAt.Some?;
    if j < |events| { RejectedOffersNothing(states[j], events[j], k); }
  }

  lemma RejectedOffersNothing(db: Db, e: Event, k: QuoteKey)
    requires Reachable(db) && k in db.quotes && db.quotes[k].rejectedAt.Some?
    ensures !Offers(db, e, k)
    ensures e.action.DoAcceptQuote? && e.action.quote == k ==> !Succeeds(db, e)
  {
    SucceedsExactly(db, e.action, e.now);
    ReachableInv(db);
    assert QuoteOk(db.requests[k.request], k, db.quotes[k]);
  }

  // ----- Withdrawing ------------------------------------------------------

  /** The mechanic took the quote off the table: withdrew it, or backed out of the job it was accepted for. */
  predicate TakesBack(db: Db, e: Event, k: QuoteKey) {
    && (e.action.DoWithdrawQuote? || e.action.DoMechanicCancel?)
    && e.action.id == k.request && e.action.mechanic == k.mechanic && Succeeds(db, e)
  }

  predicate NoOffer(states: seq<Db>, events: seq<Event>, m: nat, k: QuoteKey) {
    m < |events| && m < |states| ==> !Offers(states[m], events[m], k)
  }

  predicate Off(db: Db, k: QuoteKey, since: Time) {
    k in db.quotes && db.quotes[k].withdrawnAt == Some(since) && !db.quotes[k].accepted
  }

  lemma OffStays(db: Db, e: Event, k: QuoteKey, since: Time)
    requires Reachable(db) && Off(db, k, since) && !Offers(db, e, k)
    ensures Off(Next(db, e), k, since)
    ensures e.action.DoAcceptQuote? && e.action.quote == k ==> !Succeeds(db, e)
  {
    QuotesWritten(db, e, k);
    SucceedsExactly(db, e.action, e.now);
  }

  lemma TakenBackIsOff(db: Db, e: Event, k: QuoteKey)
    requires Reachable(db) && TakesBack(db, e, k)
    ensures Off(Next(db, e), k, e.now)
  {
    SucceedsExactly(db, e.action, e.now);
    QuotesWritten(db, e, k);
    ReachableInv(db);
    if e.action.DoMechanicCancel? { MatchQuoteCoupling(db, k.request); }
  }

  /** What a mechanic took back stays off the table, and no accept of it succeeds, until they offer afresh. */
  lemma {:induction false} OffUntilOffered(states: seq<Db>, events: seq<Event>, i: nat, d: nat, k: QuoteKey)
    requires IsRun(states, events) && i + 1 + d < |states| && Reachable(states[0])
    requires TakesBack(states[i], events[i], k)
    requires forall m :: i < m < i + 1 + d ==> NoOffer(states, events, m, k)
    ensures Off(states[i + 1 + d], k, events[i].now)
    ensures i + 1 + d < |events| && events[i + 1 + d].action.DoAcceptQuote? && events[i + 1 + d].action.quote == k ==>
              !Succeeds(states[i + 1 + d], events[i + 1 + d])
  {
    var n := i + 1 + d;
    if d == 0 {
      RunReachable(states, events, i);
      TakenBackIsOff(states[i], events[i], k);
    } else {
      OffUntilOffered(states, events, i, d - 1, k);
      RunReachable(states, events, n - 1);
      assert NoOffer(states, events, n - 1, k);
      OffStays(states[n - 1], events[n - 1], k, events[i].now);
    }
    RunReachable(states, events, n);
    if n < |events| { SucceedsExactly(states[n], events[n].action, events[n].now); }
  }

  /** A client who puts a quoted job back, or whose mechanic let it lapse, may accept the same quote again at once. */
  lemma ReturnKeepsTheOffer(db: Db, e: Event, id: RequestId, now: Time)
    requires Reachable(db) && IsMatched(db, id) && db.requests[id].urgency != Emergency
    requires PutsBack(db, e, id) && !e.action.DoMechanicCancel?
    ensures db.requests[id].mechanic.Some?
    ensures Perform(Next(db, e), DoAcceptQuote(db.requests[id].client, id,
                                               QuoteKey(id, db.requests[id].mechanic.value)), now).Done?
  {
    MatchQuoteCoupling(db, id);
    var k := QuoteKey(id, db.requests[id].mechanic.value);
    QuotesWritten(db, e, k);
    RowsWritten(db, e, id);
    ReachableNext(db, e);
    SucceedsExactly(Next(db, e), DoAcceptQuote(db.requests[id].client, id, k), now);
  }

  // ----- A match and the accept behind it ---------------------------------

  /** The row and quote of a job still are as the call that took it left them. */
  predicate TellsAccept(db: Db, e: Event, now: Db, id: RequestId) {
    && id in db.requests && id in now.requests && TakenBy(db, e, id).Some?
    && var r, k := now.requests[id], QuoteKey(id, TakenBy(db, e, id).value);
    && r.mechanic == Some(k.mechanic) && r.acceptedAt == Some(e.now)
    && r.deadlineAt == (match r.urgency
                        case Normal => None
                        case Urgent => Some(e.now + 3 * 24 * 60 * 60_000)
                        case Emergency => Some(e.now + 12 * 60 * 60_000))
    && k in now.quotes
    && (e.action.DoAcceptQuote? ==>
          k in db.quotes && now.quotes[k].price == db.quotes[k].price && now.quotes[k].eta == db.quotes[k].eta)
    && (e.action.DoAcceptEmergency? ==> now.quotes[k].eta == e.action.eta)
  }

  predicate AcceptStands(states: seq<Db>, events: seq<Event>, i: nat, n: nat, id: RequestId) {
    MatchedAt(states, events, i, n, id) && TellsAccept(states[i], events[i], states[n], id)
  }

  lemma TellsAtFirst(db: Db, e: Event, id: RequestId)
    requires Reachable(db) && Wins(db, e, id)
    ensures TellsAccept(db, e, Next(db, e), id)
  {
    SucceedsExactly(db, e.action, e.now);
    var k := QuoteKey(id, TakenBy(db, e, id).value);
    RowsWritten(db, e, id);
    QuotesWritten(db, e, k);
  }

  lemma TellsOn(first: Db, f: Event, db: Db, e: Event, id: RequestId)
    requires Reachable(db) && TellsAccept(first, f, db, id) && Engaged(db, id) && Engaged(Next(db, e), id)
    ensures TellsAccept(first, f, Next(db, e), id)
  {
    var k := QuoteKey(id, TakenBy(first, f, id).value);
    SucceedsExactly(db, e.action, e.now);
    RowsWritten(db, e, id);
    QuotesWritten(db, e, k);
    NoOfferOnceEngaged(db, e, k);
  }

  lemma NoOfferOnceEngaged(db: Db, e: Event, k: QuoteKey)
    requires Reachable(db) && Engaged(db, k.request)
    ensures !Offers(db, e, k) && TakenBy(db, e, k.request).None?
  {
    SucceedsExactly(db, e.action, e.now);
  }

  ghost predicate AcceptTold(states: seq<Db>, events: seq<Event>, n: nat, id: RequestId) {
    exists i: nat :: AcceptStands(states, events, i, n, id)
  }

  lemma AcceptBegins(states: seq<Db>, events: seq<Event>, n: nat, id: RequestId)
    requires IsRun(states, events) && n < |events| && Reachable(states[n])
    requires !Engaged(states[n], id) && Engaged(states[n + 1], id)
    ensures AcceptTold(states, events, n + 1, id)
  {
    EngagedStep(states[n], events[n], id);
    TellsAtFirst(states[n], events[n], id);
    assert MatchedAt(states, events, n, n + 1, id);
    assert AcceptStands(states, events, n, n + 1, id);
  }

  lemma AcceptLasts(states: seq<Db>, events: seq<Event>, n: nat, id: RequestId)
    requires n + 1 < |states| && n < |events| && states[n + 1] == Next(states[n], events[n]) && Reachable(states[n])
    requires Engaged(states[n], id) && Engaged(states[n + 1], id) && AcceptTold(states, events, n, id)
    ensures AcceptTold(states, events, n + 1, id)
  {
    var i: nat :| AcceptStands(states, events, i, n, id);
    MatchedAtCarries(states, events, i, n, id);
    TellsOn(states[i], events[i], states[n], events[n], id);
    assert AcceptStands(states, events, i, n + 1, id);
  }

  /**
   * Every matched or completed job of a run has the accept behind it that its
   * row and quote tell of: its mechanic, its clock, its deadline and the
   * promised minutes are those of that one call, with no return to the pool since.
   */
  lemma {:induction false} MatchTellsItsAccept(states: seq<Db>, events: seq<Event>, n: nat, id: RequestId)
    requires IsRun(states, events) && n < |states| && states[0] == EMPTY_DB && Engaged(states[n], id)
    ensures exists i: nat :: AcceptStands(states, events, i, n, id)
  {
    assert Reachable(states[n - 1]) by {
      EmptyReachable();
      RunReachable(states, events, n - 1);
    }
    assert Next(states[n - 1], events[n - 1]) == states[n];
    if Engaged(states[n - 1], id) {
      MatchTellsItsAccept(states, events, n - 1, id);
      AcceptLasts(states, events, n - 1, id);
    } else {
      AcceptBegins(states, events, n - 1, id);
    }
    assert AcceptTold(states, events, n, id);
  }

  // ----- A quote and the offer behind it ----------------------------------

  predicate OfferStands(states: seq<Db>, events: seq<Event>, i: nat, n: nat, k: QuoteKey) {
    && i < n < |states| && n <= |events| && k in states[n].quotes
    && Offers(states[i], events[i], k)
    && states[n].quotes[k].eta == events[i].action.eta
    && states[n].quotes[k].price == (if events[i].action.DoSubmitQuote? then events[i].action.price else 0)
    && forall m :: i < m < n ==> NoOffer(states, events, m, k)
  }

  /** The accept record of an Emergency carries no price. */
  predicate EmergenciesUnpriced(db: Db) {
    forall k :: k in db.quotes && k.request in db.requests && db.requests[k.request].urgency == Emergency ==>
      db.quotes[k].price == 0
  }

  lemma UnpricedStep(db: Db, e: Event)
    requires Reachable(db) && EmergenciesUnpriced(db)
    ensures EmergenciesUnpriced(Next(db, e))
  {
    var next := Next(db, e);
    forall k | k in next.quotes && k.request in next.requests && next.requests[k.request].urgency == Emergency
      ensures next.quotes[k].price == 0
    {
      QuotesWritten(db, e, k);
      SucceedsExactly(db, e.action, e.now);
      if k.request in db.requests { RowsWritten(db, e, k.request); }
    }
  }

  lemma {:induction false} Unpriced(states: seq<Db>, events: seq<Event>, n: nat)
    requires IsRun(states, events) && n < |states| && states[0] == EMPTY_DB
    ensures EmergenciesUnpriced(states[n])
  {
    if n > 0 {
      Unpriced(states, events, n - 1);
      assert Reachable(states[n - 1]) by {
        EmptyReachable();
        RunReachable(states, events, n - 1);
      }
      assert Next(states[n - 1], events[n - 1]) == states[n];
      UnpricedStep(states[n - 1], events[n - 1]);
    }
  }

  lemma OfferAtFirst(db: Db, e: Event, k: QuoteKey)
    requires Reachable(db) && EmergenciesUnpriced(Next(db, e)) && Offers(db, e, k)
    ensures k in Next(db, e).quotes && Next(db, e).quotes[k].eta == e.action.eta
    ensures Next(db, e).quotes[k].price == if e.action.DoSubmitQuote? then e.action.price else 0
  {
    QuotesWritten(db, e, k);
    SucceedsExactly(db, e.action, e.now);
    RowsWritten(db, e, k.request);
  }

  /** Every quote of a run carries the price and the minutes of the last call in which its mechanic offered them. */
  lemma {:induction false} QuoteTellsItsOffer(states: seq<Db>, events: seq<Event>, n: nat, k: QuoteKey)
    requires IsRun(states, events) && n < |states| && states[0] == EMPTY_DB && k in states[n].quotes
    ensures exists i: nat :: OfferStands(states, events, i, n, k)
  {
    EmptyReachable();
    WrittenAt(states, events, n - 1, k);
    if Offers(states[n - 1], events[n - 1], k) {
      Unpriced(states, events, n);
      OfferAtFirst(states[n - 1], events[n - 1], k);
      assert OfferStands(states, events, n - 1, n, k);
    } else {
      QuoteTellsItsOffer(states, events, n - 1, k);
      var i: nat :| OfferStands(states, events, i, n - 1, k);
      assert OfferStands(states, events, i, n, k);
    }
  }

  // ----- Progress and the calls behind it ---------------------------------

  /** When the step was first marked among events i to n. */
  function FirstMark(states: seq<Db>, events: seq<Event>, id: RequestId, step: StatusStep, i: nat, n: nat): Option<Time>
    requires i <= n <= |events| <= |states|
    decreases n
  {
    if n == i then None
    else
      var before := FirstMark(states, events, id, step, i, n - 1);
      if before.None? && Marks(states[n - 1], events[n - 1], id, step) then Some(events[n - 1].now) else before
  }

  predicate MarkedBy(db: Db, e: Event, next: Db, id: RequestId, step: StatusStep) {
    && id in db.requests && id in next.requests
    && Mark(next.requests[id].progress, step) ==
         if Marks(db, e, id, step) && Mark(db.requests[id].progress, step).None? then Some(e.now)
         else Mark(db.requests[id].progress, step)
  }

  lemma MarkStep(db: Db, e: Event, id: RequestId, step: StatusStep)
    requires Reachable(db) && Engaged(db, id) && Engaged(Next(db, e), id)
    ensures MarkedBy(db, e, Next(db, e), id, step)
  {
    RowsWritten(db, e, id);
  }

  lemma NoMarkAtFirst(db: Db, e: Event, id: RequestId, step: StatusStep)
    requires Reachable(db) && Wins(db, e, id)
    ensures id in Next(db, e).requests && Mark(Next(db, e).requests[id].progress, step).None?
  {
    SucceedsExactly(db, e.action, e.now);
    RowsWritten(db, e, id);
    ReachableInv(db);
    assert RequestOk(db.requests[id]);
  }

  /** A job becomes engaged only out of the pool. */
  lemma WasPending(db: Db, e: Event, id: RequestId)
    requires Reachable(db) && !Engaged(db, id) && Engaged(Next(db, e), id)
    ensures StatusIs(db, id, Pending)
  {
    EngagedStep(db, e, id);
    SucceedsExactly(db, e.action, e.now);
  }

  lemma EngagedBefore(states: seq<Db>, events: seq<Event>, i: nat, n: nat, id: RequestId)
    requires IsRun(states, events) && Reachable(states[0]) && MatchedAt(states, events, i, n, id) && i + 1 < n
    requires Engaged(states[n], id)
    ensures MatchedAt(states, events, i, n - 1, id) && Engaged(states[n - 1], id)
  {
    assert !StatusIs(states[n - 1], id, Pending);
    assert Reachable(states[n - 1]) by { RunReachable(states, events, n - 1); }
    assert Next(states[n - 1], events[n - 1]) == states[n];
    if !Engaged(states[n - 1], id) {
      WasPending(states[n - 1], events[n - 1], id);
    }
  }

  lemma FirstMarkNext(states: seq<Db>, events: seq<Event>, i: nat, n: nat, id: RequestId, step: StatusStep)
    requires i <= n < |events| < |states| && MarkedBy(states[n], events[n], states[n + 1], id, step)
    requires Mark(states[n].requests[id].progress, step) == FirstMark(states, events, id, step, i, n)
    ensures Mark(states[n + 1].requests[id].progress, step) == FirstMark(states, events, id, step, i, n + 1)
  {
  }

  lemma ProgressBegins(states: seq<Db>, events: seq<Event>, i: nat, id: RequestId, step: StatusStep)
    requires IsRun(states, events) && i < |events| && Reachable(states[0]) && Wins(states[i], events[i], id)
    ensures id in states[i + 1].requests && Mark(states[i + 1].requests[id].progress, step).None?
  {
    assert Reachable(states[i]) by { RunReachable(states, events, i); }
    NoMarkAtFirst(states[i], events[i], id, step);
  }

  lemma ProgressGoesOn(states: seq<Db>, events: seq<Event>, i: nat, n: nat, id: RequestId, step: StatusStep)
    requires IsRun(states, events) && i <= n < |events| && Reachable(states[0])
    requires Engaged(states[n], id) && Engaged(states[n + 1], id)
    requires Mark(states[n].requests[id].progress, step) == FirstMark(states, events, id, step, i, n)
    ensures Mark(states[n + 1].requests[id].progress, step) == FirstMark(states, events, id, step, i, n + 1)
  {
    assert MarkedBy(states[n], events[n], states[n + 1], id, step) by {
      RunReachable(states, events, n);
      MarkStep(states[n], events[n], id, step);
    }
    FirstMarkNext(states, events, i, n, id, step);
  }

  /**
   * The time of each progress step of a job is that of the first call that
   * marked it since the job was taken, with arrival marking being en route; a
   * step no call marked is open.
   */
  lemma {:induction false} ProgressTellsItsCalls(states: seq<Db>, events: seq<Event>, i: nat, n: nat, id: RequestId,
                                                 step: StatusStep)
    requires IsRun(states, events) && Reachable(states[0]) && MatchedAt(states, events, i, n, id)
    requires Engaged(states[n], id)
    ensures Mark(states[n].requests[id].progress, step) == FirstMark(states, events, id, step, i + 1, n)
    decreases n
  {
    if n == i + 1 {
      ProgressBegins(states, events, i, id, step);
    } else {
      EngagedBefore(states, events, i, n, id);
      ProgressTellsItsCalls(states, events, i, n - 1, id, step);
      ProgressGoesOn(states, events, i + 1, n - 1, id, step);
    }
  }

  // ----- Verdicts ---------------------------------------------------------

  lemma DecidedStays(db: Db, e: Event, id: AccountId)
    requires Reachable(db) && id in db.accounts && !db.accounts[id].status.Waiting?
    ensures id in Next(db, e).accounts && Next(db, e).accounts[id].status == db.accounts[id].status
  {
    AccountsWritten(db, e, id);
    SucceedsExactly(db, e.action, e.now);
  }

  /** A verdict stands: what was decided is never decided again. */
  lemma {:induction false} VerdictStands(states: seq<Db>, events: seq<Event>, i: nat, d: nat, id: AccountId)
    requires IsRun(states, events) && i + d < |states| && Reachable(states[0])
    requires id in states[i].accounts && !states[i].accounts[id].status.Waiting?
    ensures id in states[i + d].accounts && states[i + d].accounts[id].status == states[i].accounts[id].status
  {
    if d > 0 {
      VerdictStands(states, events, i, d - 1, id);
      var n := i + d - 1;
      assert Reachable(states[n]) by { RunReachable(states, events, n); }
      DecidedStays(states[n], events[n], id);
    }
  }

  predicate DecidedAt(states: seq<Db>, events: seq<Event>, i: nat, n: nat, id: AccountId, verdict: Verdict) {
    i < n && i < |events| && i < |states| && Decides(states[i], events[i], id, verdict)
  }

  ghost predicate EverDecided(states: seq<Db>, events: seq<Event>, n: nat, id: AccountId, verdict: Verdict) {
    exists i: nat :: DecidedAt(states, events, i, n, id, verdict)
  }

  lemma DecidedNext(states: seq<Db>, events: seq<Event>, n: nat, id: AccountId, verdict: Verdict)
    requires n < |events| && n < |states|
    ensures EverDecided(states, events, n + 1, id, verdict) <==>
            EverDecided(states, events, n, id, verdict) || Decides(states[n], events[n], id, verdict)
  {
    if EverDecided(states, events, n + 1, id, verdict) {
      var i: nat :| DecidedAt(states, events, i, n + 1, id, verdict);
      assert i < n ==> DecidedAt(states, events, i, n, id, verdict);
    } else {
      assert !DecidedAt(states, events, n, n + 1, id, verdict);
      assert forall i: nat :: DecidedAt(states, events, i, n, id, verdict) ==>
               DecidedAt(states, events, i, n + 1, id, verdict);
    }
  }

  predicate Bears(db: Db, id: AccountId, verdict: Verdict) {
    && id in db.accounts
    && match verdict
       case Approve => db.accounts[id].status.Approved?
       case Reject => db.accounts[id].status.Rejected?
       case Escalate => db.accounts[id].escalated
  }

  lemma BearsStep(db: Db, e: Event, id: AccountId, verdict: Verdict)
    requires Reachable(db)
    ensures Bears(Next(db, e), id, verdict) <==> Bears(db, id, verdict) || Decides(db, e, id, verdict)
  {
    AccountsWritten(db, e, id);
    SucceedsExactly(db, e.action, e.now);
  }

  /** A mechanic is approved, rejected or escalated exactly when a permitted verdict of the run said so. */
  lemma {:induction false} StatusTellsItsVerdict(states: seq<Db>, events: seq<Event>, n: nat, id: AccountId,
                                                 verdict: Verdict)
    requires IsRun(states, events) && n < |states| && states[0] == EMPTY_DB
    ensures Bears(states[n], id, verdict) <==> EverDecided(states, events, n, id, verdict)
  {
    if n > 0 {
      StatusTellsItsVerdict(states, events, n - 1, id, verdict);
      EmptyReachable();
      RunReachable(states, events, n - 1);
      BearsStep(states[n - 1], events[n - 1], id, verdict);
      DecidedNext(states, events, n - 1, id, verdict);
    }
  }
}
