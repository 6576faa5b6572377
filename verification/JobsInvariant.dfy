/** What every step of the jobs domain keeps, whatever its time and order. */
module JobsInvariant {
  import opened Common
  import opened Jobs

  // ----- One row ----------------------------------------------------------

  /** Each progress step implies the ones it is gated on. */
  predicate ProgressOk(p: Progress) {
    && (p.serviceCompleted.Some? ==> p.workStarted.Some?)
    && (p.workStarted.Some? ==> p.arrived.Some?)
    && (p.arrived.Some? ==> p.enRoute.Some?)
  }

  predicate RequestOk(r: Request) {
    && r.surcharge == Surcharge(r.urgency)
    && (r.mechanic.Some? <==> r.acceptedAt.Some?)
    && (r.status == Pending ==> r.mechanic.None?)
    && (r.status == Matched || r.status == Completed ==> r.mechanic.Some?)
    && r.deadlineAt == (if r.acceptedAt.Some? then Deadline(r.urgency, r.acceptedAt.value) else None)
    && ProgressOk(r.progress)
    && (r.mechanic.None? ==> r.progress == NO_PROGRESS && r.agreed.None?)
    && (r.agreed.Some? ==> r.urgency == Emergency)
    && (r.status == Completed ==> r.progress.serviceCompleted.Some?)
    && (r.status == Completed <==> r.completedAt.Some?)
    && (r.status == Cancelled ==> r.progress.workStarted.None?)
  }

  /** A quote against its request: accepted exactly when its mechanic holds the job. */
  predicate QuoteOk(r: Request, k: QuoteKey, q: Quote) {
    && (q.accepted <==> r.mechanic == Some(k.mechanic))
    && (q.accepted ==> Live(q))
    && EtaFits(r.urgency, q.eta)
    && (r.urgency == Emergency ==> q.rejectedAt.None? && (q.accepted || q.withdrawnAt.Some?))
  }

  // ----- The tables together ----------------------------------------------

  predicate RowsOk(db: Db) {
    forall i :: i in db.requests ==> RequestOk(db.requests[i])
  }

  predicate QuotesOk(db: Db) {
    forall k :: k in db.quotes ==> k.request in db.requests && QuoteOk(db.requests[k.request], k, db.quotes[k])
  }

  /** A job with a mechanic has that mechanic's accepted quote. */
  predicate MatchesBacked(db: Db) {
    forall i :: i in db.requests && db.requests[i].mechanic.Some? ==>
      QuoteKey(i, db.requests[i].mechanic.value) in db.quotes
  }

  /** Two rows the partial unique indexes of service_requests would not let stand together. */
  predicate SameSlot(a: Request, b: Request) {
    || (Active(a) && Active(b) && a.client == b.client)
    || (a.mechanic.Some? && HoldsEmergency(a, a.mechanic.value) && HoldsEmergency(b, a.mechanic.value))
  }

  predicate SlotsOk(db: Db) {
    forall i, j :: i in db.requests && j in db.requests && SameSlot(db.requests[i], db.requests[j]) ==> i == j
  }

  predicate ApprovalsOk(db: Db) {
    forall k :: k in db.quotes ==> IsApproved(db, k.mechanic)
  }

  /** A payment against its job: the parties, the fee and the amount are the job's own. */
  predicate PaymentOk(db: Db, p: Payment) {
    && p.request in db.requests
    && var r := db.requests[p.request];
    && r.status == Completed
    && r.completedAt == Some(p.completedAt)
    && p.client == r.client
    && r.mechanic == Some(p.mechanic)
    && p.fee == r.surcharge
    && (p.feeWithPoints.Some? ==> p.feeWithPoints.value == p.fee > 0)
    && AmountDue(db, p.request) == Some(p.amount)
  }

  predicate PaymentsOk(db: Db) {
    && (forall p :: p in db.payments ==> PaymentOk(db, p))
    && (forall i, j :: 0 <= i < j < |db.payments| ==> db.payments[i].request != db.payments[j].request)
    && (forall i :: i in db.requests && db.requests[i].status == Completed ==> HasPayment(db.payments, i))
  }

  /** Ledger rows that name a job belong to a settled one, and no two share the once-per-job key. */
  predicate LedgerOk(db: Db) {
    && (forall e :: e in db.ledger ==> e.points != 0)
    && (forall e :: e in db.ledger && e.request.Some? ==>
          e.request.value in db.requests && db.requests[e.request.value].status == Completed)
    && (forall i, j :: 0 <= i < j < |db.ledger| ==> !SameJobEntry(db.ledger[i], db.ledger[j]))
  }

  ghost predicate NoOverdraft(db: Db) {
    forall u :: Balance(db.ledger, u) >= 0
  }

  ghost predicate Inv(db: Db) {
    && RowsOk(db) && QuotesOk(db) && MatchesBacked(db) && SlotsOk(db)
    && ApprovalsOk(db) && PaymentsOk(db) && LedgerOk(db) && NoOverdraft(db)
  }

  lemma InvInitially()
    ensures Inv(EMPTY_DB)
  {
  }

  // ----- Sums over appended rows ------------------------------------------

  lemma {:induction false} LedgerAppend(a: seq<Entry>, b: seq<Entry>, who: Option<UserId>)
    ensures LedgerSum(a + b, who) == LedgerSum(a, who) + LedgerSum(b, who)
  {
    if b == [] {
      assert a + b == a;
    } else {
      assert (a + b)[..|a + b| - 1] == a + b[..|b| - 1];
      LedgerAppend(a, b[..|b| - 1], who);
    }
  }

  // ----- A step that moves open jobs and leaves money alone ---------------

  /** Rows outside `ids` and their quotes are as before, and so is everything that is not a job. */
  predicate Frame(db: Db, next: Db, ids: set<RequestId>) {
    && next.payments == db.payments && next.ledger == db.ledger && next.accounts == db.accounts
    && db.requests.Keys <= next.requests.Keys
    && (forall i :: i in next.requests && i !in ids ==> i in db.requests && next.requests[i] == db.requests[i])
    && (forall k :: k in db.quotes && k.request !in ids ==> k in next.quotes)
    && (forall k :: k in next.quotes && k.request !in ids ==> k in db.quotes && next.quotes[k] == db.quotes[k])
  }

  /** The rows in `ids` are open before and after, well formed, and backed by their quotes. */
  predicate MovedWell(db: Db, next: Db, ids: set<RequestId>) {
    && (forall i :: i in ids && i in db.requests ==> db.requests[i].status != Completed)
    && (forall i :: i in ids && i in next.requests ==>
          && RequestOk(next.requests[i])
          && next.requests[i].status != Completed
          && (next.requests[i].mechanic.Some? ==> QuoteKey(i, next.requests[i].mechanic.value) in next.quotes))
    && (forall k :: k in next.quotes && k.request in ids ==>
          && k.request in next.requests
          && QuoteOk(next.requests[k.request], k, next.quotes[k])
          && (k in db.quotes || IsApproved(db, k.mechanic)))
  }

  /** A moved row takes no slot that another row holds. */
  predicate SlotsFree(db: Db, next: Db, ids: set<RequestId>) {
    forall i, j :: i in ids && i in next.requests && j in next.requests && i != j ==>
      !SameSlot(next.requests[i], next.requests[j]) && !SameSlot(next.requests[j], next.requests[i])
  }

  lemma MovePaymentsOk(db: Db, next: Db, ids: set<RequestId>)
    requires PaymentsOk(db) && LedgerOk(db) && Frame(db, next, ids) && MovedWell(db, next, ids)
    ensures PaymentsOk(next) && LedgerOk(next)
  {
  }

  lemma MoveQuotesOk(db: Db, next: Db, ids: set<RequestId>)
    requires QuotesOk(db) && MatchesBacked(db) && ApprovalsOk(db) && Frame(db, next, ids) && MovedWell(db, next, ids)
    ensures QuotesOk(next) && MatchesBacked(next) && ApprovalsOk(next)
  {
    forall k | k in next.quotes ensures IsApproved(next, k.mechanic) {
      assert IsApproved(db, k.mechanic);
    }
  }

  lemma MoveSlotsOk(db: Db, next: Db, ids: set<RequestId>)
    requires SlotsOk(db) && Frame(db, next, ids) && SlotsFree(db, next, ids)
    ensures SlotsOk(next)
  {
  }

  lemma MoveKeepsInv(db: Db, next: Db, ids: set<RequestId>)
    requires Inv(db) && Frame(db, next, ids) && MovedWell(db, next, ids) && SlotsFree(db, next, ids)
    ensures Inv(next)
  {
    MovePaymentsOk(db, next, ids);
    MoveQuotesOk(db, next, ids);
    MoveSlotsOk(db, next, ids);
    assert RowsOk(next);
  }

  /** Rows that only give slots up, or keep the ones they had. */
  predicate SlotsKept(db: Db, next: Db, ids: set<RequestId>) {
    && next.requests.Keys == db.requests.Keys
    && forall i :: i in ids && i in db.requests ==>
      && next.requests[i].client == db.requests[i].client
      && (Active(next.requests[i]) ==> Active(db.requests[i]))
      && (next.requests[i].mechanic.Some? && HoldsEmergency(next.requests[i], next.requests[i].mechanic.value) ==>
            HoldsEmergency(db.requests[i], next.requests[i].mechanic.value))
  }

  lemma FewerSlots(db: Db, next: Db, ids: set<RequestId>)
    requires SlotsOk(db) && Frame(db, next, ids) && SlotsKept(db, next, ids)
    ensures SlotsFree(db, next, ids)
  {
    forall i, j | i in next.requests && j in next.requests && SameSlot(next.requests[i], next.requests[j])
      ensures i == j
    {
      assert SameSlot(db.requests[i], db.requests[j]);
    }
  }

  // ----- Preservation, action by action -----------------------------------

  lemma BookMoves(db: Db, client: UserId, id: RequestId, u: Urgency)
    requires QuotesOk(db) && Book(db, client, id, u).Done?
    ensures var next := Book(db, client, id, u).value; Frame(db, next, {id}) && MovedWell(db, next, {id})
  {
  }

  lemma BookSlots(db: Db, client: UserId, id: RequestId, u: Urgency)
    requires Book(db, client, id, u).Done?
    ensures SlotsFree(db, Book(db, client, id, u).value, {id})
  {
  }

  lemma KeptByBook(db: Db, client: UserId, id: RequestId, u: Urgency)
    requires Inv(db) && Book(db, client, id, u).Done?
    ensures Inv(Book(db, client, id, u).value)
  {
    BookMoves(db, client, id, u);
    BookSlots(db, client, id, u);
    MoveKeepsInv(db, Book(db, client, id, u).value, {id});
  }

  predicate JobsOk(db: Db) {
    RowsOk(db) && QuotesOk(db) && MatchesBacked(db)
  }

  predicate Moves(db: Db, next: Db, ids: set<RequestId>) {
    Frame(db, next, ids) && MovedWell(db, next, ids) && SlotsKept(db, next, ids)
  }

  lemma MovesKeepInv(db: Db, next: Db, ids: set<RequestId>)
    requires Inv(db) && Moves(db, next, ids)
    ensures Inv(next)
  {
    FewerSlots(db, next, ids);
    MoveKeepsInv(db, next, ids);
  }

  lemma SubmitQuoteMoves(db: Db, m: UserId, id: RequestId, price: nat, eta: Pos)
    requires RowsOk(db) && QuotesOk(db) && SubmitQuote(db, m, id, price, eta).Done?
    ensures Moves(db, SubmitQuote(db, m, id, price, eta).value, {id})
  {
    assert RequestOk(db.requests[id]);
  }

  lemma MatchOk(r: Request, m: UserId, now: Time)
    requires RequestOk(r) && r.status == Pending
    ensures RequestOk(Match(r, m, now))
  {
  }

  lemma AcceptQuoteFrame(db: Db, c: UserId, id: RequestId, k: QuoteKey, now: Time)
    requires AcceptQuote(db, c, id, k, now).Done?
    ensures var next := AcceptQuote(db, c, id, k, now).value; Frame(db, next, {id}) && SlotsKept(db, next, {id})
  {
  }

  lemma AcceptQuoteMoves(db: Db, c: UserId, id: RequestId, k: QuoteKey, now: Time)
    requires RowsOk(db) && QuotesOk(db) && AcceptQuote(db, c, id, k, now).Done?
    ensures Moves(db, AcceptQuote(db, c, id, k, now).value, {id})
  {
    var next := AcceptQuote(db, c, id, k, now).value;
    AcceptQuoteFrame(db, c, id, k, now);
    MatchOk(db.requests[id], k.mechanic, now);
    forall x | x in next.quotes && x.request in {id}
      ensures x in db.quotes && QuoteOk(next.requests[x.request], x, next.quotes[x])
    {
      assert QuoteOk(db.requests[id], x, db.quotes[x]);
    }
    assert MovedWell(db, next, {id});
  }

  lemma AcceptEmergencyFrame(db: Db, m: UserId, id: RequestId, eta: Pos, now: Time)
    requires AcceptEmergency(db, m, id, eta, now).Done?
    ensures Frame(db, AcceptEmergency(db, m, id, eta, now).value, {id})
  {
  }

  lemma AcceptEmergencyQuotes(db: Db, m: UserId, id: RequestId, eta: Pos, now: Time, k: QuoteKey)
    requires RowsOk(db) && QuotesOk(db) && AcceptEmergency(db, m, id, eta, now).Done?
    requires var next := AcceptEmergency(db, m, id, eta, now).value; k in next.quotes && k.request == id
    ensures var next := AcceptEmergency(db, m, id, eta, now).value;
            QuoteOk(next.requests[id], k, next.quotes[k]) && (k in db.quotes || IsApproved(db, k.mechanic))
  {
    if k != QuoteKey(id, m) {
      assert QuoteOk(db.requests[id], k, db.quotes[k]);
    }
    assert RequestOk(db.requests[id]);
  }

  lemma AcceptEmergencyMoves(db: Db, m: UserId, id: RequestId, eta: Pos, now: Time)
    requires JobsOk(db) && AcceptEmergency(db, m, id, eta, now).Done?
    ensures var next := AcceptEmergency(db, m, id, eta, now).value; Frame(db, next, {id}) && MovedWell(db, next, {id})
  {
    var next := AcceptEmergency(db, m, id, eta, now).value;
    AcceptEmergencyFrame(db, m, id, eta, now);
    MatchOk(db.requests[id], m, now);
    forall k | k in next.quotes && k.request in {id}
      ensures QuoteOk(next.requests[id], k, next.quotes[k]) && (k in db.quotes || IsApproved(db, k.mechanic))
    {
      AcceptEmergencyQuotes(db, m, id, eta, now, k);
    }
  }

  lemma AcceptEmergencySlots(db: Db, m: UserId, id: RequestId, eta: Pos, now: Time)
    requires SlotsOk(db) && AcceptEmergency(db, m, id, eta, now).Done?
    ensures SlotsFree(db, AcceptEmergency(db, m, id, eta, now).value, {id})
  {
  }

  lemma KeptByAcceptEmergency(db: Db, m: UserId, id: RequestId, eta: Pos, now: Time)
    requires Inv(db) && AcceptEmergency(db, m, id, eta, now).Done?
    ensures Inv(AcceptEmergency(db, m, id, eta, now).value)
  {
    AcceptEmergencyMoves(db, m, id, eta, now);
    AcceptEmergencySlots(db, m, id, eta, now);
    MoveKeepsInv(db, AcceptEmergency(db, m, id, eta, now).value, {id});
  }

  lemma RowMoves(db: Db, id: RequestId, r: Request)
    requires QuotesOk(db) && MatchesBacked(db) && id in db.requests && Active(db.requests[id])
    requires RequestOk(r) && r.status != Completed && (Active(r) ==> r.status == db.requests[id].status)
    requires r.mechanic == db.requests[id].mechanic && r.client == db.requests[id].client
    requires r.urgency == db.requests[id].urgency
    ensures Moves(db, db.(requests := db.requests[id := r]), {id})
  {
    var next := db.(requests := db.requests[id := r]);
    forall k | k in next.quotes && k.request in {id} ensures QuoteOk(r, k, next.quotes[k]) {
      assert QuoteOk(db.requests[id], k, db.quotes[k]);
    }
    assert MovedWell(db, next, {id});
  }

  lemma PooledRowOk(r: Request, stamps: Stamps)
    requires RequestOk(r) && r.status == Matched
    ensures RequestOk(PooledRow(r, stamps))
  {
  }

  lemma PooledQuoteOk(r: Request, k: QuoteKey, q: Quote, stamps: Stamps, withdraw: bool, now: Time)
    requires r.status == Matched && QuoteOk(r, k, q)
    requires r.urgency == Emergency && r.mechanic == Some(k.mechanic) ==> withdraw
    ensures QuoteOk(PooledRow(r, stamps), k, PooledQuote(q, withdraw, now))
  {
  }

  lemma ReturnToPoolMoves(db: Db, id: RequestId, m: UserId, withdraw: bool, stamps: Stamps, now: Time)
    requires RowsOk(db) && QuotesOk(db) && id in db.requests
    requires db.requests[id].status == Matched && db.requests[id].mechanic == Some(m)
    requires db.requests[id].urgency == Emergency ==> withdraw
    ensures Moves(db, ReturnToPool(db, id, m, withdraw, stamps, now), {id})
  {
    var next := ReturnToPool(db, id, m, withdraw, stamps, now);
    PooledRowOk(db.requests[id], stamps);
    forall x | x in next.quotes && x.request in {id}
      ensures x in db.quotes && QuoteOk(next.requests[x.request], x, next.quotes[x])
    {
      PooledQuoteOk(db.requests[id], x, db.quotes[x], stamps, withdraw && x.mechanic == m, now);
    }
    assert MovedWell(db, next, {id});
  }

  lemma ExpireFrame(db: Db, ids: set<RequestId>, now: Time)
    requires QuotesOk(db)
    ensures Frame(db, Expire(db, ids, now), ids * OverdueSet(db, now))
  {
  }

  lemma ExpireMovedWell(db: Db, ids: set<RequestId>, now: Time)
    requires RowsOk(db) && QuotesOk(db)
    ensures MovedWell(db, Expire(db, ids, now), ids * OverdueSet(db, now))
  {
    var next := Expire(db, ids, now);
    var moved := ids * OverdueSet(db, now);
    forall i | i in moved ensures RequestOk(next.requests[i]) && next.requests[i].status == Pending {
      PooledRowOk(db.requests[i], ExpiryStamps(db.requests[i].mechanic.value, now));
    }
    forall x | x in next.quotes && x.request in moved
      ensures x in db.quotes && QuoteOk(next.requests[x.request], x, next.quotes[x])
    {
      var r := db.requests[x.request];
      PooledQuoteOk(r, x, db.quotes[x], ExpiryStamps(r.mechanic.value, now),
                    r.urgency == Emergency && r.mechanic == Some(x.mechanic), now);
    }
  }

  lemma ExpireMoves(db: Db, ids: set<RequestId>, now: Time)
    requires JobsOk(db)
    ensures Moves(db, Expire(db, ids, now), ids * OverdueSet(db, now))
  {
    ExpireFrame(db, ids, now);
    ExpireMovedWell(db, ids, now);
  }

  // ----- A quote is withdrawn or rejected ---------------------------------

  lemma MovePaymentsByQuote(db: Db, k: QuoteKey, q: Quote)
    requires PaymentsOk(db) && QuotesOk(db) && k in db.quotes && !db.quotes[k].accepted && !q.accepted
    ensures PaymentsOk(db.(quotes := db.quotes[k := q]))
  {
    var next := db.(quotes := db.quotes[k := q]);
    forall p | p in next.payments ensures PaymentOk(next, p) {
      assert PaymentOk(db, p);
    }
    forall i | i in next.requests && next.requests[i].status == Completed ensures HasPayment(next.payments, i) {
      assert HasPayment(db.payments, i);
    }
  }

  lemma KeptByQuoteMark(db: Db, k: QuoteKey, q: Quote)
    requires Inv(db) && k in db.quotes && !db.quotes[k].accepted && Live(db.quotes[k])
    requires q.eta == db.quotes[k].eta && !q.accepted
    ensures Inv(db.(quotes := db.quotes[k := q]))
  {
    var next := db.(quotes := db.quotes[k := q]);
    MovePaymentsByQuote(db, k, q);
    QuoteMarkOk(db, k, q);
    assert RowsOk(next) && SlotsOk(next) && LedgerOk(next) && NoOverdraft(next);
  }

  lemma QuoteMarkOk(db: Db, k: QuoteKey, q: Quote)
    requires QuotesOk(db) && MatchesBacked(db) && ApprovalsOk(db)
    requires k in db.quotes && !db.quotes[k].accepted && Live(db.quotes[k])
    requires q.eta == db.quotes[k].eta && !q.accepted
    ensures var next := db.(quotes := db.quotes[k := q]); QuotesOk(next) && MatchesBacked(next) && ApprovalsOk(next)
  {
  }

  // ----- Payment and points -----------------------------------------------

  /** What a payment about to be settled looks like when it is written. */
  predicate Payable(db: Db, p: Payment) {
    && p.request in db.requests
    && var r := db.requests[p.request];
    && r.status == Matched
    && r.progress.serviceCompleted.Some?
    && p.client == r.client
    && r.mechanic == Some(p.mechanic)
    && p.fee == r.surcharge
    && (p.feeWithPoints.Some? ==> p.feeWithPoints.value == p.fee && FeeCovered(db, p.client, p.fee))
    && AmountDue(db, p.request) == Some(p.amount)
  }

  /** An unpaid job has no payment and no ledger rows, so no insert of its settlement can hit a unique index. */
  lemma UnpaidNeverCollides(db: Db, p: Payment)
    requires PaymentsOk(db) && LedgerOk(db) && p.request in db.requests && db.requests[p.request].status == Matched
    ensures !Collides(db, p)
  {
  }

  lemma SettledJobsOk(db: Db, p: Payment)
    requires JobsOk(db) && Payable(db, p)
    ensures JobsOk(Settled(db, p))
  {
  }

  lemma SettledSlotsOk(db: Db, p: Payment)
    requires SlotsOk(db) && Payable(db, p)
    ensures SlotsOk(Settled(db, p))
  {
    var next := Settled(db, p);
    forall i, j | i in next.requests && j in next.requests && SameSlot(next.requests[i], next.requests[j])
      ensures i == j
    {
      assert SameSlot(db.requests[i], db.requests[j]);
    }
  }

  lemma SettledPaymentsOk(db: Db, p: Payment)
    requires PaymentsOk(db) && Payable(db, p)
    ensures PaymentsOk(Settled(db, p))
  {
    var next := Settled(db, p);
    forall x | x in next.payments ensures PaymentOk(next, x) {
      if x in db.payments {
        assert PaymentOk(db, x);
      }
    }
    forall i | i in next.requests && next.requests[i].status == Completed ensures HasPayment(next.payments, i) {
      if i == p.request {
        assert p in next.payments;
      } else {
        assert HasPayment(db.payments, i);
        var x :| x in db.payments && x.request == i;
        assert x in next.payments;
      }
    }
    forall x | x in db.payments ensures x.request != p.request {
      assert PaymentOk(db, x);
    }
  }

  /** The rows of one settlement are each non-zero, name its job, and are of different kinds. */
  lemma SettlementRows(p: Payment)
    requires p.feeWithPoints.Some? ==> p.feeWithPoints.value > 0
    ensures var rows := SettlementEntries(p);
            && (forall e :: e in rows ==> e.points != 0 && e.request == Some(p.request))
            && (forall i, j :: 0 <= i < j < |rows| ==> rows[i].kind != rows[j].kind)
  {
  }

  lemma SettledLedgerOk(db: Db, p: Payment)
    requires LedgerOk(db) && Payable(db, p)
    ensures LedgerOk(Settled(db, p))
  {
    var next, added := Settled(db, p), SettlementEntries(p);
    SettlementRows(p);
    forall i, j | 0 <= i < j < |next.ledger| ensures !SameJobEntry(next.ledger[i], next.ledger[j]) {
      if j >= |db.ledger| {
        assert next.ledger[j] == added[j - |db.ledger|];
        if i < |db.ledger| {
          assert db.ledger[i] in db.ledger;
        }
      }
    }
  }

  /** What one payment awards, less the fee it took in points. */
  function Net(p: Payment, who: Option<UserId>): int {
    (if Counts(who, p.client) then p.clientPoints - (if p.feeWithPoints.Some? then p.feeWithPoints.value else 0) else 0)
    + if Counts(who, p.mechanic) then p.mechanicPoints else 0
  }

  lemma PartSums(p: Payment, who: Option<UserId>)
    ensures LedgerSum(FeeEntries(p), who)
         == if Counts(who, p.client) && p.feeWithPoints.Some? then 0 - p.feeWithPoints.value else 0
    ensures LedgerSum(ClientCredits(p), who) == if Counts(who, p.client) then p.clientPoints else 0
    ensures LedgerSum(MechanicCredits(p), who) == if Counts(who, p.mechanic) then p.mechanicPoints else 0
  {
  }

  /** The ledger rows of a settlement carry exactly what its payment records, person by person. */
  lemma SettlementSum(p: Payment, who: Option<UserId>)
    ensures LedgerSum(SettlementEntries(p), who) == Net(p, who)
  {
    LedgerAppend(FeeEntries(p) + ClientCredits(p), MechanicCredits(p), who);
    LedgerAppend(FeeEntries(p), ClientCredits(p), who);
    PartSums(p, who);
  }

  lemma SettledBalance(db: Db, p: Payment, u: UserId)
    requires p.request in db.requests
    ensures Balance(Settled(db, p).ledger, u) == Balance(db.ledger, u) + Net(p, Some(u))
  {
    LedgerAppend(db.ledger, SettlementEntries(p), Some(u));
    SettlementSum(p, Some(u));
  }

  lemma SettledNoOverdraft(db: Db, p: Payment)
    requires NoOverdraft(db) && Payable(db, p)
    ensures NoOverdraft(Settled(db, p))
  {
    forall u ensures Balance(Settled(db, p).ledger, u) >= 0 {
      SettledBalance(db, p, u);
      assert Balance(db.ledger, u) >= 0;
    }
  }

  lemma KeptBySettled(db: Db, p: Payment)
    requires Inv(db) && Payable(db, p)
    ensures Inv(Settled(db, p))
  {
    SettledJobsOk(db, p);
    SettledSlotsOk(db, p);
    SettledPaymentsOk(db, p);
    SettledLedgerOk(db, p);
    SettledNoOverdraft(db, p);
    ApprovedFrame(db, Settled(db, p));
  }

  lemma ApprovedFrame(db: Db, next: Db)
    requires ApprovalsOk(db) && next.quotes == db.quotes
    requires forall u :: IsApproved(db, u) ==> IsApproved(next, u)
    ensures ApprovalsOk(next)
  {
  }

  lemma KeptByConvert(db: Db, u: UserId, points: Pos)
    requires Inv(db) && ConvertPoints(db, u, points).Done?
    ensures Inv(ConvertPoints(db, u, points).value)
  {
    var next := ConvertPoints(db, u, points).value;
    var e := next.ledger[|db.ledger|];
    forall v ensures Balance(next.ledger, v) >= 0 {
      LedgerAppend(db.ledger, [e], Some(v));
      assert Balance(db.ledger, v) >= 0;
    }
    LedgerAppendUnkeyed(db, next, e);
    ApprovedFrame(db, next);
    assert PaymentsOk(next) by {
      SamePaymentsOk(db, next);
    }
  }

  lemma LedgerAppendUnkeyed(db: Db, next: Db, e: Entry)
    requires LedgerOk(db) && next.requests == db.requests && next.ledger == db.ledger + [e]
    requires e.points != 0 && e.request.None?
    ensures LedgerOk(next)
  {
  }

  lemma SamePaymentsOk(db: Db, next: Db)
    requires PaymentsOk(db)
    requires next.requests == db.requests && next.quotes == db.quotes && next.payments == db.payments
    ensures PaymentsOk(next)
  {
  }

  // ----- Every action -----------------------------------------------------

  /** The payment a successful call writes. */
  function PaymentOf(db: Db, a: Action, now: Time): Payment
    requires a.DoPay? && PayRefusal(db, a.client, a.id, a.expected).None? && db.requests[a.id].status != Completed
  {
    var r := db.requests[a.id];
    Settlement(a.id, r, AmountDue(db, a.id).value, a.withPoints && FeeCovered(db, a.client, r.surcharge), a.rates, now)
  }

  /** Paying an unpaid finished job always settles it: the unique-violation branch is unreachable. */
  lemma PaySettles(db: Db, a: Action, now: Time)
    requires PaymentsOk(db) && LedgerOk(db) && a.DoPay?
    requires PayRefusal(db, a.client, a.id, a.expected).None? && db.requests[a.id].status != Completed
    ensures Payable(db, PaymentOf(db, a, now))
    ensures Perform(db, a, now) == Done(Settled(db, PaymentOf(db, a, now)))
  {
    UnpaidNeverCollides(db, PaymentOf(db, a, now));
  }

  /** An approved mechanic stays approved. */
  lemma ApprovalForever(db: Db, a: Action, now: Time, u: UserId)
    requires IsApproved(db, u)
    ensures IsApproved(After(db, a, now), u)
  {
    var x :| x in db.accounts && db.accounts[x].user == u && db.accounts[x].status == Approved;
    assert x in After(db, a, now).accounts && After(db, a, now).accounts[x] == db.accounts[x];
  }

  lemma AccountsKeepApprovals(db: Db, a: Action, now: Time)
    requires ApprovalsOk(db) && (a.DoSubmitVerification? || a.DoDecideVerification? || a.DoSetPolicy?)
    ensures ApprovalsOk(After(db, a, now))
  {
    forall u | IsApproved(db, u) ensures IsApproved(After(db, a, now), u) {
      ApprovalForever(db, a, now, u);
    }
    ApprovedFrame(db, After(db, a, now));
  }

  lemma AccountsLeaveTables(db: Db, a: Action, now: Time)
    requires a.DoSubmitVerification? || a.DoDecideVerification? || a.DoSetPolicy?
    ensures var next := After(db, a, now);
            && next.requests == db.requests && next.quotes == db.quotes
            && next.payments == db.payments && next.ledger == db.ledger
  {
  }

  lemma KeptByAccounts(db: Db, a: Action, now: Time)
    requires Inv(db) && (a.DoSubmitVerification? || a.DoDecideVerification? || a.DoSetPolicy?)
    ensures Inv(After(db, a, now))
  {
    AccountsLeaveTables(db, a, now);
    AccountsKeepApprovals(db, a, now);
    SamePaymentsOk(db, After(db, a, now));
  }

  lemma KeptByQuoting(db: Db, a: Action, now: Time)
    requires Inv(db) && (a.DoBook? || a.DoSubmitQuote? || a.DoWithdrawQuote? || a.DoRejectQuote?)
    requires Perform(db, a, now).Done?
    ensures Inv(After(db, a, now))
  {
    match a
    case DoBook(client, id, u) => KeptByBook(db, client, id, u);
    case DoSubmitQuote(m, id, price, eta) =>
      SubmitQuoteMoves(db, m, id, price, eta);
      MovesKeepInv(db, After(db, a, now), {id});
    case DoWithdrawQuote(m, id) =>
      var k := QuoteKey(id, m);
      KeptByQuoteMark(db, k, db.quotes[k].(withdrawnAt := Some(now)));
    case DoRejectQuote(c, id, k) => KeptByQuoteMark(db, k, db.quotes[k].(rejectedAt := Some(now)));
  }

  lemma UpdatedRowFits(db: Db, a: Action, now: Time)
    requires RowsOk(db) && (a.DoAdvance? || a.DoSetAgreed? || a.DoCancel?) && Perform(db, a, now).Done?
    ensures a.id in db.requests && Active(db.requests[a.id]) && a.id in After(db, a, now).requests
    ensures var q, r := db.requests[a.id], After(db, a, now).requests[a.id];
            && RequestOk(r) && r.status != Completed && (Active(r) ==> r.status == q.status)
            && r.mechanic == q.mechanic && r.client == q.client && r.urgency == q.urgency
            && After(db, a, now) == db.(requests := db.requests[a.id := r])
  {
    assert RequestOk(db.requests[a.id]);
  }

  lemma KeptByRowUpdate(db: Db, a: Action, now: Time)
    requires Inv(db) && (a.DoAdvance? || a.DoSetAgreed? || a.DoCancel?)
    requires Perform(db, a, now).Done?
    ensures Inv(After(db, a, now))
  {
    UpdatedRowFits(db, a, now);
    RowMoves(db, a.id, After(db, a, now).requests[a.id]);
    MovesKeepInv(db, After(db, a, now), {a.id});
  }

  lemma KeptByRelease(db: Db, a: Action, now: Time)
    requires Inv(db) && (a.DoReopen? || a.DoMechanicCancel?)
    requires Perform(db, a, now).Done?
    ensures Inv(After(db, a, now))
  {
    var r := db.requests[a.id];
    if a.DoReopen? {
      ReturnToPoolMoves(db, a.id, r.mechanic.value, r.urgency == Emergency, NO_STAMPS, now);
    } else {
      ReturnToPoolMoves(db, a.id, a.mechanic, true, Stamps(Some(a.why), Some(a.mechanic), Some(now), None, None), now);
    }
    MovesKeepInv(db, After(db, a, now), {a.id});
  }

  lemma KeptByPay(db: Db, a: Action, now: Time)
    requires Inv(db) && a.DoPay? && Perform(db, a, now).Done?
    ensures Inv(After(db, a, now))
  {
    if db.requests[a.id].status != Completed {
      PaySettles(db, a, now);
      KeptBySettled(db, PaymentOf(db, a, now));
    }
  }

  lemma InvKept(db: Db, a: Action, now: Time)
    requires Inv(db)
    ensures Inv(After(db, a, now))
  {
    if Perform(db, a, now).Done? {
      match a
      case DoBook(_, _, _) => KeptByQuoting(db, a, now);
      case DoSubmitQuote(_, _, _, _) => KeptByQuoting(db, a, now);
      case DoWithdrawQuote(_, _) => KeptByQuoting(db, a, now);
      case DoRejectQuote(_, _, _) => KeptByQuoting(db, a, now);
      case DoAcceptQuote(c, id, k) =>
        AcceptQuoteMoves(db, c, id, k, now);
        MovesKeepInv(db, After(db, a, now), {id});
      case DoAcceptEmergency(m, id, eta) => KeptByAcceptEmergency(db, m, id, eta, now);
      case DoAdvance(_, _, _) => KeptByRowUpdate(db, a, now);
      case DoSetAgreed(_, _, _) => KeptByRowUpdate(db, a, now);
      case DoCancel(_, _, _) => KeptByRowUpdate(db, a, now);
      case DoReopen(_, _) => KeptByRelease(db, a, now);
      case DoMechanicCancel(_, _, _) => KeptByRelease(db, a, now);
      case DoPay(_, _, _, _, _) => KeptByPay(db, a, now);
      case DoExpire(ids) =>
        ExpireMoves(db, ids, now);
        MovesKeepInv(db, After(db, a, now), ids * OverdueSet(db, now));
      case DoConvert(u, points) => KeptByConvert(db, u, points);
      case _ => KeptByAccounts(db, a, now);
    }
  }
}
