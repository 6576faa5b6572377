/** Conservation of points over every run, whatever the points policy was at each payment. */
module Points {
  import opened Common
  import opened Jobs
  import opened JobsInvariant
  import opened JobsRuns
  import opened JobsAnswers

  function ConvertedSum(ledger: seq<Entry>, who: Option<UserId>): int {
    if ledger == [] then 0
    else
      var e := ledger[|ledger| - 1];
      ConvertedSum(ledger[..|ledger| - 1], who)
      + if Counts(who, e.user) && e.kind == MechanicConverted && e.pesos.Some? then e.pesos.value else 0
  }

  function NetSum(payments: seq<Payment>, who: Option<UserId>): int {
    if payments == [] then 0
    else NetSum(payments[..|payments| - 1], who) + Net(payments[|payments| - 1], who)
  }

  ghost predicate Conserved(db: Db) {
    forall who :: LedgerSum(db.ledger, who) == NetSum(db.payments, who) - ConvertedSum(db.ledger, who)
  }

  lemma {:induction false} ConvertedAppend(a: seq<Entry>, b: seq<Entry>, who: Option<UserId>)
    ensures ConvertedSum(a + b, who) == ConvertedSum(a, who) + ConvertedSum(b, who)
  {
    if b == [] {
      assert a + b == a;
    } else {
      assert (a + b)[..|a + b| - 1] == a + b[..|b| - 1];
      ConvertedAppend(a, b[..|b| - 1], who);
    }
  }

  lemma SettlementConvertsNothing(p: Payment, who: Option<UserId>)
    ensures ConvertedSum(SettlementEntries(p), who) == 0
  {
    ConvertedAppend(FeeEntries(p) + ClientCredits(p), MechanicCredits(p), who);
    ConvertedAppend(FeeEntries(p), ClientCredits(p), who);
  }

  lemma ConservedBySettled(db: Db, p: Payment, who: Option<UserId>)
    requires Conserved(db) && p.request in db.requests
    ensures var next := Settled(db, p);
            LedgerSum(next.ledger, who) == NetSum(next.payments, who) - ConvertedSum(next.ledger, who)
  {
    LedgerAppend(db.ledger, SettlementEntries(p), who);
    SettlementSum(p, who);
    ConvertedAppend(db.ledger, SettlementEntries(p), who);
    SettlementConvertsNothing(p, who);
    assert (db.payments + [p])[..|db.payments|] == db.payments;
  }

  lemma ConservedByConvert(db: Db, u: UserId, points: Pos, who: Option<UserId>)
    requires Conserved(db) && ConvertPoints(db, u, points).Done?
    ensures var next := ConvertPoints(db, u, points).value;
            LedgerSum(next.ledger, who) == NetSum(next.payments, who) - ConvertedSum(next.ledger, who)
  {
  }

  /** Only payments and conversions move money. */
  lemma MoneyFrame(db: Db, e: Event)
    requires !e.action.DoPay? && !e.action.DoConvert?
    ensures Next(db, e).payments == db.payments && Next(db, e).ledger == db.ledger
  {
    LedgerFrame(db, e);
    MoneyGrowsOnlyByPay(db, e);
  }

  lemma LedgerFrame(db: Db, e: Event)
    requires !e.action.DoPay? && !e.action.DoConvert?
    ensures Next(db, e).ledger == db.ledger
  {
  }

  lemma ConservedStep(db: Db, e: Event)
    requires Inv(db) && Conserved(db)
    ensures Conserved(Next(db, e))
  {
    if Perform(db, e.action, e.now).Done? {
      if e.action.DoPay? {
        if db.requests[e.action.id].status != Completed {
          PaySettles(db, e.action, e.now);
          forall who { ConservedBySettled(db, PaymentOf(db, e.action, e.now), who); }
        }
      } else if e.action.DoConvert? {
        forall who { ConservedByConvert(db, e.action.user, e.action.points, who); }
      } else {
        MoneyFrame(db, e);
      }
    }
  }

  lemma {:induction false} RunConserves(states: seq<Db>, events: seq<Event>, n: nat)
    requires IsRun(states, events) && n < |states| && states[0] == EMPTY_DB
    ensures Conserved(states[n])
  {
    if n > 0 {
      RunConserves(states, events, n - 1);
      InvInitially();
      RunKeepsInv(states, events, n - 1);
      ConservedStep(states[n - 1], events[n - 1]);
    }
  }

  /**
   * In every reachable state the points people hold, one by one and together,
   * are what their payments awarded, less fees paid with points and conversions.
   */
  lemma PointsConserved(db: Db, who: Option<UserId>)
    requires Reachable(db)
    ensures LedgerSum(db.ledger, who) == NetSum(db.payments, who) - ConvertedSum(db.ledger, who)
  {
    var states, events :| IsRun(states, events) && states[0] == EMPTY_DB && states[|events|] == db;
    RunConserves(states, events, |events|);
  }

  // ----- The wallet -------------------------------------------------------

  datatype Wallet = Wallet(balance: int, earnings: int, converted: int, available: int)

  function Earnings(payments: seq<Payment>, u: UserId): int {
    if payments == [] then 0
    else
      var p := payments[|payments| - 1];
      Earnings(payments[..|payments| - 1], u) + if p.mechanic == u then p.amount else 0
  }

  function Awarded(payments: seq<Payment>, u: UserId): int {
    if payments == [] then 0
    else
      var p := payments[|payments| - 1];
      Awarded(payments[..|payments| - 1], u) + if p.mechanic == u then p.mechanicPoints else 0
  }

  function GetWallet(db: Db, u: UserId): Wallet {
    var earnings, converted := Earnings(db.payments, u), ConvertedSum(db.ledger, Some(u));
    Wallet(Balance(db.ledger, u), earnings, converted, earnings + converted)
  }

  /** What a user's jobs as a client brought, less the fees they paid with points. */
  function ClientNet(payments: seq<Payment>, u: UserId): int {
    if payments == [] then 0
    else
      var p := payments[|payments| - 1];
      ClientNet(payments[..|payments| - 1], u)
      + if p.client == u then p.clientPoints - (if p.feeWithPoints.Some? then p.feeWithPoints.value else 0) else 0
  }

  lemma {:induction false} NetSplits(payments: seq<Payment>, u: UserId)
    ensures NetSum(payments, Some(u)) == Awarded(payments, u) + ClientNet(payments, u)
    ensures (forall p :: p in payments ==> p.client != u) ==> ClientNet(payments, u) == 0
  {
    if payments != [] {
      NetSplits(payments[..|payments| - 1], u);
      assert payments[|payments| - 1] in payments;
    }
  }

  /**
   * A wallet adds up: the points still held and the pesos converted are together
   * the points the user's jobs awarded as a mechanic, plus their net as a client,
   * which is nothing for who never was one; and no balance is overdrawn.
   */
  lemma WalletAddsUp(db: Db, u: UserId)
    requires Reachable(db)
    ensures var w := GetWallet(db, u);
            w.balance >= 0 && w.balance + w.converted == Awarded(db.payments, u) + ClientNet(db.payments, u)
    ensures (forall p :: p in db.payments ==> p.client != u) ==> ClientNet(db.payments, u) == 0
  {
    ReachableInv(db);
    PointsConserved(db, Some(u));
    NetSplits(db.payments, u);
    assert Balance(db.ledger, u) >= 0;
  }

  // ----- Awards at the policy in force ------------------------------------

  /** An award is within half a hundredth of amount times rate, and exactly half rounds up. */
  lemma AwardRounding(rates: Policy, amount: nat)
    ensures -5_000 < MechanicAward(rates, amount) * 10_000 - amount * rates.perPeso <= 5_000
    ensures amount == 0 ==> MechanicAward(rates, amount) == 0
  {
  }

  /**
   * A payment of a job of this urgency carries the client's award of that urgency at these rates, and the
   * mechanic's is amount times rate rounded half up.
   */
  predicate AwardedBy(rates: Policy, p: Payment, u: Urgency) {
    && (u == Normal ==> p.clientPoints == rates.normal)
    && (u == Urgent ==> p.clientPoints == rates.urgent)
    && (u == Emergency ==> p.clientPoints == rates.emergency)
    && -5_000 < p.mechanicPoints * 10_000 - p.amount * rates.perPeso <= 5_000
  }

  /** Every payment of the run reads the policy in force when it settles. */
  predicate AtPolicy(states: seq<Db>, events: seq<Event>)
    requires |events| <= |states|
  {
    forall k {:trigger events[k]} :: 0 <= k < |events| && events[k].action.DoPay? ==>
      events[k].action.rates == states[k].policy
  }

  /** Step k settles p. */
  predicate SettlesAt(states: seq<Db>, events: seq<Event>, k: nat, p: Payment) {
    && k < |events| && k + 1 < |states|
    && p.request in states[k].requests && !HasPayment(states[k].payments, p.request)
    && states[k + 1] == Settled(states[k], p) && p.completedAt == events[k].now
    && events[k].action.DoPay? && events[k].action.id == p.request && events[k].action.client == p.client
  }

  /** The call is a payment that goes ahead, and settles its unpaid job. */
  predicate SettlesNow(db: Db, e: Event) {
    && e.action.DoPay? && PayRefusal(db, e.action.client, e.action.id, e.action.expected).None?
    && db.requests[e.action.id].status == Matched && !HasPayment(db.payments, e.action.id)
    && Next(db, e) == Settled(db, PaymentOf(db, e.action, e.now))
  }

  lemma PaymentsStep(db: Db, e: Event)
    requires Reachable(db)
    ensures Next(db, e).payments == db.payments || SettlesNow(db, e)
  {
    if !e.action.DoPay? {
      MoneyGrowsOnlyByPay(db, e);
    } else if PayRefusal(db, e.action.client, e.action.id, e.action.expected).None?
              && db.requests[e.action.id].status != Completed {
      ReachableInv(db);
      PaySettles(db, e.action, e.now);
      UnpaidNeverCollides(db, PaymentOf(db, e.action, e.now));
    }
  }

  lemma MoneyGrowsOnlyByPay(db: Db, e: Event)
    requires !e.action.DoPay?
    ensures Next(db, e).payments == db.payments
  {
  }

  /** Every payment of a run was settled at one of its steps. */
  lemma {:induction false} EveryPaymentSettled(states: seq<Db>, events: seq<Event>, n: nat, p: Payment)
    requires IsRun(states, events) && n < |states| && Reachable(states[0])
    requires p in states[n].payments && p !in states[0].payments
    ensures exists k: nat :: k < n && SettlesAt(states, events, k, p)
  {
    RunReachable(states, events, n - 1);
    var e := events[n - 1];
    PaymentsStep(states[n - 1], e);
    if p in states[n - 1].payments {
      EveryPaymentSettled(states, events, n - 1, p);
    } else {
      assert SettlesAt(states, events, n - 1, p);
    }
  }

  /**
   * In every run whose payments read the policy in force, every payment carries
   * the awards of the policy of the state it settled in, rounded half up.
   */
  lemma AwardsAtPolicy(states: seq<Db>, events: seq<Event>, n: nat, p: Payment)
    requires IsRun(states, events) && n < |states| && states[0] == EMPTY_DB && AtPolicy(states, events)
    requires p in states[n].payments
    ensures exists k: nat :: k < n && SettlesAt(states, events, k, p)
                             && AwardedBy(states[k].policy, p, states[k].requests[p.request].urgency)
  {
    EmptyReachable();
    EveryPaymentSettled(states, events, n, p);
    var k: nat :| k < n && SettlesAt(states, events, k, p);
    SettledAwards(states, events, k, p);
  }

  lemma SettledAwards(states: seq<Db>, events: seq<Event>, k: nat, p: Payment)
    requires IsRun(states, events) && Reachable(states[0]) && SettlesAt(states, events, k, p)
    ensures AwardedBy(events[k].action.rates, p, states[k].requests[p.request].urgency)
  {
    var db, e := states[k], events[k];
    RunReachable(states, events, k);
    PaymentsStep(db, e);
    var q := PaymentOf(db, e.action, e.now);
    assert db.payments + [p] == db.payments + [q] ==> p == q by {
      assert (db.payments + [p])[|db.payments|] == p && (db.payments + [q])[|db.payments|] == q;
    }
    AwardRounding(e.action.rates, p.amount);
  }

  // ----- What a payment and its ledger rows hold --------------------------

  /** The ledger rows of one settlement, in the order they are inserted. */
  function RowsFor(p: Payment): seq<Entry> {
    (if p.feeWithPoints.Some? then [Entry(p.client, ClientPaidSurcharge, 0 - p.fee, Some(p.fee), Some(p.request))]
     else [])
    + (if p.clientPoints > 0 then [Entry(p.client, ClientJobCompleted, p.clientPoints, None, Some(p.request))] else [])
    + (if p.mechanicPoints > 0 then [Entry(p.mechanic, MechanicJobCompleted, p.mechanicPoints, None, Some(p.request))]
       else [])
  }

  /** The payment a call of the client writes for a finished job of theirs. */
  predicate PaymentFits(db: Db, e: Event, p: Payment)
    requires e.action.DoPay?
  {
    && p.request == e.action.id && p.client == e.action.client && p.completedAt == e.now
    && StatusIs(db, p.request, Matched) && Backed(db, p.request)
    && var r := db.requests[p.request];
    && r.mechanic == Some(p.mechanic) && Costs(db, p.request, p.amount) && p.fee == r.surcharge
    && p.feeWithPoints == (if e.action.withPoints && p.fee > 0 && p.fee <= Balance(db.ledger, p.client) then Some(p.fee)
                           else None)
    && AwardedBy(e.action.rates, p, r.urgency)
  }

  lemma PaymentWritten(db: Db, e: Event)
    requires Reachable(db) && SettlesNow(db, e)
    ensures var p := PaymentOf(db, e.action, e.now);
            && PaymentFits(db, e, p)
            && Next(db, e).payments == db.payments + [p] && Next(db, e).ledger == db.ledger + RowsFor(p)
  {
    MatchHolds(db, e.action.id);
    AwardRounding(e.action.rates, AmountDue(db, e.action.id).value);
  }

  /** A call adds one payment with its ledger rows, or one conversion, or leaves the money as it is. */
  lemma MoneyWritten(db: Db, e: Event)
    requires Reachable(db)
    ensures Next(db, e).payments != db.payments ==>
              && e.action.DoPay?
              && exists p :: && PaymentFits(db, e, p)
                             && Next(db, e).payments == db.payments + [p]
                             && Next(db, e).ledger == db.ledger + RowsFor(p)
    ensures Next(db, e).payments == db.payments ==>
              Next(db, e).ledger == db.ledger + ConversionRows(db, e)
  {
    PaymentsStep(db, e);
    if SettlesNow(db, e) {
      PaymentWritten(db, e);
      assert Next(db, e).payments[|db.payments|] == PaymentOf(db, e.action, e.now);
    } else if !e.action.DoConvert? {
      UnpaidLedger(db, e);
    }
  }

  /** A conversion takes exactly the points asked for, when the balance has them. */
  function ConversionRows(db: Db, e: Event): seq<Entry> {
    if e.action.DoConvert? && e.action.points <= Balance(db.ledger, e.action.user)
    then [Entry(e.action.user, MechanicConverted, 0 - e.action.points, Some(e.action.points), None)] else []
  }

  lemma UnpaidLedger(db: Db, e: Event)
    requires Reachable(db) && !e.action.DoConvert? && !SettlesNow(db, e)
    ensures Next(db, e).ledger == db.ledger
  {
    if !e.action.DoPay? {
      LedgerFrame(db, e);
    } else if PayRefusal(db, e.action.client, e.action.id, e.action.expected).None?
              && db.requests[e.action.id].status != Completed {
      ReachableInv(db);
      PaySettles(db, e.action, e.now);
      UnpaidNeverCollides(db, PaymentOf(db, e.action, e.now));
    }
  }

  /** A settlement moves a wallet by the payout of its mechanic and the points of its parties, and no other wallet. */
  lemma WalletMoves(db: Db, e: Event, u: UserId)
    requires Reachable(db) && SettlesNow(db, e)
    ensures var p, w, n := PaymentOf(db, e.action, e.now), GetWallet(db, u), GetWallet(Next(db, e), u);
            && n.earnings == w.earnings + (if u == p.mechanic then p.amount else 0)
            && n.converted == w.converted && n.available == n.earnings + n.converted
            && n.balance == w.balance + (if u == p.mechanic then p.mechanicPoints else 0)
               + (if u == p.client then p.clientPoints - (if p.feeWithPoints.Some? then p.fee else 0) else 0)
  {
    PaymentWritten(db, e);
    var p := PaymentOf(db, e.action, e.now);
    assert (db.payments + [p])[..|db.payments|] == db.payments;
    LedgerAppend(db.ledger, SettlementEntries(p), Some(u));
    SettlementSum(p, Some(u));
    ConvertedAppend(db.ledger, SettlementEntries(p), Some(u));
    SettlementConvertsNothing(p, Some(u));
  }

  /** Whoever converts has so many points fewer and so many pesos more; nobody else's money moves. */
  lemma ConversionExact(db: Db, user: UserId, points: Pos, now: Time, who: UserId)
    requires points <= Balance(db.ledger, user)
    ensures var next := After(db, DoConvert(user, points), now);
            && Balance(next.ledger, who) == Balance(db.ledger, who) - (if who == user then points else 0)
            && ConvertedSum(next.ledger, Some(who))
               == ConvertedSum(db.ledger, Some(who)) + (if who == user then points else 0)
  {
    var e := Entry(user, MechanicConverted, 0 - points, Some(points), None);
    assert (db.ledger + [e])[..|db.ledger|] == db.ledger;
  }
}
