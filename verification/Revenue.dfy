/** Booking platform revenue: reportCompletedPayment of src/services/revenue.service.ts beside the jobs domain. */
module Revenue {
  import opened Common
  import opened Jobs
  import JobsRuns

  const DAY: int := 24 * 60 * MINUTE
  const MAX_FUTURE_SKEW: int := 5 * MINUTE
  const MAX_REPORT_AGE: int := 7 * DAY
  const REPORTS_PER_DAY: nat := 20

  /**
   * A reported id is text: a job's UUID in a spelling the code's pattern accepts,
   * the same UUID in a form it rejects (no hyphens, braces), or something else.
   */
  datatype Ref = JobId(id: RequestId, spelling: nat) | OddId(id: RequestId, spelling: nat) | OtherText(text: nat)

  predicate Names(ref: Ref, id: RequestId) {
    !ref.OtherText? && ref.id == id
  }

  /** A row of revenue_ledger, unique on request_ref. */
  datatype Row = Row(ref: Ref, fee: nat, urgency: Urgency, paidAt: Time, reportedBy: UserId, createdAt: Time)

  datatype State = State(db: Db, rows: seq<Row>)

  datatype Report = Report(ref: Ref, fee: int, paidAt: Time, urgency: Option<Urgency>)

  predicate Booked(rows: seq<Row>, ref: Ref) {
    exists r :: r in rows && r.ref == ref
  }

  /** How many rows a user booked after a moment. */
  function BookedSince(rows: seq<Row>, user: UserId, after: Time): nat {
    if rows == [] then 0
    else
      var r := rows[|rows| - 1];
      BookedSince(rows[..|rows| - 1], user, after) + if r.reportedBy == user && r.createdAt > after then 1 else 0
  }

  predicate IsParty(r: Request, user: UserId) {
    r.client == user || r.mechanic == Some(user)
  }

  function UrgencyOf(report: Report): Urgency {
    if report.urgency.Some? then report.urgency.value else Normal
  }

  /** `legacy`: the compatibility window is open. */
  function Record(s: State, user: UserId, isClient: bool, legacy: bool, report: Report, now: Time): Outcome<State> {
    var urgency := UrgencyOf(report);
    if report.ref.JobId? && report.ref.id in s.db.requests then
      if HasPayment(s.db.payments, report.ref.id) && IsParty(s.db.requests[report.ref.id], user) then Done(s)
      else Refused(NotFound)
    else if !legacy then Refused(NotFound)
    else if !isClient then Refused(Forbidden)
    else if report.fee != Surcharge(urgency) then Refused(BadRequest)
    else if report.paidAt > now + MAX_FUTURE_SKEW then Refused(BadRequest)
    else if report.paidAt < now - MAX_REPORT_AGE then Refused(BadRequest)
    else if Booked(s.rows, report.ref) then Done(s)
    else if BookedSince(s.rows, user, now - DAY) >= REPORTS_PER_DAY then Refused(RateLimited)
    else Done(s.(rows := s.rows + [Row(report.ref, report.fee, urgency, report.paidAt, user, now)]))
  }

  datatype Event =
    | Job(action: Action, now: Time)
    | Reported(user: UserId, isClient: bool, legacy: bool, report: Report, now: Time)

  function Next(s: State, e: Event): State {
    match e
    case Job(action, now) => s.(db := After(s.db, action, now))
    case Reported(user, isClient, legacy, report, now) =>
      var o := Record(s, user, isClient, legacy, report, now);
      if o.Done? then o.value else s
  }

  /** Request ids are random: a new job's id is not one a device reported, in any form. */
  predicate FreshId(s: State, e: Event) {
    e.Job? && e.action.DoBook? ==> forall r :: r in s.rows ==> !Names(r.ref, e.action.id)
  }

  predicate IsRun(states: seq<State>, events: seq<Event>) {
    && |states| == |events| + 1
    && states[0] == State(EMPTY_DB, [])
    && (forall k {:trigger events[k]} :: 0 <= k < |events| ==>
          FreshId(states[k], events[k]) && states[k + 1] == Next(states[k], events[k]))
    && (forall j, k :: 0 <= j < k < |events| ==> events[j].now <= events[k].now)
  }

  // ----- What a report is answered, and what it writes --------------------

  /** The id names, in a spelling the code's pattern accepts, a job the server holds. */
  predicate NamesHeld(s: State, report: Report) {
    report.ref.JobId? && report.ref.id in s.db.requests
  }

  /** The fee is the one of its urgency, and the payment is at most a week old and five minutes ahead. */
  predicate FiguresRight(report: Report, now: Time) {
    var u := if report.urgency.Some? then report.urgency.value else Normal;
    && report.fee == (match u case Normal => 0 case Urgent => 50_00 case Emergency => 100_00)
    && now - 7 * 24 * 60 * 60_000 <= report.paidAt <= now + 5 * 60_000
  }

  /** The rows of one user later than a moment. */
  function RowsSince(rows: seq<Row>, user: UserId, after: Time): set<int> {
    set i | 0 <= i < |rows| && rows[i].reportedBy == user && after < rows[i].createdAt
  }

  lemma {:induction false} BookedSinceIs(rows: seq<Row>, user: UserId, after: Time)
    ensures BookedSince(rows, user, after) == |RowsSince(rows, user, after)|
  {
    if rows != [] {
      var n := |rows| - 1;
      BookedSinceIs(rows[..n], user, after);
      var before := RowsSince(rows[..n], user, after);
      assert n !in before;
      var counts := rows[n].reportedBy == user && after < rows[n].createdAt;
      assert RowsSince(rows, user, after) == before + if counts then {n} else {};
    }
  }

  /** What a report answers: of a held job whether it is paid, to its parties; else the guards of the device window. */
  lemma ReportAnswersExactly(s: State, user: UserId, isClient: bool, legacy: bool, report: Report, now: Time)
    ensures var o := Record(s, user, isClient, legacy, report, now);
            var again := exists r :: r in s.rows && r.ref == report.ref;
            var room := |RowsSince(s.rows, user, now - 24 * 60 * 60_000)| < 20;
            if NamesHeld(s, report) then
              var r := s.db.requests[report.ref.id];
              && (o.Done? <==> (exists p :: p in s.db.payments && p.request == report.ref.id)
                               && (r.client == user || r.mechanic == Some(user)))
              && (o.Refused? ==> o.why == NotFound)
            else
              && (o.Done? <==> legacy && isClient && FiguresRight(report, now) && (again || room))
              && (o.Refused? ==> o.why == if !legacy then NotFound else if !isClient then Forbidden
                                          else if !FiguresRight(report, now) then BadRequest else RateLimited)
  {
    BookedSinceIs(s.rows, user, now - DAY);
  }

  /** What a report writes: nothing, or one row with its figures, the caller and the moment. */
  lemma ReportWrites(s: State, user: UserId, isClient: bool, legacy: bool, report: Report, now: Time)
    requires Record(s, user, isClient, legacy, report, now).Done?
    ensures var n := Record(s, user, isClient, legacy, report, now).value;
            && n.db == s.db
            && n.rows == if NamesHeld(s, report) || (exists r :: r in s.rows && r.ref == report.ref) then s.rows
                         else s.rows + [Row(report.ref, report.fee,
                                            if report.urgency.Some? then report.urgency.value else Normal,
                                            report.paidAt, user, now)]
  {
  }

  // ----- What booking keeps -----------------------------------------------

  /**
   * Each text is booked once, at the fee of its urgency, and in an accepted spelling never for a job the
   * server holds.
   */
  predicate RowsSound(s: State) {
    && (forall i, j :: 0 <= i < j < |s.rows| ==> s.rows[i].ref != s.rows[j].ref)
    && (forall r :: r in s.rows ==> r.fee == Surcharge(r.urgency))
    && (forall r :: r in s.rows && r.ref.JobId? ==> r.ref.id !in s.db.requests)
  }

  lemma RequestIdsGrow(db: Db, a: Action, now: Time)
    ensures After(db, a, now).requests.Keys <= db.requests.Keys + (if a.DoBook? then {a.id} else {})
  {
  }

  lemma SoundStep(s: State, e: Event)
    requires RowsSound(s) && FreshId(s, e)
    ensures RowsSound(Next(s, e))
  {
    if e.Job? {
      RequestIdsGrow(s.db, e.action, e.now);
    }
  }

  /**
   * In every reachable state each reported text is booked at most once, at its
   * urgency's fee, and no row in an accepted spelling names a job the server holds.
   */
  lemma {:induction false} NothingBookedTwice(states: seq<State>, events: seq<Event>, n: nat)
    requires IsRun(states, events) && n < |states|
    ensures RowsSound(states[n])
  {
    if n > 0 {
      NothingBookedTwice(states, events, n - 1);
      var e := events[n - 1];
      SoundStep(states[n - 1], e);
    }
  }

  /** The jobs side of a run is a run of the jobs domain, so all its invariants hold here. */
  lemma {:induction false} JobsReachable(states: seq<State>, events: seq<Event>, n: nat)
    requires IsRun(states, events) && n < |states|
    ensures JobsRuns.Reachable(states[n].db)
  {
    if n == 0 {
      JobsRuns.EmptyReachable();
    } else {
      JobsReachable(states, events, n - 1);
      var e := events[n - 1];
      if e.Job? {
        JobsRuns.ReachableNext(states[n - 1].db, JobsRuns.Event(e.action, e.now));
      }
    }
  }

  /**
   * The id is compared as text: whenever a report of a job books a row and the
   * cap leaves room, the same job under another spelling books a second one.
   */
  lemma SecondSpellingBooksAgain(s: State, user: UserId, report: Report, spelling: nat, now: Time)
    requires report.ref.JobId? && spelling != report.ref.spelling && !Booked(s.rows, JobId(report.ref.id, spelling))
    requires Record(s, user, true, true, report, now).Done?
    requires |Record(s, user, true, true, report, now).value.rows| == |s.rows| + 1
    requires BookedSince(s.rows, user, now - DAY) + 1 < REPORTS_PER_DAY
    ensures var once := Record(s, user, true, true, report, now).value;
            var again := Record(once, user, true, true, report.(ref := JobId(report.ref.id, spelling)), now);
            again.Done? && |again.value.rows| == |s.rows| + 2
  {
  }

  // ----- When a job is booked more than once ------------------------------

  /** The guards a report passes on its way to the ledger, before the call. */
  predicate Admitted(s: State, e: Event)
    requires e.Reported?
  {
    && !(e.report.ref.JobId? && e.report.ref.id in s.db.requests)
    && e.legacy && e.isClient
    && e.report.fee == Surcharge(UrgencyOf(e.report))
    && e.now - MAX_REPORT_AGE <= e.report.paidAt <= e.now + MAX_FUTURE_SKEW
    && BookedSince(s.rows, e.user, e.now - DAY) < REPORTS_PER_DAY
  }

  /** A report of job id, under whatever spelling, that passes the guards in a text not yet booked. */
  predicate BooksJob(s: State, e: Event, id: RequestId) {
    e.Reported? && Names(e.report.ref, id) && Admitted(s, e) && !Booked(s.rows, e.report.ref)
  }

  /** How many rows name a job. */
  function RowCount(rows: seq<Row>, id: RequestId): nat {
    if rows == [] then 0
    else RowCount(rows[..|rows| - 1], id) + if Names(rows[|rows| - 1].ref, id) then 1 else 0
  }

  /** A step adds a row naming the job exactly when it is such a report. */
  lemma RowCountStep(s: State, e: Event, id: RequestId)
    ensures RowCount(Next(s, e).rows, id) == RowCount(s.rows, id) + if BooksJob(s, e, id) then 1 else 0
  {
    var next := Next(s, e).rows;
    assert next == s.rows || (|next| == |s.rows| + 1 && next[..|s.rows|] == s.rows);
  }

  /** A report that books the job while another row already names it. */
  predicate BooksAgain(s: State, e: Event, id: RequestId) {
    BooksJob(s, e, id) && exists r :: r in s.rows && Names(r.ref, id)
  }

  lemma {:induction false} NamedIffCounted(rows: seq<Row>, id: RequestId)
    ensures RowCount(rows, id) > 0 <==> exists r :: r in rows && Names(r.ref, id)
  {
    if rows != [] {
      var init, last := rows[..|rows| - 1], rows[|rows| - 1];
      assert rows == init + [last];
      NamedIffCounted(init, id);
    }
  }

  lemma {:induction false} RowCountGrows(states: seq<State>, events: seq<Event>, i: nat, d: nat, id: RequestId)
    requires IsRun(states, events) && i + d < |states|
    ensures RowCount(states[i].rows, id) <= RowCount(states[i + d].rows, id)
  {
    if d > 0 {
      RowCountGrows(states, events, i, d - 1, id);
      var e := events[i + d - 1];
      RowCountStep(states[i + d - 1], e, id);
    }
  }

  predicate AgainAt(states: seq<State>, events: seq<Event>, k: nat, id: RequestId) {
    k < |events| && k < |states| && BooksAgain(states[k], events[k], id)
  }

  /** Some step before n booked the job while another row named it. */
  predicate AgainBefore(states: seq<State>, events: seq<Event>, n: nat, id: RequestId) {
    exists k :: 0 <= k < n && AgainAt(states, events, k, id)
  }

  lemma AgainNext(states: seq<State>, events: seq<Event>, n: nat, id: RequestId)
    ensures AgainBefore(states, events, n + 1, id) <==>
            AgainBefore(states, events, n, id) || AgainAt(states, events, n, id)
  {
  }

  lemma BookedOnceStep(s: State, e: Event, id: RequestId)
    ensures RowCount(Next(s, e).rows, id) <= 1 <==> RowCount(s.rows, id) <= 1 && !BooksAgain(s, e, id)
  {
    RowCountStep(s, e, id);
    NamedIffCounted(s.rows, id);
  }

  /**
   * Over every run a job is booked at most once exactly as long as no report of
   * it passed the guards, in a spelling not yet booked, while another was.
   */
  lemma {:induction false} JobBookedOnceExactly(states: seq<State>, events: seq<Event>, n: nat, id: RequestId)
    requires IsRun(states, events) && n < |states|
    ensures RowCount(states[n].rows, id) <= 1 <==> !AgainBefore(states, events, n, id)
  {
    if n > 0 {
      JobBookedOnceExactly(states, events, n - 1, id);
      var e := events[n - 1];
      BookedOnceStep(states[n - 1], e, id);
      AgainNext(states, events, n - 1, id);
    }
  }

  /** Two spellings of one job, reported one after the other by the same client. */
  function TwoSpellings(user: UserId, id: RequestId): seq<Event> {
    [Reported(user, true, true, Report(JobId(id, 0), 50_00, 0, Some(Urgent)), 0),
     Reported(user, true, true, Report(JobId(id, 1), 50_00, 0, Some(Urgent)), 0)]
  }

  /** The run in which they are reported to an empty database books the job twice. */
  lemma TwoSpellingsBookTwice(user: UserId, id: RequestId) returns (states: seq<State>)
    ensures IsRun(states, TwoSpellings(user, id)) && RowCount(states[2].rows, id) == 2
  {
    var events, start := TwoSpellings(user, id), State(EMPTY_DB, []);
    var row := Row(JobId(id, 0), 50_00, Urgent, 0, user, 0);
    var once := start.(rows := [row]);
    states := [start, once, Next(once, events[1])];
    assert Next(start, events[0]) == once;
    assert [row][..0] == [];
    assert BooksJob(start, events[0], id) && BooksJob(once, events[1], id);
    RowCountStep(start, events[0], id);
    RowCountStep(once, events[1], id);
  }

  // ----- When a job the server holds is booked as well --------------------

  /** A report of a held job, in a form the code's pattern rejects, that passes the guards. */
  predicate BooksHeld(s: State, e: Event, id: RequestId) {
    BooksJob(s, e, id) && e.report.ref.OddId? && id in s.db.requests
  }

  predicate HeldAt(states: seq<State>, events: seq<Event>, k: nat, id: RequestId) {
    k < |events| && k < |states| && BooksHeld(states[k], events[k], id)
  }

  predicate HeldBefore(states: seq<State>, events: seq<Event>, n: nat, id: RequestId) {
    exists k :: 0 <= k < n && HeldAt(states, events, k, id)
  }

  lemma HeldNext(states: seq<State>, events: seq<Event>, n: nat, id: RequestId)
    ensures HeldBefore(states, events, n + 1, id) <==>
            HeldBefore(states, events, n, id) || HeldAt(states, events, n, id)
  {
  }

  /** Before a job is held nobody can have reported it as held. */
  lemma NotHeldBefore(states: seq<State>, events: seq<Event>, n: nat, id: RequestId)
    requires IsRun(states, events) && n < |states| && id !in states[n].db.requests
    ensures !HeldBefore(states, events, n + 1, id)
  {
    forall k | 0 <= k < n + 1 ensures !HeldAt(states, events, k, id) {
      if HeldAt(states, events, k, id) {
        HeldStays(states, events, k, n - k, id);
      }
    }
  }

  /**
   * Over every run, a job the server holds has a row in the ledger exactly when
   * somebody reported it, while it was held, in a form the pattern rejects and
   * past the guards.
   */
  lemma {:induction false} HeldJobBookedExactly(states: seq<State>, events: seq<Event>, n: nat, id: RequestId)
    requires IsRun(states, events) && n < |states| && id in states[n].db.requests
    ensures RowCount(states[n].rows, id) > 0 <==> HeldBefore(states, events, n, id)
  {
    var e := events[n - 1];
    RowCountStep(states[n - 1], e, id);
    if id in states[n - 1].db.requests {
      HeldJobBookedExactly(states, events, n - 1, id);
      HeldNext(states, events, n - 1, id);
    } else {
      NewJobUnnamed(states[n - 1], e, id);
      NotHeldBefore(states, events, n - 1, id);
    }
  }

  lemma NewJobUnnamed(s: State, e: Event, id: RequestId)
    requires FreshId(s, e) && id !in s.db.requests && id in Next(s, e).db.requests
    ensures RowCount(s.rows, id) == 0 && !BooksJob(s, e, id)
  {
    RequestIdsGrow(s.db, e.action, e.now);
    NamedIffCounted(s.rows, id);
  }

  lemma {:induction false} HeldStays(states: seq<State>, events: seq<Event>, i: nat, d: nat, id: RequestId)
    requires IsRun(states, events) && i + d < |states| && id in states[i].db.requests
    ensures id in states[i + d].db.requests
  {
    if d > 0 {
      HeldStays(states, events, i, d - 1, id);
      var e := events[i + d - 1];
      if e.Job? {
        RequestKept(states[i + d - 1].db, e.action, e.now, id);
      }
    }
  }

  lemma RequestKept(db: Db, a: Action, now: Time, id: RequestId)
    requires id in db.requests
    ensures id in After(db, a, now).requests
  {
  }

  /** A client books a Normal job and reports it without hyphens: it is held, and booked as well. */
  lemma HeldJobBookedAnyway(user: UserId, id: RequestId) returns (states: seq<State>, events: seq<Event>)
    ensures IsRun(states, events) && |events| == 2
    ensures id in states[2].db.requests && RowCount(states[2].rows, id) == 1
  {
    var start, held := State(EMPTY_DB, []), State(EMPTY_DB.(requests := map[id := NewRequest(user, Normal)]), []);
    var row := Row(OddId(id, 0), 0, Normal, 0, user, 0);
    events := [Job(DoBook(user, id, Normal), 0), Reported(user, true, true, Report(OddId(id, 0), 0, 0, None), 0)];
    assert Next(start, events[0]) == held;
    assert Next(held, events[1]) == held.(rows := [row]);
    states := [start, held, held.(rows := [row])];
    assert [row][..0] == [];
  }

  // ----- Each job counted once --------------------------------------------

  /** How often a job counts as revenue: its payment, and the rows that name it. */
  function TimesCounted(s: State, id: RequestId): nat {
    (if HasPayment(s.db.payments, id) then 1 else 0) + RowCount(s.rows, id)
  }

  /**
   * Over every run a job counts at most once exactly when it was neither booked again nor both paid and
   * booked while held.
   */
  lemma CountedOnceExactly(states: seq<State>, events: seq<Event>, n: nat, id: RequestId)
    requires IsRun(states, events) && n < |states|
    ensures TimesCounted(states[n], id) <= 1 <==>
            && !AgainBefore(states, events, n, id)
            && (HasPayment(states[n].db.payments, id) ==> !HeldBefore(states, events, n, id))
  {
    JobBookedOnceExactly(states, events, n, id);
    if HasPayment(states[n].db.payments, id) {
      JobsReachable(states, events, n);
      JobsRuns.CompletedIffPaidOnce(states[n].db, id);
      HeldJobBookedExactly(states, events, n, id);
    }
  }

  // ----- The daily cap ----------------------------------------------------

  function BookedWithin(rows: seq<Row>, user: UserId, after: Time, upTo: Time): nat {
    if rows == [] then 0
    else
      var r := rows[|rows| - 1];
      BookedWithin(rows[..|rows| - 1], user, after, upTo)
      + if r.reportedBy == user && after < r.createdAt <= upTo then 1 else 0
  }

  lemma {:induction false} WithinIsSince(rows: seq<Row>, user: UserId, after: Time, later: Time, upTo: Time)
    requires after <= later
    ensures BookedWithin(rows, user, later, upTo) <= BookedSince(rows, user, after)
  {
    if rows != [] {
      WithinIsSince(rows[..|rows| - 1], user, after, later, upTo);
    }
  }

  lemma CapStep(s: State, e: Event, user: UserId, from: Time)
    requires BookedWithin(s.rows, user, from, from + DAY) <= REPORTS_PER_DAY
    ensures BookedWithin(Next(s, e).rows, user, from, from + DAY) <= REPORTS_PER_DAY
  {
    var next := Next(s, e).rows;
    if |next| > |s.rows| {
      assert next[..|next| - 1] == s.rows;
      if e.user == user && from < e.now <= from + DAY {
        WithinIsSince(s.rows, user, e.now - DAY, from, from + DAY);
      }
    }
  }

  /** No client books more than 20 reports in any 24 hours of any run. */
  lemma {:induction false} DailyCap(states: seq<State>, events: seq<Event>, n: nat, user: UserId, from: Time)
    requires IsRun(states, events) && n < |states|
    ensures BookedWithin(states[n].rows, user, from, from + DAY) <= REPORTS_PER_DAY
  {
    if n > 0 {
      DailyCap(states, events, n - 1, user, from);
      var e := events[n - 1];
      CapStep(states[n - 1], e, user, from);
    }
  }

  // ----- The ledger as it is written --------------------------------------

  class RevenueLedger {
    var rows: seq<Row>

    constructor ()
      ensures rows == []
    {
      rows := [];
    }

    method ReportCompletedPayment(db: Db, user: UserId, isClient: bool, legacy: bool, report: Report, now: Time)
      returns (outcome: Outcome<()>)
      modifies this
      ensures match Record(State(db, old(rows)), user, isClient, legacy, report, now)
              case Done(after) => rows == after.rows && outcome == Done(())
              case Refused(why) => rows == old(rows) && outcome == Refused(why)
    {
      if report.ref.JobId? && report.ref.id in db.requests {
        var job := db.requests[report.ref.id];
        if HasPayment(db.payments, report.ref.id) && IsParty(job, user) { return Done(()); }
        return Refused(NotFound);
      }
      if !legacy { return Refused(NotFound); }
      if !isClient { return Refused(Forbidden); }
      var urgency := if report.urgency.Some? then report.urgency.value else Normal;
      if report.fee != Surcharge(urgency) { return Refused(BadRequest); }
      if report.paidAt > now + MAX_FUTURE_SKEW { return Refused(BadRequest); }
      if report.paidAt < now - MAX_REPORT_AGE { return Refused(BadRequest); }
      if Booked(rows, report.ref) { return Done(()); }
      var today := BookedSince(rows, user, now - DAY);
      if today >= REPORTS_PER_DAY { return Refused(RateLimited); }
      rows := rows + [Row(report.ref, report.fee, urgency, report.paidAt, user, now)];
      return Done(());
    }
  }
}
