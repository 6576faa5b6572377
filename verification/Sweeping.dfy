/** The expiry sweep: a loop over overdue rows in id order adds up to one order-free release. */
module Sweeping {
  import opened Common
  import opened Jobs
  import opened JobsInvariant
  import opened JobsRuns

  // ----- ORDER BY sr.id ---------------------------------------------------

  predicate Ascending(ids: seq<RequestId>) {
    forall i, j :: 0 <= i < j < |ids| ==> ids[i] < ids[j]
  }

  predicate Lists(ids: seq<RequestId>, s: set<RequestId>) {
    (forall i :: 0 <= i < |ids| ==> ids[i] in s) && (forall x :: x in s ==> x in ids)
  }

  lemma {:induction false} LeastExists(s: set<RequestId>)
    requires s != {}
    ensures exists m :: m in s && AtMost(m, s)
  {
    var y :| y in s;
    var rest := s - {y};
    if rest == {} {
      assert s == {y};
      assert AtMost(y, s);
    } else {
      LeastExists(rest);
      var m :| m in rest && AtMost(m, rest);
      assert AtMost(if m < y then m else y, s) by {
        assert s == rest + {y};
      }
    }
  }

  predicate AtMost(m: RequestId, s: set<RequestId>) {
    forall x :: x in s ==> m <= x
  }

  function Least(s: set<RequestId>): (m: RequestId)
    requires s != {}
    ensures m in s && forall x :: x in s ==> m <= x
  {
    LeastExists(s);
    var m :| m in s && AtMost(m, s);
    m
  }

  lemma LeastFirst(s: set<RequestId>, rest: seq<RequestId>)
    requires s != {} && Ascending(rest) && Lists(rest, s - {Least(s)})
    ensures Ascending([Least(s)] + rest) && Lists([Least(s)] + rest, s)
  {
  }

  /** The ids of a set in ascending order. */
  function SortedIds(s: set<RequestId>): (ids: seq<RequestId>)
    ensures Ascending(ids) && Lists(ids, s) && |ids| == |s|
  {
    if s == {} then []
    else
      var rest := SortedIds(s - {Least(s)});
      LeastFirst(s, rest);
      [Least(s)] + rest
  }

  /** The first n ids of a listing. */
  function Upto(ids: seq<RequestId>, n: nat): set<RequestId>
    requires n <= |ids|
  {
    set i | 0 <= i < n :: ids[i]
  }

  predicate Distinct(ids: seq<RequestId>) {
    forall i, j :: 0 <= i < j < |ids| ==> ids[i] != ids[j]
  }

  lemma UptoNext(ids: seq<RequestId>, n: nat)
    requires Distinct(ids) && n < |ids|
    ensures ids[n] !in Upto(ids, n) && Upto(ids, n + 1) == Upto(ids, n) + {ids[n]}
  {
  }

  lemma UptoAll(ids: seq<RequestId>, s: set<RequestId>)
    requires Lists(ids, s)
    ensures Upto(ids, |ids|) == s
  {
  }

  // ----- One round of the loop --------------------------------------------

  /** What the loop body does to one row it selected. */
  function Release(db: Db, id: RequestId, now: Time): Db
    requires id in db.requests && db.requests[id].mechanic.Some?
  {
    var r := db.requests[id];
    ReturnToPool(db, id, r.mechanic.value, r.urgency == Emergency, ExpiryStamps(r.mechanic.value, now), now)
  }

  lemma ReleasedRow(db: Db, done: set<RequestId>, id: RequestId, now: Time)
    requires id in db.requests && id !in done && Overdue(db.requests[id], now)
    ensures var mid := Expire(db, done, now);
            && id in mid.requests && mid.requests[id] == db.requests[id]
            && Release(mid, id, now).requests == Expire(db, done + {id}, now).requests
  {
  }

  lemma ReleasedQuotes(db: Db, done: set<RequestId>, id: RequestId, now: Time)
    requires id in db.requests && id !in done && Overdue(db.requests[id], now)
    ensures id in Expire(db, done, now).requests
    ensures Expire(db, done, now).requests[id] == db.requests[id]
    ensures Release(Expire(db, done, now), id, now).quotes == Expire(db, done + {id}, now).quotes
  {
    ReleasedRow(db, done, id, now);
    var mid, goal := Expire(db, done, now), Expire(db, done + {id}, now);
    var quotes := Release(mid, id, now).quotes;
    assert quotes.Keys == goal.quotes.Keys;
    forall k | k in quotes ensures quotes[k] == goal.quotes[k] {
    }
  }

  /** Releasing one more overdue row adds it to the set released so far, whatever the order. */
  lemma ReleaseOneMore(db: Db, done: set<RequestId>, id: RequestId, now: Time)
    requires id in db.requests && id !in done && Overdue(db.requests[id], now)
    ensures id in Expire(db, done, now).requests && Expire(db, done, now).requests[id] == db.requests[id]
    ensures Release(Expire(db, done, now), id, now) == Expire(db, done + {id}, now)
  {
    ReleasedRow(db, done, id, now);
    ReleasedQuotes(db, done, id, now);
  }

  lemma ExpireNone(db: Db, now: Time)
    ensures Expire(db, {}, now) == db
  {
  }

  // ----- What a sweep does ------------------------------------------------

  /** The EXISTS fast path agrees with running the loop: with nothing due, a sweep changes nothing. */
  lemma NothingDueNothingDone(db: Db, now: Time)
    requires !exists i :: i in db.requests && Overdue(db.requests[i], now)
    ensures OverdueSet(db, now) == {} && Sweep(db, now) == db
  {
  }

  /** No job is due after a sweep at that time, so a second one finds none and changes nothing. */
  lemma SweepSettles(db: Db, now: Time)
    ensures OverdueSet(Sweep(db, now), now) == {}
    ensures Sweep(Sweep(db, now), now) == Sweep(db, now)
  {
  }

  /** The clean pending form a released job has, with the expiry stamped. */
  predicate CleanlyExpired(r: Request, n: Request, now: Time)
    requires r.mechanic.Some?
  {
    n == NewRequest(r.client, r.urgency).(completedAt := r.completedAt, stamps := ExpiryStamps(r.mechanic.value, now))
  }

  /**
   * A sweep puts every due job in the clean pending form, withdraws the released
   * mechanic's Emergency accept record if it was live and no other quote, and
   * touches no other job.
   */
  lemma SweepExactly(db: Db, id: RequestId, now: Time)
    requires RowsOk(db) && id in db.requests
    ensures id in OverdueSet(db, now) ==> CleanlyExpired(db.requests[id], Sweep(db, now).requests[id], now)
    ensures id in OverdueSet(db, now) ==> forall k :: k in db.quotes && k.request == id ==>
              var q, n := db.quotes[k], Sweep(db, now).quotes[k];
              && !n.accepted && n.price == q.price && n.eta == q.eta && n.rejectedAt == q.rejectedAt
              && n.withdrawnAt ==
                 if db.requests[id].urgency == Emergency && db.requests[id].mechanic == Some(k.mechanic)
                    && q.withdrawnAt.None? then Some(now) else q.withdrawnAt
    ensures id !in OverdueSet(db, now) ==> JobUntouched(db, Sweep(db, now), id)
  {
  }

  /** A sweep is the release step on the due set, and on any set that holds it. */
  lemma SweepIsAStep(db: Db, ids: set<RequestId>, now: Time)
    requires OverdueSet(db, now) <= ids
    ensures Sweep(db, now) == Next(db, Event(DoExpire(OverdueSet(db, now)), now))
    ensures Expire(db, ids, now) == Sweep(db, now)
  {
    assert forall i :: i in db.requests && Overdue(db.requests[i], now) ==> i in OverdueSet(db, now);
    assert Expire(db, ids, now).requests == Sweep(db, now).requests;
    assert Expire(db, ids, now).quotes == Sweep(db, now).quotes;
  }

  /** The rows released one after the other, in the order given; a row without a mechanic is passed over. */
  function ReleaseEach(db: Db, rows: seq<RequestId>, now: Time): Db {
    if rows == [] then db
    else
      var mid, id := ReleaseEach(db, rows[..|rows| - 1], now), rows[|rows| - 1];
      if id in mid.requests && mid.requests[id].mechanic.Some? then Release(mid, id, now) else mid
  }

  lemma {:induction false} ReleaseEachIs(db: Db, rows: seq<RequestId>, n: nat, now: Time)
    requires Distinct(rows) && n <= |rows|
    requires forall i :: 0 <= i < |rows| ==> rows[i] in OverdueSet(db, now)
    ensures ReleaseEach(db, rows[..n], now) == Expire(db, Upto(rows, n), now)
  {
    if n == 0 {
      ExpireNone(db, now);
    } else {
      ReleaseEachIs(db, rows, n - 1, now);
      assert rows[..n][..n - 1] == rows[..n - 1];
      UptoNext(rows, n - 1);
      ReleaseOneMore(db, Upto(rows, n - 1), rows[n - 1], now);
    }
  }

  /** In whatever order the due rows come, releasing each of them once is the sweep. */
  lemma AnyOrderSweeps(db: Db, rows: seq<RequestId>, now: Time)
    requires Distinct(rows) && Lists(rows, OverdueSet(db, now))
    ensures ReleaseEach(db, rows, now) == Sweep(db, now)
  {
    ReleaseEachIs(db, rows, |rows|, now);
    assert rows[..|rows|] == rows;
    UptoAll(rows, OverdueSet(db, now));
  }
}
