/** revenueSummary of src/services/revenue.service.ts: months of settled jobs, split by urgency. */
module RevenueSummary {
  import opened Common
  import opened Jobs
  import JobsInvariant
  import JobsRuns
  import Revenue

  datatype Month = Month(year: int, month: int)

  /** A row of the SETTLED_PAYMENTS query, with the month it was paid in by the console's calendar. */
  datatype Settled = Settled(month: Month, urgency: Urgency, fee: int)

  datatype Totals = Totals(revenue: int, transactions: int)

  const NO_TOTALS := Totals(0, 0)

  datatype Bucket = Bucket(month: Month, urgency: Urgency, totals: Totals)

  datatype MonthEntry = MonthEntry(month: Month, all: Totals, normal: Totals, urgent: Totals, emergency: Totals) {
    function With(u: Urgency, t: Totals): MonthEntry {
      match u
      case Normal => this.(normal := t)
      case Urgent => this.(urgent := t)
      case Emergency => this.(emergency := t)
    }
  }

  predicate Before(a: Month, b: Month) {
    a.year < b.year || (a.year == b.year && a.month < b.month)
  }

  // ----- The direct reading -----------------------------------------------

  /** A part of the settled list. */
  datatype Slice = All | OfMonth(month: Month) | OfUrgency(urgency: Urgency) | OfPart(month: Month, urgency: Urgency)

  predicate Falls(x: Settled, slice: Slice) {
    match slice
    case All => true
    case OfMonth(m) => x.month == m
    case OfUrgency(u) => x.urgency == u
    case OfPart(m, u) => x.month == m && x.urgency == u
  }

  function FeesOf(list: seq<Settled>, slice: Slice): int {
    if list == [] then 0
    else FeesOf(list[..|list| - 1], slice) + if Falls(list[|list| - 1], slice) then list[|list| - 1].fee else 0
  }

  function Transactions(list: seq<Settled>, slice: Slice): int {
    if list == [] then 0
    else Transactions(list[..|list| - 1], slice) + if Falls(list[|list| - 1], slice) then 1 else 0
  }

  /** What a part of the settled list adds up to. */
  function Sum(list: seq<Settled>, slice: Slice): Totals {
    Totals(FeesOf(list, slice), Transactions(list, slice))
  }

  predicate Occurs(list: seq<Settled>, slice: Slice) {
    exists x :: x in list && Falls(x, slice)
  }

  lemma OccursNext(init: seq<Settled>, x: Settled, slice: Slice)
    ensures Occurs(init + [x], slice) <==> Occurs(init, slice) || Falls(x, slice)
  {
  }

  lemma {:induction false} NothingToSum(list: seq<Settled>, slice: Slice)
    ensures Transactions(list, slice) >= 0
    ensures Transactions(list, slice) > 0 <==> Occurs(list, slice)
    ensures Transactions(list, slice) == 0 ==> FeesOf(list, slice) == 0
  {
    if list != [] {
      var init, x := list[..|list| - 1], list[|list| - 1];
      assert list == init + [x];
      NothingToSum(init, slice);
      OccursNext(init, x, slice);
    }
  }

  /** A month's three urgencies add up to the month. */
  lemma {:induction false} UrgenciesAddUp(list: seq<Settled>, m: Month)
    ensures FeesOf(list, OfMonth(m)) ==
            FeesOf(list, OfPart(m, Normal)) + FeesOf(list, OfPart(m, Urgent)) + FeesOf(list, OfPart(m, Emergency))
    ensures Transactions(list, OfMonth(m)) ==
            Transactions(list, OfPart(m, Normal)) + Transactions(list, OfPart(m, Urgent))
            + Transactions(list, OfPart(m, Emergency))
  {
    if list != [] {
      UrgenciesAddUp(list[..|list| - 1], m);
    }
  }

  // ----- GROUP BY year, month, urgency ORDER BY year, month ---------------

  predicate InOrder(buckets: seq<Bucket>) {
    forall i, j :: 0 <= i < j < |buckets| ==> !Before(buckets[j].month, buckets[i].month)
  }

  predicate DistinctKeys(buckets: seq<Bucket>) {
    forall i, j :: 0 <= i < j < |buckets| ==>
      buckets[i].month != buckets[j].month || buckets[i].urgency != buckets[j].urgency
  }

  predicate Covers(buckets: seq<Bucket>, list: seq<Settled>) {
    && (forall i :: 0 <= i < |buckets| ==> Occurs(list, OfPart(buckets[i].month, buckets[i].urgency)))
    && (forall x :: x in list ==> HasBucket(buckets, |buckets|, x.month, x.urgency))
  }

  /** One bucket per month and urgency that occurs, months in order, urgencies in any order. */
  predicate Groups(buckets: seq<Bucket>, list: seq<Settled>) {
    && InOrder(buckets) && DistinctKeys(buckets) && Covers(buckets, list)
    && (forall i :: 0 <= i < |buckets| ==> buckets[i].totals == Sum(list, OfPart(buckets[i].month, buckets[i].urgency)))
  }

  predicate HasBucket(buckets: seq<Bucket>, n: nat, m: Month, u: Urgency)
    requires n <= |buckets|
  {
    exists k :: 0 <= k < n && buckets[k].month == m && buckets[k].urgency == u
  }

  // ----- The loop ---------------------------------------------------------

  /** What one urgency of a month holds once n buckets have been folded in. */
  function Part(buckets: seq<Bucket>, n: nat, list: seq<Settled>, m: Month, u: Urgency): Totals
    requires n <= |buckets|
  {
    if HasBucket(buckets, n, m, u) then Sum(list, OfPart(m, u)) else NO_TOTALS
  }

  function EntryAfter(buckets: seq<Bucket>, n: nat, list: seq<Settled>, m: Month): MonthEntry
    requires n <= |buckets|
  {
    Whole(m, Part(buckets, n, list, m, Normal), Part(buckets, n, list, m, Urgent),
          Part(buckets, n, list, m, Emergency))
  }

  function Whole(m: Month, normal: Totals, urgent: Totals, emergency: Totals): MonthEntry {
    MonthEntry(m, Totals(normal.revenue + urgent.revenue + emergency.revenue,
                         normal.transactions + urgent.transactions + emergency.transactions), normal, urgent, emergency)
  }

  /** The month's own entry, read off the settled list. */
  function Direct(list: seq<Settled>, m: Month): MonthEntry {
    MonthEntry(m, Sum(list, OfMonth(m)), Sum(list, OfPart(m, Normal)),
          Sum(list, OfPart(m, Urgent)), Sum(list, OfPart(m, Emergency)))
  }

  /** The months that occur, each once and in order, each with the entry read off directly. */
  predicate Summarises(months: seq<MonthEntry>, list: seq<Settled>) {
    && (forall i, j :: 0 <= i < j < |months| ==> Before(months[i].month, months[j].month))
    && (forall i :: 0 <= i < |months| ==>
          Occurs(list, OfMonth(months[i].month)) && months[i] == Direct(list, months[i].month))
    && (forall x :: x in list ==> exists i :: 0 <= i < |months| && months[i].month == x.month)
  }

  lemma PartNext(buckets: seq<Bucket>, n: nat, list: seq<Settled>, m: Month, u: Urgency)
    requires n < |buckets| && !(buckets[n].month == m && buckets[n].urgency == u)
    ensures Part(buckets, n + 1, list, m, u) == Part(buckets, n, list, m, u)
  {
  }

  /** The bucket itself is met for the first time: nothing is overwritten. */
  lemma PartNow(buckets: seq<Bucket>, n: nat, list: seq<Settled>)
    requires Groups(buckets, list) && n < |buckets|
    ensures var b := buckets[n];
            Part(buckets, n, list, b.month, b.urgency) == NO_TOTALS
            && Part(buckets, n + 1, list, b.month, b.urgency) == b.totals
  {
  }

  /** What one bucket does to its month's entry. */
  function FoldIn(e: MonthEntry, b: Bucket): MonthEntry {
    e.With(b.urgency, b.totals).(
      all := Totals(e.all.revenue + b.totals.revenue, e.all.transactions + b.totals.transactions))
  }

  lemma FoldBucket(buckets: seq<Bucket>, n: nat, list: seq<Settled>)
    requires Groups(buckets, list) && n < |buckets|
    ensures var m := buckets[n].month;
            FoldIn(EntryAfter(buckets, n, list, m), buckets[n]) == EntryAfter(buckets, n + 1, list, m)
  {
    var b := buckets[n];
    PartNow(buckets, n, list);
    forall u | u != b.urgency
      ensures Part(buckets, n + 1, list, b.month, u) == Part(buckets, n, list, b.month, u)
    {
      PartNext(buckets, n, list, b.month, u);
    }
  }

  /** A month without buckets yet has an empty entry. */
  lemma EmptyEntry(buckets: seq<Bucket>, n: nat, list: seq<Settled>, m: Month)
    requires n <= |buckets| && !MonthMet(buckets, n, m)
    ensures EntryAfter(buckets, n, list, m) == Whole(m, NO_TOTALS, NO_TOTALS, NO_TOTALS)
  {
  }

  lemma OtherEntryKept(buckets: seq<Bucket>, n: nat, list: seq<Settled>, m: Month)
    requires n < |buckets| && m != buckets[n].month
    ensures EntryAfter(buckets, n + 1, list, m) == EntryAfter(buckets, n, list, m)
  {
  }

  predicate MonthMet(buckets: seq<Bucket>, n: nat, m: Month)
    requires n <= |buckets|
  {
    exists k :: 0 <= k < n && buckets[k].month == m
  }

  /** The keys of the Map so far, in the order they were met: ascending, and exactly the buckets' months. */
  predicate KeysOk(order: seq<Month>, buckets: seq<Bucket>, n: nat)
    requires n <= |buckets|
  {
    && (forall i, j :: 0 <= i < j < |order| ==> Before(order[i], order[j]))
    && (forall i :: 0 <= i < |order| ==> MonthMet(buckets, n, order[i]))
    && (forall k :: 0 <= k < n ==> HasKey(order, buckets, k))
  }

  predicate HasKey(order: seq<Month>, buckets: seq<Bucket>, k: nat) {
    k < |buckets| && buckets[k].month in order
  }

  lemma KeyBefore(order: seq<Month>, buckets: seq<Bucket>, n: nat, i: nat)
    requires InOrder(buckets) && n < |buckets| && i < |order| && MonthMet(buckets, n, order[i])
    ensures MonthMet(buckets, n + 1, order[i]) && (order[i] == buckets[n].month || Before(order[i], buckets[n].month))
  {
  }

  lemma KeysStep(order: seq<Month>, buckets: seq<Bucket>, n: nat)
    requires InOrder(buckets) && n < |buckets| && KeysOk(order, buckets, n)
    ensures KeysOk(if buckets[n].month in order then order else order + [buckets[n].month], buckets, n + 1)
  {
    var m := buckets[n].month;
    var longer := if m in order then order else order + [m];
    forall i | 0 <= i < |order|
      ensures MonthMet(buckets, n + 1, order[i]) && (order[i] == m || Before(order[i], m)) && order[i] in order
    {
      KeyBefore(order, buckets, n, i);
    }
    assert MonthMet(buckets, n + 1, m) by {
      assert buckets[n].month == m;
    }
    forall k | 0 <= k < n + 1 ensures HasKey(longer, buckets, k) {
      if k < n {
        assert HasKey(order, buckets, k);
      }
    }
  }

  lemma UnkeyedNotMet(order: seq<Month>, buckets: seq<Bucket>, n: nat, m: Month)
    requires n <= |buckets| && KeysOk(order, buckets, n) && m !in order
    ensures !MonthMet(buckets, n, m)
  {
    forall k | 0 <= k < n ensures buckets[k].month != m {
      assert HasKey(order, buckets, k);
    }
  }

  /** The entries of the Map so far. */
  ghost predicate EntriesOk(order: seq<Month>, entries: map<Month, MonthEntry>, buckets: seq<Bucket>, n: nat,
                      list: seq<Settled>)
    requires n <= |buckets|
  {
    && (forall m :: m in order <==> m in entries)
    && (forall m :: m in entries ==> entries[m] == EntryAfter(buckets, n, list, m))
  }

  /** Once every bucket is folded in, an entry is the month's own. */
  lemma FoldedIsDirect(buckets: seq<Bucket>, list: seq<Settled>, m: Month)
    requires Groups(buckets, list)
    ensures EntryAfter(buckets, |buckets|, list, m) == Direct(list, m)
  {
    forall u ensures Part(buckets, |buckets|, list, m, u) == Sum(list, OfPart(m, u)) {
      NothingToSum(list, OfPart(m, u));
    }
    UrgenciesAddUp(list, m);
  }

  lemma KeyOccurs(buckets: seq<Bucket>, list: seq<Settled>, m: Month)
    requires Covers(buckets, list) && MonthMet(buckets, |buckets|, m)
    ensures Occurs(list, OfMonth(m))
  {
  }

  lemma MonthHasKey(order: seq<Month>, buckets: seq<Bucket>, list: seq<Settled>, x: Settled)
    requires Covers(buckets, list) && KeysOk(order, buckets, |buckets|) && x in list
    ensures x.month in order
  {
    assert HasBucket(buckets, |buckets|, x.month, x.urgency);
    var k :| 0 <= k < |buckets| && buckets[k].month == x.month && buckets[k].urgency == x.urgency;
    assert HasKey(order, buckets, k);
  }

  lemma FoldedSummarises(order: seq<Month>, months: seq<MonthEntry>, buckets: seq<Bucket>, list: seq<Settled>)
    requires Groups(buckets, list) && KeysOk(order, buckets, |buckets|) && |months| == |order|
    requires forall i :: 0 <= i < |order| ==> months[i] == EntryAfter(buckets, |buckets|, list, order[i])
    ensures Summarises(months, list)
  {
    forall i | 0 <= i < |months|
      ensures months[i].month == order[i] && Occurs(list, OfMonth(order[i])) && months[i] == Direct(list, order[i])
    {
      FoldedIsDirect(buckets, list, order[i]);
      KeyOccurs(buckets, list, order[i]);
    }
    forall x | x in list ensures exists i :: 0 <= i < |months| && months[i].month == x.month {
      MonthHasKey(order, buckets, list, x);
      var i :| 0 <= i < |order| && order[i] == x.month;
      assert months[i].month == order[i];
    }
  }

  lemma EntriesStep(order: seq<Month>, entries: map<Month, MonthEntry>, buckets: seq<Bucket>, n: nat,
                    list: seq<Settled>)
    requires Groups(buckets, list) && n < |buckets| && EntriesOk(order, entries, buckets, n, list)
    requires buckets[n].month !in entries ==> !MonthMet(buckets, n, buckets[n].month)
    ensures var b := buckets[n];
            var e := if b.month in entries then entries[b.month] else Whole(b.month, NO_TOTALS, NO_TOTALS, NO_TOTALS);
            EntriesOk(if b.month in order then order else order + [b.month], entries[b.month := FoldIn(e, b)], buckets,
                      n + 1, list)
  {
    var m := buckets[n].month;
    if m !in entries {
      EmptyEntry(buckets, n, list, m);
    }
    FoldBucket(buckets, n, list);
    forall x | x in entries && x != m
      ensures EntryAfter(buckets, n + 1, list, x) == EntryAfter(buckets, n, list, x)
    {
      OtherEntryKept(buckets, n, list, x);
    }
  }

  /** One round of the loop, on the Map as a whole. */
  lemma RoundOk(order: seq<Month>, entries: map<Month, MonthEntry>, buckets: seq<Bucket>, n: nat, list: seq<Settled>)
    requires Groups(buckets, list) && n < |buckets| && KeysOk(order, buckets, n)
    requires EntriesOk(order, entries, buckets, n, list)
    ensures var b := buckets[n];
            var e := if b.month in entries then entries[b.month] else Whole(b.month, NO_TOTALS, NO_TOTALS, NO_TOTALS);
            var longer := if b.month in entries then order else order + [b.month];
            KeysOk(longer, buckets, n + 1) && EntriesOk(longer, entries[b.month := FoldIn(e, b)], buckets, n + 1, list)
  {
    KeysStep(order, buckets, n);
    if buckets[n].month !in order {
      UnkeyedNotMet(order, buckets, n, buckets[n].month);
    }
    EntriesStep(order, entries, buckets, n, list);
  }

  /** The Map's values in insertion order. */
  function Values(order: seq<Month>, entries: map<Month, MonthEntry>): (months: seq<MonthEntry>)
    requires forall m :: m in order ==> m in entries
    ensures |months| == |order| && forall i :: 0 <= i < |order| ==> months[i] == entries[order[i]]
  {
    if order == [] then [] else Values(order[..|order| - 1], entries) + [entries[order[|order| - 1]]]
  }

  lemma ValuesAreEntries(order: seq<Month>, entries: map<Month, MonthEntry>, buckets: seq<Bucket>, list: seq<Settled>,
                         i: nat)
    requires EntriesOk(order, entries, buckets, |buckets|, list) && i < |order|
    ensures Values(order, entries)[i] == EntryAfter(buckets, |buckets|, list, order[i])
  {
  }

  lemma MapSummarises(order: seq<Month>, entries: map<Month, MonthEntry>, buckets: seq<Bucket>, list: seq<Settled>)
    requires Groups(buckets, list) && KeysOk(order, buckets, |buckets|)
    requires EntriesOk(order, entries, buckets, |buckets|, list)
    ensures Summarises(Values(order, entries), list)
  {
    var months := Values(order, entries);
    forall i | 0 <= i < |order| ensures months[i] == EntryAfter(buckets, |buckets|, list, order[i]) {
      ValuesAreEntries(order, entries, buckets, list, i);
    }
    FoldedSummarises(order, months, buckets, list);
  }

  /** The Map-building loop: one pass over the buckets, entries kept in the order they were first met. */
  method BuildMonths(buckets: seq<Bucket>, ghost list: seq<Settled>) returns (months: seq<MonthEntry>)
    requires Groups(buckets, list)
    ensures Summarises(months, list)
  {
    var order: seq<Month>, entries: map<Month, MonthEntry> := [], map[];
    for n := 0 to |buckets|
      invariant KeysOk(order, buckets, n)
      invariant EntriesOk(order, entries, buckets, n, list)
    {
      RoundOk(order, entries, buckets, n, list);
      var b := buckets[n];
      var entry := Whole(b.month, NO_TOTALS, NO_TOTALS, NO_TOTALS);
      if b.month in entries {
        entry := entries[b.month];
      } else {
        order := order + [b.month];
      }
      entry := FoldIn(entry, b);
      entries := entries[b.month := entry];
    }
    months := Values(order, entries);
    MapSummarises(order, entries, buckets, list);
  }

  // ----- GROUP BY always has an answer ------------------------------------

  function Rank(u: Urgency): int {
    match u case Normal => 0 case Urgent => 1 case Emergency => 2
  }

  predicate KeyLess(a: Bucket, b: Bucket) {
    Before(a.month, b.month) || (a.month == b.month && Rank(a.urgency) < Rank(b.urgency))
  }

  predicate SameKey(a: Bucket, b: Bucket) {
    a.month == b.month && a.urgency == b.urgency
  }

  predicate KeysAscend(buckets: seq<Bucket>) {
    forall i, j :: 0 <= i < j < |buckets| ==> KeyLess(buckets[i], buckets[j])
  }

  /** Adds one settled row, as a bucket of its own, to the sorted buckets before it. */
  function AddTo(buckets: seq<Bucket>, b: Bucket): seq<Bucket> {
    if buckets == [] then [b]
    else
      var init, last := buckets[..|buckets| - 1], buckets[|buckets| - 1];
      if SameKey(last, b) then
        var t := Totals(last.totals.revenue + b.totals.revenue, last.totals.transactions + b.totals.transactions);
        init + [last.(totals := t)]
      else if KeyLess(last, b) then buckets + [b]
      else AddTo(init, b) + [last]
  }

  function Grouped(list: seq<Settled>): seq<Bucket> {
    if list == [] then []
    else
      var x := list[|list| - 1];
      AddTo(Grouped(list[..|list| - 1]), Bucket(x.month, x.urgency, Totals(x.fee, 1)))
  }

  predicate Bounded(buckets: seq<Bucket>, limit: Bucket) {
    forall i :: 0 <= i < |buckets| ==> KeyLess(buckets[i], limit)
  }

  lemma {:induction false} AddToAscends(buckets: seq<Bucket>, b: Bucket, limit: Bucket)
    requires KeysAscend(buckets)
    ensures KeysAscend(AddTo(buckets, b))
    ensures Bounded(buckets, limit) && KeyLess(b, limit) ==> Bounded(AddTo(buckets, b), limit)
  {
    if buckets != [] {
      var init, last := buckets[..|buckets| - 1], buckets[|buckets| - 1];
      if SameKey(last, b) {
      } else if KeyLess(last, b) {
      } else {
        AddToAscends(init, b, last);
        AddToAscends(init, b, limit);
      }
    }
  }

  /** The bucket of a key, or nothing. */
  function Lookup(buckets: seq<Bucket>, m: Month, u: Urgency): Option<Totals> {
    if buckets == [] then None
    else
      var last := buckets[|buckets| - 1];
      if last.month == m && last.urgency == u then Some(last.totals) else Lookup(buckets[..|buckets| - 1], m, u)
  }

  function Raised(o: Option<Totals>, revenue: int, transactions: int): Option<Totals> {
    if o.Some? then Some(Totals(o.value.revenue + revenue, o.value.transactions + transactions))
    else Some(Totals(revenue, transactions))
  }

  lemma {:induction false} BoundedNotFound(buckets: seq<Bucket>, limit: Bucket)
    requires Bounded(buckets, limit)
    ensures Lookup(buckets, limit.month, limit.urgency) == None
  {
    if buckets != [] {
      BoundedNotFound(buckets[..|buckets| - 1], limit);
    }
  }

  lemma {:induction false} AddToLookup(buckets: seq<Bucket>, b: Bucket, m: Month, u: Urgency)
    requires KeysAscend(buckets)
    ensures var before, after := Lookup(buckets, m, u), Lookup(AddTo(buckets, b), m, u);
            if b.month == m && b.urgency == u
            then after == Raised(before, b.totals.revenue, b.totals.transactions) else after == before
  {
    if buckets != [] {
      var init, last := buckets[..|buckets| - 1], buckets[|buckets| - 1];
      if !SameKey(last, b) && !KeyLess(last, b) {
        AddToLookup(init, b, m, u);
      } else if KeyLess(last, b) {
        BoundedNotFound(buckets, b);
      }
    }
  }

  lemma {:induction false} GroupedAscends(list: seq<Settled>)
    ensures KeysAscend(Grouped(list))
  {
    if list != [] {
      var x := list[|list| - 1];
      GroupedAscends(list[..|list| - 1]);
      var b := Bucket(x.month, x.urgency, Totals(x.fee, 1));
      AddToAscends(Grouped(list[..|list| - 1]), b, b);
    }
  }

  /** What the direct reading gives a key: nothing, or the sum of its part. */
  function Reading(list: seq<Settled>, m: Month, u: Urgency): Option<Totals> {
    if Occurs(list, OfPart(m, u)) then Some(Sum(list, OfPart(m, u))) else None
  }

  lemma ReadingNext(init: seq<Settled>, x: Settled, m: Month, u: Urgency)
    ensures var before, after := Reading(init, m, u), Reading(init + [x], m, u);
            if x.month == m && x.urgency == u
            then after == Raised(before, x.fee, 1) else after == before
  {
    OccursNext(init, x, OfPart(m, u));
    NothingToSum(init, OfPart(m, u));
    assert (init + [x])[..|init|] == init;
  }

  lemma GroupedStep(g: seq<Bucket>, init: seq<Settled>, x: Settled, m: Month, u: Urgency)
    requires KeysAscend(g) && Lookup(g, m, u) == Reading(init, m, u)
    ensures Lookup(AddTo(g, Bucket(x.month, x.urgency, Totals(x.fee, 1))), m, u) == Reading(init + [x], m, u)
  {
    AddToLookup(g, Bucket(x.month, x.urgency, Totals(x.fee, 1)), m, u);
    ReadingNext(init, x, m, u);
  }

  lemma {:induction false} GroupedLookup(list: seq<Settled>, m: Month, u: Urgency)
    ensures Lookup(Grouped(list), m, u) == Reading(list, m, u)
  {
    if list == [] {
      assert !Occurs(list, OfPart(m, u));
    } else {
      var init, x := list[..|list| - 1], list[|list| - 1];
      assert list == init + [x];
      GroupedLookup(init, m, u);
      GroupedAscends(init);
      GroupedStep(Grouped(init), init, x, m, u);
    }
  }

  lemma {:induction false} LookupAt(buckets: seq<Bucket>, i: nat)
    requires KeysAscend(buckets) && i < |buckets|
    ensures Lookup(buckets, buckets[i].month, buckets[i].urgency) == Some(buckets[i].totals)
  {
    if i < |buckets| - 1 {
      LookupAt(buckets[..|buckets| - 1], i);
    }
  }

  lemma {:induction false} LookupFinds(buckets: seq<Bucket>, m: Month, u: Urgency)
    requires Lookup(buckets, m, u).Some?
    ensures HasBucket(buckets, |buckets|, m, u)
  {
    var last := buckets[|buckets| - 1];
    if !(last.month == m && last.urgency == u) {
      LookupFinds(buckets[..|buckets| - 1], m, u);
    }
  }

  /** Every settled list has such a grouping, so the query the loop reads always has an answer. */
  lemma GroupingExists(list: seq<Settled>)
    ensures Groups(Grouped(list), list)
  {
    var g := Grouped(list);
    GroupedAscends(list);
    forall i | 0 <= i < |g|
      ensures Occurs(list, OfPart(g[i].month, g[i].urgency))
      ensures g[i].totals == Sum(list, OfPart(g[i].month, g[i].urgency))
    {
      LookupAt(g, i);
      GroupedLookup(list, g[i].month, g[i].urgency);
    }
    forall x | x in list ensures HasBucket(g, |g|, x.month, x.urgency) {
      assert Falls(x, OfPart(x.month, x.urgency));
      GroupedLookup(list, x.month, x.urgency);
      LookupFinds(g, x.month, x.urgency);
    }
    assert InOrder(g) && DistinctKeys(g);
  }

  // ----- The months add up to the whole -----------------------------------

  function MonthRevenue(months: seq<MonthEntry>): int {
    if months == [] then 0 else MonthRevenue(months[..|months| - 1]) + months[|months| - 1].all.revenue
  }

  function MonthTransactions(months: seq<MonthEntry>): int {
    if months == [] then 0 else MonthTransactions(months[..|months| - 1]) + months[|months| - 1].all.transactions
  }

  predicate HasMonth(months: seq<MonthEntry>, m: Month) {
    exists i :: 0 <= i < |months| && months[i].month == m
  }

  predicate DistinctMonths(months: seq<MonthEntry>) {
    forall i, j :: 0 <= i < j < |months| ==> months[i].month != months[j].month
  }

  /** What an amount adds when every entry of its month takes it. */
  function Gain(months: seq<MonthEntry>, m: Month, amount: int): int {
    if months == [] then 0
    else Gain(months[..|months| - 1], m, amount) + if months[|months| - 1].month == m then amount else 0
  }

  lemma {:induction false} GainOnce(months: seq<MonthEntry>, m: Month, amount: int)
    requires DistinctMonths(months)
    ensures Gain(months, m, amount) == if HasMonth(months, m) then amount else 0
  {
    if months != [] {
      GainOnce(months[..|months| - 1], m, amount);
    }
  }

  /** The months' figures of a shorter list. */
  function Reread(months: seq<MonthEntry>, list: seq<Settled>): seq<MonthEntry> {
    if months == [] then []
    else
      var last := months[|months| - 1];
      Reread(months[..|months| - 1], list) + [last.(all := Sum(list, OfMonth(last.month)))]
  }

  lemma {:induction false} RereadKeeps(months: seq<MonthEntry>, list: seq<Settled>)
    ensures |Reread(months, list)| == |months|
    ensures forall i :: 0 <= i < |months| ==>
              Reread(months, list)[i] == months[i].(all := Sum(list, OfMonth(months[i].month)))
  {
    if months != [] {
      RereadKeeps(months[..|months| - 1], list);
    }
  }

  lemma SumNext(list: seq<Settled>, x: Settled, m: Month)
    ensures FeesOf(list + [x], OfMonth(m)) == FeesOf(list, OfMonth(m)) + if x.month == m then x.fee else 0
    ensures Transactions(list + [x], OfMonth(m)) == Transactions(list, OfMonth(m)) + if x.month == m then 1 else 0
  {
  }

  lemma RereadLast(months: seq<MonthEntry>, list: seq<Settled>)
    requires months != []
    ensures var init, m := months[..|months| - 1], months[|months| - 1].month;
            && MonthTransactions(Reread(months, list)) == MonthTransactions(Reread(init, list))
               + Transactions(list, OfMonth(m))
            && MonthRevenue(Reread(months, list)) == MonthRevenue(Reread(init, list)) + FeesOf(list, OfMonth(m))
  {
  }

  lemma {:induction false} OneMore(months: seq<MonthEntry>, list: seq<Settled>, x: Settled)
    ensures MonthTransactions(Reread(months, list + [x])) == MonthTransactions(Reread(months, list))
            + Gain(months, x.month, 1)
    ensures MonthRevenue(Reread(months, list + [x])) == MonthRevenue(Reread(months, list))
            + Gain(months, x.month, x.fee)
  {
    if months != [] {
      OneMore(months[..|months| - 1], list, x);
      RereadLast(months, list);
      RereadLast(months, list + [x]);
      SumNext(list, x, months[|months| - 1].month);
    }
  }

  lemma {:induction false} NoneToRead(months: seq<MonthEntry>)
    ensures MonthTransactions(Reread(months, [])) == 0 && MonthRevenue(Reread(months, [])) == 0
  {
    if months != [] {
      NoneToRead(months[..|months| - 1]);
    }
  }

  lemma {:induction false} RereadAddsUp(months: seq<MonthEntry>, list: seq<Settled>)
    requires DistinctMonths(months) && forall x :: x in list ==> HasMonth(months, x.month)
    ensures MonthTransactions(Reread(months, list)) == |list| && MonthRevenue(Reread(months, list)) == FeesOf(list, All)
  {
    if list == [] {
      NoneToRead(months);
    } else {
      var init, x := list[..|list| - 1], list[|list| - 1];
      assert list == init + [x];
      RereadAddsUp(months, init);
      OneMore(months, init, x);
      assert HasMonth(months, x.month);
      GainOnce(months, x.month, 1);
      GainOnce(months, x.month, x.fee);
    }
  }

  /** Month transactions sum to the number of settled jobs, month revenues to all their fees. */
  lemma MonthsAddUp(months: seq<MonthEntry>, list: seq<Settled>)
    requires Summarises(months, list)
    ensures MonthTransactions(months) == |list| && MonthRevenue(months) == FeesOf(list, All)
  {
    RereadKeeps(months, list);
    assert Reread(months, list) == months;
    RereadAddsUp(months, list);
  }

  // ----- In every reachable state -----------------------------------------

  function FromPayments(payments: seq<Payment>, requests: map<RequestId, Request>,
                        calendar: Time -> Month): seq<Settled> {
    if payments == [] then []
    else
      var p := payments[|payments| - 1];
      FromPayments(payments[..|payments| - 1], requests, calendar)
      + if p.request in requests then [Settled(calendar(p.completedAt), requests[p.request].urgency, p.fee)] else []
  }

  function FromReports(rows: seq<Revenue.Row>, calendar: Time -> Month): seq<Settled> {
    if rows == [] then []
    else
      var r := rows[|rows| - 1];
      FromReports(rows[..|rows| - 1], calendar) + [Settled(calendar(r.paidAt), r.urgency, r.fee)]
  }

  /** SETTLED_PAYMENTS: payments joined with their requests, and the reported ones. */
  function SettledIn(s: Revenue.State, calendar: Time -> Month): seq<Settled> {
    FromPayments(s.db.payments, s.db.requests, calendar) + FromReports(s.rows, calendar)
  }

  /** SUM and COUNT over the settled rows with a fee. */
  function PriorityFees(list: seq<Settled>): int {
    if list == [] then 0
    else PriorityFees(list[..|list| - 1]) + if list[|list| - 1].fee > 0 then list[|list| - 1].fee else 0
  }

  function PriorityCount(list: seq<Settled>): int {
    if list == [] then 0
    else PriorityCount(list[..|list| - 1]) + if list[|list| - 1].fee > 0 then 1 else 0
  }

  predicate Priced(list: seq<Settled>) {
    forall x :: x in list ==> x.fee == Surcharge(x.urgency)
  }

  lemma {:induction false} PricedFees(list: seq<Settled>)
    requires Priced(list)
    ensures PriorityFees(list) == FeesOf(list, All)
    ensures FeesOf(list, All) == 50_00 * Transactions(list, OfUrgency(Urgent))
            + 100_00 * Transactions(list, OfUrgency(Emergency))
    ensures PriorityCount(list) == Transactions(list, OfUrgency(Urgent)) + Transactions(list, OfUrgency(Emergency))
  {
    if list != [] {
      assert list[|list| - 1] in list;
      PricedFees(list[..|list| - 1]);
    }
  }

  lemma {:induction false} PaymentsPriced(db: Db, payments: seq<Payment>, calendar: Time -> Month)
    requires JobsInvariant.RowsOk(db) && forall p :: p in payments ==> JobsInvariant.PaymentOk(db, p)
    ensures Priced(FromPayments(payments, db.requests, calendar))
    ensures |FromPayments(payments, db.requests, calendar)| == |payments|
  {
    if payments != [] {
      var p := payments[|payments| - 1];
      assert p in payments && JobsInvariant.PaymentOk(db, p) && JobsInvariant.RequestOk(db.requests[p.request]);
      PaymentsPriced(db, payments[..|payments| - 1], calendar);
    }
  }

  lemma {:induction false} ReportsPriced(rows: seq<Revenue.Row>, calendar: Time -> Month)
    requires forall r :: r in rows ==> r.fee == Surcharge(r.urgency)
    ensures Priced(FromReports(rows, calendar)) && |FromReports(rows, calendar)| == |rows|
  {
    if rows != [] {
      assert rows[|rows| - 1] in rows;
      ReportsPriced(rows[..|rows| - 1], calendar);
    }
  }

  /**
   * In every reachable state, whatever the calendar: the summary's months count
   * every row of payments and of revenue_ledger once, and their revenues sum to
   * the priority fees, which are 50 pesos an Urgent row and 100 an Emergency one.
   */
  lemma SummaryAddsUp(states: seq<Revenue.State>, events: seq<Revenue.Event>, n: nat, calendar: Time -> Month,
                      months: seq<MonthEntry>)
    requires Revenue.IsRun(states, events) && n < |states|
    requires Summarises(months, SettledIn(states[n], calendar))
    ensures MonthTransactions(months) == |states[n].db.payments| + |states[n].rows|
    ensures var list := SettledIn(states[n], calendar);
            && MonthRevenue(months) == PriorityFees(list)
            && PriorityFees(list) == 50_00 * Transactions(list, OfUrgency(Urgent))
               + 100_00 * Transactions(list, OfUrgency(Emergency))
            && PriorityCount(list) == Transactions(list, OfUrgency(Urgent)) + Transactions(list, OfUrgency(Emergency))
  {
    var s, list := states[n], SettledIn(states[n], calendar);
    Revenue.NothingBookedTwice(states, events, n);
    Revenue.JobsReachable(states, events, n);
    JobsRuns.ReachableInv(s.db);
    PaymentsPriced(s.db, s.db.payments, calendar);
    ReportsPriced(s.rows, calendar);
    PricedFees(list);
    MonthsAddUp(months, list);
  }

  // ----- What the figures of a month count --------------------------------

  predicate PaidIn(db: Db, p: Payment, calendar: Time -> Month, m: Month, u: Urgency) {
    calendar(p.completedAt) == m && p.request in db.requests && db.requests[p.request].urgency == u
  }

  /** Payments of jobs of an urgency completed in a month, and reports of that urgency paid in it. */
  function Counted(db: Db, payments: seq<Payment>, rows: seq<Revenue.Row>, calendar: Time -> Month,
                   m: Month, u: Urgency): int
  {
    if payments != [] then
      Counted(db, payments[..|payments| - 1], rows, calendar, m, u)
      + if PaidIn(db, payments[|payments| - 1], calendar, m, u) then 1 else 0
    else if rows != [] then
      Counted(db, payments, rows[..|rows| - 1], calendar, m, u)
      + if calendar(rows[|rows| - 1].paidAt) == m && rows[|rows| - 1].urgency == u then 1 else 0
    else 0
  }

  lemma TransactionsNext(list: seq<Settled>, x: Settled, slice: Slice)
    ensures Transactions(list + [x], slice) == Transactions(list, slice) + if Falls(x, slice) then 1 else 0
  {
  }

  lemma {:induction false} TransactionsJoin(a: seq<Settled>, b: seq<Settled>, slice: Slice)
    ensures Transactions(a + b, slice) == Transactions(a, slice) + Transactions(b, slice)
  {
    if b == [] {
      assert a + b == a;
    } else {
      assert (a + b)[..|a + b| - 1] == a + b[..|b| - 1];
      TransactionsJoin(a, b[..|b| - 1], slice);
    }
  }

  lemma {:induction false} ReportsCounted(db: Db, rows: seq<Revenue.Row>, calendar: Time -> Month, m: Month, u: Urgency)
    ensures Transactions(FromReports(rows, calendar), OfPart(m, u)) == Counted(db, [], rows, calendar, m, u)
  {
    if rows != [] {
      ReportsCounted(db, rows[..|rows| - 1], calendar, m, u);
    }
  }

  lemma {:induction false} AllCounted(db: Db, payments: seq<Payment>, rows: seq<Revenue.Row>, calendar: Time -> Month,
                                      m: Month, u: Urgency)
    ensures Transactions(FromPayments(payments, db.requests, calendar), OfPart(m, u))
            + Transactions(FromReports(rows, calendar), OfPart(m, u)) == Counted(db, payments, rows, calendar, m, u)
  {
    if payments == [] {
      ReportsCounted(db, rows, calendar, m, u);
    } else {
      var init, p := payments[..|payments| - 1], payments[|payments| - 1];
      AllCounted(db, init, rows, calendar, m, u);
      if p.request in db.requests {
        var x := Settled(calendar(p.completedAt), db.requests[p.request].urgency, p.fee);
        TransactionsNext(FromPayments(init, db.requests, calendar), x, OfPart(m, u));
      } else {
        assert FromPayments(init, db.requests, calendar) + [] == FromPayments(init, db.requests, calendar);
      }
    }
  }

  function PriceOf(u: Urgency): int {
    match u case Normal => 0 case Urgent => 50_00 case Emergency => 100_00
  }

  lemma {:induction false} PartPriced(list: seq<Settled>, m: Month, u: Urgency)
    requires Priced(list)
    ensures FeesOf(list, OfPart(m, u)) == PriceOf(u) * Transactions(list, OfPart(m, u))
  {
    if list != [] {
      var init, x := list[..|list| - 1], list[|list| - 1];
      assert x in list;
      PartPriced(init, m, u);
      assert PriceOf(u) * (Transactions(init, OfPart(m, u)) + 1)
             == PriceOf(u) * Transactions(init, OfPart(m, u)) + PriceOf(u);
    }
  }

  /** One figure of a month: so many settled, at the fee of the urgency each. */
  predicate Figures(t: Totals, n: int, price: int) {
    t.transactions == n && t.revenue == price * n
  }

  /** A month's entry with these numbers of Normal, Urgent and Emergency jobs. */
  predicate Shows(e: MonthEntry, normal: int, urgent: int, emergency: int) {
    && Figures(e.normal, normal, 0) && Figures(e.urgent, urgent, 50_00) && Figures(e.emergency, emergency, 100_00)
    && e.all.transactions == normal + urgent + emergency > 0
    && e.all.revenue == 50_00 * urgent + 100_00 * emergency
  }

  lemma DirectShows(list: seq<Settled>, m: Month)
    requires Priced(list) && Occurs(list, OfMonth(m))
    ensures Shows(Direct(list, m), Transactions(list, OfPart(m, Normal)), Transactions(list, OfPart(m, Urgent)),
                  Transactions(list, OfPart(m, Emergency)))
  {
    PartPriced(list, m, Normal);
    PartPriced(list, m, Urgent);
    PartPriced(list, m, Emergency);
    UrgenciesAddUp(list, m);
    NothingToSum(list, OfMonth(m));
  }

  lemma PartCounted(s: Revenue.State, calendar: Time -> Month, m: Month, u: Urgency)
    ensures Transactions(SettledIn(s, calendar), OfPart(m, u))
         == Counted(s.db, s.db.payments, s.rows, calendar, m, u)
  {
    TransactionsJoin(FromPayments(s.db.payments, s.db.requests, calendar), FromReports(s.rows, calendar), OfPart(m, u));
    AllCounted(s.db, s.db.payments, s.rows, calendar, m, u);
  }

  /**
   * In every reachable state each month of the summary shows, urgency by
   * urgency, the payments completed and the reports paid in that month, at 0,
   * 50 and 100 pesos each, and in all their sums; months without any are absent.
   */
  lemma MonthFigures(states: seq<Revenue.State>, events: seq<Revenue.Event>, n: nat, calendar: Time -> Month,
                     months: seq<MonthEntry>, i: nat)
    requires Revenue.IsRun(states, events) && n < |states|
    requires Summarises(months, SettledIn(states[n], calendar)) && i < |months|
    ensures var s, m := states[n], months[i].month;
            Shows(months[i], Counted(s.db, s.db.payments, s.rows, calendar, m, Normal),
                  Counted(s.db, s.db.payments, s.rows, calendar, m, Urgent),
                  Counted(s.db, s.db.payments, s.rows, calendar, m, Emergency))
  {
    var s, m := states[n], months[i].month;
    assert Priced(SettledIn(s, calendar)) by { SettledPriced(states, events, n, calendar); }
    DirectShows(SettledIn(s, calendar), m);
    PartCounted(s, calendar, m, Normal);
    PartCounted(s, calendar, m, Urgent);
    PartCounted(s, calendar, m, Emergency);
  }

  lemma SettledPriced(states: seq<Revenue.State>, events: seq<Revenue.Event>, n: nat, calendar: Time -> Month)
    requires Revenue.IsRun(states, events) && n < |states|
    ensures Priced(SettledIn(states[n], calendar))
  {
    var s := states[n];
    Revenue.NothingBookedTwice(states, events, n);
    Revenue.JobsReachable(states, events, n);
    JobsRuns.ReachableInv(s.db);
    PaymentsPriced(s.db, s.db.payments, calendar);
    ReportsPriced(s.rows, calendar);
  }
}
