/** Paging through a conversation with `before`: every message once, in order, whatever arrives meanwhile. */
module ChatPaging {
  import opened Common
  import opened Jobs
  import opened Chat

  // ----- The sorted conversation ------------------------------------------

  predicate DistinctIds(s: seq<Message>) {
    forall i, j :: 0 <= i < j < |s| ==> s[i].id != s[j].id
  }

  predicate Ascending(s: seq<Message>) {
    forall i, j :: 0 <= i < j < |s| ==> Older(s[i], s[j])
  }

  lemma {:induction false} InsertKeeps(m: Message, s: seq<Message>)
    requires Ascending(s) && forall x :: x in s ==> x.id != m.id
    ensures Ascending(Insert(m, s)) && |Insert(m, s)| == |s| + 1
    ensures forall x :: x in Insert(m, s) <==> x == m || x in s
  {
    if s != [] && Older(m, s[|s| - 1]) {
      var init, last := s[..|s| - 1], s[|s| - 1];
      assert s == init + [last];
      InsertKeeps(m, init);
      var t := Insert(m, init);
      forall i | 0 <= i < |t| ensures Older(t[i], last) {
        assert t[i] in t;
      }
    } else {
      assert forall i :: 0 <= i < |s| ==> s[i] in s;
    }
  }

  lemma {:induction false} SortedKeeps(s: seq<Message>)
    requires DistinctIds(s)
    ensures Ascending(Sorted(s)) && |Sorted(s)| == |s|
    ensures forall x :: x in Sorted(s) <==> x in s
  {
    if s != [] {
      var init, last := s[..|s| - 1], s[|s| - 1];
      assert s == init + [last];
      SortedKeeps(init);
      forall x | x in init ensures x.id != last.id {
      }
      InsertKeeps(last, Sorted(init));
    }
  }

  lemma {:induction false} MatchingMembers(s: seq<Message>, key: Key, before: Option<Message>)
    ensures forall x :: x in Matching(s, key, before) <==> x in s && Selected(x, key, before)
  {
    if s != [] {
      var init, last := s[..|s| - 1], s[|s| - 1];
      assert s == init + [last];
      MatchingMembers(init, key, before);
    }
  }

  lemma {:induction false} MatchingKeeps(s: seq<Message>, key: Key, before: Option<Message>)
    requires DistinctIds(s)
    ensures DistinctIds(Matching(s, key, before))
    ensures forall x :: x in Matching(s, key, before) <==> x in s && Selected(x, key, before)
  {
    MatchingMembers(s, key, before);
    if s != [] {
      var init, last := s[..|s| - 1], s[|s| - 1];
      MatchingKeeps(init, key, before);
      var m := Matching(init, key, before);
      forall i | 0 <= i < |m| ensures m[i].id != last.id {
        assert m[i] in m;
      }
    }
  }

  ghost predicate SameMembers(a: seq<Message>, b: seq<Message>) {
    forall x :: x in a <==> x in b
  }

  lemma LastIsNewest(a: seq<Message>, x: Message)
    requires Ascending(a) && x in a
    ensures x == a[|a| - 1] || Older(x, a[|a| - 1])
  {
  }

  lemma SameLast(a: seq<Message>, b: seq<Message>)
    requires Ascending(a) && Ascending(b) && SameMembers(a, b) && a != [] && b != []
    ensures a[|a| - 1] == b[|b| - 1]
  {
    assert a[|a| - 1] in a && b[|b| - 1] in b;
    LastIsNewest(a, b[|b| - 1]);
    LastIsNewest(b, a[|a| - 1]);
  }

  lemma InitMembers(a: seq<Message>, x: Message)
    requires Ascending(a) && a != []
    ensures x in a[..|a| - 1] <==> x in a && x != a[|a| - 1]
  {
  }

  /** Two ascending lists of the same messages are the same list. */
  lemma {:induction false} AscendingUnique(a: seq<Message>, b: seq<Message>)
    requires Ascending(a) && Ascending(b) && SameMembers(a, b)
    ensures a == b
  {
    assert b != [] ==> b[0] in b;
    assert a != [] ==> a[0] in a;
    if a != [] {
      SameLast(a, b);
      var c, d := a[..|a| - 1], b[..|b| - 1];
      forall x ensures x in c <==> x in d {
        InitMembers(a, x);
        InitMembers(b, x);
      }
      AscendingUnique(c, d);
      assert a == c + [a[|a| - 1]] && b == d + [b[|b| - 1]];
    }
  }

  /** The whole conversation, oldest first. */
  function Thread(messages: seq<Message>, key: Key): seq<Message> {
    Sorted(Matching(messages, key, None))
  }

  /** The thread is the conversation in (sent_at, id) order, each message once. */
  lemma ThreadIsSorted(messages: seq<Message>, key: Key)
    requires DistinctIds(messages)
    ensures Ascending(Thread(messages, key))
    ensures forall m :: m in Thread(messages, key) <==> m in messages && Belongs(m, key)
  {
    MatchingKeeps(messages, key, None);
    SortedKeeps(Matching(messages, key, None));
  }

  // ----- One page ---------------------------------------------------------

  lemma {:induction false} ReversedAt(s: seq<Message>)
    ensures |Reversed(s)| == |s| && forall i :: 0 <= i < |s| ==> Reversed(s)[i] == s[|s| - 1 - i]
  {
    if s != [] {
      ReversedAt(s[..|s| - 1]);
    }
  }

  function Cut(n: nat, limit: Pos): nat {
    if n <= limit then 0 else n - limit
  }

  function PageBetween(t: seq<Message>, a: nat, b: nat): Page {
    Page(if a <= b <= |t| then t[a..b] else [], a > 0)
  }

  lemma NewestFirst(s: seq<Message>, limit: Pos)
    ensures Reversed(First(First(Reversed(s), limit + 1), limit)) == s[Cut(|s|, limit)..|s|]
    ensures |First(Reversed(s), limit + 1)| > limit <==> Cut(|s|, limit) > 0
  {
    ReversedAt(s);
    var rows := First(First(Reversed(s), limit + 1), limit);
    ReversedAt(rows);
    var kept := s[Cut(|s|, limit)..|s|];
    assert |rows| == |kept|;
    forall i | 0 <= i < |kept| ensures Reversed(rows)[i] == kept[i] {
    }
  }

  /** A page is the newest `limit` messages before the cursor, oldest first; hasMore says whether any are left. */
  lemma PageIs(messages: seq<Message>, key: Key, before: Option<Message>, limit: Pos)
    ensures var s := Sorted(Matching(messages, key, before));
            PageOf(messages, key, before, limit) == PageBetween(s, Cut(|s|, limit), |s|)
  {
    NewestFirst(Sorted(Matching(messages, key, before)), limit);
  }

  lemma {:induction false} MatchingFrozen(messages: seq<Message>, more: seq<Message>, key: Key, before: Option<Message>)
    requires forall m :: m in more ==> !Selected(m, key, before)
    ensures Matching(messages + more, key, before) == Matching(messages, key, before)
  {
    if more == [] {
      assert messages + more == messages;
    } else {
      var init := more[..|more| - 1];
      assert (messages + more)[..|messages + more| - 1] == messages + init;
      MatchingFrozen(messages, init, key, before);
    }
  }

  // ----- Following `before` until hasMore is false ------------------------

  /** The k-th view answers the k-th request, each asking for what lies before the last page's first message. */
  predicate Follows(states: seq<State>, views: seq<View>, user: UserId, id: RequestId, limit: Pos) {
    && |views| == |states| && views != []
    && GetThread(states[0], user, id, None, limit) == Done(views[0])
    && forall k :: 0 < k < |views| ==> Asks(states, views, k, user, id, limit)
  }

  predicate Asks(states: seq<State>, views: seq<View>, k: nat, user: UserId, id: RequestId, limit: Pos) {
    && 0 < k < |views| == |states|
    && var last := views[k - 1].page;
    && last.hasMore && last.messages != []
    && GetThread(states[k], user, id, Some(last.messages[0].id), limit) == Done(views[k])
  }

  /** The message the k-th request asks to go back from; the first request names none. */
  function CursorAt(views: seq<View>, k: nat): Option<Message> {
    if 0 < k <= |views| && views[k - 1].page.messages != [] then Some(views[k - 1].page.messages[0]) else None
  }

  /** The caller is a party of the conversation. */
  predicate Talks(s: State, user: UserId, key: Key) {
    && ConversationFor(s.db, user, key.request).Done?
    && ConversationFor(s.db, user, key.request).value.mechanic == Some(key.mechanic)
  }

  predicate Grows(states: seq<State>, i: nat, j: nat) {
    i < |states| && j < |states| && states[i].messages <= states[j].messages
  }

  /** The caller stays a party of one conversation, and messages are only ever appended, with ids of their own. */
  predicate Steady(states: seq<State>, user: UserId, key: Key) {
    && (forall j :: 0 <= j < |states| ==> Talks(states[j], user, key) && DistinctIds(states[j].messages))
    && (forall i, j :: 0 <= i <= j < |states| ==> Grows(states, i, j))
  }

  /** Pages oldest first: the last one fetched comes first. */
  function Glue(views: seq<View>): seq<Message> {
    if views == [] then [] else views[|views| - 1].page.messages + Glue(views[..|views| - 1])
  }

  lemma {:induction false} ByIdFinds(s: seq<Message>, m: Message)
    requires DistinctIds(s) && m in s
    ensures ById(s, m.id) == Some(m)
  {
    if s[0] != m {
      assert s == [s[0]] + s[1..];
      var i :| 0 <= i < |s| && s[i] == m;
      assert s[0].id != s[i].id;
      assert m in s[1..];
      ByIdFinds(s[1..], m);
    }
  }

  lemma AskedPageOf(s: State, user: UserId, key: Key, cursor: Message, limit: Pos, view: View)
    requires Talks(s, user, key) && DistinctIds(s.messages) && cursor in s.messages
    requires GetThread(s, user, key.request, Some(cursor.id), limit) == Done(view)
    ensures view.page == PageOf(s.messages, key, Some(cursor), limit)
  {
    ByIdFinds(s.messages, cursor);
  }

  /** There is more before the page, and the message is older than all of it. */
  predicate Before(m: Message, page: Page) {
    page.hasMore && page.messages != [] && Older(m, page.messages[0])
  }

  /** The messages of a page are what was asked for, in order; every other message asked for comes before them. */
  predicate Answers(page: Page, messages: seq<Message>, key: Key, before: Option<Message>, limit: Pos) {
    && Ascending(page.messages) && |page.messages| <= limit
    && (forall m :: m in page.messages ==> m in messages && Selected(m, key, before))
    && (forall m :: m in messages && Selected(m, key, before) ==> m in page.messages || Before(m, page))
    && (page.hasMore ==> |page.messages| == limit && HasEarlier(page, messages, key, before))
  }

  predicate HasEarlier(page: Page, messages: seq<Message>, key: Key, before: Option<Message>)
    requires page.messages != []
  {
    exists m :: m in messages && Selected(m, key, before) && Older(m, page.messages[0])
  }

  /** The newest part of an ascending list is ascending, and what is not in it is older. */
  lemma NewestPart(s: seq<Message>, n: nat, m: Message)
    requires Ascending(s) && n <= |s| && m in s
    ensures Ascending(s[n..])
    ensures m in s[n..] || (n > 0 && (s[n..] != [] ==> Older(m, s[n])))
  {
    var i :| 0 <= i < |s| && s[i] == m;
    if i >= n {
      assert s[n..][i - n] == m;
    }
  }

  lemma PageAnswers(messages: seq<Message>, key: Key, before: Option<Message>, limit: Pos)
    requires DistinctIds(messages)
    ensures Answers(PageOf(messages, key, before, limit), messages, key, before, limit)
  {
    var s := Sorted(Matching(messages, key, before));
    PageIs(messages, key, before, limit);
    assert Ascending(s) && forall m :: m in s <==> m in messages && Selected(m, key, before) by {
      MatchingKeeps(messages, key, before);
      SortedKeeps(Matching(messages, key, before));
    }
    SliceAnswers(s, messages, key, before, limit);
    assert s[Cut(|s|, limit)..|s|] == s[Cut(|s|, limit)..];
  }

  lemma SliceAnswers(s: seq<Message>, messages: seq<Message>, key: Key, before: Option<Message>, limit: Pos)
    requires Ascending(s) && forall m :: m in s <==> m in messages && Selected(m, key, before)
    ensures var n := Cut(|s|, limit); Answers(Page(s[n..], n > 0), messages, key, before, limit)
  {
    var n := Cut(|s|, limit);
    forall m | m in messages && Selected(m, key, before) ensures m in s[n..] || Before(m, Page(s[n..], n > 0)) {
      NewestPart(s, n, m);
    }
    if n > 0 {
      assert s[0] in s && Older(s[0], s[n]);
    }
  }

  lemma FirstPage(states: seq<State>, views: seq<View>, user: UserId, key: Key, limit: Pos)
    requires Follows(states, views, user, key.request, limit) && Talks(states[0], user, key)
    ensures views[0].page == PageOf(states[0].messages, key, None, limit)
  {
  }

  lemma LaterPage(states: seq<State>, views: seq<View>, user: UserId, key: Key, limit: Pos, k: nat)
    requires Asks(states, views, k, user, key.request, limit)
    requires Talks(states[k], user, key) && DistinctIds(states[k].messages)
    requires views[k - 1].page.messages[0] in states[k].messages
    ensures CursorAt(views, k).Some? && views[k].page == PageOf(states[k].messages, key, CursorAt(views, k), limit)
  {
    AskedPageOf(states[k], user, key, views[k - 1].page.messages[0], limit, views[k]);
  }

  /** The k-th page answers a request for what lies before the page fetched last, which had said there is more. */
  predicate AnswersAt(states: seq<State>, views: seq<View>, key: Key, limit: Pos, k: nat) {
    && k < |views| && k < |states|
    && (k > 0 ==> CursorAt(views, k).Some? && views[k - 1].page.hasMore)
    && Answers(views[k].page, states[k].messages, key, CursorAt(views, k), limit)
  }

  /** What the exchange amounts to, said of the pages alone. */
  predicate Served(states: seq<State>, views: seq<View>, key: Key, limit: Pos) {
    && |views| == |states| && views != []
    && (forall k :: 0 <= k < |views| ==> AnswersAt(states, views, key, limit, k))
    && (forall i, j :: 0 <= i <= j < |states| ==> Grows(states, i, j))
  }

  lemma CursorStored(states: seq<State>, views: seq<View>, key: Key, limit: Pos, k: nat)
    requires AnswersAt(states, views, key, limit, k) && views[k].page.messages != [] && Grows(states, k, k + 1)
    ensures views[k].page.messages[0] in states[k + 1].messages
  {
    assert views[k].page.messages[0] in views[k].page.messages;
  }

  lemma {:induction false} EachAnswers(states: seq<State>, views: seq<View>, user: UserId, key: Key, limit: Pos, k: nat)
    requires Follows(states, views, user, key.request, limit) && Steady(states, user, key) && k < |views|
    ensures AnswersAt(states, views, key, limit, k)
  {
    assert Talks(states[k], user, key);
    if k == 0 {
      FirstPage(states, views, user, key, limit);
    } else {
      assert Asks(states, views, k, user, key.request, limit);
      assert views[k - 1].page.messages[0] in states[k].messages by {
        EachAnswers(states, views, user, key, limit, k - 1);
        assert Grows(states, k - 1, k);
        CursorStored(states, views, key, limit, k - 1);
      }
      LaterPage(states, views, user, key, limit, k);
    }
    PageAnswers(states[k].messages, key, CursorAt(views, k), limit);
  }

  lemma FollowsServed(states: seq<State>, views: seq<View>, user: UserId, key: Key, limit: Pos)
    requires Follows(states, views, user, key.request, limit) && Steady(states, user, key)
    ensures Served(states, views, key, limit)
  {
    forall k | 0 <= k < |views| ensures AnswersAt(states, views, key, limit, k) {
      EachAnswers(states, views, user, key, limit, k);
    }
  }

  lemma GlueNext(views: seq<View>, k: nat)
    requires k < |views|
    ensures Glue(views[..k + 1]) == views[k].page.messages + Glue(views[..k])
  {
    assert views[..k + 1][..k] == views[..k];
  }

  lemma AscendingGlue(page: seq<Message>, rest: seq<Message>)
    requires Ascending(page) && Ascending(rest)
    requires rest != [] ==> forall m :: m in page ==> Older(m, rest[0])
    ensures Ascending(page + rest)
  {
    forall i, j | 0 <= i < |page| <= j < |page + rest| ensures Older((page + rest)[i], (page + rest)[j]) {
      assert page[i] in page;
    }
  }

  /** However far the caller has paged, no message came twice and they glue together in order. */
  lemma {:induction false} GlueAscends(states: seq<State>, views: seq<View>, key: Key, limit: Pos, k: nat)
    requires Served(states, views, key, limit) && k <= |views|
    ensures var g := Glue(views[..k]);
            && Ascending(g)
            && (CursorAt(views, k).Some? ==> g != [] && g[0] == CursorAt(views, k).value)
            && (k == 0 ==> g == [])
  {
    if k > 0 {
      GlueAscends(states, views, key, limit, k - 1);
      var page, rest := views[k - 1].page.messages, Glue(views[..k - 1]);
      assert Ascending(page) && (rest != [] ==> forall m :: m in page ==> Older(m, rest[0])) by {
        assert AnswersAt(states, views, key, limit, k - 1);
      }
      GlueNext(views, k - 1);
      AscendingGlue(page, rest);
    }
  }

  /** Once a request asks for what lies before a cursor, nothing stored before it by then is skipped. */
  lemma {:induction false} Fetched(states: seq<State>, views: seq<View>, key: Key, limit: Pos,
                                   j: nat, k: nat, m: Message)
    requires Served(states, views, key, limit) && j < k <= |views|
    requires m in states[j].messages && Selected(m, key, CursorAt(views, j))
    ensures m in Glue(views[..k]) || Before(m, views[k - 1].page)
    decreases k
  {
    GlueNext(views, k - 1);
    if j < k - 1 {
      Fetched(states, views, key, limit, j, k - 1, m);
    }
    if m !in Glue(views[..k - 1]) {
      assert Grows(states, j, k - 1);
      FetchedNext(states, views, key, limit, k - 1, m);
    }
  }

  lemma FetchedNext(states: seq<State>, views: seq<View>, key: Key, limit: Pos, k: nat, m: Message)
    requires Served(states, views, key, limit) && k < |views|
    requires m in states[k].messages && Selected(m, key, CursorAt(views, k))
    ensures m in views[k].page.messages || Before(m, views[k].page)
  {
    assert AnswersAt(states, views, key, limit, k);
  }

  /** Every message of the glued pages was on one of them. */
  lemma {:induction false} GluedFrom(views: seq<View>, m: Message) returns (k: nat)
    requires m in Glue(views)
    ensures k < |views| && m in views[k].page.messages
  {
    if m in views[|views| - 1].page.messages {
      k := |views| - 1;
    } else {
      k := GluedFrom(views[..|views| - 1], m);
    }
  }

  /** As many pages as n messages need; one when there are none. */
  function PagesFor(n: nat, limit: Pos): nat {
    if n == 0 then 1 else (n + limit - 1) / limit
  }

  lemma PageCount(n: nat, limit: Pos, k: Pos)
    requires n <= k * limit && (k == 1 || n > (k - 1) * limit)
    ensures k == PagesFor(n, limit)
  {
    if n > 0 {
      assert n + limit - 1 == k * limit + (n - 1 - (k - 1) * limit);
      QuotientIs(n + limit - 1, limit, k, n - 1 - (k - 1) * limit);
    }
  }

  /** Every page but the last is full. */
  lemma {:induction false} FullPages(states: seq<State>, views: seq<View>, key: Key, limit: Pos, k: nat)
    requires Served(states, views, key, limit) && k < |views|
    ensures |Glue(views[..k])| == k * limit
  {
    if k > 0 {
      FullPages(states, views, key, limit, k - 1);
      assert |views[k - 1].page.messages| == limit by {
        assert AnswersAt(states, views, key, limit, k - 1);
        assert AnswersAt(states, views, key, limit, k);
      }
      GlueNext(views, k - 1);
      assert k * limit == (k - 1) * limit + limit;
    }
  }

  /** A page asked for because the one after it had more is not empty. */
  lemma LastPageFilled(states: seq<State>, views: seq<View>, key: Key, limit: Pos)
    requires Served(states, views, key, limit) && |views| > 1
    ensures views[|views| - 1].page.messages != []
  {
    var k := |views| - 1;
    assert AnswersAt(states, views, key, limit, k - 1);
    assert AnswersAt(states, views, key, limit, k);
    assert HasEarlier(views[k - 1].page, states[k - 1].messages, key, CursorAt(views, k - 1));
    var m :| m in states[k - 1].messages && Selected(m, key, CursorAt(views, k - 1))
             && Older(m, views[k - 1].page.messages[0]);
    assert Grows(states, k - 1, k);
    assert m in views[k].page.messages || Before(m, views[k].page);
  }

  lemma LastPageCounts(k: nat, limit: Pos, last: nat)
    requires last <= limit && (k > 0 ==> last > 0)
    ensures k + 1 == PagesFor(k * limit + last, limit)
  {
    assert (k + 1) * limit == k * limit + limit;
    PageCount(k * limit + last, limit, k + 1);
  }

  lemma PagesUsed(states: seq<State>, views: seq<View>, key: Key, limit: Pos)
    requires Served(states, views, key, limit)
    ensures |views| == PagesFor(|Glue(views)|, limit)
  {
    var k := |views| - 1;
    var last := views[k].page.messages;
    FullPages(states, views, key, limit, k);
    assert |last| <= limit && (k > 0 ==> last != []) by {
      assert AnswersAt(states, views, key, limit, k);
      if k > 0 { LastPageFilled(states, views, key, limit); }
    }
    LastPageCounts(k, limit, |last|);
  }

  /**
   * Following `before` until hasMore is false returns every message the
   * conversation had at the first request, no message twice and all in order,
   * in ceil(n / limit) pages for the n messages returned (one when there are
   * none), whatever is sent meanwhile.
   */
  lemma PagingIsComplete(states: seq<State>, views: seq<View>, user: UserId, key: Key, limit: Pos)
    requires Follows(states, views, user, key.request, limit) && Steady(states, user, key)
    requires !views[|views| - 1].page.hasMore
    ensures Ascending(Glue(views)) && |views| == PagesFor(|Glue(views)|, limit)
    ensures forall m :: m in Thread(states[0].messages, key) ==> m in Glue(views)
    ensures forall m :: m in Glue(views) ==> m in states[|states| - 1].messages && Belongs(m, key)
  {
    var n := |views|;
    FollowsServed(states, views, user, key, limit);
    assert views[..n] == views;
    GlueAscends(states, views, key, limit, n);
    PagesUsed(states, views, key, limit);
    ThreadIsSorted(states[0].messages, key);
    forall m | m in Thread(states[0].messages, key) ensures m in Glue(views) {
      Fetched(states, views, key, limit, 0, n, m);
    }
    forall m | m in Glue(views) ensures m in states[n - 1].messages && Belongs(m, key) {
      var k := GluedFrom(views, m);
      assert AnswersAt(states, views, key, limit, k);
      assert Grows(states, k, n - 1);
    }
  }
}
