/** Job chat over whole runs that interleave it with the jobs domain, on one clock. */
module ChatRuns {
  import opened Common
  import opened Jobs
  import opened Chat
  import opened ChatPaging

  datatype Event =
    | Job(action: Action, now: Time)
    | Say(user: UserId, id: RequestId, draft: Draft, minted: MsgId, now: Time)
    | Read(user: UserId, id: RequestId, upTo: Option<MsgId>, now: Time)

  function Kept(s: State, o: Outcome<State>): State {
    if o.Done? then o.value else s
  }

  function Next(s: State, e: Event): State {
    match e
    case Job(action, now) => s.(db := After(s.db, action, now))
    case Say(user, id, draft, minted, now) => Kept(s, Send(s, user, id, draft, minted, now))
    case Read(user, id, upTo, _) => Kept(s, MarkRead(s, user, id, upTo))
  }

  predicate IsRun(states: seq<State>, events: seq<Event>) {
    && |states| == |events| + 1
    && states[0] == State(EMPTY_DB, [], map[])
    && (forall k {:trigger events[k]} :: 0 <= k < |events| ==> states[k + 1] == Next(states[k], events[k]))
    && (forall j, k :: 0 <= j < k < |events| ==> events[j].now <= events[k].now)
  }

  // ----- Messages are only ever added -------------------------------------

  /** The message this send stores. */
  predicate Stores(s: State, e: Event, m: Message) {
    && e.Say?
    && Send(s, e.user, e.id, e.draft, e.minted, e.now).Done?
    && m == NewMessage(ConversationFor(s.db, e.user, e.id).value, e.user, e.draft, e.minted, e.now)
  }

  lemma MessagesStep(s: State, e: Event)
    ensures Next(s, e).messages == s.messages
            || exists m :: Stores(s, e, m) && Next(s, e).messages == s.messages + [m]
  {
  }

  lemma {:induction false} MessagesOnlyGrow(states: seq<State>, events: seq<Event>, i: nat, d: nat)
    requires IsRun(states, events) && i + d < |states|
    ensures |states[i].messages| <= |states[i + d].messages|
    ensures states[i + d].messages[..|states[i].messages|] == states[i].messages
  {
    if d > 0 {
      MessagesOnlyGrow(states, events, i, d - 1);
      var e := events[i + d - 1];
      MessagesStep(states[i + d - 1], e);
    }
  }

  /** The match a message was sent in: an earlier state, the send itself, and the two parties. */
  predicate SentInMatch(states: seq<State>, events: seq<Event>, k: nat, m: Message)
    requires IsRun(states, events)
  {
    && k < |events|
    && Stores(states[k], events[k], m)
    && m.request in states[k].db.requests
    && var r := states[k].db.requests[m.request];
    && r.status == Matched && r.mechanic == Some(m.mechanic)
    && m.sender == (if m.role == AsClient then r.client else m.mechanic)
    && m.sentAt == events[k].now
  }

  /** Every stored message was sent by one of the two parties while the job was matched to its mechanic. */
  lemma {:induction false} EveryMessageSentInItsMatch(states: seq<State>, events: seq<Event>, n: nat, x: nat)
    requires IsRun(states, events) && n < |states| && x < |states[n].messages|
    ensures exists k: nat :: k < n && SentInMatch(states, events, k, states[n].messages[x])
  {
    var e := events[n - 1];
    MessagesStep(states[n - 1], e);
    if x < |states[n - 1].messages| {
      EveryMessageSentInItsMatch(states, events, n - 1, x);
      var k: nat :| k < n - 1 && SentInMatch(states, events, k, states[n - 1].messages[x]);
      assert SentInMatch(states, events, k, states[n].messages[x]);
    } else {
      assert SentInMatch(states, events, n - 1, states[n].messages[x]);
    }
  }

  // ----- What every reachable chat state keeps ----------------------------

  /** A reply names an earlier message of its own conversation. */
  predicate RepliesInside(s: seq<Message>) {
    forall x :: 0 <= x < |s| && s[x].replyTo.Some? ==> AnswersEarlier(s, x)
  }

  predicate AnswersEarlier(s: seq<Message>, x: nat)
    requires x < |s| && s[x].replyTo.Some?
  {
    exists y :: 0 <= y < x && s[y].id == s[x].replyTo.value && Belongs(s[y], Key(s[x].request, s[x].mechanic))
  }

  predicate SentBy(s: seq<Message>, now: Time) {
    forall x :: 0 <= x < |s| ==> s[x].sentAt <= now
  }

  predicate InSendOrder(s: seq<Message>) {
    forall x, y :: 0 <= x < y < |s| ==> s[x].sentAt <= s[y].sentAt
  }

  lemma StoreKeeps(s: State, e: Event, m: Message)
    requires Stores(s, e, m) && DistinctIds(s.messages) && RepliesInside(s.messages) && InSendOrder(s.messages)
    requires SentBy(s.messages, e.now)
    ensures DistinctIds(s.messages + [m]) && RepliesInside(s.messages + [m]) && InSendOrder(s.messages + [m])
    ensures SentBy(s.messages + [m], e.now)
  {
    var longer := s.messages + [m];
    forall x | 0 <= x < |longer| && longer[x].replyTo.Some? ensures AnswersEarlier(longer, x) {
      if x < |s.messages| {
        assert AnswersEarlier(s.messages, x);
        var y :| 0 <= y < x && s.messages[y].id == s.messages[x].replyTo.value
                 && s.messages[y].request == s.messages[x].request && s.messages[y].mechanic == s.messages[x].mechanic;
        assert longer[y] == s.messages[y] && longer[x] == s.messages[x];
      } else {
        var a :| a in s.messages && a.id == m.replyTo.value && Belongs(a, Key(m.request, m.mechanic));
        var y :| 0 <= y < |s.messages| && s.messages[y] == a;
        assert longer[y] == a;
      }
    }
  }

  /** In every state: ids are unique, messages stand in send order, and replies stay inside their conversation. */
  lemma {:induction false} ChatTidy(states: seq<State>, events: seq<Event>, n: nat)
    requires IsRun(states, events) && n < |states|
    ensures DistinctIds(states[n].messages) && RepliesInside(states[n].messages) && InSendOrder(states[n].messages)
    ensures n > 0 ==> SentBy(states[n].messages, events[n - 1].now)
  {
    if n > 0 {
      ChatTidy(states, events, n - 1);
      var s, e := states[n - 1], events[n - 1];
      assert n > 1 ==> events[n - 2].now <= e.now;
      assert SentBy(s.messages, e.now);
      MessagesStep(s, e);
      if m :| Stores(s, e, m) && Next(s, e).messages == s.messages + [m] {
        StoreKeeps(s, e, m);
      }
    }
  }

  // ----- Read markers and unread counts -----------------------------------

  lemma {:induction false} MarkersNeverMoveBack(states: seq<State>, events: seq<Event>, i: nat, d: nat, k: ReadKey)
    requires IsRun(states, events) && i + d < |states| && k in states[i].markers
    ensures k in states[i + d].markers && states[i + d].markers[k] >= states[i].markers[k]
  {
    if d > 0 {
      MarkersNeverMoveBack(states, events, i, d - 1, k);
      var e := events[i + d - 1];
    }
  }

  lemma {:induction false} NothingUnread(s: seq<Message>, key: Key, user: UserId, marker: Option<Time>)
    requires forall x :: 0 <= x < |s| ==> !IsUnread(s[x], key, user, marker)
    ensures Unread(s, key, user, marker) == 0
  {
    if s != [] {
      NothingUnread(s[..|s| - 1], key, user, marker);
    }
  }

  /** Sending brings the sender's own unread count to zero. */
  lemma SendingReadsAll(states: seq<State>, events: seq<Event>, n: nat)
    requires IsRun(states, events) && n < |events| && events[n].Say?
    requires var e := events[n]; Send(states[n], e.user, e.id, e.draft, e.minted, e.now).Done?
    ensures var e := events[n]; var s := states[n + 1];
            ReadStateOf(s, ConversationFor(s.db, e.user, e.id).value, e.user).unread == 0
  {
    var e, s := events[n], states[n + 1];
    ChatTidy(states, events, n + 1);
    var c := ConversationFor(s.db, e.user, e.id).value;
    var marker := Marker(s, e.id, e.user);
    assert marker.Some? && marker.value >= e.now;
    NothingUnread(s.messages, Key(e.id, c.mechanic.value), e.user, marker);
  }

  /** Marking a chat read with no message named brings the caller's count to zero. */
  lemma MarkAllReadsAll(s: State, user: UserId, id: RequestId)
    requires DistinctIds(s.messages) && MarkRead(s, user, id, None).Done?
    ensures var after := MarkRead(s, user, id, None).value;
            ReadStateOf(after, ConversationFor(s.db, user, id).value, user).unread == 0
  {
    var c, after := ConversationFor(s.db, user, id).value, MarkRead(s, user, id, None).value;
    if c.mechanic.Some? {
      var key := Key(id, c.mechanic.value);
      var t := Thread(s.messages, key);
      ThreadIsSorted(s.messages, key);
      forall x | 0 <= x < |s.messages| ensures !IsUnread(s.messages[x], key, user, Marker(after, id, user)) {
        if Belongs(s.messages[x], key) {
          assert s.messages[x] in t;
          LastIsNewest(t, s.messages[x]);
        }
      }
      NothingUnread(after.messages, key, user, Marker(after, id, user));
    }
  }

  // ----- The unread list agrees with the counts ---------------------------

  /** The count readState gives, zero for anyone who is not a party. */
  function CountFor(s: State, user: UserId, id: RequestId): nat {
    var c := ConversationFor(s.db, user, id);
    if c.Done? then ReadStateOf(s, c.value, user).unread else 0
  }

  lemma JoinsIsUnread(s: State, user: UserId, m: Message)
    ensures Joins(s, user, m) <==>
            var c := ConversationFor(s.db, user, m.request);
            c.Done? && c.value.mechanic == Some(m.mechanic)
            && IsUnread(m, Key(m.request, m.mechanic), user, Marker(s, m.request, user))
  {
  }

  function CountIn(s: State, user: UserId, id: RequestId, messages: seq<Message>): nat {
    var c := ConversationFor(s.db, user, id);
    if c.Done? && c.value.mechanic.Some?
    then Unread(messages, Key(id, c.value.mechanic.value), user, Marker(s, id, user)) else 0
  }

  lemma {:induction false} GroupsCount(s: State, user: UserId, messages: seq<Message>, id: RequestId)
    ensures var g := Groups(s, user, messages);
            && (id in g <==> CountIn(s, user, id, messages) > 0)
            && (id in g ==> g[id].request == id && g[id].count == CountIn(s, user, id, messages))
  {
    if messages != [] {
      var m := messages[|messages| - 1];
      GroupsCount(s, user, messages[..|messages| - 1], id);
      JoinsIsUnread(s, user, m);
    }
  }

  /** The message is among the caller's unread ones of the job, and none of those is later. */
  predicate LatestUnread(s: State, user: UserId, messages: seq<Message>, id: RequestId, m: Message) {
    && m in messages && m.request == id && Joins(s, user, m)
    && forall x :: x in messages && x.request == id && Joins(s, user, x) ==> x.sentAt <= m.sentAt
  }

  /** A group carries the time of the latest unread message of its job. */
  lemma {:induction false} GroupLatest(s: State, user: UserId, messages: seq<Message>, id: RequestId)
    returns (latest: Message)
    requires id in Groups(s, user, messages)
    ensures LatestUnread(s, user, messages, id, latest) && Groups(s, user, messages)[id].lastAt == latest.sentAt
  {
    var init, m := messages[..|messages| - 1], messages[|messages| - 1];
    assert messages == init + [m];
    GroupsCount(s, user, init, id);
    latest := m;
    if id in Groups(s, user, init) {
      var before := GroupLatest(s, user, init, id);
      if !(m.request == id && Joins(s, user, m) && m.sentAt > before.sentAt) { latest := before; }
    } else {
      NoneJoin(s, user, init, id);
    }
  }

  lemma {:induction false} NoneJoin(s: State, user: UserId, messages: seq<Message>, id: RequestId)
    requires id !in Groups(s, user, messages)
    ensures forall x :: x in messages && x.request == id ==> !Joins(s, user, x)
  {
    if messages != [] {
      var init, m := messages[..|messages| - 1], messages[|messages| - 1];
      assert messages == init + [m];
      NoneJoin(s, user, init, id);
    }
  }

  lemma {:induction false} ListedRequests(list: seq<UnreadRow>) returns (ids: set<RequestId>)
    requires forall i, j :: 0 <= i < j < |list| ==> list[i].request != list[j].request
    ensures |ids| == |list| && forall id :: id in ids <==> exists i :: 0 <= i < |list| && list[i].request == id
  {
    if list == [] {
      ids := {};
    } else {
      var init, last := list[..|list| - 1], list[|list| - 1];
      var before := ListedRequests(init);
      assert last.request !in before;
      ids := before + {last.request};
      assert forall i :: 0 <= i < |init| ==> list[i] == init[i];
    }
  }

  lemma SubsetOfSameSize(a: set<RequestId>, b: set<RequestId>)
    requires a <= b && |a| >= |b|
    ensures a == b
  {
    assert b == a + (b - a);
    assert |b| == |a| + |b - a|;
  }

  lemma EveryGroupListed(list: seq<UnreadRow>, groups: map<RequestId, UnreadRow>, id: RequestId)
    requires Lists(list, groups) && |groups| <= UNREAD_LIMIT && id in groups
    ensures groups[id] in list
  {
    if |list| == UNREAD_LIMIT {
      var ids := ListedRequests(list);
      assert ids <= groups.Keys;
      SubsetOfSameSize(ids, groups.Keys);
      var i :| 0 <= i < |list| && list[i].request == id;
      assert groups[id] == list[i];
    }
  }

  /**
   * With at most 100 unread jobs, listChatUnread lists exactly the jobs whose
   * readState count is positive, each once and with that count.
   */
  lemma UnreadListAgrees(s: State, user: UserId, list: seq<UnreadRow>, id: RequestId)
    requires Lists(list, Groups(s, user, s.messages)) && |Groups(s, user, s.messages)| <= UNREAD_LIMIT
    ensures (exists i :: 0 <= i < |list| && list[i].request == id) <==> CountFor(s, user, id) > 0
    ensures forall i :: 0 <= i < |list| && list[i].request == id ==> list[i].count == CountFor(s, user, id)
  {
    var g := Groups(s, user, s.messages);
    GroupsCount(s, user, s.messages, id);
    if id in g {
      EveryGroupListed(list, g, id);
      var i :| 0 <= i < |list| && list[i] == g[id];
    }
  }

  predicate NoNewer(groups: map<RequestId, UnreadRow>, row: UnreadRow) {
    forall id :: id in groups ==> groups[id].lastAt <= row.lastAt
  }

  lemma {:induction false} NewestGroup(groups: map<RequestId, UnreadRow>) returns (id: RequestId)
    requires groups != map[]
    ensures id in groups && NoNewer(groups, groups[id])
    decreases |groups|
  {
    assert groups.Keys != {};
    var first :| first in groups.Keys;
    var rest := groups - {first};
    id := first;
    if rest != map[] {
      var other := NewestGroup(rest);
      if groups[other].lastAt > groups[first].lastAt { id := other; }
    }
    forall x | x in groups ensures groups[x].lastAt <= groups[id].lastAt {
      if x != first { assert x in rest && rest[x] == groups[x]; }
    }
  }

  lemma NewestCons(groups: map<RequestId, UnreadRow>, id: RequestId, rest: seq<UnreadRow>, n: Pos)
    requires id in groups && groups[id].request == id && NoNewer(groups, groups[id])
    requires NewestOf(rest, groups - {id}, n - 1)
    ensures NewestOf([groups[id]] + rest, groups, n)
  {
    var list := [groups[id]] + rest;
    forall x | x in groups && groups[x] !in list ensures x in groups - {id} && groups[x] !in rest {
    }
    forall x | x in groups && |list| < n ensures groups[x] in list {
      if x != id {
        assert (groups - {id})[x] in rest;
      }
    }
  }

  lemma {:induction false} NewestListed(groups: map<RequestId, UnreadRow>, n: nat) returns (list: seq<UnreadRow>)
    requires forall id :: id in groups ==> groups[id].request == id
    ensures NewestOf(list, groups, n)
  {
    if n == 0 || groups == map[] {
      list := [];
    } else {
      var id := NewestGroup(groups);
      var rest := NewestListed(groups - {id}, n - 1);
      list := [groups[id]] + rest;
      NewestCons(groups, id, rest, n);
    }
  }

  /** The query always has an answer: the groups of a caller's unread messages have such a list. */
  lemma UnreadListExists(s: State, user: UserId) returns (list: seq<UnreadRow>)
    ensures Lists(list, Groups(s, user, s.messages))
  {
    var groups := Groups(s, user, s.messages);
    forall id | id in groups ensures groups[id].request == id {
      GroupsCount(s, user, s.messages, id);
    }
    list := NewestListed(groups, UNREAD_LIMIT);
  }

  // ----- Who reads what ---------------------------------------------------

  /** A page shows a caller only messages of the current match's pair, and only to its two parties. */
  lemma OnlyThePartiesRead(s: State, user: UserId, id: RequestId, before: Option<MsgId>, limit: Pos, m: Message)
    requires DistinctIds(s.messages) && GetThread(s, user, id, before, limit).Done?
    requires m in GetThread(s, user, id, before, limit).value.page.messages
    ensures m in s.messages && m.request == id && id in s.db.requests
    ensures var r := s.db.requests[id]; r.mechanic == Some(m.mechanic) && (user == r.client || user == m.mechanic)
  {
    var c := ConversationFor(s.db, user, id).value;
    var key := Key(id, c.mechanic.value);
    var cursor := if before.Some? then ById(s.messages, before.value) else None;
    PageIs(s.messages, key, cursor, limit);
    MatchingKeeps(s.messages, key, cursor);
    SortedKeeps(Matching(s.messages, key, cursor));
  }

  // ----- Paging while a run goes on ---------------------------------------

  /** A message of the conversation that carries the cursor's very instant and a smaller id. */
  predicate TiesBelow(m: Message, cursor: Message, key: Key) {
    Belongs(m, key) && m.sentAt == cursor.sentAt && m.id < cursor.id
  }

  /** The conversation before a cursor, oldest first. */
  function OlderPart(s: State, key: Key, cursor: Message): seq<Message> {
    Sorted(Matching(s.messages, key, Some(cursor)))
  }

  /** Among the messages stored between two moments one ties below the cursor. */
  predicate TieBetween(first: State, later: State, key: Key, cursor: Message) {
    exists m :: m in later.messages && m !in first.messages && TiesBelow(m, cursor, key)
  }

  /** A message stored later sorts before the cursor exactly when it ties below it. */
  lemma LaterSelectedIffTied(states: seq<State>, events: seq<Event>, i: nat, j: nat, key: Key, cursor: Message, y: nat)
    requires IsRun(states, events) && i <= j < |states| && cursor in states[i].messages
    requires |states[i].messages| <= y < |states[j].messages|
    ensures Selected(states[j].messages[y], key, Some(cursor)) <==> TiesBelow(states[j].messages[y], cursor, key)
    ensures states[j].messages[y] !in states[i].messages
  {
    MessagesOnlyGrow(states, events, i, j - i);
    ChatTidy(states, events, j);
    var first, later := states[i].messages, states[j].messages;
    var x :| 0 <= x < |first| && first[x] == cursor;
    assert later[x] == later[..|first|][x];
    forall z | 0 <= z < |first| ensures first[z] != later[y] {
      assert later[z] == later[..|first|][z];
    }
  }

  /** Every page a caller can ask for with this cursor. */
  ghost predicate SamePages(first: State, later: State, key: Key, cursor: Message) {
    forall limit: Pos ::
      PageOf(later.messages, key, Some(cursor), limit) == PageOf(first.messages, key, Some(cursor), limit)
  }

  /** A page long enough shows all that lies before the cursor. */
  lemma LongPage(messages: seq<Message>, key: Key, before: Option<Message>, limit: Pos)
    requires |Sorted(Matching(messages, key, before))| <= limit
    ensures PageOf(messages, key, before, limit).messages == Sorted(Matching(messages, key, before))
  {
    PageIs(messages, key, before, limit);
  }

  lemma SamePagesSamePart(first: State, later: State, key: Key, cursor: Message)
    ensures SamePages(first, later, key, cursor) <==> OlderPart(later, key, cursor) == OlderPart(first, key, cursor)
  {
    if SamePages(first, later, key, cursor) {
      var limit := |OlderPart(first, key, cursor)| + |OlderPart(later, key, cursor)| + 1;
      LongPage(first.messages, key, Some(cursor), limit);
      LongPage(later.messages, key, Some(cursor), limit);
    }
  }

  /**
   * Over every run: what lies before a cursor, and with it the pages asked for
   * with that cursor, are the same at a later moment exactly when no message
   * stored in between carries the cursor's instant with a smaller id.
   */
  lemma OlderPartChangesOnlyByTies(states: seq<State>, events: seq<Event>, i: nat, j: nat, key: Key, cursor: Message)
    requires IsRun(states, events) && i <= j < |states| && cursor in states[i].messages
    ensures OlderPart(states[j], key, cursor) == OlderPart(states[i], key, cursor) <==>
            !TieBetween(states[i], states[j], key, cursor)
    ensures SamePages(states[i], states[j], key, cursor) <==> !TieBetween(states[i], states[j], key, cursor)
  {
    OlderPartMoves(states, events, i, j, key, cursor);
    SamePagesSamePart(states[i], states[j], key, cursor);
  }

  lemma OlderPartMoves(states: seq<State>, events: seq<Event>, i: nat, j: nat, key: Key, cursor: Message)
    requires IsRun(states, events) && i <= j < |states| && cursor in states[i].messages
    ensures OlderPart(states[j], key, cursor) == OlderPart(states[i], key, cursor) <==>
            !TieBetween(states[i], states[j], key, cursor)
  {
    MessagesOnlyGrow(states, events, i, j - i);
    var first, later := states[i].messages, states[j].messages;
    var more := later[|first|..];
    assert later == first + more;
    if TieBetween(states[i], states[j], key, cursor) {
      var m :| m in later && m !in first && TiesBelow(m, cursor, key);
      NewcomerIsOlder(states, events, i, j, key, cursor, m);
    } else {
      forall m | m in more ensures !Selected(m, key, Some(cursor)) {
        var y :| 0 <= y < |more| && more[y] == m;
        assert later[|first| + y] == m;
        LaterSelectedIffTied(states, events, i, j, key, cursor, |first| + y);
      }
      MatchingFrozen(first, more, key, Some(cursor));
    }
  }

  /** The tied newcomer stands in the later older part and not in the earlier one. */
  lemma NewcomerIsOlder(states: seq<State>, events: seq<Event>, i: nat, j: nat, key: Key, cursor: Message, m: Message)
    requires IsRun(states, events) && i <= j < |states|
    requires m in states[j].messages && m !in states[i].messages && TiesBelow(m, cursor, key)
    ensures m in OlderPart(states[j], key, cursor) && m !in OlderPart(states[i], key, cursor)
  {
    ChatTidy(states, events, i);
    ChatTidy(states, events, j);
    MatchingKeeps(states[i].messages, key, Some(cursor));
    MatchingKeeps(states[j].messages, key, Some(cursor));
    SortedKeeps(Matching(states[i].messages, key, Some(cursor)));
    SortedKeeps(Matching(states[j].messages, key, Some(cursor)));
  }

  /** The moments of a run at which a caller asks, in time order. */
  predicate Visits(states: seq<State>, at: seq<nat>, moments: seq<State>) {
    && |moments| == |at|
    && (forall j, k :: 0 <= j <= k < |at| ==> at[j] <= at[k])
    && (forall k :: 0 <= k < |at| ==> at[k] < |states| && moments[k] == states[at[k]])
  }

  /** At each of them the caller is a party of the same conversation. */
  predicate KeepsTalking(moments: seq<State>, user: UserId, key: Key) {
    forall k :: 0 <= k < |moments| ==> Talks(moments[k], user, key)
  }

  /** The moments of a run at which a caller asks are all that paging needs of it. */
  lemma RunsAreSteady(states: seq<State>, events: seq<Event>, at: seq<nat>, moments: seq<State>, user: UserId, key: Key)
    requires IsRun(states, events) && Visits(states, at, moments) && KeepsTalking(moments, user, key)
    ensures Steady(moments, user, key)
  {
    forall k | 0 <= k < |moments| ensures DistinctIds(moments[k].messages) {
      ChatTidy(states, events, at[k]);
    }
    forall i, j | 0 <= i <= j < |moments| ensures Grows(moments, i, j) {
      MessagesOnlyGrow(states, events, at[i], at[j] - at[i]);
    }
  }

  /** A message stored since the first request, and by the k-th, ties below the cursor of the k-th. */
  predicate SlipsIn(moments: seq<State>, views: seq<View>, key: Key, m: Message, k: nat) {
    && 0 < k < |views| == |moments| && CursorAt(views, k).Some?
    && m in moments[k].messages && m !in moments[0].messages && TiesBelow(m, CursorAt(views, k).value, key)
  }

  ghost predicate EverSlipsIn(moments: seq<State>, views: seq<View>, key: Key, m: Message) {
    exists k: nat :: SlipsIn(moments, views, key, m, k)
  }

  lemma NewcomerIsLater(states: seq<State>, events: seq<Event>, i: nat, j: nat, c: Message, m: Message)
    requires IsRun(states, events) && i <= j < |states|
    requires c in states[i].messages && m in states[j].messages && m !in states[i].messages
    ensures c.sentAt <= m.sentAt
  {
    MessagesOnlyGrow(states, events, i, j - i);
    ChatTidy(states, events, j);
    var first, later := states[i].messages, states[j].messages;
    var x :| 0 <= x < |first| && first[x] == c;
    var y :| 0 <= y < |later| && later[y] == m;
    forall z | 0 <= z < |first| ensures later[z] == first[z] && later[z] != m {
      assert later[z] == later[..|first|][z];
    }
  }

  /** No message on a page is later than one stored after the first request. */
  lemma {:induction false} PagesStayBack(states: seq<State>, events: seq<Event>, at: seq<nat>, moments: seq<State>,
                                         views: seq<View>, key: Key, limit: Pos,
                                         k: nat, x: nat, c: Message, m: Message)
    requires IsRun(states, events) && Visits(states, at, moments) && Served(moments, views, key, limit)
    requires k < |views| && c in views[k].page.messages
    requires x < |moments| && m in moments[x].messages && m !in moments[0].messages
    ensures c.sentAt <= m.sentAt
  {
    assert c in moments[k].messages && Selected(c, key, CursorAt(views, k)) && (k > 0 ==> CursorAt(views, k).Some?) by {
      assert AnswersAt(moments, views, key, limit, k);
    }
    if k == 0 {
      NewcomerIsLater(states, events, at[0], at[x], c, m);
    } else {
      var cursor := CursorAt(views, k).value;
      PagesStayBack(states, events, at, moments, views, key, limit, k - 1, x, cursor, m);
    }
  }

  /** A newcomer is on a page only if it ties below the cursor of that page. */
  lemma NewcomerOnPage(states: seq<State>, events: seq<Event>, at: seq<nat>, moments: seq<State>,
                       views: seq<View>, key: Key, limit: Pos, k: nat, m: Message)
    requires IsRun(states, events) && Visits(states, at, moments) && Served(moments, views, key, limit)
    requires k < |views| && m in views[k].page.messages && m !in moments[0].messages
    ensures SlipsIn(moments, views, key, m, k)
  {
    assert AnswersAt(moments, views, key, limit, k);
    if k > 0 {
      var cursor := CursorAt(views, k).value;
      assert Selected(m, key, Some(cursor));
      PagesStayBack(states, events, at, moments, views, key, limit, k - 1, k, cursor, m);
    }
  }

  /**
   * Over every run, while messages are sent, marked read and jobs move: a caller
   * who follows `before` until hasMore is false gets every message the
   * conversation had at the first request, none twice and all in order, in
   * ceil(n / limit) pages. Beside them come exactly the messages stored
   * meanwhile that carried the instant of a cursor, with a smaller id, by the
   * time it was used.
   */
  lemma PagingOverRun(states: seq<State>, events: seq<Event>, at: seq<nat>, moments: seq<State>, views: seq<View>,
                      user: UserId, key: Key, limit: Pos)
    requires IsRun(states, events) && Visits(states, at, moments) && KeepsTalking(moments, user, key)
    requires Follows(moments, views, user, key.request, limit) && !views[|views| - 1].page.hasMore
    ensures Ascending(Glue(views)) && |views| == PagesFor(|Glue(views)|, limit)
    ensures forall m :: m in Glue(views) <==>
                        m in Thread(moments[0].messages, key) || EverSlipsIn(moments, views, key, m)
  {
    RunsAreSteady(states, events, at, moments, user, key);
    PagingIsComplete(moments, views, user, key, limit);
    FollowsServed(moments, views, user, key, limit);
    forall m | m in Glue(views) && m !in Thread(moments[0].messages, key) ensures EverSlipsIn(moments, views, key, m) {
      NewcomerSlippedIn(states, events, at, moments, views, key, limit, m);
    }
    forall m | EverSlipsIn(moments, views, key, m) ensures m in Glue(views) {
      SlippedInIsPaged(moments, views, key, limit, m);
    }
  }

  lemma NewcomerSlippedIn(states: seq<State>, events: seq<Event>, at: seq<nat>, moments: seq<State>,
                          views: seq<View>, key: Key, limit: Pos, m: Message)
    requires IsRun(states, events) && Visits(states, at, moments) && Served(moments, views, key, limit)
    requires m in Glue(views) && Belongs(m, key) && m !in Thread(moments[0].messages, key)
    ensures EverSlipsIn(moments, views, key, m)
  {
    ChatTidy(states, events, at[0]);
    ThreadIsSorted(moments[0].messages, key);
    var k := GluedFrom(views, m);
    NewcomerOnPage(states, events, at, moments, views, key, limit, k, m);
  }

  lemma SlippedInIsPaged(moments: seq<State>, views: seq<View>, key: Key, limit: Pos, m: Message)
    requires Served(moments, views, key, limit)
    requires !views[|views| - 1].page.hasMore && EverSlipsIn(moments, views, key, m)
    ensures m in Glue(views)
  {
    var k: nat :| SlipsIn(moments, views, key, m, k);
    Fetched(moments, views, key, limit, k, |views|, m);
    assert views[..|views|] == views;
  }

  /** The request that used cursor k found a message tied below it that was not there at first. */
  predicate TieMet(moments: seq<State>, views: seq<View>, key: Key, k: nat) {
    && 0 < k < |views| == |moments| && CursorAt(views, k).Some?
    && TieBetween(moments[0], moments[k], key, CursorAt(views, k).value)
  }

  ghost predicate EverTieMet(moments: seq<State>, views: seq<View>, key: Key) {
    exists k: nat :: TieMet(moments, views, key, k)
  }

  lemma TieMetIffSlipsIn(moments: seq<State>, views: seq<View>, key: Key)
    ensures EverTieMet(moments, views, key) <==> exists m :: EverSlipsIn(moments, views, key, m)
  {
    if EverTieMet(moments, views, key) {
      var k: nat :| TieMet(moments, views, key, k);
      var m :| m in moments[k].messages && m !in moments[0].messages && TiesBelow(m, CursorAt(views, k).value, key);
      assert SlipsIn(moments, views, key, m, k);
      assert EverSlipsIn(moments, views, key, m);
    }
    if m :| EverSlipsIn(moments, views, key, m) {
      var k: nat :| SlipsIn(moments, views, key, m, k);
      assert TieMet(moments, views, key, k);
    }
  }

  /** So the pages are the conversation as it stood at the first request exactly when no cursor in use met a tie. */
  lemma PagesAreTheThreadIffUntied(states: seq<State>, events: seq<Event>, at: seq<nat>, moments: seq<State>,
                                   views: seq<View>, user: UserId, key: Key, limit: Pos)
    requires IsRun(states, events) && Visits(states, at, moments) && KeepsTalking(moments, user, key)
    requires Follows(moments, views, user, key.request, limit) && !views[|views| - 1].page.hasMore
    ensures Glue(views) == Thread(moments[0].messages, key) <==> !EverTieMet(moments, views, key)
  {
    var t := Thread(moments[0].messages, key);
    PagingOverRun(states, events, at, moments, views, user, key, limit);
    TieMetIffSlipsIn(moments, views, key);
    assert Ascending(t) && forall m :: m in t ==> m in moments[0].messages by {
      RunsAreSteady(states, events, at, moments, user, key);
      ThreadIsSorted(moments[0].messages, key);
    }
    if EverTieMet(moments, views, key) {
      var m :| EverSlipsIn(moments, views, key, m);
      assert m in Glue(views) && m !in t;
    } else {
      AscendingUnique(Glue(views), t);
    }
  }

  // ----- A run in which a tie changes a page ------------------------------

  const HELLO := Draft("hello", None, None)

  /** A mechanic is approved, takes an Emergency, and its client sends messages 5, 9 and 7 in one instant. */
  function TiedEvents(client: UserId, mechanic: UserId, id: RequestId): seq<Event> {
    [Job(DoSubmitVerification(mechanic, 0), 0), Job(DoDecideVerification(true, 0, Approve), 0),
     Job(DoBook(client, id, Emergency), 0), Job(DoAcceptEmergency(mechanic, id, 1), 0),
     Say(client, id, HELLO, 5, 0), Say(client, id, HELLO, 9, 0), Say(client, id, HELLO, 7, 0)]
  }

  function Hello(client: UserId, mechanic: UserId, id: RequestId, minted: MsgId): Message {
    Message(minted, id, mechanic, client, AsClient, Some("hello"), None, None, 0)
  }

  /** The tables once the mechanic has taken the job. */
  function TakenDb(client: UserId, mechanic: UserId, id: RequestId): Db {
    Db(map[id := Match(NewRequest(client, Emergency), mechanic, 0)],
       map[QuoteKey(id, mechanic) := Quote(0, 1, true, None, None)],
       [], [], INITIAL_POLICY, map[0 := Account(mechanic, Approved, false)])
  }

  lemma ApprovedIsReached(mechanic: UserId)
    ensures After(After(EMPTY_DB, DoSubmitVerification(mechanic, 0), 0), DoDecideVerification(true, 0, Approve), 0)
         == EMPTY_DB.(accounts := map[0 := Account(mechanic, Approved, false)])
  {
    assert After(EMPTY_DB, DoSubmitVerification(mechanic, 0), 0)
           == EMPTY_DB.(accounts := map[0 := Account(mechanic, Waiting, false)]);
  }

  lemma TakenIsReached(client: UserId, mechanic: UserId, id: RequestId)
    ensures var approved := EMPTY_DB.(accounts := map[0 := Account(mechanic, Approved, false)]);
            After(After(approved, DoBook(client, id, Emergency), 0), DoAcceptEmergency(mechanic, id, 1), 0)
            == TakenDb(client, mechanic, id)
  {
    var approved := EMPTY_DB.(accounts := map[0 := Account(mechanic, Approved, false)]);
    var booked := approved.(requests := map[id := NewRequest(client, Emergency)]);
    assert After(approved, DoBook(client, id, Emergency), 0) == booked;
    assert IsApproved(booked, mechanic) by {
      assert booked.accounts[0].user == mechanic && booked.accounts[0].status == Approved;
    }
    assert booked.requests[id := Match(booked.requests[id], mechanic, 0)] == TakenDb(client, mechanic, id).requests;
    assert AcceptRecord(map[], QuoteKey(id, mechanic), 1) == TakenDb(client, mechanic, id).quotes;
  }

  lemma HelloIsSent(s: State, client: UserId, mechanic: UserId, id: RequestId, minted: MsgId)
    requires s.db == TakenDb(client, mechanic, id) && forall m :: m in s.messages ==> m.id != minted
    ensures Next(s, Say(client, id, HELLO, minted, 0)).db == s.db
    ensures Next(s, Say(client, id, HELLO, minted, 0)).messages == s.messages + [Hello(client, mechanic, id, minted)]
  {
  }

  /** One instant, seven steps. */
  lemma SevenSteps(states: seq<State>, events: seq<Event>)
    requires |events| == 7 && |states| == 8 && states[0] == State(EMPTY_DB, [], map[])
    requires states[1] == Next(states[0], events[0]) && states[2] == Next(states[1], events[1])
    requires states[3] == Next(states[2], events[2]) && states[4] == Next(states[3], events[3])
    requires states[5] == Next(states[4], events[4]) && states[6] == Next(states[5], events[5])
    requires states[7] == Next(states[6], events[6]) && forall e :: e in events ==> e.now == 0
    ensures IsRun(states, events)
  {
  }

  /** From the taken job on, the three messages arrive. */
  lemma ThreeHellos(s4: State, client: UserId, mechanic: UserId, id: RequestId)
    requires s4.db == TakenDb(client, mechanic, id) && s4.messages == []
    ensures var s6 := Next(Next(s4, Say(client, id, HELLO, 5, 0)), Say(client, id, HELLO, 9, 0));
            var s7 := Next(s6, Say(client, id, HELLO, 7, 0));
            && s6.db == s4.db && s6.messages == [Hello(client, mechanic, id, 5), Hello(client, mechanic, id, 9)]
            && s7.db == s4.db && s7.messages == s6.messages + [Hello(client, mechanic, id, 7)]
  {
    var s5 := Next(s4, Say(client, id, HELLO, 5, 0));
    HelloIsSent(s4, client, mechanic, id, 5);
    var s6 := Next(s5, Say(client, id, HELLO, 9, 0));
    HelloIsSent(s5, client, mechanic, id, 9);
    HelloIsSent(s6, client, mechanic, id, 7);
  }

  /** The state of the chat at the two moments: messages 5 and 9, then 7 as well. */
  predicate HoldsHellos(s: State, client: UserId, mechanic: UserId, id: RequestId, all: bool) {
    && s.db == TakenDb(client, mechanic, id)
    && s.messages == [Hello(client, mechanic, id, 5), Hello(client, mechanic, id, 9)]
                     + if all then [Hello(client, mechanic, id, 7)] else []
  }

  /** The run of those events. */
  lemma TiedRun(client: UserId, mechanic: UserId, id: RequestId) returns (states: seq<State>)
    ensures IsRun(states, TiedEvents(client, mechanic, id))
    ensures HoldsHellos(states[6], client, mechanic, id, false) && HoldsHellos(states[7], client, mechanic, id, true)
  {
    var events := TiedEvents(client, mechanic, id);
    var s0 := State(EMPTY_DB, [], map[]);
    var s1 := Next(s0, events[0]);
    var s2 := Next(s1, events[1]);
    var s3 := Next(s2, events[2]);
    var s4 := Next(s3, events[3]);
    ApprovedIsReached(mechanic);
    TakenIsReached(client, mechanic, id);
    var s5 := Next(s4, events[4]);
    var s6 := Next(s5, events[5]);
    var s7 := Next(s6, events[6]);
    ThreeHellos(s4, client, mechanic, id);
    states := [s0, s1, s2, s3, s4, s5, s6, s7];
    SevenSteps(states, events);
  }

  lemma MatchingNext(s: seq<Message>, m: Message, key: Key, before: Option<Message>)
    ensures Matching(s + [m], key, before) == Matching(s, key, before) + if Selected(m, key, before) then [m] else []
  {
    assert (s + [m])[..|s|] == s;
  }

  /** Before message 7 stands message 5; before 9 stands 5, and 7 once it has come. */
  lemma HellosBefore(s: State, client: UserId, mechanic: UserId, id: RequestId, all: bool)
    requires HoldsHellos(s, client, mechanic, id, all)
    ensures var key := Key(id, mechanic);
            var five, seven := Hello(client, mechanic, id, 5), Hello(client, mechanic, id, 7);
            var nine := Hello(client, mechanic, id, 9);
            && (!all ==> Matching(s.messages, key, None) == [five, nine])
            && Matching(s.messages, key, Some(nine)) == (if all then [five, seven] else [five])
            && Matching(s.messages, key, Some(seven)) == [five]
  {
    var key, five, seven := Key(id, mechanic), Hello(client, mechanic, id, 5), Hello(client, mechanic, id, 7);
    var nine := Hello(client, mechanic, id, 9);
    assert [] + [five] == [five] && [five] + [nine] == [five, nine];
    assert !all ==> s.messages == [five, nine];
    forall before | before in {None, Some(seven), Some(nine)}
      ensures Matching([five, nine] + [seven], key, before)
           == Matching([five, nine], key, before) + if Selected(seven, key, before) then [seven] else []
      ensures Matching([five, nine], key, before)
           == (if Selected(five, key, before) then [five] else []) + if Selected(nine, key, before) then [nine] else []
    {
      MatchingNext([], five, key, before);
      MatchingNext([five], nine, key, before);
      MatchingNext([five, nine], seven, key, before);
    }
  }

  lemma SortedAlready(s: seq<Message>)
    requires Ascending(s) && DistinctIds(s)
    ensures Sorted(s) == s
  {
    SortedKeeps(s);
    AscendingUnique(Sorted(s), s);
  }

  /** A page of one message: the newest of what was asked for. */
  lemma PageOfOne(messages: seq<Message>, key: Key, before: Option<Message>)
    requires var found := Matching(messages, key, before); Ascending(found) && DistinctIds(found) && found != []
    ensures var found := Matching(messages, key, before);
            PageOf(messages, key, before, 1) == Page([found[|found| - 1]], |found| > 1)
  {
    var found := Matching(messages, key, before);
    assert Sorted(found) == found by { SortedAlready(found); }
    PageIs(messages, key, before, 1);
  }

  /** A party who names a message of the conversation gets the page before it. */
  lemma AnswersParty(s: State, user: UserId, key: Key, cursor: Message, limit: Pos)
    requires Talks(s, user, key) && DistinctIds(s.messages) && cursor in s.messages && Belongs(cursor, key)
    ensures var o := GetThread(s, user, key.request, Some(cursor.id), limit);
            o.Done? && o.value.page == PageOf(s.messages, key, Some(cursor), limit)
  {
    assert InConversation(s.messages, key, cursor.id);
    ByIdFinds(s.messages, cursor);
  }

  /** A page of one before a message that stands in the conversation. */
  lemma HelloServed(s: State, client: UserId, mechanic: UserId, id: RequestId, cursor: Message)
    requires s.db == TakenDb(client, mechanic, id) && DistinctIds(s.messages)
    requires cursor in s.messages && Belongs(cursor, Key(id, mechanic))
    requires var found := Matching(s.messages, Key(id, mechanic), Some(cursor));
             Ascending(found) && DistinctIds(found) && found != []
    ensures GetThread(s, client, id, Some(cursor.id), 1).Done?
    ensures var found := Matching(s.messages, Key(id, mechanic), Some(cursor));
            GetThread(s, client, id, Some(cursor.id), 1).value.page == Page([found[|found| - 1]], |found| > 1)
  {
    AnswersParty(s, client, Key(id, mechanic), cursor, 1);
    PageOfOne(s.messages, Key(id, mechanic), Some(cursor));
  }

  /** The page of one before message 9 shows 5, and 7 instead once it has come. */
  lemma PageBeforeNine(s: State, client: UserId, mechanic: UserId, id: RequestId, all: bool)
    requires HoldsHellos(s, client, mechanic, id, all)
    ensures GetThread(s, client, id, Some(9), 1).Done?
    ensures GetThread(s, client, id, Some(9), 1).value.page
         == Page([Hello(client, mechanic, id, if all then 7 else 5)], all)
  {
    var five, seven := Hello(client, mechanic, id, 5), Hello(client, mechanic, id, 7);
    var nine := Hello(client, mechanic, id, 9);
    assert s.messages[1] == nine;
    assert Matching(s.messages, Key(id, mechanic), Some(nine)) == if all then [five, seven] else [five] by {
      HellosBefore(s, client, mechanic, id, all);
    }
    HelloServed(s, client, mechanic, id, nine);
  }

  lemma PageBeforeSeven(s: State, client: UserId, mechanic: UserId, id: RequestId)
    requires HoldsHellos(s, client, mechanic, id, true)
    ensures GetThread(s, client, id, Some(7), 1).Done?
    ensures GetThread(s, client, id, Some(7), 1).value.page == Page([Hello(client, mechanic, id, 5)], false)
  {
    assert s.messages[2] == Hello(client, mechanic, id, 7);
    HellosBefore(s, client, mechanic, id, true);
    HelloServed(s, client, mechanic, id, Hello(client, mechanic, id, 7));
  }

  lemma FirstPageIsNine(s: State, client: UserId, mechanic: UserId, id: RequestId)
    requires HoldsHellos(s, client, mechanic, id, false)
    ensures GetThread(s, client, id, None, 1).Done?
    ensures GetThread(s, client, id, None, 1).value.page == Page([Hello(client, mechanic, id, 9)], true)
    ensures Thread(s.messages, Key(id, mechanic)) == [Hello(client, mechanic, id, 5), Hello(client, mechanic, id, 9)]
  {
    HellosBefore(s, client, mechanic, id, false);
    PageOfOne(s.messages, Key(id, mechanic), None);
    SortedAlready(Matching(s.messages, Key(id, mechanic), None));
  }

  /**
   * The client asks for the page before message 9, and gets another one once message 7 has come in the same
   * instant.
   */
  lemma TieChangesPage(client: UserId, mechanic: UserId, id: RequestId) returns (states: seq<State>)
    ensures IsRun(states, TiedEvents(client, mechanic, id))
    ensures GetThread(states[6], client, id, Some(9), 1).Done? && GetThread(states[7], client, id, Some(9), 1).Done?
    ensures GetThread(states[6], client, id, Some(9), 1).value.page
            != GetThread(states[7], client, id, Some(9), 1).value.page
  {
    states := TiedRun(client, mechanic, id);
    PageBeforeNine(states[6], client, mechanic, id, false);
    PageBeforeNine(states[7], client, mechanic, id, true);
  }

  lemma {:induction false} GluedThree(views: seq<View>, a: Message, b: Message, c: Message)
    requires |views| == 3 && views[0].page.messages == [c] && views[1].page.messages == [b]
    requires views[2].page.messages == [a]
    ensures Glue(views) == [a, b, c]
  {
    GlueNext(views, 0);
    GlueNext(views, 1);
    GlueNext(views, 2);
    assert views[..3] == views && views[..0] == [];
  }

  /**
   * The client pages one by one from message 9 back while message 7 comes in, and gets 5, 7 and 9 though the
   * conversation was 5 and 9 at the first request.
   */
  lemma TieIsPagedIn(client: UserId, mechanic: UserId, id: RequestId) returns (states: seq<State>, views: seq<View>)
    ensures IsRun(states, TiedEvents(client, mechanic, id))
    ensures Follows([states[6], states[7], states[7]], views, client, id, 1) && !views[2].page.hasMore
    ensures var five, nine := Hello(client, mechanic, id, 5), Hello(client, mechanic, id, 9);
            && Thread(states[6].messages, Key(id, mechanic)) == [five, nine]
            && Glue(views) == [five, Hello(client, mechanic, id, 7), nine]
  {
    states := TiedRun(client, mechanic, id);
    views := ThreePages(states[6], states[7], client, mechanic, id);
  }

  lemma FollowsThree(a: State, b: State, c: State, x: View, y: View, z: View, user: UserId, id: RequestId)
    requires GetThread(a, user, id, None, 1) == Done(x) && x.page.hasMore && x.page.messages != []
    requires GetThread(b, user, id, Some(x.page.messages[0].id), 1) == Done(y)
    requires y.page.hasMore && y.page.messages != []
    requires GetThread(c, user, id, Some(y.page.messages[0].id), 1) == Done(z)
    ensures Follows([a, b, c], [x, y, z], user, id, 1)
  {
    assert Asks([a, b, c], [x, y, z], 1, user, id, 1) && Asks([a, b, c], [x, y, z], 2, user, id, 1);
  }

  lemma ThreePages(s: State, later: State, client: UserId, mechanic: UserId, id: RequestId) returns (views: seq<View>)
    requires HoldsHellos(s, client, mechanic, id, false) && HoldsHellos(later, client, mechanic, id, true)
    ensures Follows([s, later, later], views, client, id, 1) && !views[2].page.hasMore
    ensures var five, nine := Hello(client, mechanic, id, 5), Hello(client, mechanic, id, 9);
            && Thread(s.messages, Key(id, mechanic)) == [five, nine]
            && Glue(views) == [five, Hello(client, mechanic, id, 7), nine]
  {
    FirstPageIsNine(s, client, mechanic, id);
    PageBeforeNine(later, client, mechanic, id, true);
    PageBeforeSeven(later, client, mechanic, id);
    var x := GetThread(s, client, id, None, 1).value;
    var y, z := GetThread(later, client, id, Some(9), 1).value, GetThread(later, client, id, Some(7), 1).value;
    views := [x, y, z];
    FollowsThree(s, later, later, x, y, z, client, id);
    GluedThree(views, Hello(client, mechanic, id, 5), Hello(client, mechanic, id, 7), Hello(client, mechanic, id, 9));
  }
}
