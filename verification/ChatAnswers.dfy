/** What the chat calls answer, whom they answer, and what they write. */
module ChatAnswers {
  import opened Common
  import opened Jobs
  import opened Chat
  import opened ChatPaging

  // ----- Whose conversation -----------------------------------------------

  /** The two parties of a job's current conversation: its client, and its mechanic when it has one. */
  predicate Party(db: Db, user: UserId, id: RequestId) {
    id in db.requests && (db.requests[id].client == user || db.requests[id].mechanic == Some(user))
  }

  /** The message stands in the job's current conversation. */
  predicate Named(s: State, id: RequestId, m: MsgId) {
    && id in s.db.requests && s.db.requests[id].mechanic.Some?
    && exists x :: x in s.messages && x.id == m && x.request == id && s.db.requests[id].mechanic == Some(x.mechanic)
  }

  predicate IsOpen(db: Db, id: RequestId) {
    id in db.requests && db.requests[id].status == Matched && db.requests[id].mechanic.Some?
  }

  /** A page is for the parties alone, back from a message of their conversation; to others the job looks like none. */
  lemma ThreadAnswersExactly(s: State, user: UserId, id: RequestId, before: Option<MsgId>, limit: Pos)
    ensures var o := GetThread(s, user, id, before, limit);
            && (o.Done? <==> Party(s.db, user, id) && (before.Some? ==> Named(s, id, before.value)))
            && (o.Refused? ==> o.why == if Party(s.db, user, id) then BadRequest else NotFound)
            && (o.Done? ==> o.value.open == IsOpen(s.db, id))
            && (o.Done? ==> o.value.read.lastReadAt ==
                              if ReadKey(id, user) in s.markers then Some(s.markers[ReadKey(id, user)]) else None)
            && (o.Done? && s.db.requests[id].mechanic.None? ==> o.value.page == Page([], false))
  {
  }

  // ----- Sending ----------------------------------------------------------

  predicate Sendable(draft: Draft) {
    |draft.body| <= 2000 && (draft.body != "" || draft.image.Some?)
  }

  /** A message is taken from a party of a matched job, with text or an image, and answers only its own conversation. */
  lemma SendAnswersExactly(s: State, user: UserId, id: RequestId, draft: Draft, minted: MsgId, now: Time)
    ensures var o := Send(s, user, id, draft, minted, now);
            var taken := exists m :: m in s.messages && m.id == minted;
            && (o.Done? <==>
                  && Sendable(draft) && Party(s.db, user, id) && IsOpen(s.db, id)
                  && (draft.replyTo.Some? ==> Named(s, id, draft.replyTo.value)) && !taken)
            && (o.Refused? ==> o.why == if !Sendable(draft) then BadRequest
                                        else if !Party(s.db, user, id) then NotFound
                                        else if !IsOpen(s.db, id) then Conflict
                                        else if taken && (draft.replyTo.Some? ==> Named(s, id, draft.replyTo.value))
                                        then Unexpected else BadRequest)
  {
  }

  /** The marker of one reader; nobody else's moves. */
  ghost predicate MarkerMoved(markers: map<ReadKey, Time>, next: map<ReadKey, Time>, k: ReadKey, upTo: Time) {
    && k in next && next[k] == (if k in markers && upTo < markers[k] then markers[k] else upTo)
    && forall x :: x != k ==> (x in next <==> x in markers) && (x in markers ==> next[x] == markers[x])
  }

  /** What a send stores: one message, as it was drafted, and the sender's own marker. */
  lemma SendWrites(s: State, user: UserId, id: RequestId, draft: Draft, minted: MsgId, now: Time)
    requires Send(s, user, id, draft, minted, now).Done?
    ensures var n, r := Send(s, user, id, draft, minted, now).value, s.db.requests[id];
            && n.db == s.db && |n.messages| == |s.messages| + 1 && s.messages <= n.messages
            && var m := n.messages[|s.messages|];
            && m.id == minted && m.request == id && r.mechanic == Some(m.mechanic) && m.sender == user
            && (m.role.AsClient? <==> user == r.client)
            && (m.body.Some? <==> draft.body != "") && (m.body.Some? ==> m.body.value == draft.body)
            && m.image == draft.image && m.replyTo == draft.replyTo && m.sentAt == now
            && MarkerMoved(s.markers, n.markers, ReadKey(id, user), now)
  {
  }

  // ----- Reading ----------------------------------------------------------

  /** The newest message of a conversation. */
  predicate IsNewest(messages: seq<Message>, key: Key, m: Message) {
    m in messages && Belongs(m, key) && forall x :: x in messages && Belongs(x, key) ==> x == m || Older(x, m)
  }

  lemma NewestIs(messages: seq<Message>, key: Key)
    requires DistinctIds(messages)
    ensures Newest(messages, key).Some? <==> exists m :: m in messages && Belongs(m, key)
    ensures Newest(messages, key).Some? ==> IsNewest(messages, key, Newest(messages, key).value)
  {
    var t := Thread(messages, key);
    ThreadIsSorted(messages, key);
    forall x | x in messages && Belongs(x, key) ensures t != [] && (x == t[|t| - 1] || Older(x, t[|t| - 1])) {
      assert x in t;
      LastIsNewest(t, x);
    }
    if t != [] { assert t[|t| - 1] in t; }
  }

  /** The message a call marks the chat read up to. */
  predicate ReadsTo(s: State, id: RequestId, upTo: Option<MsgId>, m: Message) {
    && id in s.db.requests && s.db.requests[id].mechanic.Some?
    && var key := Key(id, s.db.requests[id].mechanic.value);
    if upTo.Some? then m in s.messages && m.id == upTo.value && Belongs(m, key) else IsNewest(s.messages, key, m)
  }

  /** Marking read: the parties move their own marker, and nothing else, to the named message or the newest. */
  lemma MarkReadExactly(s: State, user: UserId, id: RequestId, upTo: Option<MsgId>)
    requires DistinctIds(s.messages)
    ensures var o := MarkRead(s, user, id, upTo);
            && (o.Done? <==> Party(s.db, user, id) && (upTo.Some? ==> Named(s, id, upTo.value)))
            && (o.Refused? ==> o.why == if Party(s.db, user, id) then BadRequest else NotFound)
            && (o.Done? ==> o.value.db == s.db && o.value.messages == s.messages)
            && (o.Done? ==> forall m :: ReadsTo(s, id, upTo, m) ==>
                              MarkerMoved(s.markers, o.value.markers, ReadKey(id, user), m.sentAt))
            && (o.Done? && (forall m :: !ReadsTo(s, id, upTo, m)) ==> o.value == s)
  {
    if id in s.db.requests && s.db.requests[id].mechanic.Some? {
      var key := Key(id, s.db.requests[id].mechanic.value);
      NewestIs(s.messages, key);
      forall m | m in s.messages ensures ById(s.messages, m.id) == Some(m) { ByIdFinds(s.messages, m); }
      if upTo.None? && Newest(s.messages, key).Some? {
        assert ReadsTo(s, id, upTo, Newest(s.messages, key).value);
      } else if upTo.Some? && Named(s, id, upTo.value) {
        var m :| m in s.messages && m.id == upTo.value && m.request == id
                 && s.db.requests[id].mechanic == Some(m.mechanic);
        assert ReadsTo(s, id, upTo, m);
      }
    }
  }

  // ----- Unread counts ----------------------------------------------------

  /** A message of the conversation by the other party, later than the reader's marker. */
  predicate Waits(m: Message, key: Key, user: UserId, marker: Option<Time>) {
    && m.request == key.request && m.mechanic == key.mechanic && m.sender != user
    && (marker.Some? ==> marker.value < m.sentAt)
  }

  function Waiting(messages: seq<Message>, key: Key, user: UserId, marker: Option<Time>): set<Message> {
    set m | m in messages && Waits(m, key, user, marker)
  }

  lemma WaitingNext(init: seq<Message>, m: Message, key: Key, user: UserId, marker: Option<Time>)
    requires m !in init
    ensures m !in Waiting(init, key, user, marker)
    ensures Waiting(init + [m], key, user, marker)
         == Waiting(init, key, user, marker) + if Waits(m, key, user, marker) then {m} else {}
  {
  }

  /** The count readState gives is the number of those messages. */
  lemma {:induction false} UnreadIsCount(messages: seq<Message>, key: Key, user: UserId, marker: Option<Time>)
    requires DistinctIds(messages)
    ensures Unread(messages, key, user, marker) == |Waiting(messages, key, user, marker)|
  {
    if messages != [] {
      var init, m := messages[..|messages| - 1], messages[|messages| - 1];
      assert messages == init + [m];
      UnreadIsCount(init, key, user, marker);
      WaitingNext(init, m, key, user, marker);
    }
  }

  /** A caller's place: how many messages of the current conversation are unread, and up to when they read. */
  lemma ReadStateIs(s: State, user: UserId, id: RequestId)
    requires DistinctIds(s.messages) && Party(s.db, user, id)
    ensures ConversationFor(s.db, user, id).Done?
    ensures var told, r := ReadStateOf(s, ConversationFor(s.db, user, id).value, user), s.db.requests[id];
            && told.unread == (if r.mechanic.None? then 0
                               else |Waiting(s.messages, Key(id, r.mechanic.value), user, told.lastReadAt)|)
            && told.lastReadAt == if ReadKey(id, user) in s.markers then Some(s.markers[ReadKey(id, user)]) else None
  {
    var r, told := s.db.requests[id], ReadStateOf(s, ConversationFor(s.db, user, id).value, user);
    if r.mechanic.Some? { UnreadIsCount(s.messages, Key(id, r.mechanic.value), user, told.lastReadAt); }
  }
}
