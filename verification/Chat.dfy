/** Job chat: src/services/chat.service.ts over the jobs tables. */
module Chat {
  import opened Common
  import opened Jobs

  type MsgId = nat

  const MAX_BODY: nat := 2000
  const UNREAD_LIMIT: nat := 100

  datatype Role = AsClient | AsMechanic

  /** What a conversation is keyed by: the job and its current mechanic. */
  datatype Key = Key(request: RequestId, mechanic: UserId)

  datatype Message = Message(
    id: MsgId,
    request: RequestId,
    mechanic: UserId,
    sender: UserId,
    role: Role,
    body: Option<string>,
    image: Option<nat>,
    replyTo: Option<MsgId>,
    sentAt: Time)

  /** chat_reads is keyed by job and participant, not by conversation. */
  datatype ReadKey = ReadKey(request: RequestId, user: UserId)

  datatype State = State(db: Db, messages: seq<Message>, markers: map<ReadKey, Time>)

  predicate Belongs(m: Message, key: Key) {
    m.request == key.request && m.mechanic == key.mechanic
  }

  // ----- Whose conversation -----------------------------------------------

  datatype Convo = Convo(request: RequestId, client: UserId, mechanic: Option<UserId>, role: Role, open: bool)

  function ConversationFor(db: Db, user: UserId, id: RequestId): Outcome<Convo> {
    if id !in db.requests then Refused(NotFound)
    else
      var r := db.requests[id];
      var open := r.status == Matched && r.mechanic.Some?;
      if user == r.client then Done(Convo(id, r.client, r.mechanic, AsClient, open))
      else if r.mechanic == Some(user) then Done(Convo(id, r.client, r.mechanic, AsMechanic, open))
      else Refused(NotFound)
  }

  predicate InConversation(messages: seq<Message>, key: Key, id: MsgId) {
    exists m :: m in messages && m.id == id && Belongs(m, key)
  }

  // ----- Unread counts ----------------------------------------------------

  function Marker(s: State, id: RequestId, user: UserId): Option<Time> {
    if ReadKey(id, user) in s.markers then Some(s.markers[ReadKey(id, user)]) else None
  }

  predicate IsUnread(m: Message, key: Key, user: UserId, marker: Option<Time>) {
    Belongs(m, key) && m.sender != user && (marker.None? || m.sentAt > marker.value)
  }

  function Unread(messages: seq<Message>, key: Key, user: UserId, marker: Option<Time>): nat {
    if messages == [] then 0
    else
      var m := messages[|messages| - 1];
      Unread(messages[..|messages| - 1], key, user, marker) + if IsUnread(m, key, user, marker) then 1 else 0
  }

  datatype ReadState = ReadState(unread: nat, lastReadAt: Option<Time>)

  function ReadStateOf(s: State, convo: Convo, user: UserId): ReadState {
    var marker := Marker(s, convo.request, user);
    ReadState(if convo.mechanic.Some?
              then Unread(s.messages, Key(convo.request, convo.mechanic.value), user, marker) else 0,
              marker)
  }

  /** The read marker moves up to a message's time, never back. */
  function ReadUpTo(markers: map<ReadKey, Time>, id: RequestId, user: UserId, sentAt: Time): map<ReadKey, Time> {
    var k := ReadKey(id, user);
    markers[k := if k in markers && markers[k] > sentAt then markers[k] else sentAt]
  }

  // ----- Order and paging -------------------------------------------------

  /** `(a.sent_at, a.id) < (b.sent_at, b.id)`. */
  predicate Older(a: Message, b: Message) {
    a.sentAt < b.sentAt || (a.sentAt == b.sentAt && a.id < b.id)
  }

  function Insert(m: Message, s: seq<Message>): seq<Message> {
    if s == [] || !Older(m, s[|s| - 1]) then s + [m]
    else Insert(m, s[..|s| - 1]) + [s[|s| - 1]]
  }

  function Sorted(s: seq<Message>): seq<Message> {
    if s == [] then [] else Insert(s[|s| - 1], Sorted(s[..|s| - 1]))
  }

  predicate Selected(m: Message, key: Key, before: Option<Message>) {
    Belongs(m, key) && (before.Some? ==> Older(m, before.value))
  }

  function Matching(messages: seq<Message>, key: Key, before: Option<Message>): seq<Message> {
    if messages == [] then []
    else
      var m := messages[|messages| - 1];
      Matching(messages[..|messages| - 1], key, before) + if Selected(m, key, before) then [m] else []
  }

  function Reversed(s: seq<Message>): seq<Message> {
    if s == [] then [] else [s[|s| - 1]] + Reversed(s[..|s| - 1])
  }

  function First(s: seq<Message>, n: nat): seq<Message> {
    if n <= |s| then s[..n] else s
  }

  datatype Page = Page(messages: seq<Message>, hasMore: bool)

  /** ORDER BY sent_at DESC, id DESC LIMIT limit + 1, then the slice and the reverse. */
  function PageOf(messages: seq<Message>, key: Key, before: Option<Message>, limit: Pos): Page {
    var rows := First(Reversed(Sorted(Matching(messages, key, before))), limit + 1);
    Page(Reversed(First(rows, limit)), |rows| > limit)
  }

  function ById(messages: seq<Message>, id: MsgId): Option<Message> {
    if messages == [] then None
    else if messages[0].id == id then Some(messages[0])
    else ById(messages[1..], id)
  }

  datatype View = View(open: bool, read: ReadState, page: Page)

  function GetThread(s: State, user: UserId, id: RequestId, before: Option<MsgId>, limit: Pos): Outcome<View> {
    var convo := ConversationFor(s.db, user, id);
    if convo.Refused? then Refused(convo.why)
    else
      var c := convo.value;
      if before.Some? && (c.mechanic.None? || !InConversation(s.messages, Key(id, c.mechanic.value), before.value)) then
        Refused(BadRequest)
      else
        var cursor := if before.Some? then ById(s.messages, before.value) else None;
        var page :=
          if c.mechanic.Some? then PageOf(s.messages, Key(id, c.mechanic.value), cursor, limit) else Page([], false);
        Done(View(c.open, ReadStateOf(s, c, user), page))
  }

  // ----- Sending and reading ----------------------------------------------

  /** `body` arrives trimmed; an absent one is empty. */
  datatype Draft = Draft(body: string, image: Option<nat>, replyTo: Option<MsgId>)

  function SendRefusal(s: State, user: UserId, id: RequestId, draft: Draft): Option<Refusal> {
    if |draft.body| > MAX_BODY then Some(BadRequest)
    else if draft.body == "" && draft.image.None? then Some(BadRequest)
    else
      var convo := ConversationFor(s.db, user, id);
      if convo.Refused? then Some(convo.why)
      else if convo.value.mechanic.None? then Some(Conflict)
      else if !convo.value.open then Some(Conflict)
      else if draft.replyTo.Some?
              && !InConversation(s.messages, Key(id, convo.value.mechanic.value), draft.replyTo.value)
      then Some(BadRequest)
      else None
  }

  function NewMessage(c: Convo, user: UserId, draft: Draft, minted: MsgId, now: Time): Message
    requires c.mechanic.Some?
  {
    Message(minted, c.request, c.mechanic.value, user, c.role,
            if draft.body != "" then Some(draft.body) else None, draft.image, draft.replyTo, now)
  }

  function Send(s: State, user: UserId, id: RequestId, draft: Draft, minted: MsgId, now: Time): Outcome<State> {
    var refusal := SendRefusal(s, user, id, draft);
    if refusal.Some? then Refused(refusal.value)
    else if exists m :: m in s.messages && m.id == minted then Refused(Unexpected)
    else
      var m := NewMessage(ConversationFor(s.db, user, id).value, user, draft, minted, now);
      Done(s.(messages := s.messages + [m], markers := ReadUpTo(s.markers, id, user, now)))
  }

  function Newest(messages: seq<Message>, key: Key): Option<Message> {
    var thread := Sorted(Matching(messages, key, None));
    if thread == [] then None else Some(thread[|thread| - 1])
  }

  function MarkRead(s: State, user: UserId, id: RequestId, upTo: Option<MsgId>): Outcome<State> {
    var convo := ConversationFor(s.db, user, id);
    if convo.Refused? then Refused(convo.why)
    else
      var c := convo.value;
      if upTo.Some? && (c.mechanic.None? || !InConversation(s.messages, Key(id, c.mechanic.value), upTo.value)) then
        Refused(BadRequest)
      else
        var target :=
          if upTo.Some? then ById(s.messages, upTo.value)
          else if c.mechanic.Some? then Newest(s.messages, Key(id, c.mechanic.value))
          else None;
        Done(if target.Some? then s.(markers := ReadUpTo(s.markers, id, user, target.value.sentAt)) else s)
  }

  // ----- The unread list --------------------------------------------------

  /** The rows of listChatUnread's join that survive its WHERE. */
  predicate Joins(s: State, user: UserId, m: Message) {
    && m.request in s.db.requests
    && var r := s.db.requests[m.request];
    var marker := Marker(s, m.request, user);
    && r.mechanic == Some(m.mechanic) && m.sender != user
    && (r.client == user || r.mechanic == Some(user))
    && (marker.None? || m.sentAt > marker.value)
  }

  datatype UnreadRow = UnreadRow(request: RequestId, count: nat, lastAt: Time)

  /** GROUP BY sr.id over the joined rows, with count(*) and max(sent_at). */
  function Groups(s: State, user: UserId, messages: seq<Message>): map<RequestId, UnreadRow> {
    if messages == [] then map[]
    else
      var m := messages[|messages| - 1];
      var g := Groups(s, user, messages[..|messages| - 1]);
      if !Joins(s, user, m) then g
      else if m.request !in g then g[m.request := UnreadRow(m.request, 1, m.sentAt)]
      else
        var row := g[m.request];
        g[m.request := UnreadRow(m.request, row.count + 1, if m.sentAt > row.lastAt then m.sentAt else row.lastAt)]
  }

  /** The newest of these groups, at most n of them, newest first. */
  predicate NewestOf(list: seq<UnreadRow>, groups: map<RequestId, UnreadRow>, n: nat) {
    && |list| <= n
    && (forall i :: 0 <= i < |list| ==> list[i].request in groups && groups[list[i].request] == list[i])
    && (forall i, j :: 0 <= i < j < |list| ==> list[i].request != list[j].request && list[i].lastAt >= list[j].lastAt)
    && (|list| < n ==> forall id :: id in groups ==> groups[id] in list)
    && (forall id, i :: id in groups && groups[id] !in list && 0 <= i < |list| ==> list[i].lastAt >= groups[id].lastAt)
  }

  /** ORDER BY max(sent_at) DESC LIMIT 100; the order of ties is PostgreSQL's choice. */
  predicate Lists(list: seq<UnreadRow>, groups: map<RequestId, UnreadRow>) {
    NewestOf(list, groups, UNREAD_LIMIT)
  }

  // ----- The tables as they are updated -----------------------------------

  class ChatStore {
    var db: Db
    var messages: seq<Message>
    var markers: map<ReadKey, Time>

    constructor (db: Db)
      ensures Snapshot() == State(db, [], map[])
    {
      this.db := db;
      messages, markers := [], map[];
    }

    function Snapshot(): State
      reads this
    {
      State(db, messages, markers)
    }

    /** INSERT ... ON CONFLICT DO UPDATE SET last_read_at = GREATEST(...). */
    method MoveMarker(id: RequestId, user: UserId, sentAt: Time)
      modifies this`markers
      ensures markers == ReadUpTo(old(markers), id, user, sentAt)
    {
      var k := ReadKey(id, user);
      if k in markers {
        if sentAt > markers[k] {
          markers := markers[k := sentAt];
        }
      } else {
        markers := markers[k := sentAt];
      }
    }

    /** On a refusal the transaction rolls back. */
    method SendChatMessage(user: UserId, id: RequestId, draft: Draft, minted: MsgId, now: Time)
      returns (outcome: Outcome<Message>)
      modifies this`messages, this`markers
      ensures match Send(old(Snapshot()), user, id, draft, minted, now)
              case Done(after) => Snapshot() == after && outcome == Done(after.messages[|old(messages)|])
              case Refused(why) => Snapshot() == old(Snapshot()) && outcome == Refused(why)
    {
      if |draft.body| > MAX_BODY { return Refused(BadRequest); }
      if draft.body == "" && draft.image.None? { return Refused(BadRequest); }
      var convo := ConversationFor(db, user, id);
      if convo.Refused? { return Refused(convo.why); }
      var c := convo.value;
      if c.mechanic.None? { return Refused(Conflict); }
      if !c.open { return Refused(Conflict); }
      if draft.replyTo.Some? && !InConversation(messages, Key(id, c.mechanic.value), draft.replyTo.value) {
        return Refused(BadRequest);
      }
      if exists m :: m in messages && m.id == minted { return Refused(Unexpected); }
      var m := Message(minted, id, c.mechanic.value, user, c.role,
                       if draft.body != "" then Some(draft.body) else None, draft.image, draft.replyTo, now);
      messages := messages + [m];
      MoveMarker(id, user, m.sentAt);
      return Done(m);
    }

    method MarkChatRead(user: UserId, id: RequestId, upTo: Option<MsgId>) returns (outcome: Outcome<ReadState>)
      modifies this`markers
      ensures match MarkRead(old(Snapshot()), user, id, upTo)
              case Done(after) =>
                Snapshot() == after && outcome == Done(ReadStateOf(after, ConversationFor(db, user, id).value, user))
              case Refused(why) => Snapshot() == old(Snapshot()) && outcome == Refused(why)
    {
      var convo := ConversationFor(db, user, id);
      if convo.Refused? { return Refused(convo.why); }
      var c := convo.value;
      if upTo.Some? {
        if c.mechanic.None? || !InConversation(messages, Key(id, c.mechanic.value), upTo.value) {
          return Refused(BadRequest);
        }
        var target := ById(messages, upTo.value);
        if target.Some? {
          MoveMarker(id, user, target.value.sentAt);
        }
      } else if c.mechanic.Some? {
        var newest := Newest(messages, Key(id, c.mechanic.value));
        if newest.Some? {
          MoveMarker(id, user, newest.value.sentAt);
        }
      }
      return Done(ReadStateOf(Snapshot(), c, user));
    }
  }
}
