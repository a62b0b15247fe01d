/** The conversation store: the `conversations` and `messages` tables and the
    three queries the chat route runs against them, over an in-memory copy of
    the tables.  Row ids come from a counter (the uuid generator) and
    `CURRENT_TIMESTAMP` from a clock that every writing statement advances. */
module Store {
  import opened Wrappers
  import opened JsText

  type Id = nat

  /** The `role` column; the schema admits only these two values. */
  datatype Role = User | Assistant

  datatype Conversation = Conversation(id: Id, sessionId: JsString, createdAt: nat, updatedAt: nat)

  datatype Message = Message(id: Id, conversationId: Id, role: Role, content: JsString, createdAt: nat)

  /** The error a message insert raises when its conversation does not exist
      (the `REFERENCES conversations(id)` constraint). */
  const FOREIGN_KEY_VIOLATION := "insert or update on table \"messages\" violates foreign key constraint"

  /** The last conversation of a session in table order. */
  function LastOfSession(convs: seq<Conversation>, sessionId: JsString): (r: Option<nat>)
    ensures r.Some? ==> r.value < |convs| && convs[r.value].sessionId == sessionId
  {
    if convs == [] then None
    else if convs[|convs| - 1].sessionId == sessionId then Some(|convs| - 1)
    else LastOfSession(convs[..|convs| - 1], sessionId)
  }

  /** No later row belongs to the session, and none at all when there is no
      match. */
  lemma {:induction false} LastOfSessionIsLast(convs: seq<Conversation>, sessionId: JsString)
    ensures var r := LastOfSession(convs, sessionId);
      && (r.Some? ==> forall j :: r.value < j < |convs| ==> convs[j].sessionId != sessionId)
      && (r.None? ==> forall j :: 0 <= j < |convs| ==> convs[j].sessionId != sessionId)
  {
    if convs != [] && convs[|convs| - 1].sessionId != sessionId {
      LastOfSessionIsLast(convs[..|convs| - 1], sessionId);
    }
  }

  /** Stamping `updated_at` changes no session id, so the lookup finds the
      same row. */
  lemma {:induction false} LastOfSessionTouched(convs: seq<Conversation>, sessionId: JsString, conversationId: Id, t: nat)
    ensures LastOfSession(Touch(convs, conversationId, t), sessionId) == LastOfSession(convs, sessionId)
  {
    if convs != [] {
      var r := Touch(convs, conversationId, t);
      TouchRows(convs, conversationId, t);
      assert r[..|r| - 1] == Touch(convs[..|convs| - 1], conversationId, t);
      LastOfSessionTouched(convs[..|convs| - 1], sessionId, conversationId, t);
    }
  }

  /** Rows whose creation times strictly increase in table order and whose
      ids are distinct (the primary key). */
  ghost predicate ConversationsByCreation(convs: seq<Conversation>) {
    forall i, j {:trigger ConversationsOrdered(convs, i, j)} :: ConversationsOrdered(convs, i, j)
  }

  /** Rows `i` and `j`, when `i` comes first, were created in that order and
      have distinct ids.  The quantifier over pairs of rows is triggered by
      this predicate alone, so it is not instantiated for every pair of rows
      a proof happens to mention. */
  ghost predicate ConversationsOrdered(convs: seq<Conversation>, i: int, j: int) {
    0 <= i < j < |convs| ==> convs[i].createdAt < convs[j].createdAt && convs[i].id != convs[j].id
  }

  /** Messages whose creation times strictly increase in table order. */
  ghost predicate MessagesByCreation(msgs: seq<Message>) {
    forall i, j {:trigger MessagesOrdered(msgs, i, j)} :: MessagesOrdered(msgs, i, j)
  }

  /** Messages `i` and `j`, when `i` comes first, were created in that order. */
  ghost predicate MessagesOrdered(msgs: seq<Message>, i: int, j: int) {
    0 <= i < j < |msgs| ==> msgs[i].createdAt < msgs[j].createdAt
  }

  /** The messages of one conversation, in table order. */
  function MessagesOf(msgs: seq<Message>, conversationId: Id): (r: seq<Message>)
    ensures |r| <= |msgs|
  {
    if msgs == [] then []
    else
      MessagesOf(msgs[..|msgs| - 1], conversationId)
        + (if msgs[|msgs| - 1].conversationId == conversationId then [msgs[|msgs| - 1]] else [])
  }

  /** The filter keeps exactly the conversation's messages. */
  lemma {:induction false} MessagesOfMembers(msgs: seq<Message>, conversationId: Id)
    ensures forall m :: m in MessagesOf(msgs, conversationId) <==> m in msgs && m.conversationId == conversationId
  {
    if msgs != [] {
      var init, last := msgs[..|msgs| - 1], msgs[|msgs| - 1];
      MessagesOfMembers(init, conversationId);
      assert msgs == init + [last];
    }
  }

  /** A conversation none of whose messages is in the table has an empty
      history. */
  lemma {:induction false} MessagesOfNone(msgs: seq<Message>, conversationId: Id)
    requires forall i :: 0 <= i < |msgs| ==> msgs[i].conversationId != conversationId
    ensures MessagesOf(msgs, conversationId) == []
  {
    if msgs != [] {
      MessagesOfNone(msgs[..|msgs| - 1], conversationId);
    }
  }

  /** The filter keeps creation order, and its last message is no newer than
      the table's. */
  lemma {:induction false} MessagesOfOrdered(msgs: seq<Message>, conversationId: Id)
    requires MessagesByCreation(msgs)
    ensures MessagesByCreation(MessagesOf(msgs, conversationId))
    ensures var r := MessagesOf(msgs, conversationId);
      |r| > 0 ==> r[|r| - 1].createdAt <= msgs[|msgs| - 1].createdAt
  {
    if msgs != [] {
      var init, last := msgs[..|msgs| - 1], msgs[|msgs| - 1];
      forall i, j ensures MessagesOrdered(init, i, j) {
        assert MessagesOrdered(msgs, i, j);
      }
      MessagesOfOrdered(init, conversationId);
      var r0 := MessagesOf(init, conversationId);
      if |r0| > 0 {
        assert MessagesOrdered(msgs, |init| - 1, |init|);
        assert r0[|r0| - 1].createdAt <= init[|init| - 1].createdAt < last.createdAt;
      }
      if last.conversationId == conversationId {
        ByCreationSnoc(r0, last);
      } else {
        assert r0 + [] == r0;
      }
    }
  }

  /** A message newer than the last one keeps the order when appended. */
  lemma {:induction false} ByCreationSnoc(msgs: seq<Message>, m: Message)
    requires MessagesByCreation(msgs)
    requires msgs != [] ==> msgs[|msgs| - 1].createdAt < m.createdAt
    ensures MessagesByCreation(msgs + [m])
  {
    var r := msgs + [m];
    forall i, j | 0 <= i < j < |r| ensures MessagesOrdered(r, i, j) {
      if j == |msgs| {
        assert r[i] == msgs[i] && r[j] == m;
        assert i == |msgs| - 1 || MessagesOrdered(msgs, i, |msgs| - 1);
      } else {
        assert r[i] == msgs[i] && r[j] == msgs[j];
        assert MessagesOrdered(msgs, i, j);
      }
    }
  }

  /** Appending a message of another conversation leaves a history as it is;
      appending one of this conversation extends it by that message. */
  lemma {:induction false} MessagesOfAppend(msgs: seq<Message>, m: Message, conversationId: Id)
    ensures MessagesOf(msgs + [m], conversationId)
         == MessagesOf(msgs, conversationId) + (if m.conversationId == conversationId then [m] else [])
  {
    assert (msgs + [m])[..|msgs|] == msgs;
  }

  /** The `UPDATE conversations SET updated_at = t WHERE id = conversationId`
      statement. */
  function Touch(convs: seq<Conversation>, conversationId: Id, t: nat): (r: seq<Conversation>)
    ensures |r| == |convs|
  {
    seq(|convs|, i requires 0 <= i < |convs| => if convs[i].id == conversationId then convs[i].(updatedAt := t) else convs[i])
  }

  /** Stamping the same conversation twice leaves the later stamp. */
  lemma {:induction false} TouchTwice(convs: seq<Conversation>, conversationId: Id, t1: nat, t2: nat)
    ensures Touch(Touch(convs, conversationId, t1), conversationId, t2) == Touch(convs, conversationId, t2)
  {
    var once := Touch(convs, conversationId, t1);
    assert forall i :: 0 <= i < |convs| ==> Touch(once, conversationId, t2)[i] == Touch(convs, conversationId, t2)[i];
  }

  /** How many conversation rows resolving a session inserts: none when the
      session has one, otherwise one. */
  function Created(convs: seq<Conversation>, sessionId: JsString): nat {
    if LastOfSession(convs, sessionId).Some? then 0 else 1
  }

  /** The conversations table after resolving a session, with the id and the
      timestamp a new row would get. */
  function Opened(convs: seq<Conversation>, sessionId: JsString, nextId: Id, clock: nat): seq<Conversation> {
    if LastOfSession(convs, sessionId).Some? then convs else convs + [Conversation(nextId, sessionId, clock, clock)]
  }

  /** The update stamps exactly the rows with that id and keeps every other
      column. */
  lemma {:induction false} TouchRows(convs: seq<Conversation>, conversationId: Id, t: nat)
    ensures forall i :: 0 <= i < |convs| ==>
      Touch(convs, conversationId, t)[i] == if convs[i].id == conversationId then convs[i].(updatedAt := t) else convs[i]
  {
  }

  /** The invariant of the two tables: rows in creation order with unique
      primary keys, timestamps in the past and ids issued. */
  ghost predicate TablesValid(convs: seq<Conversation>, msgs: seq<Message>, nextId: Id, clock: nat) {
    && ConversationsByCreation(convs)
    && MessagesByCreation(msgs)
    && (forall i :: 0 <= i < |convs| ==>
          convs[i].id < nextId && convs[i].createdAt <= convs[i].updatedAt < clock)
    && (forall i :: 0 <= i < |msgs| ==>
          msgs[i].id < nextId && msgs[i].conversationId < nextId && msgs[i].createdAt < clock)
  }

  /** Inserting a conversation row with a fresh id, stamped now. */
  lemma {:induction false} InsertConversationValid(convs: seq<Conversation>, msgs: seq<Message>, nextId: Id, clock: nat, sessionId: JsString)
    requires TablesValid(convs, msgs, nextId, clock)
    ensures TablesValid(convs + [Conversation(nextId, sessionId, clock, clock)], msgs, nextId + 1, clock + 1)
    ensures MessagesOf(msgs, nextId) == []
  {
    var convs' := convs + [Conversation(nextId, sessionId, clock, clock)];
    assert forall i :: 0 <= i < |convs| ==> convs'[i] == convs[i];
    forall i, j | 0 <= i < j < |convs'| ensures ConversationsOrdered(convs', i, j) {
      if j < |convs| {
        assert ConversationsOrdered(convs, i, j);
      }
    }
    MessagesOfNone(msgs, nextId);
  }

  /** Inserting a message with a fresh id, stamped now, then touching its
      conversation a tick later. */
  lemma {:induction false} InsertMessageValid(convs: seq<Conversation>, msgs: seq<Message>, nextId: Id, clock: nat, m: Message)
    requires TablesValid(convs, msgs, nextId, clock)
    requires m.id == nextId && m.createdAt == clock && m.conversationId < nextId
    ensures TablesValid(Touch(convs, m.conversationId, clock + 1), msgs + [m], nextId + 1, clock + 2)
  {
    var msgs' := msgs + [m];
    assert forall i :: 0 <= i < |msgs| ==> msgs'[i] == msgs[i];
    forall i, j | 0 <= i < j < |msgs'| ensures MessagesOrdered(msgs', i, j) {
      if j < |msgs| {
        assert MessagesOrdered(msgs, i, j);
      }
    }
    var convs' := Touch(convs, m.conversationId, clock + 1);
    TouchRows(convs, m.conversationId, clock + 1);
    forall i, j ensures ConversationsOrdered(convs', i, j) {
      assert ConversationsOrdered(convs, i, j);
    }
  }

  class ConversationStore {
    var conversations: seq<Conversation>
    var messages: seq<Message>
    /** The next id the uuid generator hands out. */
    var nextId: Id
    /** The current `CURRENT_TIMESTAMP`. */
    var clock: nat

    ghost predicate Valid()
      reads this
    {
      TablesValid(conversations, messages, nextId, clock)
    }

    constructor ()
      ensures Valid() && conversations == [] && messages == []
    {
      conversations, messages := [], [];
      nextId, clock := 0, 0;
    }

    /** Whether a conversation row has this id. */
    predicate HasConversation(conversationId: Id)
      reads this
    {
      exists i :: 0 <= i < |conversations| && conversations[i].id == conversationId
    }

    /** `SELECT id FROM conversations WHERE session_id = $1 ORDER BY created_at
        DESC LIMIT 1`: the session's most recently created conversation. */
    function Latest(sessionId: JsString): (r: Option<Conversation>)
      requires Valid()
      reads this
      ensures r.Some? ==> r.value in conversations && r.value.sessionId == sessionId
    {
      match LastOfSession(conversations, sessionId)
      case Some(i) => Some(conversations[i])
      case None => None
    }

    /** The id `getOrCreateConversation` yields for a session: its latest
        conversation's, or the next fresh one. */
    function ResolvedId(sessionId: JsString): (id: Id)
      requires Valid()
      reads this
      ensures Latest(sessionId).None? <==> id == nextId
    {
      match Latest(sessionId)
      case Some(c) => c.id
      case None => nextId
    }

    /** `SELECT * FROM messages WHERE conversation_id = $1 ORDER BY created_at
        ASC`: exactly the conversation's messages, oldest first. */
    function History(conversationId: Id): (r: seq<Message>)
      requires Valid()
      reads this
      ensures |r| <= |messages|
    {
      MessagesOf(messages, conversationId)
    }

    /** `getOrCreateConversation`: the session's latest conversation if it has
        one, with nothing inserted; otherwise one new conversation row with a
        fresh id, which has no messages yet. */
    method GetOrCreateConversation(sessionId: JsString) returns (id: Id)
      requires Valid()
      modifies this
      ensures Valid() && messages == old(messages)
      ensures id == old(ResolvedId(sessionId)) && HasConversation(id)
      ensures old(Latest(sessionId)).Some? ==>
        id == old(Latest(sessionId)).value.id && conversations == old(conversations)
        && nextId == old(nextId) && clock == old(clock)
      ensures old(Latest(sessionId)).None? ==>
        && id == old(nextId)
        && conversations == old(conversations) + [Conversation(id, sessionId, old(clock), old(clock))]
        && nextId == old(nextId) + 1 && clock == old(clock) + 1
        && History(id) == []
      ensures Latest(sessionId).Some? && Latest(sessionId).value.id == id
      ensures conversations == Opened(old(conversations), sessionId, old(nextId), old(clock))
      ensures nextId == old(nextId) + Created(old(conversations), sessionId)
      ensures clock == old(clock) + Created(old(conversations), sessionId)
    {
      var existing := LastOfSession(conversations, sessionId);
      if existing.Some? {
        id := conversations[existing.value].id;
        assert conversations[existing.value] == Latest(sessionId).value;
        return;
      }
      id := nextId;
      var row := Conversation(id, sessionId, clock, clock);
      InsertConversationValid(conversations, messages, nextId, clock, sessionId);
      conversations := conversations + [row];
      nextId, clock := nextId + 1, clock + 1;
      assert LastOfSession(conversations, sessionId) == Some(|conversations| - 1);
    }

    /** `saveMessage`: inserts one message with a fresh id, then stamps the
        conversation's `updated_at`; every other row stays as it was.  Without
        such a conversation the insert is refused and nothing changes. */
    method SaveMessage(conversationId: Id, role: Role, content: JsString) returns (r: Result<Message, string>)
      requires Valid()
      modifies this
      ensures Valid()
      ensures r.Ok? <==> old(HasConversation(conversationId))
      ensures HasConversation(conversationId) == old(HasConversation(conversationId))
      ensures r.Ok? ==>
        && r.value == Message(old(nextId), conversationId, role, content, old(clock))
        && messages == old(messages) + [r.value]
        && conversations == Touch(old(conversations), conversationId, old(clock) + 1)
        && nextId == old(nextId) + 1 && clock == old(clock) + 2
      ensures r.Err? ==>
        && r.error == FOREIGN_KEY_VIOLATION
        && messages == old(messages) && conversations == old(conversations)
        && nextId == old(nextId) && clock == old(clock)
    {
      if !HasConversation(conversationId) {
        return Err(FOREIGN_KEY_VIOLATION);
      }
      var m := Message(nextId, conversationId, role, content, clock);
      ghost var i :| 0 <= i < |conversations| && conversations[i].id == conversationId;
      InsertMessageValid(conversations, messages, nextId, clock, m);
      // The insert takes the current timestamp, the update the next one.
      conversations, messages := Touch(conversations, conversationId, clock + 1), messages + [m];
      nextId, clock := nextId + 1, clock + 2;
      assert conversations[i].id == conversationId;
      r := Ok(m);
    }

    /** `getConversationHistory`. */
    method GetConversationHistory(conversationId: Id) returns (h: seq<Message>)
      requires Valid()
      ensures h == History(conversationId)
    {
      h := MessagesOf(messages, conversationId);
    }
  }

  /** The latest conversation is the session's most recently created one,
      and there is none exactly when the session has no conversation. */
  lemma {:induction false} LatestIsNewest(store: ConversationStore, sessionId: JsString)
    requires store.Valid()
    ensures var r := store.Latest(sessionId);
      && (r.Some? ==> forall c :: c in store.conversations && c.sessionId == sessionId ==> c.createdAt <= r.value.createdAt)
      && (r.None? <==> forall c :: c in store.conversations ==> c.sessionId != sessionId)
  {
    var convs := store.conversations;
    LastOfSessionIsLast(convs, sessionId);
    match LastOfSession(convs, sessionId)
    case Some(i) =>
      forall c | c in convs && c.sessionId == sessionId
        ensures c.createdAt <= convs[i].createdAt
      {
        var j :| 0 <= j < |convs| && convs[j] == c;
        assert j <= i;
        assert ConversationsOrdered(convs, j, i);
      }
    case None =>
  }

  /** A history holds exactly the conversation's messages, oldest first. */
  lemma {:induction false} HistoryIsConversation(store: ConversationStore, conversationId: Id)
    requires store.Valid()
    ensures var r := store.History(conversationId);
      && (forall m :: m in r <==> m in store.messages && m.conversationId == conversationId)
      && (forall i, j :: 0 <= i < j < |r| ==> r[i].createdAt < r[j].createdAt)
  {
    MessagesOfMembers(store.messages, conversationId);
    MessagesOfOrdered(store.messages, conversationId);
    var r := store.History(conversationId);
    forall i, j | 0 <= i < j < |r| ensures r[i].createdAt < r[j].createdAt {
      assert MessagesOrdered(r, i, j);
    }
  }

  /** Two calls in a row for one session resolve to the same conversation, and
      the second inserts nothing. */
  method ResolveTwice(store: ConversationStore, sessionId: JsString) returns (first: Id, second: Id)
    requires store.Valid()
    modifies store
    ensures store.Valid() && second == first
    ensures |store.conversations| <= |old(store.conversations)| + 1
  {
    first := store.GetOrCreateConversation(sessionId);
    ghost var rows := store.conversations;
    second := store.GetOrCreateConversation(sessionId);
    assert store.conversations == rows;
  }
}
