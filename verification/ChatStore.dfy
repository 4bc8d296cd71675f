/** The `sessions` and `messages` tables and the operations of one chat turn on them
    (app/services/sessions.py, app/models/message.py). */
module ChatStore {
  import opened Locations
  import opened Prelude
  import opened Packets

  datatype Role = UserRole | AssistantRole

  datatype Message = Message(sessionId: Id, userId: Id, role: Role, content: string,
                             events: Option<seq<Event>>, parent: Option<Id>, createdAt: int, deleted: bool,
                             lat: Option<real>, lng: Option<real>)

  datatype Session = Session(userId: Id, title: Option<string>, lastMessageAt: int, deleted: bool)

  datatype Store = Store(sessions: map<Id, Session>, messages: map<Id, Message>)

  datatype RecordError = InvalidLocation

  const TITLE_AUTOFILL_CHARS: nat := 60

  /** A live row answers `parent`. */
  predicate IsReply(messages: map<Id, Message>, id: Id, parent: Id) {
    id in messages && !messages[id].deleted && messages[id].parent == Some(parent)
  }

  ghost predicate HasReply(messages: map<Id, Message>, parent: Id) {
    exists id :: IsReply(messages, id, parent)
  }

  /** `ux_messages_parent`: at most one live row per parent. */
  ghost predicate UniqueReplies(messages: map<Id, Message>) {
    forall a, b, p :: IsReply(messages, a, p) && IsReply(messages, b, p) ==> a == b
  }

  function SessionVisible(s: Store, userId: Id, sessionId: Id): bool {
    sessionId in s.sessions && s.sessions[sessionId].userId == userId && !s.sessions[sessionId].deleted
  }

  /** A new session counts as used when it is created. */
  function WithSession(s: Store, userId: Id, id: Id, title: Option<string>, now: int): Store {
    Store(s.sessions[id := Session(userId, title, now, false)], s.messages)
  }

  /** The insert that a conflict on the primary key turns into a no-op. */
  function WithUserMessage(s: Store, userId: Id, sessionId: Id, id: Id, content: string,
                           lat: Option<real>, lng: Option<real>, now: int): Store
    requires sessionId in s.sessions
  {
    if id in s.messages then s
    else
      var session := s.sessions[sessionId];
      var title := if session.title.None? then Some(content[..Min(|content|, TITLE_AUTOFILL_CHARS)]) else session.title;
      Store(s.sessions[sessionId := session.(lastMessageAt := now, title := title)],
            s.messages[id := Message(sessionId, userId, UserRole, content, None, None, now, false, lat, lng)])
  }

  /** The primary key or the partial unique index refuses the reply. */
  ghost predicate Refuses(s: Store, id: Id, parent: Id) { id in s.messages || HasReply(s.messages, parent) }

  function WithAssistantMessage(s: Store, userId: Id, sessionId: Id, parent: Id, content: string,
                                events: Option<seq<Event>>, id: Id, now: int): Store
    requires sessionId in s.sessions
  {
    Store(s.sessions[sessionId := s.sessions[sessionId].(lastMessageAt := now)],
          s.messages[id := Message(sessionId, userId, AssistantRole, content, events, Some(parent), now, false, None, None)])
  }

  function Buried(m: Message, sessionId: Id): Message {
    if m.sessionId == sessionId then m.(deleted := true) else m
  }

  /** Soft-deletes a session and its messages; nothing when it is already deleted. */
  function WithoutSession(s: Store, userId: Id, sessionId: Id): Store {
    if SessionVisible(s, userId, sessionId)
    then Store(s.sessions[sessionId := s.sessions[sessionId].(deleted := true)],
               map id | id in s.messages :: Buried(s.messages[id], sessionId))
    else s
  }

  class ChatDb {
    var sessions: map<Id, Session>
    var messages: map<Id, Message>

    constructor (s: Store)
      ensures View() == s
    {
      sessions, messages := s.sessions, s.messages;
    }

    function View(): Store
      reads this
    {
      Store(sessions, messages)
    }

    method CreateSession(userId: Id, id: Id, title: Option<string>, now: int)
      requires id !in sessions
      modifies this
      ensures View() == WithSession(old(View()), userId, id, title, now)
      ensures SessionVisible(View(), userId, id)
    {
      var row := Session(userId, title, now, false);
      sessions := sessions[id := row];
    }

    method GetSession(userId: Id, sessionId: Id) returns (found: bool)
      ensures found == SessionVisible(View(), userId, sessionId)
    {
      if sessionId !in sessions { return false; }
      var row := sessions[sessionId];
      return row.userId == userId && !row.deleted;
    }

    /** Returns the stored row: on a retry, the one that is already there. A bad pair of
        coordinates is refused before anything is looked at, a retry included. */
    method RecordUserMessage(userId: Id, sessionId: Id, clientMessageId: Id, content: string,
                             lat: Option<real>, lng: Option<real>, now: int)
      returns (r: Result<Message, RecordError>)
      requires sessionId in sessions
      modifies this
      ensures r.Err? <==> !ValidLocation(lat, lng)
      ensures View() == if r.Err? then old(View())
                        else WithUserMessage(old(View()), userId, sessionId, clientMessageId, content, lat, lng, now)
      ensures r.Ok? ==> clientMessageId in messages && r.value == messages[clientMessageId]
    {
      if !ValidLocation(lat, lng) { return Err(InvalidLocation); }
      if clientMessageId in messages { return Ok(messages[clientMessageId]); }
      var row := Message(sessionId, userId, UserRole, content, None, None, now, false, lat, lng);
      r := Ok(row);
      messages := messages[clientMessageId := row];
      var session := sessions[sessionId].(lastMessageAt := now);
      if session.title.None? {
        session := session.(title := Some(content[..Min(|content|, TITLE_AUTOFILL_CHARS)]));
      }
      sessions := sessions[sessionId := session];
    }

    /** False stands for `IntegrityError`: nothing is written. */
    method RecordAssistantMessage(userId: Id, sessionId: Id, parent: Id, content: string,
                                  events: Option<seq<Event>>, id: Id, now: int)
      returns (stored: bool)
      requires sessionId in sessions
      modifies this
      ensures stored <==> !Refuses(old(View()), id, parent)
      ensures View() == if stored then WithAssistantMessage(old(View()), userId, sessionId, parent, content, events, id, now)
                        else old(View())
    {
      if id in messages { return false; }
      if other :| other in messages && IsReply(messages, other, parent) { return false; }
      messages := messages[id := Message(sessionId, userId, AssistantRole, content, events, Some(parent),
                                         now, false, None, None)];
      sessions := sessions[sessionId := sessions[sessionId].(lastMessageAt := now)];
      return true;
    }

    method FindAssistantForUserMessage(userMessageId: Id) returns (found: Option<Id>)
      ensures found.Some? ==> IsReply(messages, found.value, userMessageId)
      ensures found.None? ==> !HasReply(messages, userMessageId)
    {
      if id :| id in messages && IsReply(messages, id, userMessageId) { return Some(id); }
      return None;
    }

    /** False stands for `SessionNotFound`. */
    method DeleteSession(userId: Id, sessionId: Id) returns (known: bool)
      modifies this
      ensures known <==> sessionId in old(sessions) && old(sessions)[sessionId].userId == userId
      ensures View() == WithoutSession(old(View()), userId, sessionId)
    {
      if sessionId !in sessions || sessions[sessionId].userId != userId { return false; }
      if sessions[sessionId].deleted { return true; }
      sessions := sessions[sessionId := sessions[sessionId].(deleted := true)];
      messages := map id | id in messages :: Buried(messages[id], sessionId);
      return true;
    }
  }
}
