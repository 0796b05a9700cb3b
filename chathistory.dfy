/** lib/chat-history.ts: chat sessions kept as JSON records in Redis under the key `chat:<id>`.
    The Redis store is a map from keys to the decoded records (serialising and parsing a record is
    the identity); the seven-day expiry is not modelled. */
module ChatHistory {
  import opened Util

  datatype Role = User | Assistant | System

  /** A message of a session; `createdAt` is optional in the record type. */
  datatype Message = Message(id: string, role: Role, content: string, createdAt: Option<nat>)

  datatype ChatSession = ChatSession(id: string, messages: seq<Message>, createdAt: nat, updatedAt: nat)

  /** The outcome of `addMessageToSession`: the new message, or the thrown error. */
  datatype Result<T> = Ok(value: T) | Failure(error: string)

  /** The Redis key of a session. */
  function Key(sessionId: string): string {
    "chat:" + sessionId
  }

  /** Different sessions live under different keys. */
  lemma KeyInjective(a: string, b: string)
    ensures Key(a) == Key(b) ==> a == b
  {
    if Key(a) == Key(b) {
      assert a == Key(a)[5..];
      assert b == Key(b)[5..];
    }
  }

  /** `getChatSession(sessionId)`: the stored record, or null. */
  function Find(store: map<string, ChatSession>, sessionId: string): Option<ChatSession> {
    if Key(sessionId) in store then Some(store[Key(sessionId)]) else None
  }

  /** The store after `createChatSession`: an empty session under the fresh id. */
  function Created(store: map<string, ChatSession>, sessionId: string, now: nat): map<string, ChatSession> {
    store[Key(sessionId) := ChatSession(sessionId, [], now, now)]
  }

  /** `addMessageToSession`: the store with the message appended to the session and `updatedAt`
      refreshed, and the new message; or "Chat session not found". */
  function Added(store: map<string, ChatSession>, sessionId: string, role: Role, content: string,
                 newId: string, now: nat): Result<(map<string, ChatSession>, Message)>
  {
    match Find(store, sessionId)
    case None => Failure("Chat session not found")
    case Some(s) =>
      var m := Message(newId, role, content, Some(now));
      Ok((store[Key(sessionId) := s.(messages := s.messages + [m], updatedAt := now)], m))
  }

  /** `getRecentMessages(sessionId, limit)`: `messages.slice(-limit)` of the session, `[]` for an
      unknown session. */
  function Recent(store: map<string, ChatSession>, sessionId: string, limit: int := 10): seq<Message> {
    match Find(store, sessionId)
    case None => []
    case Some(s) => SliceFrom(s.messages, -limit)
  }

  /** A created session is found, empty, with both timestamps set; no other session changes. */
  lemma CreatedThenFind(store: map<string, ChatSession>, sessionId: string, now: nat, other: string)
    ensures Find(Created(store, sessionId, now), sessionId) == Some(ChatSession(sessionId, [], now, now))
    ensures other != sessionId ==> Find(Created(store, sessionId, now), other) == Find(store, other)
  {
    KeyInjective(sessionId, other);
  }

  /** Adding fails exactly for an unknown session, and then writes nothing. Otherwise the session
      gains exactly the new message at its end, with the given role and content and a fresh id and
      time, its `updatedAt` is the time, its id and `createdAt` stay, and no other session changes. */
  lemma AddedSpec(store: map<string, ChatSession>, sessionId: string, role: Role, content: string,
                  newId: string, now: nat, other: string)
    ensures var r := Added(store, sessionId, role, content, newId, now);
      && (r.Failure? <==> Find(store, sessionId).None?)
      && (r.Failure? ==> r.error == "Chat session not found")
      && (r.Ok? ==>
            var (after, m) := r.value;
            var s := Find(store, sessionId).value;
            && m == Message(newId, role, content, Some(now))
            && Find(after, sessionId) == Some(ChatSession(s.id, s.messages + [m], s.createdAt, now))
            && (other != sessionId ==> Find(after, other) == Find(store, other)))
  {
    KeyInjective(sessionId, other);
  }

  /** The recent messages of a session: all of them for `limit` 0 (`slice(-0)` is `slice(0)`), the
      last `limit` of them (all when there are fewer) for a positive `limit`, and all but the first
      `-limit` for a negative one. */
  lemma RecentSpec(store: map<string, ChatSession>, sessionId: string, limit: int)
    ensures Find(store, sessionId).None? ==> Recent(store, sessionId, limit) == []
    ensures Find(store, sessionId).Some? ==>
      var ms := Find(store, sessionId).value.messages;
      var r := Recent(store, sessionId, limit);
      && (limit == 0 ==> r == ms)
      && (limit > 0 ==> r == ms[(if limit < |ms| then |ms| - limit else 0)..])
      && (limit < 0 ==> r == ms[(if -limit < |ms| then -limit else |ms|)..])
  { }

  /** After a message is added, the recent messages end with it: with `limit` 1 they are just the new
      message, and with a larger limit they are the previous `limit - 1` recent messages followed by
      it. */
  lemma AddedThenRecent(store: map<string, ChatSession>, sessionId: string, role: Role, content: string,
                        newId: string, now: nat, limit: int)
    requires Find(store, sessionId).Some? && limit >= 1
    ensures var r := Added(store, sessionId, role, content, newId, now);
      && r.Ok?
      && (limit == 1 ==> Recent(r.value.0, sessionId, limit) == [r.value.1])
      && (limit > 1 ==> Recent(r.value.0, sessionId, limit) == Recent(store, sessionId, limit - 1) + [r.value.1])
  {
    var s := Find(store, sessionId).value;
    var r := Added(store, sessionId, role, content, newId, now);
    var m := r.value.1;
    var ms := s.messages + [m];
    assert Find(r.value.0, sessionId) == Some(s.(messages := ms, updatedAt := now));
    if limit > 1 {
      var k := if limit - 1 < |s.messages| then |s.messages| - (limit - 1) else 0;
      assert ms[k..] == s.messages[k..] + [m];
    }
  }

  /** The Redis client: the keys and the session records stored under them. */
  class Redis {
    var store: map<string, ChatSession>

    constructor ()
      ensures store == map[]
    {
      store := map[];
    }

    /** `createChatSession()`; `newId` is the id `nanoid()` draws and `now` the clock. */
    method CreateChatSession(newId: string, now: nat) returns (sessionId: string)
      modifies this
      ensures sessionId == newId
      ensures store == Created(old(store), newId, now)
    {
      sessionId := newId;
      var session := ChatSession(sessionId, [], now, now);
      store := store[Key(sessionId) := session];
    }

    /** `getChatSession(sessionId)`. */
    function GetChatSession(sessionId: string): (r: Option<ChatSession>)
      reads this
      ensures r.Some? <==> Key(sessionId) in store
      ensures r.Some? ==> r.value == store[Key(sessionId)]
    {
      Find(store, sessionId)
    }

    /** `addMessageToSession(sessionId, message)`: read the record, push the message, refresh
        `updatedAt`, write the record back. */
    method AddMessageToSession(sessionId: string, role: Role, content: string, newId: string, now: nat)
      returns (r: Result<Message>)
      modifies this
      ensures var a := Added(old(store), sessionId, role, content, newId, now);
        && (a.Failure? ==> r == Failure(a.error) && store == old(store))
        && (a.Ok? ==> r == Ok(a.value.1) && store == a.value.0)
    {
      var session := GetChatSession(sessionId);
      if session.None? {
        return Failure("Chat session not found");
      }
      var s := session.value;
      var newMessage := Message(newId, role, content, Some(now));
      s := s.(messages := s.messages + [newMessage]);
      s := s.(updatedAt := now);
      store := store[Key(sessionId) := s];
      r := Ok(newMessage);
    }

    /** `getRecentMessages(sessionId, limit)`. */
    function GetRecentMessages(sessionId: string, limit: int := 10): (r: seq<Message>)
      reads this
      ensures Key(sessionId) !in store ==> r == []
      ensures Key(sessionId) in store ==> r == SliceFrom(store[Key(sessionId)].messages, -limit)
    {
      Recent(store, sessionId, limit)
    }
  }
}
