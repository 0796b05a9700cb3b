/** The Postgres tables the application reads and writes, and the session and message queries of
    lib/db.ts. Every table is a field of one store object; the modules of the routes and of the
    other libraries hold the statements they run against it. */
module Store {
  import opened Util

  /** A row of `help_articles`. */
  datatype Article = Article(id: string, title: string, url: string, content: string, updatedAt: nat)

  /** A row of `text_chunks`, the table of the populate and retrieve routes. */
  datatype TextChunk = TextChunk(id: string, articleId: string, chunkIndex: nat, text: string)

  /** A row of `embeddings`, the table of lib/embeddings.ts. */
  datatype Embedding = Embedding(articleId: string, chunkIndex: nat, text: string, vector: seq<real>)

  /** A row of `chat_sessions`; `metadata` is the JSON object column, `None` for SQL null. */
  datatype Session = Session(id: string, userId: Option<string>, createdAt: nat, updatedAt: nat,
                             metadata: Option<map<string, string>>)

  /** A row of `messages`; `metadata` is the serialised JSON text, `None` for SQL null. */
  datatype Message = Message(id: string, sessionId: string, role: string, content: string,
                             metadata: Option<string>, createdAt: nat)

  /** A JSON value, as `addMessage` may receive it for `metadata`. */
  datatype Json =
    | JsonNull
    | JsonBool(b: bool)
    | JsonNumber(n: real)
    | JsonString(s: string)
    | JsonArray(items: seq<Json>)
    | JsonObject(fields: map<string, Json>)

  /** JavaScript truthiness of an optional argument: `undefined`, `null`, `false`, `0` and `""` are
      falsy; every other value, arrays and objects included, is truthy. */
  predicate JsonTruthy(v: Option<Json>) {
    match v
    case None => false
    case Some(JsonNull) => false
    case Some(JsonBool(b)) => b
    case Some(JsonNumber(n)) => n != 0.0
    case Some(JsonString(t)) => t != ""
    case Some(JsonArray(_)) => true
    case Some(JsonObject(_)) => true
  }

  /** The `metadata` column `addMessage` writes: the serialised value when the argument is truthy,
      SQL null otherwise. `stringify` is `JSON.stringify`. */
  function StoredMetadata(metadata: Option<Json>, stringify: Json -> string): (r: Option<string>)
    ensures r.None? <==> !JsonTruthy(metadata)
    ensures r.Some? ==> metadata.Some? && r.value == stringify(metadata.value)
  {
    if JsonTruthy(metadata) then Some(stringify(metadata.value)) else None
  }

  /** The routes call `addMessage` without metadata, so no serialisation happens; this stands in
      for `JSON.stringify` at those calls. */
  function NoSerialiser(v: Json): string {
    ""
  }

  /** A row of `response_feedback`. */
  datatype Feedback = Feedback(sessionId: string, messageId: string, rating: real, text: Option<string>)

  /** A row of `question_analytics`. */
  datatype Question = Question(id: string, sessionId: string, question: string, category: string)

  /** A row of `conversation_metrics`, keyed by its session id. */
  datatype Metrics = Metrics(messageCount: nat, averageResponseTime: Option<real>,
                             durationSeconds: Option<real>, completed: bool, updatedAt: nat)

  /** The key columns of the tables. */
  function ArticleId(a: Article): string { a.id }
  function ArticleUrl(a: Article): string { a.url }
  function ChunkId(c: TextChunk): string { c.id }
  function ChunkKey(c: TextChunk): (string, nat) { (c.articleId, c.chunkIndex) }
  function EmbeddingKey(e: Embedding): (string, nat) { (e.articleId, e.chunkIndex) }
  function SessionId(s: Session): string { s.id }
  function MessageId(m: Message): string { m.id }

  function SessionIds(rows: seq<Session>): set<string> {
    set s | s in rows :: s.id
  }

  function MessageIds(rows: seq<Message>): set<string> {
    set m | m in rows :: m.id
  }

  /** The database. Ids and timestamps the database generates (`gen_random_uuid()`,
      `CURRENT_TIMESTAMP`) are passed in by the caller. */
  class Db {
    var articles: seq<Article>
    var textChunks: seq<TextChunk>
    var embeddings: seq<Embedding>
    var sessions: seq<Session>
    var messages: seq<Message>
    var feedback: seq<Feedback>
    var questions: seq<Question>
    var metrics: map<string, Metrics>

    /** The keys and UNIQUE constraints of the tables. */
    ghost predicate Valid()
      reads this
    {
      && UniqueBy(articles, ArticleId)
      && UniqueBy(articles, ArticleUrl)
      && UniqueBy(textChunks, ChunkKey)
      && UniqueBy(embeddings, EmbeddingKey)
      && UniqueBy(sessions, SessionId)
      && UniqueBy(messages, MessageId)
    }

    constructor ()
      ensures Valid()
      ensures articles == [] && textChunks == [] && embeddings == [] && sessions == []
      ensures messages == [] && feedback == [] && questions == [] && metrics == map[]
    {
      articles, textChunks, embeddings, sessions := [], [], [], [];
      messages, feedback, questions, metrics := [], [], [], map[];
    }

    /** `createChatSession(userId)`: one new session row whose user id is null when none (or an
        empty one) is given; returns its id. */
    method CreateChatSession(userId: Option<string>, newId: string, now: nat) returns (id: string)
      requires Valid() && newId !in SessionIds(sessions)
      modifies this`sessions
      ensures Valid()
      ensures id == newId
      ensures sessions == old(sessions) + [Session(newId, OrNull(userId), now, now, None)]
    {
      var row := Session(newId, OrNull(userId), now, now, None);
      assert forall i :: 0 <= i < |sessions| ==> sessions[i].id != newId by {
        forall i | 0 <= i < |sessions| ensures sessions[i].id != newId {
          assert sessions[i] in sessions;
        }
      }
      UniqueSnoc(sessions, row, SessionId);
      sessions := sessions + [row];
      id := newId;
    }

    /** `updateChatSession(sessionId)`: touches `updated_at` of that session and nothing else. */
    method UpdateChatSession(sessionId: string, now: nat)
      requires Valid()
      modifies this`sessions
      ensures Valid()
      ensures sessions == TouchSession(old(sessions), sessionId, now)
    {
      sessions := TouchSession(sessions, sessionId, now);
    }

    /** `addMessage(sessionId, role, content, metadata)`: one new message row, with the metadata
        column `StoredMetadata` gives; returns its id. */
    method AddMessage(sessionId: string, role: string, content: string, metadata: Option<Json>,
                      stringify: Json -> string, newId: string, now: nat) returns (id: string)
      requires Valid() && newId !in MessageIds(messages)
      modifies this`messages
      ensures Valid()
      ensures id == newId
      ensures messages ==
        old(messages) + [Message(newId, sessionId, role, content, StoredMetadata(metadata, stringify), now)]
    {
      var row := Message(newId, sessionId, role, content, StoredMetadata(metadata, stringify), now);
      assert forall i :: 0 <= i < |messages| ==> messages[i].id != newId by {
        forall i | 0 <= i < |messages| ensures messages[i].id != newId {
          assert messages[i] in messages;
        }
      }
      UniqueSnoc(messages, row, MessageId);
      messages := messages + [row];
      id := newId;
    }
  }

  /** `getChatSession(sessionId)`: the session with that id, or null. */
  function FindSession(rows: seq<Session>, sessionId: string): (r: Option<Session>)
    ensures r.Some? ==> r.value in rows && r.value.id == sessionId
    ensures r.None? <==> sessionId !in SessionIds(rows)
  {
    match FirstIndex(rows, (s: Session) => s.id == sessionId)
    case Some(i) => Some(rows[i])
    case None =>
      assert forall s :: s in rows ==> s.id != sessionId by {
        forall s | s in rows ensures s.id != sessionId {
          var i :| 0 <= i < |rows| && rows[i] == s;
        }
      }
      None
  }

  /** The rows after `UPDATE chat_sessions SET updated_at = now WHERE id = sessionId`. */
  function TouchSession(rows: seq<Session>, sessionId: string, now: nat): (r: seq<Session>)
    ensures |r| == |rows|
    ensures forall i :: 0 <= i < |rows| ==> r[i].(updatedAt := rows[i].updatedAt) == rows[i]
    ensures forall i :: 0 <= i < |rows| ==> r[i].updatedAt == if rows[i].id == sessionId then now else rows[i].updatedAt
  {
    seq(|rows|, i requires 0 <= i < |rows| => if rows[i].id == sessionId then rows[i].(updatedAt := now) else rows[i])
  }

  /** Touching a session keeps every id, so the keys stay unique and the session is still found,
      now carrying the new `updated_at`. */
  lemma TouchSessionThenFind(rows: seq<Session>, sessionId: string, now: nat, other: string)
    ensures UniqueBy(rows, SessionId) ==> UniqueBy(TouchSession(rows, sessionId, now), SessionId)
    ensures var found := FindSession(TouchSession(rows, sessionId, now), sessionId);
      found.Some? <==> FindSession(rows, sessionId).Some?
    ensures var found := FindSession(TouchSession(rows, sessionId, now), sessionId);
      found.Some? ==> found.value == FindSession(rows, sessionId).value.(updatedAt := now)
    ensures other != sessionId ==> FindSession(TouchSession(rows, sessionId, now), other) == FindSession(rows, other)
  {
    var r := TouchSession(rows, sessionId, now);
    assert forall i :: 0 <= i < |rows| ==> r[i].id == rows[i].id;
    FindAfterSameIds(rows, r, sessionId);
    FindAfterSameIds(rows, r, other);
  }

  /** Looking a session up in two tables that hold the same ids at the same positions finds the
      same position. */
  lemma FindAfterSameIds(rows: seq<Session>, r: seq<Session>, id: string)
    requires |r| == |rows| && forall i :: 0 <= i < |rows| ==> r[i].id == rows[i].id
    ensures FirstIndex(r, (s: Session) => s.id == id) == FirstIndex(rows, (s: Session) => s.id == id)
  {
    var p := (s: Session) => s.id == id;
    if rows != [] && !p(rows[0]) {
      FindAfterSameIds(rows[1..], r[1..], id);
    }
  }

  /** The ordering key of `ORDER BY created_at`. */
  function CreatedAt(m: Message): real {
    m.createdAt as real
  }

  /** `getMessages(sessionId, limit)`: the session's messages, oldest first, at most `limit`. */
  function SessionMessages(rows: seq<Message>, sessionId: string, limit: nat := 100): (r: seq<Message>)
    ensures |r| <= limit
    ensures forall m :: m in r ==> m in rows && m.sessionId == sessionId
    ensures forall i, j :: 0 <= i < j < |r| ==> r[i].createdAt <= r[j].createdAt
  {
    var own := Filter(rows, (m: Message) => m.sessionId == sessionId);
    var sorted := SortAsc(own, CreatedAt);
    SameElements(sorted, own);
    var r := Take(sorted, limit);
    assert forall m :: m in r ==> m in sorted;
    assert forall i, j :: 0 <= i < j < |r| ==> CreatedAt(r[i]) <= CreatedAt(r[j]);
    r
  }

  /** With a limit that does not cut, the result holds every message of the session exactly once. */
  lemma SessionMessagesComplete(rows: seq<Message>, sessionId: string, limit: nat)
    requires limit >= |rows|
    ensures multiset(SessionMessages(rows, sessionId, limit)) == multiset(Filter(rows, (m: Message) => m.sessionId == sessionId))
  {
  }

  /** Whatever the limit, the list holds `min(limit, n)` of the session's `n` messages, and every
      message of the session that is left out is no older than any listed: the oldest `limit`. */
  lemma SessionMessagesOldest(rows: seq<Message>, sessionId: string, limit: nat)
    ensures var own := Filter(rows, (m: Message) => m.sessionId == sessionId);
      var r := SessionMessages(rows, sessionId, limit);
      && |r| == (if |own| < limit then |own| else limit)
      && multiset(r) <= multiset(own)
      && forall a, b :: a in r && b in multiset(own) - multiset(r) ==> a.createdAt <= b.createdAt
  {
    var own := Filter(rows, (m: Message) => m.sessionId == sessionId);
    var sorted := SortAsc(own, CreatedAt);
    var r := Take(sorted, limit);
    var rest := sorted[|r|..];
    BottomK(own, CreatedAt, limit);
    assert multiset(own) - multiset(r) == multiset(rest);
    forall a, b | a in r && b in multiset(own) - multiset(r) ensures a.createdAt <= b.createdAt {
      assert b in rest;
      assert CreatedAt(a) <= CreatedAt(b);
    }
  }

  /** A new message shows up in its own session's list and leaves every other session's list as it was. */
  lemma AddedMessageListed(rows: seq<Message>, m: Message, sessionId: string, limit: nat)
    requires limit > |rows|
    ensures m.sessionId == sessionId ==>
      multiset(SessionMessages(rows + [m], sessionId, limit)) == multiset(SessionMessages(rows, sessionId, limit)) + multiset{m}
    ensures m.sessionId != sessionId ==>
      SessionMessages(rows + [m], sessionId, limit) == SessionMessages(rows, sessionId, limit)
  {
    var p := (x: Message) => x.sessionId == sessionId;
    FilterAppend(rows, [m], p);
    assert Filter([m], p) == if p(m) then [m] else [];
  }
}
