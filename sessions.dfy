/** app/api/sessions/route.ts: listing the chat sessions, and creating one together with Flo's
    welcome message. */
module Sessions {
  import opened Util
  import opened Store

  /** The text of the welcome message the route inserts for every new session. */
  const Welcome: string := "Hi there! I'm Flo, your personal guide to Clipboard Health. Whether you have questions about shifts, the app, or just need some encouragement, I'm here to help. How can I support you today?"

  /** The selected columns of a session: `id, user_id, created_at`. */
  datatype Summary = Summary(id: string, userId: Option<string>, createdAt: nat)

  /** `GET`: 200 with the sessions, or 500 with "Failed to fetch sessions". */
  datatype ListResponse = Listed(sessions: seq<Summary>) | ListFailed(error: string)

  /** `POST`: 201 with the new session, or 500 with "Failed to create session". */
  datatype CreateResponse = Created(session: Summary) | CreateFailed(error: string)

  function UpdatedAt(s: Session): real {
    s.updatedAt as real
  }

  function SummaryOf(s: Session): Summary {
    Summary(s.id, s.userId, s.createdAt)
  }

  /** The rows in `ORDER BY updated_at DESC` order; rows with equal times keep their table order. */
  function ByRecency(rows: seq<Session>): seq<Session> {
    SortDesc(rows, UpdatedAt)
  }

  /** `GET /api/sessions`; `failure` is an error thrown by the query. */
  function Get(rows: seq<Session>, failure: bool): ListResponse {
    if failure then ListFailed("Failed to fetch sessions")
    else
      var ordered := ByRecency(rows);
      Listed(seq(|ordered|, i requires 0 <= i < |ordered| => SummaryOf(ordered[i])))
  }

  /** Without an error, the listing has one entry per session: it is the summaries of an
      arrangement of exactly the stored rows, most recently updated first. */
  lemma GetSpec(rows: seq<Session>, failure: bool)
    ensures failure ==> Get(rows, failure) == ListFailed("Failed to fetch sessions")
    ensures !failure ==>
      var r := Get(rows, failure).sessions;
      var ordered := ByRecency(rows);
      && Get(rows, failure).Listed?
      && multiset(ordered) == multiset(rows)
      && |r| == |rows|
      && (forall i :: 0 <= i < |r| ==> r[i] == Summary(ordered[i].id, ordered[i].userId, ordered[i].createdAt))
      && forall i, j :: 0 <= i < j < |ordered| ==> ordered[i].updatedAt >= ordered[j].updatedAt
  {
    if !failure {
      var ordered := ByRecency(rows);
      assert forall i, j :: 0 <= i < j < |ordered| ==> UpdatedAt(ordered[i]) >= UpdatedAt(ordered[j]);
    }
  }

  /** `POST /api/sessions`. `newId` is the `crypto.randomUUID()` of the session, `messageId` the id
      the database gives the welcome message and `now` the `CURRENT_TIMESTAMP`; `sessionFails` and
      `messageFails` are errors thrown by the two inserts. */
  method Post(db: Db, newId: string, messageId: string, now: nat, sessionFails: bool, messageFails: bool)
    returns (response: CreateResponse)
    requires db.Valid()
    requires newId !in SessionIds(db.sessions) && messageId !in MessageIds(db.messages)
    modifies db`sessions, db`messages
    ensures db.Valid()
    ensures sessionFails ==>
      && response == CreateFailed("Failed to create session")
      && db.sessions == old(db.sessions) && db.messages == old(db.messages)
    ensures !sessionFails ==>
      db.sessions == old(db.sessions) + [Session(newId, Some("user"), now, now, None)]
    ensures !sessionFails && messageFails ==>
      response == CreateFailed("Failed to create session") && db.messages == old(db.messages)
    ensures !sessionFails && !messageFails ==>
      && response == Created(Summary(newId, Some("user"), now))
      && db.messages == old(db.messages) + [Message(messageId, newId, "assistant", Welcome, None, now)]
  {
    if sessionFails {
      return CreateFailed("Failed to create session");
    }
    var id := db.CreateChatSession(Some("user"), newId, now);
    var session := Summary(id, Some("user"), now);
    if messageFails {
      return CreateFailed("Failed to create session");
    }
    var _ := db.AddMessage(session.id, "assistant", Welcome, None, NoSerialiser, messageId, now);
    response := Created(session);
  }
}
