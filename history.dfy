/** app/api/history/route.ts: the messages of one session, for the chat window. */
module History {
  import opened Util
  import opened Store

  /** A message as the chat window receives it: `{ id, role, content }`. */
  datatype Entry = Entry(id: string, role: string, content: string)

  /** 200 with the entries, or 500 with "Failed to fetch chat history". */
  datatype Response = Messages(messages: seq<Entry>) | Failed(error: string)

  /** The session to show: the `sessionId` query parameter when it is non-empty, else the
      `chat_session_id` cookie. */
  function ResolveSessionId(param: Option<string>, cookie: Option<string>): (r: Option<string>)
    ensures Truthy(param) ==> r == param
    ensures !Truthy(param) ==> r == cookie
  {
    if Truthy(param) then param else cookie
  }

  function EntryOf(m: Message): Entry {
    Entry(m.id, m.role, m.content)
  }

  /** `GET /api/history`; `failure` is an error thrown by the query. */
  function Get(rows: seq<Message>, param: Option<string>, cookie: Option<string>, failure: bool): Response {
    var sessionId := ResolveSessionId(param, cookie);
    if !Truthy(sessionId) then Messages([])
    else if failure then Failed("Failed to fetch chat history")
    else
      var own := SessionMessages(rows, sessionId.value, |rows|);
      Messages(seq(|own|, i requires 0 <= i < |own| => EntryOf(own[i])))
  }

  /** Without any session id the answer is an empty list, even when the database is down; with one,
      an error is a 500 and otherwise the answer is every message of that session exactly once, as
      `{ id, role, content }`, oldest first. */
  lemma GetSpec(rows: seq<Message>, param: Option<string>, cookie: Option<string>, failure: bool)
    ensures !Truthy(ResolveSessionId(param, cookie)) ==> Get(rows, param, cookie, failure) == Messages([])
    ensures Truthy(ResolveSessionId(param, cookie)) && failure ==>
      Get(rows, param, cookie, failure) == Failed("Failed to fetch chat history")
    ensures Truthy(ResolveSessionId(param, cookie)) && !failure ==>
      var sid := ResolveSessionId(param, cookie).value;
      var own := SessionMessages(rows, sid, |rows|);
      var r := Get(rows, param, cookie, failure);
      && r.Messages?
      && multiset(own) == multiset(Filter(rows, (m: Message) => m.sessionId == sid))
      && |r.messages| == |own|
      && (forall i :: 0 <= i < |own| ==> r.messages[i] == Entry(own[i].id, own[i].role, own[i].content))
      && (forall i, j :: 0 <= i < j < |own| ==> own[i].createdAt <= own[j].createdAt)
  {
    if Truthy(ResolveSessionId(param, cookie)) && !failure {
      SessionMessagesComplete(rows, ResolveSessionId(param, cookie).value, |rows|);
    }
  }
}
