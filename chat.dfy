/** app/api/chat/route.ts: one chat turn. The route resolves the session, stores the user's message,
    puts the system prompt in front when the client sent none, asks the model and stores and
    returns its reply, or a fixed apology when the model fails. The pieces the chat-direct route
    repeats word for word (session resolution and the two message inserts) are defined here once. */
module Chat {
  import opened Util
  import opened Store

  /** A message as the client sends it. */
  datatype ChatMessage = ChatMessage(role: string, content: string)

  /** The parsed request body; a field the client left out is `None`. */
  datatype Body = Body(messages: Option<seq<ChatMessage>>, sessionId: Option<string>, apiKey: Option<string>)

  /** What the route reads from its surroundings: whether `ANTHROPIC_API_KEY` is set, the
      `chat_session_id` cookie, the clock, the ids the database generates for a new session and the
      two message rows, and which of the three inserts throw. */
  datatype Env = Env(apiKeySet: bool, cookie: Option<string>, now: nat,
                     newSessionId: string, userMessageId: string, replyMessageId: string,
                     sessionInsertFails: bool, userInsertFails: bool, replyInsertFails: bool)

  /** The arguments of `generateText`. */
  datatype ModelCall = ModelCall(model: string, messages: seq<ChatMessage>, temperature: real, maxTokens: nat)

  /** The response: 200 with an assistant message, 500 for the missing key, or 500 "An error occurred". */
  datatype Response =
    | Reply(id: string, role: string, content: string)
    | KeyMissing(error: string, message: string)
    | Failed(error: string)

  const ModelName: string := "claude-3-haiku-20240307"

  const Apology: string := "I'm sorry, I'm having trouble connecting to my knowledge base right now. Please try again in a moment."

  /** `generateText` with the route's model, temperature 0.7 and at most 1000 tokens. */
  function Call(messages: seq<ChatMessage>): ModelCall {
    ModelCall(ModelName, messages, 0.7, 1000)
  }

  /** The session the request names: the body's `sessionId` when non-empty, else the cookie when
      non-empty; `None` when a new session must be made. */
  function Named(provided: Option<string>, cookie: Option<string>): Option<string> {
    if Truthy(provided) then provided else if Truthy(cookie) then cookie else None
  }

  /** The session id the turn uses: the named one, else the new row's id, else `"temp-" + Date.now()`
      when the insert throws. */
  function SessionIdOf(provided: Option<string>, env: Env): string {
    match Named(provided, env.cookie)
    case Some(id) => id
    case None => if env.sessionInsertFails then "temp-" + NatToString(env.now) else env.newSessionId
  }

  /** The `chat_sessions` rows the resolution inserts. */
  function SessionRows(provided: Option<string>, env: Env): seq<Session> {
    if Named(provided, env.cookie).None? && !env.sessionInsertFails then
      [Session(env.newSessionId, Some("user"), env.now, env.now, None)]
    else []
  }

  /** The session comes from the body first, then from the cookie; only when neither names one is a
      row inserted, and when that insert throws the turn goes on under a temporary id. */
  lemma SessionResolution(provided: Option<string>, env: Env)
    ensures Truthy(provided) ==> SessionIdOf(provided, env) == provided.value && SessionRows(provided, env) == []
    ensures !Truthy(provided) && Truthy(env.cookie) ==>
      SessionIdOf(provided, env) == env.cookie.value && SessionRows(provided, env) == []
    ensures !Truthy(provided) && !Truthy(env.cookie) && !env.sessionInsertFails ==>
      && SessionIdOf(provided, env) == env.newSessionId
      && SessionRows(provided, env) == [Session(env.newSessionId, Some("user"), env.now, env.now, None)]
    ensures !Truthy(provided) && !Truthy(env.cookie) && env.sessionInsertFails ==>
      && SessionIdOf(provided, env)[..5] == "temp-"
      && SessionRows(provided, env) == []
  {
    if !Truthy(provided) && !Truthy(env.cookie) && env.sessionInsertFails {
      assert SessionIdOf(provided, env) == "temp-" + NatToString(env.now);
    }
  }

  /** The `messages` row for the client's last message: stored only when it has role `"user"` and
      the insert does not throw. An empty list makes `messages[messages.length - 1].role` throw, which
      the same `catch` swallows. */
  function UserRows(messages: seq<ChatMessage>, sessionId: string, env: Env): seq<Message> {
    if |messages| > 0 && messages[|messages| - 1].role == "user" && !env.userInsertFails then
      [Message(env.userMessageId, sessionId, "user", messages[|messages| - 1].content, None, env.now)]
    else []
  }

  /** At most one user row is written, holding the last message's content, and it is written exactly
      when the last message is the user's. */
  lemma UserRowsSpec(messages: seq<ChatMessage>, sessionId: string, env: Env)
    ensures var rows := UserRows(messages, sessionId, env);
      && |rows| <= 1
      && (|rows| == 1 <==> |messages| > 0 && messages[|messages| - 1].role == "user" && !env.userInsertFails)
      && (|rows| == 1 ==> rows[0].sessionId == sessionId && rows[0].role == "user"
                          && rows[0].content == messages[|messages| - 1].content)
  { }

  /** The `messages` row for the model's reply, unless its insert throws. */
  function ReplyRows(sessionId: string, text: string, env: Env): seq<Message> {
    if env.replyInsertFails then [] else [Message(env.replyMessageId, sessionId, "assistant", text, None, env.now)]
  }

  predicate IsSystem(m: ChatMessage) {
    m.role == "system"
  }

  predicate NotSystem(m: ChatMessage) {
    m.role != "system"
  }

  /** The messages sent to the model: the client's, with the system prompt put in front when none of
      them has role `"system"`. */
  function WithSystemPrompt(messages: seq<ChatMessage>, prompt: string): seq<ChatMessage> {
    if exists i :: 0 <= i < |messages| && IsSystem(messages[i]) then messages
    else [ChatMessage("system", prompt)] + messages
  }

  /** The model always sees a system message. A client system message is kept where it is and
      nothing is added; otherwise exactly the prompt is added, in front. Either way the non-system
      messages are the client's, in their order. */
  lemma WithSystemPromptSpec(messages: seq<ChatMessage>, prompt: string)
    ensures var r := WithSystemPrompt(messages, prompt);
      && (exists i :: 0 <= i < |r| && IsSystem(r[i]))
      && ((exists i :: 0 <= i < |messages| && IsSystem(messages[i])) ==> r == messages)
      && ((forall i :: 0 <= i < |messages| ==> !IsSystem(messages[i])) ==>
            |r| == |messages| + 1 && r[0] == ChatMessage("system", prompt) && r[1..] == messages)
      && Filter(r, NotSystem) == Filter(messages, NotSystem)
  {
    var r := WithSystemPrompt(messages, prompt);
    if forall i :: 0 <= i < |messages| ==> !IsSystem(messages[i]) {
      assert IsSystem(r[0]);
      FilterAppend([ChatMessage("system", prompt)], messages, NotSystem);
      assert Filter([ChatMessage("system", prompt)], NotSystem) == [];
    }
  }

  /** The response of `POST /api/chat`. `body` is `None` when the body cannot be parsed;
      `model` answers a call with the reply text, or `None` when it throws. */
  function ChatResponse(body: Option<Body>, env: Env, model: ModelCall -> Option<string>, prompt: string): Response {
    if body.None? || body.value.messages.None? then Failed("An error occurred")
    else if !env.apiKeySet then
      KeyMissing("Anthropic API key is missing", "Please set the ANTHROPIC_API_KEY environment variable.")
    else
      match model(Call(WithSystemPrompt(body.value.messages.value, prompt)))
      case None => Reply("fallback-response", "assistant", Apology)
      case Some(text) => Reply(NatToString(env.now), "assistant", text)
  }

  /** An unreadable body is a 500 and a missing key the other 500, both before anything is written.
      Otherwise the status is 200: the model's reply, with the prompt-completed messages passed at
      temperature 0.7 and 1000 tokens, or the apology under id `"fallback-response"`. */
  lemma ChatResponseSpec(body: Option<Body>, env: Env, model: ModelCall -> Option<string>, prompt: string)
    ensures var r := ChatResponse(body, env, model, prompt);
      && (r.Failed? <==> body.None? || body.value.messages.None?)
      && (r.KeyMissing? <==> body.Some? && body.value.messages.Some? && !env.apiKeySet)
      && (r.Reply? ==>
            var call := Call(WithSystemPrompt(body.value.messages.value, prompt));
            && r.role == "assistant"
            && call.temperature == 0.7 && call.maxTokens == 1000
            && (model(call).None? ==> r.id == "fallback-response" && r.content == Apology)
            && (model(call).Some? ==> r.content == model(call).value && r.id != "fallback-response"))
  {
    var r := ChatResponse(body, env, model, prompt);
    if r.Reply? {
      var call := Call(WithSystemPrompt(body.value.messages.value, prompt));
      if model(call).Some? {
        assert r.id == NatToString(env.now);
        assert r.id[0] != 'f';
      }
    }
  }

  /** Session resolution as the route runs it, against the store. */
  method ResolveSession(db: Db, provided: Option<string>, env: Env) returns (sessionId: string)
    requires db.Valid() && env.newSessionId !in SessionIds(db.sessions)
    modifies db`sessions
    ensures db.Valid()
    ensures sessionId == SessionIdOf(provided, env)
    ensures db.sessions == old(db.sessions) + SessionRows(provided, env)
  {
    var named := if Truthy(provided) then provided else env.cookie;
    if Truthy(named) {
      sessionId := named.value;
    } else if env.sessionInsertFails {
      sessionId := "temp-" + NatToString(env.now);
    } else {
      sessionId := db.CreateChatSession(Some("user"), env.newSessionId, env.now);
    }
  }

  /** The guarded insert of the client's last message; a throw is swallowed. */
  method StoreUserMessage(db: Db, messages: seq<ChatMessage>, sessionId: string, env: Env)
    requires db.Valid() && env.userMessageId !in MessageIds(db.messages)
    modifies db`messages
    ensures db.Valid()
    ensures db.messages == old(db.messages) + UserRows(messages, sessionId, env)
  {
    if |messages| == 0 {
      return;
    }
    var userMessage := messages[|messages| - 1];
    if userMessage.role == "user" && !env.userInsertFails {
      var _ := db.AddMessage(sessionId, "user", userMessage.content, None, NoSerialiser, env.userMessageId, env.now);
    }
  }

  /** The insert of the model's reply; a throw is swallowed. */
  method StoreReply(db: Db, sessionId: string, text: string, env: Env)
    requires db.Valid() && env.replyMessageId !in MessageIds(db.messages)
    modifies db`messages
    ensures db.Valid()
    ensures db.messages == old(db.messages) + ReplyRows(sessionId, text, env)
  {
    if !env.replyInsertFails {
      var _ := db.AddMessage(sessionId, "assistant", text, None, NoSerialiser, env.replyMessageId, env.now);
    }
  }

  /** `POST /api/chat`. `prompt` is `systemPrompt` of lib/system-prompt.ts. */
  method Post(db: Db, body: Option<Body>, env: Env, model: ModelCall -> Option<string>, prompt: string)
    returns (response: Response)
    requires db.Valid()
    requires env.newSessionId !in SessionIds(db.sessions)
    requires env.userMessageId !in MessageIds(db.messages) && env.replyMessageId !in MessageIds(db.messages)
    requires env.userMessageId != env.replyMessageId
    modifies db`sessions, db`messages
    ensures db.Valid()
    ensures response == ChatResponse(body, env, model, prompt)
    ensures !response.Reply? ==> db.sessions == old(db.sessions) && db.messages == old(db.messages)
    ensures response.Reply? ==>
      var msgs := body.value.messages.value;
      var sid := SessionIdOf(body.value.sessionId, env);
      var answer := model(Call(WithSystemPrompt(msgs, prompt)));
      && db.sessions == old(db.sessions) + SessionRows(body.value.sessionId, env)
      && db.messages == old(db.messages) + UserRows(msgs, sid, env)
                        + (if answer.Some? then ReplyRows(sid, answer.value, env) else [])
  {
    if body.None? || body.value.messages.None? {
      return Failed("An error occurred");
    }
    var messages := body.value.messages.value;
    if !env.apiKeySet {
      return KeyMissing("Anthropic API key is missing", "Please set the ANTHROPIC_API_KEY environment variable.");
    }
    var sessionId := ResolveSession(db, body.value.sessionId, env);
    StoreUserMessage(db, messages, sessionId, env);
    var formatted := messages;
    if !(exists i :: 0 <= i < |formatted| && IsSystem(formatted[i])) {
      formatted := [ChatMessage("system", prompt)] + formatted;
    }
    var answer := model(Call(formatted));
    if answer.None? {
      return Reply("fallback-response", "assistant", Apology);
    }
    StoreReply(db, sessionId, answer.value, env);
    response := Reply(NatToString(env.now), "assistant", answer.value);
  }
}
