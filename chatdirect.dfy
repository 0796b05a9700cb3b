/** app/api/chat-direct/route.ts: the chat turn without a fallback. Session resolution and the
    message inserts are those of the chat route; the system prompt replaces every system message the
    client sent, and a model error ends the turn with a 500. */
module ChatDirect {
  import opened Util
  import opened Store
  import opened Chat

  /** The messages sent to the model: the system prompt, then the client's non-system messages. */
  function PromptMessages(messages: seq<ChatMessage>, prompt: string): seq<ChatMessage> {
    [ChatMessage("system", prompt)] + Filter(messages, NotSystem)
  }

  /** The prompt is the only system message and comes first; every client message that is not a
      system message follows, in order, and client system messages are dropped. When the client sent
      no system message this is exactly what the chat route sends. */
  lemma PromptMessagesSpec(messages: seq<ChatMessage>, prompt: string)
    ensures var r := PromptMessages(messages, prompt);
      && r[0] == ChatMessage("system", prompt)
      && (forall i :: 1 <= i < |r| ==> !IsSystem(r[i]))
      && (forall m :: m in r[1..] <==> m in messages && !IsSystem(m))
      && ((forall i :: 0 <= i < |messages| ==> !IsSystem(messages[i])) ==> r == WithSystemPrompt(messages, prompt))
  {
    var r := PromptMessages(messages, prompt);
    var kept := Filter(messages, NotSystem);
    assert r[1..] == kept;
    forall i | 1 <= i < |r| ensures !IsSystem(r[i]) {
      assert r[i] == kept[i - 1];
    }
    if forall i :: 0 <= i < |messages| ==> !IsSystem(messages[i]) {
      FilterAll(messages);
    }
  }

  /** The client's messages reach the model in their own order: what follows the prompt
      distributes over concatenation of the client's list, and a single message is forwarded
      exactly when it is not a system message. Together these fix the forwarded list for any
      input. */
  lemma PromptMessagesInOrder(a: seq<ChatMessage>, b: seq<ChatMessage>, m: ChatMessage, prompt: string)
    ensures PromptMessages(a + b, prompt)[1..] == PromptMessages(a, prompt)[1..] + PromptMessages(b, prompt)[1..]
    ensures PromptMessages([m], prompt)[1..] == if IsSystem(m) then [] else [m]
  {
    assert PromptMessages(a + b, prompt)[1..] == Filter(a + b, NotSystem);
    assert PromptMessages(a, prompt)[1..] == Filter(a, NotSystem);
    assert PromptMessages(b, prompt)[1..] == Filter(b, NotSystem);
    FilterAppend(a, b, NotSystem);
    assert PromptMessages([m], prompt)[1..] == Filter([m], NotSystem);
    assert [m][..0] == [];
  }

  /** Filtering out system messages from a list without any keeps the list. */
  lemma {:induction false} FilterAll(messages: seq<ChatMessage>)
    requires forall i :: 0 <= i < |messages| ==> !IsSystem(messages[i])
    ensures Filter(messages, NotSystem) == messages
    decreases |messages|
  {
    if messages != [] {
      var init := messages[..|messages| - 1];
      FilterAll(init);
      assert messages == init + [messages[|messages| - 1]];
    }
  }

  /** The response of `POST /api/chat-direct`. */
  function DirectResponse(body: Option<Body>, env: Env, model: ModelCall -> Option<string>, prompt: string): Response {
    if body.None? || body.value.messages.None? then Failed("An error occurred")
    else if !env.apiKeySet then
      KeyMissing("Anthropic API key is missing", "Please set the ANTHROPIC_API_KEY environment variable.")
    else
      match model(Call(PromptMessages(body.value.messages.value, prompt)))
      case None => Failed("An error occurred")
      case Some(text) => Reply(NatToString(env.now), "assistant", text)
  }

  /** A model error is a 500 here, where the chat route answers with its apology; on success both
      routes reply with the model's text. The `apiKey` of the body changes nothing. */
  lemma DirectResponseSpec(body: Option<Body>, env: Env, model: ModelCall -> Option<string>, prompt: string,
                           key: Option<string>)
    ensures var r := DirectResponse(body, env, model, prompt);
      && (body.Some? && body.value.messages.Some? && env.apiKeySet ==>
            var call := Call(PromptMessages(body.value.messages.value, prompt));
            && (model(call).None? ==> r == Failed("An error occurred"))
            && (model(call).Some? ==> r == Reply(NatToString(env.now), "assistant", model(call).value)))
      && (body.None? || body.value.messages.None? || !env.apiKeySet ==>
            r == ChatResponse(body, env, model, prompt))
      && (body.Some? ==> DirectResponse(Some(body.value.(apiKey := key)), env, model, prompt) == r)
  { }

  /** `POST /api/chat-direct`. Everything written before the model call stays written when it fails. */
  method Post(db: Db, body: Option<Body>, env: Env, model: ModelCall -> Option<string>, prompt: string)
    returns (response: Response)
    requires db.Valid()
    requires env.newSessionId !in SessionIds(db.sessions)
    requires env.userMessageId !in MessageIds(db.messages) && env.replyMessageId !in MessageIds(db.messages)
    requires env.userMessageId != env.replyMessageId
    modifies db`sessions, db`messages
    ensures db.Valid()
    ensures response == DirectResponse(body, env, model, prompt)
    ensures body.None? || body.value.messages.None? || !env.apiKeySet ==>
      db.sessions == old(db.sessions) && db.messages == old(db.messages)
    ensures body.Some? && body.value.messages.Some? && env.apiKeySet ==>
      var msgs := body.value.messages.value;
      var sid := SessionIdOf(body.value.sessionId, env);
      var answer := model(Call(PromptMessages(msgs, prompt)));
      && db.sessions == old(db.sessions) + SessionRows(body.value.sessionId, env)
      && db.messages == old(db.messages) + UserRows(msgs, sid, env)
                        + (if answer.Some? then ReplyRows(sid, answer.value, env) else [])
  {
    if body.None? || body.value.messages.None? {
      return Failed("An error occurred");
    }
    var messages := body.value.messages.value;
    if !env.apiKeySet {
      return KeyMissing("Anthropic API key is missing", "Please set the ANTHROPIC_API_KEY environment variable.");
    }
    var sessionId := ResolveSession(db, body.value.sessionId, env);
    StoreUserMessage(db, messages, sessionId, env);
    var promptMessages := [ChatMessage("system", prompt)] + Filter(messages, NotSystem);
    var answer := model(Call(promptMessages));
    if answer.None? {
      return Failed("An error occurred");
    }
    StoreReply(db, sessionId, answer.value, env);
    response := Reply(NatToString(env.now), "assistant", answer.value);
  }
}
