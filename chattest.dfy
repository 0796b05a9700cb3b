/** app/api/chat-test/route.ts: a chat turn whose system prompt carries the help-center passages
    most similar to the user's last message. The route writes nothing to the database. */
module ChatTest {
  import opened Util
  import opened Store
  import opened Chat
  import opened ChatDirect
  import opened Embeddings

  /** The first line of a non-empty context. */
  const Header: string := "Here is some relevant information from the Clipboard Health help center:\n\n"

  /** What the similarity search reads: the two tables, the embedding provider, the vector
      similarity, and whether the query throws (the search then answers `[]`). */
  datatype Corpus = Corpus(embeddings: seq<Embedding>, articles: seq<Article>,
                           provider: string -> Option<seq<real>>,
                           similarity: (seq<real>, seq<real>) -> real, fails: bool)

  /** `findSimilarContent(query, limit)` over the corpus. */
  function Search(c: Corpus, query: string, limit: nat): (r: seq<Similar>)
    ensures |r| <= limit
    ensures c.fails ==> r == []
  {
    FindSimilarContent(c.embeddings, c.articles, c.provider, c.similarity, c.fails, query, limit)
  }

  /** The three lines a retrieved passage contributes: its title, url and text, then a blank line. */
  function Block(c: Similar): string {
    "Article: " + c.title + "\n" + "URL: " + c.url + "\n" + "Content: " + c.chunkText + "\n\n"
  }

  /** The blocks of the passages, in retrieval order. */
  function Blocks(cs: seq<Similar>): string {
    Concat(cs, Block)
  }

  /** The contextual information: empty without passages, else the header and one block each. */
  function Context(cs: seq<Similar>): string {
    if cs == [] then "" else Header + Blocks(cs)
  }

  /** The context is empty exactly when nothing was retrieved. */
  lemma ContextEmpty(cs: seq<Similar>)
    ensures Context(cs) == "" <==> cs == []
  {
    if cs != [] {
      assert |Context(cs)| >= |Header| > 0;
    }
  }

  /** The blocks after the header are, for every passage `i`, the blocks of the passages before
      it, its own block, and the blocks of those after it: every passage appears once, in retrieval
      order. */
  lemma BlocksAt(cs: seq<Similar>, i: nat)
    requires i < |cs|
    ensures Blocks(cs) == Blocks(cs[..i]) + Block(cs[i]) + Blocks(cs[i + 1..])
  {
    assert cs == cs[..i] + [cs[i]] + cs[i + 1..];
    ConcatAt(cs[..i], cs[i], cs[i + 1..], Block);
  }

  /** Appending the three lines of a passage one by one appends its block. */
  lemma AppendBlock(prefix: string, c: Similar)
    ensures prefix + "Article: " + c.title + "\n" + "URL: " + c.url + "\n" + "Content: " + c.chunkText + "\n\n"
      == prefix + Block(c)
  { }

  /** One more passage appends its block to the context. */
  lemma ContextStep(similar: seq<Similar>, i: nat)
    requires i < |similar|
    ensures Header + Concat(similar[..i + 1], Block) == Header + Concat(similar[..i], Block) + Block(similar[i])
  {
    assert similar[..i + 1][..i] == similar[..i];
  }

  /** The loop that builds the context, appending one block per passage. */
  method BuildContext(similar: seq<Similar>) returns (ctx: string)
    ensures ctx == Context(similar)
  {
    ctx := "";
    if |similar| > 0 {
      ctx := Header;
      for i := 0 to |similar|
        invariant ctx == Header + Concat(similar[..i], Block)
      {
        var c := similar[i];
        AppendBlock(ctx, c);
        ContextStep(similar, i);
        ctx := ctx + "Article: " + c.title + "\n";
        ctx := ctx + "URL: " + c.url + "\n";
        ctx := ctx + "Content: " + c.chunkText + "\n\n";
      }
      assert similar[..|similar|] == similar;
    }
  }

  /** The system prompt with the context: `"\n\n"` and the context are appended only when the
      context is non-empty. */
  function Enhanced(prompt: string, context: string): string {
    prompt + (if context != "" then "\n\n" + context else "")
  }

  /** Without passages the prompt is unchanged; with some, it is the prompt, a blank line, the
      header and the blocks. */
  lemma EnhancedSpec(prompt: string, cs: seq<Similar>)
    ensures cs == [] ==> Enhanced(prompt, Context(cs)) == prompt
    ensures cs != [] ==> Enhanced(prompt, Context(cs)) == prompt + "\n\n" + Header + Blocks(cs)
  {
    ContextEmpty(cs);
  }

  /** The response: `{ response }`, or 500 with "An error occurred". */
  datatype Response = Answered(response: string) | ServerError(error: string)

  /** The passages for a conversation: those similar to the last message's content, at most 3. With
      no messages at all, reading the last message throws inside the retrieval `try`, and the context
      stays empty. */
  function Retrieved(messages: seq<ChatMessage>, corpus: Corpus): seq<Similar> {
    if messages == [] then [] else Search(corpus, messages[|messages| - 1].content, 3)
  }

  /** The call to the model: the enhanced system prompt, then every client message that is not a
      system message. */
  function TestCall(messages: seq<ChatMessage>, corpus: Corpus, prompt: string): ModelCall {
    Call(PromptMessages(messages, Enhanced(prompt, Context(Retrieved(messages, corpus)))))
  }

  /** `POST /api/chat-test`; `messages` is `None` when the body or its `messages` is missing, which
      makes the route throw. */
  function TestResponse(messages: Option<seq<ChatMessage>>, corpus: Corpus, model: ModelCall -> Option<string>,
                        prompt: string): Response
  {
    if messages.None? then ServerError("An error occurred")
    else
      match model(TestCall(messages.value, corpus, prompt))
      case None => ServerError("An error occurred")
      case Some(text) => Answered(text)
  }

  /** The model is asked with the chat route's model and settings. Its first message is the
      system prompt, extended by the context of at most 3 passages retrieved for the last message;
      the client's non-system messages follow, in order, exactly as the chat-direct route forwards
      them. */
  lemma TestCallSpec(messages: seq<ChatMessage>, corpus: Corpus, prompt: string)
    ensures var call := TestCall(messages, corpus, prompt);
      var cs := Retrieved(messages, corpus);
      && call.model == ModelName && call.temperature == 0.7 && call.maxTokens == 1000
      && |cs| <= 3
      && (messages != [] ==> cs == Search(corpus, messages[|messages| - 1].content, 3))
      && call.messages[0] == ChatMessage("system", Enhanced(prompt, Context(cs)))
      && (forall m :: m in call.messages[1..] <==> m in messages && !IsSystem(m))
      && call.messages[1..] == PromptMessages(messages, prompt)[1..]
  {
    var cs := Retrieved(messages, corpus);
    PromptMessagesSpec(messages, Enhanced(prompt, Context(cs)));
  }

  /** Without passages, because there are no messages or the search failed, the system message is
      the plain prompt. */
  lemma TestCallPlain(messages: seq<ChatMessage>, corpus: Corpus, prompt: string)
    requires messages == [] || corpus.fails
    ensures TestCall(messages, corpus, prompt).messages == [ChatMessage("system", prompt)] + Filter(messages, NotSystem)
  {
    EnhancedSpec(prompt, Retrieved(messages, corpus));
  }

  /** The route, with its context loop. */
  method Post(messages: Option<seq<ChatMessage>>, corpus: Corpus, model: ModelCall -> Option<string>, prompt: string)
    returns (response: Response)
    ensures response == TestResponse(messages, corpus, model, prompt)
  {
    if messages.None? {
      return ServerError("An error occurred");
    }
    var ms := messages.value;
    var context := "";
    if |ms| > 0 {
      var userMessage := ms[|ms| - 1];
      var similar := Search(corpus, userMessage.content, 3);
      context := BuildContext(similar);
    }
    var enhanced := Enhanced(prompt, context);
    var promptMessages := [ChatMessage("system", enhanced)] + Filter(ms, NotSystem);
    var answer := model(Call(promptMessages));
    if answer.None? {
      return ServerError("An error occurred");
    }
    response := Answered(answer.value);
  }
}
