/** app/api/chat-fallback/route.ts: a canned answer chosen by keywords of the user's last message,
    for when the model cannot be reached. The route reads nothing and writes nothing. */
module ChatFallback {
  import opened Util
  import opened Text
  import Chat

  /** The answer the route picks: the greeting for an empty question, one canned answer per topic,
      an acknowledgement that quotes the question, or the apology of the error path. */
  datatype Answer = Greeting | Shifts | Payments | Cancellations | Echo(question: string) | Trouble

  /** The JSON the route answers with, and its HTTP status. */
  datatype Reply = Reply(id: string, role: string, content: string, status: nat)

  const EchoPrefix: string := "Thank you for your question about \""
  const EchoSuffix: string := "\". As a fallback system, I have limited information, but I'm happy to help with basic Clipboard Health questions about shifts, payments, and policies."
  const TroubleText: string := "I'm sorry, I encountered an error. Please try again with a simpler question."

  /** The text of each answer. */
  function TextOf(a: Answer): string {
    match a
    case Greeting => "I'm here to help with your Clipboard Health questions. How can I assist you today?"
    case Shifts => "To find and book shifts on Clipboard Health, open the app and go to the Shifts tab. You can filter by location, shift type, pay rate, and more. Once you find a shift you like, tap 'Book Shift' to reserve it."
    case Payments => "Clipboard Health processes payments weekly for all approved timesheets. Direct deposits typically arrive in your bank account within 2-3 business days. You can view your earnings history in the Earnings tab of the app."
    case Cancellations => "If you need to cancel a shift, please do so as early as possible through the app. Late cancellations may affect your rating. Always notify both Clipboard Health and the facility if you can't make a shift."
    case Echo(q) => EchoPrefix + q + EchoSuffix
    case Trouble => TroubleText
  }

  predicate IsUser(m: Chat.ChatMessage) {
    m.role == "user"
  }

  /** The question: the content of the last message whose role is `user`, or `""` without one. */
  function Question(messages: seq<Chat.ChatMessage>): string {
    var users := Filter(messages, IsUser);
    if users == [] then "" else users[|users| - 1].content
  }

  /** The question is the content of the last user message, and empty when there is none. */
  lemma QuestionSpec(messages: seq<Chat.ChatMessage>, k: nat)
    ensures (forall i :: 0 <= i < |messages| ==> !IsUser(messages[i])) ==> Question(messages) == ""
    ensures k < |messages| && IsUser(messages[k]) && (forall j :: k < j < |messages| ==> !IsUser(messages[j])) ==>
      Question(messages) == messages[k].content
  {
    if k < |messages| && IsUser(messages[k]) && (forall j :: k < j < |messages| ==> !IsUser(messages[j])) {
      FilterLast(messages, IsUser, k);
    }
  }

  /** The keyword tests, in their order: "shift", then "pay" or "payment", then "cancel", all on the
      lower-cased question; a question with none of them is quoted back, and an empty one greeted. */
  function AnswerFor(q: string): Answer {
    var lower := Lower(q);
    if Contains(lower, "shift") then Shifts
    else if Contains(lower, "pay") || Contains(lower, "payment") then Payments
    else if Contains(lower, "cancel") then Cancellations
    else if |q| > 0 then Echo(q)
    else Greeting
  }

  /** Which answer a question gets, stated without the redundant "payment" test: a question that
      contains "payment" contains "pay". The greeting is exactly the answer to the empty question,
      and an echo always quotes the question itself. */
  lemma AnswerForSpec(q: string)
    ensures AnswerFor(q) == Shifts <==> Contains(Lower(q), "shift")
    ensures AnswerFor(q) == Payments <==> !Contains(Lower(q), "shift") && Contains(Lower(q), "pay")
    ensures AnswerFor(q) == Cancellations <==>
      !Contains(Lower(q), "shift") && !Contains(Lower(q), "pay") && Contains(Lower(q), "cancel")
    ensures AnswerFor(q).Echo? <==>
      q != "" && !Contains(Lower(q), "shift") && !Contains(Lower(q), "pay") && !Contains(Lower(q), "cancel")
    ensures AnswerFor(q).Echo? ==> AnswerFor(q) == Echo(q)
    ensures AnswerFor(q) == Greeting <==> q == ""
    ensures AnswerFor(q) != Trouble
  {
    if Contains(Lower(q), "payment") {
      ContainsPrefix(Lower(q), "payment", "pay");
    }
  }

  lemma LowerIdempotent(s: string)
    ensures Lower(Lower(s)) == Lower(s)
  { }

  /** Keywords are matched regardless of case: lower-casing the question changes only the text an
      echo quotes. */
  lemma AnswerIgnoresCase(q: string)
    ensures AnswerFor(Lower(q)) == (if AnswerFor(q).Echo? then Echo(Lower(q)) else AnswerFor(q))
  {
    LowerIdempotent(q);
    assert |Lower(q)| == |q|;
  }

  /** The acknowledgement contains the question, verbatim. */
  lemma EchoQuotes(q: string)
    ensures Contains(TextOf(Echo(q)), q)
  {
    var t := TextOf(Echo(q));
    assert t[|EchoPrefix|..|EchoPrefix| + |q|] == q;
    assert OccursAt(t, q, |EchoPrefix|);
    ContainsIffOccurs(t, q);
  }

  /** The answer to a request; `messages` is `None` when the body has no `messages`, which makes
      the route throw into its error path. */
  function AnswerOf(messages: Option<seq<Chat.ChatMessage>>): Answer {
    if messages.None? then Trouble else AnswerFor(Question(messages.value))
  }

  /** `POST /api/chat-fallback`. */
  function FallbackResponse(messages: Option<seq<Chat.ChatMessage>>, now: nat): Reply {
    Reply(NatToString(now), "assistant", TextOf(AnswerOf(messages)), 200)
  }

  /** The route always answers 200 as the assistant, stamped with the clock; the answer is the
      apology exactly when the body is unusable, and otherwise the answer to the last user message. */
  lemma FallbackResponseSpec(messages: Option<seq<Chat.ChatMessage>>, now: nat)
    ensures var r := FallbackResponse(messages, now);
      && r.status == 200 && r.role == "assistant" && r.id == NatToString(now)
      && r.content == TextOf(AnswerOf(messages))
      && (AnswerOf(messages) == Trouble <==> messages.None?)
      && (messages.None? ==> r.content == TroubleText)
      && (messages.Some? ==> AnswerOf(messages) == AnswerFor(Question(messages.value)))
  {
    if messages.Some? {
      AnswerForSpec(Question(messages.value));
    }
  }
}
