# Flo support chatbot: a Dafny model of its server core

Flo is the Clipboard Health support chatbot, a Next.js application. This project models the server
side of it. That covers:

- help-center ingestion: paragraph chunking, the article upsert by url, and the per-index chunk and
  embedding upserts of the populate route and lib/embeddings.ts;
- retrieval: vector top-K over an abstract similarity, and the text-match route with its 0.5
  fallback;
- the two conversation stores: the Redis session record and the Postgres sessions and messages tables;
- the chat, chat-direct, chat-test, fallback, sessions, history and rag/test routes;
- the small validators and rule engines of the feedback, language and analytics code.

Every Postgres table is a `seq` field of the class `Store.Db`, in insertion order, and the metrics
table is a `map` keyed by session id. The Redis store is the class `ChatHistory.Redis`, holding a map
from key to session record. Ids, timestamps and clocks are parameters. The language models, the
embedding provider and database failures are oracles or flags: a function that returns `None` or a
boolean that says the statement throws.

One module per source file:

| module | file |
|---|---|
| `Chunker`, `Scraper` | lib/help-center-scraper.ts |
| `Embeddings` | lib/embeddings.ts |
| `Store` | lib/db.ts and the tables |
| `ChatHistory` | lib/chat-history.ts |
| `Analytics` | lib/analytics.ts |
| `Language` | lib/language.ts |
| `Populate`, `Retrieve`, `RagTest` | app/api/rag/… |
| `Sessions`, `History`, `Chat`, `ChatDirect`, `ChatTest`, `ChatFallback`, `FeedbackRoute`, `LanguageRoute` | the other routes |

`Util` and `Text` hold the JavaScript semantics the model needs: truthiness, `trim` and the `\s`
class, `toLowerCase` of ASCII letters and the Kelvin sign, `includes`, `slice`, sorting, and `length`
and `substring` counted in UTF-16 code units (a character above U+FFFF counts two).

The chunker checks only the final buffer for blankness (lib/help-center-scraper.ts:135-138). A buffer
it flushes mid-loop is trimmed and pushed unchecked, so a chunk can be `""`:
`Chunker.BlankFlushGivesEmptyChunk` exhibits such an input.

## Model

| member | source | states |
|---|---|---|
| Chunker.ParagraphsJoin | lib/help-center-scraper.ts:120 | `split(/\n\s*\n/)` loses nothing: the paragraphs, rejoined with the matched separators, give back the content, and each separator is a newline, white space, then a newline |
| Chunker.ChunkArticleContent | lib/help-center-scraper.ts:118-141 | the paragraph loop returns the chunks of the packing specification, sizes counted in UTF-16 code units, with `maxChunkSize` defaulting to 1000 |
| Chunker.StepFlushes | lib/help-center-scraper.ts:127-132 | when the buffer is non-empty and its length plus the paragraph's, in UTF-16 code units, exceeds the limit, the trimmed buffer is emitted and the new buffer is the paragraph plus `"\n\n"` |
| Chunker.StepAppends | lib/help-center-scraper.ts:127-132 | otherwise nothing is emitted and the paragraph plus `"\n\n"` is appended to the buffer |
| Chunker.ChunksAreTrimmedGroups | lib/help-center-scraper.ts:128-137 | chunk `i` is the trimmed buffer of group `i`; the final group yields a chunk exactly when its buffer is not blank |
| Chunker.PackKeepsParagraphs | lib/help-center-scraper.ts:120-133 | the groups, concatenated, are exactly the paragraphs in order, so each paragraph lands in one buffer |
| Chunker.PackGroupsNonEmpty | lib/help-center-scraper.ts:127-132 | no flushed group is empty, and the open group is empty only when there are no paragraphs |
| Chunker.PackFits | lib/help-center-scraper.ts:127-132 | inside every group, each paragraph after the first fitted: the buffer before it plus its length, in code units, is at most the limit |
| Chunker.PackOverflows | lib/help-center-scraper.ts:127-132 | every group but the last was flushed because the next group's first paragraph would have taken it past the limit |
| Chunker.PackIsGreedy | lib/help-center-scraper.ts:125-133 | the loop's grouping is a greedy packing: order kept, no empty flushed group, every group fits, every flush was due |
| Chunker.MultiParagraphGroupFits | lib/help-center-scraper.ts:127-132 | a chunk made of two or more paragraphs is at most `maxChunkSize` UTF-16 code units long |
| Chunker.OverlongParagraphAlone | lib/help-center-scraper.ts:127-132 | a paragraph longer than the limit in code units is alone in its group |
| Chunker.PackNoFlush | lib/help-center-scraper.ts:127-132 | when all paragraphs with their separators fit in the limit, in code units, nothing is flushed |
| Chunker.BlankContentHasNoChunks | lib/help-center-scraper.ts:136-138 | white-space-only content no longer than the limit (so with the default 1000) gives no chunks |
| Chunker.BlankFlushGivesEmptyChunk | lib/help-center-scraper.ts:127-129 | a blank paragraph flushed by an overflowing successor is emitted as the empty chunk, since flushes are not checked for blankness |
| Scraper.ArticleWithUrl | lib/help-center-scraper.ts:90-94 | the lookup by url finds a row with that url, and finds none exactly when no row has the url |
| Scraper.UpsertArticleSpec | lib/help-center-scraper.ts:90-110 | ids and urls stay unique; the url's row has the new title and content; an existing url keeps its id and row count; a new url appends one row with the fresh id; other rows are unchanged |
| Scraper.UpsertArticleIds | lib/help-center-scraper.ts:94-110 | the ids after the upsert are the old ids plus the returned id |
| Scraper.UpsertArticleUrls | lib/help-center-scraper.ts:94-110 | the urls after the upsert are the old urls plus the article's url, with at most one row added |
| Scraper.UpsertTwiceSameRow | lib/help-center-scraper.ts:90-101 | storing a second article with the same url returns the same id and adds no row |
| Scraper.StoreHelpArticle | lib/help-center-scraper.ts:87-115 | the method performs the upsert and returns its id; a failing statement is rethrown (`None`) with the table unchanged |
| Embeddings.ZeroVector | lib/embeddings.ts:12 | the fallback vector has 1536 entries, all zero |
| Embeddings.GenerateEmbeddingForText | lib/embeddings.ts:7-26 | blank text and a failing provider give the zero vector; otherwise the provider's vector |
| Embeddings.BlankTextIgnoresProvider | lib/embeddings.ts:10-13 | for blank text the provider is not consulted: any two providers give the same vector |
| Embeddings.UpsertEmbeddingLookup | lib/embeddings.ts:44-62 | after one upsert the key `(article_id, chunk_index)` holds the new text and vector, every other key what it held, and the keys stay unique |
| Embeddings.Embed | lib/embeddings.ts:41 | one vector per chunk, vector `i` being the embedding of chunk `i` |
| Embeddings.StoreChunksUnique | lib/embeddings.ts:36-68 | the chunk loop keeps the `(article_id, chunk_index)` keys unique |
| Embeddings.StoreChunksLookup | lib/embeddings.ts:36-68 | after the loop, chunk `j` is stored under `(articleId, j)` unless its statements failed; failed chunks, other articles and stale indices past the chunk count keep what they held |
| Embeddings.StoreEmbeddingsForArticle | lib/embeddings.ts:29-76 | the loop writes the rows of the chunk upserts, skipping failed chunks, and returns the chunk count even when some chunks failed |
| Embeddings.Joined | lib/embeddings.ts:85-89 | the join yields at most one row per embedding |
| Embeddings.JoinedSpec | lib/embeddings.ts:85-89 | every joined row is an embedding's text with its own article's title and url and the embedding's similarity to the query, and every embedding whose article exists yields such a row |
| Embeddings.FindSimilarContent | lib/embeddings.ts:79-98 | at most `limit` rows (default 3), in descending similarity, and `[]` when the query fails |
| Embeddings.FindSimilarIsTopK | lib/embeddings.ts:85-92 | without a failure the result is the `limit` most similar joined rows: as many as exist up to `limit`, drawn from the join, none less similar than a row left out |
| Populate.NonBlankParagraphs | app/api/rag/populate/route.ts:141 | the kept pieces are exactly the pieces of the blank-line split that are not white space only |
| Populate.PopulateChunks | app/api/rag/populate/route.ts:141-146 | one chunk per non-blank piece |
| Populate.PopulateChunksSpec | app/api/rag/populate/route.ts:141-147 | chunk `i` is non-blank piece `i` with exactly its leading and trailing white space removed, and it is non-empty |
| Populate.PopulateChunkNonEmpty | app/api/rag/populate/route.ts:146-147 | no trimmed chunk is empty, so the `continue` never runs |
| Populate.UpsertChunkLookup | app/api/rag/populate/route.ts:150-168 | after one chunk upsert the key holds the new text, every other key what it held, and the `(article_id, chunk_index)` constraint holds |
| Populate.StoreChunkRowsUnique | app/api/rag/populate/route.ts:145-170 | the inner loop keeps the chunk keys unique |
| Populate.StoreChunkRowsLookup | app/api/rag/populate/route.ts:145-170 | after the inner loop, indices `0 .. n-1` of the article hold their chunks with no gap, and every other key, including stale higher indices, is unchanged |
| Populate.StoredCount | app/api/rag/populate/route.ts:145-170 | the inner loop stores fewer than all chunks exactly when a chunk statement throws at an index below the chunk count |
| Populate.OutcomeOfSpec | app/api/rag/populate/route.ts:172-185 | every result entry names its article; it is a success with the chunk count exactly when nothing threw, and otherwise an error carrying the thrown message |
| Populate.ProcessArticleKeys | app/api/rag/populate/route.ts:112-170 | one pass keeps the article id, article url and chunk key constraints, and adds no article id but the fresh one |
| Populate.ProcessArticleStoresChunks | app/api/rag/populate/route.ts:112-170 | a failing article statement changes nothing; otherwise the article row holds the sample, its chunks up to the failure are stored under their indices, and other articles' chunks are untouched |
| Populate.StoreArticleChunks | app/api/rag/populate/route.ts:145-170 | the inner loop stores the chunks up to the faulty one, as the chunk-upsert specification says |
| Populate.PopulateArticle | app/api/rag/populate/route.ts:108-186 | one outer iteration writes the tables of one pass and returns that sample's result entry |
| Populate.PopulateAll | app/api/rag/populate/route.ts:104-187 | the outer loop applies one pass per sample in order, and produces exactly one entry per sample, in order, even after failures |
| Populate.Get | app/api/rag/populate/route.ts:62-205 | a setup failure is a 500 that writes nothing; otherwise success, with `processed` equal to the number of entries, one per sample |
| Retrieve.Joined | app/api/rag/retrieve/route.ts:21-24 | the inner join pairs every chunk whose article exists with that article, and nothing else |
| Retrieve.Matching | app/api/rag/retrieve/route.ts:25-26 | the matches are exactly the joined rows whose chunk text passes the `ILIKE` test |
| Retrieve.RowsOf | app/api/rag/retrieve/route.ts:16-20 | each response row carries the chunk text and its own article's title and url, at the given similarity |
| Retrieve.PostStatus | app/api/rag/retrieve/route.ts:6-61 | an error is a 500, a missing or empty query a 400, and every other request gets rows |
| Retrieve.AnswerMatches | app/api/rag/retrieve/route.ts:15-33 | with a match, the answer is matches only, at 1.0, as many as there are up to three |
| Retrieve.AnswerFallback | app/api/rag/retrieve/route.ts:33-48 | without a match, the answer is up to three joined rows at 0.5, the smallest chunk ids first |
| Retrieve.FirstByKey | app/api/rag/retrieve/route.ts:44-46 | the first `k` of a sort by key come from the input, and no element left out has a smaller key |
| Retrieve.PostMatches | app/api/rag/retrieve/route.ts:15-51 | a request whose query some chunk of an existing article contains, ignoring case, gets up to three rows, each a matching chunk with its article's title and url at 1.0 |
| Retrieve.PostFallback | app/api/rag/retrieve/route.ts:33-48 | a request that matches nothing gets the fallback rows |
| ChatHistory.KeyInjective | lib/chat-history.ts:29 | different sessions live under different `chat:` keys |
| ChatHistory.CreatedThenFind | lib/chat-history.ts:20-31 | a created session is found, empty, with both timestamps set; other sessions are unchanged |
| ChatHistory.AddedSpec | lib/chat-history.ts:40-58 | adding fails with "Chat session not found" exactly for an unknown session; otherwise exactly the new message is appended, `updatedAt` refreshed, id and `createdAt` kept, and other sessions unchanged |
| ChatHistory.RecentSpec | lib/chat-history.ts:60-65 | `[]` for an unknown session; the last `limit` messages for a positive limit, all of them for `limit` 0, and all but the first `-limit` for a negative one |
| ChatHistory.AddedThenRecent | lib/chat-history.ts:40-65 | after an add, the recent messages end with the new one |
| ChatHistory.Redis.CreateChatSession | lib/chat-history.ts:20-31 | returns the drawn id and stores the empty session under its key |
| ChatHistory.Redis.GetChatSession | lib/chat-history.ts:33-38 | the stored record exactly when the key exists, else null |
| ChatHistory.Redis.AddMessageToSession | lib/chat-history.ts:40-58 | writes the record of the add specification and returns the new message, or fails and writes nothing |
| ChatHistory.Redis.GetRecentMessages | lib/chat-history.ts:60-65 | `[]` for an unknown key, else `messages.slice(-limit)` with `limit` defaulting to 10 |
| Store.Db.CreateChatSession | lib/db.ts:7-14 | appends one session, a missing or empty user id stored as null, and returns its id |
| Store.FindSession | lib/db.ts:16-22 | finds a row with the id, and finds none exactly when no row has it |
| Store.Db.UpdateChatSession | lib/db.ts:24-30 | the table becomes the touched table |
| Store.TouchSession | lib/db.ts:24-30 | only `updated_at` changes, and only on the session's row |
| Store.TouchSessionThenFind | lib/db.ts:24-30 | touching keeps ids unique, finds the same session with the new time, and leaves other sessions as they were |
| Store.StoredMetadata | lib/db.ts:40 | the metadata column is null exactly when the argument is falsy (absent, `null`, `false`, `0`, `""`), and otherwise the argument's `JSON.stringify` text |
| Store.Db.AddMessage | lib/db.ts:33-45 | appends exactly one message, whose metadata column is null for a falsy argument and the serialised argument otherwise, and returns its id |
| Store.SessionMessages | lib/db.ts:47-55 | at most `limit` rows, only the session's, in ascending `created_at` |
| Store.SessionMessagesOldest | lib/db.ts:47-55 | `min(limit, n)` of the session's `n` messages, each listed at most as often as stored, and no message left out is older than one listed: the oldest `limit` |
| Store.SessionMessagesComplete | lib/db.ts:47-55 | with a limit at least the table size, the result is the session's messages, every one exactly once |
| Store.AddedMessageListed | lib/db.ts:33-55 | an added message is listed for its own session and changes no other session's listing |
| Sessions.GetSpec | app/api/sessions/route.ts:6-25 | a failure is a 500; otherwise one summary per session, of an arrangement of exactly the rows, most recently updated first |
| Sessions.Post | app/api/sessions/route.ts:27-71 | a 201 with a fresh session whose user is `'user'` and exactly one assistant welcome message for it; a failed welcome insert is a 500 that keeps the session row |
| History.ResolveSessionId | app/api/history/route.ts:9-16 | the query parameter when it is non-empty, else the cookie |
| History.GetSpec | app/api/history/route.ts:6-50 | no session id gives an empty list; a failure a 500; otherwise each of the session's messages once, as `{id, role, content}`, oldest first |
| Chat.SessionResolution | app/api/chat/route.ts:32-54 | the session is the body's id, else the cookie's, else a newly inserted row, else `"temp-"` and a timestamp; a row is inserted only in the third case |
| Chat.UserRowsSpec | app/api/chat/route.ts:59-71 | at most one user row, written exactly when the last message is the user's and the insert succeeds, holding that message's content |
| Chat.WithSystemPromptSpec | app/api/chat/route.ts:74-85 | the model always sees a system message; client system messages stay in place and nothing is added; otherwise the prompt alone is put in front; the non-system messages are unchanged |
| Chat.ChatResponseSpec | app/api/chat/route.ts:9-152 | an unreadable body and a missing key are the two 500s; otherwise the reply has role assistant and the model is called at temperature 0.7 with 1000 tokens; a model error gives the apology under `"fallback-response"` |
| Chat.ResolveSession | app/api/chat/route.ts:30-54 | the method resolves the session id and writes the rows of the resolution specification |
| Chat.StoreUserMessage | app/api/chat/route.ts:58-71 | the method writes exactly the user rows |
| Chat.StoreReply | app/api/chat/route.ts:100-109 | the method writes the reply row unless the insert fails |
| Chat.Post | app/api/chat/route.ts:9-153 | the response is the specified one; the 500s write nothing; otherwise the session rows, the user row and, on a model answer, the reply row are written in that order |
| ChatDirect.PromptMessagesSpec | app/api/chat-direct/route.ts:73-77 | the prompt comes first and is the only system message; exactly the client's non-system messages follow; without client system messages this equals the chat route's list |
| ChatDirect.PromptMessagesInOrder | app/api/chat-direct/route.ts:73-77 | the messages after the prompt distribute over concatenation of the client's list, and a single client message is forwarded exactly when it is not a system message: the non-system messages in their order and multiplicity |
| ChatDirect.DirectResponseSpec | app/api/chat-direct/route.ts:12-124 | a model error is a 500 here; a success is the model's text; before the model call it answers as the chat route does; the body's `apiKey` changes nothing |
| ChatDirect.Post | app/api/chat-direct/route.ts:9-126 | the response is the specified one; the early 500s write nothing; otherwise session and user rows are written even when the model then fails, and the reply row only on success |
| ChatTest.Search | app/api/chat-test/route.ts:19 | at most `limit` passages, none when the search fails |
| ChatTest.ContextEmpty | app/api/chat-test/route.ts:17-29 | the context is empty exactly when nothing was retrieved |
| ChatTest.BlocksAt | app/api/chat-test/route.ts:24-28 | every passage contributes its own block once, in retrieval order |
| ChatTest.BuildContext | app/api/chat-test/route.ts:17-29 | the loop's string is the header followed by one block per passage, or empty |
| ChatTest.EnhancedSpec | app/api/chat-test/route.ts:36 | the prompt is unchanged without passages, else it is the prompt, `"\n\n"`, the header and the blocks |
| ChatTest.TestCallSpec | app/api/chat-test/route.ts:13-49 | the model call uses the chat model and settings; at most 3 passages for the last message; the enhanced system message first; then the client's non-system messages in order, as the chat-direct route forwards them |
| ChatTest.TestCallPlain | app/api/chat-test/route.ts:30-41 | with no messages or a failing search the system message is the plain prompt |
| ChatTest.Post | app/api/chat-test/route.ts:9-62 | the route with its context loop answers the specified response: the model's text, or a 500 |
| RagTest.RunStepsStops | app/api/rag/test/route.ts:58-67 | once a step has thrown, later urls change nothing |
| RagTest.PopulateRunSpec | app/api/rag/test/route.ts:56-67 | the loop stores urls in order and stops at the first error; all `n` are stored exactly when none fails; the article urls are the old ones plus those of the stored urls |
| RagTest.PopulateArticle | app/api/rag/test/route.ts:58-67 | one iteration fetches, upserts and embeds as the step specifies; a thrown fetch or upsert writes nothing |
| RagTest.PopulateUrls | app/api/rag/test/route.ts:58-67 | the loop's tables and outcome are those of the run |
| RagTest.PopulateDatabase | app/api/rag/test/route.ts:50-70 | a failing section fetch writes nothing; otherwise at most the first 5 urls are handled in order and their count returned, or the error propagated |
| RagTest.Excerpts | app/api/rag/test/route.ts:107-111 | one excerpt per retrieved passage, in order |
| RagTest.ExcerptOfSpec | app/api/rag/test/route.ts:107-111 | an excerpt keeps title and similarity; its text is the longest start of the passage within 100 UTF-16 code units (all of a passage that fits, the first 100 characters of one without astral characters) followed by `"..."` |
| RagTest.TestOfSpec | app/api/rag/test/route.ts:75-113 | a question's entry names it, reports the at most 2 passages retrieved for it in order, and carries the model's answer; a model error gives no entry |
| RagTest.TestsSpec | app/api/rag/test/route.ts:72-117 | there is a report exactly when every question is answered, with one entry per question in order |
| RagTest.RunTest | app/api/rag/test/route.ts:76-113 | one loop iteration computes the question's entry |
| RagTest.RunTests | app/api/rag/test/route.ts:72-117 | the loop over the five test questions computes the report of the specification |
| RagTest.Get | app/api/rag/test/route.ts:21-48 | a count error is a 500; a non-empty table is used as it is; an empty one is populated first, and a populate error is a 500 that keeps what was written |
| ChatFallback.QuestionSpec | app/api/chat-fallback/route.ts:9-10 | the question is the content of the last user message, or `""` when there is none |
| ChatFallback.AnswerForSpec | app/api/chat-fallback/route.ts:13-26 | shifts when the lower-cased question contains "shift"; else payments exactly when it contains "pay"; else cancellations for "cancel"; else the echo for a non-empty question and the greeting for the empty one |
| ChatFallback.AnswerIgnoresCase | app/api/chat-fallback/route.ts:15-23 | lower-casing the question first selects the same keyword answer |
| ChatFallback.EchoQuotes | app/api/chat-fallback/route.ts:24-26 | the echo answer contains the question |
| ChatFallback.FallbackResponseSpec | app/api/chat-fallback/route.ts:3-53 | always status 200 from the assistant with the clock as id; the apology exactly when the body has no messages, else the keyword answer to the question |
| FeedbackRoute.FeedbackResponse | app/api/feedback/route.ts:6-33 | accepted exactly when the body parses, names session and message, and rates 1 to 5; missing fields before range; a rating of 0 with both ids is a range error; a parse error is a 500 |
| FeedbackRoute.Post | app/api/feedback/route.ts:6-33 | only an accepted request writes, one row with null for empty text, so stored ratings stay between 1 and 5 |
| Analytics.CategorizeSpec | lib/analytics.ts:40-68 | the category is always listed: the trimmed answer when it names one exactly, else "Other", also when the model fails |
| Analytics.TrackQuestion | lib/analytics.ts:20-37 | appends one categorised row and returns its id, or returns nothing and writes nothing on failure; stored categories stay listed |
| Analytics.RecordFeedback | lib/analytics.ts:71-80 | appends one row with null for absent or empty text; a failure is swallowed |
| Analytics.UpdateConversationMetrics | lib/analytics.ts:83-148 | only the session's row changes, to the upsert of the old row (count, running average, replaced-if-supplied fields, or falsy-defaulted insert); a failure changes nothing |
| Analytics.RunningMean | lib/analytics.ts:110-143 | when each call reports one response time and omits the count, the row's count and average are the count and mean of all reported times |
| Analytics.AverageRatingSpec | lib/analytics.ts:213-238 | no feedback gives 0; ratings between 1 and 5 average between 1 and 5 |
| Language.CodesUnique | lib/language.ts:6-17 | no two supported languages share a code |
| Language.DetectLanguageSpec | lib/language.ts:23-53 | the detected code is always supported: the trimmed, lower-cased reply (ASCII letters and the Kelvin sign lowered) when supported, "en" otherwise or on error |
| Language.LookupSpec | lib/language.ts:85-94 | a listed code gets its own name and flag; an unknown one "English" and the US flag |
| Language.TranslateText | lib/language.ts:56-82 | English and a failed call return the text unchanged |
| Language.TranslationTrimmed | lib/language.ts:77 | a returned translation is passed on trimmed |
| Language.LocalizeSystemPrompt | lib/language.ts:146-173 | English and a failed call return the prompt unchanged |
| Language.LocalizationTrimmed | lib/language.ts:168 | a returned localisation is passed on trimmed |
| Language.SetLanguage | lib/language.ts:110-118 | the update keeps the row count and every row's id |
| Language.SetLanguageSpec | lib/language.ts:110-143 | only the session's metadata changes: `language` becomes the code, other keys stay (null counts as `{}`), other sessions stay, and reading back gives the code, or "en" for an empty one |
| Language.SetUserLanguagePreference | lib/language.ts:97-123 | an unknown session throws "Session not found" and changes nothing; otherwise the metadata update |
| LanguageRoute.Post | app/api/language/route.ts:7-36 | missing fields are a 400; the preference is stored first and the year-long cookie set only after; an unknown session is a 500 with no cookie; success exactly when the cookie is set |
| LanguageRoute.Get | app/api/language/route.ts:38-63 | "en" without a session id, else the cookie value or "en"; never empty |
| LanguageRoute.PostThenGet | app/api/language/route.ts:16-52 | after a successful POST, the GET with its cookie and the stored metadata both give the code |

## Left out

- The language models, the embedding provider and pgvector's `<=>` are oracles: functions from the call to `Option`, and a similarity function over `real` vectors. The prompts' wording, temperature 0.3 and token limits of the analytics and language calls, and floating-point arithmetic are not modelled.
- `fetchHelpCenterArticle` and `fetchHelpCenterSection` (HTTP, JSDOM, URL resolution) are not part of this model. The rag/test route takes their results as a `fetch` function and an optional url list.
- lib/system-prompt.ts is the parameter `prompt`. lib/redis.ts and the client set-up at lib/db.ts:4 are configuration.
- Ids (`gen_random_uuid()`, `nanoid()`, `crypto.randomUUID()`) and timestamps (`CURRENT_TIMESTAMP`, `Date.now()`) are parameters. Methods that insert require the new ids to be fresh.
- Chunk ids generated for `text_chunks` are not tracked for uniqueness. Only the `(article_id, chunk_index)` key is.
- Table creation in the populate route is reduced to one optional setup error.
- Populate.Get: stated for any list of samples. `SAMPLE_ARTICLES` is written out as `Populate.SampleArticles` but no proved member refers to it.
- Retrieve.AnswerMatches: the matching query orders by a constant similarity, so SQL leaves the choice among more than three matches open. The model takes the first three in join order.
- Retrieve.Like: `ILIKE` is a plain substring test ignoring the case of ASCII letters and the Kelvin sign. The `%` and `_` wildcards inside a query, the backslash that escapes them (so `50\%` matches the text "50%" in Postgres but is searched for literally here) and Unicode case folding are not modelled.
- Embeddings.FindSimilarContent: the order among rows of equal similarity is one fixed order, where the database may choose any.
- Sessions.GetSpec: sessions with equal `updated_at` come in their table order, the order of the model's stable sort; Postgres leaves their order open.
- Store.SessionMessages: the order among messages with equal `created_at`, and so which of them a cutting limit keeps, is the model's stable sort; Postgres leaves it open.
- RagTest.ExcerptOfSpec: when the 100th code unit is the first half of a surrogate pair, `substring(0, 100)` keeps a lone surrogate, which a string of Unicode scalar values cannot hold; the model stops before that character, one code unit short.
- Language.DetectLanguageSpec: lower-casing covers ASCII letters and the Kelvin sign, the only characters JavaScript lower-cases to a single ASCII letter; other letters keep their case and U+0130 is not expanded to `"i\u0307"`. No such result can be a language code or contain "shift", "pay" or "cancel", so the detected code and the fallback route's choice of answer agree with the source's.
- ChatHistory: the seven-day TTL and JSON (de)serialisation of the record are not modelled.
- Cookies are modelled only as the value the language route sets and reads. The `chat_session_id` cookie that the chat, chat-direct and sessions routes set, and its expiry, are not modelled.
- Store.Db.AddMessage: `JSON.stringify` is the parameter `stringify`, and `NaN` (also falsy) is not a value of the `Json` type. The routes pass no metadata.
- Request bodies are reduced to their fields as `Option` values, or a parse error. JavaScript coercions of non-string ids, non-number ratings and `null` fields are not modelled; ratings are `real`.
- Analytics.UpdateConversationMetrics: one metrics row per session (a map), a non-negative stored count, and no negative supplied count.
- The analytics queries `getSimilarQuestions`, `getQuestionAnalytics`, `getConversationMetrics` and the SQL aggregates of `getFeedbackAnalytics` are not modelled. The exception is the default of `averageRating`.
- Language.SetUserLanguagePreference: database errors other than the missing session are not modelled.
- The debug, debug-claude, articles and analytics routes, all pages and components, logging, and cross-request concurrency are not modelled.
- RagTest.Get: error messages are not carried; a failure is one `TestsFailed` report. Failures of the similarity search are one flag for all questions.
