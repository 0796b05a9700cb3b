/** app/api/rag/test/route.ts: fill an empty help-article table from the first help-center
    articles, then ask the model the five test questions with retrieved context and report what was
    retrieved and answered. */
module RagTest {
  import opened Util
  import opened Store
  import opened Scraper
  import opened Embeddings
  import Chunker
  import opened Text
  import opened Chat
  import opened ChatTest

  /** The questions the route asks, in this order. */
  const TestQuestions: seq<string> := [
    "How do I get paid through Clipboard Health?",
    "What should I do if I need to cancel a shift?",
    "How does the rating system work on Clipboard Health?",
    "What documents do I need to upload to get started?",
    "How do I find shifts that pay the most?"
  ]

  /** How many article urls of the section are fetched at most. */
  const ArticleLimit: nat := 5

  /** The two tables the population writes. */
  datatype Tables = Tables(articles: seq<Article>, embeddings: seq<Embedding>)

  /** The state after part of the population: the tables, how many articles were stored completely,
      and whether no step has thrown so far. */
  datatype Run = Run(tables: Tables, stored: nat, ok: bool)

  /** `storeHelpArticle` followed by `storeEmbeddingsForArticle` for one fetched article. */
  function StoreArticle(t: Tables, a: ScrapedArticle, newId: string, now: nat,
                        provider: string -> Option<seq<real>>, embedFails: nat -> bool): Tables
  {
    var u := UpsertArticle(t.articles, a, newId, now);
    var chunks := Chunker.Chunks(a.content);
    Tables(u.rows, StoreChunks(t.embeddings, u.id, chunks, Embed(chunks, provider), embedFails, |chunks|))
  }

  /** One url: fetch it, then upsert and embed the article. `fetch(url)` is the title and content
      `fetchHelpCenterArticle` scrapes, or `None` when it throws; `storeFails` is an error of the
      article upsert. Either error gives `None`. */
  function FetchAndStore(t: Tables, url: string, fetch: string -> Option<(string, string)>, newId: string, now: nat,
                         storeFails: bool, provider: string -> Option<seq<real>>, embedFails: nat -> bool): Option<Tables>
  {
    match fetch(url)
    case None => None
    case Some((title, content)) =>
      if storeFails then None
      else Some(StoreArticle(t, ScrapedArticle(title, url, content), newId, now, provider, embedFails))
  }

  /** A loop over steps `0 .. n - 1` that stops at the first step failing (`None`). */
  function RunSteps(t: Tables, step: (Tables, nat) -> Option<Tables>, n: nat): Run {
    if n == 0 then Run(t, 0, true)
    else
      var r := RunSteps(t, step, n - 1);
      if !r.ok then r
      else match step(r.tables, n - 1)
        case None => r.(ok := false)
        case Some(next) => Run(next, r.stored + 1, true)
  }

  /** Once a step has failed, later steps change nothing. */
  lemma {:induction false} RunStepsStops(t: Tables, step: (Tables, nat) -> Option<Tables>, m: nat, n: nat)
    requires m <= n && !RunSteps(t, step, m).ok
    ensures RunSteps(t, step, n) == RunSteps(t, step, m)
    decreases n - m
  {
    if m < n {
      RunStepsStops(t, step, m, n - 1);
    }
  }

  /** After `i` steps without a failure, the loop goes on with step `i`. */
  lemma RunStepsNext(t: Tables, step: (Tables, nat) -> Option<Tables>, i: nat, current: Tables)
    requires RunSteps(t, step, i) == Run(current, i, true)
    ensures step(current, i).None? ==> !RunSteps(t, step, i + 1).ok
    ensures step(current, i).Some? ==> RunSteps(t, step, i + 1) == Run(step(current, i).value, i + 1, true)
  { }

  /** Step `i` of the population: fetch url `i` and store it under the id `newIds[i]`. */
  function PopulateStep(urls: seq<string>, fetch: string -> Option<(string, string)>, newIds: seq<string>,
                        now: nat, storeFails: nat -> bool, provider: string -> Option<seq<real>>,
                        embedFails: nat -> nat -> bool): (Tables, nat) -> Option<Tables>
  {
    (t: Tables, i: nat) =>
      if i < |urls| && i < |newIds| then
        FetchAndStore(t, urls[i], fetch, newIds[i], now, storeFails(i), provider, embedFails(i))
      else None
  }

  /** The population loop over the first `n` urls; the first error ends the loop and the route. */
  function PopulateRun(t: Tables, urls: seq<string>, fetch: string -> Option<(string, string)>, newIds: seq<string>,
                       now: nat, storeFails: nat -> bool, provider: string -> Option<seq<real>>,
                       embedFails: nat -> nat -> bool, n: nat): Run
    requires n <= |urls| && n <= |newIds|
  {
    RunSteps(t, PopulateStep(urls, fetch, newIds, now, storeFails, provider, embedFails), n)
  }

  /** The loop stores the urls in order and stops at the first that throws: without an error all `n`
      urls are stored, otherwise fewer. The urls in the article table are the old ones and those of
      the stored urls, and the table grows by at most one row per stored url. */
  lemma {:induction false} PopulateRunSpec(t: Tables, urls: seq<string>, fetch: string -> Option<(string, string)>,
                                           newIds: seq<string>, now: nat, storeFails: nat -> bool,
                                           provider: string -> Option<seq<real>>, embedFails: nat -> nat -> bool,
                                           n: nat)
    requires n <= |urls| && n <= |newIds|
    ensures var r := PopulateRun(t, urls, fetch, newIds, now, storeFails, provider, embedFails, n);
      && (r.ok <==> r.stored == n)
      && r.stored <= n
      && ArticleUrls(r.tables.articles) == ArticleUrls(t.articles) + (set k | 0 <= k < r.stored :: urls[k])
      && |r.tables.articles| <= |t.articles| + r.stored
    decreases n
  {
    if n > 0 {
      var step := PopulateStep(urls, fetch, newIds, now, storeFails, provider, embedFails);
      var r := RunSteps(t, step, n - 1);
      PopulateRunSpec(t, urls, fetch, newIds, now, storeFails, provider, embedFails, n - 1);
      if !r.ok {
        assert RunSteps(t, step, n) == r;
      } else {
        PopulateStepArticles(urls, fetch, newIds, now, storeFails, provider, embedFails, r.tables, n - 1);
        if fetch(urls[n - 1]).Some? && !storeFails(n - 1) {
          var a := ScrapedArticle(fetch(urls[n - 1]).value.0, urls[n - 1], fetch(urls[n - 1]).value.1);
          UpsertArticleUrls(r.tables.articles, a, newIds[n - 1], now);
          PrefixElementsSnoc(urls, n);
          assert RunSteps(t, step, n) == Run(step(r.tables, n - 1).value, r.stored + 1, true);
        } else {
          assert RunSteps(t, step, n) == r.(ok := false);
        }
      }
    }
  }

  /** A step of the population succeeds exactly when its fetch and its upsert do, and then the
      article table is the table after the upsert. */
  lemma PopulateStepArticles(urls: seq<string>, fetch: string -> Option<(string, string)>, newIds: seq<string>,
                             now: nat, storeFails: nat -> bool, provider: string -> Option<seq<real>>,
                             embedFails: nat -> nat -> bool, tables: Tables, i: nat)
    requires i < |urls| && i < |newIds|
    ensures var o := PopulateStep(urls, fetch, newIds, now, storeFails, provider, embedFails)(tables, i);
      && (o.Some? <==> fetch(urls[i]).Some? && !storeFails(i))
      && (o.Some? ==> o.value.articles == UpsertArticle(tables.articles,
            ScrapedArticle(fetch(urls[i]).value.0, urls[i], fetch(urls[i]).value.1), newIds[i], now).rows)
  {
    var o := PopulateStep(urls, fetch, newIds, now, storeFails, provider, embedFails)(tables, i);
    assert o == FetchAndStore(tables, urls[i], fetch, newIds[i], now, storeFails(i), provider, embedFails(i));
    if fetch(urls[i]).Some? && !storeFails(i) {
      var a := ScrapedArticle(fetch(urls[i]).value.0, urls[i], fetch(urls[i]).value.1);
      assert o == Some(StoreArticle(tables, a, newIds[i], now, provider, embedFails(i)));
    }
  }

  /** The body of the `populateDatabase` loop for url `i`: fetch, upsert, embed. The result says
      whether it got through without an error; a thrown fetch or upsert writes nothing. */
  method PopulateArticle(db: Db, urls: seq<string>, fetch: string -> Option<(string, string)>, newIds: seq<string>,
                         now: nat, storeFails: nat -> bool, provider: string -> Option<seq<real>>,
                         embedFails: nat -> nat -> bool, i: nat)
    returns (ok: bool)
    requires i < |urls| && i < |newIds|
    requires db.Valid() && newIds[i] !in ArticleIds(db.articles)
    modifies db`articles, db`embeddings
    ensures db.Valid()
    ensures var next := PopulateStep(urls, fetch, newIds, now, storeFails, provider, embedFails)
                          (Tables(old(db.articles), old(db.embeddings)), i);
      && (ok <==> next.Some?)
      && (!ok ==> db.articles == old(db.articles) && db.embeddings == old(db.embeddings))
      && (ok ==> Tables(db.articles, db.embeddings) == next.value)
    ensures ArticleIds(db.articles) <= ArticleIds(old(db.articles)) + {newIds[i]}
  {
    var url, newId := urls[i], newIds[i];
    assert PopulateStep(urls, fetch, newIds, now, storeFails, provider, embedFails)(Tables(db.articles, db.embeddings), i)
        == FetchAndStore(Tables(db.articles, db.embeddings), url, fetch, newId, now, storeFails(i), provider, embedFails(i));
    var fetched := fetch(url);
    if fetched.None? {
      return false;
    }
    var article := ScrapedArticle(fetched.value.0, url, fetched.value.1);
    UpsertArticleIds(db.articles, article, newId, now);
    UpsertArticleSpec(db.articles, article, newId, now);
    var articleId := StoreHelpArticle(db, article, newId, now, storeFails(i));
    if articleId.None? {
      return false;
    }
    var _ := StoreEmbeddingsForArticle(db, articleId.value, article.content, provider, embedFails(i));
    ok := true;
  }

  /** The `populateDatabase` loop over the given urls; the result says whether every url got
      through without an error, and the tables are those of the run. */
  method PopulateUrls(db: Db, urls: seq<string>, fetch: string -> Option<(string, string)>,
                      newIds: seq<string>, now: nat, storeFails: nat -> bool,
                      provider: string -> Option<seq<real>>, embedFails: nat -> nat -> bool)
    returns (ok: bool)
    requires db.Valid()
    requires |urls| <= |newIds|
    requires forall i :: 0 <= i < |newIds| ==> newIds[i] !in ArticleIds(db.articles)
    requires forall i, j :: 0 <= i < j < |newIds| ==> newIds[i] != newIds[j]
    modifies db`articles, db`embeddings
    ensures db.Valid()
    ensures var r := PopulateRun(Tables(old(db.articles), old(db.embeddings)), urls, fetch, newIds, now, storeFails,
                                 provider, embedFails, |urls|);
      Tables(db.articles, db.embeddings) == r.tables && ok == r.ok
  {
    ghost var t0 := Tables(db.articles, db.embeddings);
    ghost var step := PopulateStep(urls, fetch, newIds, now, storeFails, provider, embedFails);
    for i := 0 to |urls|
      invariant db.Valid()
      invariant RunSteps(t0, step, i) == Run(Tables(db.articles, db.embeddings), i, true)
      invariant forall k :: i <= k < |newIds| ==> newIds[k] !in ArticleIds(db.articles)
    {
      RunStepsNext(t0, step, i, Tables(db.articles, db.embeddings));
      var stepOk := PopulateArticle(db, urls, fetch, newIds, now, storeFails, provider, embedFails, i);
      if !stepOk {
        RunStepsStops(t0, step, i + 1, |urls|);
        return false;
      }
    }
    ok := true;
  }

  /** `populateDatabase()`: the first `ArticleLimit` urls of the help-center section (`section` is
      the list `fetchHelpCenterSection` returns, `None` when it throws) are fetched, upserted and
      embedded, in order; `newIds[i]` is the id the database would give article `i`. The result is
      the number of urls handled, or `None` when a step threw. */
  method PopulateDatabase(db: Db, section: Option<seq<string>>, fetch: string -> Option<(string, string)>,
                          newIds: seq<string>, now: nat, storeFails: nat -> bool,
                          provider: string -> Option<seq<real>>, embedFails: nat -> nat -> bool)
    returns (count: Option<nat>)
    requires db.Valid()
    requires |newIds| >= ArticleLimit
    requires forall i :: 0 <= i < |newIds| ==> newIds[i] !in ArticleIds(db.articles)
    requires forall i, j :: 0 <= i < j < |newIds| ==> newIds[i] != newIds[j]
    modifies db`articles, db`embeddings
    ensures db.Valid()
    ensures section.None? ==>
      count.None? && db.articles == old(db.articles) && db.embeddings == old(db.embeddings)
    ensures section.Some? ==>
      var urls := Take(section.value, ArticleLimit);
      var r := PopulateRun(Tables(old(db.articles), old(db.embeddings)), urls, fetch, newIds, now, storeFails,
                           provider, embedFails, |urls|);
      && Tables(db.articles, db.embeddings) == r.tables
      && (r.ok ==> count == Some(|urls|))
      && (!r.ok ==> count.None?)
  {
    if section.None? {
      return None;
    }
    var limitedUrls := Take(section.value, ArticleLimit);
    var ok := PopulateUrls(db, limitedUrls, fetch, newIds, now, storeFails, provider, embedFails);
    count := if ok then Some(|limitedUrls|) else None;
  }

  /** What a result reports of one retrieved passage. */
  datatype Excerpt = Excerpt(title: string, similarity: real, excerpt: string)

  /** The entry of one test question. */
  datatype TestResult = TestResult(question: string, retrievedContent: seq<Excerpt>, response: string)

  /** The passage's title and similarity, and the first 100 code units of its text followed by
      `"..."`. */
  function ExcerptOf(c: Similar): Excerpt {
    Excerpt(c.title, c.similarity, Utf16Prefix(c.chunkText, 100) + "...")
  }

  /** `similarContent.map(...)`: the excerpt of every passage, in order. */
  function Excerpts(similar: seq<Similar>): (r: seq<Excerpt>)
    ensures |r| == |similar|
    ensures forall i :: 0 <= i < |similar| ==> r[i] == ExcerptOf(similar[i])
  {
    seq(|similar|, i requires 0 <= i < |similar| => ExcerptOf(similar[i]))
  }

  /** The call for one question: the enhanced system prompt and the question alone, with at most
      500 tokens. */
  function QuestionCall(question: string, similar: seq<Similar>, prompt: string): ModelCall {
    ModelCall(ModelName, [ChatMessage("system", Enhanced(prompt, Context(similar))), ChatMessage("user", question)],
              0.7, 500)
  }

  /** One question: retrieve 2 passages, ask the model; `None` when the model throws. */
  function TestOf(question: string, corpus: Corpus, model: ModelCall -> Option<string>, prompt: string): Option<TestResult> {
    var similar := Search(corpus, question, 2);
    match model(QuestionCall(question, similar, prompt))
    case None => None
    case Some(text) =>
      Some(TestResult(question, Excerpts(similar), text))
  }

  /** An excerpt keeps the passage's title and similarity; its text is the longest start of the
      passage within 100 code units (all of a passage that fits) followed by `"..."`. For a passage
      of Basic Multilingual Plane characters that is its first 100 characters. */
  lemma ExcerptOfSpec(c: Similar)
    ensures var e := ExcerptOf(c); var t := c.chunkText; var p := e.excerpt[..|e.excerpt| - 3];
      && e.title == c.title && e.similarity == c.similarity
      && |e.excerpt| >= 3 && e.excerpt == p + "..."
      && |p| <= |t| && p == t[..|p|] && Utf16Length(p) <= 100
      && (p == t || Utf16Length(p) + CodeUnits(t[|p|]) > 100)
      && (Utf16Length(t) <= 100 ==> p == t)
      && ((forall i :: 0 <= i < |t| ==> t[i] as int <= 0xFFFF) ==> |p| == if |t| < 100 then |t| else 100)
  {
    var t := c.chunkText;
    var p := Utf16Prefix(t, 100);
    assert (p + "...")[..|p|] == p;
    Utf16PrefixSpec(t, 100);
    if Utf16Length(t) <= 100 {
      Utf16PrefixWhole(t, 100);
    }
    if forall i :: 0 <= i < |t| ==> t[i] as int <= 0xFFFF {
      Utf16LengthOfBmp(p);
    }
  }

  /** The entry of a question names it, reports the at most 2 passages retrieved for it, in
      retrieval order, and carries the model's answer to the question with that context; without an
      answer there is no entry. */
  lemma TestOfSpec(question: string, corpus: Corpus, model: ModelCall -> Option<string>, prompt: string)
    ensures var similar := Search(corpus, question, 2);
      var answer := model(QuestionCall(question, similar, prompt));
      var r := TestOf(question, corpus, model, prompt);
      && (r.None? <==> answer.None?)
      && (r.Some? ==>
            && r.value.question == question
            && r.value.response == answer.value
            && |r.value.retrievedContent| == |similar| <= 2
            && forall i :: 0 <= i < |similar| ==> r.value.retrievedContent[i] == ExcerptOf(similar[i]))
  { }

  /** `TestOf` for a fixed corpus, model and prompt. */
  function Tester(corpus: Corpus, model: ModelCall -> Option<string>, prompt: string): string -> Option<TestResult> {
    question => TestOf(question, corpus, model, prompt)
  }

  /** The entries for the questions, or `None` when the model throws on one of them. */
  function Tests(questions: seq<string>, corpus: Corpus, model: ModelCall -> Option<string>, prompt: string)
    : Option<seq<TestResult>>
  {
    Collect(questions, Tester(corpus, model, prompt), |questions|)
  }

  /** There is a report exactly when every question gets an answer, and then it holds exactly one
      entry per question, in the questions' order. */
  lemma TestsSpec(questions: seq<string>, corpus: Corpus, model: ModelCall -> Option<string>, prompt: string)
    ensures var r := Tests(questions, corpus, model, prompt);
      && (r.Some? <==> forall k :: 0 <= k < |questions| ==> TestOf(questions[k], corpus, model, prompt).Some?)
      && (r.Some? ==>
            && |r.value| == |questions|
            && forall k :: 0 <= k < |questions| ==> r.value[k] == TestOf(questions[k], corpus, model, prompt).value)
  {
    CollectSpec(questions, Tester(corpus, model, prompt), |questions|);
  }

  /** The body of the `runTests` loop for one question. */
  method RunTest(question: string, corpus: Corpus, model: ModelCall -> Option<string>, prompt: string)
    returns (result: Option<TestResult>)
    ensures result == TestOf(question, corpus, model, prompt)
  {
    var similarContent := Search(corpus, question, 2);
    var contextualInformation := BuildContext(similarContent);
    var enhancedSystemPrompt := Enhanced(prompt, contextualInformation);
    var call := ModelCall(ModelName, [ChatMessage("system", enhancedSystemPrompt), ChatMessage("user", question)],
                          0.7, 500);
    assert call == QuestionCall(question, similarContent, prompt);
    var answer := model(call);
    if answer.None? {
      return None;
    }
    result := Some(TestResult(question, Excerpts(similarContent), answer.value));
  }

  /** `runTests()`: the questions of `TestQuestions` in order; a model error ends the loop. */
  method RunTests(corpus: Corpus, model: ModelCall -> Option<string>, prompt: string)
    returns (results: Option<seq<TestResult>>)
    ensures results == Tests(TestQuestions, corpus, model, prompt)
  {
    var done: seq<TestResult> := [];
    for i := 0 to |TestQuestions|
      invariant Collect(TestQuestions, Tester(corpus, model, prompt), i) == Some(done)
    {
      var result := RunTest(TestQuestions[i], corpus, model, prompt);
      TestsNext(TestQuestions, corpus, model, prompt, i, done, result);
      if result.None? {
        return None;
      }
      done := done + [result.value];
    }
    return Some(done);
  }

  /** One iteration of the `runTests()` loop: a missing answer ends the report, and an answer
      extends the entries so far by its own entry. */
  lemma TestsNext(questions: seq<string>, corpus: Corpus, model: ModelCall -> Option<string>, prompt: string,
                  i: nat, done: seq<TestResult>, result: Option<TestResult>)
    requires i < |questions| && Collect(questions, Tester(corpus, model, prompt), i) == Some(done)
    requires result == TestOf(questions[i], corpus, model, prompt)
    ensures result.None? ==> Tests(questions, corpus, model, prompt).None?
    ensures result.Some? ==> Collect(questions, Tester(corpus, model, prompt), i + 1) == Some(done + [result.value])
  {
    var tester := Tester(corpus, model, prompt);
    assert tester(questions[i]) == result;
    CollectNext(questions, tester, i, done);
    if result.None? {
      CollectStops(questions, tester, i + 1, |questions|);
    }
  }

  /** The response: `{ success: true, testResults }`, or 500 with `success: false`. */
  datatype Report = Tested(testResults: seq<TestResult>) | TestsFailed

  /** The response for the outcome of `runTests`. */
  function ReportOf(tests: Option<seq<TestResult>>): Report {
    if tests.Some? then Tested(tests.value) else TestsFailed
  }

  /** The tests over a corpus built from the two tables. */
  function TestsOver(t: Tables, provider: string -> Option<seq<real>>, similarity: (seq<real>, seq<real>) -> real,
                     searchFails: bool, model: ModelCall -> Option<string>, prompt: string): Option<seq<TestResult>>
  {
    Tests(TestQuestions, Corpus(t.embeddings, t.articles, provider, similarity, searchFails), model, prompt)
  }

  /** `GET /api/rag/test`. `countFails` is an error of the article count; `searchFails` one of the
      similarity queries, which the search swallows. A table that has articles is used as it is; an
      empty one is populated first, and a populate error is a 500 that keeps what was written. */
  method Get(db: Db, countFails: bool, section: Option<seq<string>>, fetch: string -> Option<(string, string)>,
             newIds: seq<string>, now: nat, storeFails: nat -> bool, provider: string -> Option<seq<real>>,
             embedFails: nat -> nat -> bool, similarity: (seq<real>, seq<real>) -> real, searchFails: bool,
             model: ModelCall -> Option<string>, prompt: string)
    returns (report: Report)
    requires db.Valid()
    requires |newIds| >= ArticleLimit
    requires forall i :: 0 <= i < |newIds| ==> newIds[i] !in ArticleIds(db.articles)
    requires forall i, j :: 0 <= i < j < |newIds| ==> newIds[i] != newIds[j]
    modifies db`articles, db`embeddings
    ensures db.Valid()
    ensures countFails ==>
      report == TestsFailed && db.articles == old(db.articles) && db.embeddings == old(db.embeddings)
    ensures !countFails && |old(db.articles)| > 0 ==>
      && db.articles == old(db.articles) && db.embeddings == old(db.embeddings)
      && report == ReportOf(TestsOver(Tables(db.articles, db.embeddings), provider, similarity, searchFails, model, prompt))
    ensures !countFails && |old(db.articles)| == 0 && section.None? ==>
      report == TestsFailed && db.articles == old(db.articles) && db.embeddings == old(db.embeddings)
    ensures !countFails && |old(db.articles)| == 0 && section.Some? ==>
      var urls := Take(section.value, ArticleLimit);
      var r := PopulateRun(Tables(old(db.articles), old(db.embeddings)), urls, fetch, newIds, now, storeFails,
                           provider, embedFails, |urls|);
      && Tables(db.articles, db.embeddings) == r.tables
      && report == (if r.ok then ReportOf(TestsOver(r.tables, provider, similarity, searchFails, model, prompt))
                    else TestsFailed)
  {
    if countFails {
      return TestsFailed;
    }
    if |db.articles| == 0 {
      var populated := PopulateDatabase(db, section, fetch, newIds, now, storeFails, provider, embedFails);
      if populated.None? {
        return TestsFailed;
      }
    }
    var testResults := RunTests(Corpus(db.embeddings, db.articles, provider, similarity, searchFails), model, prompt);
    if testResults.None? {
      return TestsFailed;
    }
    return Tested(testResults.value);
  }
}
