/** app/api/rag/populate/route.ts: loads three sample articles into `help_articles` and their
    paragraphs into `text_chunks`, each statement an upsert, each article in its own try/catch. */
module Populate {
  import opened Util
  import opened Text
  import opened Store
  import opened Scraper
  import Chunker

  // The contents of `SAMPLE_ARTICLES`, exactly as the template literals spell them, indentation
  // and blank lines included.

  function GettingStartedContent(): string {
    "\n"
    + "      Welcome to Clipboard Health! This guide will help you get started with our platform.\n"
    + "      \n"
    + "      Clipboard Health connects healthcare professionals with facilities that need staff. Our app makes it easy to find shifts, get paid, and advance your career.\n"
    + "      \n"
    + "      To get started:\n"
    + "      1. Download the Clipboard Health app from the App Store or Google Play\n"
    + "      2. Create an account and complete your profile\n"
    + "      3. Upload your credentials and certifications\n"
    + "      4. Browse and book available shifts\n"
    + "      5. Complete your shifts and get paid\n"
    + "      \n"
    + "      If you have any questions, our support team is available 24/7 to help you.\n"
    + "    "
  }

  function FindingShiftsContent(): string {
    "\n"
    + "      Finding and booking shifts on Clipboard Health is simple.\n"
    + "      \n"
    + "      Open the app and go to the Shifts tab to browse available opportunities. You can filter by:\n"
    + "      - Location and distance\n"
    + "      - Shift type (day, evening, night)\n"
    + "      - Pay rate\n"
    + "      - Facility type\n"
    + "      - Date range\n"
    + "      \n"
    + "      Once you find a shift you like, tap \'Book Shift\' to reserve it. You\'ll receive a confirmation notification once the facility approves your booking.\n"
    + "      \n"
    + "      Pro tip: Set up shift alerts to be notified when new shifts matching your preferences become available.\n"
    + "    "
  }

  function PaymentsContent(): string {
    "\n"
    + "      Clipboard Health makes getting paid simple and transparent.\n"
    + "      \n"
    + "      After completing a shift, your earnings will be processed according to the following schedule:\n"
    + "      - Submit your timesheet within 24 hours of completing your shift\n"
    + "      - Payments are processed weekly for all approved timesheets\n"
    + "      - Direct deposits typically arrive in your bank account within 2-3 business days\n"
    + "      \n"
    + "      You can view your earnings history, including pending and completed payments, in the Earnings tab of the app.\n"
    + "      \n"
    + "      If you have questions about a payment, please contact support with your shift details and we\'ll resolve it quickly.\n"
    + "    "
  }

  /** `SAMPLE_ARTICLES`. */
  const SampleArticles: seq<ScrapedArticle> := [
    ScrapedArticle("Getting Started with Clipboard Health",
                   "https://support.clipboardhealth.com/sample/getting-started",
                   GettingStartedContent()),
    ScrapedArticle("How to Find and Book Shifts",
                   "https://support.clipboardhealth.com/sample/finding-shifts",
                   FindingShiftsContent()),
    ScrapedArticle("Payment and Earnings",
                   "https://support.clipboardhealth.com/sample/payments",
                   PaymentsContent())
  ]

  /** `content.split(/\n\s*\n/).filter((chunk) => chunk.trim().length > 0)`. */
  function NonBlankParagraphs(content: string): (r: seq<string>)
    ensures forall p :: p in r <==> p in Chunker.SplitParagraphs(content) && !IsBlank(p)
  {
    Filter(Chunker.SplitParagraphs(content), (p: string) => |Trim(p)| > 0)
  }

  /** The chunks of the populate route: every non-blank paragraph, trimmed (`chunks[i].trim()`). */
  function PopulateChunks(content: string): (r: seq<string>)
    ensures |r| == |NonBlankParagraphs(content)|
  {
    var ps := NonBlankParagraphs(content);
    seq(|ps|, i requires 0 <= i < |ps| => Trim(ps[i]))
  }

  /** Chunk `i` is non-blank paragraph `i` with exactly its surrounding white space removed, and it is
      never empty, so the `continue` that skips an empty trimmed chunk never runs. */
  lemma PopulateChunksSpec(content: string, i: nat)
    requires i < |PopulateChunks(content)|
    ensures var p, c := NonBlankParagraphs(content)[i], PopulateChunks(content)[i];
      var k := TrimOffset(p);
      && k + |c| <= |p| && c == p[k..k + |c|]
      && IsBlank(p[..k]) && IsBlank(p[k + |c|..])
      && c != [] && !IsWhitespace(c[0]) && !IsWhitespace(c[|c| - 1])
  {
    var p := NonBlankParagraphs(content)[i];
    assert p in NonBlankParagraphs(content);
    assert PopulateChunks(content)[i] == Trim(p);
  }

  lemma PopulateChunkNonEmpty(content: string, i: nat)
    requires i < |PopulateChunks(content)|
    ensures PopulateChunks(content)[i] != []
  {
    PopulateChunksSpec(content, i);
  }

  /** The text stored for chunk `i` of an article, if any. */
  function ChunkTextAt(rows: seq<TextChunk>, articleId: string, i: nat): Option<string> {
    match IndexOfKey(rows, ChunkKey, (articleId, i))
    case Some(k) => Some(rows[k].text)
    case None => None
  }

  /** One chunk statement pair: update the text of the row `(articleId, i)`, or insert it with the
      id the database generates. */
  function UpsertChunk(rows: seq<TextChunk>, articleId: string, i: nat, text: string, newId: string): seq<TextChunk> {
    match IndexOfKey(rows, ChunkKey, (articleId, i))
    case Some(k) => rows[k := rows[k].(text := text)]
    case None => rows + [TextChunk(newId, articleId, i, text)]
  }

  /** After a chunk upsert the key holds the new text, every other key holds what it held, and the
      `(article_id, chunk_index)` constraint still holds. */
  lemma UpsertChunkLookup(rows: seq<TextChunk>, articleId: string, i: nat, text: string, newId: string,
                          a: string, j: nat)
    requires UniqueBy(rows, ChunkKey)
    ensures UniqueBy(UpsertChunk(rows, articleId, i, text, newId), ChunkKey)
    ensures ChunkTextAt(UpsertChunk(rows, articleId, i, text, newId), a, j)
      == if (a, j) == (articleId, i) then Some(text) else ChunkTextAt(rows, a, j)
  {
    var r := UpsertChunk(rows, articleId, i, text, newId);
    var found := IndexOfKey(rows, ChunkKey, (articleId, i));
    if found.Some? {
      assert forall m :: 0 <= m < |rows| ==> ChunkKey(r[m]) == ChunkKey(rows[m]);
      assert UniqueBy(r, ChunkKey);
      IndexOfUniqueKey(r, ChunkKey, found.value);
    } else {
      UniqueSnoc(rows, TextChunk(newId, articleId, i, text), ChunkKey);
      IndexOfUniqueKey(r, ChunkKey, |rows|);
    }
    var other := IndexOfKey(rows, ChunkKey, (a, j));
    if other.Some? {
      IndexOfUniqueKey(r, ChunkKey, other.value);
    }
  }

  /** `text_chunks` after the inner loop has stored chunks `0 .. n-1` of an article. */
  function StoreChunkRows(rows: seq<TextChunk>, articleId: string, chunks: seq<string>,
                          chunkIds: nat -> string, n: nat): seq<TextChunk>
    requires n <= |chunks|
  {
    if n == 0 then rows
    else UpsertChunk(StoreChunkRows(rows, articleId, chunks, chunkIds, n - 1), articleId, n - 1, chunks[n - 1], chunkIds(n - 1))
  }

  lemma {:induction false} StoreChunkRowsUnique(rows: seq<TextChunk>, articleId: string, chunks: seq<string>,
                                                chunkIds: nat -> string, n: nat)
    requires n <= |chunks| && UniqueBy(rows, ChunkKey)
    ensures UniqueBy(StoreChunkRows(rows, articleId, chunks, chunkIds, n), ChunkKey)
    decreases n
  {
    if n > 0 {
      var m := n - 1;
      StoreChunkRowsUnique(rows, articleId, chunks, chunkIds, m);
      var before := StoreChunkRows(rows, articleId, chunks, chunkIds, m);
      var after := StoreChunkRows(rows, articleId, chunks, chunkIds, n);
      assert after == UpsertChunk(before, articleId, m, chunks[m], chunkIds(m));
      UpsertChunkLookup(before, articleId, m, chunks[m], chunkIds(m), articleId, m);
    }
  }

  /** After the inner loop chunk `j < n` of the article holds its text, and every other key,
      including indices at or past `n` left by a longer earlier version, is as it was. */
  lemma {:induction false} StoreChunkRowsLookup(rows: seq<TextChunk>, articleId: string, chunks: seq<string>,
                                                chunkIds: nat -> string, n: nat, a: string, j: nat)
    requires n <= |chunks| && UniqueBy(rows, ChunkKey)
    ensures a == articleId && j < n ==> ChunkTextAt(StoreChunkRows(rows, articleId, chunks, chunkIds, n), a, j) == Some(chunks[j])
    ensures !(a == articleId && j < n) ==>
      ChunkTextAt(StoreChunkRows(rows, articleId, chunks, chunkIds, n), a, j) == ChunkTextAt(rows, a, j)
    decreases n
  {
    if n > 0 {
      var m := n - 1;
      StoreChunkRowsLookup(rows, articleId, chunks, chunkIds, m, a, j);
      StoreChunkRowsUnique(rows, articleId, chunks, chunkIds, m);
      var before := StoreChunkRows(rows, articleId, chunks, chunkIds, m);
      var after := StoreChunkRows(rows, articleId, chunks, chunkIds, n);
      assert after == UpsertChunk(before, articleId, m, chunks[m], chunkIds(m));
      UpsertChunkLookup(before, articleId, m, chunks[m], chunkIds(m), a, j);
      if a == articleId && j == m {
        assert ChunkTextAt(after, a, j) == Some(chunks[j]);
      } else {
        assert ChunkTextAt(after, a, j) == ChunkTextAt(before, a, j);
      }
    }
  }

  /** Where a statement of one article's try block throws: one of the article statements, or the
      chunk statements of chunk `index`. */
  datatype Fault = NoFault | ArticleFails(message: string) | ChunkFails(index: nat, message: string)

  /** An entry of `results`: `status: "success"` with the chunk count, or `status: "error"` with the
      error message. */
  datatype Outcome = Success(title: string, url: string, chunks: nat) | Error(title: string, url: string, message: string)

  /** The two tables the route writes. */
  datatype Tables = Tables(articles: seq<Article>, chunks: seq<TextChunk>)

  /** The fault stops the article before all of its chunks were stored. */
  predicate Interrupts(fault: Fault, chunkCount: nat) {
    fault.ArticleFails? || (fault.ChunkFails? && fault.index < chunkCount)
  }

  /** The number of chunks the inner loop stores before the fault stops it. */
  function StoredCount(fault: Fault, chunkCount: nat): (n: nat)
    ensures n <= chunkCount
    ensures n < chunkCount <==> fault.ChunkFails? && fault.index < chunkCount
  {
    if fault.ChunkFails? && fault.index < chunkCount then fault.index else chunkCount
  }

  /** The tables after one pass of the outer loop body: the article upsert, then the chunks in
      order; a thrown statement ends the pass with the writes made before it. */
  function ProcessArticle(t: Tables, s: ScrapedArticle, fault: Fault, newId: string, chunkIds: nat -> string, now: nat)
    : Tables
  {
    if fault.ArticleFails? then t
    else
      var cs := PopulateChunks(s.content);
      var u := UpsertArticle(t.articles, s, newId, now);
      Tables(u.rows, StoreChunkRows(t.chunks, u.id, cs, chunkIds, StoredCount(fault, |cs|)))
  }

  /** The entry one pass pushes onto `results`. */
  function OutcomeOf(s: ScrapedArticle, fault: Fault): Outcome {
    var cs := PopulateChunks(s.content);
    if fault.ArticleFails? || StoredCount(fault, |cs|) < |cs| then Error(s.title, s.url, fault.message)
    else Success(s.title, s.url, |cs|)
  }

  /** Every entry names its sample; it reports success exactly when the fault did not interrupt the
      article, with the number of chunks the article has, and otherwise carries the thrown message. */
  lemma OutcomeOfSpec(s: ScrapedArticle, fault: Fault)
    ensures var out := OutcomeOf(s, fault);
      && out.title == s.title && out.url == s.url
      && (out.Success? <==> !Interrupts(fault, |PopulateChunks(s.content)|))
      && (out.Success? ==> out.chunks == |PopulateChunks(s.content)|)
      && (out.Error? ==> out.message == fault.message)
  { }

  /** One pass keeps the keys and UNIQUE constraints of both tables, and the only article id it can
      add is the fresh one. */
  lemma ProcessArticleKeys(t: Tables, s: ScrapedArticle, fault: Fault, newId: string, chunkIds: nat -> string, now: nat)
    requires UniqueBy(t.articles, ArticleId) && UniqueBy(t.articles, ArticleUrl) && UniqueBy(t.chunks, ChunkKey)
    requires newId !in ArticleIds(t.articles)
    ensures var t' := ProcessArticle(t, s, fault, newId, chunkIds, now);
      && UniqueBy(t'.articles, ArticleId) && UniqueBy(t'.articles, ArticleUrl) && UniqueBy(t'.chunks, ChunkKey)
      && ArticleIds(t'.articles) <= ArticleIds(t.articles) + {newId}
  {
    if !fault.ArticleFails? {
      var cs := PopulateChunks(s.content);
      UpsertArticleSpec(t.articles, s, newId, now);
      UpsertArticleIds(t.articles, s, newId, now);
      var u := UpsertArticle(t.articles, s, newId, now);
      var n := StoredCount(fault, |cs|);
      StoreChunkRowsUnique(t.chunks, u.id, cs, chunkIds, n);
      assert ProcessArticle(t, s, fault, newId, chunkIds, now) == Tables(u.rows, StoreChunkRows(t.chunks, u.id, cs, chunkIds, n));
    }
  }

  /** What a pass stores: the sample's url row holds its title and content; chunk `j` of it is
      stored for every `j` the loop reached (all of them without a fault); the chunks of every other
      article are untouched. A failing article statement changes nothing. */
  lemma ProcessArticleStoresChunks(t: Tables, s: ScrapedArticle, fault: Fault, newId: string, chunkIds: nat -> string,
                                   now: nat, a: string, j: nat)
    requires UniqueBy(t.articles, ArticleId) && UniqueBy(t.articles, ArticleUrl) && UniqueBy(t.chunks, ChunkKey)
    requires newId !in ArticleIds(t.articles)
    ensures fault.ArticleFails? ==> ProcessArticle(t, s, fault, newId, chunkIds, now) == t
    ensures !fault.ArticleFails? ==>
      var cs := PopulateChunks(s.content);
      var t' := ProcessArticle(t, s, fault, newId, chunkIds, now);
      var id := UpsertArticle(t.articles, s, newId, now).id;
      && (exists k :: 0 <= k < |t'.articles| && t'.articles[k] == Article(id, s.title, s.url, s.content, now))
      && (a == id && j < StoredCount(fault, |cs|) ==> ChunkTextAt(t'.chunks, a, j) == Some(cs[j]))
      && (a != id ==> ChunkTextAt(t'.chunks, a, j) == ChunkTextAt(t.chunks, a, j))
  {
    if !fault.ArticleFails? {
      var cs := PopulateChunks(s.content);
      UpsertArticleSpec(t.articles, s, newId, now);
      var u := UpsertArticle(t.articles, s, newId, now);
      var n := StoredCount(fault, |cs|);
      var rows := StoreChunkRows(t.chunks, u.id, cs, chunkIds, n);
      assert ProcessArticle(t, s, fault, newId, chunkIds, now) == Tables(u.rows, rows);
      StoreChunkRowsLookup(t.chunks, u.id, cs, chunkIds, n, a, j);
    }
  }

  /** The inner loop of one article: upsert chunk `i` under index `i`, until the chunk statements
      of the faulty chunk throw. */
  method StoreArticleChunks(db: Db, articleId: string, chunks: seq<string>, content: string, fault: Fault,
                            chunkIds: nat -> string)
    returns (stored: nat)
    requires db.Valid() && chunks == PopulateChunks(content)
    modifies db`textChunks
    ensures db.Valid()
    ensures stored == StoredCount(fault, |chunks|)
    ensures db.textChunks == StoreChunkRows(old(db.textChunks), articleId, chunks, chunkIds, stored)
  {
    ghost var rows := db.textChunks;
    for i := 0 to |chunks|
      invariant fault.ChunkFails? ==> fault.index >= i
      invariant db.textChunks == StoreChunkRows(rows, articleId, chunks, chunkIds, i)
      invariant db.Valid()
    {
      var chunk := chunks[i];
      PopulateChunkNonEmpty(content, i);
      if |chunk| == 0 {
        assert false;
      }
      if fault.ChunkFails? && fault.index == i {
        return i;
      }
      UpsertChunkLookup(db.textChunks, articleId, i, chunk, chunkIds(i), articleId, i);
      db.textChunks := UpsertChunk(db.textChunks, articleId, i, chunk, chunkIds(i));
    }
    stored := |chunks|;
  }

  /** One iteration of the outer loop as the route runs it: the article upsert, then the inner loop
      over the chunks, then the result entry. */
  method PopulateArticle(db: Db, s: ScrapedArticle, fault: Fault, newId: string, chunkIds: nat -> string, now: nat)
    returns (out: Outcome)
    requires db.Valid() && newId !in ArticleIds(db.articles)
    modifies db`articles, db`textChunks
    ensures db.Valid()
    ensures Tables(db.articles, db.textChunks)
      == ProcessArticle(Tables(old(db.articles), old(db.textChunks)), s, fault, newId, chunkIds, now)
    ensures out == OutcomeOf(s, fault)
  {
    if fault.ArticleFails? {
      return Error(s.title, s.url, fault.message);
    }
    UpsertArticleSpec(db.articles, s, newId, now);
    var u := UpsertArticle(db.articles, s, newId, now);
    db.articles := u.rows;
    var chunks := PopulateChunks(s.content);
    var stored := StoreArticleChunks(db, u.id, chunks, s.content, fault, chunkIds);
    if stored < |chunks| {
      out := Error(s.title, s.url, fault.message);
    } else {
      out := Success(s.title, s.url, |chunks|);
    }
  }

  /** The tables after the outer loop has handled the first `n` samples; `newIds[i]` and
      `chunkIds[i]` are the ids the database would generate for sample `i`. */
  function PopulateRun(t: Tables, samples: seq<ScrapedArticle>, faults: seq<Fault>, newIds: seq<string>,
                       chunkIds: seq<nat -> string>, now: nat, n: nat): Tables
    requires n <= |samples| && n <= |faults| && n <= |newIds| && n <= |chunkIds|
  {
    if n == 0 then t
    else ProcessArticle(PopulateRun(t, samples, faults, newIds, chunkIds, now, n - 1),
                        samples[n - 1], faults[n - 1], newIds[n - 1], chunkIds[n - 1], now)
  }

  /** `f` applied to the first `n` pairs of `xs` and `ys`, in order. */
  function ZipWith<A, B, C>(xs: seq<A>, ys: seq<B>, f: (A, B) -> C, n: nat): (r: seq<C>)
    requires n <= |xs| && n <= |ys|
    ensures |r| == n
  {
    if n == 0 then [] else ZipWith(xs, ys, f, n - 1) + [f(xs[n - 1], ys[n - 1])]
  }

  lemma {:induction false} ZipWithAt<A, B, C>(xs: seq<A>, ys: seq<B>, f: (A, B) -> C, n: nat, k: nat)
    requires n <= |xs| && n <= |ys| && k < n
    ensures ZipWith(xs, ys, f, n)[k] == f(xs[k], ys[k])
    decreases n
  {
    if k < n - 1 {
      ZipWithAt(xs, ys, f, n - 1, k);
    }
  }

  /** The run over `n + 1` samples is one more pass over the run over `n`. */
  lemma PopulateRunStep(t: Tables, samples: seq<ScrapedArticle>, faults: seq<Fault>, newIds: seq<string>,
                        chunkIds: seq<nat -> string>, now: nat, n: nat)
    requires n < |samples| && n < |faults| && n < |newIds| && n < |chunkIds|
    ensures PopulateRun(t, samples, faults, newIds, chunkIds, now, n + 1)
      == ProcessArticle(PopulateRun(t, samples, faults, newIds, chunkIds, now, n), samples[n], faults[n], newIds[n],
                        chunkIds[n], now)
  { }

  /** The outer loop over the samples; `faults[i]`, `newIds[i]` and `chunkIds[i]` belong to sample
      `i`, and the fresh article ids are distinct and new to the table. Every sample gets its
      entry, in order. */
  method PopulateAll(db: Db, samples: seq<ScrapedArticle>, faults: seq<Fault>, newIds: seq<string>,
                     chunkIds: seq<nat -> string>, now: nat)
    returns (results: seq<Outcome>)
    requires db.Valid()
    requires |faults| == |samples| && |newIds| == |samples| && |chunkIds| == |samples|
    requires forall i :: 0 <= i < |newIds| ==> newIds[i] !in ArticleIds(db.articles)
    requires forall i, j :: 0 <= i < j < |newIds| ==> newIds[i] != newIds[j]
    modifies db`articles, db`textChunks
    ensures db.Valid()
    ensures Tables(db.articles, db.textChunks)
      == PopulateRun(Tables(old(db.articles), old(db.textChunks)), samples, faults, newIds, chunkIds, now, |samples|)
    ensures |results| == |samples|
    ensures forall i :: 0 <= i < |samples| ==> results[i] == OutcomeOf(samples[i], faults[i])
  {
    ghost var t0 := Tables(db.articles, db.textChunks);
    results := [];
    for i := 0 to |samples|
      invariant db.Valid()
      invariant Tables(db.articles, db.textChunks) == PopulateRun(t0, samples, faults, newIds, chunkIds, now, i)
      invariant ArticleIds(db.articles) <= ArticleIds(t0.articles) + set k | 0 <= k < i :: newIds[k]
      invariant results == ZipWith(samples, faults, OutcomeOf, i)
    {
      assert newIds[i] !in set k | 0 <= k < i :: newIds[k];
      ProcessArticleKeys(Tables(db.articles, db.textChunks), samples[i], faults[i], newIds[i], chunkIds[i], now);
      PopulateRunStep(t0, samples, faults, newIds, chunkIds, now, i);
      var out := PopulateArticle(db, samples[i], faults[i], newIds[i], chunkIds[i], now);
      results := results + [out];
    }
    forall k | 0 <= k < |samples| ensures results[k] == OutcomeOf(samples[k], faults[k]) {
      ZipWithAt(samples, faults, OutcomeOf, |samples|, k);
    }
  }

  /** The response of `GET`: `{ success: true, processed, results }`, or the status 500 body when
      setting up the tables failed. */
  datatype Response = Populated(processed: nat, results: seq<Outcome>) | SetupFailed(status: nat, error: string)

  /** `GET /api/rag/populate`; the route runs it over `SampleArticles`, stated here for any sample
      list. A failure while creating a missing table is `setupError`. */
  method Get(db: Db, samples: seq<ScrapedArticle>, setupError: Option<string>, faults: seq<Fault>,
             newIds: seq<string>, chunkIds: seq<nat -> string>, now: nat)
    returns (response: Response)
    requires db.Valid()
    requires |faults| == |samples| && |newIds| == |samples| && |chunkIds| == |samples|
    requires forall i :: 0 <= i < |newIds| ==> newIds[i] !in ArticleIds(db.articles)
    requires forall i, j :: 0 <= i < j < |newIds| ==> newIds[i] != newIds[j]
    modifies db`articles, db`textChunks
    ensures db.Valid()
    ensures setupError.Some? ==>
      && response == SetupFailed(500, setupError.value)
      && db.articles == old(db.articles) && db.textChunks == old(db.textChunks)
    ensures setupError.None? ==>
      && response.Populated?
      && response.processed == |samples|
      && |response.results| == |samples|
      && (forall i :: 0 <= i < |samples| ==> response.results[i] == OutcomeOf(samples[i], faults[i]))
      && Tables(db.articles, db.textChunks)
         == PopulateRun(Tables(old(db.articles), old(db.textChunks)), samples, faults, newIds, chunkIds, now, |samples|)
  {
    if setupError.Some? {
      return SetupFailed(500, setupError.value);
    }
    var results := PopulateAll(db, samples, faults, newIds, chunkIds, now);
    response := Populated(|results|, results);
  }
}
