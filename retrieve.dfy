/** app/api/rag/retrieve/route.ts: text retrieval over `text_chunks` joined with `help_articles`.
    Chunks whose text contains the query (case-insensitively) come back with similarity 1.0; when
    none does, the first three chunks by id come back with similarity 0.5. */
module Retrieve {
  import opened Util
  import opened Text
  import opened Store

  /** A chunk together with the article it belongs to: one row of
      `text_chunks tc JOIN help_articles ha ON tc.article_id = ha.id`. */
  datatype Pair = Pair(chunk: TextChunk, article: Article)

  /** A row of the response: `chunk_text`, `title`, `url` and the constant similarity. */
  datatype Row = Row(chunkText: string, title: string, url: string, similarity: real)

  /** The response: 400 for a missing query, the rows, or 500 with the error message. */
  datatype Response = BadRequest(error: string) | Results(rows: seq<Row>) | ServerError(error: string)

  /** The inner join, in `text_chunks` order: every chunk whose article exists, paired with that
      article; chunks of missing articles drop out. */
  function Joined(articles: seq<Article>, chunks: seq<TextChunk>): (r: seq<Pair>)
    ensures |r| <= |chunks|
    ensures forall p :: p in r ==> p.chunk in chunks && p.article in articles && p.article.id == p.chunk.articleId
    ensures forall c, a :: c in chunks && a in articles && a.id == c.articleId ==> exists p :: p in r && p.chunk == c
  {
    if chunks == [] then []
    else
      var c := chunks[|chunks| - 1];
      var rest := Joined(articles, chunks[..|chunks| - 1]);
      assert chunks == chunks[..|chunks| - 1] + [c];
      match IndexOfKey(articles, ArticleId, c.articleId)
      case None => rest
      case Some(k) => rest + [Pair(c, articles[k])]
  }

  /** The `ILIKE '%' || query || '%'` test of a chunk text: it contains the query, ignoring the case
      of ASCII letters and the Kelvin sign. */
  function Like(query: string): string -> bool {
    (text: string) => ContainsIgnoringCase(text, query)
  }

  /** The join rows whose chunk text passes the `WHERE` test `hit`. */
  function Matching(pairs: seq<Pair>, hit: string -> bool): (r: seq<Pair>)
    ensures forall p :: p in r <==> p in pairs && hit(p.chunk.text)
  {
    Filter(pairs, (p: Pair) => hit(p.chunk.text))
  }

  /** The ordering key of `ORDER BY tc.id`. */
  function PairChunkId(p: Pair): string {
    p.chunk.id
  }

  /** The rows of the fallback query: the join ordered by chunk id, `LIMIT 3`. */
  function Fallback(pairs: seq<Pair>): seq<Pair> {
    Take(SortByKey(pairs, PairChunkId), 3)
  }

  /** The response rows for the chosen pairs, all with the same similarity. */
  function RowsOf(pairs: seq<Pair>, similarity: real): (r: seq<Row>)
    ensures |r| == |pairs|
    ensures forall i :: 0 <= i < |pairs| ==>
      r[i] == Row(pairs[i].chunk.text, pairs[i].article.title, pairs[i].article.url, similarity)
  {
    seq(|pairs|, i requires 0 <= i < |pairs| => Row(pairs[i].chunk.text, pairs[i].article.title, pairs[i].article.url, similarity))
  }

  /** The rows the route answers with over the joined chunks: the first three matches at 1.0, or,
      when there is no match, the fallback rows at 0.5. */
  function Answer(pairs: seq<Pair>, hit: string -> bool): seq<Row> {
    var matches := Take(Matching(pairs, hit), 3);
    if |matches| == 0 then RowsOf(Fallback(pairs), 0.5) else RowsOf(matches, 1.0)
  }

  /** `POST /api/rag/retrieve`. `query` is the body's `query` field; `failure` is the message of an
      error thrown by reading the body or by a query. */
  function Post(articles: seq<Article>, chunks: seq<TextChunk>, query: Option<string>, failure: Option<string>)
    : Response
  {
    if failure.Some? then ServerError(failure.value)
    else if !Truthy(query) then BadRequest("Query is required")
    else Results(Answer(Joined(articles, chunks), Like(query.value)))
  }

  /** A missing or empty query is a 400 and an error a 500; every other request gets rows. */
  lemma PostStatus(articles: seq<Article>, chunks: seq<TextChunk>, query: Option<string>, failure: Option<string>)
    ensures var r := Post(articles, chunks, query, failure);
      && (r.ServerError? <==> failure.Some?)
      && (r.BadRequest? <==> failure.None? && (query.None? || query.value == ""))
      && (r.Results? <==> failure.None? && query.Some? && query.value != "")
  { }

  /** With at least one match, the answer holds matches only, at similarity 1.0, as many as there
      are up to three. */
  lemma AnswerMatches(pairs: seq<Pair>, hit: string -> bool, p: Pair, row: Row)
    requires p in pairs && hit(p.chunk.text)
    ensures var rows := Answer(pairs, hit);
      && |rows| == (if |Matching(pairs, hit)| < 3 then |Matching(pairs, hit)| else 3)
      && (row in rows ==> exists q :: q in pairs && hit(q.chunk.text)
                                     && row == Row(q.chunk.text, q.article.title, q.article.url, 1.0))
  {
    var all := Matching(pairs, hit);
    assert p in all;
    var matches := Take(all, 3);
    assert |matches| > 0;
    var rows := RowsOf(matches, 1.0);
    assert Answer(pairs, hit) == rows;
    if row in rows {
      var i :| 0 <= i < |rows| && rows[i] == row;
      var q := matches[i];
      assert q in all;
      assert row == Row(q.chunk.text, q.article.title, q.article.url, 1.0);
    }
  }

  /** Without a match, the answer is the first three pairs in chunk-id order (all of them when there
      are fewer) at similarity 0.5, and no pair left out has a smaller chunk id than one returned. */
  lemma AnswerFallback(pairs: seq<Pair>, hit: string -> bool)
    requires forall p :: p in pairs ==> !hit(p.chunk.text)
    ensures var top := Fallback(pairs);
      && Answer(pairs, hit) == RowsOf(top, 0.5)
      && |top| == (if |pairs| < 3 then |pairs| else 3)
      && SortedByKey(top, PairChunkId)
      && (forall p :: p in top ==> p in pairs)
      && forall p, q :: p in top && q in pairs && q !in top ==> LexLeq(PairChunkId(p), PairChunkId(q))
  {
    var all := Matching(pairs, hit);
    if all != [] {
      assert false;
    }
    FirstByKey(pairs, PairChunkId, 3);
  }

  /** The first `k` of a sort by a string key are the smallest `k`: they come from `xs`, and every
      element of `xs` left out has a key no smaller than any of them. */
  lemma FirstByKey<T>(xs: seq<T>, key: T -> string, k: nat)
    ensures var top := Take(SortByKey(xs, key), k);
      && (forall p :: p in top ==> p in xs)
      && forall p, q :: p in top && q in xs && q !in top ==> LexLeq(key(p), key(q))
  {
    var sorted := SortByKey(xs, key);
    var top := Take(sorted, k);
    SameElements(sorted, xs);
    forall p | p in top ensures p in xs {
      assert p in sorted;
    }
    forall p, q | p in top && q in xs && q !in top ensures LexLeq(key(p), key(q)) {
      var i :| 0 <= i < |top| && top[i] == p;
      assert q in sorted;
      var j :| 0 <= j < |sorted| && sorted[j] == q;
      if j < |top| {
        assert false;
      }
      assert sorted[i] == p;
    }
  }

  /** When some chunk of an existing article contains the query, the response holds only such chunks,
      each with the title and url of its own article and similarity 1.0, as many as there are up to
      three. */
  lemma PostMatches(articles: seq<Article>, chunks: seq<TextChunk>, query: string, c: TextChunk, a: Article, row: Row)
    requires query != ""
    requires c in chunks && a in articles && a.id == c.articleId && ContainsIgnoringCase(c.text, query)
    ensures var r := Post(articles, chunks, Some(query), None); var n := |Matching(Joined(articles, chunks), Like(query))|;
      && r.Results?
      && |r.rows| == (if n < 3 then n else 3)
      && (row in r.rows ==>
            exists c', a' :: c' in chunks && a' in articles && a'.id == c'.articleId && ContainsIgnoringCase(c'.text, query)
                             && row == Row(c'.text, a'.title, a'.url, 1.0))
  {
    var pairs := Joined(articles, chunks);
    var hit := Like(query);
    var p :| p in pairs && p.chunk == c;
    assert hit(p.chunk.text);
    AnswerMatches(pairs, hit, p, row);
    assert Post(articles, chunks, Some(query), None) == Results(Answer(pairs, hit));
    if row in Answer(pairs, hit) {
      var q :| q in pairs && hit(q.chunk.text) && row == Row(q.chunk.text, q.article.title, q.article.url, 1.0);
      assert q.chunk in chunks && q.article in articles && ContainsIgnoringCase(q.chunk.text, query);
    }
  }

  /** When no chunk of an existing article contains the query, the response is the fallback: the
      first three joined chunks by id at similarity 0.5. */
  lemma PostFallback(articles: seq<Article>, chunks: seq<TextChunk>, query: string)
    requires query != ""
    requires forall c, a :: c in chunks && a in articles && a.id == c.articleId ==> !ContainsIgnoringCase(c.text, query)
    ensures var pairs := Joined(articles, chunks);
      Post(articles, chunks, Some(query), None) == Results(RowsOf(Fallback(pairs), 0.5))
  {
    var pairs := Joined(articles, chunks);
    var hit := Like(query);
    forall p | p in pairs ensures !hit(p.chunk.text) {
      assert p.chunk in chunks && p.article in articles;
    }
    AnswerFallback(pairs, hit);
    assert Post(articles, chunks, Some(query), None) == Results(Answer(pairs, hit));
  }
}
