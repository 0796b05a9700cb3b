/** lib/embeddings.ts: embeddings with a zero-vector fallback, the per-chunk embedding upsert, and
    the top-K similarity search over the `embeddings` table. The embedding provider is a function
    that gives a vector or fails (`None`); the similarity `1 - (a <=> b)` of pgvector is an
    uninterpreted function of the two vectors. */
module Embeddings {
  import opened Util
  import opened Text
  import opened Store
  import Chunker

  /** The length of the vectors of the embedding model. */
  const Dimensions: nat := 1536

  /** `new Array(1536).fill(0)`. */
  function ZeroVector(): (v: seq<real>)
    ensures |v| == Dimensions && forall i :: 0 <= i < |v| ==> v[i] == 0.0
  {
    seq(Dimensions, _ => 0.0)
  }

  /** `generateEmbeddingForText(text)`: the zero vector for blank text (the provider is not asked)
      and when the provider fails; the provider's vector otherwise. */
  function GenerateEmbeddingForText(text: string, provider: string -> Option<seq<real>>): (v: seq<real>)
    ensures IsBlank(text) ==> v == ZeroVector()
    ensures !IsBlank(text) && provider(text).None? ==> v == ZeroVector()
    ensures !IsBlank(text) && provider(text).Some? ==> v == provider(text).value
  {
    if text == "" || |Trim(text)| == 0 then ZeroVector()
    else match provider(text)
      case Some(v) => v
      case None => ZeroVector()
  }

  /** Blank text never reaches the provider: two providers give the same answer. */
  lemma BlankTextIgnoresProvider(text: string, p: string -> Option<seq<real>>, q: string -> Option<seq<real>>)
    requires IsBlank(text)
    ensures GenerateEmbeddingForText(text, p) == GenerateEmbeddingForText(text, q)
  {
  }

  /** The row stored for chunk `i` of an article, if any. */
  function EmbeddingAt(rows: seq<Embedding>, articleId: string, i: nat): Option<Embedding> {
    match IndexOfKey(rows, EmbeddingKey, (articleId, i))
    case Some(k) => Some(rows[k])
    case None => None
  }

  /** One iteration of the loop: update the text and vector of the row `(articleId, i)`, or insert it. */
  function UpsertEmbedding(rows: seq<Embedding>, articleId: string, i: nat, text: string, vector: seq<real>): seq<Embedding> {
    match IndexOfKey(rows, EmbeddingKey, (articleId, i))
    case Some(k) => rows[k := rows[k].(text := text, vector := vector)]
    case None => rows + [Embedding(articleId, i, text, vector)]
  }

  /** After an upsert the key holds the new row, every other key holds what it held, and the keys
      stay unique. */
  lemma UpsertEmbeddingLookup(rows: seq<Embedding>, articleId: string, i: nat, text: string, vector: seq<real>,
                              a: string, j: nat)
    requires UniqueBy(rows, EmbeddingKey)
    ensures UniqueBy(UpsertEmbedding(rows, articleId, i, text, vector), EmbeddingKey)
    ensures EmbeddingAt(UpsertEmbedding(rows, articleId, i, text, vector), a, j)
      == if (a, j) == (articleId, i) then Some(Embedding(articleId, i, text, vector)) else EmbeddingAt(rows, a, j)
  {
    var r := UpsertEmbedding(rows, articleId, i, text, vector);
    var found := IndexOfKey(rows, EmbeddingKey, (articleId, i));
    if found.Some? {
      var k := found.value;
      assert forall m :: 0 <= m < |rows| ==> EmbeddingKey(r[m]) == EmbeddingKey(rows[m]);
      assert UniqueBy(r, EmbeddingKey);
      IndexOfUniqueKey(r, EmbeddingKey, k);
    } else {
      UniqueSnoc(rows, Embedding(articleId, i, text, vector), EmbeddingKey);
      IndexOfUniqueKey(r, EmbeddingKey, |rows|);
    }
    var other := IndexOfKey(rows, EmbeddingKey, (a, j));
    if other.Some? {
      IndexOfUniqueKey(r, EmbeddingKey, other.value);
    }
  }

  /** The embedding of every chunk, as the loop computes them one by one. */
  function Embed(chunks: seq<string>, provider: string -> Option<seq<real>>): (vs: seq<seq<real>>)
    ensures |vs| == |chunks|
    ensures forall i :: 0 <= i < |chunks| ==> vs[i] == GenerateEmbeddingForText(chunks[i], provider)
  {
    seq(|chunks|, i requires 0 <= i < |chunks| => GenerateEmbeddingForText(chunks[i], provider))
  }

  /** The `embeddings` table after the loop has handled chunks `0 .. n-1` with their vectors; chunk
      `i` is skipped when `fails(i)` (its statement threw and the error was logged). */
  function StoreChunks(rows: seq<Embedding>, articleId: string, chunks: seq<string>, vectors: seq<seq<real>>,
                       fails: nat -> bool, n: nat): seq<Embedding>
    requires n <= |chunks| && n <= |vectors|
  {
    if n == 0 then rows
    else
      var before := StoreChunks(rows, articleId, chunks, vectors, fails, n - 1);
      if fails(n - 1) then before
      else UpsertEmbedding(before, articleId, n - 1, chunks[n - 1], vectors[n - 1])
  }

  /** The loop keeps the key of `embeddings` unique. */
  lemma {:induction false} StoreChunksUnique(rows: seq<Embedding>, articleId: string, chunks: seq<string>,
                                             vectors: seq<seq<real>>, fails: nat -> bool, n: nat)
    requires n <= |chunks| && n <= |vectors| && UniqueBy(rows, EmbeddingKey)
    ensures UniqueBy(StoreChunks(rows, articleId, chunks, vectors, fails, n), EmbeddingKey)
    decreases n
  {
    if n > 0 {
      var m := n - 1;
      StoreChunksUnique(rows, articleId, chunks, vectors, fails, m);
      var before := StoreChunks(rows, articleId, chunks, vectors, fails, m);
      var after := StoreChunks(rows, articleId, chunks, vectors, fails, n);
      if fails(m) {
        assert after == before;
      } else {
        assert after == UpsertEmbedding(before, articleId, m, chunks[m], vectors[m]);
        UpsertEmbeddingLookup(before, articleId, m, chunks[m], vectors[m], articleId, m);
      }
    }
  }

  /** What the loop leaves behind: chunk `j < n` that did not fail is stored under `(articleId, j)`
      with its vector; every other key, including the indices at or past `n` that an earlier,
      longer version of the article left, keeps its old row. */
  lemma {:induction false} StoreChunksLookup(rows: seq<Embedding>, articleId: string, chunks: seq<string>,
                                             vectors: seq<seq<real>>, fails: nat -> bool, n: nat,
                                             a: string, j: nat)
    requires n <= |chunks| && n <= |vectors| && UniqueBy(rows, EmbeddingKey)
    ensures a == articleId && j < n && !fails(j) ==>
      EmbeddingAt(StoreChunks(rows, articleId, chunks, vectors, fails, n), a, j)
        == Some(Embedding(articleId, j, chunks[j], vectors[j]))
    ensures !(a == articleId && j < n && !fails(j)) ==>
      EmbeddingAt(StoreChunks(rows, articleId, chunks, vectors, fails, n), a, j) == EmbeddingAt(rows, a, j)
    decreases n
  {
    if n > 0 {
      var m := n - 1;
      StoreChunksLookup(rows, articleId, chunks, vectors, fails, m, a, j);
      StoreChunksUnique(rows, articleId, chunks, vectors, fails, m);
      var before := StoreChunks(rows, articleId, chunks, vectors, fails, m);
      var after := StoreChunks(rows, articleId, chunks, vectors, fails, n);
      if fails(m) {
        assert after == before;
      } else {
        assert after == UpsertEmbedding(before, articleId, m, chunks[m], vectors[m]);
        UpsertEmbeddingLookup(before, articleId, m, chunks[m], vectors[m], a, j);
      }
    }
  }

  /** `storeEmbeddingsForArticle(articleId, content)`: embeds and upserts every chunk of
      `chunkArticleContent(content)` under its index, skipping chunks whose statements fail, and
      returns the number of chunks whatever failed. */
  method StoreEmbeddingsForArticle(db: Db, articleId: string, content: string,
                                   provider: string -> Option<seq<real>>, fails: nat -> bool)
    returns (count: nat)
    requires db.Valid()
    modifies db`embeddings
    ensures db.Valid()
    ensures count == |Chunker.Chunks(content)|
    ensures db.embeddings == StoreChunks(old(db.embeddings), articleId, Chunker.Chunks(content),
                                         Embed(Chunker.Chunks(content), provider), fails, count)
  {
    var chunks := Chunker.ChunkArticleContent(content);
    ghost var rows := db.embeddings;
    ghost var vectors := Embed(chunks, provider);
    for i := 0 to |chunks|
      invariant db.embeddings == StoreChunks(rows, articleId, chunks, vectors, fails, i)
      invariant db.Valid()
    {
      var chunk := chunks[i];
      if fails(i) {
        continue;
      }
      var embedding := GenerateEmbeddingForText(chunk, provider);
      assert embedding == vectors[i];
      UpsertEmbeddingLookup(db.embeddings, articleId, i, chunk, embedding, articleId, i);
      db.embeddings := UpsertEmbedding(db.embeddings, articleId, i, chunk, embedding);
    }
    count := |chunks|;
  }

  /** A row of the similarity search: `e.chunk_text, h.title, h.url, similarity`. */
  datatype Similar = Similar(chunkText: string, title: string, url: string, similarity: real)

  /** `embeddings e JOIN help_articles h ON e.article_id = h.id`, with the similarity of each
      embedding to `query`. */
  function Joined(embeddings: seq<Embedding>, articles: seq<Article>, query: seq<real>,
                  similarity: (seq<real>, seq<real>) -> real): (r: seq<Similar>)
    ensures |r| <= |embeddings|
  {
    if embeddings == [] then []
    else
      var e := embeddings[|embeddings| - 1];
      var before := Joined(embeddings[..|embeddings| - 1], articles, query, similarity);
      match IndexOfKey(articles, ArticleId, e.articleId)
      case Some(k) => before + [Similar(e.text, articles[k].title, articles[k].url, similarity(e.vector, query))]
      case None => before
  }

  /** `s` is the row the join makes of embedding `e` and its article `a`. */
  predicate JoinedRow(s: Similar, e: Embedding, a: Article, query: seq<real>, similarity: (seq<real>, seq<real>) -> real) {
    a.id == e.articleId && s == Similar(e.text, a.title, a.url, similarity(e.vector, query))
  }

  /** `s` carries the text of embedding `e` and its similarity to the query. */
  predicate RowOfEmbedding(s: Similar, e: Embedding, query: seq<real>, similarity: (seq<real>, seq<real>) -> real) {
    s.chunkText == e.text && s.similarity == similarity(e.vector, query)
  }

  /** Every row of the join is an embedding's text with its own article's title and url and the
      embedding's similarity to the query; every embedding whose article exists yields a row. */
  lemma JoinedSpec(embeddings: seq<Embedding>, articles: seq<Article>, query: seq<real>,
                   similarity: (seq<real>, seq<real>) -> real)
    ensures var r := Joined(embeddings, articles, query, similarity);
      && (forall s :: s in r ==> exists e, a :: e in embeddings && a in articles && JoinedRow(s, e, a, query, similarity))
      && (forall e, a :: e in embeddings && a in articles && a.id == e.articleId ==>
            exists s :: s in r && RowOfEmbedding(s, e, query, similarity))
  {
    var r := Joined(embeddings, articles, query, similarity);
    JoinedSound(embeddings, articles, query, similarity);
    forall e, a | e in embeddings && a in articles && a.id == e.articleId
      ensures exists s :: s in r && RowOfEmbedding(s, e, query, similarity)
    {
      var i :| 0 <= i < |embeddings| && embeddings[i] == e;
      JoinedComplete(embeddings, articles, query, similarity, i);
    }
  }

  lemma {:induction false} JoinedSound(embeddings: seq<Embedding>, articles: seq<Article>, query: seq<real>,
                                       similarity: (seq<real>, seq<real>) -> real)
    ensures forall s :: s in Joined(embeddings, articles, query, similarity) ==>
      exists e, a :: e in embeddings && a in articles && JoinedRow(s, e, a, query, similarity)
  {
    if embeddings != [] {
      var e := embeddings[|embeddings| - 1];
      var init := embeddings[..|embeddings| - 1];
      JoinedSound(init, articles, query, similarity);
      assert embeddings == init + [e];
      var before := Joined(init, articles, query, similarity);
      match IndexOfKey(articles, ArticleId, e.articleId)
      case Some(k) =>
        var row := Similar(e.text, articles[k].title, articles[k].url, similarity(e.vector, query));
        assert Joined(embeddings, articles, query, similarity) == before + [row];
        assert JoinedRow(row, e, articles[k], query, similarity);
      case None =>
    }
  }

  lemma {:induction false} JoinedComplete(embeddings: seq<Embedding>, articles: seq<Article>, query: seq<real>,
                                          similarity: (seq<real>, seq<real>) -> real, i: nat)
    requires i < |embeddings| && exists a :: a in articles && a.id == embeddings[i].articleId
    ensures exists s :: s in Joined(embeddings, articles, query, similarity) && RowOfEmbedding(s, embeddings[i], query, similarity)
  {
    var e := embeddings[|embeddings| - 1];
    var init := embeddings[..|embeddings| - 1];
    var before := Joined(init, articles, query, similarity);
    if i < |embeddings| - 1 {
      assert init[i] == embeddings[i];
      JoinedComplete(init, articles, query, similarity, i);
      var s :| s in before && RowOfEmbedding(s, embeddings[i], query, similarity);
      assert s in Joined(embeddings, articles, query, similarity);
    } else {
      var a :| a in articles && a.id == e.articleId;
      var j :| 0 <= j < |articles| && articles[j] == a;
      assert ArticleId(articles[j]) == e.articleId;
      var k := IndexOfKey(articles, ArticleId, e.articleId).value;
      var row := Similar(e.text, articles[k].title, articles[k].url, similarity(e.vector, query));
      assert row in Joined(embeddings, articles, query, similarity);
      assert RowOfEmbedding(row, embeddings[i], query, similarity);
    }
  }

  function SimilarityOf(s: Similar): real {
    s.similarity
  }

  /** `findSimilarContent(query, limit)`: the `limit` joined rows most similar to the query's
      embedding, best first; `[]` when the query fails. */
  function FindSimilarContent(embeddings: seq<Embedding>, articles: seq<Article>,
                              provider: string -> Option<seq<real>>, similarity: (seq<real>, seq<real>) -> real,
                              fails: bool, query: string, limit: nat := 3): (r: seq<Similar>)
    ensures |r| <= limit
    ensures fails ==> r == []
    ensures forall i, j :: 0 <= i < j < |r| ==> r[i].similarity >= r[j].similarity
  {
    if fails then []
    else
      var rows := Joined(embeddings, articles, GenerateEmbeddingForText(query, provider), similarity);
      var sorted := SortDesc(rows, SimilarityOf);
      assert forall i, j :: 0 <= i < j < |sorted| ==> SimilarityOf(sorted[i]) >= SimilarityOf(sorted[j]);
      Take(sorted, limit)
  }

  /** The search is a top-K: it returns `min(limit, rows)` of the joined rows, and no row it leaves
      out is more similar than one it returns. */
  lemma FindSimilarIsTopK(embeddings: seq<Embedding>, articles: seq<Article>,
                          provider: string -> Option<seq<real>>, similarity: (seq<real>, seq<real>) -> real,
                          query: string, limit: nat)
    ensures var rows := Joined(embeddings, articles, GenerateEmbeddingForText(query, provider), similarity);
      var r := FindSimilarContent(embeddings, articles, provider, similarity, false, query, limit);
      && |r| == (if |rows| < limit then |rows| else limit)
      && multiset(r) <= multiset(rows)
      && forall a, b :: a in r && b in multiset(rows) - multiset(r) ==> a.similarity >= b.similarity
  {
    var rows := Joined(embeddings, articles, GenerateEmbeddingForText(query, provider), similarity);
    var sorted := SortDesc(rows, SimilarityOf);
    var r := Take(sorted, limit);
    TopK(rows, SimilarityOf, limit);
    var rest := sorted[|r|..];
    assert multiset(rows) - multiset(r) == multiset(rest);
    forall a, b | a in r && b in multiset(rows) - multiset(r) ensures a.similarity >= b.similarity {
      assert b in rest;
      assert SimilarityOf(a) >= SimilarityOf(b);
    }
  }
}
