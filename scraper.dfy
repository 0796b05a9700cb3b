/** `storeHelpArticle` of lib/help-center-scraper.ts: the article upsert keyed by url.
    (`chunkArticleContent`, from the same file, is the module Chunker.) */
module Scraper {
  import opened Util
  import opened Store

  /** The article the scraper hands over: `{ title, url, content }`. */
  datatype ScrapedArticle = ScrapedArticle(title: string, url: string, content: string)

  /** The table after an upsert, and the id of the article row it wrote. */
  datatype Upsert = Upsert(rows: seq<Article>, id: string)

  function ArticleIds(rows: seq<Article>): set<string> {
    set a | a in rows :: a.id
  }

  function ArticleUrls(rows: seq<Article>): set<string> {
    set a | a in rows :: a.url
  }

  /** The row of `help_articles` whose url is `url`, if there is one. */
  function ArticleWithUrl(rows: seq<Article>, url: string): (r: Option<nat>)
    ensures r.Some? ==> r.value < |rows| && rows[r.value].url == url
    ensures r.None? <==> url !in ArticleUrls(rows)
  {
    var r := FirstIndex(rows, (a: Article) => a.url == url);
    assert r.None? ==> forall a :: a in rows ==> a.url != url by {
      if r.None? {
        forall a | a in rows ensures a.url != url {
          var i :| 0 <= i < |rows| && rows[i] == a;
        }
      }
    }
    r
  }

  /** Look the url up; update title, content and `updated_at` of the row found, or insert a new row
      with the fresh id. The result carries the id of the row written. */
  function UpsertArticle(rows: seq<Article>, a: ScrapedArticle, newId: string, now: nat): Upsert {
    match ArticleWithUrl(rows, a.url)
    case Some(i) => Upsert(rows[i := rows[i].(title := a.title, content := a.content, updatedAt := now)], rows[i].id)
    case None => Upsert(rows + [Article(newId, a.title, a.url, a.content, now)], newId)
  }

  /** The upsert keeps the table's keys unique, writes exactly the row of the url with the new title
      and content, keeps an existing row's id and inserts only for a new url, and leaves every
      other article as it was. */
  lemma UpsertArticleSpec(rows: seq<Article>, a: ScrapedArticle, newId: string, now: nat)
    requires UniqueBy(rows, ArticleId) && UniqueBy(rows, ArticleUrl)
    requires newId !in ArticleIds(rows)
    ensures var u := UpsertArticle(rows, a, newId, now);
      && UniqueBy(u.rows, ArticleId) && UniqueBy(u.rows, ArticleUrl)
      && (exists k :: 0 <= k < |u.rows| && u.rows[k] == Article(u.id, a.title, a.url, a.content, now))
      && (a.url in ArticleUrls(rows) ==> |u.rows| == |rows| && u.id in ArticleIds(rows))
      && (a.url !in ArticleUrls(rows) ==> u.rows == rows + [Article(newId, a.title, a.url, a.content, now)] && u.id == newId)
      && (forall k :: 0 <= k < |rows| && rows[k].url != a.url ==> u.rows[k] == rows[k])
  {
    var u := UpsertArticle(rows, a, newId, now);
    match ArticleWithUrl(rows, a.url)
    case Some(i) =>
      assert u.rows[i] == Article(u.id, a.title, a.url, a.content, now);
      assert rows[i] in rows;
      forall j, k | 0 <= j < k < |u.rows|
        ensures u.rows[j].id != u.rows[k].id && u.rows[j].url != u.rows[k].url
      {
        assert u.rows[j].id == rows[j].id && u.rows[k].id == rows[k].id;
        assert u.rows[j].url == rows[j].url && u.rows[k].url == rows[k].url;
      }
    case None =>
      forall k | 0 <= k < |rows| ensures rows[k].id != newId && rows[k].url != a.url {
        assert rows[k] in rows;
      }
      UniqueSnoc(rows, Article(newId, a.title, a.url, a.content, now), ArticleId);
      UniqueSnoc(rows, Article(newId, a.title, a.url, a.content, now), ArticleUrl);
      assert u.rows[|rows|] == Article(u.id, a.title, a.url, a.content, now);
  }

  /** The ids after an upsert are the ids before and the id of the row written. */
  lemma UpsertArticleIds(rows: seq<Article>, a: ScrapedArticle, newId: string, now: nat)
    ensures var u := UpsertArticle(rows, a, newId, now);
      ArticleIds(u.rows) == ArticleIds(rows) + {u.id}
  {
    var u := UpsertArticle(rows, a, newId, now);
    match ArticleWithUrl(rows, a.url)
    case Some(i) =>
      assert rows[i] in rows;
      forall x | x in ArticleIds(u.rows) ensures x in ArticleIds(rows) {
        var k :| 0 <= k < |u.rows| && u.rows[k].id == x;
        assert rows[k] in rows;
      }
      forall x | x in ArticleIds(rows) ensures x in ArticleIds(u.rows) {
        var k :| 0 <= k < |rows| && rows[k].id == x;
        assert u.rows[k] in u.rows;
      }
    case None =>
      assert u.rows[|rows|] in u.rows;
      forall x | x in ArticleIds(u.rows) ensures x in ArticleIds(rows) + {u.id} {
        var k :| 0 <= k < |u.rows| && u.rows[k].id == x;
        if k < |rows| { assert rows[k] in rows; }
      }
      forall x | x in ArticleIds(rows) ensures x in ArticleIds(u.rows) {
        var k :| 0 <= k < |rows| && rows[k].id == x;
        assert u.rows[k] in u.rows;
      }
  }

  /** The urls after an upsert are the urls before and the stored article's url; the table grows by
      at most one row. */
  lemma UpsertArticleUrls(rows: seq<Article>, a: ScrapedArticle, newId: string, now: nat)
    ensures var u := UpsertArticle(rows, a, newId, now);
      ArticleUrls(u.rows) == ArticleUrls(rows) + {a.url} && |u.rows| <= |rows| + 1
  {
    var u := UpsertArticle(rows, a, newId, now);
    match ArticleWithUrl(rows, a.url)
    case Some(i) =>
      assert u.rows[i] in u.rows;
      forall x | x in ArticleUrls(u.rows) ensures x in ArticleUrls(rows) {
        var k :| 0 <= k < |u.rows| && u.rows[k].url == x;
        assert rows[k] in rows;
      }
      forall x | x in ArticleUrls(rows) ensures x in ArticleUrls(u.rows) {
        var k :| 0 <= k < |rows| && rows[k].url == x;
        assert u.rows[k] in u.rows;
      }
    case None =>
      assert u.rows[|rows|] in u.rows;
      forall x | x in ArticleUrls(u.rows) ensures x in ArticleUrls(rows) + {a.url} {
        var k :| 0 <= k < |u.rows| && u.rows[k].url == x;
        if k < |rows| { assert rows[k] in rows; }
      }
      forall x | x in ArticleUrls(rows) ensures x in ArticleUrls(u.rows) {
        var k :| 0 <= k < |rows| && rows[k].url == x;
        assert u.rows[k] in u.rows;
      }
  }

  /** Storing the same url twice writes one row: the second store returns the first one's id and
      adds nothing. */
  lemma UpsertTwiceSameRow(rows: seq<Article>, a: ScrapedArticle, b: ScrapedArticle, id1: string, id2: string, t1: nat, t2: nat)
    requires a.url == b.url
    ensures var u1 := UpsertArticle(rows, a, id1, t1);
      var u2 := UpsertArticle(u1.rows, b, id2, t2);
      u2.id == u1.id && |u2.rows| == |u1.rows|
  {
    var u1 := UpsertArticle(rows, a, id1, t1);
    match ArticleWithUrl(rows, a.url)
    case Some(i) =>
      assert u1.rows[i].url == a.url;
      var j := ArticleWithUrl(u1.rows, b.url).value;
      assert j <= i;
      assert u1.rows[j].url == rows[j].url;
      assert FirstIndex(rows, (x: Article) => x.url == a.url) == Some(i);
    case None =>
      assert u1.rows[|rows|].url == b.url;
      assert forall k :: 0 <= k < |rows| ==> u1.rows[k] == rows[k] && rows[k] in rows;
  }

  /** `storeHelpArticle(article)`: the upsert, returning the article id; a storage failure is
      rethrown (`None`) and leaves the table as it was. */
  method StoreHelpArticle(db: Db, a: ScrapedArticle, newId: string, now: nat, fails: bool) returns (id: Option<string>)
    requires db.Valid() && newId !in ArticleIds(db.articles)
    modifies db`articles
    ensures db.Valid()
    ensures fails ==> id.None? && db.articles == old(db.articles)
    ensures !fails ==> var u := UpsertArticle(old(db.articles), a, newId, now);
      id == Some(u.id) && db.articles == u.rows
  {
    if fails {
      return None;
    }
    UpsertArticleSpec(db.articles, a, newId, now);
    var u := UpsertArticle(db.articles, a, newId, now);
    db.articles := u.rows;
    id := Some(u.id);
  }
}
