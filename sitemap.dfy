/**
 * The sitemap (app/sitemap.ts): the home page, then one page per movie row
 * the database returns for the sitemap query, and only the home page when
 * the query throws.
 */
module Sitemap {
  import opened Wrappers
  import opened Text

  const BaseUrl := "https://reckall.app"

  /** The row limit the query asks the database for. */
  const MovieQueryLimit := 1000

  datatype ChangeFrequency = Daily | Weekly

  /** `new Date()` at generation time, or `new Date(created_at)` of a row (left unparsed). */
  datatype LastModified = GenerationTime | CreatedAt(raw: string)

  datatype Entry = Entry(url: string, lastModified: LastModified, changeFrequency: ChangeFrequency, priority: real)

  /** The two columns the query selects. */
  datatype MovieRow = MovieRow(tmdbId: int, createdAt: string)

  /** What the awaited query gives: its `data` (null on a database error), or an exception. */
  datatype QueryAnswer = Answered(data: Option<seq<MovieRow>>) | Threw

  const HomeEntry := Entry(BaseUrl, GenerationTime, Daily, 1.0)

  function MovieUrl(tmdbId: int): string {
    BaseUrl + "/movie/" + IntToDecimal(tmdbId)
  }

  function MovieEntry(row: MovieRow): Entry {
    Entry(MovieUrl(row.tmdbId), CreatedAt(row.createdAt), Weekly, 0.8)
  }

  /** One weekly page per row, in row order. */
  function MoviePages(rows: seq<MovieRow>): (pages: seq<Entry>)
    ensures |pages| == |rows|
    ensures forall i :: 0 <= i < |rows| ==>
      pages[i].url == MovieUrl(rows[i].tmdbId) && pages[i].lastModified == CreatedAt(rows[i].createdAt) &&
      pages[i].changeFrequency == Weekly && pages[i].priority == 0.8
  {
    seq(|rows|, i requires 0 <= i < |rows| => MovieEntry(rows[i]))
  }

  /**
   * The sitemap for the answer to the movie query: the home page first, then the
   * rows in the order the database returned them; a null `data` counts as no
   * rows and an exception leaves only the home page.
   */
  function BuildSitemap(answer: QueryAnswer): (entries: seq<Entry>)
    ensures |entries| >= 1 && entries[0] == HomeEntry
    ensures answer.Threw? || answer.data.None? ==> entries == [HomeEntry]
    ensures answer.Answered? && answer.data.Some? ==>
      |entries| == 1 + |answer.data.value| &&
      forall i :: 0 <= i < |answer.data.value| ==>
        entries[i + 1].url == MovieUrl(answer.data.value[i].tmdbId) &&
        entries[i + 1].lastModified == CreatedAt(answer.data.value[i].createdAt) &&
        entries[i + 1].changeFrequency == Weekly && entries[i + 1].priority == 0.8
  {
    match answer
    case Threw => [HomeEntry]
    case Answered(data) =>
      var pages := MoviePages(data.GetOr([]));
      assert forall i :: 0 <= i < |pages| ==> ([HomeEntry] + pages)[i + 1] == pages[i];
      [HomeEntry] + pages
  }

  /** The movie pages sit under "/movie/" of the site. */
  lemma MovieUrlShape(tmdbId: int)
    ensures StartsWith(MovieUrl(tmdbId), BaseUrl + "/movie/")
    ensures |MovieUrl(tmdbId)| > |BaseUrl|
  {
    StartsWithAppend(BaseUrl + "/movie/", IntToDecimal(tmdbId));
  }

  /** Two movie pages share a URL only when they are for the same TMDB id. */
  lemma MovieUrlInjective(a: int, b: int)
    requires MovieUrl(a) == MovieUrl(b)
    ensures a == b
  {
    var prefix := BaseUrl + "/movie/";
    assert MovieUrl(a)[|prefix|..] == IntToDecimal(a);
    assert MovieUrl(b)[|prefix|..] == IntToDecimal(b);
    IntToDecimalInjective(a, b);
  }

  predicate DistinctUrls(entries: seq<Entry>) {
    forall i, j :: 0 <= i < j < |entries| ==> entries[i].url != entries[j].url
  }

  predicate DistinctIds(rows: seq<MovieRow>) {
    forall i, j :: 0 <= i < j < |rows| ==> rows[i].tmdbId != rows[j].tmdbId
  }

  /** The home page's URL is shorter than any movie page's. */
  lemma HomeIsNoMoviePage(tmdbId: int)
    ensures HomeEntry.url != MovieUrl(tmdbId)
  {
    MovieUrlShape(tmdbId);
  }

  /** The shape `BuildSitemap` gives a list of rows. */
  predicate SitemapOf(entries: seq<Entry>, rows: seq<MovieRow>) {
    |entries| == 1 + |rows| && entries[0] == HomeEntry &&
    forall i :: 0 <= i < |rows| ==> entries[i + 1].url == MovieUrl(rows[i].tmdbId)
  }

  lemma DistinctIdsGiveDistinctUrls(entries: seq<Entry>, rows: seq<MovieRow>)
    requires SitemapOf(entries, rows) && DistinctIds(rows)
    ensures DistinctUrls(entries)
  {
    forall i, j | 0 <= i < j < |entries| ensures entries[i].url != entries[j].url {
      var b := rows[j - 1].tmdbId;
      assert entries[j].url == MovieUrl(b);
      if i == 0 {
        HomeIsNoMoviePage(b);
      } else {
        var a := rows[i - 1].tmdbId;
        assert entries[i].url == MovieUrl(a);
        assert a != b;
        if MovieUrl(a) == MovieUrl(b) {
          MovieUrlInjective(a, b);
        }
      }
    }
  }

  lemma DistinctUrlsGiveDistinctIds(entries: seq<Entry>, rows: seq<MovieRow>)
    requires SitemapOf(entries, rows) && DistinctUrls(entries)
    ensures DistinctIds(rows)
  {
    forall i, j | 0 <= i < j < |rows| ensures rows[i].tmdbId != rows[j].tmdbId {
      assert entries[i + 1].url == MovieUrl(rows[i].tmdbId);
      assert entries[j + 1].url == MovieUrl(rows[j].tmdbId);
    }
  }

  lemma SitemapShape(rows: seq<MovieRow>)
    ensures SitemapOf(BuildSitemap(Answered(Some(rows))), rows)
  {
  }

  /**
   * The sitemap lists no URL twice exactly when the database returned no
   * TMDB id twice (`SitemapShape` gives `BuildSitemap` this shape).
   */
  lemma DistinctUrlsIffDistinctIds(entries: seq<Entry>, rows: seq<MovieRow>)
    requires SitemapOf(entries, rows)
    ensures DistinctUrls(entries) <==> DistinctIds(rows)
  {
    if DistinctIds(rows) {
      DistinctIdsGiveDistinctUrls(entries, rows);
    }
    if DistinctUrls(entries) {
      DistinctUrlsGiveDistinctIds(entries, rows);
    }
  }

  /** With the query's limit honoured, the sitemap has at most 1001 entries. */
  lemma SitemapSize(answer: QueryAnswer)
    requires answer.Answered? && answer.data.Some? ==> |answer.data.value| <= MovieQueryLimit
    ensures |BuildSitemap(answer)| <= 1 + MovieQueryLimit
  {
  }
}
