/**
 * The data-access client of the frontend (lib/api.ts): the recently-identified
 * feed, video recognition with progress milestones, movie lookup with a
 * database-then-API fallback, the two per-movie caches with a 30-minute
 * time-to-live, and image URL building.
 *
 * The database, `fetch` and `response.json()` are not called: their outcomes
 * are parameters (`StoreAnswer`, `Response`, `Json`), and so is the clock.
 */
module Api {
  import opened Wrappers
  import opened Text

  const ApiBaseUrl := "https://reckallbackend-production.up.railway.app/api"

  // ---------------------------------------------------------------------------
  // Records

  datatype Movie = Movie(
    id: int,
    tmdbId: int,
    title: string,
    year: Option<int>,
    posterUrl: Option<string>,
    backdropUrl: Option<string>,
    overview: Option<string>,
    imdbId: Option<string>,
    popularity: real,
    createdAt: string)

  datatype CastMember = CastMember(
    id: int,
    actorName: string,
    characterName: Option<string>,
    tmdbPersonId: Option<int>,
    profilePath: Option<string>)

  /** A cast entry under the backend's field names. */
  datatype BackendCast = BackendCast(
    id: int,
    name: string,
    character: Option<string>,
    tmdbId: Option<int>,
    profileUrl: Option<string>)

  datatype RecognitionResult = RecognitionResult(
    movie: Option<Movie>,
    confidence: real,
    matchedOn: Option<seq<string>>,
    processingTime: Option<real>,
    actorsDetected: Option<seq<string>>)

  // ---------------------------------------------------------------------------
  // Outcomes of the foreign calls

  /** A thrown JavaScript value as a `catch` sees it. */
  datatype Thrown = ErrorObject(message: string) | NonError

  /**
   * The result of `response.json()`: a value, the JSON `null` (reading a field
   * of it throws a TypeError with the given message), or a body that does not
   * parse (the promise rejects with a SyntaxError with the given message).
   */
  datatype Json<T> = Parsed(value: T) | ParsedNull(typeError: string) | Unparseable(syntaxError: string)

  /** The body of an error response: its optional `error` field. */
  datatype ErrorJson = ErrorJson(error: Option<string>)

  /** The outcome of one `fetch`: an ok status, another status, or a rejected promise. */
  datatype Response<T> =
    | Ok(body: Json<T>)
    | NotOk(status: int, errorBody: Json<ErrorJson>)
    | NetworkError(reason: Thrown)

  /** The answer of a database query: `{ data, error }`, or an exception. */
  datatype StoreAnswer<T> = Answer(data: Option<T>, error: Option<string>) | StoreThrew(reason: Thrown)

  // ---------------------------------------------------------------------------
  // Recently identified movies (lib/api.ts:41-88)

  /** The number of movies asked for when the caller gives none. */
  const DefaultRecentLimit := 12

  /** A row of the upload history joined to the movie it was identified as. */
  datatype UploadRow = UploadRow(id: int, confidenceScore: real, createdAt: string, movie: Option<Movie>)

  /** The first `n` rows of the store's ordered answer: `.limit(n)`. */
  function Take<T>(s: seq<T>, n: nat): (r: seq<T>)
    ensures |r| == if n < |s| then n else |s|
    ensures r == s[..|r|]
    ensures |s| <= n ==> r == s
  {
    if n < |s| then s[..n] else s
  }

  predicate HasId(row: UploadRow, id: int) {
    row.movie.Some? && row.movie.value.id == id
  }

  /** The ids of the movies that rows resolve to. */
  function PresentIds(rows: seq<UploadRow>): (ids: set<int>)
    ensures forall id :: id in ids <==> exists i :: 0 <= i < |rows| && HasId(rows[i], id)
    decreases |rows|
  {
    if rows == [] then {}
    else
      var init := rows[..|rows| - 1];
      var last := rows[|rows| - 1];
      assert forall i :: 0 <= i < |init| ==> init[i] == rows[i];
      PresentIds(init) + (if last.movie.Some? then {last.movie.value.id} else {})
  }

  function Ids(movies: seq<Movie>): set<int> {
    set m | m in movies :: m.id
  }

  predicate NoDuplicateIds(movies: seq<Movie>) {
    forall i, j :: 0 <= i < j < |movies| ==> movies[i].id != movies[j].id
  }

  /**
   * The feed: rows without a movie are skipped, and of the rows that share a
   * movie id only the first is kept, in row order.
   */
  function UniqueMovies(rows: seq<UploadRow>): seq<Movie>
    decreases |rows|
  {
    if rows == [] then []
    else
      var kept := UniqueMovies(rows[..|rows| - 1]);
      var last := rows[|rows| - 1];
      if last.movie.Some? && last.movie.value.id !in Ids(kept) then kept + [last.movie.value] else kept
  }

  /** The index of the first row that resolves to a movie with this id. */
  function FirstIndex(rows: seq<UploadRow>, id: int): (j: nat)
    requires id in PresentIds(rows)
    ensures j < |rows| && HasId(rows[j], id)
    ensures forall i :: 0 <= i < j ==> !HasId(rows[i], id)
    decreases |rows|
  {
    var init := rows[..|rows| - 1];
    if id in PresentIds(init) then FirstIndex(init, id) else |rows| - 1
  }

  lemma {:induction false} UniqueMoviesIds(rows: seq<UploadRow>)
    ensures Ids(UniqueMovies(rows)) == PresentIds(rows)
    ensures NoDuplicateIds(UniqueMovies(rows))
    ensures |UniqueMovies(rows)| <= |rows|
    decreases |rows|
  {
    if rows != [] {
      UniqueMoviesIds(rows[..|rows| - 1]);
    }
  }

  /**
   * Every kept movie is the movie of the first row with its id, and kept
   * movies appear in the order of those first rows.
   */
  lemma {:induction false} UniqueMoviesFirstOccurrences(rows: seq<UploadRow>)
    ensures forall k :: 0 <= k < |UniqueMovies(rows)| ==>
      UniqueMovies(rows)[k].id in PresentIds(rows) &&
      rows[FirstIndex(rows, UniqueMovies(rows)[k].id)].movie == Some(UniqueMovies(rows)[k])
    ensures forall k1, k2 :: 0 <= k1 < k2 < |UniqueMovies(rows)| ==>
      UniqueMovies(rows)[k1].id in PresentIds(rows) && UniqueMovies(rows)[k2].id in PresentIds(rows) &&
      FirstIndex(rows, UniqueMovies(rows)[k1].id) < FirstIndex(rows, UniqueMovies(rows)[k2].id)
    decreases |rows|
  {
    if rows != [] {
      var init := rows[..|rows| - 1];
      UniqueMoviesFirstOccurrences(init);
      UniqueMoviesIds(init);
      var kept := UniqueMovies(init);
      var u := UniqueMovies(rows);
      assert forall k :: 0 <= k < |kept| ==> u[k] == kept[k];
      forall k | 0 <= k < |kept|
        ensures kept[k].id in PresentIds(init)
        ensures FirstIndex(rows, kept[k].id) == FirstIndex(init, kept[k].id)
      {
        assert kept[k] in kept;
      }
    }
  }

  /** Rows whose movie ids are 5, 3, 5, 7 give the movies 5, 3, 7. */
  lemma FeedExample(a: Movie, b: Movie, c: Movie, d: Movie)
    requires a.id == 5 && b.id == 3 && c.id == 5 && d.id == 7
    ensures UniqueMovies([UploadRow(1, 0.9, "t4", Some(a)), UploadRow(2, 0.9, "t3", Some(b)),
                          UploadRow(3, 0.9, "t2", Some(c)), UploadRow(4, 0.9, "t1", Some(d))]) == [a, b, d]
  {
    var rows := [UploadRow(1, 0.9, "t4", Some(a)), UploadRow(2, 0.9, "t3", Some(b)),
                 UploadRow(3, 0.9, "t2", Some(c)), UploadRow(4, 0.9, "t1", Some(d))];
    assert rows[..1] == [rows[0]] && rows[..2] == [rows[0], rows[1]] && rows[..3] == [rows[0], rows[1], rows[2]];
    assert [rows[0]][..0] == [];
    assert [rows[0], rows[1]][..1] == [rows[0]];
    assert [rows[0], rows[1], rows[2]][..2] == [rows[0], rows[1]];
    assert UniqueMovies([rows[0]]) == [a];
    assert Ids([a]) == {5};
    assert UniqueMovies([rows[0], rows[1]]) == [a, b];
    assert Ids([a, b]) == {5, 3};
    assert UniqueMovies([rows[0], rows[1], rows[2]]) == [a, b];
  }

  /** `getRecentlyIdentified(limit)`: the store's rows deduplicated by movie id; `[]` on any error. */
  method GetRecentlyIdentified(answer: StoreAnswer<seq<UploadRow>>, limit: nat := DefaultRecentLimit) returns (movies: seq<Movie>)
    ensures answer.StoreThrew? || answer.error.Some? ==> movies == []
    ensures answer.Answer? && answer.error.None? ==>
      movies == UniqueMovies(Take(answer.data.GetOr([]), limit))
    ensures |movies| <= limit
    ensures NoDuplicateIds(movies)
  {
    if answer.StoreThrew? || answer.error.Some? {
      return [];
    }
    var rows := Take(answer.data.GetOr([]), limit);
    movies := [];
    var seenIds: set<int> := {};
    for i := 0 to |rows|
      invariant movies == UniqueMovies(rows[..i])
      invariant seenIds == Ids(movies)
    {
      assert rows[..i + 1][..i] == rows[..i];
      var movie := rows[i].movie;
      if movie.Some? && movie.value.id !in seenIds {
        seenIds := seenIds + {movie.value.id};
        movies := movies + [movie.value];
      }
    }
    assert rows[..|rows|] == rows;
    UniqueMoviesIds(rows);
  }

  // ---------------------------------------------------------------------------
  // Video recognition (lib/api.ts:111-141)

  datatype ProgressEvent = ProgressEvent(percent: int, message: string)

  const Uploading := ProgressEvent(10, "Uploading video...")
  const Analyzing := ProgressEvent(50, "Analyzing video...")
  const Identified := ProgressEvent(100, "Movie identified!")

  const RecognitionFailed := "Recognition failed"
  const FailedToIdentify := "Failed to identify movie"
  const ClearerDialogue := "Could not identify the movie. Try a different clip with clearer dialogue."

  datatype Outcome = Recognized(result: RecognitionResult) | Rejected(thrown: Thrown)

  /** The progress callbacks made, in order, and how the returned promise settles. */
  datatype Submission = Submission(progress: seq<ProgressEvent>, outcome: Outcome)

  /** The message thrown for a non-ok response: `body.error || 'Failed to identify movie'`. */
  function NotOkError(body: Json<ErrorJson>): (t: Thrown)
    ensures body.Unparseable? ==> t == ErrorObject(RecognitionFailed)
    ensures body.Parsed? && Truthy(body.value.error) ==> t == ErrorObject(body.value.error.value)
    ensures body.Parsed? && !Truthy(body.value.error) ==> t == ErrorObject(FailedToIdentify)
    ensures body.ParsedNull? ==> t == ErrorObject(body.typeError)
  {
    match body
    case Unparseable(_) => ErrorObject(RecognitionFailed)
    case ParsedNull(e) => ErrorObject(e)
    case Parsed(j) => if Truthy(j.error) then ErrorObject(j.error.value) else ErrorObject(FailedToIdentify)
  }

  /**
   * `recognizeVideo(file, onProgress)`, where `response` is what the POST to
   * `/recognize-fast` gives; the callbacks are made only when one is passed.
   */
  function RecognizeVideo(hasCallback: bool, response: Response<RecognitionResult>): (s: Submission)
    ensures !hasCallback ==> s.progress == []
    ensures hasCallback ==> 1 <= |s.progress| <= 3 && s.progress[0] == Uploading
    ensures hasCallback && !response.NetworkError? ==> |s.progress| >= 2 && s.progress[1] == Analyzing
    ensures response.NetworkError? ==> s.outcome == Rejected(response.reason) && |s.progress| <= 1
    ensures response.NotOk? ==> s.outcome == Rejected(NotOkError(response.errorBody))
    ensures hasCallback && response.NetworkError? ==> s.progress == [Uploading]
    ensures hasCallback && (response.NotOk? || (response.Ok? && response.body.Unparseable?)) ==>
      s.progress == [Uploading, Analyzing]
    ensures response.Ok? && response.body.Unparseable? ==> s.outcome == Rejected(ErrorObject(response.body.syntaxError))
    ensures response.Ok? && response.body.ParsedNull? ==> s.outcome == Rejected(ErrorObject(response.body.typeError))
    ensures hasCallback ==> (Identified in s.progress <==> response.Ok? && !response.body.Unparseable?)
    ensures hasCallback && Identified in s.progress ==> s.progress == [Uploading, Analyzing, Identified]
    ensures s.outcome.Recognized? <==>
      response.Ok? && response.body.Parsed? && response.body.value.movie.Some?
    ensures s.outcome.Recognized? ==> s.outcome.result == response.body.value
    ensures response.Ok? && response.body.Parsed? && response.body.value.movie.None? ==>
      s.outcome == Rejected(ErrorObject(ClearerDialogue))
  {
    var report := (events: seq<ProgressEvent>) => if hasCallback then events else [];
    match response
    case NetworkError(reason) => Submission(report([Uploading]), Rejected(reason))
    case NotOk(_, body) => Submission(report([Uploading, Analyzing]), Rejected(NotOkError(body)))
    case Ok(Unparseable(e)) => Submission(report([Uploading, Analyzing]), Rejected(ErrorObject(e)))
    case Ok(ParsedNull(e)) => Submission(report([Uploading, Analyzing, Identified]), Rejected(ErrorObject(e)))
    case Ok(Parsed(result)) =>
      var outcome := if result.movie.None? then Rejected(ErrorObject(ClearerDialogue)) else Recognized(result);
      Submission(report([Uploading, Analyzing, Identified]), outcome)
  }

  /** The progress reported only ever rises. */
  lemma ProgressRises(hasCallback: bool, response: Response<RecognitionResult>)
    ensures var p := RecognizeVideo(hasCallback, response).progress;
      forall i, j :: 0 <= i < j < |p| ==> p[i].percent < p[j].percent
  {
  }

  /** A 500 response with body `{"error":"no match"}` rejects with "no match". */
  lemma NoMatchExample()
    ensures RecognizeVideo(true, NotOk(500, Parsed(ErrorJson(Some("no match"))))).outcome
      == Rejected(ErrorObject("no match"))
  {
  }

  // ---------------------------------------------------------------------------
  // Movie lookup (lib/api.ts:143-167)

  /** The movie found, if any, and the API request made, if any. */
  datatype MovieLookup = MovieLookup(movie: Option<Movie>, apiRequest: Option<string>)

  /**
   * `getMovieById(id)`: the database row when there is one, and then no API
   * request; otherwise the API's movie when it answers ok; otherwise null.
   */
  function GetMovieById(id: int, store: StoreAnswer<Movie>, api: Response<Movie>): (r: MovieLookup)
    ensures store.Answer? && store.data.Some? ==> r == MovieLookup(store.data, None)
    ensures store.StoreThrew? ==> r == MovieLookup(None, None)
    ensures store.Answer? && store.data.None? ==>
      && r.apiRequest == Some(ApiBaseUrl + "/movies/" + IntToDecimal(id))
      && (r.movie.Some? <==> api.Ok? && api.body.Parsed?)
      && (r.movie.Some? ==> r.movie.value == api.body.value)
  {
    match store
    case StoreThrew(_) => MovieLookup(None, None)
    case Answer(Some(row), _) => MovieLookup(Some(row), None)
    case Answer(None, _) =>
      var request := Some(ApiBaseUrl + "/movies/" + IntToDecimal(id));
      match api
      case Ok(Parsed(m)) => MovieLookup(Some(m), request)
      case _ => MovieLookup(None, request)
  }

  /** When the store query fails and the API answers, the API's movie is returned. */
  lemma FallbackExample(id: int, m: Movie)
    ensures GetMovieById(id, Answer(None, Some("query failed")), Ok(Parsed(m))).movie == Some(m)
  {
  }

  // ---------------------------------------------------------------------------
  // The per-movie caches (lib/api.ts:169-242)

  /** 30 minutes, in milliseconds. */
  const CacheTtl := 1000 * 60 * 30

  datatype CacheEntry<T> = CacheEntry(data: seq<T>, timestamp: int)

  /** An in-memory cache keyed by movie id (`new Map<number, {data, timestamp}>()`). */
  class TtlCache<T> {
    var entries: map<int, CacheEntry<T>>

    constructor ()
      ensures entries == map[]
    {
      entries := map[];
    }

    /** `cache.get(key)`. */
    method Get(key: int) returns (e: Option<CacheEntry<T>>)
      ensures e.Some? <==> key in entries
      ensures e.Some? ==> e.value == entries[key]
    {
      if key in entries {
        e := Some(entries[key]);
      } else {
        e := None;
      }
    }

    /** `cache.set(key, entry)`. */
    method Set(key: int, e: CacheEntry<T>)
      modifies this
      ensures entries == old(entries)[key := e]
    {
      entries := entries[key := e];
    }
  }

  /**
   * The hit rule shared by both caches: an entry younger than the time-to-live
   * at `now`; an entry exactly `CacheTtl` old is stale.
   */
  function FreshHit<T>(entries: map<int, CacheEntry<T>>, key: int, now: int): (r: Option<seq<T>>)
    ensures r.Some? <==> key in entries && now - entries[key].timestamp < CacheTtl
    ensures r.Some? ==> r.value == entries[key].data
  {
    if key in entries && now - entries[key].timestamp < CacheTtl then Some(entries[key].data) else None
  }

  /** What a cached read returns, which request it makes, and the cache afterwards. */
  datatype CachedRead<T> = CachedRead(data: seq<T>, request: Option<string>, entries: map<int, CacheEntry<T>>)

  /** The cast endpoint's body: its optional `cast` array. */
  datatype CastJson = CastJson(cast: Option<seq<BackendCast>>)

  function ToCastMember(c: BackendCast): CastMember {
    CastMember(c.id, c.name, c.character, c.tmdbId, c.profileUrl)
  }

  /** The field renaming of the cast list, element by element. */
  function NormalizeCast(cast: seq<BackendCast>): (r: seq<CastMember>)
    ensures |r| == |cast|
    ensures forall i :: 0 <= i < |cast| ==>
      && r[i].id == cast[i].id
      && r[i].actorName == cast[i].name
      && r[i].characterName == cast[i].character
      && r[i].tmdbPersonId == cast[i].tmdbId
      && r[i].profilePath == cast[i].profileUrl
  {
    seq(|cast|, i requires 0 <= i < |cast| => ToCastMember(cast[i]))
  }

  function CastUrl(movieId: int): string {
    ApiBaseUrl + "/movies/" + IntToDecimal(movieId) + "/cast"
  }

  /**
   * One `getMovieCast(movieId)` call: the clock reads `now` at the cache check
   * and `writeTime` when the entry is stored after the response.
   */
  function CastStep(entries: map<int, CacheEntry<CastMember>>, movieId: int, now: int,
                    response: Response<CastJson>, writeTime: int): (r: CachedRead<CastMember>)
    ensures FreshHit(entries, movieId, now).Some? ==>
      r == CachedRead(entries[movieId].data, None, entries)
    ensures FreshHit(entries, movieId, now).None? ==> r.request == Some(CastUrl(movieId))
    ensures FreshHit(entries, movieId, now).None? ==>
      if response.Ok? && response.body.Parsed? && response.body.value.cast.Some? && |response.body.value.cast.value| > 0
      then
        var cast := NormalizeCast(response.body.value.cast.value);
        r.data == cast && r.entries == entries[movieId := CacheEntry(cast, writeTime)]
      else r.data == [] && r.entries == entries
  {
    match FreshHit(entries, movieId, now)
    case Some(data) => CachedRead(data, None, entries)
    case None =>
      var request := Some(CastUrl(movieId));
      match response
      case Ok(Parsed(CastJson(Some(raw)))) =>
        if |raw| > 0 then
          var cast := NormalizeCast(raw);
          CachedRead(cast, request, entries[movieId := CacheEntry(cast, writeTime)])
        else CachedRead([], request, entries)
      case _ => CachedRead([], request, entries)
  }

  /** `getMovieCast(movieId)` on the cast cache. */
  method GetMovieCast(castCache: TtlCache<CastMember>, movieId: int, now: int,
                      response: Response<CastJson>, writeTime: int)
    returns (cast: seq<CastMember>, request: Option<string>)
    modifies castCache
    ensures CachedRead(cast, request, castCache.entries)
      == CastStep(old(castCache.entries), movieId, now, response, writeTime)
  {
    var cached := castCache.Get(movieId);
    if cached.Some? && now - cached.value.timestamp < CacheTtl {
      return cached.value.data, None;
    }
    request := Some(CastUrl(movieId));
    if response.Ok? && response.body.Parsed? && response.body.value.cast.Some?
       && |response.body.value.cast.value| > 0 {
      cast := NormalizeCast(response.body.value.cast.value);
      castCache.Set(movieId, CacheEntry(cast, writeTime));
      return;
    }
    cast := [];
  }

  /** The similar-movies endpoint's body: its optional `similar` array. */
  datatype SimilarJson = SimilarJson(similar: Option<seq<Movie>>)

  function SimilarUrl(movieId: int): string {
    ApiBaseUrl + "/movies/" + IntToDecimal(movieId) + "/similar"
  }

  /**
   * One `getSimilarMovies(movieId)` call. Unlike the cast, every ok response
   * with a readable body is stored, an empty or missing list included.
   */
  function SimilarStep(entries: map<int, CacheEntry<Movie>>, movieId: int, now: int,
                       response: Response<SimilarJson>, writeTime: int): (r: CachedRead<Movie>)
    ensures FreshHit(entries, movieId, now).Some? ==>
      r == CachedRead(entries[movieId].data, None, entries)
    ensures FreshHit(entries, movieId, now).None? ==> r.request == Some(SimilarUrl(movieId))
    ensures FreshHit(entries, movieId, now).None? ==>
      if response.Ok? && response.body.Parsed?
      then
        var similar := response.body.value.similar.GetOr([]);
        r.data == similar && r.entries == entries[movieId := CacheEntry(similar, writeTime)]
      else r.data == [] && r.entries == entries
  {
    match FreshHit(entries, movieId, now)
    case Some(data) => CachedRead(data, None, entries)
    case None =>
      var request := Some(SimilarUrl(movieId));
      match response
      case Ok(Parsed(body)) =>
        var similar := body.similar.GetOr([]);
        CachedRead(similar, request, entries[movieId := CacheEntry(similar, writeTime)])
      case _ => CachedRead([], request, entries)
  }

  /** `getSimilarMovies(movieId)` on the similar-movies cache. */
  method GetSimilarMovies(similarCache: TtlCache<Movie>, movieId: int, now: int,
                          response: Response<SimilarJson>, writeTime: int)
    returns (similar: seq<Movie>, request: Option<string>)
    modifies similarCache
    ensures CachedRead(similar, request, similarCache.entries)
      == SimilarStep(old(similarCache.entries), movieId, now, response, writeTime)
  {
    var cached := similarCache.Get(movieId);
    if cached.Some? && now - cached.value.timestamp < CacheTtl {
      return cached.value.data, None;
    }
    request := Some(SimilarUrl(movieId));
    if response.Ok? && response.body.Parsed? {
      similar := response.body.value.similar.GetOr([]);
      similarCache.Set(movieId, CacheEntry(similar, writeTime));
      return;
    }
    similar := [];
  }

  /** A call changes the cache at most under its own movie id. */
  lemma OnlyOwnKeyWritten(entries: map<int, CacheEntry<CastMember>>, movieId: int, now: int,
                          response: Response<CastJson>, writeTime: int,
                          similar: map<int, CacheEntry<Movie>>, similarResponse: Response<SimilarJson>)
    ensures forall k :: k != movieId ==>
      (k in CastStep(entries, movieId, now, response, writeTime).entries <==> k in entries)
    ensures forall k :: k != movieId && k in entries ==>
      CastStep(entries, movieId, now, response, writeTime).entries[k] == entries[k]
    ensures forall k :: k != movieId ==>
      (k in SimilarStep(similar, movieId, now, similarResponse, writeTime).entries <==> k in similar)
    ensures forall k :: k != movieId && k in similar ==>
      SimilarStep(similar, movieId, now, similarResponse, writeTime).entries[k] == similar[k]
  {
  }

  /**
   * Two calls for the same movie: once the first has stored a list at
   * `writeTime`, a second call less than the time-to-live later returns that
   * list without a request, whatever the network would have answered.
   */
  lemma SecondCastCallHits(entries: map<int, CacheEntry<CastMember>>, movieId: int,
                           now1: int, cast: seq<BackendCast>, writeTime: int,
                           now2: int, response2: Response<CastJson>, writeTime2: int)
    requires FreshHit(entries, movieId, now1).None? && |cast| > 0
    requires now2 - writeTime < CacheTtl
    ensures var first := CastStep(entries, movieId, now1, Ok(Parsed(CastJson(Some(cast)))), writeTime);
      && first.data == NormalizeCast(cast)
      && CastStep(first.entries, movieId, now2, response2, writeTime2) == CachedRead(first.data, None, first.entries)
  {
  }

  /** Once the time-to-live has elapsed since the entry was written, the next call fetches again. */
  lemma StaleEntryRefetched(entries: map<int, CacheEntry<Movie>>, movieId: int, now: int,
                            response: Response<SimilarJson>, writeTime: int)
    requires movieId in entries && now - entries[movieId].timestamp >= CacheTtl
    ensures SimilarStep(entries, movieId, now, response, writeTime).request == Some(SimilarUrl(movieId))
    ensures response.Ok? && response.body.Parsed? ==>
      SimilarStep(entries, movieId, now, response, writeTime).entries[movieId].timestamp == writeTime
  {
  }

  // ---------------------------------------------------------------------------
  // Image URLs (lib/api.ts:244-248)

  datatype ImageSize = W200 | W500 | W780 | Original

  /** The size used when the caller gives none. */
  const DefaultImageSize := W500

  function SizeToken(size: ImageSize): string {
    match size
    case W200 => "w200"
    case W500 => "w500"
    case W780 => "w780"
    case Original => "original"
  }

  const ImageOrigin := "https://image.tmdb.org/t/p/"

  lemma ImageOriginIsHttp(size: ImageSize, path: string)
    ensures StartsWith(ImageOrigin + SizeToken(size) + path, "http")
  {
    var url := ImageOrigin + SizeToken(size) + path;
    assert url[..4] == ImageOrigin[..4];
  }

  /** `buildImageUrl(path, size)`. */
  function BuildImageUrl(path: Option<string>, size: ImageSize := DefaultImageSize): (r: Option<string>)
    ensures r.None? <==> !Truthy(path)
    ensures r.Some? && StartsWith(path.value, "http") ==> r.value == path.value
    ensures r.Some? && !StartsWith(path.value, "http") ==>
      StartsWith(r.value, ImageOrigin + SizeToken(size)) && r.value[|ImageOrigin + SizeToken(size)|..] == path.value
    ensures r.Some? ==> StartsWith(r.value, "http")
  {
    if !Truthy(path) then None
    else if StartsWith(path.value, "http") then path
    else
      ImageOriginIsHttp(size, path.value);
      StartsWithAppend(ImageOrigin + SizeToken(size), path.value);
      Some(ImageOrigin + SizeToken(size) + path.value)
  }

  /** Building again from a built URL changes nothing, whatever the size. */
  lemma BuildImageUrlIdempotent(path: Option<string>, size: ImageSize, size2: ImageSize)
    requires BuildImageUrl(path, size).Some?
    ensures BuildImageUrl(BuildImageUrl(path, size), size2) == BuildImageUrl(path, size)
  {
  }

  /** Without a size, a relative path is served at width 500. */
  lemma BuildImageUrlDefaultSize(path: Option<string>)
    requires Truthy(path) && !StartsWith(path.value, "http")
    ensures BuildImageUrl(path) == BuildImageUrl(path, W500) == Some(ImageOrigin + "w500" + path.value)
  {
  }
}
