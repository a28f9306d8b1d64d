# Reckall web client — a Dafny model of its logic

Reckall identifies a movie from a short video clip. Its Next.js web client
uploads the clip to a recognition backend and shows the result. It lists the
recently identified movies, offers buttons for the streaming services that
carry a movie, builds deep links into streaming apps and search pages, and
publishes a sitemap of movie pages.

This project models the logic of five of the client's files and proves
properties of it:

- `lib/api.ts` (module `Api`, api.dfy):
  - the de-duplicated "recently identified" feed;
  - the recognition request with its progress reports and error messages;
  - the database-then-API movie lookup;
  - the two per-movie caches with a 30-minute time-to-live, modelled as a class `TtlCache` over a map;
  - the TMDB image-URL builder.
- `components/StreamingButtons.tsx` (module `StreamingButtons`, streaming_buttons.dfy):
  - the stable priority sort of streaming providers;
  - the case-insensitive de-duplication, where the first provider of a name wins;
  - the brand-colour lookup, the type labels, the link fallback and the display-name rewrite;
  - which view the component shows.
- `lib/deeplinks.ts` (module `DeepLinks`, deeplinks.dfy): the nine link builders.
- `app/page.tsx` (module `HomePage`, home_page.dfy):
  - the home page's state as a class `Home`;
  - the mount effect that loads recent movies;
  - `handleFileChange`, one method per event.
- `app/sitemap.ts` (module `Sitemap`, sitemap.dfy): the sitemap built from the database's movie rows.

Three support modules hold shared definitions:

- `Wrappers`: `Option`.
- `Text`:
  - JavaScript truthiness of optional strings;
  - ASCII `toLowerCase`, `startsWith`, `includes`, `indexOf` and first-occurrence `replace`;
  - decimal printing of integers, with a parser as its inverse.
- `Uri`: `encodeURIComponent` as section 19.2.6.5 of ECMAScript 2022 defines it (UTF-8 bytes of every character outside the unreserved set, percent-encoded), with a percent-decoder as its partner.

Database queries, HTTP responses and the clock are not performed. Each is a
parameter: a `StoreAnswer` (data and error, or a thrown exception), a
`Response` (ok with a parsed or unparseable body, not ok with a status and
body, or a network error), and integer clock readings. Each property is
therefore stated for every possible answer.

## Model

| member | source | states |
|---|---|---|
| Api.Take | lib/api.ts:64 | `.limit(n)` on the store's ordered answer keeps its first min(n, rows) rows: exactly `n` when there are more, all of them otherwise |
| Api.UniqueMoviesIds | lib/api.ts:72-83 | the kept movies' ids are exactly the ids of rows that have a movie; no id is kept twice; the result is never longer than the rows |
| Api.UniqueMoviesFirstOccurrences | lib/api.ts:75-81 | each kept movie is the movie of the first row with its id, and kept movies appear in the order of those first rows |
| Api.FeedExample | lib/api.ts:72-83 | rows whose movie ids are 5, 3, 5, 7 give the movies 5, 3, 7 |
| Api.GetRecentlyIdentified | lib/api.ts:41-88 | `limit` defaults to 12; a returned error or a thrown exception gives `[]`; otherwise the result is the first-occurrence de-duplication of the first `limit` rows, with null `data` counting as no rows; at most `limit` movies, no id twice |
| Api.NotOkError | lib/api.ts:127-129 | a non-ok response throws the body's `error` when it is truthy, "Failed to identify movie" when it is not, and "Recognition failed" when the body cannot be parsed; a JSON `null` body rejects with the TypeError of reading its `error` |
| Api.RecognizeVideo | lib/api.ts:111-141 | progress 10 comes before the request and 50 after it; a network error reports only 10 and rejects with its reason; a non-ok status or an unparseable ok body reports exactly 10 and 50 and rejects with the error message or the parse error; 100 is reported exactly when the response is ok and its body parses; an ok result without a movie rejects with the clearer-dialogue message; otherwise the parsed result is returned unchanged; no reports without a callback |
| Api.ProgressRises | lib/api.ts:118-134 | the reported percentages strictly increase |
| Api.NoMatchExample | lib/api.ts:127-129 | a 500 response with `{"error":"no match"}` rejects with "no match" |
| Api.GetMovieById | lib/api.ts:143-167 | a database row is returned with no API request; with no row, one request to `/movies/<id>` is made and its parsed ok body is the result, otherwise null; a thrown store error gives null |
| Api.FallbackExample | lib/api.ts:152-160 | a failed store query followed by an ok API answer returns the API's movie |
| Api.TtlCache.constructor | lib/api.ts:170 | a cache starts empty |
| Api.TtlCache.Get | lib/api.ts:176 | `Map.get`: an entry exactly when the key is present, and it is the stored one |
| Api.TtlCache.Set | lib/api.ts:202 | `Map.set`: the map afterwards is the old one with this key overwritten |
| Api.FreshHit | lib/api.ts:176-180 | a hit exactly when an entry exists and is younger than 1,800,000 ms; an entry exactly that old is stale; a hit returns the stored data |
| Api.NormalizeCast | lib/api.ts:193-199 | the cast list keeps its length and order; `name`, `character`, `tmdb_id` and `profile_url` become `actor_name`, `character_name`, `tmdb_person_id` and `profile_path` |
| Api.CastStep | lib/api.ts:173-212 | a fresh hit returns the cached list with no request and no write; a miss requests `/movies/<id>/cast`; only an ok response with a non-empty cast writes `(normalised list, write time)` under the movie id and returns it; anything else returns `[]` and leaves the cache as it was |
| Api.GetMovieCast | lib/api.ts:173-212 | the method's result, request and new cache contents are exactly those of `CastStep` on the old contents |
| Api.SimilarStep | lib/api.ts:218-242 | a fresh hit returns the cached list with no request; a miss requests `/movies/<id>/similar`; every ok, parseable response writes `data.similar` or `[]` (an empty list included); anything else returns `[]` and leaves the cache as it was |
| Api.GetSimilarMovies | lib/api.ts:218-242 | the method's result, request and new cache contents are exactly those of `SimilarStep` on the old contents |
| Api.OnlyOwnKeyWritten | lib/api.ts:173-242 | neither cache changes any key other than the requested movie id |
| Api.SecondCastCallHits | lib/api.ts:176-202 | after a call stores a cast list, a second call within the time-to-live returns that list with no request, whatever the network would answer |
| Api.StaleEntryRefetched | lib/api.ts:221-235 | an entry at least the time-to-live old is fetched again and, on an ok answer, rewritten with the new time |
| Api.ImageOriginIsHttp | lib/api.ts:247 | the built TMDB URL starts with "http" |
| Api.BuildImageUrl | lib/api.ts:244-248 | the size defaults to w500; null exactly for a null or empty path; a path starting with "http" comes back unchanged; any other path is appended to the TMDB origin and size; every result starts with "http" |
| Api.BuildImageUrlDefaultSize | lib/api.ts:244-247 | without a size, a relative path is served under `https://image.tmdb.org/t/p/w500` |
| Api.BuildImageUrlIdempotent | lib/api.ts:246 | building again from a built URL, with any size, gives the same URL |
| StreamingButtons.Band | components/StreamingButtons.tsx:112-115 | the providers of one priority are exactly the input's providers with that priority |
| StreamingButtons.SortIsStableSort | components/StreamingButtons.tsx:112-115 | the sort is a permutation and is ordered by priority (subscription 0, free 1, rent 2, buy 3, any other type 4); within each priority the input order is unchanged, which is what a stable `Array.prototype.sort` gives |
| StreamingButtons.FirstByNameKeys | components/StreamingButtons.tsx:117-123 | every kept provider is an input provider, and every lower-cased input name is represented |
| StreamingButtons.FirstByNameUnique | components/StreamingButtons.tsx:117-123 | no two kept providers share a lower-cased name |
| StreamingButtons.FirstByNameFirst | components/StreamingButtons.tsx:117-123 | each kept provider is the first of its lower-cased name in the list the loop walks |
| StreamingButtons.FirstByNameSorted | components/StreamingButtons.tsx:117-123 | de-duplicating a priority-ordered list keeps it priority-ordered |
| StreamingButtons.FirstInSortedIsLowest | components/StreamingButtons.tsx:112-123 | in a priority-ordered list the first provider of a name has that name's lowest priority |
| StreamingButtons.KeptIsLowest | components/StreamingButtons.tsx:112-123 | each kept provider is an input provider with the lowest priority of its name |
| StreamingButtons.PreferredKept | components/StreamingButtons.tsx:112-123 | each kept provider has the lowest priority of its name, and among equal priorities it comes earliest in the input |
| StreamingButtons.UniqueProviders | components/StreamingButtons.tsx:107-123 | the loop with its `seen` set yields the first-by-name list of the sorted providers: no name twice, every name once, each kept provider preferred as above, priority-ordered, and never longer than the input |
| StreamingButtons.SubscriptionBeatsRent | components/StreamingButtons.tsx:112-123 | "Netflix" by subscription wins over "netflix" to rent, whatever their input order |
| StreamingButtons.SameNameKeepsFirst | components/StreamingButtons.tsx:117-123 | of two providers whose names differ only in case, the first is kept |
| StreamingButtons.Lookup | components/StreamingButtons.tsx:56 | the exact-key lookup finds a colour exactly when the lower-cased name is a table key, and the colour is the one listed |
| StreamingButtons.FirstPartial | components/StreamingButtons.tsx:58-62 | the partial match returns the colour of the first entry, in table order, whose key contains the name or is contained in it, and none when no entry does |
| StreamingButtons.ColorForRules | components/StreamingButtons.tsx:53-64 | an exact key wins; otherwise the first partial match in table order; otherwise "#6366F1" |
| StreamingButtons.ColorForIsListed | components/StreamingButtons.tsx:53-64 | the colour is always a table value or the default purple |
| StreamingButtons.ServiceColorRules | components/StreamingButtons.tsx:15-64 | the three rules hold for the 35-entry table on the lower-cased name |
| StreamingButtons.PartialFromTable | components/StreamingButtons.tsx:58-62 | the loop over the entries, returning at the first key that contains the name or is contained in it, gives exactly the first partial match in table order, or none |
| StreamingButtons.ColorFromTable | components/StreamingButtons.tsx:53-64 | the exact lookup, then the loop, then the default give the colour the rules define, and it is a listed colour or the default |
| StreamingButtons.GetServiceColor | components/StreamingButtons.tsx:53-64 | the colour the rules give for the service table, always a table value or the default |
| StreamingButtons.EmptyNameIsNetflixRed | components/StreamingButtons.tsx:15-64 | an empty name is contained in every key, so it takes the first entry's colour, Netflix red |
| StreamingButtons.ConstructorNameGetsNoColor | components/StreamingButtons.tsx:56 | as written, the name "Constructor" makes the exact lookup return the object's inherited `constructor` member rather than a colour |
| StreamingButtons.AsWrittenAgreesElsewhere | components/StreamingButtons.tsx:53-64 | for every other name the code as written gives the colour of `GetServiceColor` |
| StreamingButtons.TypeLabel | components/StreamingButtons.tsx:66-74 | the label is always "", "Rent", "Buy" or "Free" |
| StreamingButtons.LabelledIffMiddlePriority | components/StreamingButtons.tsx:66-74 | a type has a label exactly when its sort priority is free, rent or buy |
| StreamingButtons.LinkCases | components/StreamingButtons.tsx:128-144 | the link is the provider's URL when it is truthy, else the JustWatch URL, else "#"; the click is prevented exactly when both are absent or empty, and then the link is "#" |
| StreamingButtons.DisplayNameShortens | components/StreamingButtons.tsx:165 | the rewritten name is never longer, and a name containing neither " Plus" nor " Premium" is unchanged |
| StreamingButtons.DisplayNameOfSuffixedWord | components/StreamingButtons.tsx:165 | a one-word name followed by " Plus" or " Premium" becomes that word followed by "+" |
| StreamingButtons.Render | components/StreamingButtons.tsx:76-190 | loading shows four placeholders; an empty list shows the empty state, with "Try again" exactly when a refresh is given; otherwise one button per de-duplicated provider in order, plus the JustWatch button exactly when its URL is truthy |
| DeepLinks.YouTubeTrailerLink | lib/deeplinks.ts:10-17 | the https URL and the app URL both carry the encoding of title, year or nothing, and " official trailer"; the caption is "Watch Trailer" |
| DeepLinks.TrailerSearchWithoutYear | lib/deeplinks.ts:11 | a missing year and year 0 give the same search text |
| DeepLinks.JustWatchLink | lib/deeplinks.ts:20-26 | an https search link with the encoded title, caption "Where to Watch" and no app URL |
| DeepLinks.NetflixLink | lib/deeplinks.ts:29-43 | a truthy Netflix id gives `/title/<id>` in both URLs; otherwise both are searches with the encoded title |
| DeepLinks.PrimeVideoLink | lib/deeplinks.ts:46-53 | the web link carries the encoded title in `k=` and the app link carries the same text in `phrase=` |
| DeepLinks.DisneyPlusLink | lib/deeplinks.ts:56-63 | both URLs carry the same encoded title; the caption is "Disney+" |
| DeepLinks.HBOMaxLink | lib/deeplinks.ts:66-72 | an https search link with the encoded title, caption "Max" and no app URL |
| DeepLinks.AppleTVLink | lib/deeplinks.ts:75-82 | both URLs carry the same encoded title; the caption is "Apple TV+" |
| DeepLinks.HuluLink | lib/deeplinks.ts:85-91 | an https search link with the encoded title, caption "Hulu" and no app URL |
| DeepLinks.IMDbLink | lib/deeplinks.ts:94-100 | the IMDb id follows the title path verbatim, without encoding, in both URLs |
| DeepLinks.EmbeddedQueryHasNoDelimiter | lib/deeplinks.ts:21 | a query that embeds an encoded title holds no space, `&`, `#`, `?` or `/` |
| DeepLinks.SearchLinksDistinguishTitles | lib/deeplinks.ts:20-26 | two titles that give the same search link have the same UTF-8 bytes, so the link keeps the whole title |
| Uri.EncodeURIComponent | lib/deeplinks.ts:21 | the encoding holds only unreserved characters and percent escapes |
| Uri.EncodeDecodes | lib/deeplinks.ts:21 | percent-decoding the encoding gives back the title's UTF-8 bytes |
| Uri.EncodeUnreservedIdentity | lib/deeplinks.ts:21 | a title made only of unreserved characters is left as it is |
| Uri.EncodeSpace | lib/deeplinks.ts:11 | a space becomes "%20" |
| HomePage.StartMessage | app/page.tsx:54-55 | "Uploading large video..." exactly when the size in MiB exceeds 25, otherwise "Uploading video..." |
| HomePage.MoviePath | app/page.tsx:67-68 | the route is `/movie/` followed by `tmdb_id`, or by `id` when `tmdb_id` is 0 |
| HomePage.MoviePathIdentifies | app/page.tsx:422 | two movies lead to the same page exactly when their route ids agree |
| HomePage.ErrorText | app/page.tsx:70 | an Error gives its message; anything else gives "Failed to identify movie" |
| HomePage.Home.constructor | app/page.tsx:13-19 | no recent movies, loading, not uploading, progress 0, empty message, no error |
| HomePage.Home.LoadRecent | app/page.tsx:22-34 | the effect asks for 24 movies and shows the de-duplicated feed, or none on failure; loading ends either way; nothing else changes |
| HomePage.Home.StartUpload | app/page.tsx:50-55 | error cleared, uploading on, progress 0, and the size-dependent message |
| HomePage.Home.OnProgress | app/page.tsx:60-63 | the callback copies both the percentage and the message into state |
| HomePage.Home.Finish | app/page.tsx:66-72 | success navigates to the movie's path and stays uploading; failure shows the error text and stops uploading |
| HomePage.Home.HandleFileChange | app/page.tsx:40-78 | no file changes nothing; a non-video sets only "Please select a video file"; a video ends with the last progress report shown, navigation or the error as the outcome says, and the input cleared; the recent movies are never touched |
| HomePage.StartMessageReplaced | app/page.tsx:55-62 | the first progress report is "Uploading video...", and the message shown at the end is never the large-file one |
| HomePage.RecognizedEndsAtFull | app/page.tsx:60-68 | a successful upload ends at 100 with "Movie identified!" |
| Sitemap.MoviePages | app/sitemap.ts:29-34 | one weekly page of priority 0.8 per row, in row order, at `/movie/<tmdb_id>` with the row's creation date |
| Sitemap.BuildSitemap | app/sitemap.ts:8-41 | the daily home entry of priority 1 at "https://reckall.app" comes first; null data or a thrown query gives only that entry; otherwise 1 + n entries, row by row |
| Sitemap.MovieUrlShape | app/sitemap.ts:30 | every movie URL lies under "https://reckall.app/movie/" |
| Sitemap.MovieUrlInjective | app/sitemap.ts:30 | distinct TMDB ids give distinct URLs |
| Sitemap.HomeIsNoMoviePage | app/sitemap.ts:14-30 | the home URL is no movie page's URL |
| Sitemap.SitemapShape | app/sitemap.ts:29-36 | the built sitemap is the home entry followed by one page per row |
| Sitemap.DistinctUrlsIffDistinctIds | app/sitemap.ts:29-36 | the sitemap lists no URL twice exactly when the rows hold no TMDB id twice |
| Sitemap.SitemapSize | app/sitemap.ts:27 | with the query's limit of 1000 honoured, the sitemap has at most 1001 entries |

## Left out

- Supabase queries, `fetch`, `FormData` and `response.json()` are not modelled. Their outcomes are parameters, so the database's own filtering and ordering (`result_movie_id` not null, newest first, most popular first) is assumed of the answer and not modelled.
- `Date.now()` and `new Date(...)` are not modelled. The caches take two clock readings as parameters: one at the check and one at the write after the response. A sitemap date is kept as the raw `created_at` text or as "generation time".
- `console` logging is not modelled.
- `openDeepLink` (lib/deeplinks.ts:103-117) is left out: it uses `window`, the user-agent test and `setTimeout`.
- `getRecentMovies` (lib/api.ts:90-108) is left out: it passes a database answer through unchanged.
- The streaming-provider fetch and its refresh are not part of this model. `Provider` holds only the fields the component reads; its `kind` is the source's `type`, and a `DeepLink`'s `caption` is the source's `label`.
- Interleaving of concurrent awaits is not modelled: each call is atomic. Two overlapping cache misses therefore cannot both fetch in the model.
- JSX markup, animation, images, the progress ring's floating-point arithmetic and the other pages and components are left out.
- The environment overrides of the backend and Supabase URLs are left out: the backend base URL is a constant.
- `Text.ToLower` covers ASCII only, where JavaScript's `toLowerCase` is full Unicode.
- `Uri.EncodeURIComponent` has no error path. The URIError for a lone surrogate cannot arise from a Dafny character.
- StreamingButtons.PriorityOf: does not model inherited `Object.prototype` keys for a provider `type`. A type of "constructor" gives NaN in the comparator, so that provider compares equal to every other. In the model any unlisted type has priority 4.
- Api.NotOkError: treats the `error` field of an error body as a string or absent. Other JSON values for it are not modelled.
- HomePage.StartMessage: the size-dependent message is replaced by the first progress report before it can be seen. `StartMessageReplaced` states this.
- StreamingButtons.Render: colours each button with the corrected lookup `ServiceColor`. For a provider named "Constructor" or "__proto__" the program as written sets the button's `backgroundColor` to the inherited `Object.prototype` member instead (see Findings). For every other name the two agree, as `AsWrittenAgreesElsewhere` states.
- HomePage.Home.Finish: requires that a recognised result carries a movie. `recognizeVideo` throws otherwise, so the source never reaches that case.

## Findings

| source | as written | input that shows it | evidently intended | confidence | as-written member | corrected member |
|---|---|---|---|---|---|---|
| components/StreamingButtons.tsx:56 | The exact lookup indexes a plain object literal with the lower-cased name. Inherited `Object.prototype` members such as `constructor` are found as well, and being truthy they are returned as the "colour". | a provider named "Constructor" (or "__proto__") | a table colour, a partial match or the default "#6366F1" | low; not executed | StreamingButtons.ConstructorNameGetsNoColor | StreamingButtons.GetServiceColor |
