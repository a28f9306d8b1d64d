/**
 * Deep links to streaming services and video platforms (lib/deeplinks.ts):
 * each builder fills a fixed URL template with the percent-encoded title and
 * returns a web URL, for most services an app URL, and a fixed caption
 * (the `label` field of the source, a reserved word in Dafny).
 */
module DeepLinks {
  import opened Wrappers
  import opened Text
  import opened Uri

  datatype DeepLink = DeepLink(url: string, appUrl: Option<string>, caption: string)

  /** The part of `url` between a fixed prefix and a fixed suffix. */
  function Between(url: string, prefix: string, suffix: string): string
    requires |prefix| + |suffix| <= |url|
  {
    url[|prefix|..|url| - |suffix|]
  }

  /**
   * `url` is `prefix`, then a percent-encoded component carrying exactly
   * `text`, then `suffix`: no character of `text` reaches the URL unencoded.
   */
  predicate Embeds(url: string, prefix: string, suffix: string, text: string) {
    && |prefix| + |suffix| <= |url|
    && StartsWith(url, prefix)
    && url[|url| - |suffix|..] == suffix
    && AllSafe(Between(url, prefix, suffix))
    && DecodeBytes(Between(url, prefix, suffix)) == Some(Utf8Bytes(text))
  }

  /** A link that extends a secure template is itself a secure (`https://`) link. */
  lemma Secure(host: string, rest: string)
    ensures StartsWith(Https + host + rest, "https://")
  {
    StartsWithAppend(Https, host + rest);
    assert Https + host + rest == Https + (host + rest);
  }

  lemma EmbedSearch(prefix: string, text: string)
    ensures Embeds(prefix + EncodeURIComponent(text), prefix, "", text)
    ensures Between(prefix + EncodeURIComponent(text), prefix, "") == EncodeURIComponent(text)
  {
    EmbedEncoded(prefix, text, "");
    assert prefix + EncodeURIComponent(text) + "" == prefix + EncodeURIComponent(text);
  }

  lemma EmbedEncoded(prefix: string, text: string, suffix: string)
    ensures Embeds(prefix + EncodeURIComponent(text) + suffix, prefix, suffix, text)
    ensures Between(prefix + EncodeURIComponent(text) + suffix, prefix, suffix) == EncodeURIComponent(text)
  {
    var q := EncodeURIComponent(text);
    var url := prefix + q + suffix;
    assert url[..|prefix|] == prefix;
    assert url[|url| - |suffix|..] == suffix;
    assert Between(url, prefix, suffix) == q;
    EncodeDecodes(text);
  }

  const Https := "https://"

  // ---------------------------------------------------------------------------
  // YouTube

  const YouTubeWeb := Https + "www.youtube.com/results?search_query="
  const YouTubeApp := "youtube://results?search_query="

  /** `${year || ''}`: a missing year and the year 0 both print as nothing. */
  function YearText(year: Option<int>): (r: string)
    ensures (year.None? || year.value == 0) <==> r == ""
  {
    if year.None? || year.value == 0 then "" else IntToDecimal(year.value)
  }

  function TrailerSearch(title: string, year: Option<int>): string {
    title + " " + YearText(year) + " official trailer"
  }

  function YouTubeTrailerLink(title: string, year: Option<int>): (r: DeepLink)
    ensures StartsWith(r.url, "https://") && r.caption == "Watch Trailer" && r.appUrl.Some?
    ensures Embeds(r.url, YouTubeWeb, "", TrailerSearch(title, year))
    ensures Embeds(r.appUrl.value, YouTubeApp, "", TrailerSearch(title, year))
    ensures Between(r.url, YouTubeWeb, "") == Between(r.appUrl.value, YouTubeApp, "")
  {
    var query := EncodeURIComponent(TrailerSearch(title, year));
    EmbedSearch(YouTubeWeb, TrailerSearch(title, year));
    Secure("www.youtube.com/results?search_query=", EncodeURIComponent(TrailerSearch(title, year)));
    EmbedSearch(YouTubeApp, TrailerSearch(title, year));
    DeepLink(YouTubeWeb + query, Some(YouTubeApp + query), "Watch Trailer")
  }

  // ---------------------------------------------------------------------------
  // JustWatch

  const JustWatchWeb := Https + "www.justwatch.com/us/search?q="

  function JustWatchLink(title: string): (r: DeepLink)
    ensures StartsWith(r.url, "https://") && r.caption == "Where to Watch" && r.appUrl.None?
    ensures Embeds(r.url, JustWatchWeb, "", title)
  {
    EmbedSearch(JustWatchWeb, title);
    Secure("www.justwatch.com/us/search?q=", EncodeURIComponent(title));
    DeepLink(JustWatchWeb + EncodeURIComponent(title), None, "Where to Watch")
  }

  // ---------------------------------------------------------------------------
  // Netflix

  const NetflixTitleWeb := Https + "www.netflix.com/title/"
  const NetflixTitleApp := "nflx://www.netflix.com/title/"
  const NetflixSearchWeb := Https + "www.netflix.com/search?q="
  const NetflixSearchApp := "nflx://www.netflix.com/search?q="

  /** A truthy Netflix id gives the title page, inserted verbatim; otherwise a title search. */
  function NetflixLink(title: string, netflixId: Option<string>): (r: DeepLink)
    ensures StartsWith(r.url, "https://") && r.caption == "Netflix" && r.appUrl.Some?
    ensures Truthy(netflixId) ==>
      r.url == NetflixTitleWeb + netflixId.value && r.appUrl.value == NetflixTitleApp + netflixId.value
    ensures !Truthy(netflixId) ==>
      && Embeds(r.url, NetflixSearchWeb, "", title)
      && Embeds(r.appUrl.value, NetflixSearchApp, "", title)
      && Between(r.url, NetflixSearchWeb, "") == Between(r.appUrl.value, NetflixSearchApp, "")
  {
    if Truthy(netflixId) then
      Secure("www.netflix.com/title/", netflixId.value);
      DeepLink(NetflixTitleWeb + netflixId.value, Some(NetflixTitleApp + netflixId.value), "Netflix")
    else
      var query := EncodeURIComponent(title);
      EmbedSearch(NetflixSearchWeb, title);
      Secure("www.netflix.com/search?q=", EncodeURIComponent(title));
      EmbedSearch(NetflixSearchApp, title);
      DeepLink(NetflixSearchWeb + query, Some(NetflixSearchApp + query), "Netflix")
  }

  // ---------------------------------------------------------------------------
  // Prime Video: the keyword is `k=` on the web and `phrase=` in the app

  const PrimeWeb := Https + "www.amazon.com/s?k="
  const PrimeWebSuffix := "&i=instant-video"
  const PrimeApp := "aiv://aiv/search?phrase="

  function PrimeVideoLink(title: string): (r: DeepLink)
    ensures StartsWith(r.url, "https://") && r.caption == "Prime Video" && r.appUrl.Some?
    ensures Embeds(r.url, PrimeWeb, PrimeWebSuffix, title)
    ensures Embeds(r.appUrl.value, PrimeApp, "", title)
    ensures Between(r.url, PrimeWeb, PrimeWebSuffix) == Between(r.appUrl.value, PrimeApp, "")
  {
    var query := EncodeURIComponent(title);
    EmbedEncoded(PrimeWeb, title, PrimeWebSuffix);
    Secure("www.amazon.com/s?k=", query + PrimeWebSuffix);
    assert PrimeWeb + query + PrimeWebSuffix == PrimeWeb + (query + PrimeWebSuffix);
    EmbedSearch(PrimeApp, title);
    DeepLink(PrimeWeb + query + PrimeWebSuffix, Some(PrimeApp + query), "Prime Video")
  }

  // ---------------------------------------------------------------------------
  // Disney+

  const DisneyWeb := Https + "www.disneyplus.com/search?q="
  const DisneyApp := "disneyplus://search?q="

  function DisneyPlusLink(title: string): (r: DeepLink)
    ensures StartsWith(r.url, "https://") && r.caption == "Disney+" && r.appUrl.Some?
    ensures Embeds(r.url, DisneyWeb, "", title)
    ensures Embeds(r.appUrl.value, DisneyApp, "", title)
    ensures Between(r.url, DisneyWeb, "") == Between(r.appUrl.value, DisneyApp, "")
  {
    var query := EncodeURIComponent(title);
    EmbedSearch(DisneyWeb, title);
    Secure("www.disneyplus.com/search?q=", EncodeURIComponent(title));
    EmbedSearch(DisneyApp, title);
    DeepLink(DisneyWeb + query, Some(DisneyApp + query), "Disney+")
  }

  // ---------------------------------------------------------------------------
  // Max

  const MaxWeb := Https + "www.max.com/search?q="

  function HBOMaxLink(title: string): (r: DeepLink)
    ensures StartsWith(r.url, "https://") && r.caption == "Max" && r.appUrl.None?
    ensures Embeds(r.url, MaxWeb, "", title)
  {
    EmbedSearch(MaxWeb, title);
    Secure("www.max.com/search?q=", EncodeURIComponent(title));
    DeepLink(MaxWeb + EncodeURIComponent(title), None, "Max")
  }

  // ---------------------------------------------------------------------------
  // Apple TV+

  const AppleWeb := Https + "tv.apple.com/search?term="
  const AppleApp := "com.apple.tv://search?term="

  function AppleTVLink(title: string): (r: DeepLink)
    ensures StartsWith(r.url, "https://") && r.caption == "Apple TV+" && r.appUrl.Some?
    ensures Embeds(r.url, AppleWeb, "", title)
    ensures Embeds(r.appUrl.value, AppleApp, "", title)
    ensures Between(r.url, AppleWeb, "") == Between(r.appUrl.value, AppleApp, "")
  {
    var query := EncodeURIComponent(title);
    EmbedSearch(AppleWeb, title);
    Secure("tv.apple.com/search?term=", EncodeURIComponent(title));
    EmbedSearch(AppleApp, title);
    DeepLink(AppleWeb + query, Some(AppleApp + query), "Apple TV+")
  }

  // ---------------------------------------------------------------------------
  // Hulu

  const HuluWeb := Https + "www.hulu.com/search?q="

  function HuluLink(title: string): (r: DeepLink)
    ensures StartsWith(r.url, "https://") && r.caption == "Hulu" && r.appUrl.None?
    ensures Embeds(r.url, HuluWeb, "", title)
  {
    EmbedSearch(HuluWeb, title);
    Secure("www.hulu.com/search?q=", EncodeURIComponent(title));
    DeepLink(HuluWeb + EncodeURIComponent(title), None, "Hulu")
  }

  // ---------------------------------------------------------------------------
  // IMDb: the id is inserted verbatim, without encoding

  const IMDbWeb := Https + "www.imdb.com/title/"
  const IMDbApp := "imdb:///title/"

  function IMDbLink(imdbId: string): (r: DeepLink)
    ensures StartsWith(r.url, "https://") && r.caption == "IMDb" && r.appUrl.Some?
    ensures StartsWith(r.url, IMDbWeb) && r.url[|IMDbWeb|..] == imdbId
    ensures StartsWith(r.appUrl.value, IMDbApp) && r.appUrl.value[|IMDbApp|..] == imdbId
  {
    Secure("www.imdb.com/title/", imdbId);
    DeepLink(IMDbWeb + imdbId, Some(IMDbApp + imdbId), "IMDb")
  }

  // ---------------------------------------------------------------------------
  // Properties across builders

  /** Without a year, the trailer search has two spaces between title and "official". */
  lemma TrailerSearchWithoutYear(title: string)
    ensures TrailerSearch(title, None) == title + "  official trailer"
    ensures TrailerSearch(title, Some(0)) == TrailerSearch(title, None)
  {
  }

  /** The query a builder embeds holds no space, `&`, `#`, `?` or `/`, whatever the title. */
  lemma EmbeddedQueryHasNoDelimiter(url: string, prefix: string, suffix: string, text: string)
    requires Embeds(url, prefix, suffix, text)
    ensures var q := Between(url, prefix, suffix);
      forall i :: 0 <= i < |q| ==> q[i] != ' ' && q[i] != '&' && q[i] != '#' && q[i] != '?' && q[i] != '/'
  {
    var q := Between(url, prefix, suffix);
    forall i | 0 <= i < |q|
      ensures q[i] != ' ' && q[i] != '&' && q[i] != '#' && q[i] != '?' && q[i] != '/'
    {
      SafeCharIsNoDelimiter(q[i]);
    }
  }

  /** Titles that give the same search link have the same UTF-8 encoding: the search keeps the whole title. */
  lemma {:induction false} SearchLinksDistinguishTitles(a: string, b: string)
    requires JustWatchLink(a).url == JustWatchLink(b).url
    ensures Utf8Bytes(a) == Utf8Bytes(b)
  {
    var ua := JustWatchLink(a).url;
    assert Between(ua, JustWatchWeb, "") == Between(JustWatchLink(b).url, JustWatchWeb, "");
  }
}
