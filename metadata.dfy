/**
 * `SpotifyMetadataExtractor`: the Spotify URL checks, the episode/show ID parser, and the
 * default and fallback rules that turn an episode page into a metadata record. Fetching
 * the page, BeautifulSoup and `json.loads` are outside: the page arrives as the values
 * those produce.
 */
module Metadata {
  import opened Wrappers
  import opened Text
  import opened Urls

  // ---------------------------------------------------------------- URL validation

  const EpisodeOrShow: seq<string> := ["/episode/", "/show/"]

  /** `is_valid_spotify_url` of the metadata extractor. */
  predicate IsValidSpotifyUrl(url: string, parse: UrlParser) { SpotifyUrlWith(url, parse, EpisodeOrShow) }

  /** Valid exactly when the parse succeeds, the host is one of the two Spotify hosts and the
      path starts with "/episode/" or "/show/". */
  lemma ValidSpotifyUrlIff(url: string, parse: UrlParser)
    ensures IsValidSpotifyUrl(url, parse) <==>
      && parse(url).Some?
      && (parse(url).value.netloc == "open.spotify.com" || parse(url).value.netloc == "spotify.com")
      && (StartsWith(parse(url).value.path, "/episode/") || StartsWith(parse(url).value.path, "/show/"))
  {
    if parse(url).Some? {
      var p := parse(url).value;
      if StartsWith(p.path, "/episode/") { assert StartsWith(p.path, EpisodeOrShow[0]); }
      if StartsWith(p.path, "/show/") { assert StartsWith(p.path, EpisodeOrShow[1]); }
    }
  }

  // ---------------------------------------------------------------- ID extraction

  const SpotifyBase := "https://open.spotify.com/"

  /** Length of the longest run of `[a-zA-Z0-9]` at the start of `s` (the greedy `+`). */
  function AlnumRun(s: string): (n: nat)
    ensures n <= |s|
    ensures forall k :: 0 <= k < n ==> IsAlnum(s[k])
    ensures n < |s| ==> !IsAlnum(s[n])
    decreases |s|
  {
    if s != [] && IsAlnum(s[0]) then 1 + AlnumRun(s[1..]) else 0
  }

  /** `(kind)/([a-zA-Z0-9]+)` at the start of `rest`: the ID it captures. */
  function MatchKind(rest: string, kind: string): Option<string> {
    if StartsWith(rest, kind + "/") then
      var tail := rest[|kind| + 1..];
      var n := AlnumRun(tail);
      if n > 0 then Some(tail[..n]) else None
    else None
  }

  /** `extract_spotify_id`: `re.match` of
      `https://open\.spotify\.com/(episode|show)/([a-zA-Z0-9]+)(?:\?.*)?`. The match is
      anchored at the start only, and the optional query group never constrains it. */
  function ExtractSpotifyId(url: string): Result<(string, string)> { ExtractAfter(SpotifyBase, url) }

  /** The same match with the literal start `base` in place of the Spotify base; no match
      raises a ValueError quoting the URL. */
  function ExtractAfter(base: string, url: string): Result<(string, string)> {
    match MatchAfter(base, url)
    case Some(m) => Success(m)
    case None => Failure(ValueError("Invalid Spotify URL format: " + url))
  }

  /** The match itself: the kind and the ID, when there is one. */
  function MatchAfter(base: string, url: string): Option<(string, string)> {
    if !StartsWith(url, base) then None else MatchKinds(url[|base|..])
  }

  /** The part of the pattern after the base: "episode/" or else "show/", then the ID. */
  function MatchKinds(rest: string): Option<(string, string)> {
    match MatchKind(rest, "episode")
    case Some(id) => Some(("episode", id))
    case None =>
      match MatchKind(rest, "show")
      case Some(id) => Some(("show", id))
      case None => None
  }

  predicate IsSpotifyId(id: string) { id != [] && forall k :: 0 <= k < |id| ==> IsAlnum(id[k]) }

  /** A successful extraction gives "episode" or "show" and a non-empty alphanumeric ID that
      the URL spells out after the base, followed by the end or a non-alphanumeric character;
      a failure is a ValueError quoting the URL. */
  lemma ExtractSpotifyIdShape(url: string)
    ensures match ExtractSpotifyId(url)
      case Success((kind, id)) =>
        && (kind == "episode" || kind == "show")
        && IsSpotifyId(id)
        && StartsWith(url, SpotifyBase + kind + "/" + id)
        && var n := |SpotifyBase + kind + "/" + id|; (n < |url| ==> !IsAlnum(url[n]))
      case Failure(e) => e == ValueError("Invalid Spotify URL format: " + url)
  {
    ExtractAfterShape(SpotifyBase, url);
  }

  lemma ExtractAfterShape(base: string, url: string)
    ensures match ExtractAfter(base, url)
      case Success((kind, id)) =>
        && (kind == "episode" || kind == "show")
        && IsSpotifyId(id)
        && StartsWith(url, base + kind + "/" + id)
        && var n := |base + kind + "/" + id|; (n < |url| ==> !IsAlnum(url[n]))
      case Failure(e) => e == ValueError("Invalid Spotify URL format: " + url)
  {
    if StartsWith(url, base) {
      var rest := url[|base|..];
      match MatchAfter(base, url)
      case Some((kind, id)) =>
        assert MatchKind(rest, kind) == Some(id);
        MatchKindShape(rest, kind);
        StartsWithAfter(url, base, kind + "/" + id);
        assert base + (kind + "/" + id) == base + kind + "/" + id;
      case None =>
    }
  }

  lemma MatchKindShape(rest: string, kind: string)
    ensures match MatchKind(rest, kind)
      case Some(id) =>
        && IsSpotifyId(id)
        && StartsWith(rest, kind + "/" + id)
        && (|kind + "/" + id| < |rest| ==> !IsAlnum(rest[|kind + "/" + id|]))
      case None => true
  {
    if MatchKind(rest, kind).Some? {
      var tail := rest[|kind| + 1..];
      var id := tail[..AlnumRun(tail)];
      assert rest == rest[..|kind| + 1] + tail;
      assert rest[..|kind + "/" + id|] == kind + "/" + id;
    }
  }

  /** Writing an ID after the base and a kind, followed by anything that does not continue
      the ID (the end, or a query such as "?si=..."), reads back that kind and ID. */
  lemma ExtractSpotifyIdRoundTrip(kind: string, id: string, rest: string)
    requires kind == "episode" || kind == "show"
    requires IsSpotifyId(id)
    requires rest == [] || !IsAlnum(rest[0])
    ensures ExtractSpotifyId(SpotifyBase + kind + "/" + id + rest) == Success((kind, id))
  {
    ExtractAfterRoundTrip(SpotifyBase, kind, id, rest);
  }

  lemma ExtractAfterRoundTrip(base: string, kind: string, id: string, rest: string)
    requires kind == "episode" || kind == "show"
    requires IsSpotifyId(id)
    requires rest == [] || !IsAlnum(rest[0])
    ensures ExtractAfter(base, base + kind + "/" + id + rest) == Success((kind, id))
  {
    MatchAfterRoundTrip(base, kind, id, rest);
  }

  lemma MatchAfterRoundTrip(base: string, kind: string, id: string, rest: string)
    requires kind == "episode" || kind == "show"
    requires IsSpotifyId(id)
    requires rest == [] || !IsAlnum(rest[0])
    ensures MatchAfter(base, base + kind + "/" + id + rest) == Some((kind, id))
  {
    var r := kind + "/" + id + rest;
    assert base + kind + "/" + id + rest == base + r;
    AfterBase(base, r);
    MatchKindsRoundTrip(kind, id, rest);
  }

  lemma MatchKindsRoundTrip(kind: string, id: string, rest: string)
    requires kind == "episode" || kind == "show"
    requires IsSpotifyId(id)
    requires rest == [] || !IsAlnum(rest[0])
    ensures MatchKinds(kind + "/" + id + rest) == Some((kind, id))
  {
    MatchKindRoundTrip(kind, id, rest);
    if kind == "show" {
      ShowIsNotEpisode(id + rest);
      assert kind + "/" + id + rest == "show/" + (id + rest);
    }
  }

  lemma AfterBase(base: string, r: string)
    ensures StartsWith(base + r, base) && (base + r)[|base|..] == r
  {
    StartsWithConcat(base, r);
  }

  lemma MatchKindRoundTrip(kind: string, id: string, rest: string)
    requires IsSpotifyId(id)
    requires rest == [] || !IsAlnum(rest[0])
    ensures MatchKind(kind + "/" + id + rest, kind) == Some(id)
  {
    var tail := id + rest;
    assert kind + "/" + id + rest == (kind + "/") + tail;
    AfterBase(kind + "/", tail);
    AlnumRunOf(id, rest);
    assert tail[..|id|] == id;
  }

  lemma ShowIsNotEpisode(tail: string)
    ensures MatchKind("show/" + tail, "episode") == None
  {
    assert ("show/" + tail)[0] == 's';
  }

  lemma {:induction false} AlnumRunOf(id: string, rest: string)
    requires IsSpotifyId(id)
    requires rest == [] || !IsAlnum(rest[0])
    ensures AlnumRun(id + rest) == |id|
  {
    assert (id + rest)[1..] == id[1..] + rest;
    if |id| > 1 {
      AlnumRunOf(id[1..], rest);
    }
  }

  /** The episode link the project's demo uses gives its type and ID; the share query is
      ignored. */
  lemma ExampleEpisodeId()
    ensures ExtractSpotifyId(SpotifyBase + "episode" + "/" + "2kH22WJJL6k6HRk6oHxNNI" + "?si=333ef8da1388424d")
      == Success(("episode", "2kH22WJJL6k6HRk6oHxNNI"))
  {
    var id := "2kH22WJJL6k6HRk6oHxNNI";
    assert IsSpotifyId(id);
    ExtractSpotifyIdRoundTrip("episode", id, "?si=333ef8da1388424d");
  }

  // ---------------------------------------------------------------- show URL checks

  /** The checks `get_show_metadata` makes before fetching anything. */
  function ShowUrlError(url: string, parse: UrlParser): Option<Error> {
    if !IsValidSpotifyUrl(url, parse) then Some(ValueError("Invalid Spotify URL: " + url))
    else
      match ExtractSpotifyId(url)
      case Failure(e) => Some(e)
      case Success((kind, _)) =>
        if kind != "show" then Some(ValueError("URL must be a show, not " + kind)) else None
  }

  /** `get_show_metadata`: the checks, then the fetch (its page parsing is a service). */
  function GetShowMetadata<M>(url: string, parse: UrlParser, fetch: string -> Result<M>): Result<M> {
    match ShowUrlError(url, parse)
    case Some(e) => Failure(e)
    case None => fetch(url)
  }

  /** The URL is checked before any fetch: a rejected URL fails the same way whatever the
      service would have answered, and the fetch runs only for a show ID. */
  lemma ShowChecksBeforeFetch<M>(url: string, parse: UrlParser, f: string -> Result<M>, g: string -> Result<M>)
    ensures ShowUrlError(url, parse).Some? ==> GetShowMetadata(url, parse, f) == GetShowMetadata(url, parse, g)
    ensures ShowUrlError(url, parse).None? <==>
      IsValidSpotifyUrl(url, parse) && ExtractSpotifyId(url).Success? && ExtractSpotifyId(url).value.0 == "show"
  {
  }

  /** An episode link is refused with "URL must be a show". */
  lemma EpisodeUrlRefused(id: string, rest: string, parse: UrlParser)
    requires IsSpotifyId(id) && (rest == [] || !IsAlnum(rest[0]))
    requires IsValidSpotifyUrl(SpotifyBase + "episode" + "/" + id + rest, parse)
    ensures ShowUrlError(SpotifyBase + "episode" + "/" + id + rest, parse)
      == Some(ValueError("URL must be a show, not " + "episode"))
  {
    ExtractSpotifyIdRoundTrip("episode", id, rest);
  }

  /** A link on the host "spotify.com" passes validation but then fails ID extraction,
      whose pattern names only open.spotify.com. */
  lemma SpotifyComHostFailsExtraction(parse: UrlParser)
    requires parse("https://spotify.com/show/abc") == Some(ParsedUrl("spotify.com", "/show/abc"))
    ensures IsValidSpotifyUrl("https://spotify.com/show/abc", parse)
    ensures ShowUrlError("https://spotify.com/show/abc", parse)
      == Some(ValueError("Invalid Spotify URL format: " + "https://spotify.com/show/abc"))
  {
    ValidSpotifyUrlIff("https://spotify.com/show/abc", parse);
    assert "/show/abc"[..6] == "/show/";
    assert "https://spotify.com/show/abc"[8] == 's';
    assert !StartsWith("https://spotify.com/show/abc", SpotifyBase);
  }

  // ---------------------------------------------------------------- the episode page

  /** An `image` value: a URL string, an object with an optional `url`, or anything else. */
  datatype Image = ImageText(url: string) | ImageObject(objectUrl: Option<string>) | ImageOther

  /** The `publisher` value inside `partOfSeries`: an object with an optional name, or not an
      object (then `.get` raises). */
  datatype Publisher = PublisherObject(name: Option<string>) | PublisherOther

  /** The `partOfSeries` value. */
  datatype Series = SeriesObject(name: Option<string>, publisher: Option<Publisher>) | SeriesOther

  /** The keys of a JSON-LD object the extractor reads; a missing key is `None`. */
  datatype LdObject = LdObject(
    ldType: Option<string>, name: Option<string>, description: Option<string>,
    duration: Option<string>, datePublished: Option<string>,
    partOfSeries: Option<Series>, image: Option<Image>)

  /** A decoded script: an object, a list, or a scalar (a string, number, boolean or null). */
  datatype Json = JObject(obj: LdObject) | JList(items: seq<Json>) | JScalar

  /** One `application/ld+json` script: undecodable (JSONDecodeError), unreadable (its
      `.string` is None, and `json.loads` raises a TypeError), or decoded. */
  datatype Script = Undecodable | Unreadable | Decoded(value: Json)

  /** A `<meta>` tag found by property, with its optional `content` attribute. */
  datatype MetaTag = MetaTag(content: Option<string>)

  /** What the extractor asks the parsed page for. */
  datatype Page = Page(
    scripts: seq<Script>,
    ogTitle: Option<MetaTag>, ogDescription: Option<MetaTag>, ogImage: Option<MetaTag>,
    titleText: Option<string>)

  /** The metadata dictionary `_extract_metadata_from_html` returns. */
  datatype EpisodeMetadata = EpisodeMetadata(
    url: string, title: string, description: string, showName: string,
    publisher: string, duration: string, releaseDate: string, imageUrl: Option<string>)

  const Unknown := "Unknown"

  function Defaults(url: string): EpisodeMetadata {
    EpisodeMetadata(url, Unknown, "", Unknown, Unknown, Unknown, Unknown, None)
  }

  const EmptyObject := LdObject(None, None, None, None, None, None, None)

  /** `data[0] if data else {}` for a list, the value itself otherwise. */
  function Normalized(v: Json): Json {
    if v.JList? then (if v.items != [] then v.items[0] else JObject(EmptyObject)) else v
  }

  /** How the scan over the scripts ends: an episode filled the record, an exception left
      the outer handler with the record as it stood, or no script was an episode. */
  datatype Scan = Filled(m: EpisodeMetadata) | Aborted(m: EpisodeMetadata) | NotFound

  /** The fields set from a PodcastEpisode object (`metadata.update`, series, image). */
  function FillFrom(m: EpisodeMetadata, o: LdObject): Scan {
    var m1 := m.(title := o.name.GetOr(m.title), description := o.description.GetOr(m.description),
                 duration := o.duration.GetOr(m.duration), releaseDate := o.datePublished.GetOr(m.releaseDate));
    match o.partOfSeries
    case Some(SeriesOther) => Aborted(m1)
    case Some(SeriesObject(sName, pub)) =>
      var m2 := m1.(showName := sName.GetOr(m1.showName));
      (match pub
       case Some(PublisherOther) => Aborted(m2)
       case Some(PublisherObject(pName)) => Filled(WithImage(m2.(publisher := pName.GetOr(m2.publisher)), o.image))
       case None => Filled(WithImage(m2, o.image)))
    case None => Filled(WithImage(m1, o.image))
  }

  function WithImage(m: EpisodeMetadata, image: Option<Image>): EpisodeMetadata {
    match image
    case Some(ImageText(u)) => m.(imageUrl := Some(u))
    case Some(ImageObject(u)) => m.(imageUrl := u)
    case _ => m
  }

  predicate IsEpisode(d: Json) { d.JObject? && d.obj.ldType == Some("PodcastEpisode") }

  /** The loop over the JSON-LD scripts from index `i`, starting from the record `m`. */
  function ScanFrom(scripts: seq<Script>, i: nat, m: EpisodeMetadata): Scan
    requires i <= |scripts|
    decreases |scripts| - i
  {
    if i == |scripts| then NotFound
    else match scripts[i]
      case Undecodable => ScanFrom(scripts, i + 1, m)
      case Unreadable => Aborted(m)
      case Decoded(v) =>
        var d := Normalized(v);
        if !d.JObject? then Aborted(m)
        else if IsEpisode(d) then FillFrom(m, d.obj)
        else ScanFrom(scripts, i + 1, m)
  }

  /** The `og:title`, `og:description` and `og:image` tags. */
  function WithMetaTags(m: EpisodeMetadata, page: Page): EpisodeMetadata {
    var m1 := if page.ogTitle.Some? then m.(title := page.ogTitle.value.content.GetOr(m.title)) else m;
    var m2 := if page.ogDescription.Some? then m1.(description := page.ogDescription.value.content.GetOr(m1.description)) else m1;
    if page.ogImage.Some? then m2.(imageUrl := page.ogImage.value.content) else m2
  }

  const TitleSep := " | "

  /** The page-title fallback: "Episode | Show | Spotify". */
  function TitleFallback(m: EpisodeMetadata, titleText: Option<string>): EpisodeMetadata {
    if m.title == Unknown && titleText.Some? then
      var t := Strip(titleText.value);
      var parts := SplitOn(t, TitleSep);
      if Contains(t, TitleSep) && |parts| >= 2 then m.(title := Strip(parts[0]), showName := Strip(parts[1]))
      else m
    else m
  }

  const DescriptionSep := " \U{B7} "

  /** The description fallback: "Show · Episode". */
  function DescriptionFallback(m: EpisodeMetadata): EpisodeMetadata {
    if m.showName == Unknown && m.description != "" && Contains(m.description, DescriptionSep) then
      var parts := SplitOn(m.description, DescriptionSep);
      var potentialShow := Strip(parts[0]);
      if potentialShow != "" && potentialShow != Unknown && |potentialShow| > 3 then m.(showName := potentialShow)
      else m
    else m
  }

  /** The record `_extract_metadata_from_html` returns for a page. */
  function MetadataOf(page: Page, url: string): EpisodeMetadata {
    match ScanFrom(page.scripts, 0, Defaults(url))
    case Filled(m) => m
    case Aborted(m) => m
    case NotFound => DescriptionFallback(TitleFallback(WithMetaTags(Defaults(url), page), page.titleText))
  }

  /** `_extract_metadata_from_html`: the record is updated in place, the scan returns at
      the first episode, and an exception ends the extraction with the record as it stands. */
  method ExtractMetadataFromHtml(page: Page, url: string) returns (metadata: EpisodeMetadata)
    ensures metadata == MetadataOf(page, url)
  {
    metadata := Defaults(url);
    var scripts := page.scripts;
    var i := 0;
    while i < |scripts|
      invariant 0 <= i <= |scripts|
      invariant ScanFrom(scripts, i, metadata) == ScanFrom(scripts, 0, Defaults(url))
      invariant metadata == Defaults(url)
    {
      var script := scripts[i];
      if script.Unreadable? {
        return;
      }
      if script.Decoded? {
        var data := script.value;
        if data.JList? {
          data := if data.items != [] then data.items[0] else JObject(EmptyObject);
        }
        if !data.JObject? {
          return;
        }
        if data.obj.ldType == Some("PodcastEpisode") {
          metadata := FillFromEpisode(metadata, data.obj);
          return;
        }
      }
      i := i + 1;
    }

    metadata := ApplyFallbacks(metadata, page);
  }

  /** The episode branch of the scan: the fields the object gives, then its series and its
      image; a series or publisher of the wrong type raises, leaving the record as it stands. */
  method FillFromEpisode(m: EpisodeMetadata, o: LdObject) returns (metadata: EpisodeMetadata)
    ensures !FillFrom(m, o).NotFound? && metadata == FillFrom(m, o).m
  {
    metadata := m.(title := o.name.GetOr(m.title), description := o.description.GetOr(m.description),
                   duration := o.duration.GetOr(m.duration), releaseDate := o.datePublished.GetOr(m.releaseDate));
    if o.partOfSeries.Some? {
      var series := o.partOfSeries.value;
      if series.SeriesOther? {
        return;
      }
      metadata := metadata.(showName := series.name.GetOr(metadata.showName));
      var publisher := series.publisher.GetOr(PublisherObject(None));
      if publisher.PublisherOther? {
        return;
      }
      metadata := metadata.(publisher := publisher.name.GetOr(metadata.publisher));
    }
    if o.image.Some? {
      match o.image.value {
        case ImageText(u) => metadata := metadata.(imageUrl := Some(u));
        case ImageObject(u) => metadata := metadata.(imageUrl := u);
        case ImageOther =>
      }
    }
  }

  /** The fallbacks after a scan that found no episode: the meta tags, the page title and
      the description. */
  method ApplyFallbacks(m: EpisodeMetadata, page: Page) returns (r: EpisodeMetadata)
    ensures r == DescriptionFallback(TitleFallback(WithMetaTags(m, page), page.titleText))
  {
    r := m;
    if page.ogTitle.Some? {
      r := r.(title := page.ogTitle.value.content.GetOr(r.title));
    }
    if page.ogDescription.Some? {
      r := r.(description := page.ogDescription.value.content.GetOr(r.description));
    }
    if page.ogImage.Some? {
      r := r.(imageUrl := page.ogImage.value.content);
    }

    if r.title == Unknown && page.titleText.Some? {
      var titleText := Strip(page.titleText.value);
      if Contains(titleText, TitleSep) {
        var parts := SplitOn(titleText, TitleSep);
        if |parts| >= 2 {
          r := r.(title := Strip(parts[0]), showName := Strip(parts[1]));
        }
      }
    }

    if r.showName == Unknown && r.description != "" {
      var desc := r.description;
      if Contains(desc, DescriptionSep) {
        var parts := SplitOn(desc, DescriptionSep);
        var potentialShow := Strip(parts[0]);
        if potentialShow != "" && potentialShow != Unknown && |potentialShow| > 3 {
          r := r.(showName := potentialShow);
        }
      }
    }
  }

  // ---------------------------------------------------------------- properties of the rules

  /** A page with nothing usable keeps every default. */
  lemma DefaultsKept(url: string, scripts: seq<Script>)
    requires forall k :: 0 <= k < |scripts| ==> scripts[k] == Undecodable
    ensures MetadataOf(Page(scripts, None, None, None, None), url)
      == EpisodeMetadata(url, "Unknown", "", "Unknown", "Unknown", "Unknown", "Unknown", None)
  {
    SkipsUndecodable(scripts, 0, Defaults(url));
  }

  lemma {:induction false} SkipsUndecodable(scripts: seq<Script>, i: nat, m: EpisodeMetadata)
    requires i <= |scripts|
    requires forall k :: i <= k < |scripts| ==> scripts[k] == Undecodable
    ensures ScanFrom(scripts, i, m) == NotFound
    decreases |scripts| - i
  {
    if i < |scripts| { SkipsUndecodable(scripts, i + 1, m); }
  }

  /** Whether script `s` ends the scan: an exception, or an episode object. */
  predicate Stops(s: Script) {
    s.Unreadable? || (s.Decoded? && (!Normalized(s.value).JObject? || IsEpisode(Normalized(s.value))))
  }

  /** The first script that stops the scan decides the outcome alone: undecodable scripts
      and other objects before it are skipped, and nothing after it is read. */
  lemma {:induction false} FirstStopDecides(scripts: seq<Script>, i: nat, k: nat, m: EpisodeMetadata)
    requires i <= k < |scripts| && Stops(scripts[k])
    requires forall j :: i <= j < k ==> !Stops(scripts[j])
    ensures ScanFrom(scripts, i, m) == ScanFrom([scripts[k]], 0, m)
    decreases k - i
  {
    if i < k { FirstStopDecides(scripts, i + 1, k, m); }
  }

  /** The first episode fills the record and the extraction returns it at once: the meta
      tags, the page title and the description are not consulted. */
  lemma FirstEpisodeWins(page: Page, url: string, k: nat)
    requires k < |page.scripts| && page.scripts[k].Decoded? && IsEpisode(Normalized(page.scripts[k].value))
    requires forall j :: 0 <= j < k ==> !Stops(page.scripts[j])
    ensures var o := Normalized(page.scripts[k].value).obj;
      && MetadataOf(page, url) == FillFrom(Defaults(url), o).m
      && MetadataOf(page, url).title == o.name.GetOr("Unknown")
      && MetadataOf(page, url).description == o.description.GetOr("")
      && MetadataOf(page, url).duration == o.duration.GetOr("Unknown")
      && MetadataOf(page, url).releaseDate == o.datePublished.GetOr("Unknown")
      && MetadataOf(page, url).url == url
  {
    FirstStopDecides(page.scripts, 0, k, Defaults(url));
  }

  /** No script stops the scan: the fallbacks run on the meta tags. */
  lemma {:induction false} NoStopNotFound(scripts: seq<Script>, i: nat, m: EpisodeMetadata)
    requires i <= |scripts|
    requires forall j :: i <= j < |scripts| ==> !Stops(scripts[j])
    ensures ScanFrom(scripts, i, m) == NotFound
    decreases |scripts| - i
  {
    if i < |scripts| { NoStopNotFound(scripts, i + 1, m); }
  }

  /** The page-title fallback applies only while the title is "Unknown" and the stripped
      page title contains " | "; it then sets the title and the show to the first two
      stripped pieces, which contain no " | ", and changes nothing else. */
  lemma TitleFallbackRule(m: EpisodeMetadata, titleText: Option<string>)
    ensures var r := TitleFallback(m, titleText);
      var applies := m.title == "Unknown" && titleText.Some? && Contains(Strip(titleText.value), " | ");
      && (!applies ==> r == m)
      && (applies ==>
            var t := Strip(titleText.value);
            && r == m.(title := Strip(Before(t, " | ")), showName := Strip(Before(After(t, " | "), " | ")))
            && !Contains(r.title, " | ") && !Contains(r.showName, " | "))
  {
    if titleText.Some? {
      var t := Strip(titleText.value);
      SplitOnFirstTwo(t, TitleSep);
      BeforeAfter(t, TitleSep);
      StripLacks(Before(t, TitleSep), TitleSep);
      if Contains(t, TitleSep) {
        BeforeAfter(After(t, TitleSep), TitleSep);
        StripLacks(Before(After(t, TitleSep), TitleSep), TitleSep);
      }
    }
  }

  /** The description fallback applies only while the show is "Unknown"; it takes the
      stripped text before the first " · " when that is longer than three characters and
      is not "Unknown", and changes nothing else. */
  lemma DescriptionFallbackRule(m: EpisodeMetadata)
    ensures var r := DescriptionFallback(m);
      var p := Strip(Before(m.description, " \U{B7} "));
      var applies := m.showName == "Unknown" && Contains(m.description, " \U{B7} ") && |p| > 3 && p != "Unknown";
      && (applies ==> r == m.(showName := p) && !Contains(r.showName, " \U{B7} "))
      && (!applies ==> r == m)
  {
    SplitOnFirstTwo(m.description, DescriptionSep);
    BeforeAfter(m.description, DescriptionSep);
    StripLacks(Before(m.description, DescriptionSep), DescriptionSep);
  }

  // ---------------------------------------------------------------- get_episode_metadata

  /** The page fetch: the parsed page, or a request exception's message. */
  datatype Fetched = Fetched(page: Page) | FetchFailed(message: string)

  /** `get_episode_metadata`. */
  function GetEpisodeMetadata(url: string, parse: UrlParser, fetch: string -> Fetched): Result<EpisodeMetadata> {
    if !IsValidSpotifyUrl(url, parse) then Failure(ValueError("Invalid Spotify URL: " + url))
    else
      match fetch(url)
      case FetchFailed(msg) => Failure(RuntimeError("Failed to fetch webpage: " + msg))
      case Fetched(page) => Success(MetadataOf(page, url))
  }

  /** The URL is validated before the page is fetched; a fetched page always yields a record
      for that URL. */
  lemma EpisodeValidatesFirst(url: string, parse: UrlParser, f: string -> Fetched, g: string -> Fetched)
    ensures !IsValidSpotifyUrl(url, parse) ==>
      GetEpisodeMetadata(url, parse, f) == GetEpisodeMetadata(url, parse, g)
      == Failure(ValueError("Invalid Spotify URL: " + url))
    ensures IsValidSpotifyUrl(url, parse) && f(url).Fetched? ==>
      GetEpisodeMetadata(url, parse, f).Success? && GetEpisodeMetadata(url, parse, f).value.url == url
  {
    if IsValidSpotifyUrl(url, parse) && f(url).Fetched? {
      MetadataKeepsUrl(f(url).page, url);
    }
  }

  lemma MetadataKeepsUrl(page: Page, url: string)
    ensures MetadataOf(page, url).url == url
  {
    ScanKeepsUrl(page.scripts, 0, Defaults(url));
  }

  lemma {:induction false} ScanKeepsUrl(scripts: seq<Script>, i: nat, m: EpisodeMetadata)
    requires i <= |scripts|
    ensures ScanFrom(scripts, i, m).Filled? || ScanFrom(scripts, i, m).Aborted? ==> ScanFrom(scripts, i, m).m.url == m.url
    decreases |scripts| - i
  {
    if i < |scripts| { ScanKeepsUrl(scripts, i + 1, m); }
  }
}
