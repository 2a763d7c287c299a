/**
 * The YouTube fallback search of `AudioDownloader`: cleaning a title and a show name,
 * the whole-word term substitutions, the fallback queries, the order in which
 * `download_by_search` tries them, and the duration shown to the user.
 */
module AudioDownloader {
  import opened Wrappers
  import opened Text

  // ---------------------------------------------------------------- cleaning

  /** `re.sub(pattern, ' ', s)` for a pattern matching one character outside the kept class. */
  function Clean(s: string, keep: char -> bool): string {
    seq(|s|, i requires 0 <= i < |s| => if keep(s[i]) then s[i] else ' ')
  }

  /** The class `[\w\s-]` the title keeps. */
  predicate KeepInTitle(c: char) { IsWordChar(c) || IsSpace(c) || c == '-' }

  /** The class `[\w\s]` the show name keeps: hyphens are not in it. */
  predicate KeepInShow(c: char) { IsWordChar(c) || IsSpace(c) }

  /** `re.sub(r'[^\w\s-]', ' ', title)`. */
  function CleanTitle(title: string): string { Clean(title, KeepInTitle) }

  /** `re.sub(r'[^\w\s]', ' ', show)`. */
  function CleanShow(show: string): string { Clean(show, KeepInShow) }

  /** Each character outside the class becomes exactly one space; the rest stay in place. */
  lemma CleanShape(s: string, keep: char -> bool)
    requires keep(' ')
    ensures |Clean(s, keep)| == |s|
    ensures forall k :: 0 <= k < |s| ==> keep(Clean(s, keep)[k])
    ensures forall k :: 0 <= k < |s| && keep(s[k]) ==> Clean(s, keep)[k] == s[k]
    ensures forall k :: 0 <= k < |s| && !keep(s[k]) ==> Clean(s, keep)[k] == ' '
  {
  }

  /** Cleaning an already cleaned text changes nothing. */
  lemma CleanIdempotent(s: string, keep: char -> bool)
    requires keep(' ')
    ensures Clean(Clean(s, keep), keep) == Clean(s, keep)
  {
    CleanShape(s, keep);
    CleanShape(Clean(s, keep), keep);
  }

  /** Cleaning keeps the title's and the show's length, and the show loses its hyphens. */
  lemma CleanedNames(title: string, show: string)
    ensures |CleanTitle(title)| == |title| && |CleanShow(show)| == |show|
    ensures forall k :: 0 <= k < |title| ==> KeepInTitle(CleanTitle(title)[k])
    ensures '-' !in CleanShow(show)
    ensures forall k :: 0 <= k < |title| && title[k] == '-' ==> CleanTitle(title)[k] == '-'
  {
    CleanShape(title, KeepInTitle);
    CleanShape(show, KeepInShow);
  }

  // ---------------------------------------------------------------- meaningful words

  const StopWords: seq<string> := ["the", "and", "vs", "with"]

  /** The comprehension's filter: `len(w) > 2 and w.lower() not in [...]`. */
  predicate IsMeaningful(w: string) { |w| > 2 && Lower(w) !in StopWords }

  function KeepWord(w: string): seq<string> { if IsMeaningful(w) then [w] else [] }

  /** `[w for w in words if len(w) > 2 and w.lower() not in [...]]`. */
  function MeaningfulWords(words: seq<string>): seq<string> { Collect(words, KeepWord) }

  /** The words `_create_fallback_queries` builds its queries from. */
  function TitleWords(title: string): seq<string> { MeaningfulWords(Split(CleanTitle(title))) }

  /** The filter keeps exactly the meaningful words, and keeps them in their original order. */
  lemma MeaningfulWordsFilter(words: seq<string>, more: seq<string>)
    ensures forall w :: w in MeaningfulWords(words) <==> w in words && IsMeaningful(w)
    ensures MeaningfulWords(words + more) == MeaningfulWords(words) + MeaningfulWords(more)
  {
    CollectMembers(words, KeepWord);
    CollectConcat(words, more, KeepWord);
  }

  /** "vs" is never looked up: the length test already drops every two-letter word. */
  lemma StopWordVsRedundant(w: string)
    ensures IsMeaningful(w) <==> |w| > 2 && Lower(w) != "the" && Lower(w) != "and" && Lower(w) != "with"
  {
    if Lower(w) == "vs" { assert |w| == 2; }
  }

  // ---------------------------------------------------------------- term substitutions

  /** `\b` at position `i`: exactly one side is an (ASCII) word character. */
  predicate Boundary(s: string, i: int)
    requires 0 <= i <= |s|
  {
    (i > 0 && IsWordChar(s[i - 1])) != (i < |s| && IsWordChar(s[i]))
  }

  /** `r'\b' + re.escape(pat) + r'\b'` with `re.IGNORECASE` matches at position `i`. */
  predicate MatchAt(s: string, pat: string, i: nat) {
    i + |pat| <= |s| && Boundary(s, i) && EqualsIgnoreCase(s[i..i + |pat|], pat) && Boundary(s, i + |pat|)
  }

  /** What `re.sub` writes for `s[i..]`: matches are found left to right on the input and
      do not overlap; each is replaced by `rep`, every other character is copied. */
  function SubFrom(s: string, pat: string, rep: string, i: nat): string
    requires pat != [] && i <= |s|
    decreases |s| - i
  {
    if i == |s| then ""
    else if MatchAt(s, pat, i) then rep + SubFrom(s, pat, rep, i + |pat|)
    else [s[i]] + SubFrom(s, pat, rep, i + 1)
  }

  /** `re.sub(r'\b' + re.escape(pat) + r'\b', rep, s, flags=re.IGNORECASE)`. */
  function Sub(s: string, pat: string, rep: string): string
    requires pat != []
  {
    SubFrom(s, pat, rep, 0)
  }

  /** The substitution table, in the dictionary's insertion order. */
  const Substitutions: seq<(string, string)> :=
    [("GPT-OSS", "OpenAI"), ("GPT OSS", "OpenAI"), ("ChatGPT", "OpenAI"), ("GPT", "OpenAI")]

  predicate TableOk(subs: seq<(string, string)>) { forall k :: 0 <= k < |subs| ==> subs[k].0 != [] }

  /** The title after the first `|subs|` passes of the loop. */
  function ApplyAll(title: string, subs: seq<(string, string)>): string
    requires TableOk(subs)
    decreases |subs|
  {
    if subs == [] then title
    else Sub(ApplyAll(title, subs[..|subs| - 1]), subs[|subs| - 1].0, subs[|subs| - 1].1)
  }

  function Substitute(title: string): string { ApplyAll(title, Substitutions) }

  /** `_apply_term_substitutions`: one `re.sub` per table entry, in table order. */
  method ApplyTermSubstitutions(title: string) returns (result: string)
    ensures result == Substitute(title)
  {
    result := title;
    var i := 0;
    while i < |Substitutions|
      invariant 0 <= i <= |Substitutions|
      invariant result == ApplyAll(title, Substitutions[..i])
    {
      var (original, replacement) := Substitutions[i];
      assert Substitutions[..i + 1][..i] == Substitutions[..i];
      result := Sub(result, original, replacement);
      i := i + 1;
    }
    assert Substitutions[..i] == Substitutions;
  }

  /** Where no match starts, `re.sub` copies the text unchanged. */
  lemma {:induction false} SubFromUnchanged(s: string, pat: string, rep: string, i: nat)
    requires pat != [] && i <= |s|
    requires forall j :: i <= j < |s| ==> !MatchAt(s, pat, j)
    ensures SubFrom(s, pat, rep, i) == s[i..]
    decreases |s| - i
  {
    if i < |s| {
      SubFromUnchanged(s, pat, rep, i + 1);
      assert s[i..] == [s[i]] + s[i + 1..];
    }
  }

  /** `w` occurs in `s` when case is ignored. */
  predicate ContainsIgnoreCase(s: string, w: string) {
    exists k | 0 <= k <= |s| - |w| :: OccursIgnoreCaseAt(s, w, k)
  }

  predicate OccursIgnoreCaseAt(s: string, w: string, k: int) {
    0 <= k && k + |w| <= |s| && EqualsIgnoreCase(s[k..k + |w|], w)
  }

  lemma LowerSlice(x: string, a: nat, b: nat)
    requires a <= b <= |x|
    ensures Lower(x[a..b]) == Lower(x)[a..b]
  {
  }

  /** A match of a pattern that contains `w` (ignoring case) contains `w` too. */
  lemma MatchContains(s: string, pat: string, j: nat, o: nat, w: string)
    requires MatchAt(s, pat, j) && o + |w| <= |pat| && EqualsIgnoreCase(pat[o..o + |w|], w)
    ensures ContainsIgnoreCase(s, w)
  {
    var m := s[j..j + |pat|];
    var a, b := s[j + o..j + o + |w|], m[o..o + |w|];
    forall t | 0 <= t < |w| ensures a[t] == b[t] {
      assert b[t] == m[o + t];
    }
    assert a == b;
    calc {
      Lower(s[j + o..j + o + |w|]);
      { LowerSlice(m, o, o + |w|); }
      Lower(m)[o..o + |w|];
      Lower(pat)[o..o + |w|];
      { LowerSlice(pat, o, o + |w|); }
      Lower(pat[o..o + |w|]);
      Lower(w);
    }
    assert OccursIgnoreCaseAt(s, w, j + o);
  }

  /** A pass whose pattern contains "gpt" leaves a text without "gpt" unchanged. */
  lemma SubWithoutWord(s: string, pat: string, rep: string, o: nat, w: string)
    requires pat != [] && o + |w| <= |pat| && EqualsIgnoreCase(pat[o..o + |w|], w)
    requires !ContainsIgnoreCase(s, w)
    ensures Sub(s, pat, rep) == s
  {
    forall j | 0 <= j < |s| ensures !MatchAt(s, pat, j) {
      if MatchAt(s, pat, j) { MatchContains(s, pat, j, o, w); }
    }
    SubFromUnchanged(s, pat, rep, 0);
  }

  /** A title with no case-insensitive "gpt" is returned unchanged. */
  lemma NoGptUnchanged(title: string)
    requires !ContainsIgnoreCase(title, "gpt")
    ensures Substitute(title) == title
  {
    var s := Substitutions;
    forall k | 0 <= k < |s| ensures Sub(title, s[k].0, s[k].1) == title {
      var o := if k == 2 then 4 else 0;
      assert s[k].0[o..o + 3] == "GPT";
      assert EqualsIgnoreCase("GPT", "gpt");
      SubWithoutWord(title, s[k].0, s[k].1, o, "gpt");
    }
    ApplyAllUnchanged(title, s, |s|);
    assert s[..|s|] == s;
  }

  /** Passes that each leave the title unchanged leave it unchanged together. */
  lemma {:induction false} ApplyAllUnchanged(title: string, subs: seq<(string, string)>, n: nat)
    requires TableOk(subs) && n <= |subs|
    requires forall k :: 0 <= k < |subs| ==> Sub(title, subs[k].0, subs[k].1) == title
    ensures ApplyAll(title, subs[..n]) == title
  {
    if n > 0 {
      assert subs[..n][..n - 1] == subs[..n - 1];
      ApplyAllUnchanged(title, subs, n - 1);
    }
  }

  /** The match ignores case: a lower-case "gpt" standing alone is replaced. */
  lemma SubIgnoresCase()
    ensures Sub("gpt", "GPT", "OpenAI") == "OpenAI"
  {
    assert MatchAt("gpt", "GPT", 0);
  }

  /** The match is whole-word: "GPTs" is not rewritten. */
  lemma SubWholeWord()
    ensures Sub("GPTs", "GPT", "OpenAI") == "GPTs"
  {
    var s := "GPTs";
    forall j | 0 <= j < |s| ensures !MatchAt(s, "GPT", j) {
      assert j > 0 ==> !Boundary(s, j);
    }
    SubFromUnchanged(s, "GPT", "OpenAI", 0);
  }

  // ---------------------------------------------------------------- fallback queries

  /** `f"{show_cleaned} {' '.join(words)}"`. */
  function Query(showCleaned: string, words: seq<string>): string {
    showCleaned + " " + Join(" ", words)
  }

  /** The queries of strategies 1-4, each present only when its word list is long enough. */
  function FallbackQueriesOf(title: string, show: string): seq<string> {
    var words := TitleWords(title);
    var subWords := TitleWords(Substitute(title));
    var sc := CleanShow(show);
    (if |subWords| > 3 then [Query(sc, subWords[..3])] else [])
    + (if |words| > 3 then [Query(sc, words[..3])] else [])
    + (if |subWords| >= 2 then [Query(sc, subWords[..2])] else [])
    + (if |words| >= 2 then [Query(sc, words[..2])] else [])
  }

  /** `_create_fallback_queries`: strategies 1-4 appended in order. */
  method CreateFallbackQueries(title: string, show: string) returns (fallbackQueries: seq<string>)
    ensures fallbackQueries == FallbackQueriesOf(title, show)
  {
    fallbackQueries := [];
    var titleWords := MeaningfulWords(Split(CleanTitle(title)));
    var titleWithSubstitutions := ApplyTermSubstitutions(title);
    var titleSubWords := MeaningfulWords(Split(CleanTitle(titleWithSubstitutions)));
    var showCleaned := CleanShow(show);
    if |titleSubWords| > 3 {
      fallbackQueries := fallbackQueries + [Query(showCleaned, titleSubWords[..3])];
    }
    if |titleWords| > 3 {
      fallbackQueries := fallbackQueries + [Query(showCleaned, titleWords[..3])];
    }
    if |titleSubWords| >= 2 {
      fallbackQueries := fallbackQueries + [Query(showCleaned, titleSubWords[..2])];
    }
    if |titleWords| >= 2 {
      fallbackQueries := fallbackQueries + [Query(showCleaned, titleWords[..2])];
    }
  }

  function Count(b: bool): nat { if b then 1 else 0 }

  /** At most four queries, one per strategy whose word list is long enough, and each is the
      cleaned show name, a space, and the first three or the first two meaningful words of
      the title or of the substituted title. */
  lemma FallbackQueriesShape(title: string, show: string)
    ensures var q := FallbackQueriesOf(title, show);
      var words := TitleWords(title);
      var subWords := TitleWords(Substitute(title));
      && |q| == Count(|subWords| > 3) + Count(|words| > 3) + Count(|subWords| >= 2) + Count(|words| >= 2)
      && |q| <= 4
      && (forall k :: 0 <= k < |q| ==> StartsWith(q[k], CleanShow(show) + " "))
      && forall k :: 0 <= k < |q| ==>
           || (|subWords| > 3 && q[k] == Query(CleanShow(show), subWords[..3]))
           || (|words| > 3 && q[k] == Query(CleanShow(show), words[..3]))
           || (|subWords| >= 2 && q[k] == Query(CleanShow(show), subWords[..2]))
           || (|words| >= 2 && q[k] == Query(CleanShow(show), words[..2]))
  {
    var q := FallbackQueriesOf(title, show);
    var sc := CleanShow(show);
    forall k | 0 <= k < |q| ensures StartsWith(q[k], sc + " ") {
      var words := TitleWords(title);
      var subWords := TitleWords(Substitute(title));
      assert exists ws :: q[k] == Query(sc, ws);
      var ws :| q[k] == Query(sc, ws);
      StartsWithConcat(sc + " ", Join(" ", ws));
    }
  }

  /** With nothing substituted there is no deduplication: strategies 1 and 2, and 3 and 4,
      give the same query twice. */
  lemma UnchangedTitleDuplicates(title: string, show: string)
    requires Substitute(title) == title
    ensures var words := TitleWords(title);
      var sc := CleanShow(show);
      FallbackQueriesOf(title, show)
      == (if |words| > 3 then [Query(sc, words[..3]), Query(sc, words[..3])] else [])
      + (if |words| >= 2 then [Query(sc, words[..2]), Query(sc, words[..2])] else [])
  {
  }

  /** In particular a title without "gpt" yields each query twice. */
  lemma NoGptDuplicates(title: string, show: string)
    requires !ContainsIgnoreCase(title, "gpt")
    ensures var q := FallbackQueriesOf(title, show);
      (|q| == 2 || |q| == 4 ==> q[0] == q[1]) && (|q| == 4 ==> q[2] == q[3])
  {
    NoGptUnchanged(title);
    UnchangedTitleDuplicates(title, show);
  }

  // ---------------------------------------------------------------- search order

  /** The fields of a search hit that the downloader reads. */
  datatype Video = Video(webpageUrl: string, title: Option<string>, uploader: Option<string>, duration: int)

  /** What `ydl.extract_info(search_url, download=False)` gives: a dict with an `entries`
      list, a result without entries (None or no such key), or an exception. */
  datatype SearchOutcome = Entries(entries: seq<Video>) | NoEntries | SearchRaised(message: string)

  /** The search service, called with the `ytsearch1:` URL. */
  type Search = string -> SearchOutcome

  function SearchUrl(query: string): string { "ytsearch1:" + query }

  /** `info and 'entries' in info and len(info['entries']) > 0`. */
  predicate IsHit(outcome: SearchOutcome) { outcome.Entries? && outcome.entries != [] }

  /** The search queries in the order they are tried: "show title", then the fallbacks. */
  function AllQueries(title: string, show: string): seq<string> {
    [show + " " + title] + FallbackQueriesOf(title, show)
  }

  /** The index and first entry of the first query from `i` on whose search has entries. */
  function FirstHitFrom(queries: seq<string>, search: Search, i: nat): Option<(nat, Video)>
    requires i <= |queries|
    decreases |queries| - i
  {
    if i == |queries| then None
    else if IsHit(search(SearchUrl(queries[i]))) then Some((i, search(SearchUrl(queries[i])).entries[0]))
    else FirstHitFrom(queries, search, i + 1)
  }

  /** The first hit is the earliest query with entries, and it is the first of them. */
  lemma {:induction false} FirstHitIsFirst(queries: seq<string>, search: Search, i: nat)
    requires i <= |queries|
    ensures var r := FirstHitFrom(queries, search, i);
      && (r.Some? ==> i <= r.value.0 < |queries|
                      && IsHit(search(SearchUrl(queries[r.value.0])))
                      && r.value.1 == search(SearchUrl(queries[r.value.0])).entries[0]
                      && forall j :: i <= j < r.value.0 ==> !IsHit(search(SearchUrl(queries[j]))))
      && (r.None? ==> forall j :: i <= j < |queries| ==> !IsHit(search(SearchUrl(queries[j]))))
    decreases |queries| - i
  {
    if i < |queries| { FirstHitIsFirst(queries, search, i + 1); }
  }

  const CancelledMessage := "User cancelled download - video not confirmed"

  function NoVideoMessage(tried: nat): string {
    "No videos found for any search query (tried " + IntToString(tried) + " variations)"
  }

  /** The video `download_by_search` settles on, or the error it raises (wrapped by its outer
      `except` as "Download failed: ..."). `confirmed` is the user's answer to the prompt. */
  function SearchResultOf(title: string, show: string, autoConfirm: bool, confirmed: bool,
                          search: Search): Result<Video>
  {
    var queries := AllQueries(title, show);
    match FirstHitFrom(queries, search, 0)
    case None => Failure(RuntimeError("Download failed: " + NoVideoMessage(|queries|)))
    case Some((_, video)) =>
      if !autoConfirm && !confirmed then Failure(RuntimeError("Download failed: " + CancelledMessage))
      else Success(video)
  }

  /** The search part of `download_by_search`, up to the confirmation. */
  method DownloadBySearch(title: string, artistOrShow: string, autoConfirm: bool, confirmed: bool,
                          search: Search) returns (r: Result<Video>)
    ensures r == SearchResultOf(title, artistOrShow, autoConfirm, confirmed, search)
  {
    var originalQuery := artistOrShow + " " + title;
    var fallbackQueries := CreateFallbackQueries(title, artistOrShow);
    var allQueries := [originalQuery] + fallbackQueries;
    var videoInfo: Option<Video> := None;
    var i := 0;
    while i < |allQueries|
      invariant 0 <= i <= |allQueries|
      invariant FirstHitFrom(allQueries, search, i) == FirstHitFrom(allQueries, search, 0)
    {
      var info := search(SearchUrl(allQueries[i]));
      if info.Entries? && |info.entries| > 0 {
        videoInfo := Some(info.entries[0]);
        break;
      }
      i := i + 1;
    }
    if videoInfo.None? {
      return Failure(RuntimeError("Download failed: " + NoVideoMessage(|allQueries|)));
    }
    if !autoConfirm && !confirmed {
      return Failure(RuntimeError("Download failed: " + CancelledMessage));
    }
    r := Success(videoInfo.value);
  }

  /** The search tries "show title" first and reports every query it tried when none hits;
      a video it returns comes from the earliest query with entries. */
  lemma SearchOrder(title: string, show: string, autoConfirm: bool, confirmed: bool, search: Search)
    ensures AllQueries(title, show)[0] == show + " " + title
    ensures 1 <= |AllQueries(title, show)| <= 5
    ensures var queries := AllQueries(title, show);
      var r := SearchResultOf(title, show, autoConfirm, confirmed, search);
      && ((forall j :: 0 <= j < |queries| ==> !IsHit(search(SearchUrl(queries[j]))))
          <==> r == Failure(RuntimeError("Download failed: " + NoVideoMessage(|queries|))))
      && (r.Success? ==>
            exists k :: (&& 0 <= k < |queries|
                         && IsHit(search(SearchUrl(queries[k])))
                         && r.value == search(SearchUrl(queries[k])).entries[0]
                         && forall j :: 0 <= j < k ==> !IsHit(search(SearchUrl(queries[j])))))
  {
    FallbackQueriesShape(title, show);
    var queries := AllQueries(title, show);
    FirstHitIsFirst(queries, search, 0);
    var hit := FirstHitFrom(queries, search, 0);
    if hit.Some? {
      var k := hit.value.0;
      assert IsHit(search(SearchUrl(queries[k])));
      var r := SearchResultOf(title, show, autoConfirm, confirmed, search);
      assert |CancelledMessage| == 45 < |NoVideoMessage(|queries|)|;
      var failed := "Download failed: ";
      if !autoConfirm && !confirmed {
        assert r == Failure(RuntimeError(failed + CancelledMessage));
        assert |failed + CancelledMessage| != |failed + NoVideoMessage(|queries|)|;
      } else {
        assert r == Success(hit.value.1);
      }
    }
  }

  // ---------------------------------------------------------------- duration

  /** `f"{duration//60}:{duration%60:02d}" if duration else "Unknown"`. */
  function DurationString(duration: int): string {
    if duration != 0 then IntToString(duration / 60) + ":" + Pad2(duration % 60) else "Unknown"
  }

  /** A positive duration reads back as minutes, a colon and two digits of seconds. */
  lemma DurationRoundTrip(duration: int)
    ensures duration == 0 <==> DurationString(duration) == "Unknown"
    ensures duration > 0 ==> var r := DurationString(duration);
      && |r| >= 4 && r[|r| - 3] == ':'
      && AllDigits(r[..|r| - 3]) && AllDigits(r[|r| - 2..])
      && DigitsValue(r[..|r| - 3]) * 60 + DigitsValue(r[|r| - 2..]) == duration
  {
    if duration > 0 {
      var m := NatToString(duration / 60);
      var p := Pad2(duration % 60);
      Pad2TwoDigits(duration % 60);
      NatToStringRoundTrip(duration / 60);
      var r := DurationString(duration);
      assert r == m + ":" + p;
      assert r[..|r| - 3] == m;
      assert r[|r| - 2..] == p;
    } else if duration < 0 {
      assert DurationString(duration)[0] == '-';
    }
  }
}
