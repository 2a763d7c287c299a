/**
 * The pure parts of the command-line front end: the file names `process` derives from an
 * episode title, the default output names of `transcribe` and `summarize`, how `process`
 * chooses between chunk-based and direct summarisation, and the combined markdown
 * summary it writes. The click commands, the console echoes and the file writes are not
 * modelled; the clock reading of the header is a parameter.
 */
module Cli {
  import opened Wrappers
  import opened Text
  import Transcriber
  import Summarizer
  import Metadata

  // ---------------------------------------------------------------- file names

  /** The file-name stem `process` derives from the episode title: lower-cased, spaces,
      colons and slashes turned into underscores, question and exclamation marks dropped. */
  function Slug(title: string): string {
    var lowered := Lower(title);
    var noSpace := ReplaceChar(lowered, ' ', "_");
    var noColon := ReplaceChar(noSpace, ':', "_");
    var noQuestion := ReplaceChar(noColon, '?', "");
    var noBang := ReplaceChar(noQuestion, '!', "");
    ReplaceChar(noBang, '/', "_")
  }

  /** Every character of a slug is an underscore or a character of the lower-cased title,
      and none is one of the five rewritten characters or a capital letter. */
  lemma SlugMembers(title: string, x: char)
    requires x in Slug(title)
    ensures x == '_' || x in Lower(title)
    ensures x != ' ' && x != ':' && x != '?' && x != '!' && x != '/' && !('A' <= x <= 'Z')
  {
    var lowered := Lower(title);
    var noSpace := ReplaceChar(lowered, ' ', "_");
    var noColon := ReplaceChar(noSpace, ':', "_");
    var noQuestion := ReplaceChar(noColon, '?', "");
    var noBang := ReplaceChar(noQuestion, '!', "");
    ReplaceCharMembers(noBang, '/', "_", x);
    if x != '_' {
      ReplaceCharMembers(noQuestion, '!', "", x);
      ReplaceCharMembers(noColon, '?', "", x);
      ReplaceCharMembers(noSpace, ':', "_", x);
      ReplaceCharMembers(lowered, ' ', "_", x);
      if 'A' <= x <= 'Z' { LowerHasNoCapital(title, x); }
    }
  }

  /** A slug holds none of the five rewritten characters and no capital letter, and it is
      shorter than the title by exactly the number of dropped marks. */
  lemma SlugShape(title: string)
    ensures var r := Slug(title);
      && ' ' !in r && ':' !in r && '?' !in r && '!' !in r && '/' !in r
      && (forall x :: 'A' <= x <= 'Z' ==> x !in r)
      && |r| == |title| - CountChar(title, '?') - CountChar(title, '!')
  {
    forall x | x in Slug(title)
      ensures x != ' ' && x != ':' && x != '?' && x != '!' && x != '/' && !('A' <= x <= 'Z')
    {
      SlugMembers(title, x);
    }
    SlugLength(title);
  }

  lemma SlugLength(title: string)
    ensures |Slug(title)| == |title| - CountChar(title, '?') - CountChar(title, '!')
  {
    var lowered := Lower(title);
    var noSpace := ReplaceChar(lowered, ' ', "_");
    var noColon := ReplaceChar(noSpace, ':', "_");
    var noQuestion := ReplaceChar(noColon, '?', "");
    var noBang := ReplaceChar(noQuestion, '!', "");
    ReplaceCharLength(lowered, ' ', "_");
    ReplaceCharLength(noSpace, ':', "_");
    ReplaceCharLength(noColon, '?', "");
    ReplaceCharLength(noQuestion, '!', "");
    ReplaceCharLength(noBang, '/', "_");
    LowerKeepsCount(title, '?');
    LowerKeepsCount(title, '!');
    ReplaceCharKeepsCount(lowered, ' ', "_", '?');
    ReplaceCharKeepsCount(noSpace, ':', "_", '?');
    ReplaceCharKeepsCount(lowered, ' ', "_", '!');
    ReplaceCharKeepsCount(noSpace, ':', "_", '!');
    ReplaceCharKeepsCount(noColon, '?', "", '!');
  }

  const TranscriptSuffix := "_transcript.json"
  const SummarySuffix := "_summary.md"

  /** The transcript file `process` writes under output/transcripts. */
  function TranscriptFileName(title: string): string { Slug(title) + TranscriptSuffix }

  /** The markdown summary file `process` writes under output/summaries. */
  function SummaryFileName(title: string): string { Slug(title) + SummarySuffix }

  /** Two titles share a transcript file exactly when they share a summary file, exactly
      when their slugs agree; a transcript file name is never a summary file name. */
  lemma FileNamesFollowSlug(t1: string, t2: string)
    ensures TranscriptFileName(t1) == TranscriptFileName(t2) <==> Slug(t1) == Slug(t2)
    ensures SummaryFileName(t1) == SummaryFileName(t2) <==> Slug(t1) == Slug(t2)
    ensures TranscriptFileName(t1) != SummaryFileName(t2)
  {
    SuffixCancels(Slug(t1), Slug(t2), TranscriptSuffix);
    SuffixCancels(Slug(t1), Slug(t2), SummarySuffix);
    var a := TranscriptFileName(t1);
    var b := SummaryFileName(t2);
    assert a[|a| - 1] == TranscriptSuffix[15] == 'n';
    assert b[|b| - 1] == SummarySuffix[10] == 'd';
  }

  lemma SuffixCancels(a: string, b: string, suffix: string)
    ensures a + suffix == b + suffix <==> a == b
  {
    if a + suffix == b + suffix {
      assert a == (a + suffix)[..|a|];
      assert b == (b + suffix)[..|b|];
    }
  }

  /** `output` when it is given and non-empty, otherwise the default next to the input. */
  function OutputName(output: Option<string>, default: string): string {
    if output.Some? && output.value != "" then output.value else default
  }

  /** The default output of `transcribe`: the audio file's stem with "_transcript." and the
      format. */
  function DefaultTranscriptName(stem: string, format: string): string { stem + "_transcript." + format }

  /** The default output of `summarize`: the text file's stem with "_summary." and the format. */
  function DefaultSummaryName(stem: string, format: string): string { stem + "_summary." + format }

  /** Without an explicit output the name is the default, which keeps the stem in front and
      the format at the end; an explicit non-empty output wins. The transcript and summary
      defaults of one stem never coincide, whatever the formats. */
  lemma OutputNames(output: Option<string>, stem: string, format: string, format2: string)
    ensures output.None? || output == Some("") ==>
      && OutputName(output, DefaultTranscriptName(stem, format)) == DefaultTranscriptName(stem, format)
      && StartsWith(DefaultTranscriptName(stem, format), stem + "_transcript.")
      && EndsWith(DefaultTranscriptName(stem, format), format)
    ensures output.Some? && output.value != "" ==> OutputName(output, DefaultSummaryName(stem, format)) == output.value
    ensures DefaultTranscriptName(stem, format) != DefaultSummaryName(stem, format2)
  {
    StartsWithConcat(stem + "_transcript.", format);
    var a := DefaultTranscriptName(stem, format);
    var b := DefaultSummaryName(stem, format2);
    assert a[|stem| + 1] == "_transcript."[1] == 't';
    assert b[|stem| + 1] == "_summary."[1] == 's';
  }

  // ---------------------------------------------------------------- summarising

  /** The transcription dictionary `process` summarises: `chunks` and `full_transcription`
      are its two keys, each possibly absent. */
  datatype TranscriptionDict = TranscriptionDict(chunks: Option<seq<Transcriber.Chunk>>,
                                                 fullTranscription: Option<Transcriber.Transcription>)

  /** The dictionary `transcribe_with_summary_chunks` returns, which has both keys. */
  function ChunkedDict(r: Transcriber.ChunkedTranscription): TranscriptionDict {
    TranscriptionDict(Some(r.chunks), Some(r.fullTranscription))
  }

  /** The summary dictionary the markdown writer reads: with a `final_summary` key (from
      `summarize_chunks`) or without one (from `summarize`). */
  datatype SummaryDict =
    | FinalSummary(finalSummary: Summarizer.SummaryResult, totalChunks: nat,
                   chunkSummaries: Option<seq<Summarizer.ChunkSummary>>)
    | SingleSummary(summary: Option<string>)

  /** The chunk-based summary when chunks are present, with "brief" chunk summaries and the
      requested type for the final one; otherwise a direct summary of the full text. A
      dictionary with neither key raises KeyError, which callers never reach. */
  function SummarizeTranscription(tr: TranscriptionDict, summaryType: string, api: Summarizer.Api): Result<SummaryDict>
    requires tr.chunks.Some? || tr.fullTranscription.Some?
  {
    if tr.chunks.Some? then
      match Summarizer.ChunkedSummaryOf(tr.chunks.value, "brief", summaryType, api)
      case Success(c) => Success(FinalSummary(c.finalSummary, c.totalChunks, Some(c.chunkSummaries)))
      case Failure(e) => Failure(e)
    else
      match Summarizer.Summarize(tr.fullTranscription.value.text, summaryType, None, None, api)
      case Success(s) => Success(SingleSummary(Some(s.summary)))
      case Failure(e) => Failure(e)
  }

  /** With chunks, the result carries one "brief" summary per chunk, in chunk order, a count
      equal to the number of chunks, and a final summary of their combined text; without
      them, the summary of the full text. A failure is the failure of the final or the
      direct summary, unchanged. */
  lemma SummarizeTranscriptionRule(tr: TranscriptionDict, summaryType: string, api: Summarizer.Api)
    requires tr.chunks.Some? || tr.fullTranscription.Some?
    ensures var r := SummarizeTranscription(tr, summaryType, api);
      tr.chunks.Some? ==>
        var css := Summarizer.ChunkSummaries(tr.chunks.value, "brief", api);
        var f := Summarizer.Summarize(Summarizer.CombinedText(css), summaryType, None, None, api);
        && (r.Success? <==> f.Success?)
        && (r.Success? ==> r.value == FinalSummary(f.value, |tr.chunks.value|, Some(css)))
        && (r.Failure? ==> r.error == f.error)
    ensures var r := SummarizeTranscription(tr, summaryType, api);
      tr.chunks.None? ==>
        var d := Summarizer.Summarize(tr.fullTranscription.value.text, summaryType, None, None, api);
        && (r.Success? <==> d.Success?)
        && (r.Success? ==> r.value == SingleSummary(Some(d.value.summary)))
        && (r.Failure? ==> r.error == d.error)
  {
  }

  /** `process` always hands over a chunked transcription, so its summary is always the
      chunk-based one and lists as many chunk summaries as there are chunks. */
  lemma ProcessSummarizesChunks(r: Transcriber.ChunkedTranscription, summaryType: string, api: Summarizer.Api)
    ensures var s := SummarizeTranscription(ChunkedDict(r), summaryType, api);
      s.Success? ==>
        && s.value.FinalSummary?
        && s.value.chunkSummaries.Some?
        && |s.value.chunkSummaries.value| == s.value.totalChunks == |r.chunks|
  {
    SummarizeTranscriptionRule(ChunkedDict(r), summaryType, api);
  }

  // ---------------------------------------------------------------- combined markdown

  /** The metadata header; `generated` is the formatted clock reading. */
  function Header(info: Metadata.EpisodeMetadata, generated: string): string {
    "# " + info.title + "\n\n" + "**Show**: " + info.showName + "\n**Description**: " + info.description
    + "\n**Generated**: " + generated + "\n\n---\n\n"
  }

  /** The entry for the `i`-th chunk summary, counting from one. */
  function ChunkEntry(i: nat, text: string): string { "#### Chunk " + NatToString(i) + "\n" + text + "\n\n" }

  /** The entries of all chunk summaries, as the loop appends them. */
  function ChunkEntries(css: seq<Summarizer.ChunkSummary>, show: Summarizer.ChunkSummary -> string): string
    decreases |css|
  {
    if css == [] then ""
    else ChunkEntries(css[..|css| - 1], show) + ChunkEntry(|css|, show(css[|css| - 1]))
  }

  /** The summary and statistics written for a dictionary with a final summary, which
      appears as `showFinal` renders it. */
  function StatisticsPart(f: Summarizer.SummaryResult, n: nat, showFinal: Summarizer.SummaryResult -> string): string {
    "## Summary\n\n" + showFinal(f) + "\n\n### Statistics\n- **Total chunks**: " + NatToString(n)
    + "\n- **Chunk summaries combined into final summary**\n\n"
  }

  const ChunksHeading := "### Individual Chunk Summaries\n\n"

  /** The summary written for a dictionary without a final summary. */
  function SinglePart(text: Option<string>): string {
    "## Summary\n\n" + text.GetOr("No summary available") + "\n\n"
  }

  /** The summary section; chunk summaries appear as `showChunk` renders them. */
  function SummarySection(s: SummaryDict, showFinal: Summarizer.SummaryResult -> string,
                          showChunk: Summarizer.ChunkSummary -> string): string {
    match s
    case FinalSummary(f, n, cs) =>
      StatisticsPart(f, n, showFinal)
      + (match cs
         case None => ""
         case Some(css) => ChunksHeading + ChunkEntries(css, showChunk))
    case SingleSummary(text) => SinglePart(text)
  }

  const TranscriptHeading := "---\n\n## Full Transcript\n\n"

  /** The full-transcript section, present only with a full transcription. */
  function TranscriptSection(tr: TranscriptionDict): string {
    match tr.fullTranscription
    case None => ""
    case Some(t) => TranscriptHeading + t.text + "\n"
  }

  function MarkdownOf(info: Metadata.EpisodeMetadata, s: SummaryDict, tr: TranscriptionDict, generated: string,
                      showFinal: Summarizer.SummaryResult -> string, showChunk: Summarizer.ChunkSummary -> string): string {
    Header(info, generated) + SummarySection(s, showFinal, showChunk) + TranscriptSection(tr)
  }

  /** The loop of `_create_combined_markdown_summary` over the chunk summaries, numbered
      from one. */
  method AppendChunkEntries(start: string, css: seq<Summarizer.ChunkSummary>,
                            showChunk: Summarizer.ChunkSummary -> string) returns (md: string)
    ensures md == start + ChunkEntries(css, showChunk)
  {
    md := start;
    var i := 0;
    while i < |css|
      invariant 0 <= i <= |css|
      invariant md == start + ChunkEntries(css[..i], showChunk)
    {
      ChunkEntriesSnoc(css, showChunk, i);
      md := md + ChunkEntry(i + 1, showChunk(css[i]));
      i := i + 1;
    }
    assert css[..|css|] == css;
  }

  lemma ChunkEntriesSnoc(css: seq<Summarizer.ChunkSummary>, show: Summarizer.ChunkSummary -> string, i: nat)
    requires i < |css|
    ensures ChunkEntries(css[..i + 1], show) == ChunkEntries(css[..i], show) + ChunkEntry(i + 1, show(css[i]))
  {
    assert css[..i + 1][..i] == css[..i];
  }

  /** The summary part of `_create_combined_markdown_summary`, appended to `start`. */
  method AppendSummarySection(start: string, s: SummaryDict, showFinal: Summarizer.SummaryResult -> string,
                              showChunk: Summarizer.ChunkSummary -> string) returns (md: string)
    ensures md == start + SummarySection(s, showFinal, showChunk)
  {
    md := start;
    if s.FinalSummary? {
      md := md + StatisticsPart(s.finalSummary, s.totalChunks, showFinal);
      if s.chunkSummaries.Some? {
        md := md + ChunksHeading;
        md := AppendChunkEntries(md, s.chunkSummaries.value, showChunk);
      }
    } else {
      md := md + SinglePart(s.summary);
    }
  }

  /** `_create_combined_markdown_summary`. */
  method CreateCombinedMarkdownSummary(info: Metadata.EpisodeMetadata, s: SummaryDict, tr: TranscriptionDict,
                                       generated: string, showFinal: Summarizer.SummaryResult -> string,
                                       showChunk: Summarizer.ChunkSummary -> string) returns (md: string)
    ensures md == MarkdownOf(info, s, tr, generated, showFinal, showChunk)
  {
    md := Header(info, generated);
    md := AppendSummarySection(md, s, showFinal, showChunk);
    if tr.fullTranscription.Some? {
      md := md + (TranscriptHeading + tr.fullTranscription.value.text + "\n");
    }
  }

  /** The `k`-th chunk entry, as a list independent of the loop. */
  function Entries(css: seq<Summarizer.ChunkSummary>, show: Summarizer.ChunkSummary -> string): seq<string> {
    seq(|css|, k requires 0 <= k < |css| => ChunkEntry(k + 1, show(css[k])))
  }

  /** The chunk section is the entries one after another. */
  lemma {:induction false} ChunkEntriesInOrder(css: seq<Summarizer.ChunkSummary>, show: Summarizer.ChunkSummary -> string)
    ensures ChunkEntries(css, show) == Join("", Entries(css, show))
    decreases |css|
  {
    if css != [] {
      var init := css[..|css| - 1];
      ChunkEntriesInOrder(init, show);
      var e := ChunkEntry(|css|, show(css[|css| - 1]));
      var all, before := Entries(css, show), Entries(init, show);
      forall k | 0 <= k < |before| ensures all[k] == before[k] { }
      assert all == before + [e];
      if init == [] {
        assert Entries(css, show) == [e];
      } else {
        JoinSnoc("", Entries(init, show), e);
      }
    }
  }

  /** The `k`-th entry sits under the heading "#### Chunk " with the number `k + 1`, which
      reads back as `k + 1`. */
  lemma ChunkHeadings(css: seq<Summarizer.ChunkSummary>, show: Summarizer.ChunkSummary -> string, k: nat)
    requires k < |css|
    ensures StartsWith(Entries(css, show)[k], "#### Chunk " + NatToString(k + 1) + "\n")
    ensures DigitsValue(NatToString(k + 1)) == k + 1
  {
    StartsWithConcat("#### Chunk " + NatToString(k + 1) + "\n", show(css[k]) + "\n\n");
    NatToStringRoundTrip(k + 1);
  }

  /** The header opens with the title line. */
  lemma HeaderStartsWithTitle(info: Metadata.EpisodeMetadata, generated: string)
    ensures StartsWith(Header(info, generated), "# " + info.title + "\n\n")
  {
    var p := "# " + info.title + "\n\n";
    var rest := "**Show**: " + info.showName + "\n**Description**: " + info.description
      + "\n**Generated**: " + generated + "\n\n---\n\n";
    assert Header(info, generated) == p + rest;
    StartsWithConcat(p, rest);
  }

  /** The summary opens with the title line; the transcript section closes it exactly when a
      full transcription is present, and otherwise the summary section ends it. */
  lemma MarkdownFrame(info: Metadata.EpisodeMetadata, s: SummaryDict, tr: TranscriptionDict, generated: string,
                      showFinal: Summarizer.SummaryResult -> string, showChunk: Summarizer.ChunkSummary -> string)
    ensures var md := MarkdownOf(info, s, tr, generated, showFinal, showChunk);
      && StartsWith(md, "# " + info.title + "\n\n")
      && (tr.fullTranscription.Some? ==>
            EndsWith(md, TranscriptHeading + tr.fullTranscription.value.text + "\n"))
      && (tr.fullTranscription.None? ==> EndsWith(md, SummarySection(s, showFinal, showChunk)))
  {
    HeaderStartsWithTitle(info, generated);
    ThreeParts(Header(info, generated), SummarySection(s, showFinal, showChunk), TranscriptSection(tr),
               "# " + info.title + "\n\n");
  }

  /** A text of three parts keeps the prefix of the first and ends with the third, or with
      the second when the third is empty. */
  lemma ThreeParts(a: string, b: string, c: string, prefix: string)
    requires StartsWith(a, prefix)
    ensures StartsWith(a + b + c, prefix) && EndsWith(a + b + c, c)
    ensures c == "" ==> EndsWith(a + b + c, b)
  {
    StartsWithExtend(a, prefix, b + c);
    assert a + b + c == a + (b + c);
    StartsWithConcat(a + b, c);
    if c == "" {
      assert a + b + c == a + b;
      StartsWithConcat(a, b);
    }
  }

  /** A summary dictionary without a summary falls back to "No summary available", and one
      with a final summary reports its chunk count in the statistics. */
  lemma SummarySectionFallbacks(s: SummaryDict, showFinal: Summarizer.SummaryResult -> string,
                                showChunk: Summarizer.ChunkSummary -> string)
    ensures s == SingleSummary(None) ==>
      SummarySection(s, showFinal, showChunk) == "## Summary\n\n" + "No summary available" + "\n\n"
    ensures s.SingleSummary? && s.summary.Some? ==>
      SummarySection(s, showFinal, showChunk) == "## Summary\n\n" + s.summary.value + "\n\n"
    ensures s.FinalSummary? ==>
      StartsWith(SummarySection(s, showFinal, showChunk), "## Summary\n\n" + showFinal(s.finalSummary))
  {
    if s.FinalSummary? {
      var a := "## Summary\n\n" + showFinal(s.finalSummary);
      StartsWithConcat(a, "");
      assert a + "" == a;
      StartsWithExtend(a, a, "\n\n### Statistics\n- **Total chunks**: ");
      var x := a + "\n\n### Statistics\n- **Total chunks**: ";
      StartsWithExtend(x, a, NatToString(s.totalChunks));
      x := x + NatToString(s.totalChunks);
      StartsWithExtend(x, a, "\n- **Chunk summaries combined into final summary**\n\n");
      x := x + "\n- **Chunk summaries combined into final summary**\n\n";
      assert x == StatisticsPart(s.finalSummary, s.totalChunks, showFinal);
      var tail := match s.chunkSummaries case None => "" case Some(css) => ChunksHeading + ChunkEntries(css, showChunk);
      StartsWithExtend(x, a, tail);
    }
  }
}
