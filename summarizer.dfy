/**
 * Summarisation through the Gemini model: request validation, prompt construction,
 * shaping of the model's reply, per-chunk summarisation folded into one final summary,
 * key-topic extraction, and the minute:second headings of the Markdown summary.
 * The model itself is a parameter `api` from prompt text to reply.
 */
module Summarizer {
  import opened Wrappers
  import opened Text
  import Transcriber

  // ---------------------------------------------------------------- the model as a parameter

  /** What the reply object exposes. `text` is `None` when the reply has no text; the
      three diagnostics are the `str()` of the attributes that exist. */
  datatype Reply = Reply(text: Option<string>, blockReason: Option<string>,
                         finishReason: Option<string>, safetyRatings: Option<string>)

  /** A call to the model returns a reply or raises an exception with a message. */
  datatype ApiOutcome = Answered(reply: Reply) | ApiError(message: string)

  type Api = string -> ApiOutcome

  const ModelName := "gemini-2.5-flash"

  const ValidTypes: seq<string> := ["brief", "comprehensive", "bullet_points"]

  const TooShortMessage := "Text too short for meaningful summarization" + " (minimum 50 words)"

  /** The message quotes the list of valid types as Python prints it. */
  const InvalidTypeMessage := "Invalid summary_type. Must be one of: "
    + "['brief', 'comprehensive', 'bullet_points']"

  const FailurePrefix := "Summarization failed: "

  // ---------------------------------------------------------------- the prompt

  const ExpertIntro := "You are an expert at summarizing podcast content. "
    + "Please analyze the following podcast transcription " + "and provide a "

  function PromptHeader(text: string, summaryType: string): string {
    ExpertIntro + summaryType + " summary.\n\nTRANSCRIPTION:\n" + text + "\n\n"
  }

  const BriefInstruction := "Please provide a BRIEF summary (2-3 sentences) "
    + "that captures the main topic and key message " + "of this podcast episode."

  const ComprehensiveInstruction := "Please provide a COMPREHENSIVE summary that includes:\n"
    + "1. Main topic and theme\n" + "2. Key points and arguments presented\n"
    + "3. Important insights or takeaways\n" + "4. Notable quotes or memorable moments\n"
    + "5. Overall conclusions or call-to-action\n\n"
    + "Format your response in clear paragraphs " + "with appropriate headings."

  const BulletInstruction := "Please provide a summary in BULLET POINT format that includes:\n"
    + "• Main topic and theme\n" + "• Key points discussed (3-5 main points)\n"
    + "• Important insights or revelations\n" + "• Notable quotes or statistics mentioned\n"
    + "• Main conclusions or recommendations\n\n"
    + "Use clear, concise bullet points " + "that are easy to scan."

  /** The per-type instruction appended to the prompt; an unknown type adds none. */
  function WithInstruction(prompt: string, summaryType: string): string {
    if summaryType == "brief" then prompt + BriefInstruction
    else if summaryType == "comprehensive" then prompt + ComprehensiveInstruction
    else if summaryType == "bullet_points" then prompt + BulletInstruction
    else prompt
  }

  /** `max_length` is truthy: present and non-zero. */
  predicate HasLimit(maxLength: Option<int>) { maxLength.Some? && maxLength.value != 0 }

  /** `focus_areas` is truthy: present and non-empty. */
  predicate HasFocus(focusAreas: Option<seq<string>>) { focusAreas.Some? && focusAreas.value != [] }

  function LimitSentence(maxLength: int): string {
    "\n\nPlease keep the summary under " + IntToString(maxLength) + " words."
  }

  function FocusSentence(focusAreas: seq<string>): string {
    "\n\nPlease pay special attention to these topics: " + Join(", ", focusAreas)
  }

  /** The word-limit sentence appended when `max_length` is truthy. */
  function WithLimit(prompt: string, maxLength: Option<int>): string {
    if HasLimit(maxLength) then prompt + LimitSentence(maxLength.value) else prompt
  }

  /** The focus sentence appended when `focus_areas` is truthy. */
  function WithFocus(prompt: string, focusAreas: Option<seq<string>>): string {
    if HasFocus(focusAreas) then prompt + FocusSentence(focusAreas.value) else prompt
  }

  /** The prompt for one request: the header, the parts that apply, and the cue. */
  function PromptText(text: string, summaryType: string, maxLength: Option<int>,
                      focusAreas: Option<seq<string>>): string {
    WithFocus(WithLimit(WithInstruction(PromptHeader(text, summaryType), summaryType), maxLength), focusAreas)
    + "\n\nSUMMARY:"
  }

  /** `_build_prompt`: the header, then the parts that apply, appended in turn. */
  method BuildPrompt(text: string, summaryType: string, maxLength: Option<int>,
                     focusAreas: Option<seq<string>>) returns (prompt: string)
    ensures prompt == PromptText(text, summaryType, maxLength, focusAreas)
  {
    prompt := PromptHeader(text, summaryType);
    if summaryType == "brief" {
      prompt := prompt + BriefInstruction;
    } else if summaryType == "comprehensive" {
      prompt := prompt + ComprehensiveInstruction;
    } else if summaryType == "bullet_points" {
      prompt := prompt + BulletInstruction;
    }
    if maxLength.Some? && maxLength.value != 0 {
      prompt := prompt + LimitSentence(maxLength.value);
    }
    if focusAreas.Some? && focusAreas.value != [] {
      var focusText := Join(", ", focusAreas.value);
      prompt := prompt + ("\n\nPlease pay special attention to these topics: " + focusText);
    }
    prompt := prompt + "\n\nSUMMARY:";
  }

  /** The instruction step only appends, and appends nothing for an unknown type. */
  lemma InstructionAppends(prompt: string, summaryType: string)
    ensures StartsWith(WithInstruction(prompt, summaryType), prompt)
    ensures summaryType !in ValidTypes ==> WithInstruction(prompt, summaryType) == prompt
  {
    if summaryType == "brief" {
      StartsWithConcat(prompt, BriefInstruction);
    } else if summaryType == "comprehensive" {
      StartsWithConcat(prompt, ComprehensiveInstruction);
    } else if summaryType == "bullet_points" {
      StartsWithConcat(prompt, BulletInstruction);
    }
  }

  /** The word-limit step appends its sentence exactly when `max_length` is truthy. */
  lemma LimitAppends(prompt: string, maxLength: Option<int>)
    ensures StartsWith(WithLimit(prompt, maxLength), prompt)
    ensures HasLimit(maxLength) ==> EndsWith(WithLimit(prompt, maxLength), LimitSentence(maxLength.value))
    ensures !HasLimit(maxLength) ==> WithLimit(prompt, maxLength) == prompt
  {
    if HasLimit(maxLength) {
      StartsWithConcat(prompt, LimitSentence(maxLength.value));
    }
  }

  /** The focus step appends its sentence exactly when `focus_areas` is truthy. */
  lemma FocusAppends(prompt: string, focusAreas: Option<seq<string>>)
    ensures StartsWith(WithFocus(prompt, focusAreas), prompt)
    ensures HasFocus(focusAreas) ==> EndsWith(WithFocus(prompt, focusAreas), FocusSentence(focusAreas.value))
    ensures !HasFocus(focusAreas) ==> WithFocus(prompt, focusAreas) == prompt
  {
    if HasFocus(focusAreas) {
      StartsWithConcat(prompt, FocusSentence(focusAreas.value));
    }
  }

  /** The prompt starts with the header, which holds the text right after the fixed
      introduction, and ends with the `SUMMARY:` cue; with neither a word limit nor focus
      areas, the cue directly follows the instruction. */
  lemma PromptLayout(text: string, summaryType: string, maxLength: Option<int>,
                     focusAreas: Option<seq<string>>)
    ensures var header := PromptHeader(text, summaryType);
      var p := PromptText(text, summaryType, maxLength, focusAreas);
      && StartsWith(p, header)
      && OccursAt(p, text, |ExpertIntro + summaryType + " summary.\n\nTRANSCRIPTION:\n"|)
      && EndsWith(p, "\n\nSUMMARY:")
      && (!HasLimit(maxLength) && !HasFocus(focusAreas) ==>
            p == WithInstruction(header, summaryType) + "\n\nSUMMARY:")
  {
    var header := PromptHeader(text, summaryType);
    var instructed := WithInstruction(header, summaryType);
    var limited := WithLimit(instructed, maxLength);
    var focused := WithFocus(limited, focusAreas);
    var p := focused + "\n\nSUMMARY:";
    var intro := ExpertIntro + summaryType + " summary.\n\nTRANSCRIPTION:\n";
    InstructionAppends(header, summaryType);
    LimitAppends(instructed, maxLength);
    FocusAppends(limited, focusAreas);
    StartsWithConcat(focused, "\n\nSUMMARY:");
    StartsWithTrans(p, focused, limited);
    StartsWithTrans(p, limited, instructed);
    StartsWithTrans(p, instructed, header);
    assert header == intro + text + "\n\n";
    StartsWithConcat(intro + text, "\n\n");
    StartsWithTrans(p, header, intro + text);
    OccursAfterPrefix(p, intro, text);
  }

  // ---------------------------------------------------------------- shaping the reply

  /** The characters `lstrip` removes from a bullet line. */
  const BulletChars: set<char> := {'•', '-', '*', '0', '1', '2', '3', '4', '5', '6', '7', '8', '9', '.', ' '}

  /** A stripped line that starts with a bullet marker or with one of `1.` to `9.`. */
  predicate IsBulletLine(line: string) {
    || StartsWith(line, "•") || StartsWith(line, "-") || StartsWith(line, "*")
    || (|line| >= 2 && '1' <= line[0] <= '9' && line[1] == '.')
  }

  /** A bullet line with its marker characters and surrounding whitespace removed. */
  function CleanBullet(line: string): string { Strip(LStripChars(line, BulletChars)) }

  /** The bullet point one line contributes: none, or its cleaned text when that is non-empty. */
  function BulletOf(line: string): seq<string> {
    var l := Strip(line);
    if IsBulletLine(l) && CleanBullet(l) != "" then [CleanBullet(l)] else []
  }

  /** The bullet points of a sequence of lines, in line order. */
  function BulletsOf(lines: seq<string>): seq<string> { Collect(lines, BulletOf) }

  /** The processed reply: the text itself, and bullet points for the bullet type. */
  datatype ProcessedSummary = ProcessedSummary(rawSummary: string, summary: string,
                                               bulletPoints: Option<seq<string>>)

  function ProcessedOf(responseText: string, summaryType: string): ProcessedSummary {
    ProcessedSummary(responseText, responseText,
                     if summaryType == "bullet_points" then Some(BulletsOf(SplitChar(responseText, '\n'))) else None)
  }

  /** The line loop of `_process_summary_response`: each stripped bullet line whose
      cleaned text is non-empty adds that text. */
  method CollectBullets(lines: seq<string>) returns (bulletPoints: seq<string>)
    ensures bulletPoints == BulletsOf(lines)
  {
    bulletPoints := [];
    for i := 0 to |lines|
      invariant bulletPoints == BulletsOf(lines[..i])
    {
      CollectPrefixSnoc(lines, i, BulletOf);
      var line := Strip(lines[i]);
      if IsBulletLine(line) {
        var cleanPoint := Strip(LStripChars(line, BulletChars));
        if cleanPoint != "" {
          bulletPoints := bulletPoints + [cleanPoint];
        }
      }
    }
    assert lines[..|lines|] == lines;
  }

  /** `_process_summary_response`: the text is kept as is; for the bullet type the
      bullet points of its lines are added. */
  method ProcessSummaryResponse(responseText: string, summaryType: string) returns (result: ProcessedSummary)
    ensures result == ProcessedOf(responseText, summaryType)
    ensures result.summary == responseText && result.rawSummary == responseText
    ensures result.bulletPoints.Some? <==> summaryType == "bullet_points"
  {
    result := ProcessedSummary(responseText, responseText, None);
    if summaryType == "bullet_points" {
      var lines := SplitChar(responseText, '\n');
      var bulletPoints := CollectBullets(lines);
      result := result.(bulletPoints := Some(bulletPoints));
    }
  }

  /** Every bullet point is the non-empty cleaned text of a bullet line, and every
      bullet line whose cleaned text is non-empty gives one. */
  lemma BulletsFromLines(lines: seq<string>)
    ensures forall b :: b in BulletsOf(lines) <==>
              exists k :: 0 <= k < |lines| && IsBulletLine(Strip(lines[k])) && b == CleanBullet(Strip(lines[k])) && b != ""
  {
    CollectMembers(lines, BulletOf);
  }

  // ---------------------------------------------------------------- summarize

  /** The full result of one summary. The compression ratio is kept exact. */
  datatype SummaryResult = SummaryResult(
    rawSummary: string, summary: string, bulletPoints: Option<seq<string>>,
    model: string, summaryType: string, originalLength: nat, summaryLength: nat, compressionRatio: real)

  /** A request passes validation. */
  predicate Validates(text: string, summaryType: string) {
    WordCount(text) >= 50 && summaryType in ValidTypes
  }

  /** The exception message when the reply has no text. */
  function NoTextMessage(reply: Reply): string {
    "No text content in API response"
    + (if reply.blockReason.Some? then " - Block reason: " + reply.blockReason.value else "")
    + (if reply.finishReason.Some? then " - Finish reason: " + reply.finishReason.value else "")
    + (if reply.safetyRatings.Some? then " - Safety ratings: " + reply.safetyRatings.value else "")
  }

  /** What `summarize` returns or raises once the model has answered `outcome` to the
      prompt. Validation fails with a bare ValueError before the model is asked; every
      later failure becomes a RuntimeError with the failure prefix, including a reply
      whose stripped text has no words, where the compression ratio divides by zero. */
  function SummaryFrom(text: string, summaryType: string, outcome: ApiOutcome): Result<SummaryResult> {
    if WordCount(text) < 50 then Failure(ValueError(TooShortMessage))
    else if summaryType !in ValidTypes then Failure(ValueError(InvalidTypeMessage))
    else
      match outcome
      case ApiError(message) => Failure(RuntimeError(FailurePrefix + message))
      case Answered(reply) =>
        if reply.text.None? then Failure(RuntimeError(FailurePrefix + NoTextMessage(reply)))
        else
          var summaryText := Strip(reply.text.value);
          var processed := ProcessedOf(summaryText, summaryType);
          if WordCount(summaryText) == 0 then Failure(RuntimeError(FailurePrefix + "division by zero"))
          else
            Success(SummaryResult(processed.rawSummary, processed.summary, processed.bulletPoints,
                                  ModelName, summaryType, WordCount(text), WordCount(summaryText),
                                  (WordCount(text) as real) / (WordCount(summaryText) as real)))
  }

  /** `summarize`: the model is asked for the prompt of this request. */
  function Summarize(text: string, summaryType: string, maxLength: Option<int>,
                     focusAreas: Option<seq<string>>, api: Api): Result<SummaryResult> {
    SummaryFrom(text, summaryType, api(PromptText(text, summaryType, maxLength, focusAreas)))
  }

  /** Validation errors do not depend on the model at all. */
  lemma SummarizeValidation(text: string, summaryType: string, maxLength: Option<int>,
                            focusAreas: Option<seq<string>>, api: Api)
    ensures var r := Summarize(text, summaryType, maxLength, focusAreas, api);
      && (WordCount(text) < 50 ==> r == Failure(ValueError(TooShortMessage)))
      && (WordCount(text) >= 50 && summaryType !in ValidTypes ==> r == Failure(ValueError(InvalidTypeMessage)))
      && (r.Failure? && r.error.ValueError? ==> !Validates(text, summaryType))
  {
  }

  /** After validation every failure is a RuntimeError carrying the failure prefix: the
      exception's own message, the missing-text diagnostics, or the division by zero. */
  lemma SummaryFromFailures(text: string, summaryType: string, outcome: ApiOutcome)
    requires Validates(text, summaryType)
    ensures var r := SummaryFrom(text, summaryType, outcome);
      && (r.Failure? ==> r.error.RuntimeError? && StartsWith(r.error.message, FailurePrefix))
      && (outcome.ApiError? ==> r == Failure(RuntimeError(FailurePrefix + outcome.message)))
      && (outcome.Answered? && outcome.reply.text.None? ==>
            r == Failure(RuntimeError(FailurePrefix + NoTextMessage(outcome.reply))))
      && (outcome.Answered? && outcome.reply.text.Some? && IsBlank(outcome.reply.text.value) ==>
            r == Failure(RuntimeError(FailurePrefix + "division by zero")))
  {
    var r := SummaryFrom(text, summaryType, outcome);
    if r.Failure? {
      StartsWithConcat(FailurePrefix, r.error.message[|FailurePrefix|..]);
      assert r.error.message == FailurePrefix + r.error.message[|FailurePrefix|..];
    }
    if outcome.Answered? && outcome.reply.text.Some? && IsBlank(outcome.reply.text.value) {
      StripEmptyIffBlank(outcome.reply.text.value);
      WordCountZeroIffBlank("");
    }
  }

  /** A summary is produced exactly when the request validates and the model answered
      with text that has a word; it is that text stripped, with its word counts, and its
      ratio relates the two counts. */
  lemma SummaryFromSuccess(text: string, summaryType: string, outcome: ApiOutcome)
    ensures var r := SummaryFrom(text, summaryType, outcome);
      && (r.Success? <==>
            Validates(text, summaryType) && outcome.Answered? && outcome.reply.text.Some?
            && WordCount(Strip(outcome.reply.text.value)) > 0)
      && (r.Success? ==>
            && r.value.summary == r.value.rawSummary == Strip(outcome.reply.text.value)
            && r.value.summary == Strip(r.value.summary)
            && r.value.originalLength == WordCount(text)
            && r.value.summaryLength == WordCount(r.value.summary) > 0
            && r.value.model == ModelName && r.value.summaryType == summaryType
            && (r.value.bulletPoints.Some? <==> summaryType == "bullet_points")
            && r.value.compressionRatio * (r.value.summaryLength as real) == r.value.originalLength as real)
  {
    var r := SummaryFrom(text, summaryType, outcome);
    if r.Success? {
      StripIdempotent(outcome.reply.text.value);
      RatioTimesLength(r.value.originalLength, r.value.summaryLength);
    }
  }

  /** `a / b * b == a` for a non-zero word count `b`. */
  lemma RatioTimesLength(a: nat, b: nat)
    requires b > 0
    ensures ((a as real) / (b as real)) * (b as real) == a as real
  {
  }

  // ---------------------------------------------------------------- summarize_chunks

  /** One entry of `chunk_summaries`. */
  datatype ChunkSummary = ChunkSummary(chunkId: nat, startTime: int, endTime: int,
                                       summary: string, originalLength: nat)

  /** The result of `summarize_chunks`, with `processing_info` flattened into two fields. */
  datatype ChunkedSummary = ChunkedSummary(
    chunkSummaries: seq<ChunkSummary>, finalSummary: SummaryResult, totalChunks: nat,
    chunkSummaryType: string, finalSummaryType: string)

  /** Chunk summaries are asked for with a 200-word limit. */
  const ChunkWordLimit := 200

  /** The entry for chunk `i`: its summary, or the failure placeholder with the message. */
  function SummaryOfChunk(i: nat, chunk: Transcriber.Chunk, chunkSummaryType: string, api: Api): ChunkSummary {
    match Summarize(chunk.text, chunkSummaryType, Some(ChunkWordLimit), None, api)
    case Success(s) => ChunkSummary(i, chunk.startTime, chunk.endTime, s.summary, WordCount(chunk.text))
    case Failure(e) =>
      ChunkSummary(i, chunk.startTime, chunk.endTime, "[Failed to summarize: " + e.message + "]", WordCount(chunk.text))
  }

  function ChunkSummaries(chunks: seq<Transcriber.Chunk>, chunkSummaryType: string, api: Api): seq<ChunkSummary> {
    seq(|chunks|, i requires 0 <= i < |chunks| => SummaryOfChunk(i, chunks[i], chunkSummaryType, api))
  }

  /** `f` applied to each of the first `n` chunks with its index, as a loop appends them. */
  function Indexed(chunks: seq<Transcriber.Chunk>, n: nat, f: (nat, Transcriber.Chunk) -> ChunkSummary): seq<ChunkSummary>
    requires n <= |chunks|
  {
    if n == 0 then [] else Indexed(chunks, n - 1, f) + [f(n - 1, chunks[n - 1])]
  }

  lemma {:induction false} IndexedAll(chunks: seq<Transcriber.Chunk>, n: nat, f: (nat, Transcriber.Chunk) -> ChunkSummary)
    requires n <= |chunks|
    ensures |Indexed(chunks, n, f)| == n
    ensures forall k :: 0 <= k < n ==> Indexed(chunks, n, f)[k] == f(k, chunks[k])
  {
    if n > 0 {
      IndexedAll(chunks, n - 1, f);
    }
  }

  /** `f"Segment {start:.0f}-{end:.0f}s: {summary}"` for whole-second times. */
  function SegmentLine(cs: ChunkSummary): string {
    "Segment " + IntToString(cs.startTime) + "-" + IntToString(cs.endTime) + "s: " + cs.summary
  }

  function SegmentLines(css: seq<ChunkSummary>): (lines: seq<string>)
    ensures |lines| == |css| && forall k :: 0 <= k < |css| ==> lines[k] == SegmentLine(css[k])
  {
    seq(|css|, k requires 0 <= k < |css| => SegmentLine(css[k]))
  }

  /** The text the final summary is asked for. */
  function CombinedText(css: seq<ChunkSummary>): string {
    Join("\n\n", SegmentLines(css))
  }

  /** What `summarize_chunks` returns or raises. */
  function ChunkedSummaryOf(chunks: seq<Transcriber.Chunk>, chunkSummaryType: string,
                            finalSummaryType: string, api: Api): Result<ChunkedSummary> {
    var css := ChunkSummaries(chunks, chunkSummaryType, api);
    match Summarize(CombinedText(css), finalSummaryType, None, None, api)
    case Success(f) => Success(ChunkedSummary(css, f, |chunks|, chunkSummaryType, finalSummaryType))
    case Failure(e) => Failure(e)
  }

  /** The loop of `summarize_chunks`: each chunk is summarised on its own, in order, a
      failure becoming a placeholder entry that quotes the error. */
  method SummarizeEachChunk(chunks: seq<Transcriber.Chunk>, chunkSummaryType: string, api: Api)
    returns (chunkSummaries: seq<ChunkSummary>)
    ensures chunkSummaries == ChunkSummaries(chunks, chunkSummaryType, api)
    ensures |chunkSummaries| == |chunks|
    ensures forall i :: 0 <= i < |chunks| ==> chunkSummaries[i] == SummaryOfChunk(i, chunks[i], chunkSummaryType, api)
  {
    chunkSummaries := [];
    for i := 0 to |chunks|
      invariant chunkSummaries == Indexed(chunks, i, (k: nat, c: Transcriber.Chunk) => SummaryOfChunk(k, c, chunkSummaryType, api))
    {
      var chunkSummary := SummarizeOneChunk(i, chunks[i], chunkSummaryType, api);
      chunkSummaries := chunkSummaries + [chunkSummary];
    }
    IndexedAll(chunks, |chunks|, (k: nat, c: Transcriber.Chunk) => SummaryOfChunk(k, c, chunkSummaryType, api));
  }

  /** One pass of the chunk loop: a failed summary becomes a placeholder text quoting the
      error, so one chunk's failure does not stop the others. */
  method SummarizeOneChunk(i: nat, chunk: Transcriber.Chunk, chunkSummaryType: string, api: Api)
    returns (chunkSummary: ChunkSummary)
    ensures chunkSummary == SummaryOfChunk(i, chunk, chunkSummaryType, api)
  {
    var summary := Summarize(chunk.text, chunkSummaryType, Some(ChunkWordLimit), None, api);
    if summary.Success? {
      chunkSummary := ChunkSummary(i, chunk.startTime, chunk.endTime, summary.value.summary, WordCount(chunk.text));
    } else {
      chunkSummary := ChunkSummary(i, chunk.startTime, chunk.endTime,
        "[Failed to summarize: " + summary.error.message + "]", WordCount(chunk.text));
    }
  }

  /** `summarize_chunks`: the chunk summaries, then a final summary of their combined
      text, whose failure is not caught. */
  method SummarizeChunks(chunks: seq<Transcriber.Chunk>, chunkSummaryType: string,
                         finalSummaryType: string, api: Api) returns (r: Result<ChunkedSummary>)
    ensures r == ChunkedSummaryOf(chunks, chunkSummaryType, finalSummaryType, api)
    ensures r.Success? ==>
              && |r.value.chunkSummaries| == |chunks| == r.value.totalChunks
              && (forall i :: 0 <= i < |chunks| ==>
                    r.value.chunkSummaries[i] == SummaryOfChunk(i, chunks[i], chunkSummaryType, api))
              && r.value.chunkSummaryType == chunkSummaryType
              && r.value.finalSummaryType == finalSummaryType
    ensures r.Failure? ==>
              Summarize(CombinedText(ChunkSummaries(chunks, chunkSummaryType, api)), finalSummaryType, None, None, api)
                == Failure(r.error)
  {
    var chunkSummaries := SummarizeEachChunk(chunks, chunkSummaryType, api);
    var combinedSummaries := Join("\n\n", seq(|chunkSummaries|, k requires 0 <= k < |chunkSummaries| => SegmentLine(chunkSummaries[k])));
    var finalSummary := Summarize(combinedSummaries, finalSummaryType, None, None, api);
    if finalSummary.Failure? {
      return Failure(finalSummary.error);
    }
    r := Success(ChunkedSummary(chunkSummaries, finalSummary.value, |chunks|, chunkSummaryType, finalSummaryType));
  }


  /** Each entry keeps its chunk's index, window and word count; its summary is the
      chunk's own summary or, when that failed, the placeholder with the failure's message. */
  lemma ChunkEntry(i: nat, chunk: Transcriber.Chunk, chunkSummaryType: string, api: Api)
    ensures var e := SummaryOfChunk(i, chunk, chunkSummaryType, api);
      var s := Summarize(chunk.text, chunkSummaryType, Some(ChunkWordLimit), None, api);
      && e.chunkId == i && e.startTime == chunk.startTime && e.endTime == chunk.endTime
      && e.originalLength == WordCount(chunk.text)
      && (s.Success? ==> e.summary == s.value.summary)
      && (s.Failure? ==> e.summary == "[Failed to summarize: " + s.error.message + "]")
  {
  }

  /** A chunk with fewer than 50 words always gets the too-short placeholder. */
  lemma ShortChunkPlaceholder(i: nat, chunk: Transcriber.Chunk, chunkSummaryType: string, api: Api)
    requires WordCount(chunk.text) < 50
    ensures SummaryOfChunk(i, chunk, chunkSummaryType, api).summary
         == "[Failed to summarize: " + TooShortMessage + "]"
  {
  }

  /** The combined text is the segment lines joined by blank lines: after the first
      block, each further chunk adds a blank line and its own segment line. */
  lemma {:induction false} CombinedTextSnoc(css: seq<ChunkSummary>, cs: ChunkSummary)
    requires css != []
    ensures CombinedText(css + [cs]) == CombinedText(css) + "\n\n" + SegmentLine(cs)
  {
    assert SegmentLines(css + [cs]) == SegmentLines(css) + [SegmentLine(cs)];
    JoinSnoc("\n\n", SegmentLines(css), SegmentLine(cs));
  }

  /** With no chunks the combined text is empty, so the final summary raises the
      too-short error. */
  lemma NoChunksTooShort(chunkSummaryType: string, finalSummaryType: string, api: Api)
    ensures ChunkedSummaryOf([], chunkSummaryType, finalSummaryType, api)
         == Failure(ValueError(TooShortMessage))
  {
    assert CombinedText([]) == "";
    WordCountZeroIffBlank("");
  }

  // ---------------------------------------------------------------- extract_key_topics

  function TopicsPrompt(text: string, numTopics: int): string {
    "Analyze the following podcast transcription " + "and extract the " + IntToString(numTopics)
    + " most important topics or themes discussed." + "\n\nTRANSCRIPTION:\n" + text
    + "\n\nPlease provide exactly " + IntToString(numTopics)
    + " key topics, one per line, in order of importance. "
    + "Format each topic as a short phrase (2-5 words)." + "\n\nKEY TOPICS:"
  }

  /** The characters `lstrip` removes from a topic line. */
  const TopicChars: set<char> := {'1', '2', '3', '4', '5', '6', '7', '8', '9', '0', '.', '-', '•', ' '}

  function CleanTopic(line: string): string { Strip(LStripChars(Strip(line), TopicChars)) }

  /** The topic one line contributes: none, or its cleaned text when that is non-empty. */
  function TopicOf(line: string): seq<string> {
    var t := CleanTopic(line);
    if t != "" then [t] else []
  }

  /** Every non-empty cleaned topic line, in order. */
  function TopicCandidates(lines: seq<string>): seq<string> { Collect(lines, TopicOf) }

  /** The first `n` elements, none for a non-positive `n`. */
  function Take(s: seq<string>, n: int): (r: seq<string>)
    ensures |r| == Min(|s|, Max(n, 0)) && r == s[..|r|]
  {
    s[..Min(|s|, Max(n, 0))]
  }

  /** The topics a reply text gives: the first `numTopics` non-empty cleaned lines. */
  function TopicsIn(responseText: string, numTopics: int): seq<string> {
    Take(TopicCandidates(SplitChar(Strip(responseText), '\n')), numTopics)
  }

  /** What `extract_key_topics` returns: the topics of the reply, or nothing when the
      call fails or the reply has no text. */
  function KeyTopicsOf(text: string, numTopics: int, api: Api): seq<string> {
    match api(TopicsPrompt(text, numTopics))
    case ApiError(_) => []
    case Answered(reply) => if reply.text.None? then [] else TopicsIn(reply.text.value, numTopics)
  }

  lemma TakeSnoc(c: seq<string>, x: seq<string>, n: int)
    requires |x| <= 1
    ensures Take(c + x, n) == if |c| < n then c + x else Take(c, n)
  {
    if |c| >= n {
      assert (c + x)[..Min(|c + x|, Max(n, 0))] == c[..Min(|c|, Max(n, 0))];
    }
  }

  /** One more line read: its topic is added while fewer than `numTopics` were found. */
  lemma TopicsStep(lines: seq<string>, i: nat, numTopics: int)
    requires i < |lines|
    ensures var taken := Take(TopicCandidates(lines[..i]), numTopics);
      var topic := CleanTopic(lines[i]);
      Take(TopicCandidates(lines[..i + 1]), numTopics)
        == if topic != "" && |taken| < numTopics then taken + [topic] else taken
  {
    var before := TopicCandidates(lines[..i]);
    var found := TopicOf(lines[i]);
    CollectPrefixSnoc(lines, i, TopicOf);
    TakeSnoc(before, found, numTopics);
  }

  /** The line loop of `extract_key_topics`: topics are collected, while fewer than
      `numTopics`, line by line, and the list is cut to `numTopics` at the end. */
  method CollectTopics(lines: seq<string>, numTopics: int) returns (topics: seq<string>)
    ensures topics == Take(TopicCandidates(lines), numTopics)
  {
    topics := [];
    for i := 0 to |lines|
      invariant topics == Take(TopicCandidates(lines[..i]), numTopics)
    {
      var topic := Strip(LStripChars(Strip(lines[i]), TopicChars));
      TopicsStep(lines, i, numTopics);
      if topic != "" && |topics| < numTopics {
        topics := topics + [topic];
      }
    }
    assert lines[..|lines|] == lines;
    topics := Slice(topics, numTopics);
  }

  /** `extract_key_topics`: any failure of the call gives the empty list. */
  method ExtractKeyTopics(text: string, numTopics: int, api: Api) returns (topics: seq<string>)
    ensures topics == KeyTopicsOf(text, numTopics, api)
  {
    var prompt := TopicsPrompt(text, numTopics);
    var response := api(prompt);
    if response.ApiError? || response.reply.text.None? {
      return [];
    }
    var lines := SplitChar(Strip(response.reply.text.value), '\n');
    topics := CollectTopics(lines, numTopics);
  }

  /** At most `numTopics` topics come back, none of them empty, each the cleaned text of
      a line of the reply; a failed call or a reply without text gives none. */
  lemma KeyTopicsBounds(text: string, numTopics: int, api: Api)
    ensures var topics := KeyTopicsOf(text, numTopics, api);
      && |topics| <= Max(numTopics, 0)
      && (forall k :: 0 <= k < |topics| ==> topics[k] != "")
      && (api(TopicsPrompt(text, numTopics)).ApiError? ==> topics == [])
  {
    var outcome := api(TopicsPrompt(text, numTopics));
    if outcome.Answered? && outcome.reply.text.Some? {
      TopicsInBounds(outcome.reply.text.value, numTopics);
    }
  }

  lemma TopicsInBounds(responseText: string, numTopics: int)
    ensures var topics := TopicsIn(responseText, numTopics);
      && |topics| <= Max(numTopics, 0)
      && (forall k :: 0 <= k < |topics| ==> topics[k] != "")
  {
    var topics := TopicsIn(responseText, numTopics);
    var lines := SplitChar(Strip(responseText), '\n');
    forall k | 0 <= k < |topics| ensures topics[k] != "" {
      assert topics[k] in TopicCandidates(lines);
      CollectMember(lines, TopicOf, topics[k]);
    }
  }

  /** `s[:n]` with Python's negative-index rule. */
  function Slice(s: seq<string>, n: int): (r: seq<string>)
    ensures n >= |s| ==> r == s
    ensures 0 <= n <= |s| ==> r == s[..n]
    ensures n < 0 ==> r == s[..Max(|s| + n, 0)]
  {
    if n >= 0 then s[..Min(n, |s|)] else s[..Max(|s| + n, 0)]
  }

  // ---------------------------------------------------------------- Markdown headings

  /** `f"{t // 60:02d}:{t % 60:02d}"` for whole seconds. */
  function MinSec(t: int): string {
    var ms := MinutesSeconds(t);
    Pad2(ms.0) + ":" + Pad2(ms.1)
  }

  /** The rendering is the minutes, ':' and two digits of seconds. The minutes take two
      digits below 100 minutes and as many as they need from there on, since `:02d` only
      pads; each part reads back as Python's `t // 60` and `t % 60`. */
  lemma MinSecRoundTrip(t: int)
    requires 0 <= t
    ensures var p := MinSec(t);
      var i := |p| - 3;
      && |p| >= 5 && p[i] == ':'
      && AllDigits(p[..i]) && AllDigits(p[i + 1..])
      && DigitsValue(p[..i]) == t / 60 && DigitsValue(p[i + 1..]) == t % 60
      && DigitsValue(p[..i]) * 60 + DigitsValue(p[i + 1..]) == t
      && (|p| == 5 <==> t < 6000)
  {
    var ms := MinutesSeconds(t);
    Pad2Digits(ms.0);
    Pad2TwoDigits(ms.1);
    var p := MinSec(t);
    var i := |p| - 3;
    assert p[..i] == Pad2(ms.0);
    assert p[i + 1..] == Pad2(ms.1);
  }
}
