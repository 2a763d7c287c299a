# Podcast summarizer: a Dafny model of its pipeline

The podcast summarizer fetches a Spotify episode's metadata and finds its audio, either
with `spotdl` or through a YouTube search. It then transcribes the audio with Whisper,
cuts the timed transcript into fixed-length chunks, and summarises each chunk with
Gemini. The chunk summaries are folded into one final summary, which is written out as
Markdown. This project models the deterministic core of that pipeline and proves what the
code promises about it. The external services become function-typed parameters:
Whisper, Gemini, yt-dlp, `spotdl`, HTTP, `urlparse`, `json.loads` and BeautifulSoup.

One module per source file:

| module | file | models |
|---|---|---|
| `Transcriber` | `transcriber.dfy` | `_process_result`, the time-chunk builder `_create_time_chunks`, `transcribe_with_summary_chunks`, `get_available_models` |
| `Summarizer` | `summarizer.dfy` | validation and result shaping of `summarize`, `_build_prompt`, `_process_summary_response`, `summarize_chunks`, `extract_key_topics`, the `mm:ss` segment headings |
| `AudioDownloader` | `audio_downloader.dfy` | `_create_fallback_queries`, `_apply_term_substitutions`, the query loop of `download_by_search`, the duration string |
| `Metadata` | `metadata.dfy` | `is_valid_spotify_url`, `extract_spotify_id`, the URL checks of `get_show_metadata` and `get_episode_metadata`, `_extract_metadata_from_html` |
| `Downloader` | `downloader.dfy` | `is_valid_spotify_url`, the URL guard of `download` and `get_episode_info`, the JSON-locating rule of `get_episode_info` |
| `Cli` | `cli.dfy` | the episode-title slug and derived file names, the default output names, the summarise dispatch of `process`, `_create_combined_markdown_summary` |
| `Urls` | `urls.dfy` | the shape shared by both URL validators |
| `Text` | `text.dfy` | the Python string operations the code relies on (`strip`, `split`, `join`, `find`, `replace`, `lower`, `str(n)`, `:02d`) |
| `Wrappers` | `wrappers.dfy` | `Option`, `Result` and the two exception kinds |

Three kinds of code are modelled differently:

- **Loops become methods.** Each loop that updates state is a method. Its invariants tie it
  to a specification function, and the properties are proved about that function.
- **Mutated dictionaries become datatypes.** The builder's running `current_chunk` and the
  extractor's `metadata` dict are datatype values that the methods reassign.
- **Pure expressions become functions.** The slug and the URL validators are examples.

Times are whole seconds (`int`). For a positive divisor, Dafny's `/` and `%` agree with
Python's `//` and `%`, so the window arithmetic is exact.

The first chunk's text starts with a space when the first segments fall in the initial
window: transcriber.py:209 appends them to the empty initial chunk with `" " + text`
(`Transcriber.ExampleSingleWindow`, `Transcriber.ExampleRollover`,
`Transcriber.ExampleWidening`).

## Model

| member | source | states |
|---|---|---|
| Transcriber.ProcessResult | src/podcast_summarize/transcriber.py:101-140 | One output segment per input segment, in order. Missing keys default to id 0 and times 0, the text is stripped, the language defaults to "unknown", and words appear exactly when timestamps were asked for and the segment has them. |
| Transcriber.AvailableModels | src/podcast_summarize/transcriber.py:293-300 | Six distinct model names, among them "base" and "turbo". |
| Transcriber.CreateTimeChunks | src/podcast_summarize/transcriber.py:171-217 | The loop returns exactly the running chunks whose text is not blank, in the order they were built from the segments. |
| Transcriber.TimeChunks | src/podcast_summarize/transcriber.py:171-217 | The chunks the builder returns, as a function of the segments: the running chunks with blank ones dropped. Its properties are the `Runs`/`TimeChunks` lemmas below. |
| Transcriber.RunsSnoc | src/podcast_summarize/transcriber.py:189-211 | A segment starting at or after the running chunk's end opens a chunk. The new chunk gets the window `floor(start/d)*d` of length `d`, the segment's text and count 1. Any other segment widens the running chunk: `" " + text` is appended, the count goes up by one, and the end becomes the larger of the two ends. |
| Transcriber.KeepNonBlankMembers | src/podcast_summarize/transcriber.py:196-197 | A chunk is emitted exactly when it is a running chunk and its text is not whitespace-only. |
| Transcriber.TranscribeWithSummaryChunks | src/podcast_summarize/transcriber.py:142-169 | The result holds the transcription unchanged, its time chunks, the chunk duration it was given and `total_chunks == len(chunks)`. |
| Transcriber.RunsAligned | src/podcast_summarize/transcriber.py:182-206 | The first running chunk starts at 0. Every running chunk starts on a multiple of `d` and ends at least `d` after its start. |
| Transcriber.RunsSpaced | src/podcast_summarize/transcriber.py:195-211 | Each running chunk starts at least `d` after the one before it. |
| Transcriber.KeepNonBlankSpaced | src/podcast_summarize/transcriber.py:196-197 | Dropping blank chunks keeps that spacing. |
| Transcriber.TimeChunksWindows | src/podcast_summarize/transcriber.py:181-217 | Every emitted chunk has non-blank stripped text, an aligned start, an end at least `d` after the start, and a start at least `d` after the previous chunk's start. No segments give no chunks. |
| Transcriber.GroupsCover | src/podcast_summarize/transcriber.py:189-211 | The groups of segments that form the running chunks cover the segment list exactly once and in order. Every group but the first is non-empty. |
| Transcriber.GroupsFormRuns | src/podcast_summarize/transcriber.py:189-211 | Each running chunk is the chunk its group forms. Its start and first text come from the group's first segment, or from the initial chunk. Its text is the group's texts joined with leading spaces, its end is the latest end of the appended segments, and its count is the group's size. |
| Transcriber.TimeChunksFromGroups | src/podcast_summarize/transcriber.py:189-217 | Every emitted chunk is formed by one group of consecutive segments. |
| Transcriber.RunsCountSegments | src/podcast_summarize/transcriber.py:205-210 | The running chunks' counts add up to the number of segments. |
| Transcriber.KeepNonBlankTotal | src/podcast_summarize/transcriber.py:196-197 | Dropping blank chunks never increases the total count. It keeps the total when every dropped chunk counts no segment. |
| Transcriber.RunsWithTextAreKept | src/podcast_summarize/transcriber.py:182-210 | When no segment text is blank, only an initial chunk holding no segment can be dropped. |
| Transcriber.SegmentCountSum | src/podcast_summarize/transcriber.py:196-215 | The emitted counts add up to at most the number of segments. They add up to exactly that number when no segment text is blank. |
| Transcriber.ExampleSingleWindow | src/podcast_summarize/transcriber.py:209 | Segments at 0 and 20 with `d = 300` give one chunk `(0, 300, " a b", 2)`, with its leading space. |
| Transcriber.ExampleRollover | src/podcast_summarize/transcriber.py:195-206 | A segment at 305 closes the first window and opens `(300, 600, "b", 1)`. |
| Transcriber.ExampleWidening | src/podcast_summarize/transcriber.py:211 | A segment straddling 300 widens the chunk to end at 320. |
| Transcriber.ExampleOverlap | src/podcast_summarize/transcriber.py:200-211 | A chunk widened to 700 is followed by a chunk that starts at 600, before that end. |
| Transcriber.ExampleLeadingSilence | src/podcast_summarize/transcriber.py:196-206 | A first segment at 650 drops the empty initial chunk and gives `(600, 900, "x", 1)`. |
| Summarizer.BuildPrompt | src/podcast_summarize/summarizer.py:117-176 | The `+=` steps build exactly the prompt text: header, instruction, limit sentence, focus sentence, cue. |
| Summarizer.InstructionAppends | src/podcast_summarize/summarizer.py:142-163 | The instruction step only appends. An unknown type appends nothing. |
| Summarizer.LimitAppends | src/podcast_summarize/summarizer.py:165-167 | The word-limit sentence is appended exactly when `max_length` is truthy. |
| Summarizer.FocusAppends | src/podcast_summarize/summarizer.py:169-172 | The focus sentence, with the areas joined by ", ", is appended exactly when the focus list is non-empty. |
| Summarizer.PromptLayout | src/podcast_summarize/summarizer.py:135-176 | The prompt starts with the header, holds the input text right after "TRANSCRIPTION:\n", and ends with "\n\nSUMMARY:". Without a limit or focus areas, the cue directly follows the instruction. |
| Summarizer.CollectBullets | src/podcast_summarize/summarizer.py:192-201 | The line loop returns the bullet points of the lines, in line order. |
| Summarizer.ProcessSummaryResponse | src/podcast_summarize/summarizer.py:178-209 | `summary` and `raw_summary` are the response text. Bullet points are present exactly for the "bullet_points" type. |
| Summarizer.BulletsFromLines | src/podcast_summarize/summarizer.py:195-201 | A text is a bullet point exactly when it is the non-empty cleaned text of some stripped line that starts with •, -, * or one of "1." to "9.". |
| Summarizer.SummarizeValidation | src/podcast_summarize/summarizer.py:64-69 | Fewer than 50 words give the too-short ValueError, whatever the model answers. Otherwise an unknown type gives the invalid-type ValueError. A ValueError means validation failed. |
| Summarizer.Summarize | src/podcast_summarize/summarizer.py:42-115 | `summarize` as a function of the request and the model: the prompt of the request is sent, and the answer is shaped by `SummaryFrom`. Its validation, failures and success are stated by the three lemmas around it. |
| Summarizer.SummaryFrom | src/podcast_summarize/summarizer.py:64-115 | The outcome of `summarize` for one answer of the model: the two ValueErrors first, then the RuntimeError cases, then the result record. |
| Summarizer.SummaryFromFailures | src/podcast_summarize/summarizer.py:87-115 | After validation every failure is a RuntimeError starting "Summarization failed: ". The cases are a raised call with its message, a reply without text with its diagnostics, and a blank reply with "division by zero". |
| Summarizer.SummaryFromSuccess | src/podcast_summarize/summarizer.py:98-112 | Success holds exactly when the input validates and the reply has words. `summary == raw_summary` is the stripped reply, and the lengths are the two word counts. Bullet points appear only for "bullet_points", and the ratio times the summary length is the original length. |
| Summarizer.SummarizeOneChunk | src/podcast_summarize/summarizer.py:235-260 | One pass of the loop gives the chunk's entry. A failed summary becomes "[Failed to summarize: <message>]". |
| Summarizer.SummarizeEachChunk | src/podcast_summarize/summarizer.py:229-260 | The loop gives exactly one entry per chunk, in order, each the entry of that chunk and its index. |
| Summarizer.SummarizeChunks | src/podcast_summarize/summarizer.py:211-283 | On success the result has one entry per chunk, `total_chunks` equal to the number of chunks, and both summary types. Any failure is exactly the final summary's failure, which is not caught. |
| Summarizer.ChunkedSummaryOf | src/podcast_summarize/summarizer.py:211-283 | What `summarize_chunks` returns or raises: the per-chunk entries, then the final summary of their combined text, whose failure is returned as is. |
| Summarizer.ChunkEntry | src/podcast_summarize/summarizer.py:242-260 | Each entry keeps its index, its window and the chunk's word count. Its summary is the chunk's summary or the placeholder quoting the error. |
| Summarizer.ShortChunkPlaceholder | src/podcast_summarize/summarizer.py:236-258 | A chunk under 50 words always gets "[Failed to summarize: " + the too-short message + "]". |
| Summarizer.CombinedTextSnoc | src/podcast_summarize/summarizer.py:263-266 | Each further chunk adds "\n\n" and its segment line to the combined text. |
| Summarizer.NoChunksTooShort | src/podcast_summarize/summarizer.py:263-273 | With no chunks, the final call raises the too-short ValueError. |
| Summarizer.TopicsStep | src/podcast_summarize/summarizer.py:311-314 | Each line adds its cleaned topic when the topic is non-empty and fewer than `num_topics` topics have been found. |
| Summarizer.CollectTopics | src/podcast_summarize/summarizer.py:310-316 | The line loop and the final slice give the first `num_topics` non-empty cleaned lines. |
| Summarizer.ExtractKeyTopics | src/podcast_summarize/summarizer.py:285-320 | The method returns the topics of the reply, or none when the call raises or the reply has no text. |
| Summarizer.KeyTopicsOf | src/podcast_summarize/summarizer.py:285-320 | What `extract_key_topics` returns: the topics of the reply text, or [] when the call raises or the reply has no text. |
| Summarizer.KeyTopicsBounds | src/podcast_summarize/summarizer.py:304-320 | At most `num_topics` topics, none empty. A failing call gives []. |
| Summarizer.TopicsInBounds | src/podcast_summarize/summarizer.py:311-316 | The topics of a reply are at most `num_topics` in number, and none is empty. |
| Summarizer.MinSecRoundTrip | src/podcast_summarize/summarizer.py:377-382 | For every time from 0 on, the heading time is the minutes, ':' and two digits of seconds, reading back as `t // 60` and `t % 60`. The minutes are two digits exactly below 100 minutes, and all the digits they need from there on. |
| AudioDownloader.CleanShape | src/podcast_summarize/audio_downloader.py:259-268 | Cleaning keeps the length. Each character outside the kept class becomes exactly one space, and the others stay in place. |
| AudioDownloader.CleanIdempotent | src/podcast_summarize/audio_downloader.py:259 | Cleaning twice equals cleaning once. |
| AudioDownloader.CleanedNames | src/podcast_summarize/audio_downloader.py:259-268 | Both cleaned names keep their length. The title keeps its hyphens, and the show loses its hyphens. |
| AudioDownloader.CleanTitle | src/podcast_summarize/audio_downloader.py:259 | The title cleaning `re.sub(r'[^\w\s-]', ' ', title)`; its properties are `CleanShape`, `CleanIdempotent` and `CleanedNames`. |
| AudioDownloader.CleanShow | src/podcast_summarize/audio_downloader.py:268 | The show cleaning `re.sub(r'[^\w\s]', ' ', show)`, which also turns hyphens into spaces. |
| AudioDownloader.MeaningfulWordsFilter | src/podcast_summarize/audio_downloader.py:260-265 | Exactly the words longer than two characters whose lower-case form is not a stop word are kept, in their original order. |
| AudioDownloader.StopWordVsRedundant | src/podcast_summarize/audio_downloader.py:260 | The stop word "vs" never matters, because the length test already drops it. |
| AudioDownloader.ApplyTermSubstitutions | src/podcast_summarize/audio_downloader.py:290-302 | One whole-word, case-insensitive `re.sub` per table entry, in the order GPT-OSS, GPT OSS, ChatGPT, GPT. |
| AudioDownloader.Sub | src/podcast_summarize/audio_downloader.py:301 | One whole-word, case-insensitive `re.sub` of the escaped pattern; its properties are `SubFromUnchanged`, `SubWithoutWord`, `SubIgnoresCase` and `SubWholeWord`. |
| AudioDownloader.SubFrom | src/podcast_summarize/audio_downloader.py:301 | The left-to-right scan of `re.sub`: matches do not overlap, each is replaced, every other character is copied. |
| AudioDownloader.SubFromUnchanged | src/podcast_summarize/audio_downloader.py:301 | Where no match starts, `re.sub` copies the text. |
| AudioDownloader.NoGptUnchanged | src/podcast_summarize/audio_downloader.py:292-302 | A title without case-insensitive "gpt" is returned unchanged. |
| AudioDownloader.ApplyAllUnchanged | src/podcast_summarize/audio_downloader.py:299-301 | Passes that each leave the title unchanged leave it unchanged together. |
| AudioDownloader.SubIgnoresCase | src/podcast_summarize/audio_downloader.py:301 | "gpt" is replaced by "OpenAI": the match ignores case. |
| AudioDownloader.SubWholeWord | src/podcast_summarize/audio_downloader.py:301 | "GPTs" is not rewritten: the match is whole-word. |
| AudioDownloader.CreateFallbackQueries | src/podcast_summarize/audio_downloader.py:254-288 | The appends give the strategy queries 1 to 4 in order, each present only when its word list is long enough. |
| AudioDownloader.FallbackQueriesOf | src/podcast_summarize/audio_downloader.py:254-288 | The list of fallback queries, strategies 1 to 4 in order; its shape and duplicates are stated by the next three lemmas. |
| AudioDownloader.FallbackQueriesShape | src/podcast_summarize/audio_downloader.py:270-288 | The number of queries is the number of strategies that apply, at most 4. Each query is the cleaned show name and a space, followed by the first three (with more than three words) or the first two (with at least two) meaningful words of the title or of the substituted title, joined by spaces. |
| AudioDownloader.UnchangedTitleDuplicates | src/podcast_summarize/audio_downloader.py:263-286 | When nothing is substituted, strategies 1 and 2, and 3 and 4, give the same query twice. |
| AudioDownloader.NoGptDuplicates | src/podcast_summarize/audio_downloader.py:263-286 | A title without "gpt" yields each of its queries twice. |
| AudioDownloader.FirstHitIsFirst | src/podcast_summarize/audio_downloader.py:74-93 | The hit found is the earliest query with entries, and the video is its first entry. With no hit, no query has entries. |
| AudioDownloader.DownloadBySearch | src/podcast_summarize/audio_downloader.py:41-128 | The query loop with its `break`, the no-video error and the confirmation are modelled as one search result. |
| AudioDownloader.SearchResultOf | src/podcast_summarize/audio_downloader.py:43-128 | The video the search settles on, or the "Download failed: " error it raises: no video for any query, or a refused confirmation. |
| AudioDownloader.SearchOrder | src/podcast_summarize/audio_downloader.py:43-96 | "show title" is tried first, and there are 1 to 5 queries. The search reports the number tried exactly when no query hits. A video it returns comes from the earliest query with entries. |
| AudioDownloader.DurationRoundTrip | src/podcast_summarize/audio_downloader.py:117 | A zero duration gives exactly "Unknown". A positive one gives minutes, ':' and two digits, which read back as the duration. |
| AudioDownloader.DurationString | src/podcast_summarize/audio_downloader.py:117 | The duration string, whose round trip is `DurationRoundTrip`. |
| Metadata.ValidSpotifyUrlIff | src/podcast_summarize/metadata.py:26-42 | Valid exactly when the parse succeeds, the host is open.spotify.com or spotify.com, and the path starts with "/episode/" or "/show/". A parse that raises gives False. |
| Metadata.IsValidSpotifyUrl | src/podcast_summarize/metadata.py:26-42 | The metadata validator, characterised by `ValidSpotifyUrlIff`. |
| Metadata.AlnumRun | src/podcast_summarize/metadata.py:57 | The greedy `[a-zA-Z0-9]+` run: all alphanumeric, followed by the end or a non-alphanumeric character. |
| Metadata.ExtractSpotifyIdShape | src/podcast_summarize/metadata.py:44-64 | A success is "episode" or "show" with a non-empty alphanumeric ID spelled right after the base, and the ID run is maximal. A failure is the ValueError quoting the URL. |
| Metadata.ExtractSpotifyId | src/podcast_summarize/metadata.py:44-64 | `extract_spotify_id`, the anchored match of the pattern; its shape and round trip are the lemmas beside it. |
| Metadata.ExtractSpotifyIdRoundTrip | src/podcast_summarize/metadata.py:57-64 | Base, kind, "/", ID and any text not continuing the ID (such as "?si=...") read back as that kind and ID. |
| Metadata.ExampleEpisodeId | tests/test_downloader.py:17-28 | The demo link gives ("episode", "2kH22WJJL6k6HRk6oHxNNI"), and its share query is ignored. |
| Metadata.ShowChecksBeforeFetch | src/podcast_summarize/metadata.py:213-218 | A rejected URL fails the same way whatever the fetch would do. The fetch runs exactly for a valid URL whose ID is a show. |
| Metadata.GetShowMetadata | src/podcast_summarize/metadata.py:200-239 | `get_show_metadata`: the URL checks of `ShowUrlError`, then the fetch and page parsing as a service. |
| Metadata.ShowUrlError | src/podcast_summarize/metadata.py:213-218 | The invalid-URL ValueError, the extraction error, or "URL must be a show, not <kind>". |
| Metadata.EpisodeUrlRefused | src/podcast_summarize/metadata.py:216-218 | A valid episode link is refused with "URL must be a show, not episode". |
| Metadata.SpotifyComHostFailsExtraction | src/podcast_summarize/metadata.py:213-216 | A spotify.com-host show link passes validation but fails ID extraction. |
| Metadata.ExtractMetadataFromHtml | src/podcast_summarize/metadata.py:103-198 | The method returns the record the rules define: the first episode's fields, the record as it stood when an exception ended the scan, or the meta-tag, page-title and description fallbacks. |
| Metadata.MetadataOf | src/podcast_summarize/metadata.py:103-198 | The record `_extract_metadata_from_html` returns: the scan result, or the fallbacks when no script ends the scan. |
| Metadata.FillFromEpisode | src/podcast_summarize/metadata.py:133-154 | The episode branch: the object's fields, then its series and publisher, then its image. A series or publisher of the wrong type ends the scan with the record as it stands. |
| Metadata.ApplyFallbacks | src/podcast_summarize/metadata.py:158-193 | The meta tags, then the page-title rule, then the description rule, in that order. |
| Metadata.DefaultsKept | src/podcast_summarize/metadata.py:113-122 | A page with nothing usable keeps every default: "Unknown" fields, an empty description and no image. |
| Metadata.SkipsUndecodable | src/podcast_summarize/metadata.py:127-156 | Undecodable scripts are skipped. |
| Metadata.FirstStopDecides | src/podcast_summarize/metadata.py:127-156 | The first script that ends the scan decides the outcome alone. |
| Metadata.FirstEpisodeWins | src/podcast_summarize/metadata.py:133-154 | The first episode object fills title, description, duration and release date and returns at once, so no fallback runs. |
| Metadata.NoStopNotFound | src/podcast_summarize/metadata.py:127-158 | With no script that ends the scan, the fallbacks run. |
| Metadata.TitleFallbackRule | src/podcast_summarize/metadata.py:172-181 | The rule applies exactly while the title is "Unknown" and the stripped page title holds " \| ". Title and show then become the first two stripped parts, which hold no " \| ". Otherwise nothing changes. |
| Metadata.DescriptionFallbackRule | src/podcast_summarize/metadata.py:184-193 | The rule applies exactly while the show is "Unknown" and the stripped text before the first " · " is longer than 3 and not "Unknown". The show then becomes that text. Otherwise nothing changes. |
| Metadata.EpisodeValidatesFirst | src/podcast_summarize/metadata.py:79-99 | An invalid URL fails before any fetch. A fetched page always yields a record for that URL. |
| Metadata.GetEpisodeMetadata | src/podcast_summarize/metadata.py:66-101 | `get_episode_metadata`: the invalid-URL ValueError, the "Failed to fetch webpage: " error, or the extracted record. |
| Metadata.MetadataKeepsUrl | src/podcast_summarize/metadata.py:113-114 | The record keeps the URL it was given. |
| Downloader.ValidSpotifyUrlIff | src/podcast_summarize/downloader.py:30-46 | Valid exactly when the host is one of the two Spotify hosts and the path starts with one of the five prefixes. A parse that raises gives False. |
| Downloader.IsValidSpotifyUrl | src/podcast_summarize/downloader.py:30-46 | The downloader validator, characterised by `ValidSpotifyUrlIff`. |
| Downloader.AcceptsMoreThanMetadata | src/podcast_summarize/downloader.py:43 | Every URL the metadata validator accepts is accepted here. A track link shows the converse fails. |
| Downloader.BareEpisodePathRefused | src/podcast_summarize/downloader.py:43-46 | A bare "/episode" path is refused, because the prefix includes the slash. A parse that raises gives False. |
| Downloader.GuardBeforeRun | src/podcast_summarize/downloader.py:62-136 | `download` and `get_episode_info` both raise the invalid-URL ValueError whatever the subprocess would do. |
| Downloader.Download | src/podcast_summarize/downloader.py:48-107 | `download` up to the choice of the newest file: the guard, the `spotdl download` run or its raise, and the no-MP3 check. |
| Downloader.DownloadOutcomes | src/podcast_summarize/downloader.py:81-107 | A raising `subprocess.run` fails with "Download failed: " and the exception's message. A non-zero exit fails quoting stderr, else stdout, else "Unknown error". A zero exit with no MP3 file fails with "No MP3 files found after download". Both are wrapped as "Download failed: ". Otherwise the files found are returned. |
| Downloader.GetEpisodeInfo | src/podcast_summarize/downloader.py:122-192 | `get_episode_info`: the guard, the `spotdl save` run, the JSON-locating rule, the song record, the not-JSON fallback and the catch-all for a raising run. |
| Downloader.EpisodeInfoFallbacks | src/podcast_summarize/downloader.py:142-193 | A raising `subprocess.run` fails with "Failed to get episode info: " and the exception's message. A non-zero exit fails quoting stderr, or "Failed to get episode info" when stderr is empty. A payload that is not JSON gives the "Unknown (parsing failed)" record with the whole stdout as its raw output, and only that record has a raw output. |
| Downloader.JsonPayloadShape | src/podcast_summarize/downloader.py:156-160 | The payload starts at the first '[' of stdout and still starts with '[' after stripping. There is no payload exactly when stdout has no '['. |
| Downloader.JsonPayload | src/podcast_summarize/downloader.py:156-160 | The text handed to `json.loads`: stdout from its first '[', stripped; its shape is `JsonPayloadShape`. |
| Downloader.EpisodeInfoFromFirstSong | src/podcast_summarize/downloader.py:161-175 | An empty song list gives "Empty songs array returned". Otherwise the record comes from the first song, with its artists joined by ", ". |
| Downloader.NoBracketFails | src/podcast_summarize/downloader.py:157-177 | Output with no '[' fails with "No JSON data found in output". |
| Cli.SlugMembers | src/podcast_summarize/cli.py:112 | Every slug character is '_' or a character of the lower-cased title. None is one of the five rewritten characters or a capital letter. |
| Cli.Slug | src/podcast_summarize/cli.py:112 | The slug chain `lower`, then the five `replace` calls in order; its properties are the three lemmas beside it. |
| Cli.SlugShape | src/podcast_summarize/cli.py:112 | The slug holds none of ' ', ':', '?', '!', '/' and no capital letter. |
| Cli.SlugLength | src/podcast_summarize/cli.py:112 | The slug is as long as the title minus its '?' and '!' marks. |
| Cli.FileNamesFollowSlug | src/podcast_summarize/cli.py:113-139 | Two titles share a transcript file exactly when they share a summary file, exactly when their slugs agree. A transcript name is never a summary name. |
| Cli.OutputNames | src/podcast_summarize/cli.py:298-302 | The same rule holds at lines 365-369. Without an output, the default is the stem with "_transcript." (or "_summary.") and the format. A non-empty output wins. The two defaults of one stem never coincide. |
| Cli.OutputName | src/podcast_summarize/cli.py:298-302 | The chosen output name: a non-empty `output`, or the default. |
| Cli.SummarizeTranscriptionRule | src/podcast_summarize/cli.py:120-132 | With "chunks", the result is the chunked summary with chunk type "brief" and the user's final type, or that summary's error. Without "chunks", it is the direct summary of the full text, or its error. |
| Cli.SummarizeTranscription | src/podcast_summarize/cli.py:120-132 | The summarise branch of `process`: chunked with "chunks", direct otherwise. |
| Cli.ProcessSummarizesChunks | src/podcast_summarize/cli.py:101-132 | `process` always gets chunks, so its summary is the chunked one, with one chunk summary per chunk. |
| Cli.ChunkEntriesSnoc | src/podcast_summarize/cli.py:514-515 | Each further chunk summary adds "#### Chunk {i}\n{summary}\n\n", numbered from one. |
| Cli.AppendChunkEntries | src/podcast_summarize/cli.py:512-515 | The enumerate loop appends every chunk entry, in order. |
| Cli.AppendSummarySection | src/podcast_summarize/cli.py:498-523 | The branch on "final_summary" appends the summary section. |
| Cli.CreateCombinedMarkdownSummary | src/podcast_summarize/cli.py:483-534 | The method builds exactly header, summary section and transcript section. |
| Cli.MarkdownOf | src/podcast_summarize/cli.py:483-534 | The combined Markdown as a function of its inputs: header, summary section, transcript section. |
| Cli.ChunkEntriesInOrder | src/podcast_summarize/cli.py:514-515 | The chunk section is the list of entries joined in order. |
| Cli.ChunkHeadings | src/podcast_summarize/cli.py:514-515 | The `k`-th entry starts "#### Chunk " followed by the number `k + 1`, which reads back as `k + 1`. |
| Cli.HeaderStartsWithTitle | src/podcast_summarize/cli.py:488-496 | The header opens with "# " + title + a blank line. |
| Cli.MarkdownFrame | src/podcast_summarize/cli.py:488-534 | The Markdown opens with the title line. It ends with the transcript section exactly when a full transcription is present, and otherwise with the summary section. |
| Cli.SummarySectionFallbacks | src/podcast_summarize/cli.py:499-523 | A summary dictionary without a summary shows "No summary available". A final summary opens "## Summary" with the final summary. |
| Text.Lower | src/podcast_summarize/cli.py:112 | Lower-casing keeps the length. |
| Text.LowerKeepsCount | src/podcast_summarize/cli.py:112 | Lower-casing keeps the count of every non-letter. |
| Text.LowerHasNoCapital | src/podcast_summarize/cli.py:112 | A lower-cased text holds no ASCII capital. |
| Text.ReplaceCharMembers | src/podcast_summarize/cli.py:112 | Every character of `s.replace(c, w)` comes from `s` or `w`, and it is `c` only when `w` holds `c`. |
| Text.ReplaceCharLength | src/podcast_summarize/cli.py:112 | `len(s.replace(c, w)) == len(s) - s.count(c) + s.count(c) * len(w)`. |
| Text.ReplaceCharKeepsCount | src/podcast_summarize/cli.py:112 | Replacing `c` by a text without `d` keeps the count of `d`. |
| Text.StripEmptyIffBlank | src/podcast_summarize/transcriber.py:196 | `s.strip()` is empty exactly when `s` is all whitespace. |
| Text.StripShape | src/podcast_summarize/transcriber.py:112 | `strip()` gives a slice with no whitespace at either end, and only whitespace is removed around it. |
| Text.StripIdempotent | src/podcast_summarize/summarizer.py:98 | Stripping twice is stripping once. |
| Text.LStripChars | src/podcast_summarize/summarizer.py:199 | `lstrip(chars)` removes exactly a leading run of those characters. |
| Text.Split | src/podcast_summarize/summarizer.py:64 | `split()` gives non-empty words without whitespace. |
| Text.WordCountZeroIffBlank | src/podcast_summarize/summarizer.py:107-108 | A text has no words exactly when it is blank. |
| Text.SplitCharParts | src/podcast_summarize/summarizer.py:192 | No piece of `s.split(c)` holds `c`. |
| Text.JoinSplitChar | src/podcast_summarize/summarizer.py:192 | Joining the pieces of `s.split(c)` with `c` gives `s` back. |
| Text.FindFrom | src/podcast_summarize/downloader.py:157 | `find` gives the first index from `from` where the text occurs, or none when it does not occur. |
| Text.SplitOnFirstTwo | src/podcast_summarize/metadata.py:177-181 | The first two pieces of `s.split(sep)` are the text before the first `sep` and the text between the first and second. There are two pieces exactly when `sep in s`. |
| Text.JoinSplitOn | src/podcast_summarize/metadata.py:188 | Joining the pieces of `s.split(sep)` with `sep` gives `s` back. |
| Text.BeforeAfter | src/podcast_summarize/metadata.py:188-190 | The first piece holds no `sep`, and the text is that piece, `sep` and the rest. |
| Text.StripLacks | src/podcast_summarize/metadata.py:180 | Stripping a text without `sep` leaves one without it. |
| Text.NatToString | src/podcast_summarize/cli.py:515 | `str(n)` is decimal digits, with a leading '0' only for 0. |
| Text.NatToStringRoundTrip | src/podcast_summarize/cli.py:515 | The digits of `str(n)` read back as `n`. |
| Text.Pad2TwoDigits | src/podcast_summarize/summarizer.py:382 | `f"{n:02d}"` is two digits denoting `n`, for `n` below 100. |
| Text.MinutesSeconds | src/podcast_summarize/summarizer.py:377-380 | `(t // 60, t % 60)` recombines to `t`, with seconds in 0..59. |
| Text.CollectMembers | src/podcast_summarize/summarizer.py:195-201 | An item is collected exactly when some line contributes it. |
| Text.CollectConcat | src/podcast_summarize/audio_downloader.py:260 | A comprehension over two blocks of lines gives the blocks' items in turn. |
| Urls.SpotifyUrlWithMonotonic | src/podcast_summarize/downloader.py:42-43 | Accepting more prefixes accepts more URLs. |

## Left out

- Whisper's model loading and transcription, the Gemini client, yt-dlp, `spotdl`, HTTP
  fetching, BeautifulSoup and `json.loads` are services. Each is a function-typed parameter
  (`Api`, `Search`, `Runner`, the JSON decoder, the page fetch), or its outcome is a datatype
  value (`Script`, `Page`, `Reply`). The subprocess either finishes with an exit code and
  its output or raises, with `str(e)` as the message (`RunOutcome`).
- `urlparse` is a parameter returning the network location and path, with `None` for an
  exception.
- File and OS effects are left out. This covers `save_transcription`, `_save_as_srt`,
  `save_summary` with `_save_as_markdown` file handling, `mkdir`, path joining, the glob and
  `st_ctime` choice of the newest file, `cleanup` and the ffmpeg check. Only the produced
  names and strings are modelled. The newest-file choice is given as the list of MP3 files found.
- Terminal interaction is left out: click echo, progress bars, the `models`/`setup` listings
  and environment checks. The download confirmation prompt is a boolean parameter.
- The clock is a parameter: the generated timestamp of the combined Markdown is a string
  argument.
- Dictionary interpolation is left out. The combined Markdown writes the final summary and
  each chunk summary dictionary with Python's `str()`. These appear through the rendering
  parameters `showFinal` and `showChunk`.
- Floating point is left out.
  - Times are whole seconds, so `:.0f` formatting is `str` of the integer.
  - `compression_ratio` is kept as an exact rational, with no rounding to two places.
  - The fractional milliseconds of `_seconds_to_srt_time` and the
    `estimate_transcription_time` multipliers are not modelled.
- `str.lower()`, `\w`, `\b` and the case-insensitive match are restricted to ASCII. The
  whitespace set is Python's full `str.isspace()` set.
- Transcriber.CreateTimeChunks: the chunk duration must be positive, while `process` passes
  `--chunk-duration` through unchecked. With 0 and at least one segment the source raises
  ZeroDivisionError at transcriber.py:200. With a negative duration each segment of a time-ordered list
  opens its own chunk, under Python's floor division. Neither case is modelled.
- Summarizer.MinSecRoundTrip: negative times are not covered. Segment times are never
  negative, and `:02d` would print a sign there.
- Cli.SummarizeTranscription: a transcription result with neither "chunks" nor
  "full_transcription" raises KeyError in the source. That input is excluded by a
  precondition, since `process` always passes both keys.
- Downloader.Download: the `subprocess.CalledProcessError` handler is unreachable without
  `check=True`, so it is not modelled.
- AudioDownloader.DownloadBySearch: a first search entry that is an empty dictionary is
  falsy and would raise the no-video error. The model treats every entry as a video. A
  query whose search raises is modelled as a query without entries, as the loop's `continue`
  does.
- AudioDownloader.DownloadBySearch: the yt-dlp download itself and the audio-file glob
  after it are services and file effects, so they are not modelled.
- Metadata.MetadataOf: the JSON-LD `@type`, `name`, `description`, `duration`,
  `datePublished` and the series and publisher names are strings or missing (`Option<string>`
  fields of `LdObject`, `Series` and `Publisher`). A key present with a non-string value, such
  as `"name": null`, which `dict.get` returns instead of the default, is not represented.
- `_extract_show_metadata_from_html` is left out, and so are the exceptions raised inside
  BeautifulSoup's parsing, which `get_episode_metadata` wraps as "Metadata extraction failed". The show fetch is a parameter of `Metadata.GetShowMetadata`.
- The contents of the Markdown written by `save_summary` are left out, apart from the
  segment-heading arithmetic (`Summarizer.MinSecRoundTrip`).
- The test scripts under `tests/` are network-bound demos. Only their example link is used
  (`Metadata.ExampleEpisodeId`).
