/**
 * The transcription side of the pipeline: shaping Whisper's raw output into a
 * transcription record, and grouping its timed segments into fixed-length time
 * chunks for summarisation. The speech recogniser itself is outside the model;
 * its output arrives as a value.
 */
module Transcriber {
  import opened Wrappers
  import opened Text

  // ---------------------------------------------------------------- transcription records

  /** A word with its timing, as kept in a processed segment. Times are whole seconds. */
  datatype Word = Word(word: string, start: int, end: int, probability: real)

  /** A processed segment of recognised speech. */
  datatype Segment = Segment(id: int, start: int, end: int, text: string, words: Option<seq<Word>>)

  /** The processed result of one transcription. */
  datatype Transcription = Transcription(text: string, language: string, segments: seq<Segment>)

  /** Whisper's raw output; each optional key is `None` when the dictionary lacks it. */
  datatype RawWord = RawWord(word: Option<string>, start: Option<int>, end: Option<int>, probability: Option<real>)
  datatype RawSegment = RawSegment(id: Option<int>, start: Option<int>, end: Option<int>,
                                   text: Option<string>, words: Option<seq<RawWord>>)
  datatype RawResult = RawResult(text: string, language: Option<string>, segments: Option<seq<RawSegment>>)

  /** A word entry with the defaults for missing keys. */
  function ProcessWord(w: RawWord): Word {
    Word(w.word.GetOr(""), w.start.GetOr(0), w.end.GetOr(0), w.probability.GetOr(0.0))
  }

  /** `seg` is what processing `raw` must give: defaults id 0 and times 0, stripped
      text, and word timings exactly when they were requested and are present. */
  predicate SegmentProcessed(raw: RawSegment, seg: Segment, includeTimestamps: bool) {
    && seg.id == raw.id.GetOr(0)
    && seg.start == raw.start.GetOr(0)
    && seg.end == raw.end.GetOr(0)
    && seg.text == Strip(raw.text.GetOr(""))
    && (seg.words.Some? <==> includeTimestamps && raw.words.Some?)
    && (seg.words.Some? ==>
          && |seg.words.value| == |raw.words.value|
          && forall k :: 0 <= k < |seg.words.value| ==> seg.words.value[k] == ProcessWord(raw.words.value[k]))
  }

  /** `_process_result`: one output segment per input segment, in order. */
  method ProcessResult(result: RawResult, includeTimestamps: bool) returns (processed: Transcription)
    ensures processed.text == Strip(result.text)
    ensures processed.language == result.language.GetOr("unknown")
    ensures |processed.segments| == |result.segments.GetOr([])|
    ensures forall k :: 0 <= k < |processed.segments| ==>
              SegmentProcessed(result.segments.GetOr([])[k], processed.segments[k], includeTimestamps)
  {
    var raw := result.segments.GetOr([]);
    processed := Transcription(Strip(result.text), result.language.GetOr("unknown"), []);
    for i := 0 to |raw|
      invariant processed.text == Strip(result.text)
      invariant processed.language == result.language.GetOr("unknown")
      invariant |processed.segments| == i
      invariant forall k :: 0 <= k < i ==> SegmentProcessed(raw[k], processed.segments[k], includeTimestamps)
    {
      var segment := raw[i];
      var data := Segment(segment.id.GetOr(0), segment.start.GetOr(0), segment.end.GetOr(0),
                          Strip(segment.text.GetOr("")), None);
      if includeTimestamps && segment.words.Some? {
        var ws := segment.words.value;
        data := data.(words := Some(seq(|ws|, k requires 0 <= k < |ws| => ProcessWord(ws[k]))));
      }
      processed := processed.(segments := processed.segments + [data]);
    }
  }

  /** `get_available_models`. */
  function AvailableModels(): (models: seq<string>)
    ensures |models| == 6 && "base" in models && "turbo" in models
    ensures forall i, j :: 0 <= i < j < |models| ==> models[i] != models[j]
  {
    ["tiny", "base", "small", "medium", "large", "turbo"]
  }

  // ---------------------------------------------------------------- time chunks

  /** A chunk of consecutive segments: its window, its joined text and how many segments it holds. */
  datatype Chunk = Chunk(startTime: int, endTime: int, text: string, segmentCount: nat)

  /** The running chunk the builder starts from. */
  function InitialChunk(d: int): Chunk { Chunk(0, d, "", 0) }

  /** A segment starting at or after the running chunk's current end opens a new chunk. */
  predicate Opens(current: Chunk, s: Segment) { s.start >= current.endTime }

  /** The chunk a segment opens: the window of length `d` containing its start. */
  function OpenedBy(s: Segment, d: int): Chunk
    requires d > 0
  {
    var chunkStart := (s.start / d) * d;
    Chunk(chunkStart, chunkStart + d, s.text, 1)
  }

  /** The running chunk after a segment that does not open a new one is appended. */
  function Widened(c: Chunk, s: Segment): Chunk {
    Chunk(c.startTime, Max(c.endTime, s.end), c.text + " " + s.text, c.segmentCount + 1)
  }

  /** The builder's state after reading some segments: the running chunks it has
      closed, in order, and the one still running. */
  datatype Scan = Scan(closed: seq<Chunk>, current: Chunk)

  function ScanRuns(segments: seq<Segment>, d: int): Scan
    requires d > 0
    decreases |segments|
  {
    if segments == [] then Scan([], InitialChunk(d))
    else
      var st := ScanRuns(segments[..|segments| - 1], d);
      var s := segments[|segments| - 1];
      if Opens(st.current, s) then Scan(st.closed + [st.current], OpenedBy(s, d))
      else Scan(st.closed, Widened(st.current, s))
  }

  /** Every running chunk the builder holds while reading `segments`, in order; the
      last one is the chunk still running at the end. */
  function Runs(segments: seq<Segment>, d: int): seq<Chunk>
    requires d > 0
  {
    ScanRuns(segments, d).closed + [ScanRuns(segments, d).current]
  }

  /** A running chunk is emitted only when its text is not whitespace-only, that is when
      its stripped text is non-empty (`StripEmptyIffBlank`). */
  predicate Kept(c: Chunk) { !IsBlank(c.text) }

  /** The running chunks that are emitted, in order. */
  function KeepNonBlank(cs: seq<Chunk>): seq<Chunk>
    decreases |cs|
  {
    if cs == [] then []
    else KeepNonBlank(cs[..|cs| - 1]) + (if Kept(cs[|cs| - 1]) then [cs[|cs| - 1]] else [])
  }

  /** The chunks `_create_time_chunks` returns. */
  function TimeChunks(segments: seq<Segment>, d: int): seq<Chunk>
    requires d > 0
  {
    KeepNonBlank(Runs(segments, d))
  }

  /** One more segment read: the running chunk is widened, or it is closed and a new
      one is opened. */
  lemma RunsSnoc(pre: seq<Segment>, s: Segment, d: int)
    requires d > 0
    ensures var runs := Runs(pre, d);
      Runs(pre + [s], d)
        == if Opens(runs[|runs| - 1], s) then runs + [OpenedBy(s, d)]
           else runs[..|runs| - 1] + [Widened(runs[|runs| - 1], s)]
  {
    assert (pre + [s])[..|pre|] == pre;
    var st := ScanRuns(pre, d);
    assert (st.closed + [st.current])[..|st.closed|] == st.closed;
  }

  lemma KeepNonBlankLast(cs: seq<Chunk>, c: Chunk)
    ensures KeepNonBlank(cs + [c]) == KeepNonBlank(cs) + (if Kept(c) then [c] else [])
  {
    assert (cs + [c])[..|cs|] == cs;
  }

  /** The emitted chunks are exactly the running chunks that are kept. */
  lemma {:induction false} KeepNonBlankMembers(cs: seq<Chunk>)
    ensures forall c :: c in KeepNonBlank(cs) <==> c in cs && Kept(c)
    decreases |cs|
  {
    if cs != [] {
      var init, last := cs[..|cs| - 1], cs[|cs| - 1];
      KeepNonBlankMembers(init);
      assert cs == init + [last];
    }
  }

  /** `_create_time_chunks`: one pass over the segments with a running chunk that is
      widened or replaced. */
  method CreateTimeChunks(segments: seq<Segment>, chunkDuration: int) returns (chunks: seq<Chunk>)
    requires chunkDuration > 0
    ensures chunks == TimeChunks(segments, chunkDuration)
  {
    chunks := [];
    var current := Chunk(0, chunkDuration, "", 0);
    for i := 0 to |segments|
      invariant current == ScanRuns(segments[..i], chunkDuration).current
      invariant chunks == KeepNonBlank(ScanRuns(segments[..i], chunkDuration).closed)
    {
      assert segments[..i + 1][..i] == segments[..i];
      ghost var closed := ScanRuns(segments[..i], chunkDuration).closed;
      var segment := segments[i];
      if segment.start >= current.endTime {
        StripEmptyIffBlank(current.text);
        KeepNonBlankLast(closed, current);
        if Strip(current.text) != "" {
          chunks := chunks + [current];
        }
        var chunkStart := (segment.start / chunkDuration) * chunkDuration;
        current := Chunk(chunkStart, chunkStart + chunkDuration, segment.text, 1);
      } else {
        current := current.(text := current.text + " " + segment.text,
                            segmentCount := current.segmentCount + 1,
                            endTime := Max(current.endTime, segment.end));
      }
    }
    assert segments[..|segments|] == segments;
    StripEmptyIffBlank(current.text);
    KeepNonBlankLast(ScanRuns(segments, chunkDuration).closed, current);
    if Strip(current.text) != "" {
      chunks := chunks + [current];
    }
  }

  /** `transcribe_with_summary_chunks`: the full transcription, its chunks, the chunk
      duration and the chunk count. */
  datatype ChunkedTranscription = ChunkedTranscription(
    fullTranscription: Transcription, chunks: seq<Chunk>, chunkDuration: int, totalChunks: nat)

  /** `transcribe_with_summary_chunks`, given the result of the transcription pass. */
  method TranscribeWithSummaryChunks(transcription: Transcription, chunkDuration: int)
    returns (r: ChunkedTranscription)
    requires chunkDuration > 0
    ensures r.fullTranscription == transcription
    ensures r.chunks == TimeChunks(transcription.segments, chunkDuration)
    ensures r.totalChunks == |r.chunks| && r.chunkDuration == chunkDuration
  {
    var chunks := CreateTimeChunks(transcription.segments, chunkDuration);
    r := ChunkedTranscription(transcription, chunks, chunkDuration, |chunks|);
  }

  // ---------------------------------------------------------------- properties of the chunks

  /** Start times at least one window apart, in order. */
  predicate Spaced(cs: seq<Chunk>, d: int) {
    forall i, j :: 0 <= i < j < |cs| ==> cs[i].startTime + d <= cs[j].startTime
  }

  lemma MulLe(a: int, b: int, d: int)
    requires a <= b && d >= 0
    ensures a * d <= b * d
    decreases b - a
  {
    if a < b {
      MulLe(a, b - 1, d);
      assert (b - 1) * d + d == b * d;
    }
  }

  /** `q * d` is a multiple of `d` whose quotient is `q`. */
  lemma MulMod(q: int, d: int)
    requires d > 0
    ensures (q * d) % d == 0 && (q * d) / d == q
  {
    var x := q * d;
    var k, r := x / d, x % d;
    assert x == k * d + r && 0 <= r < d;
    if k < q { MulLe(k + 1, q, d); }
    if k > q { MulLe(q + 1, k, d); }
  }

  /** The window after an aligned start `m` ends no later than the window holding any
      time `s` at or past that window's end begins. */
  lemma AlignedNext(m: int, s: int, d: int)
    requires d > 0 && m % d == 0 && m + d <= s
    ensures m + d <= (s / d) * d && ((s / d) * d) % d == 0
  {
    var q, p := s / d, m / d;
    assert s == q * d + s % d && 0 <= s % d < d;
    assert m == p * d;
    if p >= q {
      MulLe(q, p, d);
      assert false;
    }
    MulLe(p + 1, q, d);
    assert (p + 1) * d == p * d + d;
    MulMod(q, d);
  }

  /** Every running chunk starts on a multiple of `d` and spans at least `d`; the first
      starts at 0. */
  lemma {:induction false} RunsAligned(segments: seq<Segment>, d: int)
    requires d > 0
    ensures var runs := Runs(segments, d);
      && runs[0].startTime == 0
      && forall k :: 0 <= k < |runs| ==>
           runs[k].startTime % d == 0 && runs[k].endTime >= runs[k].startTime + d
    decreases |segments|
  {
    if segments != [] {
      var pre, s := segments[..|segments| - 1], segments[|segments| - 1];
      assert segments == pre + [s];
      RunsAligned(pre, d);
      RunsSnoc(pre, s, d);
      var prev := Runs(pre, d);
      var current := prev[|prev| - 1];
      if Opens(current, s) {
        AlignedNext(current.startTime, s.start, d);
      }
    }
  }

  /** Each running chunk starts at least `d` after the one before. */
  lemma {:induction false} RunsSpaced(segments: seq<Segment>, d: int)
    requires d > 0
    ensures Spaced(Runs(segments, d), d)
    decreases |segments|
  {
    if segments != [] {
      var pre, s := segments[..|segments| - 1], segments[|segments| - 1];
      assert segments == pre + [s];
      RunsSpaced(pre, d);
      RunsAligned(pre, d);
      RunsSnoc(pre, s, d);
      var prev := Runs(pre, d);
      var n := |prev|;
      var current := prev[n - 1];
      var runs := Runs(segments, d);
      if Opens(current, s) {
        AlignedNext(current.startTime, s.start, d);
        forall i, j | 0 <= i < j < |runs| ensures runs[i].startTime + d <= runs[j].startTime {
          if j == n && i < n - 1 {
            assert prev[i].startTime + d <= current.startTime;
          }
        }
      } else {
        assert forall k :: 0 <= k < n - 1 ==> runs[k] == prev[k];
        assert runs[n - 1].startTime == current.startTime;
      }
    }
  }

  /** Dropping blank chunks keeps the spacing of the rest. */
  lemma {:induction false} KeepNonBlankSpaced(cs: seq<Chunk>, d: int)
    requires Spaced(cs, d)
    ensures Spaced(KeepNonBlank(cs), d)
    decreases |cs|
  {
    if cs != [] {
      var init, last := cs[..|cs| - 1], cs[|cs| - 1];
      assert cs == init + [last];
      assert Spaced(init, d);
      KeepNonBlankSpaced(init, d);
      KeepNonBlankLast(init, last);
      KeepNonBlankMembers(init);
      var r := KeepNonBlank(cs);
      var r0 := KeepNonBlank(init);
      forall i, j | 0 <= i < j < |r| ensures r[i].startTime + d <= r[j].startTime {
        if j >= |r0| {
          assert r[i] in r0;
          var i' :| 0 <= i' < |init| && init[i'] == r[i];
          assert r[j] == last;
        }
      }
    }
  }

  /** Emitted chunks: never whitespace-only, each on a multiple of `d`, each spanning
      at least `d`, and their start times strictly increasing, one window apart at
      least. No segments give no chunks. */
  lemma TimeChunksWindows(segments: seq<Segment>, d: int)
    requires d > 0
    ensures var chunks := TimeChunks(segments, d);
      && (forall k :: 0 <= k < |chunks| ==> Strip(chunks[k].text) != "")
      && (forall k :: 0 <= k < |chunks| ==> chunks[k].startTime % d == 0)
      && (forall k :: 0 <= k < |chunks| ==> chunks[k].endTime >= chunks[k].startTime + d)
      && Spaced(chunks, d)
    ensures segments == [] ==> TimeChunks(segments, d) == []
  {
    RunsAligned(segments, d);
    RunsSpaced(segments, d);
    var runs := Runs(segments, d);
    KeepNonBlankSpaced(runs, d);
    KeepNonBlankMembers(runs);
    var chunks := TimeChunks(segments, d);
    forall k | 0 <= k < |chunks|
      ensures Strip(chunks[k].text) != ""
      ensures chunks[k].startTime % d == 0 && chunks[k].endTime >= chunks[k].startTime + d
    {
      assert chunks[k] in chunks;
      var j :| 0 <= j < |runs| && runs[j] == chunks[k];
      StripEmptyIffBlank(chunks[k].text);
    }
    if segments == [] {
      KeepNonBlankLast([], InitialChunk(d));
    }
  }

  // ---------------------------------------------------------------- which segments make each chunk

  /** `segments` cut into the consecutive groups that form each running chunk. */
  function Groups(segments: seq<Segment>, d: int): (groups: seq<seq<Segment>>)
    requires d > 0
    ensures |groups| == |Runs(segments, d)|
    decreases |segments|
  {
    if segments == [] then [[]]
    else
      var pre, s := segments[..|segments| - 1], segments[|segments| - 1];
      var prev := Groups(pre, d);
      if Opens(ScanRuns(pre, d).current, s) then prev + [[s]]
      else prev[..|prev| - 1] + [prev[|prev| - 1] + [s]]
  }

  function Flatten(groups: seq<seq<Segment>>): seq<Segment> {
    if groups == [] then [] else Flatten(groups[..|groups| - 1]) + groups[|groups| - 1]
  }

  /** `t` followed by `" " + text` of every segment of `g`, in order. */
  function AppendTexts(t: string, g: seq<Segment>): string {
    if g == [] then t else AppendTexts(t, g[..|g| - 1]) + " " + g[|g| - 1].text
  }

  /** The largest of `e` and the ends of the segments of `g`. */
  function LatestEnd(e: int, g: seq<Segment>): (r: int)
    ensures r >= e && forall k :: 0 <= k < |g| ==> r >= g[k].end
    ensures r == e || exists k :: 0 <= k < |g| && r == g[k].end
  {
    if g == [] then e else Max(LatestEnd(e, g[..|g| - 1]), g[|g| - 1].end)
  }

  /** The chunk a group of segments forms, written out directly. The first group is
      appended to the initial empty chunk; any other group is opened by its first
      segment, and only the segments after that one can widen its end. */
  function ChunkOf(first: bool, g: seq<Segment>, d: int): Chunk
    requires d > 0 && (first || g != [])
  {
    if first then Chunk(0, LatestEnd(d, g), AppendTexts("", g), |g|)
    else
      var chunkStart := (g[0].start / d) * d;
      Chunk(chunkStart, LatestEnd(chunkStart + d, g[1..]), AppendTexts(g[0].text, g[1..]), |g|)
  }

  lemma ChunkOfWidened(first: bool, g: seq<Segment>, s: Segment, d: int)
    requires d > 0 && (first || g != [])
    ensures ChunkOf(first, g + [s], d) == Widened(ChunkOf(first, g, d), s)
  {
    assert (g + [s])[..|g|] == g;
    if !first {
      assert (g + [s])[1..] == g[1..] + [s];
      assert (g[1..] + [s])[..|g| - 1] == g[1..];
    }
  }

  lemma FlattenSnoc(groups: seq<seq<Segment>>, g: seq<Segment>)
    ensures Flatten(groups + [g]) == Flatten(groups) + g
  {
    assert (groups + [g])[..|groups|] == groups;
  }

  /** The groups cover the segments exactly once and in order, and every group but the
      first is non-empty. */
  lemma GroupsCover(segments: seq<Segment>, d: int)
    requires d > 0
    ensures Flatten(Groups(segments, d)) == segments
    ensures forall k :: 1 <= k < |Groups(segments, d)| ==> Groups(segments, d)[k] != []
  {
    GroupsFlatten(segments, d);
    GroupsNonEmpty(segments, d);
  }

  lemma {:induction false} GroupsFlatten(segments: seq<Segment>, d: int)
    requires d > 0
    ensures Flatten(Groups(segments, d)) == segments
    decreases |segments|
  {
    if segments != [] {
      var pre, s := segments[..|segments| - 1], segments[|segments| - 1];
      assert segments == pre + [s];
      GroupsFlatten(pre, d);
      GroupsSnoc(pre, s, d);
      var prev := Groups(pre, d);
      if Opens(ScanRuns(pre, d).current, s) {
        FlattenSnoc(prev, [s]);
      } else {
        var init, last := prev[..|prev| - 1], prev[|prev| - 1];
        assert prev == init + [last];
        FlattenSnoc(init, last);
        FlattenSnoc(init, last + [s]);
      }
    }
  }

  lemma {:induction false} GroupsNonEmpty(segments: seq<Segment>, d: int)
    requires d > 0
    ensures forall k :: 1 <= k < |Groups(segments, d)| ==> Groups(segments, d)[k] != []
    decreases |segments|
  {
    if segments != [] {
      var pre, s := segments[..|segments| - 1], segments[|segments| - 1];
      assert segments == pre + [s];
      GroupsNonEmpty(pre, d);
      GroupsSnoc(pre, s, d);
    }
  }

  /** Reading one more segment adds it to the last group, or starts a group with it. */
  lemma GroupsSnoc(pre: seq<Segment>, s: Segment, d: int)
    requires d > 0
    ensures var prev := Groups(pre, d);
      Groups(pre + [s], d)
        == if Opens(ScanRuns(pre, d).current, s) then prev + [[s]]
           else prev[..|prev| - 1] + [prev[|prev| - 1] + [s]]
  {
    assert (pre + [s])[..|pre|] == pre;
  }

  /** `runs[k]` is the chunk `groups[k]` forms, for every `k`. */
  predicate FormedBy(runs: seq<Chunk>, groups: seq<seq<Segment>>, d: int)
    requires d > 0
  {
    && |runs| == |groups|
    && forall k :: 0 <= k < |runs| ==>
         && (k == 0 || groups[k] != [])
         && runs[k] == ChunkOf(k == 0, groups[k], d)
  }

  /** Closing the running chunk and opening one with `s` keeps each chunk formed by its group. */
  lemma FormedByOpen(runs: seq<Chunk>, groups: seq<seq<Segment>>, s: Segment, d: int)
    requires d > 0 && FormedBy(runs, groups, d) && runs != []
    ensures FormedBy(runs + [OpenedBy(s, d)], groups + [[s]], d)
  {
    var runs', groups' := runs + [OpenedBy(s, d)], groups + [[s]];
    forall k | 0 <= k < |runs'|
      ensures (k == 0 || groups'[k] != []) && runs'[k] == ChunkOf(k == 0, groups'[k], d)
    {
      if k < |runs| {
        assert runs'[k] == runs[k] && groups'[k] == groups[k];
      } else {
        assert groups'[k] == [s];
        assert [s][1..] == [];
      }
    }
  }

  /** Widening the running chunk with `s` keeps each chunk formed by its group. */
  lemma FormedByWiden(runs: seq<Chunk>, groups: seq<seq<Segment>>, s: Segment, d: int)
    requires d > 0 && FormedBy(runs, groups, d) && runs != []
    ensures var n := |runs|;
      FormedBy(runs[..n - 1] + [Widened(runs[n - 1], s)], groups[..n - 1] + [groups[n - 1] + [s]], d)
  {
    var n := |runs|;
    var runs', groups' := runs[..n - 1] + [Widened(runs[n - 1], s)], groups[..n - 1] + [groups[n - 1] + [s]];
    ChunkOfWidened(n - 1 == 0, groups[n - 1], s, d);
    forall k | 0 <= k < |runs'|
      ensures (k == 0 || groups'[k] != []) && runs'[k] == ChunkOf(k == 0, groups'[k], d)
    {
      if k < n - 1 {
        assert runs'[k] == runs[k] && groups'[k] == groups[k];
      }
    }
  }

  /** Each running chunk is the chunk its group of segments forms. */
  lemma {:induction false} GroupsFormRuns(segments: seq<Segment>, d: int)
    requires d > 0
    ensures FormedBy(Runs(segments, d), Groups(segments, d), d)
    decreases |segments|
  {
    if segments == [] {
      assert Groups(segments, d) == [[]];
    } else {
      var pre, s := segments[..|segments| - 1], segments[|segments| - 1];
      assert segments == pre + [s];
      GroupsFormRuns(pre, d);
      RunsSnoc(pre, s, d);
      GroupsSnoc(pre, s, d);
      var runs0 := Runs(pre, d);
      if Opens(runs0[|runs0| - 1], s) {
        FormedByOpen(runs0, Groups(pre, d), s, d);
      } else {
        FormedByWiden(runs0, Groups(pre, d), s, d);
      }
    }
  }

  /** Every emitted chunk is the chunk of one group of consecutive segments: its end is
      at least the end of each segment appended to it, its text joins the group's texts
      in order, and its count is the group's size. */
  lemma TimeChunksFromGroups(segments: seq<Segment>, d: int, c: Chunk)
    requires d > 0 && c in TimeChunks(segments, d)
    ensures exists k :: 0 <= k < |Groups(segments, d)| && (k == 0 || Groups(segments, d)[k] != [])
              && c == ChunkOf(k == 0, Groups(segments, d)[k], d)
  {
    GroupsFormRuns(segments, d);
    var runs := Runs(segments, d);
    KeepNonBlankMembers(runs);
    var k :| 0 <= k < |runs| && runs[k] == c;
  }

  // ---------------------------------------------------------------- segment counts

  function TotalSegments(cs: seq<Chunk>): nat {
    if cs == [] then 0 else TotalSegments(cs[..|cs| - 1]) + cs[|cs| - 1].segmentCount
  }

  lemma TotalSegmentsSnoc(cs: seq<Chunk>, c: Chunk)
    ensures TotalSegments(cs + [c]) == TotalSegments(cs) + c.segmentCount
  {
    assert (cs + [c])[..|cs|] == cs;
  }

  /** The running chunks count every segment once. */
  lemma {:induction false} RunsCountSegments(segments: seq<Segment>, d: int)
    requires d > 0
    ensures TotalSegments(Runs(segments, d)) == |segments|
    decreases |segments|
  {
    if segments != [] {
      var pre, s := segments[..|segments| - 1], segments[|segments| - 1];
      assert segments == pre + [s];
      RunsCountSegments(pre, d);
      RunsSnoc(pre, s, d);
      var prev := Runs(pre, d);
      var n := |prev|;
      if Opens(prev[n - 1], s) {
        TotalSegmentsSnoc(prev, OpenedBy(s, d));
      } else {
        assert prev == prev[..n - 1] + [prev[n - 1]];
        TotalSegmentsSnoc(prev[..n - 1], prev[n - 1]);
        TotalSegmentsSnoc(prev[..n - 1], Widened(prev[n - 1], s));
      }
    }
  }

  /** Dropping blank chunks can only lose segments, and loses none when every dropped
      chunk holds no segment. */
  lemma {:induction false} KeepNonBlankTotal(cs: seq<Chunk>)
    ensures TotalSegments(KeepNonBlank(cs)) <= TotalSegments(cs)
    ensures (forall k :: 0 <= k < |cs| && !Kept(cs[k]) ==> cs[k].segmentCount == 0) ==>
              TotalSegments(KeepNonBlank(cs)) == TotalSegments(cs)
    decreases |cs|
  {
    if cs != [] {
      var init, last := cs[..|cs| - 1], cs[|cs| - 1];
      assert cs == init + [last];
      KeepNonBlankTotal(init);
      KeepNonBlankLast(init, last);
      TotalSegmentsSnoc(init, last);
      var r0 := KeepNonBlank(init);
      if Kept(last) {
        TotalSegmentsSnoc(r0, last);
      } else {
        assert r0 + [] == r0;
      }
    }
  }

  lemma NotBlankAfter(a: string, b: string)
    requires !IsBlank(b)
    ensures !IsBlank(a + b)
  {
    var k :| 0 <= k < |b| && !IsSpace(b[k]);
    assert (a + b)[|a| + k] == b[k];
  }

  /** When no segment text is blank, the only running chunk that is dropped is an
      initial chunk nothing was appended to. */
  lemma {:induction false} RunsWithTextAreKept(segments: seq<Segment>, d: int)
    requires d > 0
    requires forall k :: 0 <= k < |segments| ==> !IsBlank(segments[k].text)
    ensures forall k :: 0 <= k < |Runs(segments, d)| ==>
              Runs(segments, d)[k].segmentCount == 0 || Kept(Runs(segments, d)[k])
    decreases |segments|
  {
    if segments != [] {
      var pre, s := segments[..|segments| - 1], segments[|segments| - 1];
      assert segments == pre + [s];
      RunsWithTextAreKept(pre, d);
      RunsSnoc(pre, s, d);
      var prev := Runs(pre, d);
      var current := prev[|prev| - 1];
      if !Opens(current, s) {
        NotBlankAfter(current.text + " ", s.text);
        assert current.text + " " + s.text == (current.text + " ") + s.text;
      }
    }
  }

  /** The emitted chunks hold at most every segment, and exactly every segment when no
      segment text is blank. */
  lemma SegmentCountSum(segments: seq<Segment>, d: int)
    requires d > 0
    ensures TotalSegments(TimeChunks(segments, d)) <= |segments|
    ensures (forall k :: 0 <= k < |segments| ==> !IsBlank(segments[k].text)) ==>
              TotalSegments(TimeChunks(segments, d)) == |segments|
  {
    RunsCountSegments(segments, d);
    KeepNonBlankTotal(Runs(segments, d));
    if forall k :: 0 <= k < |segments| ==> !IsBlank(segments[k].text) {
      RunsWithTextAreKept(segments, d);
    }
  }

  // ---------------------------------------------------------------- worked examples

  function Seg(start: int, end: int, text: string): Segment { Segment(0, start, end, text, None) }

  /** A chunk whose text has a non-space character at index `k` is kept. */
  lemma KeptAt(c: Chunk, k: nat)
    requires k < |c.text| && !IsSpace(c.text[k])
    ensures Kept(c)
  {
  }

  /** Both segments start inside the first window; the text starts with the space that
      joined the first segment to the initial empty chunk. */
  lemma ExampleSingleWindow()
    ensures TimeChunks([Seg(0, 10, "a"), Seg(20, 30, "b")], 300) == [Chunk(0, 300, " a b", 2)]
  {
    var a, b := Seg(0, 10, "a"), Seg(20, 30, "b");
    RunsSnoc([], a, 300);
    assert [] + [a] == [a] && "" + " " + "a" == " a";
    RunsSnoc([a], b, 300);
    assert [a] + [b] == [a, b] && " a" + " " + "b" == " a b";
    var c := Chunk(0, 300, " a b", 2);
    KeptAt(c, 1);
    KeepNonBlankLast([], c);
  }

  /** A segment past the window's end opens the next window. */
  lemma ExampleRollover()
    ensures TimeChunks([Seg(0, 10, "a"), Seg(305, 310, "b")], 300)
         == [Chunk(0, 300, " a", 1), Chunk(300, 600, "b", 1)]
  {
    var c1, c2 := Chunk(0, 300, " a", 1), Chunk(300, 600, "b", 1);
    RolloverRuns();
    KeptAt(c1, 1);
    KeptAt(c2, 0);
    KeepNonBlankLast([], c1);
    KeepNonBlankLast([c1], c2);
    assert [c1] + [c2] == [c1, c2];
  }

  lemma RolloverRuns()
    ensures Runs([Seg(0, 10, "a"), Seg(305, 310, "b")], 300) == [Chunk(0, 300, " a", 1), Chunk(300, 600, "b", 1)]
  {
    var a, b := Seg(0, 10, "a"), Seg(305, 310, "b");
    RunsSnoc([], a, 300);
    assert [] + [a] == [a];
    assert Runs([a], 300) == [Chunk(0, 300, " a", 1)] by { assert "" + " " + "a" == " a"; }
    RunsSnoc([a], b, 300);
    assert [a] + [b] == [a, b];
  }

  /** A segment straddling the window's end widens it. */
  lemma ExampleWidening()
    ensures TimeChunks([Seg(0, 10, "a"), Seg(290, 320, "b")], 300) == [Chunk(0, 320, " a b", 2)]
  {
    var a, b := Seg(0, 10, "a"), Seg(290, 320, "b");
    RunsSnoc([], a, 300);
    assert [] + [a] == [a] && "" + " " + "a" == " a";
    RunsSnoc([a], b, 300);
    assert [a] + [b] == [a, b] && " a" + " " + "b" == " a b";
    var c := Chunk(0, 320, " a b", 2);
    KeptAt(c, 1);
    KeepNonBlankLast([], c);
  }

  lemma RunsOverlap()
    ensures Runs([Seg(0, 10, "a"), Seg(290, 700, "b"), Seg(700, 710, "c")], 300)
         == [Chunk(0, 700, " a b", 2), Chunk(600, 900, "c", 1)]
  {
    var a, b, c := Seg(0, 10, "a"), Seg(290, 700, "b"), Seg(700, 710, "c");
    RunsSnoc([], a, 300);
    assert [] + [a] == [a] && "" + " " + "a" == " a";
    RunsSnoc([a], b, 300);
    assert [a] + [b] == [a, b] && " a" + " " + "b" == " a b";
    RunsSnoc([a, b], c, 300);
    assert [a, b] + [c] == [a, b, c];
  }

  /** After widening, the next chunk can start before the widened end: its start is
      the window holding the segment, 600, below the previous end 700. */
  lemma ExampleOverlap()
    ensures TimeChunks([Seg(0, 10, "a"), Seg(290, 700, "b"), Seg(700, 710, "c")], 300)
         == [Chunk(0, 700, " a b", 2), Chunk(600, 900, "c", 1)]
  {
    RunsOverlap();
    var c1, c2 := Chunk(0, 700, " a b", 2), Chunk(600, 900, "c", 1);
    assert c1.text[1] == 'a';
    KeptAt(c1, 1);
    KeptAt(c2, 0);
    KeepNonBlankLast([], c1);
    KeepNonBlankLast([c1], c2);
    assert [c1] + [c2] == [c1, c2];
  }

  /** A first segment past the first window drops the empty initial chunk. */
  lemma ExampleLeadingSilence()
    ensures TimeChunks([Seg(650, 660, "x")], 300) == [Chunk(600, 900, "x", 1)]
  {
    var x := Seg(650, 660, "x");
    RunsSnoc([], x, 300);
    assert [] + [x] == [x];
    var c0, c1 := Chunk(0, 300, "", 0), Chunk(600, 900, "x", 1);
    KeptAt(c1, 0);
    KeepNonBlankLast([], c0);
    KeepNonBlankLast([c0], c1);
    assert [c0] + [c1] == [c0, c1];
  }
}
