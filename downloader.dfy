/**
 * `PodcastDownloader`: its Spotify URL validator, the URL guard in front of both `spotdl`
 * commands, and how `get_episode_info` finds and reads the JSON in `spotdl save`'s output.
 * The subprocess and `json.loads` are services given as parameters.
 */
module Downloader {
  import opened Wrappers
  import opened Text
  import opened Urls
  import Metadata

  // ---------------------------------------------------------------- URL validation

  const DownloadPrefixes: seq<string> := ["/episode/", "/show/", "/track/", "/playlist/", "/album/"]

  /** `is_valid_spotify_url` of the downloader. */
  predicate IsValidSpotifyUrl(url: string, parse: UrlParser) { SpotifyUrlWith(url, parse, DownloadPrefixes) }

  /** Valid exactly when the parse succeeds, the host is a Spotify host and the path starts
      with one of the five prefixes, each including its trailing slash. */
  lemma ValidSpotifyUrlIff(url: string, parse: UrlParser)
    ensures IsValidSpotifyUrl(url, parse) <==>
      && parse(url).Some?
      && (parse(url).value.netloc == "open.spotify.com" || parse(url).value.netloc == "spotify.com")
      && var path := parse(url).value.path;
         (|| StartsWith(path, "/episode/") || StartsWith(path, "/show/") || StartsWith(path, "/track/")
          || StartsWith(path, "/playlist/") || StartsWith(path, "/album/"))
  {
    if parse(url).Some? {
      var path := parse(url).value.path;
      if StartsWith(path, "/episode/") { assert StartsWith(path, DownloadPrefixes[0]); }
      if StartsWith(path, "/show/") { assert StartsWith(path, DownloadPrefixes[1]); }
      if StartsWith(path, "/track/") { assert StartsWith(path, DownloadPrefixes[2]); }
      if StartsWith(path, "/playlist/") { assert StartsWith(path, DownloadPrefixes[3]); }
      if StartsWith(path, "/album/") { assert StartsWith(path, DownloadPrefixes[4]); }
    }
  }

  /** Every URL the metadata extractor accepts, the downloader accepts; a track link shows
      that the converse fails. */
  lemma AcceptsMoreThanMetadata(url: string, parse: UrlParser)
    ensures Metadata.IsValidSpotifyUrl(url, parse) ==> IsValidSpotifyUrl(url, parse)
    ensures parse(url) == Some(ParsedUrl("open.spotify.com", "/track/1")) ==>
      IsValidSpotifyUrl(url, parse) && !Metadata.IsValidSpotifyUrl(url, parse)
  {
    if Metadata.IsValidSpotifyUrl(url, parse) {
      assert Metadata.EpisodeOrShow[0] == DownloadPrefixes[0];
      assert Metadata.EpisodeOrShow[1] == DownloadPrefixes[1];
      SpotifyUrlWithMonotonic(url, parse, Metadata.EpisodeOrShow, DownloadPrefixes);
    }
    if parse(url) == Some(ParsedUrl("open.spotify.com", "/track/1")) {
      ValidSpotifyUrlIff(url, parse);
      Metadata.ValidSpotifyUrlIff(url, parse);
      assert "/track/1"[1] == 't';
    }
  }

  /** The prefix includes the slash: a bare "/episode" path is refused, and a parse that
      raises gives False. */
  lemma BareEpisodePathRefused(url: string, parse: UrlParser)
    ensures parse(url) == Some(ParsedUrl("open.spotify.com", "/episode")) ==> !IsValidSpotifyUrl(url, parse)
    ensures parse(url).None? ==> !IsValidSpotifyUrl(url, parse)
  {
    if parse(url) == Some(ParsedUrl("open.spotify.com", "/episode")) {
      ValidSpotifyUrlIff(url, parse);
      assert |"/episode"| == 8;
      assert "/episode"[1] == 'e';
    }
  }

  // ---------------------------------------------------------------- running spotdl

  /** What `subprocess.run(cmd, capture_output=True, text=True)` does: it returns the
      finished process, or it raises (an `OSError` when `spotdl` is not on the path), and
      `str(e)` of that exception is `message`. */
  datatype RunOutcome = Completed(returncode: int, stdout: string, stderr: string) | Raised(message: string)

  /** The subprocess, called with the command's argument list. */
  type Runner = seq<string> -> RunOutcome

  /** `a or b` on strings: the first if it is non-empty. */
  function Or(a: string, b: string): string { if a != "" then a else b }

  function DownloadCommand(url: string, outputDir: string): seq<string> {
    ["spotdl", "download", url, "--output", outputDir, "--format", "mp3", "--bitrate", "320k"]
  }

  /** `download` up to the glob: the MP3 files found in the output directory afterwards are
      given as `mp3Files` (the newest of them is what the method returns). */
  function Download(url: string, outputDir: string, parse: UrlParser, run: Runner,
                    mp3Files: seq<string>): Result<seq<string>>
  {
    if !IsValidSpotifyUrl(url, parse) then Failure(ValueError("Invalid Spotify URL: " + url))
    else
      var result := run(DownloadCommand(url, outputDir));
      if result.Raised? then Failure(RuntimeError("Download failed: " + result.message))
      else if result.returncode != 0 then
        Failure(RuntimeError("Download failed: spotdl download failed: "
                             + Or(result.stderr, Or(result.stdout, "Unknown error"))))
      else if mp3Files == [] then Failure(RuntimeError("Download failed: No MP3 files found after download"))
      else Success(mp3Files)
  }

  function SaveCommand(url: string): seq<string> { ["spotdl", "save", url, "--save-file", "-"] }

  /** One song of the `spotdl save` JSON array; a missing key is `None`. */
  datatype Song = Song(name: Option<string>, artists: Option<seq<string>>, albumName: Option<string>,
                       duration: Option<int>, date: Option<string>)

  /** What `json.loads` gives for the payload: a list of songs, or a JSONDecodeError. */
  datatype SongsJson = Songs(songs: seq<Song>) | NotJson

  /** The dictionary `get_episode_info` returns; `rawOutput` is present only in the
      fallback for output that is not JSON. */
  datatype EpisodeInfo = EpisodeInfo(title: string, artist: string, album: string, duration: int,
                                     url: string, releaseDate: string, rawOutput: Option<string>)

  /** The text handed to `json.loads`: stdout from its first '[', stripped. */
  function JsonPayload(stdout: string): Option<string> {
    match Find(stdout, "[")
    case None => None
    case Some(start) => Some(Strip(stdout[start..]))
  }

  function InfoOf(song: Song, url: string): EpisodeInfo {
    EpisodeInfo(song.name.GetOr("Unknown"), Join(", ", song.artists.GetOr(["Unknown"])),
                song.albumName.GetOr("Unknown"), song.duration.GetOr(0), url,
                song.date.GetOr("Unknown"), None)
  }

  const InfoFailed := "Failed to get episode info: "

  /** `get_episode_info`. */
  function GetEpisodeInfo(url: string, parse: UrlParser, run: Runner, decode: string -> SongsJson): Result<EpisodeInfo> {
    if !IsValidSpotifyUrl(url, parse) then Failure(ValueError("Invalid Spotify URL: " + url))
    else
      var result := run(SaveCommand(url));
      if result.Raised? then Failure(RuntimeError(InfoFailed + result.message))
      else if result.returncode != 0 then
        Failure(RuntimeError(InfoFailed + "spotdl info failed: " + Or(result.stderr, "Failed to get episode info")))
      else
        match JsonPayload(result.stdout)
        case None => Failure(RuntimeError(InfoFailed + "No JSON data found in output"))
        case Some(payload) =>
          match decode(payload)
          case NotJson =>
            Success(EpisodeInfo("Unknown (parsing failed)", "Unknown", "Unknown", 0, url, "Unknown", Some(result.stdout)))
          case Songs(songs) =>
            if songs == [] then Failure(RuntimeError(InfoFailed + "Empty songs array returned"))
            else Success(InfoOf(songs[0], url))
  }

  /** Both commands refuse an invalid URL with a ValueError before anything runs. */
  lemma GuardBeforeRun(url: string, parse: UrlParser, outputDir: string, run1: Runner, run2: Runner,
                       files1: seq<string>, files2: seq<string>, decode1: string -> SongsJson, decode2: string -> SongsJson)
    requires !IsValidSpotifyUrl(url, parse)
    ensures Download(url, outputDir, parse, run1, files1) == Download(url, outputDir, parse, run2, files2)
      == Failure(ValueError("Invalid Spotify URL: " + url))
    ensures GetEpisodeInfo(url, parse, run1, decode1) == GetEpisodeInfo(url, parse, run2, decode2)
      == Failure(ValueError("Invalid Spotify URL: " + url))
  {
  }

  /** After the guard, `download` fails exactly when running `spotdl` raises, when it
      returns non-zero or when it leaves no MP3 file. A raise is quoted as it is; a non-zero
      exit quotes stderr, or stdout when stderr is empty, or "Unknown error" when both are;
      every failure is wrapped as "Download failed: ". */
  lemma DownloadOutcomes(url: string, outputDir: string, parse: UrlParser, run: Runner, mp3Files: seq<string>)
    requires IsValidSpotifyUrl(url, parse)
    ensures var result := run(DownloadCommand(url, outputDir));
      var r := Download(url, outputDir, parse, run, mp3Files);
      var failed := "Download failed: spotdl download failed: ";
      && (result.Raised? ==> r == Failure(RuntimeError("Download failed: " + result.message)))
      && (result.Completed? && result.returncode != 0 && result.stderr != "" ==>
            r == Failure(RuntimeError(failed + result.stderr)))
      && (result.Completed? && result.returncode != 0 && result.stderr == "" && result.stdout != "" ==>
            r == Failure(RuntimeError(failed + result.stdout)))
      && (result.Completed? && result.returncode != 0 && result.stderr == "" && result.stdout == "" ==>
            r == Failure(RuntimeError(failed + "Unknown error")))
      && (result.Completed? && result.returncode == 0 && mp3Files == [] ==>
            r == Failure(RuntimeError("Download failed: No MP3 files found after download")))
      && (r.Success? <==> result.Completed? && result.returncode == 0 && mp3Files != [])
      && (r.Success? ==> r.value == mp3Files)
  {
  }

  /** A raising run is quoted after "Failed to get episode info: ". A failing `spotdl save`
      quotes stderr, or "Failed to get episode info" when stderr is empty. A payload that is not JSON gives the fallback record, which keeps the whole
      stdout as the raw output. */
  lemma EpisodeInfoFallbacks(url: string, parse: UrlParser, run: Runner, decode: string -> SongsJson)
    requires IsValidSpotifyUrl(url, parse)
    ensures var result := run(SaveCommand(url));
      var r := GetEpisodeInfo(url, parse, run, decode);
      && (result.Raised? ==> r == Failure(RuntimeError(InfoFailed + result.message)))
      && (result.Completed? && result.returncode != 0 && result.stderr != "" ==>
            r == Failure(RuntimeError(InfoFailed + "spotdl info failed: " + result.stderr)))
      && (result.Completed? && result.returncode != 0 && result.stderr == "" ==>
            r == Failure(RuntimeError(InfoFailed + "spotdl info failed: " + "Failed to get episode info")))
      && (result.Completed? && result.returncode == 0 && JsonPayload(result.stdout).Some? && decode(JsonPayload(result.stdout).value).NotJson? ==>
            && r.Success? && r.value.title == "Unknown (parsing failed)" && r.value.artist == "Unknown"
            && r.value.album == "Unknown" && r.value.duration == 0 && r.value.url == url
            && r.value.releaseDate == "Unknown" && r.value.rawOutput == Some(result.stdout))
      && (r.Success? && r.value.rawOutput.Some? ==> r.value.title == "Unknown (parsing failed)")
  {
  }

  /** The payload begins at the first '[' of stdout (no '[' comes before it) and still
      begins with '[' after stripping; with no '[' there is no payload. */
  lemma JsonPayloadShape(stdout: string)
    ensures JsonPayload(stdout).None? <==> '[' !in stdout
    ensures JsonPayload(stdout).Some? ==>
      var start := Find(stdout, "[").value;
      && JsonPayload(stdout).value != []
      && JsonPayload(stdout).value[0] == '['
      && stdout[start] == '['
      && '[' !in stdout[..start]
  {
    match Find(stdout, "[")
    case None =>
      if '[' in stdout {
        var k :| 0 <= k < |stdout| && stdout[k] == '[';
        assert OccursAt(stdout, "[", k);
      }
    case Some(start) =>
      assert OccursAt(stdout, "[", start);
      assert stdout[start..start + 1] == "[";
      forall k | 0 <= k < start ensures stdout[k] != '[' {
        assert !OccursAt(stdout, "[", k);
      }
      var t := stdout[start..];
      StripStartsAtNonSpace(t);
  }

  /** Stripping a text that starts with a non-space character keeps that character first. */
  lemma StripStartsAtNonSpace(t: string)
    requires t != [] && !IsSpace(t[0])
    ensures Strip(t) != [] && Strip(t)[0] == t[0]
  {
    LStripShape(t);
    RStripShape(LStrip(t));
  }

  /** A successful read takes the first song; the artists are its artist names joined with
      ", ", defaulting to "Unknown". */
  lemma EpisodeInfoFromFirstSong(url: string, parse: UrlParser, run: Runner, decode: string -> SongsJson)
    requires IsValidSpotifyUrl(url, parse)
    requires run(SaveCommand(url)).Completed? && run(SaveCommand(url)).returncode == 0
    requires JsonPayload(run(SaveCommand(url)).stdout).Some?
    requires decode(JsonPayload(run(SaveCommand(url)).stdout).value).Songs?
    ensures var songs := decode(JsonPayload(run(SaveCommand(url)).stdout).value).songs;
      var r := GetEpisodeInfo(url, parse, run, decode);
      && (songs == [] <==> r == Failure(RuntimeError(InfoFailed + "Empty songs array returned")))
      && (songs != [] ==>
            && r.Success? && r.value.url == url && r.value.rawOutput.None?
            && r.value.artist == Join(", ", songs[0].artists.GetOr(["Unknown"]))
            && r.value.title == songs[0].name.GetOr("Unknown"))
  {
  }

  /** Output with no '[' fails with "No JSON data found in output". */
  lemma NoBracketFails(url: string, parse: UrlParser, run: Runner, decode: string -> SongsJson)
    requires IsValidSpotifyUrl(url, parse)
    requires run(SaveCommand(url)).Completed? && run(SaveCommand(url)).returncode == 0
    requires '[' !in run(SaveCommand(url)).stdout
    ensures GetEpisodeInfo(url, parse, run, decode) == Failure(RuntimeError(InfoFailed + "No JSON data found in output"))
  {
    JsonPayloadShape(run(SaveCommand(url)).stdout);
  }
}
