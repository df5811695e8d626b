# SpotiTube core, modelled in Dafny

SpotiTube is a desktop tool that takes a Spotify playlist URL, finds a YouTube video
for each track, downloads the audio as MP3 and can attach lyrics from Genius as an
`.lrc` sidecar file and as embedded metadata. Almost all of `main.py` is GUI and
remote-service code. This project models the pure logic inside the
`DarkModeSpotifyDownloader` class:

- the file-name sanitiser, `sanitize_filename` (module `Sanitizer`, using `Text`);
- where the MP3 and the `.lrc` sidecar are written (`Artifacts`);
- extraction of the playlist identifier with `playlist/([a-zA-Z0-9]+)` (`PlaylistUrl`);
- flattening of the catalog's pages into `{name, artist, album}` records and the
  construction of download jobs from search results (`Catalog`);
- the LRC text builder of `create_lrc_file`, including the `re.sub(r'.*Lyrics', '', …, 1)`
  step (`Lyrics`);
- the queue reload and the completion counter of `download_all_tracks` and
  `download_worker` (`Downloads`).

Failures use `Results.Option` (soft failures: no search hit, no lyrics) and
`Results.Result` (errors that abort a phase: an invalid URL, a catalog error, a track
with no artist, an empty job list). The Spotify client, the YouTube search, yt-dlp and
the Genius client are inputs: `FetchTracks` takes the catalog as a function from
playlist identifier to a `Catalog.Delivery` (the pages it returned and the exception
that ended the paging, if any), `FetchJobs` takes the search as a function from query to
outcome, and the download phase takes, for each queued job, the outcome of its media
download and the lyrics text that came back (`Downloads.JobEnv`).

Python semantics made explicit:

- `str.strip()` trims the code points for which `str.isspace()` holds (`Text.IsSpace`).
- `s.split('\n')` always yields at least one piece, and `'\n'.join` is its inverse
  (`Text.JoinSplit`, `Text.SplitJoin`).
- `os.path.join` is `posixpath.join` for two components (`Artifacts.PathJoin`). An
  absolute second component replaces the directory. A separator is added unless the
  directory is empty or already ends in one.
- In `.*Lyrics` the dot does not match a newline. The leftmost match therefore starts
  at the start of the first line that holds `Lyrics`. Greedy `.*` makes it end after
  that line's last `Lyrics` (`Lyrics.LyricsMatch`).
- `item['track']['artists'][0]` on a track with an empty artist list raises
  `IndexError`. That aborts the whole fetch, and is modelled as
  `Catalog.FetchError.NoArtist`.

Three behaviours of the code that are easy to misread:

- The sanitiser replaces each reserved character with `_`.
- In the first line holding `Lyrics`, the lyrics post-processing deletes everything
  up to and including that line's last `Lyrics`. The rest of that line stays.
- Every line whose stripped text starts with `[` is dropped.

## Model

| member | source | states |
|---|---|---|
| `Text.Strip` | main.py:256 | The result has no white space at either end. It is the slice of the input that starts after the leading white space. Everything after it is white space. An already trimmed input is returned unchanged. |
| `Text.JoinSplit` | main.py:393-394 | Joining the pieces of a split on a character with that character gives back the original text. |
| `Text.SplitJoin` | main.py:393-394 | Splitting the join of one or more separator-free pieces gives back exactly those pieces. |
| `Text.SplitLength` | main.py:393 | A split yields one more piece than the text has separators. |
| `Sanitizer.ReplaceReserved` | main.py:255 | The substitution is one-for-one. Each reserved character (backslash, slash, star, question mark, colon, double quote, both angle brackets, vertical bar) becomes `_`, every other character is kept, and no reserved character remains. |
| `Sanitizer.Sanitize` | main.py:254-256 | The sanitised name contains none of the nine reserved characters. It has no white space at either end and is never longer than the input. A clean name comes back unchanged. |
| `Sanitizer.SanitizeIdempotent` | main.py:254-256 | Sanitising an already sanitised name changes nothing. |
| `Sanitizer.SanitizeFixedPoints` | main.py:254-256 | A name is left unchanged exactly when it has no reserved character and no white space at either end. |
| `Sanitizer.SanitizeCharacterization` | main.py:255-256 | The sanitised name equals the input with its leading and trailing white space cut off and each remaining character mapped through the substitution: substituting and trimming commute. |
| `Artifacts.BaseName` | main.py:352 | The shared base name `artist - title` contains no `/` and no `\`. |
| `Artifacts.PathJoinRelative` | main.py:352 | Joining a name that does not start with the separator is plain concatenation after the directory prefix. |
| `Artifacts.AudioPath` | main.py:352-353 | The MP3 path is the directory prefix, then the base name, then `.mp3`. |
| `Artifacts.LyricsPath` | main.py:389 | The `.lrc` path is the directory prefix, then the same base name, then `.lrc`. |
| `Artifacts.SidecarSharesBase` | main.py:352-353 | The MP3 and the sidecar have equal length and the same stem. They differ only in the four-character extension. The file name after the directory holds no separator. |
| `Artifacts.AudioPathCollision` | main.py:352 | Two tracks' MP3 paths in one directory coincide exactly when their sanitised base names do. |
| `PlaylistUrl.AlnumRun` | main.py:300 | The greedy `+` consumes a run of ASCII letters and digits that is not followed by another one. |
| `PlaylistUrl.FirstMatch` | main.py:300 | The search finds the leftmost position where `playlist/` is followed by a letter or digit, or reports that there is none. |
| `PlaylistUrl.ExtractPlaylistId` | main.py:300-303 | On success the ID is non-empty and all ASCII alphanumeric. `playlist/` plus the ID occurs at the leftmost matching place, and the ID is not followed by another letter or digit. The URL is rejected with "Invalid Spotify Playlist URL" exactly when no `playlist/` is followed by a letter or digit. |
| `PlaylistUrl.RunIsMaximal` | main.py:300 | A letter-and-digit run at a position that ends before a non-alphanumeric character is the greedy run. |
| `PlaylistUrl.ExtractReturnsLeftmostCapture` | main.py:300-303 | Conversely, whatever the pattern captures at its leftmost match is the ID returned. |
| `PlaylistUrl.SkipsBareMarker` | main.py:300 | An example of the leftmost-match rule: in `playlist/?playlist/x1` the first `playlist/` is not followed by a letter or digit and is skipped, so the ID is `x1`. |
| `Catalog.Present` | main.py:307 | The non-null tracks are never more than the items. |
| `Catalog.DescribePage` | main.py:307 | For one page, the list comprehension succeeds exactly when every non-null track lists an artist. It then yields one record per non-null track, in order, with the first listed artist. |
| `Catalog.FlattenPages` | main.py:306-308 | Over all pages, the result is the in-order concatenation of the records of every page's non-null items. It is never longer than the total item count. Each record's artist is the track's first listed artist. A track with no artist aborts the fetch. |
| `Catalog.FlattenDependsOnlyOnPresent` | main.py:306-308 | Page boundaries and null items do not matter: only the sequence of non-null tracks determines the result. |
| `Catalog.FlattenAsOnePage` | main.py:306-308 | Flattening many pages equals flattening one page that holds all their items. |
| `Catalog.FetchTracks` | main.py:299-309 | An invalid URL fails with the invalid-URL error, and only then. For a valid URL: the fetch fails with `NoArtist` exactly when a non-null track of the delivered pages has no artist, even if the paging failed later. It succeeds exactly when every such track has an artist and the paging did not fail, and the tracks then describe the non-null items in order. With well-formed pages a paging failure surfaces as `Upstream` with its message. |
| `Catalog.SearchQuery` | main.py:311 | The query is the track name, a space, the artist and ` audio`: its length is the sum of theirs, and each part sits at its place. |
| `Catalog.FindLink` | main.py:310-319 | A job exists exactly when the search returned at least one result. The job keeps the track's title, artist and album, and its URL is `https://youtube.com` followed by the first result's suffix. A raising search yields no job. |
| `Catalog.ResolveJobs` | main.py:277-280 | The fetch loop never yields more jobs than tracks. |
| `Catalog.FoundIndices` | main.py:277-280 | It lists exactly the positions of the tracks the search finds, strictly increasing. |
| `Catalog.ResolveJobsByIndex` | main.py:277-280 | The k-th job is the job of the k-th found track. There is one job per found track, in playlist order. |
| `Catalog.UnmatchedTrackDropped` | main.py:313-319 | A track whose search raises or returns nothing yields no job. |
| `Catalog.FetchJobs` | main.py:270-280 | The fetch phase fails exactly when fetching the tracks fails, with the same error. Otherwise its jobs are, one for one and in playlist order, the jobs of the tracks the search finds. |
| `Lyrics.FirstLyrics` | main.py:392 | It finds the leftmost occurrence of `Lyrics` at or after a position, or reports that there is none. |
| `Lyrics.LineStart` | main.py:392 | It finds the start of the line holding a position: no newline lies between the two. |
| `Lyrics.LineEnd` | main.py:392 | It finds the end of the line holding a position: the next newline or the end of the text. |
| `Lyrics.LastLyrics` | main.py:392 | It finds the rightmost occurrence of `Lyrics` in a range. |
| `Lyrics.LyricsMatch` | main.py:392 | There is a match of `.*Lyrics` exactly when `Lyrics` occurs. The match contains no newline. It starts at the start of the first line holding `Lyrics`, and no match starts earlier. It is the longest match from that start, ending after that line's last `Lyrics`. |
| `Lyrics.SpanFrom` | main.py:392 | Given the first `Lyrics`, the span runs from the start of its line to the end of that line's last `Lyrics`, holds no newline, and no `.*Lyrics` match starts earlier or ends later from the same start. |
| `Lyrics.DropAttribution` | main.py:392 | Without `Lyrics` the text is unchanged. With it, exactly the match's length is removed. The number of newlines, and hence of lines, is preserved. |
| `Lyrics.DropAttributionLines` | main.py:392 | Line by line, only the first line holding `Lyrics` changes: it loses the matched span from its front. Every other line is identical. |
| `Lyrics.DeleteLineStartRun` | main.py:392-393 | Deleting a newline-free span that starts a line changes that one line and keeps the line count. |
| `Lyrics.DropAttributionFirstLineOnly` | main.py:392 | A text whose first line reads just `Lyrics` loses that line's text and keeps everything from its newline on, so a later line's `Lyrics` survives. |
| `Lyrics.StripAll` | main.py:393 | Each line is mapped to its stripped form, position by position. |
| `Lyrics.CleanLines` | main.py:393 | Every kept line is stripped, non-empty and does not start with `[`. No line is added, and newline-free lines stay newline-free. |
| `Lyrics.CleanLinesIsOrderedFilter` | main.py:393 | The kept lines form a subsequence of the stripped lines, in original relative order. Every stripped line that passes the test is among them. |
| `Lyrics.KeptIndicesFrom` | main.py:393 | It lists the positions of exactly the lines that pass the test, strictly increasing. |
| `Lyrics.CleanLinesByIndex` | main.py:393 | The k-th kept line is the stripped line at the k-th passing position, and there are as many kept lines as passing positions. A repeated line is kept as often as it passes. |
| `Lyrics.LrcContent` | main.py:391-394 | The content starts with `[ar:artist]\n[ti:title]\n`. |
| `Lyrics.BodyReadsBack` | main.py:393-394 | After the header, splitting the body at newlines gives exactly the kept lines. Each is stripped, non-empty, not a `[` line and newline-free. With no kept lines the body is empty. |
| `Lyrics.LrcFile` | main.py:387-394 | Empty lyrics produce no file. Otherwise the sidecar is written at the `.lrc` path sharing the track's base name, with the LRC content. |
| `Downloads.StartDownloads` | main.py:320-330 | An empty job list is refused with "Fetch tracks first!". Otherwise the old queue contents are discarded, and the queue holds exactly the links. The counter restarts at 0, and queued plus completed equals the total. |
| `Downloads.ProcessJob` | main.py:350-375 | A job succeeds exactly when its download does, and its MP3 is then at the audio path. The lyrics mux is attempted exactly when the job succeeded, lyrics are wanted, a client exists and the text is non-empty. A sidecar is written exactly when, in addition, LRC output is wanted; it sits at the `.lrc` path and holds the LRC content built from the job's artist, title and lyrics text. |
| `Downloads.SidecarNextToAudio` | main.py:352-371 | A successful job with lyrics text, a lyrics client and both lyrics switches on writes a sidecar, and that sidecar shares its audio file's path up to the extension. |
| `Downloads.Drain` | main.py:344-380 | Draining a queue of M jobs leaves it empty and adds exactly M to the counter, whatever the jobs' outcomes. Each report depends only on its own job. The per-worker job counts match an arbitrary assignment of jobs to workers and sum to M. |
| `Downloads.DownloadAll` | main.py:320-380 | After loading M links (M > 0) and draining, the queue is empty and the counter and the total both equal M. An empty list is refused with no reports. |

## Left out

- GUI: window and widget construction, dialogs, progress bar and label updates,
  the one-second `monitor_download` poll and the `root.after` hand-off to the UI
  thread. These are presentation only. Directory selection is not: see the next line.
- `Downloads.ProcessJob`, `Downloads.SidecarNextToAudio` and `Downloads.Drain` assume
  the settings do not change during a download. The model reads one `Settings` value
  for the whole drain, and each job reads its directory once. The source reads them
  live. During a download only the Fetch and Download buttons are disabled
  (main.py:335-336), so the user can still pick a new directory, which
  `select_directory` stores at main.py:251. A worker reads the directory for the MP3
  at main.py:352 and again for the `.lrc` at main.py:389, after the download and the
  lyrics lookup. It reads the lyrics switches and the client at main.py:368 and
  main.py:371. If the directory changes while a track downloads, that track's MP3
  goes to the old directory and its `.lrc` to the new one. The shared-path promise
  holds only when no setting changes mid-download.
- The percentage labels (main.py:283-284, main.py:400-401) use float division and then
  `int()`. They only feed the display.
- The Spotify, YouTube search, yt-dlp and Genius clients are black boxes. Their results
  are inputs (`catalog`, `search`, `Downloads.JobEnv`). The continuation-cursor loop of
  the catalog is represented by the sequence of pages it yields and the exception that
  ended it, if any.
- `Catalog.FetchTracks`: `KeyError` or `TypeError` from malformed catalog JSON is not
  modelled, because the pages are typed records. Only a track with an empty artist
  list, or an exception from the catalog client, fails.
- `embed_lyrics_in_mp3`, the ffmpeg invocation and `get_ffmpeg_path` are external-process
  I/O. The model records only that the mux was attempted (`Report.muxAttempted`), not
  that it succeeded. On Windows it never does: `subprocess` is used at main.py:239,
  but the `import subprocess` at main.py:241 makes it a local name of the function, so
  that use raises `UnboundLocalError`, which main.py:245 swallows. Any failure of the
  mux is swallowed in the same way, but it does leave files behind. The lyrics text
  file `<mp3 path>.lyrics.txt` is written at main.py:230-231, before the step that
  can fail. The `os.remove` at main.py:244 is then skipped, so every failed mux
  leaves that file in the download directory. On Windows this happens for every job
  with lyrics. A failed ffmpeg run can also leave `<mp3 path>.temp.mp3`
  (main.py:232). These leftover files are not part of `Report`.
- Configuration loading and saving, and every file write, are filesystem I/O. The
  model computes the paths and the LRC content that would be written.
- Real threads and the lock: the drain is sequential, with an arbitrary job-to-worker
  assignment. The `except Queue.Empty` clause (main.py:348) names an attribute the
  `Queue` class does not have. It can only be reached when another worker empties the
  queue between the `empty()` check and `get_nowait()`, a race a sequential drain
  cannot exhibit.
- `Artifacts.PathJoin` follows POSIX `os.path.join`. On Windows, drive letters and
  `\` are handled by `ntpath`, which is not modelled. The sanitised base name can
  contain neither `:` nor `\`, so on Windows too it never escapes the directory.
