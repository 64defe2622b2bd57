# youtube-to-audio: download workflow model

This project models the download core of youtube-to-audio, `app/services/youtube.py`.
A caller hands it a media reference (a video URL or free search text) and a ticket key.
The core:

- normalises the reference: a URL with a playlist parameter is cut back to one video;
- lets the extraction engine download it, with a progress callback that records the
  finished file's path, name and size;
- on a `DownloadError`, searches for the normalised reference (the URL as
  `parse_url_str` returned it, not the caller's original text) and starts over on the
  match;
- stores the `{path, name}` ticket under the key;
- schedules the file's deletion after `FILE_EXPIRE_SECONDS` (300) seconds.

There are two variants:

- `YoutubeDownload` uses the blocking `youtube_dl` engine and the blocking search. It
  retries on the match's `webpage_url`.
- `YoutubeDownloadP` uses `yt_dlp` and the suspending search. It retries on the `link`
  of the first entry of the result page.

The modules are:

- `Strings`: Python's substring test, `str.split` on one character, and `str.join`.
- `UrlNormalizer`: `parse_url_str`.
- `Paths`: `pathlib.Path(p).name` on POSIX paths.
- `DownloadSpec`: the specification functions.
  - The progress hook folded over the engine's status events (`ApplyHook`, `ApplyEvents`).
  - The recursion of `download_video` as a `Run`. A `Run` holds the calls issued, the
    record left behind and how the call ended. A `retries` budget bounds the recursion.
  - The action trace of `convert_video` (`Workflow`).
- `YoutubeService`: the classes.
  - `FileDownload`'s fields are updated in place.
  - `YoutubeDownload`'s methods change those fields and call the external collaborators.
  - `YoutubeDownloadP` overrides only `search_video` and `download_video`.
    `DownloadVideoP` models its `download_video`. `ConvertVideoPAsWritten` models the
    `convert_video` it inherits. `ConvertVideoP` is the corrected workflow of
    "## Findings", which awaits the download; the repository has no such method.
  - The extraction engine, the two search providers, the ticket store and the expiration
    timer sit behind `Environment`. It answers from fixed oracles and appends every call
    to `log`.
  - Each method's `ensures` ties `log` and the new `FileDownload` state to the
    specification functions.

Three behaviours of the code are easy to misread. The model follows the code in each:

- A reference is not cut just before the playlist marker. Whenever `&list=` occurs
  anywhere, it is cut at its FIRST `&` (`EarlierParameterCut`).
- A ticket and an expiration are written even when the search finds nothing, so a fresh
  instance stores empty strings (`GiveUpStillWritesEmptyTicket`).
- The retry is not a single step: `download_video` recurses on every failed extraction
  that has a match. The model bounds this with `retries`.

## Model

| member | source | states |
|---|---|---|
| UrlNormalizer.ParseUrlStr | app/services/youtube.py:44-49 | without `&list=` the reference comes back unchanged; with it, the result is a proper prefix of the URL that holds no `&` and is followed in the URL by a `&` |
| UrlNormalizer.NoSeparatorUnchanged | app/services/youtube.py:47-49 | a reference with no `&` (free text, a bare video URL) is returned as is |
| UrlNormalizer.FirstSeparatorPrefix | app/services/youtube.py:47-48 | when `&list=` occurs, the result is exactly the text before the first `&` |
| UrlNormalizer.ParseUrlStrDropsMarker | app/services/youtube.py:47-48 | the result never contains `&list=` |
| UrlNormalizer.ParseUrlStrIdempotent | app/services/youtube.py:45-49 | normalising twice equals normalising once |
| UrlNormalizer.PlaylistParameterCut | app/services/youtube.py:47-48 | a `&`-free video URL followed by `&list=…` comes back as the video URL |
| UrlNormalizer.EarlierParameterCut | app/services/youtube.py:47-48 | a parameter between the video URL and `&list=` is cut as well |
| UrlNormalizer.PlaylistUrlExample | app/services/youtube.py:47-48 | `https://youtube.com/watch?v=X&list=PL123` becomes `https://youtube.com/watch?v=X` |
| UrlNormalizer.EarlierParameterDroppedExample | app/services/youtube.py:47-48 | `…?v=X&t=5&list=PL123` also becomes `…?v=X` |
| Strings.Contains | app/services/youtube.py:47 | definition: Python's `pat in s`, an occurrence of `pat` as a contiguous substring |
| Strings.Split | app/services/youtube.py:48 | definition: Python's `s.split(sep)` for one character; the pieces between separators, empty ones included |
| Strings.Join | app/services/youtube.py:48 | definition: Python's `sep.join(parts)`; `JoinSplit` proves it undoes `Split` |
| Strings.SplitFirst | app/services/youtube.py:48 | the first piece of `url.split("&")` is a `&`-free prefix, followed by `&` when it is shorter than the URL |
| Strings.SplitPiecesFree | app/services/youtube.py:48 | no piece of a split contains the separator |
| Strings.SplitSingle | app/services/youtube.py:48 | a split has one piece exactly when the separator does not occur, and that piece is the whole string |
| Strings.JoinSplit | app/services/youtube.py:48 | joining the pieces of a split with the separator gives back the string |
| Paths.Components | app/services/youtube.py:69 | the components `pathlib` keeps are exactly the pieces that are non-empty and not `.` (each kept piece is such a piece, and each such piece is kept); a path ending in such a piece has it as its last component |
| Paths.Name | app/services/youtube.py:69 | `Path(p).name` never contains `/`, is never `.`, and is empty or one of the `/`-pieces of the path |
| Paths.NameAfterLastSlash | app/services/youtube.py:69 | when the text after the last `/` is a proper file name, the name is exactly that text |
| Paths.NameIsLastPiece | app/services/youtube.py:69 | when the last `/`-piece of a path is non-empty and not `.`, it is the name |
| Paths.LastPieceWithoutSlash | app/services/youtube.py:69 | a path without `/` is its own last piece |
| Paths.LastPieceAfterSlash | app/services/youtube.py:69 | with a `/` at a position and none after it, the last piece is the text after that position |
| Paths.NameUnderDirectory | app/services/youtube.py:69 | a file name under any directory is the name of the joined path |
| Paths.BareNameUnchanged | app/services/youtube.py:69 | a bare file name is its own name |
| Paths.MediaFileNameExample | app/services/youtube.py:69 | the name of `/media/lofi_beats.m4a` is `lofi_beats.m4a` |
| DownloadSpec.Harvest | app/services/youtube.py:69-71 | definition: the record a "finished" event leaves, with path the event's file name, name its `Path(...).name` and size its size string |
| DownloadSpec.ApplyHook | app/services/youtube.py:67-71 | definition: `download_progess_hook` on values; only a "finished" event replaces the record |
| DownloadSpec.ApplyEvents | app/services/youtube.py:67-71 | definition: the record after the hook has seen the engine's events in order; `UnfinishedEventsKeepRecord`, `LastFinishedEventWins` and `ExtractInfo` state what it gives |
| DownloadSpec.UnfinishedEventsKeepRecord | app/services/youtube.py:67-71 | status events none of which is "finished" leave the record unchanged |
| DownloadSpec.LastFinishedEventWins | app/services/youtube.py:67-71 | the last "finished" event alone decides name, size and path, whatever came before it |
| DownloadSpec.HarvestedFile | app/services/youtube.py:67-71 | whatever the record held, a finished event replaces it by the full path as `path`, the text after its last `/` as `name`, and the size string as `size` |
| DownloadSpec.Resolve | app/services/youtube.py:86-88 | definition: what the retry step makes of a search result; no result means giving up; otherwise the blocking variant retries on `webpage_url` (line 88), the suspending one on the first entry's `link` (lines 110-112), and an empty page raises IndexError |
| DownloadSpec.DownloadTraceShape | app/services/youtube.py:78-88 | extraction and search alternate, each search being for the URL just extracted; the run ends in a download exactly when its last call is an extraction; at most `retries + 1` extractions |
| DownloadSpec.FirstAttemptSucceeds | app/services/youtube.py:82-84 | a successful first extraction issues no search, and the record is what the hook made of its events |
| DownloadSpec.FailureWithoutMatchGivesUp | app/services/youtube.py:85-87 | a failed extraction without a match issues one search for the normalised URL and ends silently |
| DownloadSpec.FailureWithMatchRetriesOnce | app/services/youtube.py:85-88 | a failed extraction with a match issues one search and then exactly the calls of the retry on the match's URL, whose record and outcome are the result |
| DownloadSpec.FailedAttemptStops | app/services/youtube.py:85-88 | a failed extraction with no match to retry on, or no budget left, ends after one search for the normalised URL, without a download |
| DownloadSpec.RetryBudgetSpent | app/services/youtube.py:85-88 | with no budget left, a match ends the run after the search |
| DownloadSpec.EmptyPageRaises | app/services/youtube.py:109-112 | in the suspending variant, an empty result page raises after one search, with no second extraction |
| DownloadSpec.SearchFollowsFailedExtraction | app/services/youtube.py:82-88 | every search in a run comes right after the extraction of the URL it searches for |
| DownloadSpec.BlockingSearchNeverRaises | app/services/youtube.py:85-88 | the blocking variant never ends in a lookup error |
| DownloadSpec.SilentGiveUpLeavesEmptyRecord | app/services/youtube.py:23-26 | a failed attempt with no finished event and no match leaves a fresh record empty |
| DownloadSpec.Download | app/services/youtube.py:78-88 | every run starts with the extraction of the normalised URL and has a definite outcome |
| DownloadSpec.TicketOf | app/services/youtube.py:64 | definition: the `{path, name}` record written under a ticket |
| DownloadSpec.Workflow | app/services/youtube.py:90-94 | definition (no contract of its own): the reference sequence of actions `convert_video` issues after a download run; `ConvertVideo` and `ConvertVideoP` are proved equal to it and `WorkflowOrder` states its properties |
| DownloadSpec.WorkflowOrder | app/services/youtube.py:90-94 | when no lookup error is raised: all extractions and searches come first, then one ticket write under the key, holding the path and name the download left in the record; then one expiration of that path after `FILE_EXPIRE_SECONDS` |
| DownloadSpec.GiveUpStillWritesEmptyTicket | app/services/youtube.py:60-65 | after a silent give-up on a fresh instance, the ticket `{"", ""}` is still written and the empty path is scheduled for expiration |
| DownloadSpec.FallbackWorkflow | app/services/youtube.py:85-94 | extract fails, search matches, retry succeeds: extract, search, extract the match, store the ticket, schedule the expiration |
| DownloadSpec.SearchFallbackScenario | app/services/youtube.py:78-94 | "lofi beats" fails, the search finds the video, the retry downloads it, and ticket `t1` maps to `/media/lofi_beats.m4a` and `lofi_beats.m4a` |
| DownloadSpec.ScenarioRecord | app/services/youtube.py:67-71 | in the scenario, the failed attempt leaves the record empty and the retry's finished event fills it with `lofi_beats.m4a`, its size and its full path |
| DownloadSpec.NotAwaited | app/services/youtube.py:92 | definition: the run of a download coroutine that is created but never awaited; no calls, the record as it was |
| DownloadSpec.UnawaitedDownloadNeverExtracts | app/services/youtube.py:90-94 | as written for `YoutubeDownloadP`, the workflow extracts nothing and stores the old record |
| DownloadSpec.UnawaitedDownloadExample | app/services/youtube.py:90-94 | a fresh `YoutubeDownloadP` stores an empty ticket |
| DownloadSpec.AwaitedWorkflowExtractsFirst | app/services/youtube.py:102-112 | with the download awaited, the workflow starts with the extraction of the normalised URL; after a successful first attempt it stores what the hook harvested |
| YoutubeService.Environment.ExtractInfo | app/services/youtube.py:84 | answers from the engine oracle and logs one extraction |
| YoutubeService.Environment.VideosSearch | app/services/youtube.py:51-53 | answers from the blocking search oracle and logs one search |
| YoutubeService.Environment.AioVideosSearch | app/services/youtube.py:98-100 | answers from the suspending search oracle and logs one search |
| YoutubeService.Environment.SetDict | app/services/youtube.py:61-65 | logs one ticket write of the given record under the key |
| YoutubeService.Environment.StartDownloadExpiration | app/services/youtube.py:56-57 | logs one request to delete the path after the given seconds |
| YoutubeService.FileDownload.constructor | app/services/youtube.py:23-37 | empty name, size and path; the fixed options with no callback |
| YoutubeService.YoutubeDownload.constructor | app/services/youtube.py:41-42 | a fresh `FileDownload` in its default state |
| YoutubeService.YoutubeDownload.DownloadProgessHook | app/services/youtube.py:67-71 | a finished event sets path, its file name and the size; any other event leaves the fields as they were |
| YoutubeService.YoutubeDownload.SetProgressHook | app/services/youtube.py:73-76 | the callback list becomes exactly this instance's hook; the other options are unchanged |
| YoutubeService.YoutubeDownload.ExtractInfo | app/services/youtube.py:83-84 | the record is the hook folded over the engine's events in order; reports whether the engine raised |
| YoutubeService.YoutubeDownload.DownloadVideo | app/services/youtube.py:78-88 | the calls logged and the record left are those of `Download` with the blocking search; the hook is installed |
| YoutubeService.YoutubeDownload.DownloadVideoP | app/services/youtube.py:102-112 | the same with the suspending search; `raised` holds exactly when the run ends in a lookup error |
| YoutubeService.YoutubeDownload.SetTicket | app/services/youtube.py:60-65 | logs one ticket write holding the current path and name |
| YoutubeService.YoutubeDownload.SetFileExpiration | app/services/youtube.py:55-58 | logs the expiration of the current path after 300 seconds |
| YoutubeService.YoutubeDownload.ConvertVideo | app/services/youtube.py:90-94 | the log grows by exactly the `Workflow` of the blocking download run; the record is that run's; the hook slot holds this instance's callback |
| YoutubeService.YoutubeDownload.ConvertVideoPAsWritten | app/services/youtube.py:90-94 | the inherited `convert_video` on a `YoutubeDownloadP`: the log grows by the workflow of a run that never started; the record and the options, hook slot included, are unchanged |
| YoutubeService.YoutubeDownload.ConvertVideoP | app/services/youtube.py:102-112 | corrected workflow (see Findings): with the download awaited, the log grows by the `Workflow` of the suspending download run; the record is that run's; the hook slot holds this instance's callback |

## Left out

- The network, `youtube_dl`, `yt_dlp` and the two search libraries are oracles. An
  extraction is the list of status events it reports plus whether it raised
  `DownloadError`. A search is its result or `None`.
- Exceptions other than `DownloadError` (and the `IndexError` of an empty result page)
  are not modelled. Neither are missing dictionary keys in events or search results.
- The Redis connection and `set_dict` are left out. A ticket write is recorded as an
  action in the log.
- `start_download_expiration`, the timer and the file deletion are left out. The model
  records only the request `asyncio.create_task` makes.
- The `outtmpl` option (`BASE_DIR`, `MEDIA_ROOT`, `os.path.join`), `YOUTUBE_URL` and
  `FILE_DIR` are not modelled. Which file name the engine picks is part of the engine
  oracle.
- `str(download["_total_bytes_str"])` is modelled with the value already a string.
- `progress_hook` is a class-level dictionary, so the source shares it between all
  instances. The model gives each `FileDownload` its own options. Aliasing between
  instances is not captured.
- Interleaving of concurrent coroutines and executor threads is not modelled. Each
  workflow runs to completion on its own.
- DownloadSpec.Download: the unbounded recursion of `download_video` is bounded by
  `retries`. A run that would recurse further ends as `RetriesExhausted`.
- YoutubeService.YoutubeDownload.DownloadVideo: bounded by `retries` like `Download`.
- YoutubeService.YoutubeDownload.DownloadVideoP: bounded by `retries` like `Download`.
- YoutubeService.YoutubeDownload.ConvertVideo: takes the same `retries` budget, which
  `convert_video` does not have, and passes it to `DownloadVideo`.
- YoutubeService.YoutubeDownload.ConvertVideoP: takes the same `retries` budget and
  passes it to `DownloadVideoP`.
- asyncio debug mode is not modelled. In debug mode `run_in_executor` rejects a coroutine
  function with a `TypeError`, so `ConvertVideoPAsWritten` describes the default, non-debug
  mode only.
- `search_video` of both classes has no member of its own. Its call is
  `Environment.VideosSearch` or `Environment.AioVideosSearch`.
- `Path(...).name` is modelled for POSIX paths only.

## Findings

| source | as written | input that shows it | evidently intended | confidence | as-written member | corrected member |
|---|---|---|---|---|---|---|
| app/services/youtube.py:90-94, 102-112 | `YoutubeDownloadP` inherits `convert_video`, which passes its `async def download_video` to `run_in_executor`; the executor only creates the coroutine and never awaits it, so nothing is downloaded before the ticket is written (with asyncio debug mode off; in debug mode `run_in_executor` raises `TypeError` for a coroutine function and `convert_video` fails before writing the ticket) | any reference on a fresh `YoutubeDownloadP`, e.g. `convert_video("https://youtu.be/Y", redis, "t1")`: the ticket `t1` gets `{"path": "", "name": ""}` and no extraction happens | await the suspending download, then write the ticket and schedule the expiration | not executed | YoutubeService.YoutubeDownload.ConvertVideoPAsWritten, DownloadSpec.UnawaitedDownloadNeverExtracts | YoutubeService.YoutubeDownload.ConvertVideoP, DownloadSpec.AwaitedWorkflowExtractsFirst |
