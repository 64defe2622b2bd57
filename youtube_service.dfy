/**
  `FileDownload`, `YoutubeDownload` and `YoutubeDownloadP` as classes whose methods
  update fields in place. The extraction engine, the two search providers, the
  ticket store and the expiration timer sit behind `Environment`, which answers
  from fixed oracles and records every call it receives.
 */
module YoutubeService {
  import opened UrlNormalizer
  import opened DownloadSpec
  import Paths

  /** A registered progress callback: the bound `download_progess_hook` of an instance. */
  datatype Callback = ProgressHookOf(owner: YoutubeDownload)

  /** The options dictionary handed to the extraction engine (the output template is not modelled). */
  datatype DownloaderOptions = DownloaderOptions(
    noPlaylist: bool, quiet: bool, noWarnings: bool, format: string,
    progressHooks: seq<Callback>)

  const DefaultOptions: DownloaderOptions :=
    DownloaderOptions(true, true, true, "bestaudio[ext=m4a]", [])

  /** The external collaborators: answers come from oracles, calls are logged in order. */
  class Environment {
    const engine: string -> Extraction
    const videosSearch: string -> Option<SearchMatch>
    const aioVideosSearch: string -> Option<SearchPage>
    var log: seq<Action>

    constructor (engine: string -> Extraction, videosSearch: string -> Option<SearchMatch>,
                 aioVideosSearch: string -> Option<SearchPage>)
      ensures this.engine == engine && this.videosSearch == videosSearch
      ensures this.aioVideosSearch == aioVideosSearch && log == []
    {
      this.engine := engine;
      this.videosSearch := videosSearch;
      this.aioVideosSearch := aioVideosSearch;
      log := [];
    }

    /** `ydl.extract_info(url)`: the events it reports and whether it raised `DownloadError`. */
    method ExtractInfo(url: string) returns (x: Extraction)
      modifies this
      ensures x == engine(url) && log == old(log) + [Extract(url)]
    {
      x := engine(url);
      log := log + [Extract(url)];
    }

    /** `VideosSearch(query, limit=1).result()`. */
    method VideosSearch(query: string) returns (m: Option<SearchMatch>)
      modifies this
      ensures m == videosSearch(query) && log == old(log) + [Search(query)]
    {
      m := videosSearch(query);
      log := log + [Search(query)];
    }

    /** `await AioVideosSearch(query, limit=1).next()`. */
    method AioVideosSearch(query: string) returns (p: Option<SearchPage>)
      modifies this
      ensures p == aioVideosSearch(query) && log == old(log) + [Search(query)]
    {
      p := aioVideosSearch(query);
      log := log + [Search(query)];
    }

    /** `set_dict(redis, key, {"path": ..., "name": ...})`. */
    method SetDict(key: string, ticket: Ticket)
      modifies this
      ensures log == old(log) + [StoreTicket(key, ticket)]
    {
      log := log + [StoreTicket(key, ticket)];
    }

    /** `asyncio.create_task(start_download_expiration(path, seconds))`: only the request is recorded. */
    method StartDownloadExpiration(path: string, seconds: int)
      modifies this
      ensures log == old(log) + [ScheduleExpiration(path, seconds)]
    {
      log := log + [ScheduleExpiration(path, seconds)];
    }
  }

  /** The download result and the engine options; one state slot per downloader. */
  class FileDownload {
    var name: string
    var size: string
    var path: string
    var progressHook: DownloaderOptions

    constructor ()
      ensures Record() == EmptyRecord && progressHook == DefaultOptions
    {
      name, size, path := "", "", "";
      progressHook := DefaultOptions;
    }

    function Record(): FileRecord
      reads this
    {
      FileRecord(name, size, path)
    }
  }

  /**
    `YoutubeDownload`, and through it `YoutubeDownloadP`, which overrides only the
    search and `download_video`: `DownloadVideoP` models that override,
    `ConvertVideoPAsWritten` the inherited `convert_video` on a `YoutubeDownloadP`, and
    `ConvertVideoP` the same workflow with the download awaited.
   */
  class YoutubeDownload {
    const fileDownload: FileDownload

    constructor ()
      ensures fresh(fileDownload)
      ensures fileDownload.Record() == EmptyRecord && fileDownload.progressHook == DefaultOptions
    {
      fileDownload := new FileDownload();
    }

    /** Only a "finished" event changes the record: path, its file name, and the size string. */
    method DownloadProgessHook(e: StatusEvent)
      modifies fileDownload`name, fileDownload`size, fileDownload`path
      ensures e.status == Finished ==>
        fileDownload.path == e.name && fileDownload.name == Paths.Name(e.name) &&
        fileDownload.size == e.totalBytesStr
      ensures e.status != Finished ==> fileDownload.Record() == old(fileDownload.Record())
      ensures fileDownload.Record() == ApplyHook(old(fileDownload.Record()), e)
    {
      if e.status == Finished {
        fileDownload.name := Paths.Name(e.name);
        fileDownload.size := e.totalBytesStr;
        fileDownload.path := e.name;
      }
    }

    /** Replaces the callback list by exactly this instance's hook; the other options stay. */
    method SetProgressHook()
      modifies fileDownload`progressHook
      ensures fileDownload.progressHook.progressHooks == [ProgressHookOf(this)]
      ensures fileDownload.progressHook == old(fileDownload.progressHook).(progressHooks := [ProgressHookOf(this)])
    {
      fileDownload.progressHook := fileDownload.progressHook.(progressHooks := [ProgressHookOf(this)]);
    }

    /**
      `with YoutubeDL(options) as ydl: ydl.extract_info(url)`: the engine hands each
      status event, in order, to the registered callbacks, which are exactly this
      instance's hook.
     */
    method ExtractInfo(env: Environment, url: string) returns (failed: bool)
      requires fileDownload.progressHook.progressHooks == [ProgressHookOf(this)]
      modifies fileDownload`name, fileDownload`size, fileDownload`path, env
      ensures failed == env.engine(url).DownloadError?
      ensures fileDownload.Record() == ApplyEvents(old(fileDownload.Record()), env.engine(url).events)
      ensures env.log == old(env.log) + [Extract(url)]
    {
      var x := env.ExtractInfo(url);
      var i := 0;
      while i < |x.events|
        invariant 0 <= i <= |x.events|
        invariant fileDownload.Record() == ApplyEvents(old(fileDownload.Record()), x.events[..i])
        invariant env.log == old(env.log) + [Extract(url)]
      {
        assert x.events[..i + 1][..i] == x.events[..i];
        DownloadProgessHook(x.events[i]);
        i := i + 1;
      }
      assert x.events[..i] == x.events;
      failed := x.DownloadError?;
    }

    /**
      `YoutubeDownload.download_video`, with at most `retries` recursive calls:
      the calls it issues, the record it leaves and the hook it installs.
     */
    method DownloadVideo(env: Environment, url: string, retries: nat)
      modifies fileDownload, env
      decreases retries
      ensures var d := Download(env.engine, VideosSearch(env.videosSearch),
                                old(fileDownload.Record()), url, retries);
        env.log == old(env.log) + d.calls && fileDownload.Record() == d.rec
      ensures fileDownload.progressHook ==
        old(fileDownload.progressHook).(progressHooks := [ProgressHookOf(this)])
    {
      ghost var provider := VideosSearch(env.videosSearch);
      ghost var before := fileDownload.Record();
      var u := ParseUrlStr(url);
      SetProgressHook();
      var failed := ExtractInfo(env, u);
      ghost var after := fileDownload.Record();
      if !failed {
        FirstAttemptSucceeds(env.engine, provider, before, url, retries);
      } else {
        var result := env.VideosSearch(u);
        if result.None? {
          FailureWithoutMatchGivesUp(env.engine, provider, before, url, retries);
        } else if retries == 0 {
          RetryBudgetSpent(env.engine, provider, before, url);
        } else {
          var next := result.value.webpageUrl;
          DownloadVideo(env, next, retries - 1);
          FailureWithMatchRetriesOnce(env.engine, provider, before, url, retries, next);
          AppendRetry(old(env.log), u, Download(env.engine, provider, after, next, retries - 1).calls);
        }
      }
    }

    /**
      `YoutubeDownloadP.download_video`: the same retry structure, retrying on the
      first `link` of the search page; `raised` reports the IndexError an empty page
      causes, which propagates to the caller.
     */
    method DownloadVideoP(env: Environment, url: string, retries: nat) returns (raised: bool)
      modifies fileDownload, env
      decreases retries
      ensures var d := Download(env.engine, AioVideosSearch(env.aioVideosSearch),
                                old(fileDownload.Record()), url, retries);
        env.log == old(env.log) + d.calls && fileDownload.Record() == d.rec &&
        raised == (d.outcome == LookupRaised)
      ensures fileDownload.progressHook ==
        old(fileDownload.progressHook).(progressHooks := [ProgressHookOf(this)])
    {
      ghost var provider := AioVideosSearch(env.aioVideosSearch);
      ghost var before := fileDownload.Record();
      var u := ParseUrlStr(url);
      SetProgressHook();
      var failed := ExtractInfo(env, u);
      ghost var after := fileDownload.Record();
      raised := false;
      if !failed {
        FirstAttemptSucceeds(env.engine, provider, before, url, retries);
      } else {
        var result := env.AioVideosSearch(u);
        if result.None? {
          FailureWithoutMatchGivesUp(env.engine, provider, before, url, retries);
        } else if |result.value.links| == 0 {
          assert result.value == SearchPage([]);
          EmptyPageRaises(env.engine, env.aioVideosSearch, before, url, retries);
          raised := true;
        } else if retries == 0 {
          RetryBudgetSpent(env.engine, provider, before, url);
        } else {
          var next := result.value.links[0];
          raised := DownloadVideoP(env, next, retries - 1);
          FailureWithMatchRetriesOnce(env.engine, provider, before, url, retries, next);
          AppendRetry(old(env.log), u, Download(env.engine, provider, after, next, retries - 1).calls);
        }
      }
    }

    /** `set_ticket`: stores the current `path` and `name` under `key`. */
    method SetTicket(env: Environment, key: string)
      modifies env
      ensures env.log == old(env.log) + [StoreTicket(key, TicketOf(fileDownload.Record()))]
    {
      env.SetDict(key, TicketOf(fileDownload.Record()));
    }

    /** `set_file_expiration`: deletion of the current path after `FILE_EXPIRE_SECONDS`. */
    method SetFileExpiration(env: Environment)
      modifies env
      ensures env.log == old(env.log) + [ScheduleExpiration(fileDownload.path, FileExpireSeconds)]
    {
      env.StartDownloadExpiration(fileDownload.path, FileExpireSeconds);
    }

    /** `convert_video` on a `YoutubeDownload`: download, then ticket, then expiration. */
    method ConvertVideo(env: Environment, video: string, key: string, retries: nat)
      modifies fileDownload, env
      ensures var d := Download(env.engine, VideosSearch(env.videosSearch),
                                old(fileDownload.Record()), video, retries);
        env.log == old(env.log) + Workflow(d, key) && fileDownload.Record() == d.rec
      ensures fileDownload.progressHook ==
        old(fileDownload.progressHook).(progressHooks := [ProgressHookOf(this)])
    {
      DownloadVideo(env, video, retries);
      BlockingSearchNeverRaises(env.engine, env.videosSearch, old(fileDownload.Record()), video, retries);
      SetTicket(env, key);
      SetFileExpiration(env);
    }

    /**
      The inherited `convert_video` on a `YoutubeDownloadP`, as written: the executor
      calls the `async` `download_video`, which only creates a coroutine, so the
      ticket and the expiration use the record as it was before.
     */
    method ConvertVideoPAsWritten(env: Environment, video: string, key: string)
      modifies env
      ensures env.log == old(env.log) + Workflow(NotAwaited(fileDownload.Record()), key)
      ensures fileDownload.Record() == old(fileDownload.Record())
      ensures fileDownload.progressHook == old(fileDownload.progressHook)
    {
      SetTicket(env, key);
      SetFileExpiration(env);
    }

    /**
      The corrected `convert_video` for a `YoutubeDownloadP`, which awaits the
      download: the same order as the blocking variant; an IndexError from the
      search ends it early.
     */
    method ConvertVideoP(env: Environment, video: string, key: string, retries: nat)
      modifies fileDownload, env
      ensures var d := Download(env.engine, AioVideosSearch(env.aioVideosSearch),
                                old(fileDownload.Record()), video, retries);
        env.log == old(env.log) + Workflow(d, key) && fileDownload.Record() == d.rec
      ensures fileDownload.progressHook ==
        old(fileDownload.progressHook).(progressHooks := [ProgressHookOf(this)])
    {
      var raised := DownloadVideoP(env, video, retries);
      if !raised {
        SetTicket(env, key);
        SetFileExpiration(env);
      }
    }
  }
}
