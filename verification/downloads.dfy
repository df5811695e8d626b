/** The download phase: the job queue is reloaded with the fetched links, the workers
    drain it, and every dequeued job bumps the completed counter exactly once, whether
    it succeeded or failed. Threads and the lock are abstracted into a sequential drain
    in which an arbitrary assignment says which worker took which job. */
module Downloads {
  import opened Results
  import opened Catalog
  import Artifacts
  import Lyrics
  import opened Text

  const NumWorkers: nat := 4
  const NoJobsMessage: string := "Fetch tracks first!"

  /** The shared queue and the two progress counters. */
  datatype Progress = Progress(queue: seq<Job>, completed: nat, total: nat)

  /** Every job is either still queued or already counted. */
  predicate Accounted(p: Progress) {
    p.completed + |p.queue| == p.total
  }

  /** The set-up half of `download_all_tracks`: refuse an empty job list; otherwise
      empty the queue, load exactly the links, zero the counter and fix the total. */
  function StartDownloads(current: Progress, links: seq<Job>): (r: Result<Progress, string>)
    ensures r.Failure? <==> |links| == 0
    ensures r.Failure? ==> r.error == NoJobsMessage
    ensures r.Success? ==> r.value.queue == links && r.value.completed == 0
    ensures r.Success? ==> Accounted(r.value)
  {
    if |links| == 0 then Failure(NoJobsMessage)
    else Success(Progress(links, 0, |links|))
  }

  /** The user's switches and whether a lyrics client is configured, taken as fixed for
      the whole drain. */
  datatype Settings = Settings(dir: string, lyricsWanted: bool, lrcWanted: bool, lyricsClient: bool)

  datatype DownloadOutcome = Downloaded | DownloadRaised(message: string)

  /** What the outside world does for one job: the media download's outcome and what
      the lyrics lookup returns (`None` for no song or a swallowed exception). */
  datatype JobEnv = JobEnv(download: DownloadOutcome, lyrics: Option<string>)

  /** What one job leaves behind. `muxAttempted` records that `embed_lyrics_in_mp3` was
      called with non-empty text. Whether the mux then succeeds is outside the model.
      Its failure is swallowed, and the temporary files it leaves next to the MP3 are
      not recorded here. */
  datatype Report = Report(
    succeeded: bool,
    audio: Option<string>,
    sidecar: Option<Lyrics.Sidecar>,
    muxAttempted: bool)

  /** The lyrics text the worker acts on: empty when none came back. */
  function LyricsText(env: JobEnv): string {
    if env.lyrics.Some? then env.lyrics.value else ""
  }

  /** The body of one `download_worker` iteration. A job succeeds exactly when its media
      download does; lyrics are looked for only then, and only when wanted and a client
      exists; a non-empty text is handed to the mux, and also written as a sidecar when asked. */
  function ProcessJob(settings: Settings, job: Job, env: JobEnv): (r: Report)
    ensures r.succeeded <==> env.download.Downloaded?
    ensures r.audio.Some? <==> r.succeeded
    ensures r.audio.Some? ==> r.audio.value == Artifacts.AudioPath(settings.dir, job.artist, job.title)
    ensures r.muxAttempted <==> r.succeeded && settings.lyricsWanted && settings.lyricsClient && LyricsText(env) != ""
    ensures r.sidecar.Some? <==> r.muxAttempted && settings.lrcWanted
    ensures r.sidecar.Some? ==> r.sidecar.value.path == Artifacts.LyricsPath(settings.dir, job.artist, job.title)
    ensures r.sidecar.Some? ==> r.sidecar.value.content == Lyrics.LrcContent(job.artist, job.title, LyricsText(env))
  {
    match env.download
    case DownloadRaised(_) => Report(false, None, None, false)
    case Downloaded =>
      var audio := Artifacts.AudioPath(settings.dir, job.artist, job.title);
      var text := if settings.lyricsWanted && settings.lyricsClient then LyricsText(env) else "";
      if text == "" then Report(true, Some(audio), None, false)
      else
        var sidecar := if settings.lrcWanted then Lyrics.LrcFile(settings.dir, job.artist, job.title, text) else None;
        Report(true, Some(audio), sidecar, true)
  }

  /** When the download succeeds, lyrics are wanted, a client exists, a sidecar is asked
      for and some text came back, the job writes a sidecar next to its audio file under
      the same base. */
  lemma SidecarNextToAudio(settings: Settings, job: Job, env: JobEnv)
    requires env.download.Downloaded? && settings.lyricsWanted && settings.lyricsClient
    requires settings.lrcWanted && LyricsText(env) != ""
    ensures var r := ProcessJob(settings, job, env);
            && r.audio.Some? && r.sidecar.Some?
            && r.audio.value[..|r.audio.value| - 4] == r.sidecar.value.path[..|r.sidecar.value.path| - 4]
  {
    Artifacts.SidecarSharesBase(settings.dir, job.artist, job.title);
  }

  function Sum(xs: seq<nat>): nat {
    if |xs| == 0 then 0 else xs[0] + Sum(xs[1..])
  }

  lemma {:induction false} SumIncrement(xs: seq<nat>, w: nat)
    requires w < |xs|
    ensures Sum(xs[w := xs[w] + 1]) == Sum(xs) + 1
  {
    if w > 0 {
      assert xs[w := xs[w] + 1][1..] == xs[1..][w - 1 := xs[w] + 1];
      SumIncrement(xs[1..], w - 1);
    }
  }

  /** Crediting the i-th job to its worker keeps the per-worker counts and their sum
      in step with the jobs handed out so far. */
  lemma CountStep(perWorker: seq<nat>, workerOf: seq<nat>, i: nat)
    requires i < |workerOf| && workerOf[i] < |perWorker|
    requires forall w :: 0 <= w < |perWorker| ==> perWorker[w] == Count(workerOf[..i], w)
    ensures var next := perWorker[workerOf[i] := perWorker[workerOf[i]] + 1];
            && Sum(next) == Sum(perWorker) + 1
            && forall w :: 0 <= w < |next| ==> next[w] == Count(workerOf[..i + 1], w)
  {
    SumIncrement(perWorker, workerOf[i]);
    assert workerOf[..i + 1] == workerOf[..i] + [workerOf[i]];
    forall w | 0 <= w < |perWorker|
      ensures Count(workerOf[..i + 1], w) == Count(workerOf[..i], w) + (if workerOf[i] == w then 1 else 0)
    {
      CountAppend(workerOf[..i], [workerOf[i]], w);
    }
  }

  /** The state of the drain after the first `i` jobs: the rest still queued, `i` more
      counted, one report per job taken, and each job credited to its worker. */
  ghost predicate Drained(
    settings: Settings, start: Progress, envs: seq<JobEnv>, workerOf: seq<nat>,
    i: nat, queue: seq<Job>, completed: nat, reports: seq<Report>, perWorker: seq<nat>)
    requires |envs| == |start.queue| && |workerOf| == |start.queue|
  {
    && i <= |start.queue|
    && queue == start.queue[i..]
    && completed == start.completed + i
    && |reports| == i
    && (forall k :: 0 <= k < i ==> reports[k] == ProcessJob(settings, start.queue[k], envs[k]))
    && |perWorker| == NumWorkers
    && (forall w :: 0 <= w < NumWorkers ==> perWorker[w] == Count(workerOf[..i], w))
    && Sum(perWorker) == i
  }

  /** Taking the next job keeps `Drained`. */
  lemma DrainStep(
    settings: Settings, start: Progress, envs: seq<JobEnv>, workerOf: seq<nat>,
    i: nat, queue: seq<Job>, completed: nat, reports: seq<Report>, perWorker: seq<nat>)
    requires |envs| == |start.queue| && |workerOf| == |start.queue|
    requires forall k :: 0 <= k < |workerOf| ==> workerOf[k] < NumWorkers
    requires Drained(settings, start, envs, workerOf, i, queue, completed, reports, perWorker)
    requires |queue| > 0
    ensures i < |start.queue|
    ensures Drained(settings, start, envs, workerOf, i + 1, queue[1..], completed + 1,
                    reports + [ProcessJob(settings, queue[0], envs[i])],
                    perWorker[workerOf[i] := perWorker[workerOf[i]] + 1])
  {
    CountStep(perWorker, workerOf, i);
    assert queue[0] == start.queue[i];
    assert queue[1..] == start.queue[i + 1..];
    var next := reports + [ProcessJob(settings, queue[0], envs[i])];
    forall k | 0 <= k < i + 1
      ensures next[k] == ProcessJob(settings, start.queue[k], envs[k])
    {
      if k < i {
        assert next[k] == reports[k];
      }
    }
  }

  /** Before the first job: nothing taken, nothing counted, no worker credited. */
  lemma DrainStart(settings: Settings, start: Progress, envs: seq<JobEnv>, workerOf: seq<nat>)
    requires |envs| == |start.queue| && |workerOf| == |start.queue|
    ensures Drained(settings, start, envs, workerOf, 0, start.queue, start.completed, [], [0, 0, 0, 0])
  {
    assert workerOf[..0] == [];
  }

  /** Once the queue is empty, every job has been taken and credited. */
  lemma DrainDone(
    settings: Settings, start: Progress, envs: seq<JobEnv>, workerOf: seq<nat>,
    i: nat, completed: nat, reports: seq<Report>, perWorker: seq<nat>)
    requires |envs| == |start.queue| && |workerOf| == |start.queue|
    requires Drained(settings, start, envs, workerOf, i, [], completed, reports, perWorker)
    ensures i == |start.queue| && completed == start.completed + |start.queue|
    ensures |reports| == |start.queue|
    ensures forall k :: 0 <= k < |reports| ==> reports[k] == ProcessJob(settings, start.queue[k], envs[k])
    ensures |perWorker| == NumWorkers && Sum(perWorker) == |start.queue|
    ensures forall w :: 0 <= w < NumWorkers ==> perWorker[w] == Count(workerOf, w)
  {
    assert |start.queue[i..]| == 0;
    assert workerOf[..i] == workerOf;
  }

  /** The workers draining the queue, run one job at a time. `envs[i]` is what happens
      to the i-th queued job and `workerOf[i]` is the worker that takes it. The queue
      ends empty, the counter has grown by the number of queued jobs whatever their
      outcomes, each job's report depends on that job alone, and the per-worker job
      counts add up to the queue length whichever worker took which job. */
  method Drain(settings: Settings, start: Progress, envs: seq<JobEnv>, workerOf: seq<nat>)
    returns (done: Progress, reports: seq<Report>, perWorker: seq<nat>)
    requires |envs| == |start.queue| && |workerOf| == |start.queue|
    requires forall i :: 0 <= i < |workerOf| ==> workerOf[i] < NumWorkers
    ensures done.queue == [] && done.total == start.total
    ensures done.completed == start.completed + |start.queue|
    ensures Accounted(start) ==> Accounted(done) && done.completed == done.total
    ensures |reports| == |start.queue|
    ensures forall i :: 0 <= i < |reports| ==> reports[i] == ProcessJob(settings, start.queue[i], envs[i])
    ensures |perWorker| == NumWorkers
    ensures forall w :: 0 <= w < NumWorkers ==> perWorker[w] == Count(workerOf, w)
    ensures Sum(perWorker) == |start.queue|
  {
    var queue := start.queue;
    var completed := start.completed;
    reports := [];
    perWorker := [0, 0, 0, 0];
    var i := 0;
    DrainStart(settings, start, envs, workerOf);
    while |queue| > 0
      invariant Drained(settings, start, envs, workerOf, i, queue, completed, reports, perWorker)
      decreases |queue|
    {
      DrainStep(settings, start, envs, workerOf, i, queue, completed, reports, perWorker);
      var job := queue[0];
      queue := queue[1..];
      reports := reports + [ProcessJob(settings, job, envs[i])];
      completed := completed + 1;  // the `finally` block, on success and failure alike
      var w := workerOf[i];
      perWorker := perWorker[w := perWorker[w] + 1];
      i := i + 1;
    }
    DrainDone(settings, start, envs, workerOf, i, completed, reports, perWorker);
    done := Progress(queue, completed, start.total);
  }

  /** `download_all_tracks` followed by the workers: an empty job list is refused;
      otherwise, once the queue is drained, the counter equals the number of links
      exactly and matches the total. */
  method DownloadAll(settings: Settings, current: Progress, links: seq<Job>, envs: seq<JobEnv>, workerOf: seq<nat>)
    returns (r: Result<Progress, string>, reports: seq<Report>)
    requires |envs| == |links| && |workerOf| == |links|
    requires forall i :: 0 <= i < |workerOf| ==> workerOf[i] < NumWorkers
    ensures r.Failure? <==> |links| == 0
    ensures r.Failure? ==> r.error == NoJobsMessage && reports == []
    ensures r.Success? ==> r.value.queue == [] && r.value.completed == |links| && r.value.total == |links|
    ensures r.Success? ==> |reports| == |links|
    ensures forall i :: 0 <= i < |reports| ==> reports[i] == ProcessJob(settings, links[i], envs[i])
  {
    var started := StartDownloads(current, links);
    if started.Failure? {
      return Failure(started.error), [];
    }
    var done, rs, _ := Drain(settings, started.value, envs, workerOf);
    r := Success(done);
    reports := rs;
  }
}
