/**
 * `process_combine_label_task`, the Celery route through the pipeline: the
 * task is loaded without looking at its status, marked PROCESSING with the
 * Celery request id, its URLs are downloaded one after the other with a
 * progress report after each, and the shared tail merges, uploads and
 * records the outcome.
 */
module CeleryTask {
  import opened Wrappers
  import opened Models
  import opened DownloadPdf
  import opened TaskStore
  import opened Pipeline
  import BackgroundProcessing
  import MergePdf

  /** The outside world for one run: the network per URL index, and the services. */
  datatype World = World(fetch: nat -> (string, nat) -> Attempt, services: Services)

  /** The dict the Celery task returns. */
  datatype CeleryResult =
    | CeleryFailed(error: string)
    | CeleryCompleted(driveLink: Option<string>, successfulCount: nat, failedCount: nat)

  /** The `meta` of one `update_state(state='PROGRESS')` call. */
  datatype Progress = Progress(current: nat, total: nat)

  /** The row once the Celery task has claimed it. */
  function ClaimedRow(t: CombineLabelTask, requestId: string, start: nat): CombineLabelTask
  {
    StartedRow(t, start).(celeryTaskId := Some(requestId))
  }

  function ResultOf(o: Outcome): CeleryResult
  {
    match o
    case MergeFailedWith(e) => CeleryFailed(e)
    case Raised(e) => CeleryFailed(e)
    case UploadFailedWith(e) => CeleryFailed(e)
    case Uploaded(link, s, f) => CeleryCompleted(link, s, f)
  }

  /** The progress reports after the first `n` of `total` downloads: one after each. */
  function ProgressReports(n: nat, total: nat): (r: seq<Progress>)
    ensures |r| == n
    ensures forall i :: 0 <= i < n ==> r[i] == Progress(i + 1, total)
  {
    seq(n, i requires 0 <= i < n => Progress(i + 1, total))
  }

  /** The rows the task writes, in order, and what it returns, for the stored row `stored`. */
  function CelerySpec(stored: Option<CombineLabelTask>, requestId: string, w: World, start: nat, now: nat)
    : (r: (seq<CombineLabelTask>, CeleryResult))
    ensures stored.None? <==> r.0 == []
    ensures stored.None? ==> r.1 == CeleryFailed("Task not found")
    ensures stored.Some? ==>
      && |r.0| == 2 && r.0[0].status == Processing && r.0[0].startedAt == Some(start)
      && r.0[0].celeryTaskId == Some(requestId)
      && r.0[1].id == stored.value.id && r.0[1].urls == stored.value.urls
      && r.0[1].celeryTaskId == Some(requestId) && r.0[1].completedAt == Some(now)
      && (r.1.CeleryCompleted? <==> r.0[1].status == Completed)
      && (r.1.CeleryFailed? <==> r.0[1].status == Failed)
  {
    match stored
    case None => ([], CeleryFailed("Task not found"))
    case Some(t) =>
      var claimed := ClaimedRow(t, requestId, start);
      var downloads := EachDownloaded(t.urls, w.fetch);
      FinishIsTerminal(claimed, downloads, w.services, now);
      var (row, o) := FinishSpec(claimed, downloads, w.services, now);
      ([claimed, row], ResultOf(o))
  }

  /**
   * `process_combine_label_task(task_id)` run under the Celery request id
   * `requestId`; `progress` lists the progress reports sent.
   */
  method ProcessCombineLabelTask(store: Store, id: nat, requestId: string, w: World, start: nat, now: nat)
    returns (result: CeleryResult, progress: seq<Progress>)
    requires store.Valid()
    modifies store`rows, store`history
    ensures store.Valid()
    ensures var (writes, r) := CelerySpec(old(store.Get(id)), requestId, w, start, now);
      && result == r && store.history == old(store.history) + writes
      && (writes == [] ==> store.rows == old(store.rows))
      && (writes != [] ==> store.Get(id) == Some(writes[|writes| - 1]))
    ensures old(store.Get(id)).Some? ==> progress == ProgressReports(|old(store.Get(id)).value.urls|, |old(store.Get(id)).value.urls|)
    ensures old(store.Get(id)).None? ==> progress == []
    ensures forall other :: other != id ==> store.Get(other) == old(store.Get(other))
  {
    progress := [];
    var stored := store.Get(id);
    if stored.None? {
      return CeleryFailed("Task not found"), progress;
    }
    var t := ClaimedRow(stored.value, requestId, start);
    store.Save(t);
    var downloads;
    downloads, progress := DownloadSequentially(t.urls, w.fetch);
    var row, outcome, _ := FinishTask(store, t, downloads, w.services, now);
    result := ResultOf(outcome);
    HistoryAppend(old(store.history), [t], [row]);
    assert [t] + [row] == [t, row];
  }

  /** The download loop: each URL with the default retries, in order, reporting progress after each. */
  method DownloadSequentially(urls: seq<string>, fetch: nat -> (string, nat) -> Attempt)
    returns (downloads: seq<DownloadResult>, progress: seq<Progress>)
    ensures downloads == EachDownloaded(urls, fetch)
    ensures progress == ProgressReports(|urls|, |urls|)
  {
    downloads, progress := [], [];
    for i := 0 to |urls|
      invariant downloads == EachDownloaded(urls[..i], fetch)
      invariant progress == ProgressReports(i, |urls|)
    {
      var result, _ := DownloadPdfFromUrl(urls[i], 3, fetch(i));
      AttemptsBounded(urls[i], 3, fetch(i), 0);
      DownloadStep(urls, fetch, i);
      downloads := downloads + [result.value];
      progress := progress + [Progress(|downloads|, |urls|)];
      ProgressStep(i, |urls|);
    }
    assert urls[..|urls|] == urls;
  }

  lemma ProgressStep(n: nat, total: nat)
    ensures ProgressReports(n + 1, total) == ProgressReports(n, total) + [Progress(n + 1, total)]
  {
    assert ProgressReports(n + 1, total)[..n] == ProgressReports(n, total);
  }

  lemma DownloadStep(urls: seq<string>, fetch: nat -> (string, nat) -> Attempt, i: nat)
    requires i < |urls|
    ensures EachDownloaded(urls[..i + 1], fetch) == EachDownloaded(urls[..i], fetch) + [DownloadWithDefaults(urls[i], fetch(i))]
  {
    assert urls[..i + 1][..i] == urls[..i];
  }

  /**
   * Unlike the background worker, the Celery task does not look at the
   * status: a CANCELLED task is claimed and processed like any other.
   */
  lemma CancelledStillProcessed(t: CombineLabelTask, requestId: string, w: World, start: nat, now: nat)
    requires t.status == Cancelled
    ensures var (writes, _) := CelerySpec(Some(t), requestId, w, start, now);
      |writes| == 2 && writes[0].status == Processing && writes[1].status in {Completed, Failed}
    ensures BackgroundProcessing.ProcessSpec(t.id, Some(t), BackgroundProcessing.World(w.fetch, [], w.services), start, now).0 == []
  {
    FinishIsTerminal(ClaimedRow(t, requestId, start), EachDownloaded(t.urls, w.fetch), w.services, now);
  }

  /**
   * The terminal row does not depend on the Celery id carried in, except
   * that the id is kept.
   */
  lemma {:induction false} FinishIgnoresCeleryId(t: CombineLabelTask, c: Option<string>, downloads: seq<DownloadResult>, s: Services, now: nat)
    ensures FinishSpec(t.(celeryTaskId := c), downloads, s, now).0 == FinishSpec(t, downloads, s, now).0.(celeryTaskId := c)
    ensures FinishSpec(t.(celeryTaskId := c), downloads, s, now).1 == FinishSpec(t, downloads, s, now).1
  {
    MergePdf.MergeSuccessIff(downloads, s.faults);
  }

  /**
   * For a task with URLs that was not cancelled, both routes end in the
   * same row, apart from the Celery id, whatever order the parallel
   * downloads complete in.
   */
  lemma SameOutcomeBothRoutes(t: CombineLabelTask, requestId: string, w: World, completion: seq<nat>, start: nat, now: nat)
    requires t.urls != [] && t.status != Cancelled
    ensures var (celery, _) := CelerySpec(Some(t), requestId, w, start, now);
      var (background, _) := BackgroundProcessing.ProcessSpec(t.id, Some(t), BackgroundProcessing.World(w.fetch, completion, w.services), start, now);
      |celery| == 2 && |background| == 2
      && celery[1] == background[1].(celeryTaskId := Some(requestId))
  {
    FinishIgnoresCeleryId(StartedRow(t, start), Some(requestId), EachDownloaded(t.urls, w.fetch), w.services, now);
  }

  /**
   * A task without URLs fails on both routes, with different messages:
   * the Celery task has nothing to merge, the background worker cannot
   * build a pool of zero download threads.
   */
  lemma EmptyUrlsFailDifferently(t: CombineLabelTask, requestId: string, w: World, completion: seq<nat>, start: nat, now: nat)
    requires t.urls == [] && t.status != Cancelled
    ensures var (celery, r) := CelerySpec(Some(t), requestId, w, start, now);
      var (background, _) := BackgroundProcessing.ProcessSpec(t.id, Some(t), BackgroundProcessing.World(w.fetch, completion, w.services), start, now);
      && r == CeleryFailed("No PDFs were successfully downloaded")
      && celery[1].status == Failed && celery[1].failedCount == 0
      && celery[1].errorMessage == Some("No PDFs were successfully downloaded")
      && background[1].status == Failed
      && background[1].errorMessage == Some(BackgroundProcessing.ZeroWorkers)
  {
    var claimed := ClaimedRow(t, requestId, start);
    assert EachDownloaded(t.urls, w.fetch) == [];
    assert MergePdf.SuccessUrls([]) == [];
  }
}
