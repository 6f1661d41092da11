/**
 * The stand-alone background processor: a polling loop that hands PENDING
 * tasks to a fixed pool of workers, and the per-task worker that downloads
 * a task's URLs in parallel, merges them and uploads the result.
 *
 * Threads are modelled by their effects. A round of the polling loop is
 * `Round`; a worker finishing the task behind a future is `RunFuture`; the
 * order in which the download futures complete is a parameter.
 */
module BackgroundProcessing {
  import opened Wrappers
  import opened Models
  import opened DownloadPdf
  import opened TaskStore
  import opened Pipeline
  import Text

  /** The outside world for one task: the network per URL index, download completion order, and the services. */
  datatype World = World(fetch: nat -> (string, nat) -> Attempt, completion: seq<nat>, services: Services)

  const ZeroWorkers: string := "max_workers must be greater than 0"

  /** `as_completed` yields every submitted future, and only those. */
  predicate CompletesAll(completion: seq<nat>, n: nat)
  {
    (forall i :: 0 <= i < n ==> i in completion) && (forall j :: 0 <= j < |completion| ==> completion[j] < n)
  }

  /** The download results of `_download_pdfs_parallel`, in URL order, or the pool's `ValueError`. */
  function ParallelSpec(urls: seq<string>, fetch: nat -> (string, nat) -> Attempt): Result<seq<DownloadResult>>
  {
    if urls == [] then Err(ZeroWorkers) else Ok(EachDownloaded(urls, fetch))
  }

  /**
   * What the worker returns once `start`ed and `now` finished, as a Python
   * value. The success message leaves out the measured duration
   * (` in {total_duration:.1f}s`), which depends on the clock.
   */
  function OutcomeMessage(id: nat, o: Outcome): string
  {
    var task := "Task " + Text.IntToString(id);
    match o
    case MergeFailedWith(e) => task + " failed: " + e
    case Raised(e) => task + " failed: " + e
    case UploadFailedWith(e) => task + " upload failed: " + e
    case Uploaded(link, _, _) =>
      task + " completed successfully! Drive: " + (if link.Some? then link.value else "None")
  }

  /**
   * `_process_single_task` on the task with key `id`, whose stored row is
   * `stored`: the rows it writes, in order, and the message it returns.
   */
  function ProcessSpec(id: nat, stored: Option<CombineLabelTask>, w: World, start: nat, now: nat)
    : (seq<CombineLabelTask>, string)
  {
    var task := "Task " + Text.IntToString(id);
    match stored
    case None => ([], task + " failed: CombineLabelTask matching query does not exist.")
    case Some(t) =>
      if t.status == Cancelled then ([], task + " was cancelled")
      else
        var started := StartedRow(t, start);
        var (rest, m) := AfterStart(id, started, w, now);
        ([started] + rest, m)
  }

  /** The rows written once the task is PROCESSING as `started`, and the message. */
  function AfterStart(id: nat, started: CombineLabelTask, w: World, now: nat): (seq<CombineLabelTask>, string)
  {
    var task := "Task " + Text.IntToString(id);
    match ParallelSpec(started.urls, w.fetch)
    case Err(e) => ([CrashedRow(started, e, now)], task + " failed: " + e)
    case Ok(downloads) =>
      var (row, o) := FinishSpec(started, downloads, w.services, now);
      ([row], OutcomeMessage(id, o))
  }

  /**
   * `_download_pdfs_parallel`: every URL is downloaded with the default
   * retries, the results arrive in `completion` order and are put back in
   * URL order. With no URLs the pool cannot be built.
   */
  method DownloadPdfsParallel(urls: seq<string>, fetch: nat -> (string, nat) -> Attempt, completion: seq<nat>)
    returns (r: Result<seq<DownloadResult>>)
    requires CompletesAll(completion, |urls|)
    ensures r == ParallelSpec(urls, fetch)
  {
    if |urls| == 0 {
      return Err(ZeroWorkers);
    }
    var byIndex := CollectCompleted(urls, fetch, completion);
    var ordered := InUrlOrder(urls, fetch, byIndex);
    assert ordered == EachDownloaded(urls, fetch);
    r := Ok(ordered);
  }

  /** The `as_completed` loop: each finished download is stored under its URL's index. */
  method CollectCompleted(urls: seq<string>, fetch: nat -> (string, nat) -> Attempt, completion: seq<nat>)
    returns (byIndex: map<nat, DownloadResult>)
    requires CompletesAll(completion, |urls|)
    ensures forall i :: i in byIndex ==> i < |urls| && byIndex[i] == DownloadWithDefaults(urls[i], fetch(i))
    ensures forall i :: 0 <= i < |urls| ==> i in byIndex
  {
    byIndex := map[];
    for j := 0 to |completion|
      invariant forall i :: i in byIndex ==> i < |urls| && byIndex[i] == DownloadWithDefaults(urls[i], fetch(i))
      invariant forall k :: 0 <= k < j ==> completion[k] in byIndex
    {
      var index := completion[j];
      var result, _ := DownloadPdfFromUrl(urls[index], 3, fetch(index));
      AttemptsBounded(urls[index], 3, fetch(index), 0);
      assert result.value == DownloadWithDefaults(urls[index], fetch(index));
      byIndex := byIndex[index := result.value];
    }
    forall i | 0 <= i < |urls| ensures i in byIndex {
      assert i in completion;
      var k :| 0 <= k < |completion| && completion[k] == i;
    }
  }

  /** The results put back in URL order. */
  method InUrlOrder(urls: seq<string>, fetch: nat -> (string, nat) -> Attempt, byIndex: map<nat, DownloadResult>)
    returns (ordered: seq<DownloadResult>)
    requires forall i :: 0 <= i < |urls| ==> i in byIndex && byIndex[i] == DownloadWithDefaults(urls[i], fetch(i))
    ensures |ordered| == |urls|
    ensures forall k :: 0 <= k < |urls| ==> ordered[k] == DownloadWithDefaults(urls[k], fetch(k))
  {
    ordered := [];
    for i := 0 to |urls|
      invariant |ordered| == i
      invariant forall k :: 0 <= k < i ==> ordered[k] == DownloadWithDefaults(urls[k], fetch(k))
    {
      ordered := ordered + [byIndex[i]];
    }
  }

  /** The order in which the downloads complete does not show in the results: each sits at its URL's index. */
  lemma ParallelKeepsOrder(urls: seq<string>, fetch: nat -> (string, nat) -> Attempt)
    requires urls != []
    ensures ParallelSpec(urls, fetch).Ok?
    ensures |ParallelSpec(urls, fetch).value| == |urls|
    ensures forall i :: 0 <= i < |urls| ==> ParallelSpec(urls, fetch).value[i].url == urls[i]
  {
  }

  /** `int(argv[1])` clamped to `[1, 15]`; no argument, or one `int()` rejects, gives 5. */
  function ClampWorkers(arg: Option<string>): (n: int)
    ensures 1 <= n <= 15
    ensures arg.None? ==> n == 5
    ensures arg.Some? && Text.ParseInt(arg.value).None? ==> n == 5
    ensures arg.Some? && Text.ParseInt(arg.value).Some? ==>
      var v := Text.ParseInt(arg.value).value;
      (1 <= v <= 15 ==> n == v) && (v < 1 ==> n == 1) && (v > 15 ==> n == 15)
  {
    match arg
    case None => 5
    case Some(s) =>
      match Text.ParseInt(s)
      case None => 5
      case Some(v) => if v < 1 then 1 else if v > 15 then 15 else v
  }

  predicate Distinct(s: seq<nat>)
  {
    forall i, j :: 0 <= i < j < |s| ==> s[i] != s[j]
  }

  /** The tasks of `futures` whose future is not done, in submission order. */
  function Unfinished(futures: seq<nat>, finished: set<nat>): (r: seq<nat>)
    ensures |r| <= |futures|
    ensures forall x :: x in r <==> x in futures && x !in finished
    ensures Distinct(futures) ==> Distinct(r)
  {
    if futures == [] then []
    else
      var rest := Unfinished(futures[..|futures| - 1], finished);
      var last := futures[|futures| - 1];
      assert forall x :: x in futures <==> x in futures[..|futures| - 1] || x == last;
      if last in finished then rest else rest + [last]
  }

  /**
   * The polling loop and its pool. `futures` is the loop's dict from future
   * to task id; every future holds a different task, so it is kept as the
   * task ids in insertion order. `finished` holds the tasks whose future is
   * done, whether the worker returned or raised.
   */
  class BackgroundProcessor {
    var running: bool
    var maxWorkers: int
    var activeTasks: set<nat>
    var futures: seq<nat>
    var finished: set<nat>

    /** The active set is exactly the tasks with a future, one future per task, and the pool is never over-full. */
    ghost predicate Valid()
      reads this
    {
      && maxWorkers >= 1
      && Distinct(futures)
      && |futures| <= maxWorkers
      && (forall x :: x in activeTasks <==> x in futures)
      && finished <= activeTasks
    }

    /** `BackgroundProcessor(max_workers)`; the worker pool refuses fewer than one worker. */
    constructor (maxWorkers: int)
      requires maxWorkers >= 1
      ensures Valid() && !running && this.maxWorkers == maxWorkers
      ensures activeTasks == {} && futures == [] && finished == {}
    {
      running := false;
      this.maxWorkers := maxWorkers;
      activeTasks := {};
      futures := [];
      finished := {};
    }

    method Start()
      modifies this`running
      ensures running
    {
      if !running {
        running := true;
      }
    }

    method Stop()
      modifies this`running
      ensures !running
    {
      running := false;
    }

    /**
     * One pass of `_process_loop`: finished futures are dropped and their
     * tasks released, then the newest PENDING tasks not already held fill
     * the free slots, in the table's order.
     */
    method Round(store: Store)
      requires Valid() && running && store.Valid()
      modifies this`activeTasks, this`futures, this`finished
      ensures Valid()
      ensures var live := Unfinished(old(futures), old(finished));
        var pending := PendingIds(store.rows, old(activeTasks) - old(finished));
        var free := maxWorkers - |live|;
        var taken := if free < |pending| then free else |pending|;
        && futures == live + pending[..taken]
        && activeTasks == (old(activeTasks) - old(finished)) + (set x | x in pending[..taken])
        && finished == {}
    {
      Reap();
      var pending := PendingIds(store.rows, activeTasks);
      PendingDistinct(store.rows, activeTasks);
      var free := maxWorkers - |futures|;
      var taken := if free < |pending| then free else |pending|;
      Submit(pending, taken);
    }

    /** The first half of a round: every finished future is dropped and its task discarded from the active set. */
    method Reap()
      requires Valid()
      modifies this`activeTasks, this`futures, this`finished
      ensures Valid()
      ensures futures == Unfinished(old(futures), old(finished))
      ensures activeTasks == old(activeTasks) - old(finished) && finished == {}
    {
      var fs, done := futures, finished;
      var kept: seq<nat> := [];
      for i := 0 to |fs|
        invariant kept == Unfinished(fs[..i], done)
        invariant forall x :: x in activeTasks <==> x in old(activeTasks) && !(x in fs[..i] && x in done)
      {
        assert fs[..i + 1][..i] == fs[..i];
        if fs[i] in done {
          activeTasks := activeTasks - {fs[i]};
        } else {
          kept := kept + [fs[i]];
        }
      }
      assert fs[..|fs|] == fs;
      futures := kept;
      finished := {};
    }

    /** The second half of a round: the first `taken` of `pending` are submitted, in order. */
    method Submit(pending: seq<nat>, taken: nat)
      requires Valid() && running && finished == {}
      requires taken <= |pending| && |futures| + taken <= maxWorkers
      requires Distinct(pending)
      requires forall i :: 0 <= i < |pending| ==> pending[i] !in activeTasks
      modifies this`activeTasks, this`futures
      ensures Valid()
      ensures futures == old(futures) + pending[..taken]
      ensures activeTasks == old(activeTasks) + (set x | x in pending[..taken])
    {
      for i := 0 to taken
        invariant futures == old(futures) + pending[..i]
        invariant activeTasks == old(activeTasks) + (set x | x in pending[..i])
      {
        if !running {
          break;
        }
        var id := pending[i];
        futures := futures + [id];
        activeTasks := activeTasks + {id};
        assert pending[..i + 1] == pending[..i] + [id];
      }
      assert Distinct(futures) by {
        forall a, b | 0 <= a < b < |futures| ensures futures[a] != futures[b] {
          if b >= |old(futures)| && a < |old(futures)| {
            assert futures[b] == pending[b - |old(futures)|];
            assert futures[a] in old(activeTasks);
          }
        }
      }
    }

    /**
     * A worker runs `_process_single_task` for the task `id` it was handed;
     * its future then counts as done whatever the worker wrote.
     */
    method RunFuture(id: nat, store: Store, w: World, start: nat, now: nat) returns (message: string)
      requires Valid() && store.Valid() && id in futures && id !in finished
      requires CompletesAll(w.completion, if store.Get(id).Some? then |store.Get(id).value.urls| else 0)
      modifies this`finished, store`rows, store`history
      ensures Valid() && store.Valid() && finished == old(finished) + {id}
      ensures var (writes, m) := ProcessSpec(id, old(store.Get(id)), w, start, now);
        message == m && store.history == old(store.history) + writes
    {
      ghost var writes;
      message, writes := ProcessSingleTask(store, id, w, start, now);
      finished := finished + {id};
    }
  }

  /**
   * `_process_single_task(task)`: reload the row, stop if it was cancelled,
   * mark it PROCESSING, download in parallel, then merge, upload and record
   * the outcome. For a row that no longer exists the model only reports the
   * failure; the write-back of the stale copy as FAILED is not modelled.
   */
  method ProcessSingleTask(store: Store, id: nat, w: World, start: nat, now: nat)
    returns (message: string, ghost writes: seq<CombineLabelTask>)
    requires store.Valid()
    requires CompletesAll(w.completion, if store.Get(id).Some? then |store.Get(id).value.urls| else 0)
    modifies store`rows, store`history
    ensures (writes, message) == ProcessSpec(id, old(store.Get(id)), w, start, now)
    ensures store.Valid() && store.history == old(store.history) + writes
    ensures writes == [] ==> store.rows == old(store.rows)
    ensures writes != [] ==> store.Get(id) == Some(writes[|writes| - 1])
    ensures forall other :: other != id ==> store.Get(other) == old(store.Get(other))
  {
    var task := "Task " + Text.IntToString(id);
    var stored := store.Get(id);
    if stored.None? {
      return task + " failed: CombineLabelTask matching query does not exist.", [];
    }
    var t := stored.value;
    if t.status == Cancelled {
      return task + " was cancelled", [];
    }
    t := StartedRow(t, start);
    store.Save(t);
    ghost var saved := store.history;
    ghost var rest;
    message, rest := FinishStarted(store, id, t, w, now);
    writes := [t] + rest;
    HistoryAppend(old(store.history), [t], rest);
  }

  /** Everything after the PROCESSING write: download in parallel, then finish, or record the crash. */
  method FinishStarted(store: Store, id: nat, t: CombineLabelTask, w: World, now: nat)
    returns (message: string, ghost writes: seq<CombineLabelTask>)
    requires store.Valid() && t.id == id && store.Get(id) == Some(t)
    requires CompletesAll(w.completion, |t.urls|)
    modifies store`rows, store`history
    ensures (writes, message) == AfterStart(id, t, w, now) && |writes| == 1
    ensures store.Valid() && store.Get(id) == Some(writes[0])
    ensures store.history == old(store.history) + writes
    ensures forall other :: other != id ==> store.Get(other) == old(store.Get(other))
  {
    var task := "Task " + Text.IntToString(id);
    var downloads := DownloadPdfsParallel(t.urls, w.fetch, w.completion);
    if downloads.Err? {
      var crashed := CrashedRow(t, downloads.error, now);
      store.Save(crashed);
      return task + " failed: " + downloads.error, [crashed];
    }
    var row, outcome, _ := FinishTask(store, t, downloads.value, w.services, now);
    message := OutcomeMessage(id, outcome);
    writes := [row];
  }

  /**
   * A task cancelled before its worker reads it is left untouched; any
   * other stored task is first marked PROCESSING with its start time and
   * then ends COMPLETED or FAILED, and a task without URLs always fails.
   */
  lemma ProcessOutcome(id: nat, stored: Option<CombineLabelTask>, w: World, start: nat, now: nat)
    requires stored.Some? ==> stored.value.id == id
    ensures var (writes, _) := ProcessSpec(id, stored, w, start, now);
      && (writes == [] <==> stored.None? || stored.value.status == Cancelled)
      && (writes != [] ==>
            |writes| == 2
            && writes[0] == stored.value.(status := Processing, startedAt := Some(start))
            && writes[1].status in {Completed, Failed}
            && writes[1].completedAt == Some(now) && writes[1].startedAt == Some(start)
            && writes[1].id == id && writes[1].urls == stored.value.urls)
      && (writes != [] && stored.value.urls == [] ==>
            writes[1].status == Failed && writes[1].errorMessage == Some(ZeroWorkers))
  {
    if stored.Some? && stored.value.status != Cancelled {
      var started := StartedRow(stored.value, start);
      if stored.value.urls != [] {
        FinishIsTerminal(started, ParallelSpec(stored.value.urls, w.fetch).value, w.services, now);
      }
    }
  }

  /**
   * A task the worker completes has every URL accounted for once and at
   * least one merged.
   */
  lemma ProcessCompletedCounts(id: nat, t: CombineLabelTask, w: World, start: nat, now: nat)
    requires t.id == id && t.status != Cancelled
    ensures var (writes, _) := ProcessSpec(id, Some(t), w, start, now);
      writes[1].status == Completed ==>
        writes[1].successfulCount >= 1
        && writes[1].successfulCount + writes[1].failedCount == |t.urls|
  {
    if t.urls != [] {
      var started := StartedRow(t, start);
      var downloads := ParallelSpec(t.urls, w.fetch).value;
      FinishIsTerminal(started, downloads, w.services, now);
      FinishCounts(started, downloads, w.services, now);
    }
  }
}
