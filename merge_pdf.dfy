/**
 * `merge_pdf_files`: the download results are split into the URLs that can
 * be merged and the URLs that failed, the survivors are appended to one
 * merger, and the merged document is returned with both lists.
 *
 * PyPDF2 is an oracle: the merger may fail when it is created, when one
 * document is appended (that document then moves to the failed list), or
 * when the merged document is written.
 */
module MergePdf {
  import opened Wrappers
  import opened Models
  import opened DownloadPdf

  /** Where PyPDF2 raises, by position in `pdf_results` for the per-file append. */
  datatype MergeFaults = MergeFaults(
    createError: Option<string>,
    appendError: nat -> Option<string>,
    writeError: Option<string>)

  /** The dict `merge_pdf_files` returns; `buffer` holds the documents merged, in order. */
  datatype MergeResult = MergeResult(
    success: bool,
    buffer: Option<seq<Pdf>>,
    successfulUrls: seq<string>,
    failedUrls: seq<FailedUrl>,
    error: Option<string>)

  /** The URLs of the successful downloads among `results[lo..hi]`, in order. */
  function SuccessBetween(results: seq<DownloadResult>, lo: nat, hi: nat): (r: seq<string>)
    requires lo <= hi <= |results|
    ensures |r| <= hi - lo
    decreases hi
  {
    if hi == lo then []
    else SuccessBetween(results, lo, hi - 1) + (if results[hi - 1].Downloaded? then [results[hi - 1].url] else [])
  }

  function SuccessUrls(results: seq<DownloadResult>): seq<string>
  {
    SuccessBetween(results, 0, |results|)
  }

  /** `{'url', 'error'}` for each failed download among `results[..n]`, in order. */
  function DownloadFailures(results: seq<DownloadResult>, n: nat): seq<FailedUrl>
    requires n <= |results|
  {
    if n == 0 then []
    else
      DownloadFailures(results, n - 1)
      + (if results[n - 1].NotDownloaded? then [FailedUrl(results[n - 1].url, results[n - 1].error)] else [])
  }

  /** Downloads among `results[..n]` whose append to the merger raised. */
  function Rejected(results: seq<DownloadResult>, appendError: nat -> Option<string>, n: nat): seq<FailedUrl>
    requires n <= |results|
  {
    if n == 0 then []
    else
      Rejected(results, appendError, n - 1)
      + (if results[n - 1].Downloaded? && appendError(n - 1).Some?
         then [FailedUrl(results[n - 1].url, "Error during merge: " + appendError(n - 1).value)]
         else [])
  }

  /** URLs of downloads among `results[..n]` that were appended to the merger. */
  function KeptUrls(results: seq<DownloadResult>, appendError: nat -> Option<string>, n: nat): seq<string>
    requires n <= |results|
  {
    if n == 0 then []
    else
      KeptUrls(results, appendError, n - 1)
      + (if results[n - 1].Downloaded? && appendError(n - 1).None? then [results[n - 1].url] else [])
  }

  /** The documents appended to the merger, in order. */
  function KeptData(results: seq<DownloadResult>, appendError: nat -> Option<string>, n: nat): seq<Pdf>
    requires n <= |results|
  {
    if n == 0 then []
    else
      KeptData(results, appendError, n - 1)
      + (if results[n - 1].Downloaded? && appendError(n - 1).None? then [results[n - 1].data] else [])
  }

  function UrlsOf(fs: seq<FailedUrl>): (r: seq<string>)
    ensures |r| == |fs| && forall i :: 0 <= i < |fs| ==> r[i] == fs[i].url
  {
    seq(|fs|, i requires 0 <= i < |fs| => fs[i].url)
  }

  /** Python's `list.remove(x)`: drops the first occurrence. */
  function RemoveFirst(s: seq<string>, x: string): (r: seq<string>)
    ensures x in s ==> |r| == |s| - 1
    ensures x !in s ==> r == s
  {
    if s == [] then []
    else if s[0] == x then s[1..]
    else [s[0]] + RemoveFirst(s[1..], x)
  }

  lemma {:induction false} RemoveFirstMultiset(s: seq<string>, x: string)
    requires x in s
    ensures multiset(RemoveFirst(s, x)) == multiset(s) - multiset{x}
  {
    assert s == [s[0]] + s[1..];
    if s[0] != x {
      RemoveFirstMultiset(s[1..], x);
    }
  }

  /** Every result of `results[..n]` is counted once: as a failed download, kept, or rejected. */
  lemma {:induction false} Counts(results: seq<DownloadResult>, err: nat -> Option<string>, n: nat)
    requires n <= |results|
    ensures |DownloadFailures(results, n)| + |SuccessBetween(results, 0, n)| == n
    ensures |KeptUrls(results, err, n)| + |Rejected(results, err, n)| == |SuccessBetween(results, 0, n)|
    ensures |KeptData(results, err, n)| == |KeptUrls(results, err, n)|
  {
    if n > 0 {
      Counts(results, err, n - 1);
    }
  }

  lemma {:induction false} KeptAreSuccessful(results: seq<DownloadResult>, err: nat -> Option<string>, n: nat)
    requires n <= |results|
    ensures forall u :: u in KeptUrls(results, err, n) ==> u in SuccessBetween(results, 0, n)
  {
    if n > 0 {
      KeptAreSuccessful(results, err, n - 1);
    }
  }

  /**
   * `successful_urls` after the merge loop has visited `results[..n]`: each
   * download whose append raised is removed with `remove`.
   */
  function Surviving(results: seq<DownloadResult>, appendError: nat -> Option<string>, n: nat): seq<string>
    requires n <= |results|
  {
    if n == 0 then SuccessUrls(results)
    else if results[n - 1].Downloaded? && appendError(n - 1).Some? then
      RemoveFirst(Surviving(results, appendError, n - 1), results[n - 1].url)
    else Surviving(results, appendError, n - 1)
  }

  /** The except branch: every URL still counted as successful is reported as failed. */
  function FailedDuringMerge(urls: seq<string>): (r: seq<FailedUrl>)
    ensures |r| == |urls| && forall i :: 0 <= i < |urls| ==> r[i] == FailedUrl(urls[i], "Failed during merge process")
  {
    seq(|urls|, i requires 0 <= i < |urls| => FailedUrl(urls[i], "Failed during merge process"))
  }

  /** What `merge_pdf_files` returns for `results` under the faults `f`. */
  function MergeSpec(results: seq<DownloadResult>, f: MergeFaults): MergeResult
  {
    var succ0 := SuccessUrls(results);
    var fail0 := DownloadFailures(results, |results|);
    if succ0 == [] then
      MergeResult(false, None, [], fail0, Some("No PDFs were successfully downloaded"))
    else if f.createError.Some? then
      MergeResult(false, None, [], fail0 + FailedDuringMerge(succ0), Some("Error during PDF merge: " + f.createError.value))
    else
      AfterAppend(
        Surviving(results, f.appendError, |results|),
        fail0 + Rejected(results, f.appendError, |results|),
        KeptData(results, f.appendError, |results|),
        f.writeError)
  }

  /** The end of `merge_pdf_files` once every download has been offered to the merger. */
  function AfterAppend(succ: seq<string>, fail: seq<FailedUrl>, merged: seq<Pdf>, writeError: Option<string>): MergeResult
  {
    if succ == [] then
      MergeResult(false, None, [], fail, Some("All PDFs failed during merge process"))
    else if writeError.Some? then
      MergeResult(false, None, [], fail + FailedDuringMerge(succ), Some("Error during PDF merge: " + writeError.value))
    else
      MergeResult(true, Some(merged), succ, fail, None)
  }

  method MergePdfFiles(results: seq<DownloadResult>, f: MergeFaults) returns (r: MergeResult)
    ensures r == MergeSpec(results, f)
  {
    var successful: seq<string> := [];
    var failed: seq<FailedUrl> := [];
    for i := 0 to |results|
      invariant successful == SuccessBetween(results, 0, i)
      invariant failed == DownloadFailures(results, i)
    {
      match results[i]
      case Downloaded(url, _) =>
        successful := successful + [url];
      case NotDownloaded(url, error) =>
        failed := failed + [FailedUrl(url, error)];
    }
    if successful == [] {
      return MergeResult(false, None, [], failed, Some("No PDFs were successfully downloaded"));
    }
    if f.createError.Some? {
      return MergeResult(false, None, [], failed + FailedDuringMerge(successful),
        Some("Error during PDF merge: " + f.createError.value));
    }
    var merged: seq<Pdf> := [];
    ghost var fail0 := failed;
    for i := 0 to |results|
      invariant successful == Surviving(results, f.appendError, i)
      invariant failed == fail0 + Rejected(results, f.appendError, i)
      invariant merged == KeptData(results, f.appendError, i)
    {
      ghost var before := Rejected(results, f.appendError, i);
      if results[i].Downloaded? {
        match f.appendError(i)
        case None =>
          merged := merged + [results[i].data];
          assert Rejected(results, f.appendError, i + 1) == before;
        case Some(e) =>
          var url := results[i].url;
          successful := RemoveFirst(successful, url);
          failed := failed + [FailedUrl(url, "Error during merge: " + e)];
      } else {
        assert Rejected(results, f.appendError, i + 1) == before;
      }
    }
    if successful == [] {
      return MergeResult(false, None, [], failed, Some("All PDFs failed during merge process"));
    }
    if f.writeError.Some? {
      return MergeResult(false, None, [], failed + FailedDuringMerge(successful),
        Some("Error during PDF merge: " + f.writeError.value));
    }
    r := MergeResult(true, Some(merged), successful, failed, None);
  }

  lemma {:induction false} SuccessSplit(results: seq<DownloadResult>, lo: nat, mid: nat, hi: nat)
    requires lo <= mid <= hi <= |results|
    ensures SuccessBetween(results, lo, hi) == SuccessBetween(results, lo, mid) + SuccessBetween(results, mid, hi)
    decreases hi
  {
    if hi > mid {
      SuccessSplit(results, lo, mid, hi - 1);
    }
  }

  /**
   * Each merge-time removal finds its URL: what is still counted successful
   * after `n` results is the kept URLs plus the successful URLs not reached yet.
   */
  lemma RemovalsFind(results: seq<DownloadResult>, err: nat -> Option<string>, n: nat)
    requires n <= |results|
    ensures Counted(results, err, n)
  {
    CountedBase(results, err);
    for i := 0 to n
      invariant Counted(results, err, i)
    {
      CountedStep(results, err, i);
    }
  }

  lemma CountedBase(results: seq<DownloadResult>, err: nat -> Option<string>)
    ensures Counted(results, err, 0)
  {
    assert Surviving(results, err, 0) == SuccessBetween(results, 0, |results|);
    assert KeptUrls(results, err, 0) == [];
  }

  lemma CountedStep(results: seq<DownloadResult>, err: nat -> Option<string>, k: nat)
    requires k < |results|
    ensures Counted(results, err, k) ==> Counted(results, err, k + 1)
  {
    if Counted(results, err, k) {
      if results[k].NotDownloaded? {
        CountedSkipped(results, err, k);
      } else if err(k).Some? {
        CountedRejected(results, err, k);
      } else {
        CountedKept(results, err, k);
      }
    }
  }

  /** What `RemovalsFind` states after `n` results. */
  predicate Counted(results: seq<DownloadResult>, err: nat -> Option<string>, n: nat)
    requires n <= |results|
  {
    multiset(Surviving(results, err, n))
      == multiset(KeptUrls(results, err, n)) + multiset(SuccessBetween(results, n, |results|))
  }

  lemma CountedSkipped(results: seq<DownloadResult>, err: nat -> Option<string>, k: nat)
    requires k < |results| && results[k].NotDownloaded? && Counted(results, err, k)
    ensures Counted(results, err, k + 1)
  {
    StepSkipped(results, err, k);
    assert Surviving(results, err, k + 1) == Surviving(results, err, k);
    assert KeptUrls(results, err, k + 1) == KeptUrls(results, err, k);
    assert SuccessBetween(results, k, |results|) == SuccessBetween(results, k + 1, |results|);
  }

  lemma CountedRejected(results: seq<DownloadResult>, err: nat -> Option<string>, k: nat)
    requires k < |results| && results[k].Downloaded? && err(k).Some? && Counted(results, err, k)
    ensures Counted(results, err, k + 1)
  {
    StepRejected(results, err, k);
    var rest := Surviving(results, err, k);
    RemoveCounted(rest, KeptUrls(results, err, k), SuccessBetween(results, k, |results|), results[k].url,
                  SuccessBetween(results, k + 1, |results|));
    assert Surviving(results, err, k + 1) == RemoveFirst(rest, results[k].url);
    assert KeptUrls(results, err, k + 1) == KeptUrls(results, err, k);
  }

  lemma CountedKept(results: seq<DownloadResult>, err: nat -> Option<string>, k: nat)
    requires k < |results| && results[k].Downloaded? && err(k).None? && Counted(results, err, k)
    ensures Counted(results, err, k + 1)
  {
    StepKept(results, err, k);
    var kept := KeptUrls(results, err, k);
    KeepCounted(Surviving(results, err, k), kept, SuccessBetween(results, k, |results|), results[k].url,
                SuccessBetween(results, k + 1, |results|));
    assert Surviving(results, err, k + 1) == Surviving(results, err, k);
    assert KeptUrls(results, err, k + 1) == kept + [results[k].url];
  }

  lemma RemoveCounted(rest: seq<string>, kept: seq<string>, mid: seq<string>, u: string, tail: seq<string>)
    requires multiset(rest) == multiset(kept) + multiset(mid) && mid == [u] + tail
    ensures multiset(RemoveFirst(rest, u)) == multiset(kept) + multiset(tail)
  {
    assert multiset([u] + tail) == multiset{u} + multiset(tail);
    assert u in multiset(rest);
    RemoveFirstMultiset(rest, u);
  }

  lemma KeepCounted(rest: seq<string>, kept: seq<string>, mid: seq<string>, u: string, tail: seq<string>)
    requires multiset(rest) == multiset(kept) + multiset(mid) && mid == [u] + tail
    ensures multiset(rest) == multiset(kept + [u]) + multiset(tail)
  {
    assert multiset([u] + tail) == multiset{u} + multiset(tail);
    assert multiset(kept + [u]) == multiset(kept) + multiset{u};
  }

  /** How one more result changes the merge loop's state. */
  lemma StepRejected(results: seq<DownloadResult>, err: nat -> Option<string>, k: nat)
    requires k < |results| && results[k].Downloaded? && err(k).Some?
    ensures SuccessBetween(results, k, |results|) == [results[k].url] + SuccessBetween(results, k + 1, |results|)
    ensures Surviving(results, err, k + 1) == RemoveFirst(Surviving(results, err, k), results[k].url)
    ensures KeptUrls(results, err, k + 1) == KeptUrls(results, err, k)
  {
    SuccessSplit(results, k, k + 1, |results|);
  }

  lemma StepKept(results: seq<DownloadResult>, err: nat -> Option<string>, k: nat)
    requires k < |results| && results[k].Downloaded? && err(k).None?
    ensures SuccessBetween(results, k, |results|) == [results[k].url] + SuccessBetween(results, k + 1, |results|)
    ensures Surviving(results, err, k + 1) == Surviving(results, err, k)
    ensures KeptUrls(results, err, k + 1) == KeptUrls(results, err, k) + [results[k].url]
  {
    SuccessSplit(results, k, k + 1, |results|);
  }

  lemma StepSkipped(results: seq<DownloadResult>, err: nat -> Option<string>, k: nat)
    requires k < |results| && results[k].NotDownloaded?
    ensures SuccessBetween(results, k, |results|) == SuccessBetween(results, k + 1, |results|)
    ensures Surviving(results, err, k + 1) == Surviving(results, err, k)
    ensures KeptUrls(results, err, k + 1) == KeptUrls(results, err, k)
  {
    SuccessSplit(results, k, k + 1, |results|);
  }

  /** The URLs of `results[..n]`, in order: `pdf_results`' `url` keys. */
  function InputUrls(results: seq<DownloadResult>, n: nat): (r: seq<string>)
    requires n <= |results|
    ensures |r| == n
  {
    if n == 0 then [] else InputUrls(results, n - 1) + [results[n - 1].url]
  }

  /** The URLs `r` reports as merged and as failed are, together, `all`. */
  predicate Partitions(r: MergeResult, all: multiset<string>)
  {
    multiset(r.successfulUrls) + multiset(UrlsOf(r.failedUrls)) == all
  }

  /**
   * In every branch each input URL is reported exactly once: the URLs
   * reported as merged and those reported as failed are, together, the
   * input URLs with their multiplicities.
   */
  lemma MergePartition(results: seq<DownloadResult>, f: MergeFaults)
    ensures Partitions(MergeSpec(results, f), multiset(InputUrls(results, |results|)))
    ensures |MergeSpec(results, f).successfulUrls| + |MergeSpec(results, f).failedUrls| == |results|
  {
    var n := |results|;
    var succ0 := SuccessUrls(results);
    var fail0 := DownloadFailures(results, n);
    var all := multiset(InputUrls(results, n));
    DownloadsSplit(results, n);
    if succ0 != [] && f.createError.None? {
      var surv := Surviving(results, f.appendError, n);
      var rejected := Rejected(results, f.appendError, n);
      AppendsSplit(results, f.appendError, n);
      SurvivorsAreKept(results, f.appendError);
      AfterAppendReported(surv, fail0, rejected, KeptData(results, f.appendError, n), f.writeError,
                          multiset(succ0), all);
    } else if succ0 != [] {
      Reported([], succ0, fail0, [], multiset(succ0), all);
      assert fail0 + [] == fail0;
    } else {
      assert multiset(UrlsOf(fail0)) == all;
    }
    PartitionCount(MergeSpec(results, f), InputUrls(results, n));
  }

  lemma PartitionCount(r: MergeResult, urls: seq<string>)
    requires Partitions(r, multiset(urls))
    ensures |r.successfulUrls| + |r.failedUrls| == |urls|
  {
    assert |multiset(r.successfulUrls)| == |r.successfulUrls|;
    assert |multiset(UrlsOf(r.failedUrls))| == |r.failedUrls|;
    assert |multiset(urls)| == |urls|;
    assert |multiset(r.successfulUrls) + multiset(UrlsOf(r.failedUrls))|
      == |multiset(r.successfulUrls)| + |multiset(UrlsOf(r.failedUrls))|;
  }

  /** The three ends of the append branch each report every successful download once. */
  lemma AfterAppendReported(surv: seq<string>, fail0: seq<FailedUrl>, rejected: seq<FailedUrl>, merged: seq<Pdf>,
                            writeError: Option<string>, succ: multiset<string>, all: multiset<string>)
    requires multiset(surv) + multiset(UrlsOf(rejected)) == succ
    requires succ + multiset(UrlsOf(fail0)) == all
    ensures Partitions(AfterAppend(surv, fail0 + rejected, merged, writeError), all)
  {
    if surv != [] && writeError.Some? {
      Reported([], surv, fail0, rejected, succ, all);
    } else {
      UrlsOfAppend(fail0, rejected);
    }
  }

  /**
   * The end of every failing branch: `merged` is reported successful,
   * `dropped` is reported failed after the download and append failures,
   * and together with the append failures they are the successful downloads.
   */
  lemma Reported(merged: seq<string>, dropped: seq<string>, fail0: seq<FailedUrl>, rejected: seq<FailedUrl>,
                 succ: multiset<string>, all: multiset<string>)
    requires multiset(merged) + multiset(dropped) + multiset(UrlsOf(rejected)) == succ
    requires succ + multiset(UrlsOf(fail0)) == all
    ensures multiset(merged) + multiset(UrlsOf(fail0 + rejected + FailedDuringMerge(dropped))) == all
  {
    UrlsOfAppend(fail0, rejected);
    UrlsOfAppend(fail0 + rejected, FailedDuringMerge(dropped));
    assert UrlsOf(FailedDuringMerge(dropped)) == dropped;
  }

  lemma UrlsOfAppend(a: seq<FailedUrl>, b: seq<FailedUrl>)
    ensures UrlsOf(a + b) == UrlsOf(a) + UrlsOf(b)
  {
  }

  /** The download step splits `results[..n]`' URLs into successful downloads and failed ones. */
  lemma DownloadsSplit(results: seq<DownloadResult>, n: nat)
    requires n <= |results|
    ensures DownloadsSplitAt(results, n)
  {
    for i := 0 to n
      invariant DownloadsSplitAt(results, i)
    {
      DownloadsStep(results, i);
    }
  }

  /** What `DownloadsSplit` states after `n` results. */
  predicate DownloadsSplitAt(results: seq<DownloadResult>, n: nat)
    requires n <= |results|
  {
    multiset(SuccessBetween(results, 0, n)) + multiset(UrlsOf(DownloadFailures(results, n)))
      == multiset(InputUrls(results, n))
  }

  lemma DownloadsStep(results: seq<DownloadResult>, k: nat)
    requires k < |results|
    ensures DownloadsSplitAt(results, k) ==> DownloadsSplitAt(results, k + 1)
  {
    if DownloadsSplitAt(results, k) {
      var x := results[k];
      var a, b, c := SuccessBetween(results, 0, k), DownloadFailures(results, k), InputUrls(results, k);
      assert InputUrls(results, k + 1) == c + [x.url];
      if x.Downloaded? {
        assert SuccessBetween(results, 0, k + 1) == a + [x.url];
        assert DownloadFailures(results, k + 1) == b + [];
        SplitStep(a, b, c, [x.url], [], [x.url]);
      } else {
        assert SuccessBetween(results, 0, k + 1) == a + [];
        assert DownloadFailures(results, k + 1) == b + [FailedUrl(x.url, x.error)];
        SplitStep(a, b, c, [], [FailedUrl(x.url, x.error)], [x.url]);
      }
    }
  }

  /** The append step splits the successful downloads among `results[..n]` into kept and rejected ones. */
  lemma AppendsSplit(results: seq<DownloadResult>, err: nat -> Option<string>, n: nat)
    requires n <= |results|
    ensures AppendsSplitAt(results, err, n)
  {
    for i := 0 to n
      invariant AppendsSplitAt(results, err, i)
    {
      AppendsStep(results, err, i);
    }
  }

  /** What `AppendsSplit` states after `n` results. */
  predicate AppendsSplitAt(results: seq<DownloadResult>, err: nat -> Option<string>, n: nat)
    requires n <= |results|
  {
    multiset(KeptUrls(results, err, n)) + multiset(UrlsOf(Rejected(results, err, n)))
      == multiset(SuccessBetween(results, 0, n))
  }

  lemma AppendsStep(results: seq<DownloadResult>, err: nat -> Option<string>, k: nat)
    requires k < |results|
    ensures AppendsSplitAt(results, err, k) ==> AppendsSplitAt(results, err, k + 1)
  {
    if AppendsSplitAt(results, err, k) {
      var x := results[k];
      var a, b, c := KeptUrls(results, err, k), Rejected(results, err, k), SuccessBetween(results, 0, k);
      if x.NotDownloaded? {
        assert KeptUrls(results, err, k + 1) == a + [];
        assert Rejected(results, err, k + 1) == b + [];
        assert SuccessBetween(results, 0, k + 1) == c + [];
        SplitStep(a, b, c, [], [], []);
      } else if err(k).Some? {
        var f := FailedUrl(x.url, "Error during merge: " + err(k).value);
        assert KeptUrls(results, err, k + 1) == a + [];
        assert Rejected(results, err, k + 1) == b + [f];
        assert SuccessBetween(results, 0, k + 1) == c + [x.url];
        SplitStep(a, b, c, [], [f], [x.url]);
      } else {
        assert KeptUrls(results, err, k + 1) == a + [x.url];
        assert Rejected(results, err, k + 1) == b + [];
        assert SuccessBetween(results, 0, k + 1) == c + [x.url];
        SplitStep(a, b, c, [x.url], [], [x.url]);
      }
    }
  }

  /** Two splits of a whole into named URLs and failure entries add up to a split of the concatenation. */
  lemma SplitStep(a: seq<string>, b: seq<FailedUrl>, c: seq<string>, s: seq<string>, fs: seq<FailedUrl>, u: seq<string>)
    requires multiset(a) + multiset(UrlsOf(b)) == multiset(c)
    requires multiset(s) + multiset(UrlsOf(fs)) == multiset(u)
    ensures multiset(a + s) + multiset(UrlsOf(b + fs)) == multiset(c + u)
  {
    UrlsOfAppend(b, fs);
  }

  /** After the merge loop the URLs still counted successful are, as a multiset, the kept ones. */
  lemma SurvivorsAreKept(results: seq<DownloadResult>, err: nat -> Option<string>)
    ensures multiset(Surviving(results, err, |results|)) == multiset(KeptUrls(results, err, |results|))
  {
    var n := |results|;
    RemovalsFind(results, err, n);
    NothingAfterEnd(results);
    assert multiset(SuccessBetween(results, n, n)) == multiset{};
  }

  /** After the merge loop, one URL is left per download that was appended. */
  lemma SurvivorCount(results: seq<DownloadResult>, err: nat -> Option<string>)
    ensures |Surviving(results, err, |results|)| + |Rejected(results, err, |results|)| == |SuccessUrls(results)|
  {
    var n := |results|;
    var surv := Surviving(results, err, n);
    RemovalsFind(results, err, n);
    Counts(results, err, n);
    assert SuccessBetween(results, n, n) == [];
    assert multiset(surv) == multiset(KeptUrls(results, err, n)) + multiset([]);
    assert |surv| == |multiset(surv)|;
  }

  /** `success` is false exactly when no URL survives; failures carry the error and an empty URL list. */
  lemma MergeSuccessIff(results: seq<DownloadResult>, f: MergeFaults)
    ensures var r := MergeSpec(results, f);
      (r.success <==> r.successfulUrls != [])
      && (r.success <==> r.buffer.Some?)
      && (!r.success <==> r.error.Some?)
  {
  }

  /** On success the buffer holds exactly the appended documents, one per surviving URL. */
  lemma MergeBuffer(results: seq<DownloadResult>, f: MergeFaults)
    requires MergeSpec(results, f).success
    ensures MergeSpec(results, f).buffer == Some(KeptData(results, f.appendError, |results|))
    ensures |MergeSpec(results, f).buffer.value| == |MergeSpec(results, f).successfulUrls|
    ensures MergeSpec(results, f).successfulUrls == Surviving(results, f.appendError, |results|)
  {
    var n := |results|;
    var surv := Surviving(results, f.appendError, n);
    SurvivorCount(results, f.appendError);
    Counts(results, f.appendError, n);
    assert MergeSpec(results, f).successfulUrls == surv;
    assert MergeSpec(results, f).buffer == Some(KeptData(results, f.appendError, n));
  }

  /** Download failures come first in `failed_urls`, with their own error text. */
  lemma MergeFailuresFirst(results: seq<DownloadResult>, f: MergeFaults)
    ensures var fails := DownloadFailures(results, |results|);
      MergeSpec(results, f).failedUrls[..|fails|] == fails
  {
    var fail0 := DownloadFailures(results, |results|);
    var succ0 := SuccessUrls(results);
    var r := MergeSpec(results, f);
    if succ0 == [] {
      PrefixOfAppend(fail0, []);
    } else if f.createError.Some? {
      PrefixOfAppend(fail0, FailedDuringMerge(succ0));
    } else {
      var surv := Surviving(results, f.appendError, |results|);
      var rejected := Rejected(results, f.appendError, |results|);
      if surv != [] && f.writeError.Some? {
        PrefixOfAppend3(fail0, rejected, FailedDuringMerge(surv));
      } else {
        PrefixOfAppend(fail0, rejected);
      }
    }
  }

  lemma PrefixOfAppend(a: seq<FailedUrl>, b: seq<FailedUrl>)
    ensures (a + b)[..|a|] == a
  {
  }

  lemma PrefixOfAppend3(a: seq<FailedUrl>, b: seq<FailedUrl>, c: seq<FailedUrl>)
    ensures (a + b + c)[..|a|] == a
  {
    assert a + b + c == a + (b + c);
  }

  lemma {:induction false} RemoveFirstAfter(a: seq<string>, u: string, b: seq<string>)
    requires u !in a
    ensures RemoveFirst(a + [u] + b, u) == a + b
  {
    if a != [] {
      var s := a + [u] + b;
      assert s[0] == a[0] != u;
      assert s[1..] == a[1..] + [u] + b;
      RemoveFirstAfter(a[1..], u, b);
      assert RemoveFirst(s, u) == [a[0]] + (a[1..] + b);
      ConsSplit(a, b);
    }
  }

  lemma ConsSplit(a: seq<string>, b: seq<string>)
    requires a != []
    ensures [a[0]] + (a[1..] + b) == a + b
  {
    assert a == [a[0]] + a[1..];
  }

  predicate Distinct(s: seq<string>)
  {
    forall i, j :: 0 <= i < j < |s| ==> s[i] != s[j]
  }

  lemma {:induction false} KeepOrder(results: seq<DownloadResult>, err: nat -> Option<string>, n: nat)
    requires n <= |results| && Distinct(SuccessUrls(results))
    ensures Surviving(results, err, n) == KeptUrls(results, err, n) + SuccessBetween(results, n, |results|)
  {
    if n == 0 {
      SuccessSplit(results, 0, 0, |results|);
    } else {
      var k := n - 1;
      KeepOrder(results, err, k);
      if results[k].NotDownloaded? {
        StepSkipped(results, err, k);
      } else if err(k).Some? {
        StepRejected(results, err, k);
        NotKeptYet(results, err, k);
        OrderAfterReject(Surviving(results, err, k), KeptUrls(results, err, k), SuccessBetween(results, k, |results|),
          results[k].url, SuccessBetween(results, n, |results|));
      } else {
        StepKept(results, err, k);
        OrderAfterKeep(Surviving(results, err, k), KeptUrls(results, err, k), SuccessBetween(results, k, |results|),
          results[k].url, SuccessBetween(results, n, |results|));
      }
    }
  }

  lemma OrderAfterReject(rest: seq<string>, kept: seq<string>, mid: seq<string>, u: string, tail: seq<string>)
    requires rest == kept + mid && mid == [u] + tail && u !in kept
    ensures RemoveFirst(rest, u) == kept + tail
  {
    assert rest == kept + [u] + tail;
    RemoveFirstAfter(kept, u, tail);
  }

  lemma OrderAfterKeep(rest: seq<string>, kept: seq<string>, mid: seq<string>, u: string, tail: seq<string>)
    requires rest == kept + mid && mid == [u] + tail
    ensures rest == (kept + [u]) + tail
  {
  }

  /** With distinct URLs, a download's URL is not among those kept before it. */
  lemma NotKeptYet(results: seq<DownloadResult>, err: nat -> Option<string>, k: nat)
    requires k < |results| && results[k].Downloaded? && Distinct(SuccessUrls(results))
    ensures results[k].url !in KeptUrls(results, err, k)
  {
    SuccessSplit(results, 0, k, |results|);
    SuccessSplit(results, k, k + 1, |results|);
    KeptAreSuccessful(results, err, k);
    DistinctSplit(SuccessBetween(results, 0, k), SuccessBetween(results, k, |results|));
    assert results[k].url in SuccessBetween(results, k, |results|);
  }

  lemma DistinctSplit(a: seq<string>, b: seq<string>)
    requires Distinct(a + b)
    ensures forall x :: x in a ==> x !in b
  {
    forall x | x in a ensures x !in b {
      var i :| 0 <= i < |a| && a[i] == x;
      assert (a + b)[i] == x;
      forall j | 0 <= j < |b| ensures b[j] != x {
        assert (a + b)[|a| + j] == b[j];
      }
    }
  }

  /** With distinct URLs, `successful_urls` is the appended URLs in input order. */
  lemma MergeKeepsOrder(results: seq<DownloadResult>, f: MergeFaults)
    requires Distinct(SuccessUrls(results)) && MergeSpec(results, f).success
    ensures MergeSpec(results, f).successfulUrls == KeptUrls(results, f.appendError, |results|)
  {
    KeptAtEnd(results, f.appendError);
    MergeBuffer(results, f);
  }

  lemma KeptAtEnd(results: seq<DownloadResult>, err: nat -> Option<string>)
    requires Distinct(SuccessUrls(results))
    ensures Surviving(results, err, |results|) == KeptUrls(results, err, |results|)
  {
    var n := |results|;
    KeepOrder(results, err, n);
    NothingAfterEnd(results);
    DropEmptyTail(Surviving(results, err, n), KeptUrls(results, err, n), SuccessBetween(results, n, n));
  }

  lemma DropEmptyTail(surv: seq<string>, kept: seq<string>, tail: seq<string>)
    requires surv == kept + tail && tail == []
    ensures surv == kept
  {
  }

  lemma NothingAfterEnd(results: seq<DownloadResult>)
    ensures SuccessBetween(results, |results|, |results|) == []
  {
  }

  /**
   * `remove` drops the first equal URL, not the one that failed: with a
   * URL listed twice and only its second copy failing to append, the
   * survivors come out in a different order than the input.
   */
  lemma DuplicateUrlReordered()
    ensures var a := Downloaded("a", Pdf([1]));
      var b := Downloaded("b", Pdf([2]));
      var f := MergeFaults(None, k => if k == 2 then Some("bad") else None, None);
      MergeSpec([a, b, a], f).successfulUrls == ["b", "a"]
      && KeptUrls([a, b, a], f.appendError, 3) == ["a", "b"]
  {
    var a := Downloaded("a", Pdf([1]));
    var b := Downloaded("b", Pdf([2]));
    var rs := [a, b, a];
    var f := MergeFaults(None, k => if k == 2 then Some("bad") else None, None);
    assert SuccessBetween(rs, 0, 1) == ["a"];
    assert SuccessBetween(rs, 0, 2) == ["a", "b"];
    assert SuccessUrls(rs) == ["a", "b", "a"];
    assert Surviving(rs, f.appendError, 0) == ["a", "b", "a"];
    assert Surviving(rs, f.appendError, 1) == ["a", "b", "a"];
    assert Surviving(rs, f.appendError, 2) == ["a", "b", "a"];
    assert RemoveFirst(["a", "b", "a"], "a") == ["b", "a"];
    assert KeptUrls(rs, f.appendError, 0) == [];
    assert KeptUrls(rs, f.appendError, 1) == ["a"];
    assert KeptUrls(rs, f.appendError, 2) == ["a", "b"];
    assert KeptUrls(rs, f.appendError, 3) == ["a", "b"];
  }
}
