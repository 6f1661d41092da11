/**
 * The part of the CombineLabel pipeline that the background processor and
 * the Celery task share once the downloads are in: merge, build the Drive
 * client, upload, and write the task's terminal row.
 *
 * `GoogleDriveService()` authenticates when it is built and may raise; the
 * exception then reaches the caller's catch-all handler, which marks the
 * task FAILED with the exception text.
 */
module Pipeline {
  import opened Wrappers
  import opened Models
  import opened DownloadPdf
  import opened MergePdf
  import opened GoogleApi
  import opened TaskStore
  import Text

  /**
   * The outside world after the downloads: PyPDF2's faults, authentication,
   * Drive, and the clock at the upload as `strftime('%Y%m%d_%H%M%S')` gives it.
   */
  datatype Services = Services(faults: MergeFaults, authError: Option<string>, drive: nat -> DriveCall, stamp: string)

  /** The Drive file name of task `id`'s merged labels, uploaded at `stamp`. */
  function DriveFileName(id: int, stamp: string): string
  {
    "combined_labels_" + Text.IntToString(id) + "_" + stamp + ".pdf"
  }

  /** How the shared tail ends, before each caller turns it into its own return value. */
  datatype Outcome =
    | MergeFailedWith(error: string)
    | Raised(error: string)
    | UploadFailedWith(error: string)
    | Uploaded(link: Option<string>, successfulCount: nat, failedCount: nat)

  /** `download_pdf_from_url(url)` with its default of three attempts, which always returns. */
  function DownloadWithDefaults(url: string, fetch: (string, nat) -> Attempt): (r: DownloadResult)
    ensures r.url == url
    ensures r.Downloaded? ==> exists k :: 0 <= k < 3 && fetch(ConvertGoogleDriveUrl(url), k) == Fetched(r.data, None)
  {
    AttemptsBounded(url, 3, fetch, 0);
    DownloadedFrom(url, fetch, 0);
    DownloadFrom(url, 3, fetch, 0).value
  }

  /** Each URL downloaded on its own, in URL order. */
  function EachDownloaded(urls: seq<string>, fetch: nat -> (string, nat) -> Attempt): (r: seq<DownloadResult>)
    ensures |r| == |urls|
    ensures forall i :: 0 <= i < |urls| ==> r[i] == DownloadWithDefaults(urls[i], fetch(i))
  {
    seq(|urls|, i requires 0 <= i < |urls| => DownloadWithDefaults(urls[i], fetch(i)))
  }

  /** A successful download carries bytes one of the allowed attempts received and PyPDF2 accepted. */
  lemma {:induction false} DownloadedFrom(url: string, fetch: (string, nat) -> Attempt, k: nat)
    requires k <= 3
    ensures var r := DownloadFrom(url, 3, fetch, k);
      r.Some? && r.value.Downloaded? ==> exists j :: k <= j < 3 && fetch(ConvertGoogleDriveUrl(url), j) == Fetched(r.value.data, None)
    decreases 3 - k
  {
    if k < 3 && Retryable(fetch(ConvertGoogleDriveUrl(url), k)) {
      if k < 2 {
        DownloadedFrom(url, fetch, k + 1);
      }
    }
  }

  /** The row once processing starts. */
  function StartedRow(t: CombineLabelTask, now: nat): CombineLabelTask
  {
    t.(status := Processing, startedAt := Some(now))
  }

  /** The row after an exception: only status, completion time and message change. */
  function CrashedRow(t: CombineLabelTask, e: string, now: nat): CombineLabelTask
  {
    t.(status := Failed, completedAt := Some(now), errorMessage := Some(e))
  }

  /** The terminal row and outcome for `t` once `downloads` are in, finishing at time `now`. */
  function FinishSpec(t: CombineLabelTask, downloads: seq<DownloadResult>, s: Services, now: nat): (r: (CombineLabelTask, Outcome))
    ensures r.1.MergeFailedWith? <==> !MergeSpec(downloads, s.faults).success
    ensures r.1.Raised? <==> MergeSpec(downloads, s.faults).success && s.authError.Some?
    ensures r.1.Raised? ==> r.1.error == s.authError.value && r.0.errorMessage == s.authError
    ensures r.1.MergeFailedWith? ==> r.0.failedUrls == MergeSpec(downloads, s.faults).failedUrls
  {
    var m := MergeSpec(downloads, s.faults);
    MergeSuccessIff(downloads, s.faults);
    if !m.success then
      (t.(status := Failed, completedAt := Some(now), errorMessage := m.error,
          failedCount := |t.urls|, failedUrls := m.failedUrls),
       MergeFailedWith(m.error.value))
    else if s.authError.Some? then
      (CrashedRow(t, s.authError.value, now), Raised(s.authError.value))
    else
      UploadBounded(3, s.drive, 0);
      var counted := t.(completedAt := Some(now),
                        successfulCount := |m.successfulUrls|, failedCount := |m.failedUrls|,
                        successfulUrls := m.successfulUrls, failedUrls := m.failedUrls);
      match UploadFrom(3, s.drive, 0).value
      case UploadErr(e) =>
        (counted.(status := Failed, errorMessage := Some("Failed to upload to Google Drive: " + e)),
         UploadFailedWith(e))
      case UploadOk(link) =>
        (counted.(status := Completed, driveLink := link),
         Uploaded(link, |m.successfulUrls|, |m.failedUrls|))
  }

  /** Two writes appended one after the other are the two appended at once. */
  lemma HistoryAppend(h: seq<CombineLabelTask>, a: seq<CombineLabelTask>, b: seq<CombineLabelTask>)
    ensures (h + a) + b == h + (a + b)
  {
  }

  /**
   * Merge `downloads`, build the Drive client, upload the merged document
   * and save the terminal row of `t`, which is the row stored under its id.
   */
  method FinishTask(store: Store, t: CombineLabelTask, downloads: seq<DownloadResult>, s: Services, now: nat)
    returns (row: CombineLabelTask, outcome: Outcome, filename: Option<string>)
    requires store.Valid() && store.Get(t.id) == Some(t)
    modifies store`rows, store`history
    ensures (row, outcome) == FinishSpec(t, downloads, s, now)
    ensures filename.Some? <==> MergeSpec(downloads, s.faults).success && s.authError.None?
    ensures filename.Some? ==> filename.value == DriveFileName(t.id, s.stamp)
    ensures store.Valid() && store.Get(t.id) == Some(row)
    ensures forall id :: id != t.id ==> store.Get(id) == old(store.Get(id))
    ensures store.history == old(store.history) + [row]
  {
    var m := MergePdfFiles(downloads, s.faults);
    MergeSuccessIff(downloads, s.faults);
    if !m.success {
      row := t.(status := Failed, completedAt := Some(now), errorMessage := m.error,
                failedCount := |t.urls|, failedUrls := m.failedUrls);
      outcome := MergeFailedWith(m.error.value);
      filename := None;
      store.Save(row);
      return;
    }
    if s.authError.Some? {
      row := CrashedRow(t, s.authError.value, now);
      outcome := Raised(s.authError.value);
      filename := None;
      store.Save(row);
      return;
    }
    var buffer := new Stream(m.buffer.value);
    filename := Some(DriveFileName(t.id, s.stamp));
    var upload, _, _, _ := UploadPdfToDrive(buffer, filename.value, 3, s.drive);
    UploadBounded(3, s.drive, 0);
    row := t.(completedAt := Some(now),
              successfulCount := |m.successfulUrls|, failedCount := |m.failedUrls|,
              successfulUrls := m.successfulUrls, failedUrls := m.failedUrls);
    match upload.value {
      case UploadErr(e) =>
        row := row.(status := Failed, errorMessage := Some("Failed to upload to Google Drive: " + e));
        outcome := UploadFailedWith(e);
      case UploadOk(link) =>
        row := row.(status := Completed, driveLink := link);
        outcome := Uploaded(link, |m.successfulUrls|, |m.failedUrls|);
    }
    store.Save(row);
  }

  /**
   * The terminal row: COMPLETED exactly when the upload succeeded, FAILED
   * otherwise with a message; the completion time is set; the identity,
   * the URLs, the start time and the Celery id are kept; only a completed
   * task gets a new link.
   */
  lemma FinishIsTerminal(t: CombineLabelTask, downloads: seq<DownloadResult>, s: Services, now: nat)
    ensures var (row, o) := FinishSpec(t, downloads, s, now);
      && (row.status == Completed <==> o.Uploaded?)
      && (row.status == Failed <==> !o.Uploaded?)
      && (row.status == Failed ==> row.errorMessage.Some?)
      && row.completedAt == Some(now)
      && row.id == t.id && row.user == t.user && row.createdAt == t.createdAt
      && row.urls == t.urls && row.totalUrls == t.totalUrls
      && row.startedAt == t.startedAt && row.celeryTaskId == t.celeryTaskId
      && (row.driveLink != t.driveLink ==> row.status == Completed)
  {
    MergeSuccessIff(downloads, s.faults);
    UploadBounded(3, s.drive, 0);
  }

  /**
   * When there is one download per URL, a task that got as far as the
   * upload accounts for every URL once, and a completed task merged at
   * least one; a merge failure counts every URL as failed and leaves the
   * successful count as it was.
   */
  lemma FinishCounts(t: CombineLabelTask, downloads: seq<DownloadResult>, s: Services, now: nat)
    requires |downloads| == |t.urls|
    ensures var (row, o) := FinishSpec(t, downloads, s, now);
      && (o.Uploaded? || o.UploadFailedWith? ==>
            row.successfulCount + row.failedCount == |t.urls| && row.successfulCount >= 1
            && row.successfulCount == |row.successfulUrls| && row.failedCount == |row.failedUrls|)
      && (o.MergeFailedWith? ==>
            row.failedCount == |t.urls| && row.successfulCount == t.successfulCount
            && row.successfulUrls == t.successfulUrls)
      && (o.Uploaded? ==> o.successfulCount == row.successfulCount && o.failedCount == row.failedCount)
  {
    MergePartition(downloads, s.faults);
    MergeSuccessIff(downloads, s.faults);
    UploadBounded(3, s.drive, 0);
  }

  /**
   * The stored link of a completed task is the `webViewLink` of a file the
   * upload created and shared; a failed upload is reported after all three
   * attempts with the last Drive error, under both prefixes.
   */
  lemma FinishUpload(t: CombineLabelTask, downloads: seq<DownloadResult>, s: Services, now: nat)
    ensures var (row, o) := FinishSpec(t, downloads, s, now);
      && (o.Uploaded? ==>
            exists n :: 0 < n <= 3 && s.drive(n - 1).Created? && s.drive(n - 1).permissionError.None?
                            && row.driveLink == s.drive(n - 1).webViewLink
                            && s.drive(n - 1).fileId in SharedUpTo(s.drive, n))
      && (o.UploadFailedWith? ==>
            RaisedBy(s.drive(2)).Some?
            && o.error == "Failed to upload after 3 retries: " + RaisedBy(s.drive(2)).value
            && row.errorMessage == Some("Failed to upload to Google Drive: " + o.error))
  {
    MergeSuccessIff(downloads, s.faults);
    UploadBounded(3, s.drive, 0);
    ThreeAttempts(s.drive);
  }

  /** The Drive upload with three attempts: a link comes from a created and shared file; an error names the third attempt's. */
  lemma ThreeAttempts(drive: nat -> DriveCall)
    ensures UploadFrom(3, drive, 0).Some?
    ensures UploadFrom(3, drive, 0).value.UploadOk? ==>
      exists n :: 0 < n <= 3 && drive(n - 1).Created? && drive(n - 1).permissionError.None?
                  && UploadFrom(3, drive, 0).value.link == drive(n - 1).webViewLink
                  && drive(n - 1).fileId in SharedUpTo(drive, n)
    ensures UploadFrom(3, drive, 0).value.UploadErr? ==>
      RaisedBy(drive(2)).Some? && UploadFrom(3, drive, 0).value.error == "Failed to upload after 3 retries: " + RaisedBy(drive(2)).value
  {
    UploadBounded(3, drive, 0);
    assert Text.IntToString(3) == "3" by {
      assert Text.DigitChar(3) == '3';
      assert Text.NatToString(3) == [Text.DigitChar(3)];
    }
    if UploadFrom(3, drive, 0).value.UploadOk? {
      UploadSharesBeforeSuccess(3, drive, 0);
      var n := UploadAttempts(3, drive, 0);
      assert SharedUpTo(drive, n)[|SharedUpTo(drive, n)| - 1] == drive(n - 1).fileId;
    }
  }
}
