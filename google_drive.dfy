/**
 * The Drive side of the pipeline: `GoogleDriveService.upload_pdf_to_drive`,
 * which rewinds and re-reads the whole buffer on every attempt and shares the
 * file only after it has been created, and `search_file`, which turns the
 * files found into share links.
 *
 * The Drive client is an oracle: `drive(k)` is how attempt `k` (0-based)
 * ends.
 */
module GoogleApi {
  import opened Wrappers
  import Text
  import DownloadPdf

  /** An in-memory stream (`BytesIO`): its content and the read position. */
  class Stream<T> {
    var data: seq<T>
    var pos: nat

    ghost predicate Valid()
      reads this
    {
      pos <= |data|
    }

    constructor (data: seq<T>)
      ensures Valid() && this.data == data && pos == 0
    {
      this.data := data;
      pos := 0;
    }

    /** `seek(p)`. */
    method Seek(p: nat)
      requires Valid() && p <= |data|
      modifies this`pos
      ensures Valid() && pos == p
    {
      pos := p;
    }

    /** `read()`: everything from the position on; the position moves to the end. */
    method Read() returns (s: seq<T>)
      requires Valid()
      modifies this`pos
      ensures Valid() && s == data[old(pos)..] && pos == |data|
    {
      s := data[pos..];
      pos := |data|;
    }
  }

  /** How one attempt's Drive calls end. */
  datatype DriveCall =
    | CreateRaises(message: string)
    /** `files().create` returned; `permissions().create` then raised or not. */
    | Created(fileId: string, webViewLink: Option<string>, permissionError: Option<string>)

  datatype UploadResult = UploadOk(link: Option<string>) | UploadErr(error: string)

  /** The error text of an attempt that raised, if it did. */
  function RaisedBy(c: DriveCall): Option<string>
  {
    match c
    case CreateRaises(m) => Some(m)
    case Created(_, _, p) => p
  }

  /** The result of the retry loop entered at attempt `k`; `None` when it ends without returning. */
  function UploadFrom(maxRetries: int, drive: nat -> DriveCall, k: nat): Option<UploadResult>
    decreases if k < maxRetries then maxRetries - k else 0
  {
    if k >= maxRetries then None
    else
      match RaisedBy(drive(k))
      case None => Some(UploadOk(drive(k).webViewLink))
      case Some(e) =>
        if k == maxRetries - 1 then
          Some(UploadErr("Failed to upload after " + Text.IntToString(maxRetries) + " retries: " + e))
        else UploadFrom(maxRetries, drive, k + 1)
  }

  /** The number of attempts made when the loop is entered at attempt `k`. */
  function UploadAttempts(maxRetries: int, drive: nat -> DriveCall, k: nat): nat
    decreases if k < maxRetries then maxRetries - k else 0
  {
    if k >= maxRetries then 0
    else if RaisedBy(drive(k)).None? || k == maxRetries - 1 then 1
    else 1 + UploadAttempts(maxRetries, drive, k + 1)
  }

  /** The files created by attempts `0 .. n-1`, in attempt order: those `permissions().create` is called on. */
  function SharedUpTo(drive: nat -> DriveCall, n: nat): seq<string>
  {
    if n == 0 then []
    else SharedUpTo(drive, n - 1) + (if drive(n - 1).Created? then [drive(n - 1).fileId] else [])
  }

  predicate AllEqual<T(==)>(xs: seq<T>, x: T)
  {
    forall i :: 0 <= i < |xs| ==> xs[i] == x
  }

  /**
   * `upload_pdf_to_drive(pdf_buffer, filename, max_retries)`. `sleeps` lists
   * the pauses taken, `sent` the bytes handed to each `files().create` call
   * and `shared` the files on which `permissions().create` was called.
   */
  method UploadPdfToDrive<T(==)>(buffer: Stream<T>, filename: string, maxRetries: int, drive: nat -> DriveCall)
    returns (r: Option<UploadResult>, sleeps: seq<nat>, sent: seq<seq<T>>, shared: seq<string>)
    requires buffer.Valid()
    modifies buffer`pos
    ensures buffer.Valid()
    ensures r == UploadFrom(maxRetries, drive, 0)
    ensures sleeps == DownloadPdf.Backoffs(UploadAttempts(maxRetries, drive, 0))
    ensures |sent| == UploadAttempts(maxRetries, drive, 0) && AllEqual(sent, buffer.data)
    ensures shared == SharedUpTo(drive, UploadAttempts(maxRetries, drive, 0))
  {
    sleeps, sent, shared := [], [], [];
    ghost var content := buffer.data;
    var attempt: nat := 0;
    while attempt < maxRetries
      invariant buffer.Valid() && buffer.data == content
      invariant UploadFrom(maxRetries, drive, 0) == UploadFrom(maxRetries, drive, attempt)
      invariant UploadAttempts(maxRetries, drive, 0) == attempt + UploadAttempts(maxRetries, drive, attempt)
      invariant shared == SharedUpTo(drive, attempt)
      invariant sleeps == DownloadPdf.Backoffs(attempt)
      invariant |sent| == attempt && AllEqual(sent, content)
      decreases maxRetries - attempt
    {
      if attempt > 0 {
        sleeps := sleeps + [DownloadPdf.Pow2(attempt - 1)];
      }
      buffer.Seek(0);
      var media := buffer.Read();
      sent := sent + [media];
      var call := drive(attempt);
      if call.Created? {
        shared := shared + [call.fileId];
      }
      UploadStep(maxRetries, drive, attempt);
      var raised := RaisedBy(call);
      if raised.None? {
        r := Some(UploadOk(call.webViewLink));
        return;
      }
      if attempt == maxRetries - 1 {
        var tries := Text.IntToString(maxRetries);
        r := Some(UploadErr("Failed to upload after " + tries + " retries: " + raised.value));
        return;
      }
      attempt := attempt + 1;
    }
    r := None;
  }

  /** One turn of the retry loop. */
  lemma UploadStep(maxRetries: int, drive: nat -> DriveCall, k: nat)
    requires k < maxRetries
    ensures var stop := RaisedBy(drive(k)).None? || k == maxRetries - 1;
      && UploadAttempts(maxRetries, drive, k) == (if stop then 1 else 1 + UploadAttempts(maxRetries, drive, k + 1))
      && (RaisedBy(drive(k)).None? ==> UploadFrom(maxRetries, drive, k) == Some(UploadOk(drive(k).webViewLink)))
      && (!stop ==> UploadFrom(maxRetries, drive, k) == UploadFrom(maxRetries, drive, k + 1))
  {
  }

  /**
   * At most `max_retries` attempts; a result exactly when one is allowed; a
   * failure only after the last attempt, carrying the last error.
   */
  lemma {:induction false} UploadBounded(maxRetries: int, drive: nat -> DriveCall, k: nat)
    requires k <= maxRetries || maxRetries <= 0
    ensures UploadAttempts(maxRetries, drive, k) <= (if maxRetries <= 0 then 0 else maxRetries - k)
    ensures UploadFrom(maxRetries, drive, k).Some? <==> k < maxRetries
    ensures UploadFrom(maxRetries, drive, k).Some? && UploadFrom(maxRetries, drive, k).value.UploadErr? ==>
      UploadAttempts(maxRetries, drive, k) == maxRetries - k
      && RaisedBy(drive(maxRetries - 1)).Some?
      && UploadFrom(maxRetries, drive, k).value.error
         == "Failed to upload after " + Text.IntToString(maxRetries) + " retries: " + RaisedBy(drive(maxRetries - 1)).value
    decreases if k < maxRetries then maxRetries - k else 0
  {
    if k < maxRetries && k != maxRetries - 1 && RaisedBy(drive(k)).Some? {
      UploadBounded(maxRetries, drive, k + 1);
    }
  }

  /**
   * Success returns the `webViewLink` of the file the last attempt created,
   * and that file is the last one shared: sharing follows a create that returned.
   */
  lemma {:induction false} UploadSharesBeforeSuccess(maxRetries: int, drive: nat -> DriveCall, k: nat)
    requires k < maxRetries && UploadFrom(maxRetries, drive, k).Some? && UploadFrom(maxRetries, drive, k).value.UploadOk?
    ensures var n := k + UploadAttempts(maxRetries, drive, k);
      && 0 < n <= maxRetries && drive(n - 1).Created? && drive(n - 1).permissionError.None?
      && UploadFrom(maxRetries, drive, k).value.link == drive(n - 1).webViewLink
      && SharedUpTo(drive, n) == SharedUpTo(drive, n - 1) + [drive(n - 1).fileId]
    decreases maxRetries - k
  {
    if RaisedBy(drive(k)).Some? {
      UploadSharesBeforeSuccess(maxRetries, drive, k + 1);
    }
  }

  /** Every file that is shared was returned by `files().create`. */
  lemma {:induction false} SharedWereCreated(drive: nat -> DriveCall, n: nat)
    ensures forall id :: id in SharedUpTo(drive, n) ==> exists j :: 0 <= j < n && drive(j).Created? && drive(j).fileId == id
  {
    if n > 0 {
      SharedWereCreated(drive, n - 1);
    }
  }

  /**
   * Every error before the last attempt is retried, whatever it says (an
   * `HttpError 401` included) and without re-authenticating: a run of
   * raising attempts only moves the loop on, one attempt each.
   */
  lemma {:induction false} ErrorsAreRetried(maxRetries: int, drive: nat -> DriveCall, k: nat, j: nat)
    requires k <= j < maxRetries
    requires forall i :: k <= i < j ==> RaisedBy(drive(i)).Some?
    ensures UploadFrom(maxRetries, drive, k) == UploadFrom(maxRetries, drive, j)
    ensures UploadAttempts(maxRetries, drive, k) == (j - k) + UploadAttempts(maxRetries, drive, j)
    decreases j - k
  {
    if k < j {
      ErrorsAreRetried(maxRetries, drive, k + 1, j);
    }
  }

  /** A file found by name. */
  datatype DriveFile = DriveFile(name: string, id: string)
  datatype SearchHit = SearchHit(name: string, link: string)

  /** `search_file`: one `{name, link}` per file found, in the order Drive lists them. */
  method SearchFile(files: seq<DriveFile>) returns (hits: seq<SearchHit>)
    ensures |hits| == |files|
    ensures forall i :: 0 <= i < |files| ==>
      hits[i].name == files[i].name && hits[i].link == DownloadPdf.DrivePrefix + files[i].id
  {
    hits := [];
    for i := 0 to |files|
      invariant |hits| == i
      invariant forall j :: 0 <= j < i ==>
        hits[j].name == files[j].name && hits[j].link == DownloadPdf.DrivePrefix + files[j].id
    {
      hits := hits + [SearchHit(files[i].name, DownloadPdf.DrivePrefix + files[i].id)];
    }
  }

  /** A share link holds no `/` after its prefix. */
  lemma NoSlashInId(id: string, k: nat)
    requires DownloadPdf.IsDriveId(id) && |DownloadPdf.DrivePrefix| <= k < |DownloadPdf.DrivePrefix + id|
    ensures (DownloadPdf.DrivePrefix + id)[k] != '/'
  {
    assert (DownloadPdf.DrivePrefix + id)[k] == id[k - |DownloadPdf.DrivePrefix|];
  }

  lemma {:induction false} OnlyAtStart(id: string, suffix: string, i: nat)
    requires DownloadPdf.IsDriveId(id) && 0 < i <= |DownloadPdf.DrivePrefix + id|
    ensures DownloadPdf.SearchFrom(DownloadPdf.DrivePrefix + id, suffix, i).None?
    decreases |DownloadPdf.DrivePrefix + id| - i
  {
    var link := DownloadPdf.DrivePrefix + id;
    if Text.StartsWith(link[i..], DownloadPdf.DrivePrefix) {
      assert link[i..][31] == DownloadPdf.DrivePrefix[31] == '/';
      NoSlashInId(id, i + 31);
      assert false;
    }
    assert DownloadPdf.MatchAt(link, i, suffix).None?;
    if i < |link| {
      OnlyAtStart(id, suffix, i + 1);
    }
  }

  /** The share links `search_file` builds are turned back into direct downloads by the fetcher. */
  lemma SearchLinkConverts(id: string)
    requires DownloadPdf.IsDriveId(id)
    ensures DownloadPdf.ConvertGoogleDriveUrl(DownloadPdf.DrivePrefix + id) == DownloadPdf.DirectPrefix + id
  {
    var link := DownloadPdf.DrivePrefix + id;
    var p := DownloadPdf.DrivePrefix;
    assert link[0..][..|p|] == p;
    var tail := link[0..][|p|..];
    assert tail == id;
    DownloadPdf.IdRunAll(id);
    assert DownloadPdf.MatchAt(link, 0, "/view").None?;
    assert DownloadPdf.MatchAt(link, 0, "/edit").None?;
    assert link[0..] == link;
    assert tail[|id|..] == "";
    assert tail[..|id|] == id;
    assert DownloadPdf.MatchAt(link, 0, "") == Some(id);
    OnlyAtStart(id, "/view", 1);
    OnlyAtStart(id, "/edit", 1);
  }
}
