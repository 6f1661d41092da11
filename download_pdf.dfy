/**
 * `convert_google_drive_url` and `download_pdf_from_url`: a share link is
 * rewritten to its direct-download form, then the document is requested up
 * to `max_retries` times with a growing pause between attempts.
 *
 * The network and PyPDF2 are an oracle: `fetch(u, k)` is what the `k`-th
 * request (0-based) for the download URL `u` ends in.
 */
module DownloadPdf {
  import opened Wrappers
  import Text

  /** A document received over the network; its bytes are opaque here. */
  datatype Pdf = Pdf(bytes: seq<bv8>)

  /** The dict `download_pdf_from_url` returns; `url` is always the URL the caller gave. */
  datatype DownloadResult =
    | Downloaded(url: string, data: Pdf)
    | NotDownloaded(url: string, error: string)

  const DrivePrefix: string := "https://drive.google.com/file/d/"
  const DirectPrefix: string := "https://drive.google.com/uc?export=download&id="

  /** The character class `[a-zA-Z0-9-_]` of a Drive file id. */
  predicate IsIdChar(c: char)
  {
    ('a' <= c <= 'z') || ('A' <= c <= 'Z') || ('0' <= c <= '9') || c == '-' || c == '_'
  }

  /** Length of the longest run of id characters at the front of `s`: what the greedy `+` takes. */
  function IdRun(s: string): (n: nat)
    ensures n <= |s|
    ensures forall i :: 0 <= i < n ==> IsIdChar(s[i])
    ensures n == |s| || !IsIdChar(s[n])
  {
    if s == [] || !IsIdChar(s[0]) then 0 else 1 + IdRun(s[1..])
  }

  lemma {:induction false} IdRunAll(s: string)
    requires forall i :: 0 <= i < |s| ==> IsIdChar(s[i])
    ensures IdRun(s) == |s|
  {
    if s != [] {
      IdRunAll(s[1..]);
    }
  }

  /**
   * The pattern `https://drive\.google\.com/file/d/([a-zA-Z0-9-_]+)` followed
   * by `suffix`, tried at position `i`: the captured id, if it matches there.
   * Backtracking cannot help, because a shorter id is followed by another id
   * character and never by `/`.
   */
  function MatchAt(url: string, i: nat, suffix: string): (r: Option<string>)
    requires i <= |url|
  {
    var rest := url[i..];
    if Text.StartsWith(rest, DrivePrefix) then
      var tail := rest[|DrivePrefix|..];
      var n := IdRun(tail);
      if n > 0 && Text.StartsWith(tail[n..], suffix) then Some(tail[..n]) else None
    else None
  }

  /** `re.search`: the leftmost position from `i` on where the pattern matches. */
  function SearchFrom(url: string, suffix: string, i: nat): Option<string>
    requires i <= |url|
    decreases |url| - i
  {
    match MatchAt(url, i, suffix)
    case Some(id) => Some(id)
    case None => if i == |url| then None else SearchFrom(url, suffix, i + 1)
  }

  /** The three patterns are tried in order: `/view`, `/edit`, then the bare id. */
  function ConvertGoogleDriveUrl(url: string): string
  {
    match SearchFrom(url, "/view", 0)
    case Some(id) => DirectPrefix + id
    case None =>
      match SearchFrom(url, "/edit", 0)
      case Some(id) => DirectPrefix + id
      case None =>
        match SearchFrom(url, "", 0)
        case Some(id) => DirectPrefix + id
        case None => url
  }

  predicate IsDriveId(id: string)
  {
    id != [] && forall i :: 0 <= i < |id| ==> IsIdChar(id[i])
  }

  /** What a search finds is a non-empty id that the URL holds right after the share prefix. */
  lemma {:induction false} SearchFinds(url: string, suffix: string, i: nat)
    requires i <= |url| && SearchFrom(url, suffix, i).Some?
    ensures IsDriveId(SearchFrom(url, suffix, i).value)
    ensures Text.Contains(url, DrivePrefix + SearchFrom(url, suffix, i).value + suffix)
    decreases |url| - i
  {
    match MatchAt(url, i, suffix)
    case Some(id) =>
      var rest := url[i..];
      var tail := rest[|DrivePrefix|..];
      var n := IdRun(tail);
      assert id == tail[..n];
      var w := DrivePrefix + id + suffix;
      assert rest[..|w|] == w by {
        assert rest[..|DrivePrefix|] == DrivePrefix;
        assert tail[n..][..|suffix|] == suffix;
        assert rest == DrivePrefix + id + tail[n..];
      }
      assert url[i..i + |w|] == w;
      Text.ContainsAt(url, w, i);
    case None =>
      SearchFinds(url, suffix, i + 1);
  }

  /** A share link found anywhere in the URL is replaced by the direct-download link for its id. */
  lemma ConvertShape(url: string)
    ensures var r := ConvertGoogleDriveUrl(url);
      r == url || exists id :: IsDriveId(id) && r == DirectPrefix + id && Text.Contains(url, DrivePrefix + id)
  {
    var r := ConvertGoogleDriveUrl(url);
    if SearchFrom(url, "/view", 0).Some? {
      var id := SearchFrom(url, "/view", 0).value;
      SearchFinds(url, "/view", 0);
      ContainsPrefix(url, DrivePrefix + id, "/view");
      assert r == DirectPrefix + id;
    } else if SearchFrom(url, "/edit", 0).Some? {
      var id := SearchFrom(url, "/edit", 0).value;
      SearchFinds(url, "/edit", 0);
      ContainsPrefix(url, DrivePrefix + id, "/edit");
      assert r == DirectPrefix + id;
    } else if SearchFrom(url, "", 0).Some? {
      var id := SearchFrom(url, "", 0).value;
      SearchFinds(url, "", 0);
      assert DrivePrefix + id + "" == DrivePrefix + id;
      assert r == DirectPrefix + id;
    }
  }

  lemma ContainsPrefix(s: string, p: string, q: string)
    requires Text.Contains(s, p + q)
    ensures Text.Contains(s, p)
  {
    var i := Text.ContainsWitness(s, p + q);
    assert s[i..i + |p|] == (p + q)[..|p|];
    Text.ContainsAt(s, p, i);
  }

  lemma SearchNeedsShareLink(url: string, suffix: string)
    ensures SearchFrom(url, suffix, 0).Some? ==> Text.Contains(url, DrivePrefix)
  {
    if SearchFrom(url, suffix, 0).Some? {
      var id := SearchFrom(url, suffix, 0).value;
      SearchFinds(url, suffix, 0);
      assert DrivePrefix + id + suffix == DrivePrefix + (id + suffix);
      ContainsPrefix(url, DrivePrefix, id + suffix);
    }
  }

  /** A URL without the share prefix is returned unchanged. */
  lemma ConvertWithoutShareLink(url: string)
    requires !Text.Contains(url, DrivePrefix)
    ensures ConvertGoogleDriveUrl(url) == url
  {
    SearchNeedsShareLink(url, "/view");
    SearchNeedsShareLink(url, "/edit");
    SearchNeedsShareLink(url, "");
  }

  /** The share prefix followed by at least one id character is always converted. */
  lemma {:induction false} ConvertWithShareLink(url: string, i: nat)
    requires i + |DrivePrefix| < |url| && url[i..i + |DrivePrefix|] == DrivePrefix && IsIdChar(url[i + |DrivePrefix|])
    ensures exists id :: IsDriveId(id) && ConvertGoogleDriveUrl(url) == DirectPrefix + id
  {
    BareFoundFrom(url, 0, i);
    ConvertShape(url);
    var r := ConvertGoogleDriveUrl(url);
    if SearchFrom(url, "/view", 0).Some? {
      SearchFinds(url, "/view", 0);
    } else if SearchFrom(url, "/edit", 0).Some? {
      SearchFinds(url, "/edit", 0);
    } else {
      SearchFinds(url, "", 0);
    }
  }

  lemma {:induction false} BareFoundFrom(url: string, j: nat, i: nat)
    requires j <= i && i + |DrivePrefix| < |url| && url[i..i + |DrivePrefix|] == DrivePrefix
    requires IsIdChar(url[i + |DrivePrefix|])
    ensures SearchFrom(url, "", j).Some?
    decreases i - j
  {
    if j == i {
      var rest := url[i..];
      assert rest[..|DrivePrefix|] == DrivePrefix;
      assert rest[|DrivePrefix|..][0] == url[i + |DrivePrefix|];
      assert MatchAt(url, i, "").Some?;
    } else if MatchAt(url, j, "").None? {
      BareFoundFrom(url, j + 1, i);
    }
  }

  /** Past the host part, a direct-download link holds no `/`. */
  lemma NoSlashAfterHost(id: string, k: nat)
    requires IsDriveId(id) && 25 <= k < |DirectPrefix + id|
    ensures (DirectPrefix + id)[k] != '/'
  {
    if k >= |DirectPrefix| {
      assert (DirectPrefix + id)[k] == id[k - |DirectPrefix|];
    }
  }

  lemma NoShareLinkFrom(id: string, suffix: string, i: nat)
    requires IsDriveId(id) && i <= |DirectPrefix + id|
    ensures SearchFrom(DirectPrefix + id, suffix, i).None?
  {
    var out := DirectPrefix + id;
    var j := |out|;
    NoShareLinkAt(id, suffix, j);
    while j > i
      invariant i <= j <= |out| && SearchFrom(out, suffix, j).None?
    {
      j := j - 1;
      NoShareLinkAt(id, suffix, j);
    }
  }

  /** The direct link has no share prefix at any position. */
  lemma NoShareLinkAt(id: string, suffix: string, i: nat)
    requires IsDriveId(id) && i <= |DirectPrefix + id|
    ensures MatchAt(DirectPrefix + id, i, suffix).None?
  {
    var out := DirectPrefix + id;
    var rest := out[i..];
    if Text.StartsWith(rest, DrivePrefix) {
      assert rest[31] == DrivePrefix[31] == '/';
      NoSlashAfterHost(id, i + 31);
      assert false;
    }
  }

  /** Converting twice is converting once: the direct link holds no share prefix. */
  lemma ConvertIdempotent(url: string)
    ensures ConvertGoogleDriveUrl(ConvertGoogleDriveUrl(url)) == ConvertGoogleDriveUrl(url)
  {
    var r := ConvertGoogleDriveUrl(url);
    ConvertShape(url);
    if r != url {
      var id :| IsDriveId(id) && r == DirectPrefix + id && Text.Contains(url, DrivePrefix + id);
      NoShareLinkFrom(id, "/view", 0);
      NoShareLinkFrom(id, "/edit", 0);
      NoShareLinkFrom(id, "", 0);
    }
  }

  /** How one request ends: bytes PyPDF2 accepts or rejects, or an exception from `requests`. */
  datatype Attempt =
    | Fetched(data: Pdf, parseError: Option<string>)
    | Timeout
    | RequestError(message: string)
    | OtherError(message: string)

  function Pow2(k: nat): (r: nat)
    ensures r >= 1
  {
    if k == 0 then 1 else 2 * Pow2(k - 1)
  }

  /** The pauses taken before attempts `1 .. n-1`: `2 ** (attempt - 1)` seconds each. */
  function Backoffs(n: nat): (r: seq<nat>)
    ensures |r| == if n == 0 then 0 else n - 1
    ensures forall j :: 0 <= j < |r| ==> r[j] == Pow2(j)
  {
    if n <= 1 then [] else Backoffs(n - 1) + [Pow2(n - 2)]
  }

  /** The result of the attempt loop entered at attempt `k`; `None` when the loop ends without returning. */
  function DownloadFrom(url: string, maxRetries: int, fetch: (string, nat) -> Attempt, k: nat): Option<DownloadResult>
    decreases if k < maxRetries then maxRetries - k else 0
  {
    if k >= maxRetries then None
    else
      var last := k == maxRetries - 1;
      var tries := Text.IntToString(maxRetries);
      match fetch(ConvertGoogleDriveUrl(url), k)
      case Fetched(data, None) => Some(Downloaded(url, data))
      case Fetched(_, Some(e)) => Some(NotDownloaded(url, "Invalid PDF format: " + e))
      case Timeout =>
        if last then Some(NotDownloaded(url, "Connection timeout after " + tries + " retries"))
        else DownloadFrom(url, maxRetries, fetch, k + 1)
      case RequestError(e) =>
        if last then Some(NotDownloaded(url, "Network error after " + tries + " retries: " + e))
        else DownloadFrom(url, maxRetries, fetch, k + 1)
      case OtherError(e) =>
        if last then Some(NotDownloaded(url, "Unexpected error after " + tries + " retries: " + e))
        else DownloadFrom(url, maxRetries, fetch, k + 1)
  }

  /** The number of requests made when the loop is entered at attempt `k`. */
  function AttemptsFrom(url: string, maxRetries: int, fetch: (string, nat) -> Attempt, k: nat): nat
    decreases if k < maxRetries then maxRetries - k else 0
  {
    if k >= maxRetries then 0
    else
      match fetch(ConvertGoogleDriveUrl(url), k)
      case Fetched(_, _) => 1
      case _ => if k == maxRetries - 1 then 1 else 1 + AttemptsFrom(url, maxRetries, fetch, k + 1)
  }

  predicate Retryable(a: Attempt)
  {
    a.Timeout? || a.RequestError? || a.OtherError?
  }

  /**
   * `download_pdf_from_url(url, max_retries)`. `sleeps` lists the pauses
   * taken, in seconds, in the order they were taken.
   */
  method DownloadPdfFromUrl(url: string, maxRetries: int, fetch: (string, nat) -> Attempt)
    returns (r: Option<DownloadResult>, sleeps: seq<nat>)
    ensures r == DownloadFrom(url, maxRetries, fetch, 0)
    ensures sleeps == Backoffs(AttemptsFrom(url, maxRetries, fetch, 0))
  {
    var downloadUrl := ConvertGoogleDriveUrl(url);
    var tries := Text.IntToString(maxRetries);
    sleeps := [];
    var attempt: nat := 0;
    while attempt < maxRetries
      invariant DownloadFrom(url, maxRetries, fetch, 0) == DownloadFrom(url, maxRetries, fetch, attempt)
      invariant AttemptsFrom(url, maxRetries, fetch, 0) == attempt + AttemptsFrom(url, maxRetries, fetch, attempt)
      invariant sleeps == Backoffs(attempt)
      decreases maxRetries - attempt
    {
      if attempt > 0 {
        sleeps := sleeps + [Pow2(attempt - 1)];
      }
      assert sleeps == Backoffs(attempt + 1);
      var last := attempt == maxRetries - 1;
      match fetch(downloadUrl, attempt) {
      case Fetched(data, None) =>
        return Some(Downloaded(url, data)), sleeps;
      case Fetched(_, Some(e)) =>
        return Some(NotDownloaded(url, "Invalid PDF format: " + e)), sleeps;
      case Timeout =>
        if last {
          return Some(NotDownloaded(url, "Connection timeout after " + tries + " retries")), sleeps;
        }
      case RequestError(e) =>
        if last {
          return Some(NotDownloaded(url, "Network error after " + tries + " retries: " + e)), sleeps;
        }
      case OtherError(e) =>
        if last {
          return Some(NotDownloaded(url, "Unexpected error after " + tries + " retries: " + e)), sleeps;
        }
      }
      attempt := attempt + 1;
    }
    r := None;
  }

  /** At most `max_retries` requests are made, and a result is returned exactly when at least one is allowed. */
  lemma {:induction false} AttemptsBounded(url: string, maxRetries: int, fetch: (string, nat) -> Attempt, k: nat)
    requires k <= maxRetries || maxRetries <= 0
    ensures AttemptsFrom(url, maxRetries, fetch, k) <= (if maxRetries <= 0 then 0 else maxRetries - k)
    ensures DownloadFrom(url, maxRetries, fetch, k).Some? <==> k < maxRetries
    ensures DownloadFrom(url, maxRetries, fetch, k).Some? ==> DownloadFrom(url, maxRetries, fetch, k).value.url == url
    decreases if k < maxRetries then maxRetries - k else 0
  {
    if k < maxRetries && k != maxRetries - 1 && Retryable(fetch(ConvertGoogleDriveUrl(url), k)) {
      AttemptsBounded(url, maxRetries, fetch, k + 1);
    }
  }

  /** With the default of three attempts the pauses are 1 s and then 2 s. */
  lemma DefaultBackoffs()
    ensures Backoffs(3) == [1, 2]
  {
  }

  /** A document PyPDF2 rejects ends the loop at once with the validation message. */
  lemma InvalidPdfStops(url: string, maxRetries: int, fetch: (string, nat) -> Attempt, data: Pdf, e: string)
    requires maxRetries > 0 && fetch(ConvertGoogleDriveUrl(url), 0) == Fetched(data, Some(e))
    ensures DownloadFrom(url, maxRetries, fetch, 0) == Some(NotDownloaded(url, "Invalid PDF format: " + e))
    ensures AttemptsFrom(url, maxRetries, fetch, 0) == 1
  {
  }

  /**
   * A retryable failure is reported only after the last allowed attempt: a
   * failure whose message is not the validation message used every attempt.
   */
  lemma {:induction false} RetryableFailureUsesAllAttempts(url: string, maxRetries: int, fetch: (string, nat) -> Attempt, k: nat)
    requires k < maxRetries
    requires forall j :: k <= j < maxRetries ==> Retryable(fetch(ConvertGoogleDriveUrl(url), j))
    ensures AttemptsFrom(url, maxRetries, fetch, k) == maxRetries - k
    ensures DownloadFrom(url, maxRetries, fetch, k).Some? && DownloadFrom(url, maxRetries, fetch, k).value.NotDownloaded?
    decreases maxRetries - k
  {
    if k < maxRetries - 1 {
      RetryableFailureUsesAllAttempts(url, maxRetries, fetch, k + 1);
    }
  }

  /** Two failures and then a good document: the download succeeds on the third attempt after pauses of 1 s and 2 s. */
  lemma SucceedsOnThirdAttempt(url: string, fetch: (string, nat) -> Attempt, data: Pdf)
    requires Retryable(fetch(ConvertGoogleDriveUrl(url), 0)) && Retryable(fetch(ConvertGoogleDriveUrl(url), 1))
    requires fetch(ConvertGoogleDriveUrl(url), 2) == Fetched(data, None)
    ensures DownloadFrom(url, 3, fetch, 0) == Some(Downloaded(url, data))
    ensures Backoffs(AttemptsFrom(url, 3, fetch, 0)) == [1, 2]
  {
  }

  /** Three network errors: the third one's text is reported. */
  lemma FailsAfterThreeNetworkErrors(url: string, fetch: (string, nat) -> Attempt, e: string)
    requires Retryable(fetch(ConvertGoogleDriveUrl(url), 0)) && Retryable(fetch(ConvertGoogleDriveUrl(url), 1))
    requires fetch(ConvertGoogleDriveUrl(url), 2) == RequestError(e)
    ensures DownloadFrom(url, 3, fetch, 0) == Some(NotDownloaded(url, "Network error after 3 retries: " + e))
  {
    assert Text.IntToString(3) == "3" by {
      assert Text.DigitChar(3) == '3';
      assert Text.NatToString(3) == [Text.DigitChar(3)];
    }
    assert "Network error after " + "3" + " retries: " + e == "Network error after 3 retries: " + e;
    assert DownloadFrom(url, 3, fetch, 0) == DownloadFrom(url, 3, fetch, 1);
    assert DownloadFrom(url, 3, fetch, 1) == DownloadFrom(url, 3, fetch, 2);
    assert DownloadFrom(url, 3, fetch, 2) == Some(NotDownloaded(url, "Network error after " + Text.IntToString(3) + " retries: " + e));
  }
}
