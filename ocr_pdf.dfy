/**
 * Reading a shipping label: the tracking id and the recipient block are
 * OCR'd from fixed regions of each page (the OCR itself is an input here),
 * the tracking id is cleaned, the recipient block is split into name,
 * address, city, state and zipcode, and the pages of a multi-page PDF are
 * aggregated into one reply.
 */
module OcrPdf {
  import opened Wrappers
  import Text

  // ---------------------------------------------------------------- __clean_tracking_id

  /** Strip, then delete every `,`, `.` and space. */
  function CleanTrackingId(t: string): (r: string)
    ensures ',' !in r && '.' !in r && ' ' !in r
  {
    var a := Text.ReplaceAll(Text.Strip(t), ",", "");
    var b := Text.ReplaceAll(a, ".", "");
    Text.ReplaceCharRemoves(Text.Strip(t), ',');
    Text.ReplaceCharRemoves(a, '.');
    Text.ReplaceCharRemoves(b, ' ');
    Text.ReplaceAll(b, " ", "")
  }

  predicate NoSpace(s: string)
  {
    forall i :: 0 <= i < |s| ==> !Text.IsSpace(s[i])
  }

  lemma StripNoSpace(s: string)
    requires NoSpace(s)
    ensures Text.Strip(s) == s
  {
    if s != "" {
      assert Text.LStrip(s) == s;
    }
  }

  /**
   * Cleaning twice is cleaning once whenever the cleaned id has no
   * whitespace left, in particular when the only whitespace in the OCR text
   * is the plain space.
   */
  lemma CleanIdempotent(t: string)
    requires NoSpace(CleanTrackingId(t))
    ensures CleanTrackingId(CleanTrackingId(t)) == CleanTrackingId(t)
  {
    var c := CleanTrackingId(t);
    StripNoSpace(c);
    Text.ReplaceCharIdentity(c, ',');
    Text.ReplaceCharIdentity(c, '.');
    Text.ReplaceCharIdentity(c, ' ');
  }

  lemma {:induction false} RStripKeeps(s: string, c: char)
    ensures c in Text.RStrip(s) ==> c in s
  {
    assert Text.RStrip(s) == s[..|Text.RStrip(s)|];
  }

  lemma CleanOnlySpaceIsPlain(t: string)
    requires forall i :: 0 <= i < |t| ==> Text.IsSpace(t[i]) ==> t[i] == ' '
    ensures NoSpace(CleanTrackingId(t))
  {
    var s := Text.Strip(t);
    var l := Text.LStrip(t);
    assert s == Text.RStrip(l);
    assert s == l[..|s|];
    assert forall d :: d in s ==> d in t;
    var a := Text.ReplaceAll(s, ",", "");
    var b := Text.ReplaceAll(a, ".", "");
    Text.ReplaceCharRemoves(s, ',');
    Text.ReplaceCharRemoves(a, '.');
    Text.ReplaceCharRemoves(b, ' ');
    var c := CleanTrackingId(t);
    forall i | 0 <= i < |c| ensures !Text.IsSpace(c[i]) {
      assert c[i] in b && c[i] in a && c[i] in s;
    }
  }

  /**
   * With a newline behind a leading comma, one cleaning leaves the newline
   * (the strip runs before the comma goes) and a second removes it.
   */
  lemma CleanNotAlwaysIdempotent(w: string)
    requires w != "" && NoSpace(w) && ',' !in w && '.' !in w && ' ' !in w
    ensures CleanTrackingId([',', '\n'] + w) == ['\n'] + w
    ensures CleanTrackingId(CleanTrackingId([',', '\n'] + w)) == w
  {
    CleanLeadingComma(['\n'] + w);
    assert [','] + (['\n'] + w) == [',', '\n'] + w;
    CleanLeadingNewline(w);
  }

  lemma CleanSteps(t: string, s: string, a: string)
    requires Text.Strip(t) == s && Text.ReplaceAll(s, ",", "") == a
    requires '.' !in a && ' ' !in a
    ensures CleanTrackingId(t) == a
  {
    Text.ReplaceCharIdentity(a, '.');
    Text.ReplaceCharIdentity(a, ' ');
  }

  lemma DropLeading(c: char, s: string)
    requires c !in s
    ensures Text.ReplaceAll([c] + s, [c], "") == s
  {
    assert Text.StartsWith([c] + s, [c]);
    assert ([c] + s)[1..] == s;
    Text.ReplaceCharIdentity(s, c);
  }

  /** A leading comma is deleted when nothing else needs cleaning. */
  lemma CleanLeadingComma(s: string)
    requires s != "" && !Text.IsSpace(s[|s| - 1])
    requires ',' !in s && '.' !in s && ' ' !in s
    ensures CleanTrackingId([','] + s) == s
  {
    var t := [','] + s;
    assert Text.LStrip(t) == t;
    assert t[|t| - 1] == s[|s| - 1];
    assert Text.RStrip(t) == t;
    DropLeading(',', s);
    CleanSteps(t, t, s);
  }

  /** A leading newline is stripped. */
  lemma CleanLeadingNewline(w: string)
    requires w != "" && NoSpace(w) && ',' !in w && '.' !in w && ' ' !in w
    ensures CleanTrackingId(['\n'] + w) == w
  {
    var t := ['\n'] + w;
    assert t[1..] == w;
    assert Text.LStrip(t) == w;
    StripNoSpace(w);
    Text.ReplaceCharIdentity(w, ',');
    CleanSteps(t, w, w);
  }

  // ---------------------------------------------------------------- __parse_info

  datatype Recipient = Recipient(name: string, address: string, city: string, state: string, zipcode: string)

  function Lines(info: string): (r: seq<string>)
    ensures |r| >= 1
  {
    Text.Split(Text.Strip(info), '\n')
  }

  function FirstLine(info: string): string
  {
    Lines(info)[0]
  }

  function LastLine(info: string): string
  {
    Lines(info)[|Lines(info)| - 1]
  }

  function Last(ws: seq<string>): string
    requires ws != []
  {
    ws[|ws| - 1]
  }

  /** The text without every occurrence of the name and of the last line, stripped, newlines turned into spaces. */
  function Address(info: string): string
  {
    Text.ReplaceAll(Text.Strip(Text.ReplaceAll(Text.ReplaceAll(Text.Strip(info), FirstLine(info), ""), LastLine(info), "")), "\n", " ")
  }

  /** `details` once every occurrence of `word` is removed, stripped. */
  function Without(details: string, word: string): string
  {
    Text.Strip(Text.ReplaceAll(details, word, ""))
  }

  datatype Place = Place(city: string, state: string, zipcode: string)

  /** `s.split()[-1]`, `None` where it raises. */
  function LastWord(s: string): (r: Option<string>)
    ensures r.Some? <==> Text.Words(s) != []
    ensures r.Some? ==> r.value == Last(Text.Words(s)) && r.value != "" && NoSpace(r.value)
  {
    var ws := Text.Words(s);
    if ws == [] then None
    else
      Text.WordsAreWords(s);
      assert Last(ws) == ws[|ws| - 1] && Text.IsWord(ws[|ws| - 1]);
      Some(Last(ws))
  }

  /**
   * The last line split from the back: the zipcode is its last word, the
   * state the last word of what remains once every occurrence of the
   * zipcode is removed, and the city the rest once every occurrence of the
   * state is removed. `None` where `split()[-1]` raises.
   */
  function PlaceOf(details: string): (r: Option<Place>)
    ensures r.Some? ==> r.value.zipcode != "" && NoSpace(r.value.zipcode)
    ensures r.Some? ==> r.value.state != "" && NoSpace(r.value.state)
    ensures r.Some? ==> Text.Words(details) != [] && r.value.zipcode == Last(Text.Words(details))
  {
    match LastWord(details)
    case None => None
    case Some(zipcode) =>
      var rest := Without(details, zipcode);
      match LastWord(rest)
      case None => None
      case Some(state) => Some(Place(Without(rest, state), state, zipcode))
  }

  /** What `__parse_info` computes, `None` where it raises; the name is the first line. */
  function ParsedInfo(info: string): (r: Option<Recipient>)
    ensures r.Some? <==> PlaceOf(LastLine(info)).Some?
    ensures r.Some? ==> r.value.name == FirstLine(info) && '\n' !in r.value.name
    ensures r.Some? ==> r.value.address == Address(info)
    ensures r.Some? ==> var p := PlaceOf(LastLine(info)).value; r.value.city == p.city && r.value.state == p.state && r.value.zipcode == p.zipcode
  {
    Text.SplitJoin(Text.Strip(info), '\n');
    match PlaceOf(LastLine(info))
    case None => None
    case Some(p) => Some(Recipient(FirstLine(info), Address(info), p.city, p.state, p.zipcode))
  }

  /** `str.replace` of one character by another keeps the length and changes exactly that character. */
  lemma {:induction false} ReplaceCharBy(s: string, c: char, d: char)
    ensures |Text.ReplaceAll(s, [c], [d])| == |s|
    ensures forall i :: 0 <= i < |s| ==> Text.ReplaceAll(s, [c], [d])[i] == if s[i] == c then d else s[i]
    decreases |s|
  {
    if s != "" {
      ReplaceCharBy(s[1..], c, d);
      if s[0] == c {
        assert Text.StartsWith(s, [c]);
      } else {
        assert !Text.StartsWith(s, [c]);
      }
    }
  }

  /** The `while "\n" in address` loop: one pass replaces every newline, so the loop runs at most once. */
  method NewlinesToSpaces(address: string) returns (r: string)
    ensures r == Text.ReplaceAll(address, "\n", " ")
    ensures '\n' !in r && |r| == |address|
  {
    r := address;
    ReplaceCharBy(address, '\n', ' ');
    while '\n' in r
      invariant r == address || r == Text.ReplaceAll(address, "\n", " ")
      invariant r == address || '\n' !in r
      decreases if '\n' in r then 1 else 0
    {
      r := Text.ReplaceAll(r, "\n", " ");
    }
    if r == address {
      Text.ReplaceCharIdentity(address, '\n');
      ReplaceCharBy(address, '\n', ' ');
      assert Text.ReplaceAll(address, "\n", " ") == address;
    }
  }

  /** `__parse_info`, with its error path as `None`. */
  method ParseInfo(info: string) returns (r: Option<Recipient>)
    ensures r == ParsedInfo(info)
  {
    var parts := Lines(info);
    var name := parts[0];
    var details := parts[|parts| - 1];
    assert name == FirstLine(info) && details == LastLine(info);
    var address := Text.Strip(Text.ReplaceAll(Text.ReplaceAll(Text.Strip(info), name, ""), details, ""));
    address := NewlinesToSpaces(address);
    var place := PlaceOf(details);
    if place.None? {
      return None;
    }
    r := Some(Recipient(name, address, place.value.city, place.value.state, place.value.zipcode));
  }

  /** The parsed address holds no newline. */
  lemma AddressOneLine(info: string)
    requires ParsedInfo(info).Some?
    ensures '\n' !in ParsedInfo(info).value.address
  {
    ReplaceCharBy(Text.Strip(Text.ReplaceAll(Text.ReplaceAll(Text.Strip(info), FirstLine(info), ""), LastLine(info), "")), '\n', ' ');
  }

  lemma WordsBlank(s: string)
    ensures Text.Words(s) == [] <==> Text.LStrip(s) == ""
  {
  }

  /** A blank last line, and so a blank OCR text, cannot be parsed. */
  lemma BlankLastLineFails(info: string)
    requires Text.LStrip(LastLine(info)) == ""
    ensures ParsedInfo(info).None?
  {
    WordsBlank(LastLine(info));
  }

  lemma BlankTextFails(info: string)
    requires Text.Strip(info) == ""
    ensures ParsedInfo(info).None?
  {
    assert Lines(info) == [""];
    BlankLastLineFails(info);
  }

  /** A last line of one word leaves no state, so the text cannot be parsed. */
  lemma OneWordLastLineFails(info: string)
    requires Text.Words(LastLine(info)) == [LastLine(info)]
    ensures ParsedInfo(info).None?
  {
    var details := LastLine(info);
    assert LastWord(details) == Some(details);
    assert Without(details, details) == "" by {
      assert details != "";
      assert Text.StartsWith(details, details);
      assert details[|details|..] == "";
      assert Text.ReplaceAll(details, details, "") == "";
    }
    WordsBlank("");
    assert LastWord("") == None;
  }

  // ---------------------------------------------------------------- _ocr_image

  datatype Status = Success | Error

  datatype Shipping = Shipping(trackingId: string, recipient: Recipient)

  /** The reply for one page; `pageNumber` is set only on the pages of a multi-page PDF. */
  datatype PageResult = PageResult(file: string, status: Status, message: string, data: Option<Shipping>, pageNumber: Option<nat>)

  /** The text OCR'd from one page's tracking-id region and recipient region. */
  datatype PageText = PageText(trackingText: string, infoText: string)

  const TesseractMissing := "Tesseract OCR is not " + "installed. Please install " + "it with: brew install tesseract"
  const ParseFailed := "Có lỗi xảy ra khi parse " + "thông tin người nhận. " + "Kiểm tra lại shipping label"
  const OcrFailedPrefix := "Có lỗi xảy ra khi OCR file PDF: "
  const OcrSucceeded := "OCR file PDF thành công"

  /** The `TypeError` that `Logger._log` raises for the keyword `exec_info`. */
  const LogKeywordError := "Logger._log() got an unexpected keyword argument 'exec_info'"

  /**
   * `_ocr_image` as written: a recipient block that cannot be parsed makes
   * the parser's handler call `logger.error(..., exec_info=e)`, whose
   * unknown keyword raises a `TypeError` that the catch-all of `_ocr_image`
   * reports as an OCR failure.
   */
  function OcrPageAsWritten(file: string, tesseract: bool, page: PageText): (r: PageResult)
    ensures r.status == Success <==> tesseract && ParsedInfo(page.infoText).Some?
    ensures tesseract && ParsedInfo(page.infoText).None? ==> r.message == OcrFailedPrefix + LogKeywordError
  {
    if !tesseract then PageResult(file, Error, TesseractMissing, None, None)
    else match ParsedInfo(page.infoText)
      case None => PageResult(file, Error, OcrFailedPrefix + LogKeywordError, None, None)
      case Some(rec) => PageResult(file, Success, OcrSucceeded, Some(Shipping(CleanTrackingId(page.trackingText), rec)), None)
  }

  lemma OcrFailedIsNotParseFailed(e: string)
    ensures OcrFailedPrefix + e != ParseFailed
  {
    assert ParseFailed[18] == 'p';
    assert (OcrFailedPrefix + e)[18] == 'O';
  }

  /** As written, the dedicated parse-failure message is never produced. */
  lemma ParseFailedNeverReported(file: string, tesseract: bool, page: PageText)
    ensures OcrPageAsWritten(file, tesseract, page).message != ParseFailed
  {
    var m := OcrPageAsWritten(file, tesseract, page).message;
    assert ParseFailed[0] == 'C' && ParseFailed[18] == 'p';
    if !tesseract {
      assert m[0] == 'T';
    } else if ParsedInfo(page.infoText).None? {
      OcrFailedIsNotParseFailed(LogKeywordError);
    } else {
      assert m[0] == 'O';
    }
  }

  /**
   * `_ocr_image` with the parse failure reported as intended: no OCR engine,
   * an unparsable recipient block, or success with the cleaned tracking id
   * and the recipient.
   */
  function OcrPage(file: string, tesseract: bool, page: PageText): (r: PageResult)
    ensures r.file == file && r.pageNumber.None?
    ensures r.status == Success <==> r.data.Some?
    ensures !tesseract ==> r.status == Error && r.message == TesseractMissing
    ensures tesseract && ParsedInfo(page.infoText).None? ==> r.status == Error && r.message == ParseFailed
    ensures tesseract && ParsedInfo(page.infoText).Some? ==>
      r.status == Success && r.data == Some(Shipping(CleanTrackingId(page.trackingText), ParsedInfo(page.infoText).value))
  {
    if !tesseract then PageResult(file, Error, TesseractMissing, None, None)
    else match ParsedInfo(page.infoText)
      case None => PageResult(file, Error, ParseFailed, None, None)
      case Some(rec) => PageResult(file, Success, OcrSucceeded, Some(Shipping(CleanTrackingId(page.trackingText), rec)), None)
  }

  /** Both versions agree except for the message of an unparsable page. */
  lemma OcrPageAgrees(file: string, tesseract: bool, page: PageText)
    ensures OcrPage(file, tesseract, page).status == OcrPageAsWritten(file, tesseract, page).status
    ensures OcrPage(file, tesseract, page).data == OcrPageAsWritten(file, tesseract, page).data
    ensures OcrPage(file, tesseract, page).message != OcrPageAsWritten(file, tesseract, page).message
      <==> tesseract && ParsedInfo(page.infoText).None?
  {
  }

  // ---------------------------------------------------------------- process_pdf_to_info

  const EmptyPdf := "PDF file is empty or corrupted"
  const PopplerMissing := "Poppler is not installed. Please install it first to process PDF files."
  const ProcessFailedPrefix := "Có lỗi xảy ra khi xử lý file PDF: "

  /** What `convert_from_path` gives: Poppler missing, another exception (its text), or the pages' OCR text. */
  datatype Rendering = NoPoppler | RenderRaised(error: string) | Rendered(pages: seq<PageText>)

  function PageFile(pdfPath: string, n: nat): string
  {
    pdfPath + "_page_" + Text.NatToString(n)
  }

  function CountStatus(rs: seq<PageResult>, s: Status): nat
  {
    if rs == [] then 0 else CountStatus(rs[..|rs| - 1], s) + (if rs[|rs| - 1].status == s then 1 else 0)
  }

  lemma {:induction false} CountStatusSplit(rs: seq<PageResult>)
    ensures CountStatus(rs, Success) + CountStatus(rs, Error) == |rs|
  {
    if rs != [] {
      CountStatusSplit(rs[..|rs| - 1]);
    }
  }

  lemma {:induction false} CountSuccessPositive(rs: seq<PageResult>)
    ensures CountStatus(rs, Success) > 0 <==> exists k :: 0 <= k < |rs| && rs[k].status == Success
  {
    if rs != [] {
      var init := rs[..|rs| - 1];
      CountSuccessPositive(init);
      if exists k :: 0 <= k < |init| && init[k].status == Success {
        var k :| 0 <= k < |init| && init[k].status == Success;
        assert rs[k] == init[k];
      }
      if exists k :: 0 <= k < |rs| && rs[k].status == Success {
        var k :| 0 <= k < |rs| && rs[k].status == Success;
        if k < |init| {
          assert init[k] == rs[k];
        }
      }
    }
  }

  datatype PdfReply =
    | OnePage(result: PageResult)
    | AllPages(file: string, status: Status, message: string, total: nat, successful: nat, failed: nat, pages: seq<PageResult>)

  /** Page `n` of a multi-page PDF: its reply, under the file name `<path>_page_<n>`, with its page number. */
  function NumberedPage(pdfPath: string, tesseract: bool, page: PageText, n: nat): (r: PageResult)
    ensures r.pageNumber == Some(n)
  {
    OcrPage(PageFile(pdfPath, n), tesseract, page).(pageNumber := Some(n))
  }

  /** The pages of a multi-page PDF, each OCR'd and numbered from 1. */
  method OcrPages(pdfPath: string, tesseract: bool, pages: seq<PageText>) returns (results: seq<PageResult>)
    ensures |results| == |pages|
    ensures forall k :: 0 <= k < |pages| ==> results[k] == NumberedPage(pdfPath, tesseract, pages[k], k + 1)
  {
    results := [];
    for k := 0 to |pages|
      invariant |results| == k
      invariant forall j :: 0 <= j < k ==> results[j] == NumberedPage(pdfPath, tesseract, pages[j], j + 1)
    {
      results := results + [NumberedPage(pdfPath, tesseract, pages[k], k + 1)];
    }
  }

  /**
   * `process_pdf_to_info` outside the mock mode: Poppler missing or a
   * rendering failure is the file's error; no page is an error, one page is
   * that page's reply, several pages are aggregated with success exactly
   * when some page succeeded.
   */
  method ProcessPdfToInfo(pdfPath: string, tesseract: bool, rendering: Rendering) returns (r: PdfReply)
    ensures rendering.NoPoppler? ==> r == OnePage(PageResult(pdfPath, Error, PopplerMissing, None, None))
    ensures rendering.RenderRaised? ==>
      r == OnePage(PageResult(pdfPath, Error, ProcessFailedPrefix + rendering.error, None, None))
    ensures rendering.Rendered? && |rendering.pages| == 0 ==> r == OnePage(PageResult(pdfPath, Error, EmptyPdf, None, None))
    ensures rendering.Rendered? && |rendering.pages| == 1 ==>
      r == OnePage(OcrPage(PageFile(pdfPath, 1), tesseract, rendering.pages[0]))
    ensures rendering.Rendered? && |rendering.pages| > 1 ==>
      && r.AllPages? && r.file == pdfPath && r.total == |rendering.pages| == |r.pages|
      && forall k :: 0 <= k < |r.pages| ==> r.pages[k] == NumberedPage(pdfPath, tesseract, rendering.pages[k], k + 1)
    ensures r.AllPages? ==> r.successful + r.failed == r.total
    ensures r.AllPages? ==> (r.status == Success <==> exists k :: 0 <= k < |r.pages| && r.pages[k].status == Success)
    ensures r.AllPages? ==> r.successful == CountStatus(r.pages, Success)
    ensures r.AllPages? ==> forall k :: 0 <= k < |r.pages| ==> r.pages[k].pageNumber == Some(k + 1)
    ensures r.AllPages? ==> r.message == "Processed " + Text.NatToString(r.successful) + " of " + Text.NatToString(r.total) + " pages successfully"
  {
    if rendering.NoPoppler? {
      return OnePage(PageResult(pdfPath, Error, PopplerMissing, None, None));
    }
    if rendering.RenderRaised? {
      return OnePage(PageResult(pdfPath, Error, ProcessFailedPrefix + rendering.error, None, None));
    }
    var pages := rendering.pages;
    if |pages| == 0 {
      return OnePage(PageResult(pdfPath, Error, EmptyPdf, None, None));
    }
    if |pages| == 1 {
      return OnePage(OcrPage(PageFile(pdfPath, 1), tesseract, pages[0]));
    }
    var results := OcrPages(pdfPath, tesseract, pages);
    var successful := CountStatus(results, Success);
    var failed := CountStatus(results, Error);
    CountStatusSplit(results);
    CountSuccessPositive(results);
    r := AllPages(pdfPath, if successful > 0 then Success else Error,
                  "Processed " + Text.NatToString(successful) + " of " + Text.NatToString(|pages|) + " pages successfully",
                  |pages|, successful, failed, results);
  }
}
