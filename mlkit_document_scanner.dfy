/**
 * The bridge to ML Kit's document scanner: the options a scan is started
 * with, the reply for a scanner that fails to start, and the reply built from
 * the result the scanner activity returns. ML Kit itself is opaque; only what
 * the plugin observes of it is modelled.
 */
module MLKitDocumentScanner {
  import opened Wrappers
  import opened Replies
  import opened ScannerModes
  import opened DocumentScannerRequests

  // ---- Starting a scan ----

  datatype ResultFormat = ResultFormatJpeg | ResultFormatPdf

  /** What `GmsDocumentScannerOptions.Builder` is given. */
  datatype ScannerOptions = ScannerOptions(
    galleryImportAllowed: bool,
    scannerMode: ScannerModeOption,
    resultFormats: seq<ResultFormat>,
    pageLimit: Option<int>)

  /** The options `scanDocuments` builds for a request. */
  function ScannerOptionsFor(request: DocumentScannerRequest): (o: ScannerOptions)
    ensures o.galleryImportAllowed == request.allowGalleryImport
    ensures o.scannerMode == request.scannerMode
    ensures o.resultFormats in {[ResultFormatJpeg, ResultFormatPdf], [ResultFormatPdf], [ResultFormatJpeg]}
    ensures ResultFormatPdf in o.resultFormats <==> request.returnPdf
    ensures ResultFormatJpeg in o.resultFormats <==> request.returnJpegs || !request.returnPdf
    ensures o.pageLimit.Some? <==> request.maxPages.Some?
    ensures o.pageLimit.Some? ==> o.pageLimit.value == request.maxPages.value
  {
    var formats :=
      if request.returnJpegs && request.returnPdf then [ResultFormatJpeg, ResultFormatPdf]
      else if request.returnPdf then [ResultFormatPdf]
      else [ResultFormatJpeg];
    ScannerOptions(request.allowGalleryImport, request.scannerMode, formats, request.maxPages)
  }

  /** For a request the parser accepted, the scanner is asked for exactly the formats requested. */
  lemma ParsedRequestFormatsExact(arguments: MethodCalls.Arg)
    requires ToDocumentScannerRequest(arguments).Success?
    ensures var request := ToDocumentScannerRequest(arguments).value;
            var o := ScannerOptionsFor(request);
            (ResultFormatJpeg in o.resultFormats <==> request.returnJpegs)
            && (ResultFormatPdf in o.resultFormats <==> request.returnPdf)
  {
  }

  /** The failure `getStartScanIntent` reports. */
  datatype Throwable =
    | MlKitException(hasUnsupportedCode: bool, localizedMessage: Option<string>)
    | OtherThrowable(localizedMessage: Option<string>)

  const UnsupportedMessage: string := "This device does not support the ML Kit document scanner."
  const StartFailedMessage: string := "Failed to start document scanner."

  /** The error the failure listener of `scanDocuments` reports. */
  function StartFailureReply(t: Throwable): (r: Reply)
    ensures r.Err? && r.details == t.localizedMessage
    ensures r.code == UnsupportedCode <==> t.MlKitException? && t.hasUnsupportedCode
    ensures r.code != UnsupportedCode ==> r.code == ScannerErrorCode
  {
    if t.MlKitException? && t.hasUnsupportedCode then Err(UnsupportedCode, UnsupportedMessage, t.localizedMessage)
    else Err(ScannerErrorCode, StartFailedMessage, t.localizedMessage)
  }

  // ---- The scanner activity's result ----

  const ResultOk: int := -1
  const ResultCanceled: int := 0

  type Uri = string

  datatype Page = Page(imageUri: Uri)
  datatype ScannedPdf = ScannedPdf(uri: Uri)

  /** `GmsDocumentScanningResult`: either part may be missing. */
  datatype ScanningResult = ScanningResult(pages: Option<seq<Page>>, pdf: Option<ScannedPdf>)

  /** The result intent, reduced to what `fromActivityResultIntent` extracts from it (None: unparseable). */
  datatype Intent = Intent(scanningResult: Option<ScanningResult>)

  datatype ActivityResult = ActivityResult(resultCode: int, data: Option<Intent>)

  /** `readBytes`: reads a content URI, or fails with the `IOException`'s message. */
  type ReadBytes = Uri -> Result<Bytes, Option<string>>

  const NoDataMessage: string := "No data returned from scanner"
  const NoPagesMessage: string := "No pages returned from scanner"
  const NoPdfMessage: string := "No PDF returned from scanner"
  const ImageReadMessage: string := "Failed to read scanned image file."
  const PdfReadMessage: string := "Failed to read scanned PDF file."
  const ScanFailedMessagePrefix: string := "Document scanning failed with result code: "

  /**
   * `pages.mapIndexed { index, page -> {index, readBytes(page.imageUri)} }`
   * from position `start` on: the first read that throws aborts the whole
   * list.
   */
  function PagePayloadsFrom(pages: seq<Page>, start: nat, read: ReadBytes): (r: Result<seq<PageEntry>, Option<string>>)
    requires start <= |pages|
    decreases |pages| - start
    ensures r.Success? <==> forall k :: start <= k < |pages| ==> read(pages[k].imageUri).Success?
    ensures r.Success? ==> |r.value| == |pages| - start
    ensures r.Success? ==> forall k :: 0 <= k < |r.value| ==>
              r.value[k] == PageEntry(start + k, read(pages[start + k].imageUri).value)
    ensures r.Failure? ==>
              exists k :: start <= k < |pages| && read(pages[k].imageUri) == Failure(r.error)
                && forall j :: start <= j < k ==> read(pages[j].imageUri).Success?
  {
    if start == |pages| then Success([])
    else
      match read(pages[start].imageUri)
      case Failure(e) => Failure(e)
      case Success(bytes) =>
        var rest :- PagePayloadsFrom(pages, start + 1, read);
        Success([PageEntry(start, bytes)] + rest)
  }

  /** The page list: indices `0..n-1` in scanner order, or the first read failure. */
  function PagePayloads(pages: seq<Page>, read: ReadBytes): (r: Result<seq<PageEntry>, Option<string>>)
    ensures r.Success? <==> forall k :: 0 <= k < |pages| ==> read(pages[k].imageUri).Success?
    ensures r.Success? ==> |r.value| == |pages|
    ensures r.Success? ==> forall k :: 0 <= k < |pages| ==> r.value[k] == PageEntry(k, read(pages[k].imageUri).value)
    ensures r.Failure? ==>
              exists k :: 0 <= k < |pages| && read(pages[k].imageUri) == Failure(r.error)
                && forall j :: 0 <= j < k ==> read(pages[j].imageUri).Success?
  {
    PagePayloadsFrom(pages, 0, read)
  }

  /** The scanning result carried by an optional intent. */
  function ScanningResultOf(data: Option<Intent>): Option<ScanningResult> {
    if data.Some? then data.value.scanningResult else None
  }

  /** The scanner returned a non-empty page list. */
  predicate HasPages(scan: ScanningResult) {
    scan.pages.Some? && |scan.pages.value| > 0
  }

  /**
   * The reply `handleSuccess` gives: each step either fails with its own
   * error or lets the next one run; only when every requested output was read
   * is the payload delivered.
   */
  ghost predicate SuccessReply(request: DocumentScannerRequest, data: Option<Intent>, read: ReadBytes, reply: Reply) {
    var scan := ScanningResultOf(data);
    if scan.None? then
      reply == Err(NoDataCode, NoDataMessage, None)
    else if request.returnJpegs && !HasPages(scan.value) then
      reply == Err(NoDataCode, NoPagesMessage, None)
    else if request.returnJpegs && PagePayloads(scan.value.pages.value, read).Failure? then
      reply == Err(FileReadErrorCode, ImageReadMessage, PagePayloads(scan.value.pages.value, read).error)
    else if request.returnPdf && scan.value.pdf.None? then
      reply == Err(NoDataCode, NoPdfMessage, None)
    else if request.returnPdf && read(scan.value.pdf.value.uri).Failure? then
      reply == Err(FileReadErrorCode, PdfReadMessage, read(scan.value.pdf.value.uri).error)
    else
      && reply.Ok? && reply.value.Some?
      && reply.value.value.Keys == {PagesKey} + (if request.returnPdf then {PdfKey} else {})
      && reply.value.value[PagesKey] ==
           PageList(if request.returnJpegs then PagePayloads(scan.value.pages.value, read).value else [])
      && (request.returnPdf ==> reply.value.value[PdfKey] == Blob(read(scan.value.pdf.value.uri).value))
  }

  /** `handleSuccess`: builds the payload map in place, returning early on the first error. */
  method HandleSuccess(data: Option<Intent>, request: DocumentScannerRequest, read: ReadBytes) returns (reply: Reply)
    ensures SuccessReply(request, data, read, reply)
  {
    if data.None? {
      return Err(NoDataCode, NoDataMessage, None);
    }
    var scanResult := data.value.scanningResult;
    if scanResult.None? {
      return Err(NoDataCode, NoDataMessage, None);
    }
    var scan := scanResult.value;

    var payload: Payload := map[PagesKey := PageList([])];

    if request.returnJpegs {
      var pages := scan.pages;
      if pages.None? || |pages.value| == 0 {
        return Err(NoDataCode, NoPagesMessage, None);
      }
      var pagePayloads := PagePayloads(pages.value, read);
      if pagePayloads.Failure? {
        return Err(FileReadErrorCode, ImageReadMessage, pagePayloads.error);
      }
      payload := payload[PagesKey := PageList(pagePayloads.value)];
    }

    if request.returnPdf {
      var pdf := scan.pdf;
      if pdf.None? {
        return Err(NoDataCode, NoPdfMessage, None);
      }
      var bytes := read(pdf.value.uri);
      if bytes.Failure? {
        return Err(FileReadErrorCode, PdfReadMessage, bytes.error);
      }
      payload := payload[PdfKey := Blob(bytes.value)];
    }

    return Ok(Some(payload));
  }

  /** The reply `handleScanResult` gives for the activity's result code. */
  ghost predicate ScanResultReply(activityResult: ActivityResult, request: DocumentScannerRequest, read: ReadBytes, reply: Reply) {
    if activityResult.resultCode == ResultOk then
      SuccessReply(request, activityResult.data, read, reply)
    else if activityResult.resultCode == ResultCanceled then
      reply == Ok(None)
    else
      reply == Err(ScanFailedCode, ScanFailedMessagePrefix + IntToString(activityResult.resultCode), None)
  }

  /** `handleScanResult`. */
  method HandleScanResult(activityResult: ActivityResult, request: DocumentScannerRequest, read: ReadBytes) returns (reply: Reply)
    ensures ScanResultReply(activityResult, request, read, reply)
  {
    if activityResult.resultCode == ResultOk {
      reply := HandleSuccess(activityResult.data, request, read);
    } else if activityResult.resultCode == ResultCanceled {
      reply := Ok(None);
    } else {
      reply := Err(ScanFailedCode, ScanFailedMessagePrefix + IntToString(activityResult.resultCode), None);
    }
  }

  // ---- Properties of the reply ----

  /** The reply is determined by its inputs: `handleSuccess` answers in exactly one way. */
  lemma SuccessReplyDeterminate(request: DocumentScannerRequest, data: Option<Intent>, read: ReadBytes, r1: Reply, r2: Reply)
    requires SuccessReply(request, data, read, r1) && SuccessReply(request, data, read, r2)
    ensures r1 == r2
  {
    var scan := ScanningResultOf(data);
    if r1.Ok? {
      var p1, p2 := r1.value.value, r2.value.value;
      assert p1.Keys == p2.Keys;
      forall key | key in p1 ensures p1[key] == p2[key] {
      }
      assert p1 == p2;
    }
  }

  /** All or nothing: a successful reply with JPEGs holds one entry per scanned page, every read having succeeded. */
  lemma SuccessReplyAllPages(request: DocumentScannerRequest, data: Option<Intent>, read: ReadBytes, reply: Reply)
    requires SuccessReply(request, data, read, reply)
    requires request.returnJpegs
    ensures reply.Ok? <==>
              && ScanningResultOf(data).Some? && HasPages(ScanningResultOf(data).value)
              && (forall k :: 0 <= k < |ScanningResultOf(data).value.pages.value| ==>
                    read(ScanningResultOf(data).value.pages.value[k].imageUri).Success?)
              && (request.returnPdf ==>
                    ScanningResultOf(data).value.pdf.Some? && read(ScanningResultOf(data).value.pdf.value.uri).Success?)
    ensures reply.Ok? ==>
              var pages := ScanningResultOf(data).value.pages.value;
              && reply.value.value[PagesKey].PageList?
              && |reply.value.value[PagesKey].entries| == |pages|
              && forall k :: 0 <= k < |pages| ==>
                   reply.value.value[PagesKey].entries[k] == PageEntry(k, read(pages[k].imageUri).value)
  {
  }

  /** A successful reply always carries `pages` (empty unless JPEGs were asked for), and carries `pdf` exactly when a PDF was. */
  lemma SuccessReplyKeys(request: DocumentScannerRequest, data: Option<Intent>, read: ReadBytes, reply: Reply)
    requires SuccessReply(request, data, read, reply)
    ensures reply.Ok? ==> reply.value.Some? && PagesKey in reply.value.value
    ensures reply.Ok? ==> (PdfKey in reply.value.value <==> request.returnPdf)
    ensures reply.Ok? && !request.returnJpegs ==> reply.value.value[PagesKey] == PageList([])
    ensures reply.Err? ==> reply.code in {NoDataCode, FileReadErrorCode}
    ensures !reply.NotImplemented?
  {
  }
}
