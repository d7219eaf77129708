/**
 * `DocumentScannerRequest` and the parser that builds it from the arguments
 * of a `scanDocuments` call: fixed defaults, then four checks in a fixed
 * order, the first failing one raising `IllegalArgumentException`.
 */
module DocumentScannerRequests {
  import opened Wrappers
  import opened MethodCalls
  import opened ScannerModes

  /** A validated scan configuration. */
  datatype DocumentScannerRequest = DocumentScannerRequest(
    allowGalleryImport: bool,
    maxPages: Option<int>,
    returnJpegs: bool,
    returnPdf: bool,
    jpegQuality: real,
    scannerMode: ScannerModeOption)

  const DefaultJpegQuality: real := 0.9
  const DefaultScannerModeValue: int := 1

  const NoOutputFormatMessage: string := "At least one of returnJpegs or returnPdf must be true."
  const JpegQualityNotNumericMessage: string := "jpegQuality must be numeric."
  const MaxPagesMessage: string := "maxPages must be a positive integer."
  const JpegQualityRangeMessage: string := "jpegQuality must be between 0 and 1."

  /** The four rejection messages tell the rules apart. */
  lemma MessagesDistinct()
    ensures |{NoOutputFormatMessage, JpegQualityNotNumericMessage, MaxPagesMessage, JpegQualityRangeMessage}| == 4
  {
  }

  // ---- What the arguments say, key by key, with the defaults applied ----

  /** A flag that is absent or a boolean, so that reading it cannot throw. */
  predicate FlagReadable(arguments: Arg, key: string) {
    Lookup(arguments, key).Null? || Lookup(arguments, key).Bool?
  }

  /** The value of a flag, or its default when absent. */
  function Flag(arguments: Arg, key: string, default: bool): bool {
    if Lookup(arguments, key).Bool? then Lookup(arguments, key).b else default
  }

  /** The three flags can all be read. */
  predicate FlagsReadable(arguments: Arg) {
    IsArgumentMap(arguments)
    && FlagReadable(arguments, "allowGalleryImport")
    && FlagReadable(arguments, "returnJpegs")
    && FlagReadable(arguments, "returnPdf")
  }

  /** At least one output format is asked for. */
  predicate FormatRequested(arguments: Arg) {
    Flag(arguments, "returnJpegs", true) || Flag(arguments, "returnPdf", false)
  }

  /** `jpegQuality` is absent or numeric. */
  predicate QualityNumeric(arguments: Arg) {
    Lookup(arguments, "jpegQuality").Null? || IsNumber(Lookup(arguments, "jpegQuality"))
  }

  /** The quality asked for, or the default. */
  function Quality(arguments: Arg): real {
    NumberToDouble(Lookup(arguments, "jpegQuality")).GetOr(DefaultJpegQuality)
  }

  /** The page limit: a non-numeric value reads as no limit. */
  function MaxPages(arguments: Arg): Option<int> {
    NumberToInt(Lookup(arguments, "maxPages"))
  }

  /** `maxPages` is absent or positive. */
  predicate MaxPagesValid(arguments: Arg) {
    MaxPages(arguments).None? || MaxPages(arguments).value > 0
  }

  /** `jpegQuality` lies in the closed interval [0, 1]. */
  predicate QualityInRange(arguments: Arg) {
    0.0 <= Quality(arguments) <= 1.0
  }

  /** The `android` entry is absent or a map. */
  predicate AndroidReadable(arguments: Arg) {
    Lookup(arguments, "android").Null? || Lookup(arguments, "android").Map?
  }

  /** The requested scanner mode value; anything unreadable reads as 1. */
  function ScannerModeValue(arguments: Arg): int {
    var android := Lookup(arguments, "android");
    if android.Map? then NumberToInt(Lookup(android, "scannerMode")).GetOr(DefaultScannerModeValue)
    else DefaultScannerModeValue
  }

  /** The checks before rule `k` (1-based) all passed. */
  predicate PassesBefore(arguments: Arg, k: nat) {
    FlagsReadable(arguments)
    && (k > 1 ==> FormatRequested(arguments))
    && (k > 2 ==> QualityNumeric(arguments))
    && (k > 3 ==> MaxPagesValid(arguments))
    && (k > 4 ==> QualityInRange(arguments))
  }

  /**
   * `MethodCall.toDocumentScannerRequest()`. The reads and checks happen in
   * the order of the Kotlin code; the first failure is the one raised.
   */
  function ToDocumentScannerRequest(arguments: Arg): (r: Result<DocumentScannerRequest, ParseError>)
    // Reading a flag of the wrong type, or any key of arguments that are not a map, throws ClassCastException.
    ensures !IsArgumentMap(arguments) ==> r == Failure(ClassCast("allowGalleryImport"))
    ensures r.Failure? && r.error.ClassCast? <==> !FlagsReadable(arguments) || (PassesBefore(arguments, 5) && !AndroidReadable(arguments))
    // Rule 1: no output format.
    ensures r == Failure(IllegalArgument(NoOutputFormatMessage)) <==> PassesBefore(arguments, 1) && !FormatRequested(arguments)
    // Rule 2: jpegQuality is not a number.
    ensures r == Failure(IllegalArgument(JpegQualityNotNumericMessage)) <==> PassesBefore(arguments, 2) && !QualityNumeric(arguments)
    // Rule 3: maxPages is present and not positive.
    ensures r == Failure(IllegalArgument(MaxPagesMessage)) <==> PassesBefore(arguments, 3) && !MaxPagesValid(arguments)
    // Rule 4: jpegQuality is outside [0, 1].
    ensures r == Failure(IllegalArgument(JpegQualityRangeMessage)) <==> PassesBefore(arguments, 4) && !QualityInRange(arguments)
    // No other exception is raised.
    ensures r.Failure? && r.error.IllegalArgument? ==>
              r.error.message in {NoOutputFormatMessage, JpegQualityNotNumericMessage, MaxPagesMessage, JpegQualityRangeMessage}
    // Success exactly when every check passes, with every value carried over unchanged or defaulted.
    ensures r.Success? <==> PassesBefore(arguments, 5) && AndroidReadable(arguments)
    ensures r.Success? ==> r.value == DocumentScannerRequest(
              Flag(arguments, "allowGalleryImport", true),
              MaxPages(arguments),
              Flag(arguments, "returnJpegs", true),
              Flag(arguments, "returnPdf", false),
              Quality(arguments),
              FromChannelValue(Some(ScannerModeValue(arguments))))
    ensures r.Success? ==> (r.value.returnJpegs || r.value.returnPdf) && 0.0 <= r.value.jpegQuality <= 1.0
    ensures r.Success? && r.value.maxPages.Some? ==> r.value.maxPages.value > 0
  {
    MessagesDistinct();
    var allowGalleryImport :- BoolArgument(arguments, "allowGalleryImport", true);
    // Once the first read has succeeded the arguments are a map or null, so later reads cannot throw.
    var maxPages := NumberToInt(Lookup(arguments, "maxPages"));
    var returnJpegs :- BoolArgument(arguments, "returnJpegs", true);
    var returnPdf :- BoolArgument(arguments, "returnPdf", false);
    if !returnJpegs && !returnPdf then Failure(IllegalArgument(NoOutputFormatMessage))
    else
      var rawQuality := Lookup(arguments, "jpegQuality");
      if !(rawQuality.Null? || IsNumber(rawQuality)) then Failure(IllegalArgument(JpegQualityNotNumericMessage))
      else
        var jpegQuality := if rawQuality.Null? then DefaultJpegQuality else NumberToDouble(rawQuality).value;
        if maxPages.Some? && maxPages.value <= 0 then Failure(IllegalArgument(MaxPagesMessage))
        else if jpegQuality < 0.0 || jpegQuality > 1.0 then Failure(IllegalArgument(JpegQualityRangeMessage))
        else
          var androidArguments := Lookup(arguments, "android");
          if !(androidArguments.Null? || androidArguments.Map?) then Failure(ClassCast("android"))
          else
            var scannerModeValue :=
              if androidArguments.Map? then NumberToInt(Lookup(androidArguments, "scannerMode")).GetOr(DefaultScannerModeValue)
              else DefaultScannerModeValue;
            Success(DocumentScannerRequest(
              allowGalleryImport, maxPages, returnJpegs, returnPdf, jpegQuality,
              FromChannelValue(Some(scannerModeValue))))
  }

  /** With no arguments at all, every default applies. */
  lemma NoArgumentsGiveDefaults()
    ensures ToDocumentScannerRequest(Null) == Success(DocumentScannerRequest(true, None, true, false, DefaultJpegQuality, Full))
  {
  }

  /** The arguments of a full configuration are carried into the request unchanged. */
  lemma FullConfigurationParses()
    ensures ToDocumentScannerRequest(Map(map[
              "allowGalleryImport" := Bool(false),
              "maxPages" := Int(5),
              "returnJpegs" := Bool(true),
              "returnPdf" := Bool(true),
              "jpegQuality" := Real(0.8),
              "android" := Map(map["scannerMode" := Int(2)])]))
            == Success(DocumentScannerRequest(false, Some(5), true, true, 0.8, BaseWithFilter))
  {
  }

  /** A negative page limit is the first failing check. */
  lemma NegativeMaxPagesRejected()
    ensures ToDocumentScannerRequest(Map(map["maxPages" := Int(-1)])) == Failure(IllegalArgument(MaxPagesMessage))
  {
  }

  /** A non-numeric page limit is silently dropped rather than rejected. */
  lemma NonNumericMaxPagesIgnored(arguments: Arg)
    requires arguments.Map? && "maxPages" in arguments.entries && !IsNumber(arguments.entries["maxPages"])
    ensures ToDocumentScannerRequest(arguments).Success? ==> ToDocumentScannerRequest(arguments).value.maxPages == None
  {
  }
}
