/**
 * What the plugin hands back to a Dart caller through the channel's
 * `Result`: a success value, an error triple, or "not implemented"; and the
 * error codes and messages it uses.
 */
module Replies {
  import opened Wrappers

  type Bytes = seq<bv8>

  /** One entry of the `pages` list: `{index, bytes}`. */
  datatype PageEntry = PageEntry(index: int, bytes: Bytes)

  /** A value stored in the success payload map. */
  datatype PayloadValue = PageList(entries: seq<PageEntry>) | Blob(bytes: Bytes)

  /** The success payload: `pages` and, when asked for, `pdf`. */
  type Payload = map<string, PayloadValue>

  /** A call on the channel's `Result`: `success`, `error` or `notImplemented`. */
  datatype Reply =
    | Ok(value: Option<Payload>)
    | Err(code: string, message: string, details: Option<string>)
    | NotImplemented

  const NoActivityCode: string := "NO_ACTIVITY"
  const ScanInProgressCode: string := "SCAN_IN_PROGRESS"
  const InvalidArgumentCode: string := "INVALID_ARGUMENT"
  const ActivityDetachedCode: string := "ACTIVITY_DETACHED"
  const UnsupportedCode: string := "DOCUMENT_SCANNER_UNSUPPORTED"
  const ScannerErrorCode: string := "SCANNER_ERROR"
  const ScanFailedCode: string := "SCAN_FAILED"
  const NoDataCode: string := "NO_DATA"
  const FileReadErrorCode: string := "FILE_READ_ERROR"

  const PagesKey: string := "pages"
  const PdfKey: string := "pdf"

  predicate IsDigit(c: char) {
    '0' <= c <= '9'
  }

  predicate AllDigits(s: string) {
    forall k :: 0 <= k < |s| ==> IsDigit(s[k])
  }

  /** The number a string of decimal digits denotes, most significant digit first. */
  function DecimalValue(s: string): nat
    requires AllDigits(s)
  {
    if |s| == 0 then 0 else DecimalValue(s[..|s| - 1]) * 10 + (s[|s| - 1] as int - '0' as int)
  }

  /** The decimal digits of `n`, as Kotlin's string templates print an `Int`: no leading zero. */
  function NatToString(n: nat): (r: string)
    ensures |r| >= 1 && AllDigits(r)
    ensures DecimalValue(r) == n
    ensures r[0] == '0' ==> n == 0 && r == "0"
    decreases n
  {
    var digit := ["0123456789"[n % 10]];
    if n < 10 then digit else
      var prefix := NatToString(n / 10);
      assert (prefix + digit)[..|prefix + digit| - 1] == prefix;
      prefix + digit
  }

  /** `"$i"`: an optional leading '-', then the decimal digits of the magnitude. */
  function IntToString(i: int): (r: string)
    ensures |r| >= 1
    ensures r[0] == '-' <==> i < 0
    ensures i < 0 ==> AllDigits(r[1..]) && |r| >= 2 && DecimalValue(r[1..]) == -i
    ensures i >= 0 ==> AllDigits(r) && DecimalValue(r) == i
    ensures i >= 0 ==> (r[0] == '0' ==> r == "0")
    ensures i < 0 ==> r[1] != '0'
  {
    if i < 0 then
      var digits := NatToString(-i);
      assert ("-" + digits)[1..] == digits;
      "-" + digits
    else NatToString(i)
  }

  /** Different integers print differently, so the SCAN_FAILED message names the code exactly. */
  lemma IntToStringInjective(i: int, j: int)
    requires IntToString(i) == IntToString(j)
    ensures i == j
  {
  }
}
