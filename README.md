# simplest_document_scanner (Android side), modelled in Dafny

This project models the Android half of the `simplest_document_scanner` Flutter
plugin. A Dart caller asks for a document scan over a method channel. The plugin
then does five things:

- it parses the call's untyped arguments into a `DocumentScannerRequest`;
- it keeps at most one caller waiting for a scan;
- it starts ML Kit's document scanner with options derived from the request;
- it turns the scanner activity's result into a payload or an error;
- it answers the waiting caller when the activity goes away.

Modules, one per source file or shared vocabulary:

- `Wrappers` (wrappers.dfy): `Option` and `Result`.
- `MethodCalls` (method_call.dfy): the channel's argument values and the plugin's typed reads of them, including Kotlin's `Number.toInt()` and `toDouble()`.
- `ScannerModes` (scanner_mode_option.dfy): `ScannerModeOption` and `fromChannelValue`.
- `DocumentScannerRequests` (document_scanner_request.dfy): `DocumentScannerRequest` and `toDocumentScannerRequest`.
- `Replies` (replies.dfy): the three calls a channel `Result` accepts (`success`, `error`, `notImplemented`), the payload map, and the error codes.
- `MLKitDocumentScanner` (mlkit_document_scanner.dfy): the scanner options, the start-failure reply, `handleScanResult` and `handleSuccess`.
- `SimplestDocumentScannerPlugin` (plugin.dfy): the class `Plugin` with the fields `activity`, `scannerLauncher`, `pendingResult` and `pendingRequest`. Every platform callback is one of its methods.

A caller (a channel `Result` object) is an opaque id. The plugin keeps a ghost
log of every reply it hands over. Each entry is a `Delivery(caller, reply,
stillPending)`, where `stillPending` records whether the plugin still held
that caller as pending at the moment it answered. `Plugin.ExactlyOnce()` says
three things:

- no caller appears twice in the log;
- the pending caller has not been answered yet;
- every caller the plugin has taken is either pending or answered.

Every event method preserves `ExactlyOnce()` except the wrapped result written
in the source. That one preserves it only while the caller it captured is the
pending one; see "## Findings".

Assumptions about code outside the repository:

- Flutter's `MethodCall.argument(key)` answers null for every key when the call has no arguments. It looks the key up when the arguments are a map, and throws `ClassCastException` for any other value.
- `argument<Boolean>(key)` and `argument<Map<…>>(key)` throw `ClassCastException` when the stored value has another type, because Kotlin casts the erased result where it is used.
- That exception is not an `IllegalArgumentException`, so it escapes `handleScanRequest`. The model returns `Raised` and delivers nothing through the plugin.
- `Long.toInt()` keeps the low 32 bits. `Double.toInt()` truncates toward zero and saturates at the 32-bit bounds.
- `GmsDocumentScanningResult.fromActivityResultIntent` is represented by the `Intent` value itself. It carries the scanning result that would be extracted, or none.
- `readBytes` is a parameter `read: Uri -> Result<Bytes, Option<string>>`. A failure stands for the `IOException` and its message.
- ML Kit's `UNSUPPORTED` error code is a flag on the `MlKitException` value, not a number.

## Model

| member | source | states |
|---|---|---|
| ScannerModes.FirstWithChannelValue | android/src/main/kotlin/dev/bizjak/simplest_document_scanner/ScannerModeOption.kt:17 | `firstOrNull`: the result has the wanted channel value and no earlier mode has it; the result is absent exactly when no mode has it |
| ScannerModes.ChannelValue | android/src/main/kotlin/dev/bizjak/simplest_document_scanner/ScannerModeOption.kt:8-13 | each mode's channel value is its 1-based position in declaration order: FULL 1, BASE_WITH_FILTER 2, BASE 3 |
| ScannerModes.FromChannelValue | android/src/main/kotlin/dev/bizjak/simplest_document_scanner/ScannerModeOption.kt:11-17 | 1 gives FULL, 2 gives BASE_WITH_FILTER, 3 gives BASE; any other integer, and null, gives FULL; the lookup is total |
| ScannerModes.FromChannelValueRoundTrip | android/src/main/kotlin/dev/bizjak/simplest_document_scanner/ScannerModeOption.kt:11-17 | `fromChannelValue(m.channelValue) == m` for every mode |
| ScannerModes.ChannelValueInjective | android/src/main/kotlin/dev/bizjak/simplest_document_scanner/ScannerModeOption.kt:11-13 | two modes with the same channel value are the same mode |
| MethodCalls.Lookup | android/src/main/kotlin/dev/bizjak/simplest_document_scanner/SimplestDocumentScannerPlugin.kt:91-92 | the value stored under a key of an argument map; null when the key is absent or the call has no arguments |
| MethodCalls.Argument | android/src/main/kotlin/dev/bizjak/simplest_document_scanner/SimplestDocumentScannerPlugin.kt:92 | `argument<Any?>(key)`: succeeds exactly for a null or map argument, with the stored value; any other argument value is a ClassCastException |
| MethodCalls.BoolArgument | android/src/main/kotlin/dev/bizjak/simplest_document_scanner/SimplestDocumentScannerPlugin.kt:91-94 | `argument<Boolean>(key) ?: default`: the stored boolean, the default when absent, a ClassCastException for any other value |
| MethodCalls.NumberToInt | android/src/main/kotlin/dev/bizjak/simplest_document_scanner/SimplestDocumentScannerPlugin.kt:92 | `(x as? Number)?.toInt()`: present exactly for numbers, always a 32-bit value; an integer keeps its low 32 bits (in-range integers unchanged); a real is truncated toward zero and saturates at the 32-bit bounds |
| MethodCalls.WrapToInt32 | android/src/main/kotlin/dev/bizjak/simplest_document_scanner/SimplestDocumentScannerPlugin.kt:92 | `Long.toInt()`: a 32-bit value congruent to the input modulo 2^32, unchanged when already in range |
| MethodCalls.TruncateTowardZero | android/src/main/kotlin/dev/bizjak/simplest_document_scanner/SimplestDocumentScannerPlugin.kt:92 | the JVM's double-to-int rounding: the integer next to the real on the side of zero, within distance 1 |
| MethodCalls.SaturateToInt32 | android/src/main/kotlin/dev/bizjak/simplest_document_scanner/SimplestDocumentScannerPlugin.kt:92 | `Double.toInt()`: truncation toward zero inside the 32-bit range, the nearest bound outside it |
| MethodCalls.NumberToDouble | android/src/main/kotlin/dev/bizjak/simplest_document_scanner/SimplestDocumentScannerPlugin.kt:101 | `rawQuality.toDouble()`: present exactly for numbers; a real is kept, an integer becomes the same value |
| DocumentScannerRequests.ToDocumentScannerRequest | android/src/main/kotlin/dev/bizjak/simplest_document_scanner/SimplestDocumentScannerPlugin.kt:90-125 | the first failing rule wins, each as an if-and-only-if: no output format, then non-numeric jpegQuality, then maxPages not positive, then jpegQuality outside [0,1]; success exactly when all pass, with the flags carried over or defaulted (true, true, false), quality defaulting to 0.9, a non-numeric maxPages read as absent, and the mode from fromChannelValue (default value 1) |
| DocumentScannerRequests.NoArgumentsGiveDefaults | android/src/main/kotlin/dev/bizjak/simplest_document_scanner/SimplestDocumentScannerPlugin.kt:91-115 | a call without arguments gives allowGalleryImport=true, no page limit, JPEGs only, quality 0.9, FULL |
| DocumentScannerRequests.FullConfigurationParses | android/src/test/kotlin/dev/bizjak/simplest_document_scanner/SimplestDocumentScannerPluginTest.kt:47-72 | the full configuration with scannerMode 2 parses to exactly those fields and BASE_WITH_FILTER |
| DocumentScannerRequests.NegativeMaxPagesRejected | android/src/test/kotlin/dev/bizjak/simplest_document_scanner/SimplestDocumentScannerPluginTest.kt:87-96 | `{maxPages: -1}` is rejected with "maxPages must be a positive integer." |
| DocumentScannerRequests.NonNumericMaxPagesIgnored | android/src/main/kotlin/dev/bizjak/simplest_document_scanner/SimplestDocumentScannerPlugin.kt:92 | a non-numeric maxPages never becomes a page limit |
| MLKitDocumentScanner.ScannerOptionsFor | android/src/main/kotlin/dev/bizjak/simplest_document_scanner/MLKitDocumentScanner.kt:27-40 | formats are {JPEG, PDF}, {PDF} or {JPEG}; PDF is asked for iff returnPdf, JPEG iff returnJpegs or not returnPdf; a page limit is set iff maxPages is present, and equals it |
| MLKitDocumentScanner.ParsedRequestFormatsExact | android/src/main/kotlin/dev/bizjak/simplest_document_scanner/MLKitDocumentScanner.kt:31-38 | for every request the parser accepts, JPEG is asked for iff returnJpegs and PDF iff returnPdf |
| MLKitDocumentScanner.StartFailureReply | android/src/main/kotlin/dev/bizjak/simplest_document_scanner/MLKitDocumentScanner.kt:48-62 | a start failure is one error: DOCUMENT_SCANNER_UNSUPPORTED iff it is an MlKitException with code UNSUPPORTED, otherwise SCANNER_ERROR, with the failure's message as details |
| MLKitDocumentScanner.PagePayloadsFrom | android/src/main/kotlin/dev/bizjak/simplest_document_scanner/MLKitDocumentScanner.kt:112-117 | the list succeeds iff every page read succeeds; entry k carries index start+k and that page's bytes; a failure is the first failing read's |
| MLKitDocumentScanner.PagePayloads | android/src/main/kotlin/dev/bizjak/simplest_document_scanner/MLKitDocumentScanner.kt:111-126 | pages are indexed 0..n-1 in scanner order; any read failure yields no list at all |
| MLKitDocumentScanner.HandleSuccess | android/src/main/kotlin/dev/bizjak/simplest_document_scanner/MLKitDocumentScanner.kt:82-149 | a missing intent or an unparseable result gives NO_DATA; with JPEGs requested, no pages gives NO_DATA and a read failure FILE_READ_ERROR; with a PDF requested, no pdf gives NO_DATA and a read failure FILE_READ_ERROR; otherwise success with `pages` and, iff returnPdf, `pdf` |
| MLKitDocumentScanner.HandleScanResult | android/src/main/kotlin/dev/bizjak/simplest_document_scanner/MLKitDocumentScanner.kt:65-80 | RESULT_OK goes to success handling, RESULT_CANCELED gives `success(null)`, any other code gives SCAN_FAILED naming the code |
| Replies.NatToString | android/src/main/kotlin/dev/bizjak/simplest_document_scanner/MLKitDocumentScanner.kt:76 | the template's decimal form of a non-negative number: only digits, no leading zero, and the digits denote the number |
| Replies.IntToString | android/src/main/kotlin/dev/bizjak/simplest_document_scanner/MLKitDocumentScanner.kt:76 | `${activityResult.resultCode}`: a leading '-' exactly for negative codes, then only decimal digits, with no leading zero, that denote the magnitude |
| Replies.IntToStringInjective | android/src/main/kotlin/dev/bizjak/simplest_document_scanner/MLKitDocumentScanner.kt:76 | different result codes give different SCAN_FAILED messages |
| MLKitDocumentScanner.SuccessReplyDeterminate | android/src/main/kotlin/dev/bizjak/simplest_document_scanner/MLKitDocumentScanner.kt:82-149 | the success handling's reply is determined by its inputs (one reply per path) |
| MLKitDocumentScanner.SuccessReplyAllPages | android/src/main/kotlin/dev/bizjak/simplest_document_scanner/MLKitDocumentScanner.kt:104-127 | with JPEGs requested, success iff the pages exist, every page read succeeds and the PDF (if requested) is present and read; the page list then has one entry per scanned page |
| MLKitDocumentScanner.SuccessReplyKeys | android/src/main/kotlin/dev/bizjak/simplest_document_scanner/MLKitDocumentScanner.kt:100-148 | a success always has `pages` (empty when JPEGs were not requested) and has `pdf` iff returnPdf; errors are only NO_DATA or FILE_READ_ERROR |
| SimplestDocumentScannerPlugin.Plugin.constructor | android/src/main/kotlin/dev/bizjak/simplest_document_scanner/SimplestDocumentScannerPlugin.kt:22-25 | a fresh plugin has no activity, launcher, pending caller or request, and has answered nobody |
| SimplestDocumentScannerPlugin.Plugin.ClearPendingState | android/src/main/kotlin/dev/bizjak/simplest_document_scanner/SimplestDocumentScannerPlugin.kt:127-130 | the pending caller and request are both cleared |
| SimplestDocumentScannerPlugin.Plugin.HandleScanRequest | android/src/main/kotlin/dev/bizjak/simplest_document_scanner/SimplestDocumentScannerPlugin.kt:40-87 | no activity or launcher gives NO_ACTIVITY; otherwise a pending scan gives SCAN_IN_PROGRESS; otherwise an invalid request gives INVALID_ARGUMENT with the parser's message; only a valid request is stored (caller and request) and handed to the scanner with its options; every rejection leaves the pending state unchanged; exactly-once is preserved |
| SimplestDocumentScannerPlugin.Plugin.CompleteWrapped | android/src/main/kotlin/dev/bizjak/simplest_document_scanner/SimplestDocumentScannerPlugin.kt:64-79 | clears the pending state, whoever holds it, and then answers the captured caller; exactly-once is preserved only when that caller was the pending one |
| SimplestDocumentScannerPlugin.Plugin.OnStartScanIntentFailure | android/src/main/kotlin/dev/bizjak/simplest_document_scanner/MLKitDocumentScanner.kt:44-62 | a start failure reaches the captured caller once, through the wrapped result, as the start-failure error |
| SimplestDocumentScannerPlugin.Plugin.CompleteWrappedIfPending | android/src/main/kotlin/dev/bizjak/simplest_document_scanner/SimplestDocumentScannerPlugin.kt:64-79 | corrected wrapped result: answers and clears only while its caller is pending, otherwise changes nothing; always preserves exactly-once |
| SimplestDocumentScannerPlugin.Plugin.OnActivityResult | android/src/main/kotlin/dev/bizjak/simplest_document_scanner/SimplestDocumentScannerPlugin.kt:142-164 | snapshots then clears the pending state; answers nobody if no caller was pending; answers NO_ACTIVITY if the activity is gone; otherwise answers once with the scan-result reply; preserves exactly-once |
| SimplestDocumentScannerPlugin.ScanResultReplyNotActivityLost | android/src/main/kotlin/dev/bizjak/simplest_document_scanner/SimplestDocumentScannerPlugin.kt:149-161 | no scan-result reply is an error with the NO_ACTIVITY code, so from states where a pending scan has an activity that branch never answers |
| SimplestDocumentScannerPlugin.Plugin.OnAttachedToActivity | android/src/main/kotlin/dev/bizjak/simplest_document_scanner/SimplestDocumentScannerPlugin.kt:136-166 | a ComponentActivity becomes the activity with its own launcher; any other activity changes nothing |
| SimplestDocumentScannerPlugin.Plugin.OnDetachedFromActivity | android/src/main/kotlin/dev/bizjak/simplest_document_scanner/SimplestDocumentScannerPlugin.kt:168-184 | both detach handlers drop the activity and launcher, answer the pending caller (if any) with ACTIVITY_DETACHED while it is still pending, then leave the plugin idle; with no caller pending nothing is answered |
| SimplestDocumentScannerPlugin.ScanWithoutActivity | android/src/test/kotlin/dev/bizjak/simplest_document_scanner/SimplestDocumentScannerPluginTest.kt:24-31 | without an activity a scan request is answered NO_ACTIVITY and nothing is stored |
| SimplestDocumentScannerPlugin.DetachThenStartFailureAnswersTwice | android/src/main/kotlin/dev/bizjak/simplest_document_scanner/SimplestDocumentScannerPlugin.kt:168-173 | detach, then a start failure: the same caller gets ACTIVITY_DETACHED and then SCANNER_ERROR |
| SimplestDocumentScannerPlugin.StaleStartFailureDropsNewerSession | android/src/main/kotlin/dev/bizjak/simplest_document_scanner/SimplestDocumentScannerPlugin.kt:64-79 | a stale start failure clears a newer caller's session, so that session's scan result answers nobody |
| SimplestDocumentScannerPlugin.CorrectedWrapperAnswersOnce | android/src/main/kotlin/dev/bizjak/simplest_document_scanner/SimplestDocumentScannerPlugin.kt:64-79 | with the corrected wrapper the same events answer the first caller once and keep the newer session pending |

`onReattachedToActivityForConfigChanges` (SimplestDocumentScannerPlugin.kt:175-177)
only calls `onAttachedToActivity`, so `Plugin.OnAttachedToActivity` models both.
The two detach handlers have identical bodies and are modelled by one method.

## Left out

- The iOS implementation and its Swift `DocumentScannerRequest`. Its `enforceMaxPageLimit` flag, whose use is not in the shown code, has no Android counterpart, so no truncation is modelled.
- Flutter transport: `onAttachedToEngine`, `onDetachedFromEngine`, `onMethodCall`'s dispatch on the method name (and its `notImplemented`), and the reply Flutter sends for an exception that escapes the handler (`Raised`). All of this is channel plumbing.
- `configureForTesting`: a test hook.
- ML Kit internals: `GmsDocumentScannerOptions.Builder`, `getClient`, `getStartScanIntent`, the launch on success, and the `mlKitValue` constants. Only the options record and the two outcomes the plugin observes are kept: a start failure, and an activity result delivered to `Plugin.OnActivityResult`.
- `readBytes` stream I/O: a function parameter that may fail. Exceptions other than `IOException` are not modelled. The same URI always reads the same way.
- The Activity Result API's redelivery of a result to a re-created activity's launcher: platform behaviour outside the source.
- Threading: all callbacks run on the main thread, so events are a sequence of method calls.
- MethodCalls.NumberToDouble: does not model floating-point rounding of very large integers, or NaN. Floating point is out of scope beyond the [0, 1] range check on `jpegQuality`.

Notes on the code's behaviour:

- A non-numeric `jpegQuality` is rejected, after the output-format rule and before the `maxPages` rule.
- A NaN `jpegQuality` passes the range rule as written, since both comparisons at SimplestDocumentScannerPlugin.kt:110 are false for NaN. The model's reals have no NaN, so it does not capture this.
- An unknown scanner mode falls back to FULL rather than failing.
- Nothing is checked before launching. UNSUPPORTED arrives as a start failure.
- The detach handlers answer the caller before clearing the pending state. Every other answer to the pending caller comes after clearing.

## Findings

| source | as written | input that shows it | evidently intended | confidence | as-written member | corrected member |
|---|---|---|---|---|---|---|
| android/src/main/kotlin/dev/bizjak/simplest_document_scanner/SimplestDocumentScannerPlugin.kt:64-79 | the wrapped result clears the pending state and answers its captured caller even when that session has already ended | attach; scan request from caller 1 with no arguments; detach (caller 1 gets ACTIVITY_DETACHED); the start intent then fails (caller 1 gets SCANNER_ERROR, a second reply) | a completion for a session that is no longer pending does nothing | not executed; medium: it needs the start-intent task to fail after a detach | SimplestDocumentScannerPlugin.DetachThenStartFailureAnswersTwice | SimplestDocumentScannerPlugin.Plugin.CompleteWrappedIfPending |
| android/src/main/kotlin/dev/bizjak/simplest_document_scanner/SimplestDocumentScannerPlugin.kt:64-79 | the same unconditional `clearPendingState()` also clears a newer session | as above, then re-attach and a scan request from caller 2; caller 1's start intent fails: caller 2's pending state is cleared, and caller 2's scan result then answers nobody | only the session the wrapper belongs to is cleared | not executed; medium: same timing as the row above | SimplestDocumentScannerPlugin.StaleStartFailureDropsNewerSession | SimplestDocumentScannerPlugin.Plugin.CompleteWrappedIfPending |
