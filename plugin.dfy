/**
 * The plugin's session coordinator: the attached activity, its result
 * launcher, and the one caller (with its request) waiting for a scan. Every
 * platform callback is an event method; a ghost log records every reply
 * handed to a caller, so that "each caller is answered exactly once" can be
 * stated and checked.
 */
module SimplestDocumentScannerPlugin {
  import opened Wrappers
  import opened MethodCalls
  import opened Replies
  import opened DocumentScannerRequests
  import opened MLKitDocumentScanner

  /** A channel `Result` object; every method call brings its own. */
  type CallerId = nat

  type ActivityId = nat

  /** The activity a binding hands over; only a `ComponentActivity` can launch the scanner. */
  datatype HostActivity = HostActivity(id: ActivityId, isComponentActivity: bool)

  /** The result launcher registered on an activity. */
  datatype Launcher = Launcher(owner: ActivityId)

  /** The `Result` wrapper handed to the scanner; it captures the raw caller. */
  datatype WrappedResult = WrappedResult(caller: CallerId)

  /** How `handleScanRequest` ended. */
  datatype HandlerOutcome =
    | Answered                                                        // the caller was answered at once
    | ScanStarted(wrapped: WrappedResult, options: ScannerOptions)    // `scanDocuments` was called
    | Raised(error: ParseError)                                       // an exception escaped the handler

  /** One reply handed to a caller; `stillPending` says whether the plugin still held that caller as pending. */
  datatype Delivery = Delivery(caller: CallerId, reply: Reply, stillPending: bool)

  const NoActivityMessage: string := "No activity is attached to the plugin"
  const ScanInProgressMessage: string := "Another scan is already in progress"
  const ActivityLostMessage: string := "The Activity reference was lost before delivering scan results."
  const ActivityDetachedMessage: string := "Activity was detached during scan"

  function NoActivityReply(): Reply { Err(NoActivityCode, NoActivityMessage, None) }
  function ScanInProgressReply(): Reply { Err(ScanInProgressCode, ScanInProgressMessage, None) }
  function ActivityLostReply(): Reply { Err(NoActivityCode, ActivityLostMessage, None) }
  function ActivityDetachedReply(): Reply { Err(ActivityDetachedCode, ActivityDetachedMessage, None) }

  /** Every caller that has received a reply. */
  ghost function Recipients(log: seq<Delivery>): set<CallerId> {
    set i | 0 <= i < |log| :: log[i].caller
  }

  /** No caller received two replies. */
  ghost predicate DistinctRecipients(log: seq<Delivery>) {
    forall i, j :: 0 <= i < j < |log| ==> log[i].caller != log[j].caller
  }

  lemma RecipientsAppend(log: seq<Delivery>, d: Delivery)
    ensures Recipients(log + [d]) == Recipients(log) + {d.caller}
  {
    var log' := log + [d];
    assert log'[|log|] == d;
    forall c | c in Recipients(log) ensures c in Recipients(log') {
      var i :| 0 <= i < |log| && log[i].caller == c;
      assert log'[i] == log[i];
    }
  }

  lemma DistinctAppend(log: seq<Delivery>, d: Delivery)
    requires DistinctRecipients(log) && d.caller !in Recipients(log)
    ensures DistinctRecipients(log + [d])
  {
  }

  class Plugin {
    var activity: Option<ActivityId>
    var scannerLauncher: Option<Launcher>
    var pendingResult: Option<CallerId>
    var pendingRequest: Option<DocumentScannerRequest>

    /** Every reply handed to a caller, in order. */
    ghost var log: seq<Delivery>
    /** Every caller the plugin has answered or holds as pending. */
    ghost var callers: set<CallerId>

    /** The caller held as pending, as a set. */
    ghost function PendingCallers(): set<CallerId>
      reads this
    {
      if pendingResult.Some? then {pendingResult.value} else {}
    }

    /** The pending caller and its request are set and cleared together; so are the activity and its launcher. */
    ghost predicate Valid()
      reads this
    {
      && (pendingResult.Some? <==> pendingRequest.Some?)
      && (activity.Some? <==> scannerLauncher.Some?)
      && PendingCallers() <= callers
      && Recipients(log) <= callers
    }

    /** Each caller is either still pending or has been answered, and nobody was answered twice. */
    ghost predicate ExactlyOnce()
      reads this
    {
      && DistinctRecipients(log)
      && PendingCallers() !! Recipients(log)
      && callers == Recipients(log) + PendingCallers()
    }

    /** A pending scan always has an activity to read its results through. */
    ghost predicate ActivityHeldWhilePending()
      reads this
    {
      pendingResult.Some? ==> activity.Some?
    }

    constructor ()
      ensures Valid() && ExactlyOnce() && ActivityHeldWhilePending()
      ensures activity == None && scannerLauncher == None
      ensures pendingResult == None && pendingRequest == None
      ensures log == [] && callers == {}
    {
      activity := None;
      scannerLauncher := None;
      pendingResult := None;
      pendingRequest := None;
      log := [];
      callers := {};
    }

    /** Hands `reply` to `caller`. */
    method Deliver(caller: CallerId, reply: Reply)
      modifies this`log
      ensures log == old(log) + [Delivery(caller, reply, pendingResult == Some(caller))]
    {
      log := log + [Delivery(caller, reply, pendingResult == Some(caller))];
    }

    /** Answers a caller that does not hold the pending slot. */
    method Reject(caller: CallerId, reply: Reply)
      requires Valid() && caller !in callers
      modifies this`log, this`callers
      ensures Valid()
      ensures log == old(log) + [Delivery(caller, reply, false)]
      ensures callers == old(callers) + {caller}
      ensures old(ExactlyOnce()) ==> ExactlyOnce()
    {
      ghost var wasExactlyOnce := ExactlyOnce();
      Deliver(caller, reply);
      RecipientsAppend(old(log), Delivery(caller, reply, false));
      if wasExactlyOnce {
        DistinctAppend(old(log), Delivery(caller, reply, false));
      }
      callers := callers + {caller};
    }

    /** `clearPendingState`. */
    method ClearPendingState()
      modifies this`pendingResult, this`pendingRequest
      ensures pendingResult == None && pendingRequest == None
    {
      pendingResult := None;
      pendingRequest := None;
    }

    /**
     * `handleScanRequest`: no activity or launcher, then a scan already in
     * progress, then the request's own checks; only a request that passes
     * them all is stored and handed to the scanner.
     */
    method HandleScanRequest(arguments: Arg, result: CallerId) returns (outcome: HandlerOutcome)
      requires Valid()
      requires result !in callers
      modifies this`pendingResult, this`pendingRequest, this`log, this`callers
      ensures Valid()
      ensures old(activity).None? || old(scannerLauncher).None? ==>
                && outcome == Answered
                && log == old(log) + [Delivery(result, NoActivityReply(), false)]
      ensures old(activity).Some? && old(scannerLauncher).Some? && old(pendingResult).Some? ==>
                && outcome == Answered
                && log == old(log) + [Delivery(result, ScanInProgressReply(), false)]
      ensures old(activity).Some? && old(scannerLauncher).Some? && old(pendingResult).None? ==>
                match ToDocumentScannerRequest(arguments)
                case Success(request) =>
                  && outcome == ScanStarted(WrappedResult(result), ScannerOptionsFor(request))
                  && pendingResult == Some(result) && pendingRequest == Some(request)
                  && log == old(log)
                case Failure(IllegalArgument(message)) =>
                  && outcome == Answered
                  && log == old(log) + [Delivery(result, Err(InvalidArgumentCode, message, None), false)]
                case Failure(ClassCast(key)) =>
                  outcome == Raised(ClassCast(key)) && log == old(log)
      // A rejected call never touches the pending caller or its request.
      ensures !outcome.ScanStarted? ==> pendingResult == old(pendingResult) && pendingRequest == old(pendingRequest)
      ensures outcome.Raised? ==> callers == old(callers)
      ensures !outcome.Raised? ==> callers == old(callers) + {result}
      ensures old(ExactlyOnce()) ==> ExactlyOnce()
      ensures old(ActivityHeldWhilePending()) ==> ActivityHeldWhilePending()
    {
      var currentActivity := activity;
      var launcher := scannerLauncher;
      if currentActivity.None? || launcher.None? {
        Reject(result, NoActivityReply());
        return Answered;
      }
      if pendingResult.Some? {
        Reject(result, ScanInProgressReply());
        return Answered;
      }
      var parsed := ToDocumentScannerRequest(arguments);
      if parsed.Failure? {
        if parsed.error.ClassCast? {
          return Raised(parsed.error);
        }
        Reject(result, Err(InvalidArgumentCode, parsed.error.message, None));
        return Answered;
      }
      pendingResult := Some(result);
      pendingRequest := Some(parsed.value);
      callers := callers + {result};
      outcome := ScanStarted(WrappedResult(result), ScannerOptionsFor(parsed.value));
    }

    /**
     * The wrapped `Result`'s `success`, `error` and `notImplemented`: clear
     * the pending state, whoever holds it, then forward to the captured
     * caller.
     */
    method CompleteWrapped(wrapped: WrappedResult, reply: Reply)
      requires Valid() && wrapped.caller in callers
      modifies this`pendingResult, this`pendingRequest, this`log
      ensures Valid()
      ensures pendingResult == None && pendingRequest == None
      ensures log == old(log) + [Delivery(wrapped.caller, reply, false)]
      // Exactly once holds only while the captured caller is the pending one.
      ensures old(ExactlyOnce()) && old(pendingResult) == Some(wrapped.caller) ==> ExactlyOnce()
    {
      ghost var wasExactlyOnce := ExactlyOnce();
      ClearPendingState();
      Deliver(wrapped.caller, reply);
      RecipientsAppend(old(log), Delivery(wrapped.caller, reply, false));
      if wasExactlyOnce && old(pendingResult) == Some(wrapped.caller) {
        DistinctAppend(old(log), Delivery(wrapped.caller, reply, false));
      }
    }

    /** The failure listener of `getStartScanIntent`, reporting through the wrapped result. */
    method OnStartScanIntentFailure(wrapped: WrappedResult, failure: Throwable)
      requires Valid() && wrapped.caller in callers
      modifies this`pendingResult, this`pendingRequest, this`log
      ensures Valid()
      ensures pendingResult == None && pendingRequest == None
      ensures log == old(log) + [Delivery(wrapped.caller, StartFailureReply(failure), false)]
      ensures old(ExactlyOnce()) && old(pendingResult) == Some(wrapped.caller) ==> ExactlyOnce()
    {
      CompleteWrapped(wrapped, StartFailureReply(failure));
    }

    /**
     * The wrapped result as it was evidently meant to behave: the first
     * completion of a session wins, and a completion for a session that is no
     * longer pending does nothing.
     */
    method CompleteWrappedIfPending(wrapped: WrappedResult, reply: Reply)
      requires Valid() && wrapped.caller in callers
      modifies this`pendingResult, this`pendingRequest, this`log
      ensures Valid()
      ensures old(pendingResult) == Some(wrapped.caller) ==>
                && pendingResult == None && pendingRequest == None
                && log == old(log) + [Delivery(wrapped.caller, reply, false)]
      ensures old(pendingResult) != Some(wrapped.caller) ==>
                pendingResult == old(pendingResult) && pendingRequest == old(pendingRequest) && log == old(log)
      ensures old(ExactlyOnce()) ==> ExactlyOnce()
    {
      if pendingResult == Some(wrapped.caller) {
        CompleteWrapped(wrapped, reply);
      }
    }

    /**
     * The launcher's result callback: snapshot and clear the pending state,
     * then answer the caller that was pending, if any.
     */
    method OnActivityResult(activityResult: ActivityResult, read: ReadBytes) returns (delivered: Option<Reply>)
      requires Valid()
      modifies this`pendingResult, this`pendingRequest, this`log
      ensures Valid()
      ensures pendingResult == None && pendingRequest == None
      ensures delivered.Some? <==> old(pendingResult).Some?
      ensures delivered.None? ==> log == old(log)
      ensures delivered.Some? ==> log == old(log) + [Delivery(old(pendingResult).value, delivered.value, false)]
      ensures delivered.Some? && old(activity).None? ==> delivered.value == ActivityLostReply()
      ensures delivered.Some? && old(activity).Some? ==>
                ScanResultReply(activityResult, old(pendingRequest).value, read, delivered.value)
      // From a state where a pending scan always has its activity, the lost-activity reply never happens.
      ensures old(ActivityHeldWhilePending()) ==> delivered != Some(ActivityLostReply())
      ensures old(ExactlyOnce()) ==> ExactlyOnce()
    {
      ghost var wasExactlyOnce := ExactlyOnce();
      var callbackResult := pendingResult;
      var request := pendingRequest;
      var currentActivity := activity;
      ClearPendingState();
      delivered := None;
      if callbackResult.Some? {
        if request.None? || currentActivity.None? {
          delivered := Some(ActivityLostReply());
        } else {
          var reply := HandleScanResult(activityResult, request.value, read);
          ScanResultReplyNotActivityLost(activityResult, request.value, read, reply);
          delivered := Some(reply);
        }
        Deliver(callbackResult.value, delivered.value);
        RecipientsAppend(old(log), Delivery(callbackResult.value, delivered.value, false));
        if wasExactlyOnce {
          DistinctAppend(old(log), Delivery(callbackResult.value, delivered.value, false));
        }
      }
    }

    /**
     * `onAttachedToActivity` (and `onReattachedToActivityForConfigChanges`,
     * which calls it): a `ComponentActivity` becomes the activity, with a
     * freshly registered launcher.
     */
    method OnAttachedToActivity(host: HostActivity)
      requires Valid()
      modifies this`activity, this`scannerLauncher
      ensures Valid()
      ensures host.isComponentActivity ==> activity == Some(host.id) && scannerLauncher == Some(Launcher(host.id))
      ensures !host.isComponentActivity ==> activity == old(activity) && scannerLauncher == old(scannerLauncher)
      ensures old(ExactlyOnce()) ==> ExactlyOnce()
      ensures old(ActivityHeldWhilePending()) ==> ActivityHeldWhilePending()
    {
      if host.isComponentActivity {
        activity := Some(host.id);
        scannerLauncher := Some(Launcher(host.id));
      }
    }

    /**
     * `onDetachedFromActivity` and `onDetachedFromActivityForConfigChanges`
     * (identical bodies): drop the activity and launcher, answer the pending
     * caller with ACTIVITY_DETACHED (before clearing it), then clear.
     */
    method OnDetachedFromActivity()
      requires Valid()
      modifies this
      ensures Valid()
      ensures activity == None && scannerLauncher == None
      ensures pendingResult == None && pendingRequest == None
      ensures callers == old(callers)
      ensures old(pendingResult).None? ==> log == old(log)
      ensures old(pendingResult).Some? ==>
                log == old(log) + [Delivery(old(pendingResult).value, ActivityDetachedReply(), true)]
      ensures old(ExactlyOnce()) ==> ExactlyOnce()
      ensures ActivityHeldWhilePending()
    {
      ghost var wasExactlyOnce := ExactlyOnce();
      scannerLauncher := None;
      activity := None;
      if pendingResult.Some? {
        var caller := pendingResult.value;
        Deliver(caller, ActivityDetachedReply());
        RecipientsAppend(old(log), Delivery(caller, ActivityDetachedReply(), true));
        if wasExactlyOnce {
          DistinctAppend(old(log), Delivery(caller, ActivityDetachedReply(), true));
        }
      }
      ClearPendingState();
    }
  }

  /** No reply built from a scan result uses the NO_ACTIVITY code. */
  lemma ScanResultReplyNotActivityLost(activityResult: ActivityResult, request: DocumentScannerRequest, read: ReadBytes, reply: Reply)
    requires ScanResultReply(activityResult, request, read, reply)
    ensures !(reply.Err? && reply.code == NoActivityCode)
  {
    if activityResult.resultCode == ResultOk {
      SuccessReplyKeys(request, activityResult.data, read, reply);
    }
  }

  // ---- Event sequences ----

  function NoReads(): ReadBytes { (uri: Uri) => Failure(None) }

  /** With no activity attached, a scan request is answered NO_ACTIVITY and nothing is stored. */
  method ScanWithoutActivity() returns (p: Plugin)
    ensures p.log == [Delivery(1, NoActivityReply(), false)]
    ensures p.pendingResult == None && p.pendingRequest == None
  {
    p := new Plugin();
    var outcome := p.HandleScanRequest(Null, 1);
  }

  /**
   * As written: the activity is detached while the start intent is still
   * being prepared, so the caller is answered ACTIVITY_DETACHED; when the
   * start then fails, the wrapped result answers the same caller again.
   */
  method DetachThenStartFailureAnswersTwice() returns (p: Plugin)
    ensures p.log == [Delivery(1, ActivityDetachedReply(), true),
                      Delivery(1, StartFailureReply(OtherThrowable(None)), false)]
    ensures !DistinctRecipients(p.log)
  {
    p := new Plugin();
    p.OnAttachedToActivity(HostActivity(7, true));
    NoArgumentsGiveDefaults();
    var outcome := p.HandleScanRequest(Null, 1);
    assert outcome.ScanStarted? && outcome.wrapped == WrappedResult(1);
    p.OnDetachedFromActivity();
    p.OnStartScanIntentFailure(outcome.wrapped, OtherThrowable(None));
    assert p.log[0].caller == p.log[1].caller;
  }

  /**
   * As written: after a detach and re-attach a second caller starts a scan;
   * the first session's late start failure clears the second caller's
   * pending state, so the scanner's result answers nobody and the second
   * caller is never answered.
   */
  method StaleStartFailureDropsNewerSession() returns (p: Plugin)
    ensures 2 in p.callers && 2 !in Recipients(p.log)
    ensures p.pendingResult == None && p.pendingRequest == None
    ensures !p.ExactlyOnce()
  {
    p := new Plugin();
    p.OnAttachedToActivity(HostActivity(7, true));
    NoArgumentsGiveDefaults();
    var first := p.HandleScanRequest(Null, 1);
    p.OnDetachedFromActivity();
    p.OnAttachedToActivity(HostActivity(8, true));
    var second := p.HandleScanRequest(Null, 2);
    assert p.pendingResult == Some(2);
    p.OnStartScanIntentFailure(first.wrapped, OtherThrowable(None));
    var delivered := p.OnActivityResult(ActivityResult(ResultCanceled, None), NoReads());
    assert delivered == None;
    assert p.log == [Delivery(1, ActivityDetachedReply(), true),
                     Delivery(1, StartFailureReply(OtherThrowable(None)), false)];
    assert forall i :: 0 <= i < |p.log| ==> p.log[i].caller == 1;
  }

  /** With the corrected wrapped result the same events answer the first caller once and keep the second session. */
  method CorrectedWrapperAnswersOnce() returns (p: Plugin)
    ensures p.ExactlyOnce()
    ensures p.log == [Delivery(1, ActivityDetachedReply(), true)]
    ensures p.pendingResult == Some(2)
  {
    p := new Plugin();
    p.OnAttachedToActivity(HostActivity(7, true));
    NoArgumentsGiveDefaults();
    var first := p.HandleScanRequest(Null, 1);
    p.OnDetachedFromActivity();
    p.OnAttachedToActivity(HostActivity(8, true));
    var second := p.HandleScanRequest(Null, 2);
    p.CompleteWrappedIfPending(first.wrapped, StartFailureReply(OtherThrowable(None)));
  }
}
