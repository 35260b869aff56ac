/** Properties of the alarm-notification pipeline that relate the outcome of `ServeHTTP`
    to the request, to the handler's configuration and to the code it calls. */
module AlarmNotifyProperties {
  import opened Wrappers
  import opened ConstantTime
  import opened AlarmNotify

  /** The condition under which the platform's notification is genuine for this agent,
      stated without reference to the order in which `ServeHTTP` checks it. */
  predicate Authentic(handler: AlarmNotifyHandler, platform: Platform, r: Request)
  {
    && r.httpMethod == POST
    && r.body.Success?
    && platform.parseXMLToMap(r.body.value).Success?
    && platform.appIdOf(platform.parseXMLToMap(r.body.value).value) == handler.agent.appId
    && platform.checkSignature(platform.parseXMLToMap(r.body.value).value, handler.agent.appKey).Pass?
  }

  /** Number of events of a trace that satisfy `p`. */
  function CountWhere(trace: seq<Event>, p: Event -> bool): nat
  {
    if |trace| == 0 then 0
    else CountWhere(trace[..|trace| - 1], p) + (if p(trace[|trace| - 1]) then 1 else 0)
  }

  lemma {:induction false} CountWhereNone(trace: seq<Event>, p: Event -> bool)
    requires forall i :: 0 <= i < |trace| ==> !p(trace[i])
    ensures CountWhere(trace, p) == 0
  {
    if |trace| > 0 {
      CountWhereNone(trace[..|trace| - 1], p);
    }
  }

  /** Calls to the invalid-request handler in a trace. */
  function InvalidRequestCalls(trace: seq<Event>): nat
  {
    CountWhere(trace, (e: Event) => e.InvalidRequest?)
  }

  /** Calls to the agent's `ServeAlarmNotification` in a trace. */
  function AlarmNotificationCalls(trace: seq<Event>): nat
  {
    CountWhere(trace, (e: Event) => e.AlarmNotification?)
  }

  /** A request is dispatched exactly when it is authentic, and it is then dispatched with
      the parsed map and the very bytes read from the body. */
  lemma DispatchedIffAuthentic(handler: AlarmNotifyHandler, platform: Platform, r: Request)
    ensures ServeHTTP(handler, platform, r).verdict.Dispatched? <==> Authentic(handler, platform, r)
    ensures Authentic(handler, platform, r) ==>
              ServeHTTP(handler, platform, r).verdict
              == Dispatched(platform.parseXMLToMap(r.body.value).value, r.body.value)
  {
  }

  /** Every request ends in exactly one call out: the invalid-request handler is called
      once and the agent never, or the agent once and the invalid-request handler never. */
  lemma {:induction false} ExactlyOneCallOut(handler: AlarmNotifyHandler, platform: Platform, r: Request)
    ensures var s := ServeHTTP(handler, platform, r);
            && (s.verdict.Rejected? ==> InvalidRequestCalls(s.trace) == 1 && AlarmNotificationCalls(s.trace) == 0)
            && (s.verdict.Dispatched? ==> InvalidRequestCalls(s.trace) == 0 && AlarmNotificationCalls(s.trace) == 1)
  {
    var s := ServeHTTP(handler, platform, r);
    var steps := s.trace[..|s.trace| - 1];
    assert forall i :: 0 <= i < |steps| ==> steps[i].Step?;
    CountWhereNone(steps, (e: Event) => e.InvalidRequest?);
    CountWhereNone(steps, (e: Event) => e.AlarmNotification?);
  }

  /** Once a check fails, no later check runs: a failed check is the last check of the
      trace and is followed only by the call to the invalid-request handler. */
  lemma NoCheckAfterFailure(handler: AlarmNotifyHandler, platform: Platform, r: Request, i: nat, j: nat)
    requires var t := ServeHTTP(handler, platform, r).trace;
             i < j < |t| && t[i].Step? && !t[i].passed
    ensures var s := ServeHTTP(handler, platform, r);
            && !s.trace[j].Step?
            && s.trace[j] == InvalidRequest(handler.invalidRequestHandler, s.verdict.reason)
  {
  }

  /** A request whose method is not "POST" is rejected before anything else: its body,
      the parser, the signature check and the agent play no part, so the result is the
      same whatever the body and whatever the platform code. */
  lemma NonPostRejectedUnread(handler: AlarmNotifyHandler, platform: Platform, r: Request,
                              otherPlatform: Platform, otherBody: Result<Bytes, string>)
    requires r.httpMethod != POST
    ensures ServeHTTP(handler, platform, r)
            == Served(Rejected(MethodNotPost),
                      [Step(MethodCheck, false), InvalidRequest(handler.invalidRequestHandler, MethodNotPost)])
    ensures ServeHTTP(handler, platform, r)
            == ServeHTTP(handler, otherPlatform, Request(r.httpMethod, otherBody))
  {
  }

  /** A failed body read is rejected with the read error, and nothing of the platform
      code runs afterwards: the result does not depend on it. */
  lemma ReadFailureStops(handler: AlarmNotifyHandler, platform: Platform, r: Request, otherPlatform: Platform)
    requires r.httpMethod == POST && r.body.Failure?
    ensures ServeHTTP(handler, platform, r).verdict == Rejected(ReadBodyFailed(r.body.error))
    ensures |ServeHTTP(handler, platform, r).trace| == 3
    ensures ServeHTTP(handler, platform, r) == ServeHTTP(handler, otherPlatform, r)
  {
  }

  /** A parse failure is rejected with the parser's error; no AppId comparison and no
      signature check follows, so those two parts of the platform code are irrelevant. */
  lemma ParseFailureStops(handler: AlarmNotifyHandler, platform: Platform, r: Request,
                          appIdOf: FieldMap -> Bytes, checkSignature: (FieldMap, Bytes) -> Outcome<string>)
    requires r.httpMethod == POST && r.body.Success?
    requires platform.parseXMLToMap(r.body.value).Failure?
    ensures ServeHTTP(handler, platform, r).verdict
            == Rejected(ParseFailed(platform.parseXMLToMap(r.body.value).error))
    ensures |ServeHTTP(handler, platform, r).trace| == 4
    ensures ServeHTTP(handler, platform, r)
            == ServeHTTP(handler, Platform(platform.parseXMLToMap, appIdOf, checkSignature), r)
  {
  }

  /** AppIds of different lengths are rejected by the length check; the byte-wise compare
      never runs and neither does the signature check. */
  lemma LengthMismatchSkipsByteCompare(handler: AlarmNotifyHandler, platform: Platform, r: Request)
    requires r.httpMethod == POST && r.body.Success?
    requires platform.parseXMLToMap(r.body.value).Success?
    requires |platform.appIdOf(platform.parseXMLToMap(r.body.value).value)| != |handler.agent.appId|
    ensures var s := ServeHTTP(handler, platform, r);
            && s.verdict == Rejected(AppIdMismatch(platform.appIdOf(platform.parseXMLToMap(r.body.value).value),
                                                   handler.agent.appId))
            && |s.trace| == 5
            && Last(s.trace[..|s.trace| - 1]) == Step(AppIdLength, false)
            && (forall e :: e in s.trace ==> e != Step(AppIdBytes, true) && e != Step(AppIdBytes, false))
            && (forall e :: e in s.trace ==> !(e.Step? && e.stage.SignatureCheck?))
  {
  }

  /** The AppId gate (length check, then constant-time compare) lets a parsed request
      through to the signature check exactly when the claimed AppId equals the agent's. */
  lemma AppIdGatePassesIffEqual(handler: AlarmNotifyHandler, platform: Platform, r: Request)
    requires r.httpMethod == POST && r.body.Success?
    requires platform.parseXMLToMap(r.body.value).Success?
    ensures var s := ServeHTTP(handler, platform, r);
            var have := platform.appIdOf(platform.parseXMLToMap(r.body.value).value);
            && (Step(AppIdBytes, true) in s.trace <==> have == handler.agent.appId)
            && (have != handler.agent.appId ==> s.verdict == Rejected(AppIdMismatch(have, handler.agent.appId)))
  {
  }

  /** The signature is checked only once the AppId gate has passed, always with the
      agent's AppKey, and a failing signature check rejects with its error. */
  lemma SignatureCheckedAfterAppIdWithAppKey(handler: AlarmNotifyHandler, platform: Platform, r: Request, i: nat)
    requires var t := ServeHTTP(handler, platform, r).trace;
             i < |t| && t[i].Step? && t[i].stage.SignatureCheck?
    ensures var s := ServeHTTP(handler, platform, r);
            var data := platform.parseXMLToMap(r.body.value).value;
            && i == StageCount - 1
            && s.trace[i].stage.appKey == handler.agent.appKey
            && platform.appIdOf(data) == handler.agent.appId
            && (forall k :: 0 <= k < i ==> s.trace[k].passed)
            && (!s.trace[i].passed <==> s.verdict.Rejected?)
            && (!s.trace[i].passed ==>
                  s.verdict == Rejected(SignatureFailed(platform.checkSignature(data, handler.agent.appKey).error)))
  {
  }

  /** For a handler built by `NewAlarmNotifyHandler`, every rejection goes to the supplied
      invalid-request handler, or to the default one when none was supplied. */
  lemma RejectionsGoToConfiguredHandler(agent: Agent, invalidRequestHandler: Option<InvalidRequestHandler>,
                                        platform: Platform, r: Request)
    ensures var handler := NewAlarmNotifyHandler(Some(agent), invalidRequestHandler);
            var s := ServeHTTP(handler, platform, r);
            forall e :: e in s.trace && e.InvalidRequest? ==>
              e.handler == (if invalidRequestHandler.Some? then invalidRequestHandler.value
                            else DefaultInvalidRequestHandler)
  {
  }
}
