/** The WeChat pay v2 alarm-notification handler (`mp/server/pay2/alarm_notify.go`).

    The payment platform POSTs an XML alarm notification; the handler reads the body,
    parses it into a field map, checks that the claimed AppId is the agent's AppId
    (length first, then a constant-time byte compare), checks the signature with the
    agent's AppKey, and only then hands the parsed map and the raw body to the agent.
    The first failing check sends the request to the invalid-request handler instead.

    HTTP itself, the XML parser and the signature algorithm are not modelled: the request
    is a method plus the outcome of reading its body, and the foreign code the handler
    calls is a `Platform` value passed in. `ServeHTTP` returns the verdict together with
    the trace of steps it took, so that ordering and "never reached" facts can be stated. */
module AlarmNotify {
  import opened Wrappers
  import opened ConstantTime

  /** `pay2.AlarmNotifyPostData`: the notification's fields, name to value. */
  type FieldMap = map<string, string>

  /** The only request method the handler accepts. */
  const POST: string := "POST"

  /** The agent's configuration as the handler uses it: `GetAppId()` and `GetAppKey()`.
      What `ServeAlarmNotification` does with a notification is the agent's business;
      here it is only the `AlarmNotification` event of the trace. */
  datatype Agent = Agent(appId: Bytes, appKey: Bytes)

  /** The `InvalidRequestHandler` a handler holds: the package default
      (`defaultInvalidRequestHandlerFunc`) or one supplied by the caller. */
  datatype InvalidRequestHandler =
    | DefaultInvalidRequestHandler
    | CustomInvalidRequestHandler(name: string)

  /** `AlarmNotifyHandler`: the agent and the invalid-request handler. */
  datatype AlarmNotifyHandler = AlarmNotifyHandler(agent: Agent, invalidRequestHandler: InvalidRequestHandler)

  /** Code the handler calls but does not define:
      - `parseXMLToMap`: `pay.ParseXMLToMap` on the raw body;
      - `appIdOf`: the byte content of `AlarmNotifyPostData.AppId()`;
      - `checkSignature`: `AlarmNotifyPostData.CheckSignature(appKey)`, whose nil error is `Pass`. */
  datatype Platform = Platform(
    parseXMLToMap: Bytes -> Result<FieldMap, string>,
    appIdOf: FieldMap -> Bytes,
    checkSignature: (FieldMap, Bytes) -> Outcome<string>)

  /** An inbound request: its method (`r.Method`) and the outcome of `ioutil.ReadAll(r.Body)`. */
  datatype Request = Request(httpMethod: string, body: Result<Bytes, string>)

  /** The error handed to `ServeInvalidRequest`. Both AppId checks report the same
      mismatch error carrying the claimed and the configured AppId. */
  datatype Reason =
    | MethodNotPost
    | ReadBodyFailed(readError: string)
    | ParseFailed(parseError: string)
    | AppIdMismatch(have: Bytes, want: Bytes)
    | SignatureFailed(signatureError: string)

  /** The checks of `ServeHTTP`, in the order they run. A signature check records the
      key it was run with. */
  datatype Stage =
    | MethodCheck
    | BodyRead
    | Parse
    | AppIdLength
    | AppIdBytes
    | SignatureCheck(appKey: Bytes)

  /** Position of a check in the pipeline. */
  function StageIndex(stage: Stage): nat
  {
    match stage
    case MethodCheck => 0
    case BodyRead => 1
    case Parse => 2
    case AppIdLength => 3
    case AppIdBytes => 4
    case SignatureCheck(_) => 5
  }

  /** Number of checks a request must pass before it is dispatched. */
  const StageCount: nat := 6

  /** What `ServeHTTP` does, in order: a check with its result, then exactly one call
      out, either to the invalid-request handler or to the agent. */
  datatype Event =
    | Step(stage: Stage, passed: bool)
    | InvalidRequest(handler: InvalidRequestHandler, reason: Reason)
    | AlarmNotification(data: FieldMap, rawXMLMsg: Bytes)
  {
    /** The calls that end a request. */
    predicate IsCallOut() { !Step? }
  }

  /** The effect of one request. */
  datatype Verdict =
    | Rejected(reason: Reason)
    | Dispatched(data: FieldMap, rawXMLMsg: Bytes)

  /** The verdict of `ServeHTTP` and the trace of events that led to it. */
  datatype Served = Served(verdict: Verdict, trace: seq<Event>)

  /** Last element of a non-empty trace. */
  function Last(trace: seq<Event>): Event
    requires |trace| > 0
  {
    trace[|trace| - 1]
  }

  /** `NewAlarmNotifyHandler`: a nil agent makes the Go constructor panic, so a present
      agent is required; a nil invalid-request handler is replaced by the default. */
  function NewAlarmNotifyHandler(agent: Option<Agent>, invalidRequestHandler: Option<InvalidRequestHandler>): (h: AlarmNotifyHandler)
    requires agent.Some?
    ensures h.agent == agent.value
    ensures invalidRequestHandler.Some? ==> h.invalidRequestHandler == invalidRequestHandler.value
    ensures invalidRequestHandler.None? ==> h.invalidRequestHandler == DefaultInvalidRequestHandler
  {
    match invalidRequestHandler
    case None => AlarmNotifyHandler(agent.value, DefaultInvalidRequestHandler)
    case Some(irh) => AlarmNotifyHandler(agent.value, irh)
  }

  /** Ends a request after `steps`, the last of which failed, by calling the
      invalid-request handler with `reason`. */
  function Reject(handler: AlarmNotifyHandler, steps: seq<Event>, reason: Reason): Served
  {
    Served(Rejected(reason), steps + [InvalidRequest(handler.invalidRequestHandler, reason)])
  }

  /** `AlarmNotifyHandler.ServeHTTP`.

      The trace is a run of checks in pipeline order in which only the last check may
      have failed, followed by exactly one call out: to the agent when all six checks
      passed, and to the handler's own invalid-request handler otherwise. */
  function ServeHTTP(handler: AlarmNotifyHandler, platform: Platform, r: Request): (s: Served)
    ensures 2 <= |s.trace| <= StageCount + 1
    ensures forall i :: 0 <= i < |s.trace| - 1 ==>
              s.trace[i].Step? && StageIndex(s.trace[i].stage) == i
    ensures forall i :: 0 <= i < |s.trace| - 2 ==> s.trace[i].passed
    ensures Last(s.trace).IsCallOut()
    ensures s.verdict.Rejected? ==>
              && !s.trace[|s.trace| - 2].passed
              && Last(s.trace) == InvalidRequest(handler.invalidRequestHandler, s.verdict.reason)
    ensures s.verdict.Dispatched? ==>
              && |s.trace| == StageCount + 1
              && s.trace[StageCount - 1].passed
              && Last(s.trace) == AlarmNotification(s.verdict.data, s.verdict.rawXMLMsg)
  {
    var agent := handler.agent;
    if r.httpMethod != POST then
      Reject(handler, [Step(MethodCheck, false)], MethodNotPost)
    else
      var afterMethod := [Step(MethodCheck, true)];
      match r.body
      case Failure(err) =>
        Reject(handler, afterMethod + [Step(BodyRead, false)], ReadBodyFailed(err))
      case Success(rawXMLMsg) =>
        var afterRead := afterMethod + [Step(BodyRead, true)];
        match platform.parseXMLToMap(rawXMLMsg)
        case Failure(err) =>
          Reject(handler, afterRead + [Step(Parse, false)], ParseFailed(err))
        case Success(alarmData) =>
          var afterParse := afterRead + [Step(Parse, true)];
          var haveAppId := platform.appIdOf(alarmData);
          var wantAppId := agent.appId;
          if |haveAppId| != |wantAppId| then
            Reject(handler, afterParse + [Step(AppIdLength, false)], AppIdMismatch(haveAppId, wantAppId))
          else
            var afterLength := afterParse + [Step(AppIdLength, true)];
            if ConstantTimeCompare(haveAppId, wantAppId) != 1 then
              Reject(handler, afterLength + [Step(AppIdBytes, false)], AppIdMismatch(haveAppId, wantAppId))
            else
              var afterAppId := afterLength + [Step(AppIdBytes, true)];
              match platform.checkSignature(alarmData, agent.appKey)
              case Fail(err) =>
                Reject(handler, afterAppId + [Step(SignatureCheck(agent.appKey), false)], SignatureFailed(err))
              case Pass =>
                Served(Dispatched(alarmData, rawXMLMsg),
                       afterAppId + [Step(SignatureCheck(agent.appKey), true), AlarmNotification(alarmData, rawXMLMsg)])
  }
}
