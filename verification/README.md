# WeChat pay v2 alarm-notification handler — Dafny model

This project models `AlarmNotifyHandler` from `mp/server/pay2/alarm_notify.go`: the HTTP
handler to which the WeChat payment platform posts alarm (abnormal-event) notifications.
Its constructor `NewAlarmNotifyHandler` binds an `Agent` (which knows the merchant's AppId
and AppKey and consumes verified notifications) and an `InvalidRequestHandler` (which is
called for every rejected request). `ServeHTTP` is a strictly sequential pipeline:

1. the method must be exactly `POST`;
2. the body is read in full;
3. the body is parsed from XML into a field map;
4. the claimed AppId must have the length of the agent's AppId;
5. the two AppIds are compared with `subtle.ConstantTimeCompare`;
6. the signature is checked with the agent's AppKey;
7. the parsed map and the raw body go to `Agent.ServeAlarmNotification`.

The first failing step calls `ServeInvalidRequest` with its error and stops.

Files:

- `wrappers.dfy`: `Option`, `Result` and `Outcome` for Go's nil values and error returns.
- `constant_time.dfy` (module `ConstantTime`): the constant-time byte comparison. It is a
  function used by the pipeline, and also a loop that ORs byte XORs with no early exit.
- `alarm_notify.dfy` (module `AlarmNotify`): the data model, the constructor, and
  `ServeHTTP` as a pure function. `ServeHTTP` returns the verdict (`Rejected(reason)` or
  `Dispatched(map, raw)`) and the trace of events it produced. There is one `Step` event
  per check with its result, and then one call out.
- `alarm_notify_properties.dfy` (module `AlarmNotifyProperties`): the lemmas relating the
  pipeline's outcome to the request, the configuration and the foreign code.

Parameters stand in for what the handler calls but does not define. A `Request` is the
method plus the outcome of `ioutil.ReadAll(r.Body)`, either the bytes or a read error.
`Platform` holds three functions:

- `pay.ParseXMLToMap`, a partial function from bytes to a field map or an error;
- `AlarmNotifyPostData.AppId`;
- `AlarmNotifyPostData.CheckSignature`.

`Agent` holds `GetAppId()` and `GetAppKey()`. Go strings whose bytes are compared are
modelled as `seq<bv8>`.

## Model

| member | source | states |
|---|---|---|
| AlarmNotify.NewAlarmNotifyHandler | mp/server/pay2/alarm_notify.go:25-37 | A handler can be built only with an agent (nil panics). It keeps that agent. It keeps the supplied invalid-request handler, or the default one when none is supplied, so it always holds one. |
| AlarmNotify.ServeHTTP | mp/server/pay2/alarm_notify.go:40-81 | The trace is a run of the six checks in pipeline order in which only the last one may fail, followed by exactly one call out. A rejection calls the handler's own invalid-request handler with the verdict's reason after a failed check. A dispatch follows six passed checks and calls the agent with the verdict's map and bytes. |
| ConstantTime.ConstantTimeByteEq | mp/server/pay2/alarm_notify.go:69 | The branch-free byte test `(uint32(x^y)-1)>>31` yields 1 for equal bytes and 0 for different ones. |
| ConstantTime.XorAccumulateZeroIffEqual | mp/server/pay2/alarm_notify.go:69 | For equal-length byte sequences, the OR of the XORs at all positions is zero exactly when the sequences are equal. |
| ConstantTime.ConstantTimeCompare | mp/server/pay2/alarm_notify.go:69 | `ConstantTimeCompare` returns 0 or 1, and returns 1 exactly when the two byte slices are equal. Different lengths give 0. |
| ConstantTime.ConstantTimeCompareLoop | mp/server/pay2/alarm_notify.go:69 | The loop version visits every position in order with no early exit, returns 1 exactly when the slices are equal, and agrees with `ConstantTimeCompare`. |
| AlarmNotifyProperties.DispatchedIffAuthentic | mp/server/pay2/alarm_notify.go:40-81 | A request is dispatched exactly when all five checks hold: the method is POST, the read succeeds, the parse succeeds, the AppId equals the agent's, and the signature verifies with the agent's AppKey. It is then dispatched with the parsed map and the same bytes that were read. |
| AlarmNotifyProperties.ExactlyOneCallOut | mp/server/pay2/alarm_notify.go:40-81 | Each request calls exactly one of `ServeInvalidRequest` and `ServeAlarmNotification`, exactly once. Rejection calls only the former and dispatch only the latter. |
| AlarmNotifyProperties.NoCheckAfterFailure | mp/server/pay2/alarm_notify.go:44-78 | After a failed check no later check runs. The only event after it is the call to the invalid-request handler. |
| AlarmNotifyProperties.NonPostRejectedUnread | mp/server/pay2/alarm_notify.go:44-48 | A non-POST request is rejected with `MethodNotPost` after the method check alone. Its result does not depend on the body or on any platform code, so nothing is read, parsed or dispatched. |
| AlarmNotifyProperties.ReadFailureStops | mp/server/pay2/alarm_notify.go:50-54 | A body-read error rejects the request with that error after two checks. The result does not depend on the parser, the AppId accessor or the signature check. |
| AlarmNotifyProperties.ParseFailureStops | mp/server/pay2/alarm_notify.go:56-60 | A parse error rejects the request with that error after three checks. The result does not depend on the AppId accessor or the signature check. |
| AlarmNotifyProperties.LengthMismatchSkipsByteCompare | mp/server/pay2/alarm_notify.go:62-68 | AppIds of different lengths are rejected with the AppId-mismatch error at the length check, the fourth step. Neither the byte-wise compare nor the signature check appears in the trace. |
| AlarmNotifyProperties.AppIdGatePassesIffEqual | mp/server/pay2/alarm_notify.go:62-73 | For a parsed request, the AppId gate passes exactly when the claimed AppId equals the agent's AppId. Otherwise the request is rejected with `AppIdMismatch(have, want)`. |
| AlarmNotifyProperties.SignatureCheckedAfterAppIdWithAppKey | mp/server/pay2/alarm_notify.go:75-78 | The signature check is the sixth step and runs only after every earlier check passed, including AppId equality. It always uses the agent's AppKey. If it fails, the request is rejected with the signature error instead of dispatched. |
| AlarmNotifyProperties.RejectionsGoToConfiguredHandler | mp/server/pay2/alarm_notify.go:29-46 | In a handler built by the constructor, every rejection goes to the supplied invalid-request handler, or to the default one when none was supplied. |

## Left out

- HTTP transport: `http.ResponseWriter` and the request object beyond its method and body are left out. The body read is modelled as a bytes-or-error value.
- `pay.ParseXMLToMap`, the `AppId()` accessor and the signature algorithm in `CheckSignature` are not part of this model. They are parameters (`Platform`) because their code lives in other packages.
- The text of the errors and the response written by the default invalid-request handler are left out. `defaultInvalidRequestHandlerFunc` is not part of this model. Errors are the `Reason` values.
- What `Agent.ServeAlarmNotification` does with a notification is left out. It is only the `AlarmNotification` event of the trace.
- Timing: Dafny cannot state execution time. `ConstantTimeCompareLoop` shows only that every position is visited and that there is no early exit.
- `crypto/subtle` is not among the repository's files. `constant_time.dfy` restates the Go standard library's implementation of `ConstantTimeCompare` and `ConstantTimeByteEq`: a length check, the OR of byte XORs over every position, and the branch-free byte test `(uint32(x^y)-1)>>31`. That package documents only "1 if equal, 0 otherwise, time independent of the contents". The four `ConstantTime.*` rows of the table cite the call site, `alarm_notify.go:69`, which does not contain these expressions.
- A Go interface that holds a typed nil is not distinguished from a present handler. An absent invalid-request handler is `None`.
- AlarmNotify.NewAlarmNotifyHandler: Go panics on a nil agent (`alarm_notify.go:26-28`); the model makes `agent.Some?` a precondition instead of modelling the panic.
- AlarmNotify.AlarmNotifyHandler: the Go struct is exported, so a zero value `&AlarmNotifyHandler{}` with a nil agent and a nil invalid-request handler can exist without the constructor. Its `ServeHTTP` panics on the nil invalid-request handler (lines 46, 52, 58, 66, 71, 76) or on the nil agent (line 63). The model's handler always holds both, so this panic path is excluded.
- AlarmNotify.Reason: the length check and the byte compare report the same `AppIdMismatch(have, want)` error, as lines 65 and 70 do. The trace's `Step` events tell which of the two checks failed.
- Concurrency across requests is left out. The handler has no mutable state.
