/** The todo service's catch-all error middleware: the status, message, code
    and stack of the error reply, with their defaults. */
module ErrorHandling {
  import opened Outcomes
  import opened Http

  /** An `AppError`: an `Error` with an optional status code and error code.
      JavaScript falsiness matters below: a status of 0 and an empty code or
      message count as absent. */
  datatype AppError = AppError(message: string, statusCode: Option<int>, code: Option<string>, stack: Option<string>)

  const DefaultStatus := 500
  const DefaultMessage := "Internal Server Error"
  const DefaultCode := "INTERNAL_ERROR"
  const Development := "development"

  /** `errorHandler`, with `NODE_ENV` passed in. */
  function HandleError<D>(e: AppError, nodeEnv: string): (r: Reply<D>)
    ensures r.body.Json? && !r.body.success && r.body.data.None? && r.body.error.Some?
    ensures e.statusCode.Some? && e.statusCode.value != 0 ==> r.status == e.statusCode.value
    ensures e.statusCode.None? || e.statusCode == Some(0) ==> r.status == DefaultStatus
    ensures e.message != "" ==> r.body.error.value.message == e.message
    ensures e.message == "" ==> r.body.error.value.message == DefaultMessage
    ensures e.code.Some? && e.code.value != "" ==> r.body.error.value.code == e.code.value
    ensures e.code.None? || e.code == Some("") ==> r.body.error.value.code == DefaultCode
    ensures r.body.error.value.stack.Some? ==> nodeEnv == Development && r.body.error.value.stack == e.stack
    ensures nodeEnv == Development ==> r.body.error.value.stack == e.stack
  {
    var status := if e.statusCode.Some? && e.statusCode.value != 0 then e.statusCode.value else DefaultStatus;
    var message := if e.message != "" then e.message else DefaultMessage;
    var code := if e.code.Some? && e.code.value != "" then e.code.value else DefaultCode;
    var stack := if nodeEnv == Development then e.stack else None;
    Reply(status, Json(false, None, Some(ErrorInfo(message, code, stack))))
  }
}
