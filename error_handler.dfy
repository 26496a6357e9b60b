/** The central error handler of internal/app/middleware/error_handler.go:
    one JSON answer per error, chosen by the error's dynamic type. */
module ErrorHandler {
  import opened Wrappers
  import opened SharedErrors

  /** The JSON map the handler writes: `code`, `message` and, only when
      present, `details`. */
  datatype JsonBody = JsonBody(code: int, message: EchoMessage, details: Option<string>)

  /** A status and its body. */
  datatype ErrorResponse = ErrorResponse(status: int, body: JsonBody)

  const DefaultResponse := ErrorResponse(500, JsonBody(500, TextMessage("Internal server error"), None))

  /** `ErrorHandler`: an `echo.HTTPError` is answered with its own code and
      message; an `APIError` with its code and message, and its details
      only when they are non-empty; anything else with 500 "Internal server
      error". */
  function HandleError(err: Failure): (r: ErrorResponse)
    ensures err.EchoFailure? ==> r == ErrorResponse(err.http.code, JsonBody(err.http.code, err.http.message, None))
    ensures err.ApiFailure? ==>
      && r.status == err.api.code && r.body.code == err.api.code
      && r.body.message == TextMessage(err.api.message)
      && (r.body.details.Some? <==> err.api.details != "")
      && (r.body.details.Some? ==> r.body.details.value == err.api.details)
    ensures !err.EchoFailure? && !err.ApiFailure? ==> r == DefaultResponse
  {
    match err
    case EchoFailure(he) => ErrorResponse(he.code, JsonBody(he.code, he.message, None))
    case ApiFailure(e) =>
      ErrorResponse(e.code, JsonBody(e.code, TextMessage(e.message), if e.details != "" then Some(e.details) else None))
    case _ => DefaultResponse
  }

  /** The body of an `APIError`'s answer holds the whole error: it can be
      read back from the body, and the status agrees with its code. */
  lemma {:induction false} ApiErrorRecoverable(e: APIError)
    ensures var r := HandleError(ApiFailure(e));
      && r.body.message.TextMessage?
      && APIError(r.body.code, r.body.message.text, if r.body.details.Some? then r.body.details.value else "") == e
      && r.status == r.body.code
  {
    var r := HandleError(ApiFailure(e));
    if e.details == "" {
      assert r.body.details.None?;
    }
  }

  /** Every predefined error is answered with the status it carries and
      without a `details` key. */
  lemma PredefinedAnswered(k: Kind)
    ensures HandleError(ApiFailure(Predefined(k))).status == Predefined(k).code
    ensures HandleError(ApiFailure(Predefined(k))).body.details.None?
  {
  }
}
