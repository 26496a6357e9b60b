/** The older error handlers of internal/middleware/error_handler.go. The
    older error package (internal/errors) is not part of this model; its
    `APIError` is taken to be the record of `SharedErrors`, written as the
    JSON body whole. The Go code asserts that an `echo.HTTPError`'s message
    is a string and panics otherwise; here that is a precondition. */
module LegacyErrorHandler {
  import opened SharedErrors

  /** A status and the `APIError` written as its body. */
  datatype LegacyResponse = LegacyResponse(status: int, body: APIError)

  /** Whether an error is one the handlers can answer without panicking. */
  predicate Answerable(err: Failure) {
    err.EchoFailure? ==> err.http.message.TextMessage?
  }

  /** `ErrorHandler`: an `APIError` is answered with its own code and body;
      an `echo.HTTPError` becomes an `APIError` with the same code and its
      message; anything else is 500 "Internal server error". The type
      switch's own `APIError` case can never be reached, because of the
      early return before it. */
  function HandleError(err: Failure): (r: LegacyResponse)
    requires Answerable(err)
    ensures err.ApiFailure? ==> r == LegacyResponse(err.api.code, err.api)
    ensures err.EchoFailure? ==> r == LegacyResponse(err.http.code, APIError(err.http.code, err.http.message.text, ""))
    ensures !err.ApiFailure? && !err.EchoFailure? ==> r == LegacyResponse(500, ErrInternalServer)
    ensures r.status == r.body.code
  {
    if err.ApiFailure? then LegacyResponse(err.api.code, err.api)
    else
      match err
      case EchoFailure(e) => LegacyResponse(e.code, APIError(e.code, e.message.text, ""))
      case ApiFailure(e) => assert false; LegacyResponse(e.code, e)
      case _ => LegacyResponse(500, APIError(500, "Internal server error", ""))
  }

  /** `ValidationErrorHandler`: every `echo.HTTPError`, whatever its code,
      is answered 400 "Validation failed" with the original message as
      details; any other error goes to `HandleError`. */
  function HandleValidationError(err: Failure): (r: LegacyResponse)
    requires Answerable(err)
    ensures err.EchoFailure? ==> r == LegacyResponse(400, NewAPIErrorWithDetails(400, "Validation failed", err.http.message.text))
    ensures !err.EchoFailure? ==> r == HandleError(err)
    ensures r.status == r.body.code
  {
    match err
    case EchoFailure(e) => LegacyResponse(400, APIError(400, "Validation failed", e.message.text))
    case _ => HandleError(err)
  }

  /** The two handlers differ only on `echo.HTTPError`s: there the older
      handler keeps the code, the validation handler always says 400 and
      moves the message into the details. */
  lemma {:induction false} ValidationRewritesEchoErrors(code: int, text: string)
    ensures var err := EchoFailure(HTTPError(code, TextMessage(text)));
      && HandleError(err) == LegacyResponse(code, APIError(code, text, ""))
      && HandleValidationError(err).body.details == HandleError(err).body.message
      && HandleValidationError(err).status == 400
  {
  }
}
