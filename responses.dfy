/** The response shapes shared by the generated HTTP handlers: a success
    variant with its payload, or an error variant whose body carries a code
    and a message. A variant is identified here by the HTTP status it is
    sent with. */
module Responses {
  import opened SharedErrors

  /** The `{code, message}` body of every error variant. */
  datatype ErrorBody = ErrorBody(code: int, message: string)

  /** A handler's answer: `Answer` for a success variant, `Problem` for an
      error variant. */
  datatype Reply<T> = Answer(status: int, payload: T) | Problem(status: int, body: ErrorBody)

  /** The body of the fallback answer to an error that is not an `APIError`. */
  const InternalErrorBody := ErrorBody(500, "Internal server error")

  /** The error switch of every `handle*Error`: an `APIError` whose code is
      one of `passthrough` is sent with that status; any other `APIError`
      goes to the 500 variant, its body keeping the original code and
      message; any other error is the 500 variant with code 500 and
      "Internal server error". */
  function Classify<T>(passthrough: set<int>, err: Failure): (r: Reply<T>)
    ensures r.Problem?
    ensures err.ApiFailure? ==> r.body == ErrorBody(err.api.code, err.api.message)
    ensures !err.ApiFailure? ==> r.body == InternalErrorBody
    ensures r.status == if err.ApiFailure? && err.api.code in passthrough then err.api.code else 500
  {
    match err
    case ApiFailure(e) =>
      if e.code in passthrough then Problem(e.code, ErrorBody(e.code, e.message))
      else Problem(500, ErrorBody(e.code, e.message))
    case _ => Problem(500, InternalErrorBody)
  }

  /** A status outside the pass-through set never leaks: whatever the
      error, the status is one of the pass-through codes or 500. */
  lemma ClassifyStatusBound<T>(passthrough: set<int>, err: Failure)
    ensures var r: Reply<T> := Classify(passthrough, err); r.status in passthrough + {500}
  {
  }
}
