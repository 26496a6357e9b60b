/** The error record of the domain layer (internal/domain/shared/errors.go)
    and the Go `error` values that the handlers and error handlers inspect. */
module SharedErrors {

  /** `shared.APIError`: an HTTP status code, a client-visible message and
      details that are left out of the JSON body when empty. */
  datatype APIError = APIError(code: int, message: string, details: string)

  // The predefined errors, one per kind of the error taxonomy.
  const ErrBadRequest := APIError(400, "Bad Request", "")
  const ErrInvalidInput := APIError(400, "Invalid input data", "")
  const ErrMissingFields := APIError(400, "Missing required fields", "")
  const ErrUnauthorized := APIError(401, "Unauthorized", "")
  const ErrInvalidCredentials := APIError(401, "Invalid credentials", "")
  /** Used by the lesson service but not defined in errors.go; this model
      gives it status 403 and its own message. */
  const ErrForbidden := APIError(403, "Forbidden", "")
  const ErrUserAlreadyExists := APIError(409, "User already exists", "")
  const ErrInternalServer := APIError(500, "Internal server error", "")
  const ErrDatabaseError := APIError(500, "Database error", "")
  const ErrTokenGeneration := APIError(500, "Token generation failed", "")

  /** The error taxonomy: one kind per predefined error. */
  datatype Kind =
    | BadRequest | InvalidInput | MissingFields
    | Unauthorized | InvalidCredentials
    | Forbidden
    | UserAlreadyExists
    | InternalServer | DatabaseError | TokenGeneration

  /** The predefined error of each kind, with the HTTP status class it carries. */
  function Predefined(k: Kind): (e: APIError)
    ensures e.details == ""
    ensures e.code == 400 <==> k in {BadRequest, InvalidInput, MissingFields}
    ensures e.code == 401 <==> k in {Unauthorized, InvalidCredentials}
    ensures e.code == 403 <==> k == Forbidden
    ensures e.code == 409 <==> k == UserAlreadyExists
    ensures e.code == 500 <==> k in {InternalServer, DatabaseError, TokenGeneration}
  {
    match k
    case BadRequest => ErrBadRequest
    case InvalidInput => ErrInvalidInput
    case MissingFields => ErrMissingFields
    case Unauthorized => ErrUnauthorized
    case InvalidCredentials => ErrInvalidCredentials
    case Forbidden => ErrForbidden
    case UserAlreadyExists => ErrUserAlreadyExists
    case InternalServer => ErrInternalServer
    case DatabaseError => ErrDatabaseError
    case TokenGeneration => ErrTokenGeneration
  }

  /** Distinct kinds are told apart by their messages, so a client can
      recognise every predefined error from its body. */
  lemma PredefinedMessagesDistinct(k: Kind, k': Kind)
    requires k != k'
    ensures ErrorText(Predefined(k)) != ErrorText(Predefined(k'))
  {
  }

  /** `Error()` of the Go error interface. */
  function ErrorText(e: APIError): (s: string)
    ensures NewAPIError(e.code, s) == e.(details := "")
  {
    e.message
  }

  /** `NewAPIError`: a custom error without details. */
  function NewAPIError(code: int, message: string): (e: APIError)
    ensures e.code == code && e.message == message
    ensures e.details == ""
  {
    APIError(code, message, "")
  }

  /** `NewAPIErrorWithDetails`: code, message and details all preserved;
      with empty details it is exactly `NewAPIError`. */
  function NewAPIErrorWithDetails(code: int, message: string, details: string): (e: APIError)
    ensures e.code == code && e.message == message && e.details == details
    ensures details == "" ==> e == NewAPIError(code, message)
  {
    APIError(code, message, details)
  }

  /** A failure reported by the ORM: the record was not found, or the query
      failed for any other reason. */
  datatype DbError = RecordNotFound | QueryFailed

  /** The `Message` of an `echo.HTTPError`, typed `interface{}` in Go. */
  datatype EchoMessage = TextMessage(text: string) | OtherMessage

  /** `echo.HTTPError`. */
  datatype HTTPError = HTTPError(code: int, message: EchoMessage)

  /** A Go `error` value, by its dynamic type. */
  datatype Failure =
    | ApiFailure(api: APIError)
    | EchoFailure(http: HTTPError)
    | DbFailure(db: DbError)
    | OtherFailure
}
