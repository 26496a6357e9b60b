/** The authentication handlers of internal/app/handlers/auth.go: request
    bodies are copied into service requests, a service success becomes the
    200 (login, refresh) or 201 (register) variant carrying both tokens,
    and a service error goes through that handler's error switch. */
module AuthHandlers {
  import opened Wrappers
  import opened SharedErrors
  import opened Store
  import opened Collaborators
  import opened AuthService
  import opened Responses

  /** The JSON bodies of the three endpoints. */
  datatype LoginBody = LoginBody(email: string, password: string)
  datatype RegisterBody = RegisterBody(
    firstName: string, lastName: string, email: string,
    password: string, role: string, location: string)
  datatype RefreshBody = RefreshBody(refreshToken: string)

  /** The login body, field for field. */
  function ToLoginRequest(b: LoginBody): (r: LoginRequest)
    ensures r.email == b.email && r.password == b.password
  {
    LoginRequest(b.email, b.password)
  }

  /** The registration body, field for field. */
  function ToRegisterRequest(b: RegisterBody): (r: RegisterRequest)
    ensures r.firstName == b.firstName && r.lastName == b.lastName && r.email == b.email
    ensures r.password == b.password && r.role == b.role && r.location == b.location
  {
    RegisterRequest(b.firstName, b.lastName, b.email, b.password, b.role, b.location)
  }

  /** No part of a body is lost on the way to the service. */
  lemma RequestCopiesInjective(b: RegisterBody, b': RegisterBody, l: LoginBody, l': LoginBody)
    ensures ToRegisterRequest(b) == ToRegisterRequest(b') ==> b == b'
    ensures ToLoginRequest(l) == ToLoginRequest(l') ==> l == l'
  {
  }

  /** `handleLoginError`: 400 and 401 pass through, the rest is a 500. */
  function HandleLoginError(err: Failure): (r: Reply<TokenPair>)
    ensures r.Problem?
    ensures r.status == if err.ApiFailure? && err.api.code in {400, 401} then err.api.code else 500
    ensures r.body == if err.ApiFailure? then ErrorBody(err.api.code, err.api.message) else InternalErrorBody
  {
    Classify({400, 401}, err)
  }

  /** `handleRegisterError`: 400 and 409 pass through, the rest is a 500. */
  function HandleRegisterError(err: Failure): (r: Reply<TokenPair>)
    ensures r.Problem?
    ensures r.status == if err.ApiFailure? && err.api.code in {400, 409} then err.api.code else 500
    ensures r.body == if err.ApiFailure? then ErrorBody(err.api.code, err.api.message) else InternalErrorBody
  {
    Classify({400, 409}, err)
  }

  /** `handleRefreshError`: 400 and 401 pass through, the rest is a 500. */
  function HandleRefreshError(err: Failure): (r: Reply<TokenPair>)
    ensures r.Problem?
    ensures r.status == if err.ApiFailure? && err.api.code in {400, 401} then err.api.code else 500
    ensures r.body == if err.ApiFailure? then ErrorBody(err.api.code, err.api.message) else InternalErrorBody
  {
    Classify({400, 401}, err)
  }

  /** The answer to a service result: `okStatus` with the tokens unchanged,
      or the handler's error switch. */
  function Respond(res: Result<TokenPair, APIError>, okStatus: int, handle: Failure -> Reply<TokenPair>): (r: Reply<TokenPair>)
    ensures res.Success? ==> r == Answer(okStatus, res.value)
    ensures res.Failure? ==> r == handle(ApiFailure(res.error))
  {
    match res
    case Success(p) => Answer(okStatus, p)
    case Failure(e) => handle(ApiFailure(e))
  }

  /** `PostAuthLogin`. */
  function PostAuthLogin(body: LoginBody, t: Tables, env: Env, lookupFault: bool): (r: Reply<TokenPair>)
    ensures var res := Login(t, ToLoginRequest(body), env, lookupFault);
      && (res.Success? ==> r == Answer(200, res.value))
      && (res.Failure? ==> r == HandleLoginError(ApiFailure(res.error)))
  {
    Respond(Login(t, ToLoginRequest(body), env, lookupFault), 200, HandleLoginError)
  }

  /** `PostAuthRegister`, given the service's answer. */
  function PostAuthRegister(res: Result<TokenPair, APIError>): (r: Reply<TokenPair>)
    ensures res.Success? ==> r == Answer(201, res.value)
    ensures res.Failure? ==> r == HandleRegisterError(ApiFailure(res.error))
  {
    Respond(res, 201, HandleRegisterError)
  }

  /** `PostAuthRefreshToken`. */
  function PostAuthRefreshToken(body: RefreshBody, env: Env): (r: Reply<TokenPair>)
    ensures var res := RefreshToken(body.refreshToken, env);
      && (res.Success? ==> r == Answer(200, res.value))
      && (res.Failure? ==> r == HandleRefreshError(ApiFailure(res.error)))
  {
    Respond(RefreshToken(body.refreshToken, env), 200, HandleRefreshError)
  }

  /** End to end, a login is answered 200, 400 (a missing field), 401 (bad
      credentials, whichever way) or 500 (the database or the token codec). */
  lemma {:induction false} LoginStatuses(body: LoginBody, t: Tables, env: Env, lookupFault: bool)
    ensures var r := PostAuthLogin(body, t, env, lookupFault);
      var res := Login(t, ToLoginRequest(body), env, lookupFault);
      && r.status in {200, 400, 401, 500}
      && (r.status == 200 <==> res.Success?)
      && (r.status == 400 <==> body.email == "" || body.password == "")
      && (r.status == 401 <==> res == Failure(ErrInvalidCredentials))
      && (r.status == 500 <==> res == Failure(ErrDatabaseError) || res == Failure(ErrTokenGeneration))
  {
    var res := Login(t, ToLoginRequest(body), env, lookupFault);
    if res.Failure? {
      assert res.error in {ErrMissingFields, ErrInvalidCredentials, ErrDatabaseError, ErrTokenGeneration};
    }
  }

  /** End to end, a registration is answered 201, 400 (a missing field or
      an unknown role), 409 (a taken email) or 500 (hashing, the database or
      the token codec). */
  lemma {:induction false} RegisterStatuses(t: Tables, body: RegisterBody, env: Env, ids: NewIds, f: RegisterFaults)
    ensures var req := ToRegisterRequest(body);
      var res := RegisterSpec(t, req, env, ids, f).result;
      var r := PostAuthRegister(res);
      && r.status in {201, 400, 409, 500}
      && (r.status == 201 <==> res.Success?)
      && (r.status == 400 <==> MissingField(req) || req.role !in ValidRoles)
      && (r.status == 409 <==> res == Failure(ErrUserAlreadyExists))
  {
    var req := ToRegisterRequest(body);
    var res := RegisterSpec(t, req, env, ids, f).result;
    if res.Failure? {
      assert res.error in {ErrMissingFields, ErrInvalidRole, ErrDatabaseError,
                           ErrUserAlreadyExists, ErrInternalServer, ErrTokenGeneration};
    }
  }

  /** End to end, a refresh is answered 200, 400 (an empty token), 401 (a
      token that does not validate) or 500 (the token codec). */
  lemma {:induction false} RefreshStatuses(body: RefreshBody, env: Env)
    ensures var r := PostAuthRefreshToken(body, env);
      var v := ValidateToken(body.refreshToken, env);
      && r.status in {200, 400, 401, 500}
      && (r.status == 400 <==> body.refreshToken == "")
      && (r.status == 401 <==> v.err == Some(ErrInvalidCredentials))
      && (r.status == 200 ==> v.err.None?)
  {
    var v := ValidateToken(body.refreshToken, env);
    if v.err.Some? {
      assert v.err.value in {ErrMissingFields, ErrInvalidCredentials};
    }
  }
}
