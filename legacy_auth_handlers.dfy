/** The older authentication handlers of internal/handlers/authHandlers.go,
    in front of the older service. Their error switches are those of the
    current handlers; end to end they answer every request exactly as the
    current handlers do on a consistent store. */
module LegacyAuthHandlers {
  import opened Wrappers
  import opened SharedErrors
  import opened Store
  import opened Collaborators
  import opened AuthService
  import opened LegacyAuthService
  import opened Responses
  import AuthHandlers

  /** `handleLoginError`: 400 and 401 pass through, the rest is a 500. */
  function HandleLoginError(err: Failure): (r: Reply<TokenPair>)
    ensures r.Problem?
    ensures r.status == if err.ApiFailure? && err.api.code in {400, 401} then err.api.code else 500
    ensures r.body == if err.ApiFailure? then ErrorBody(err.api.code, err.api.message) else InternalErrorBody
  {
    Classify({400, 401}, err)
  }

  /** `handleRegisterError`: 400 and 409 pass through, the rest is a 500. */
  function HandleRegisterError(err: Failure): (r: Reply<TokenPair>)
    ensures r.Problem?
    ensures r.status == if err.ApiFailure? && err.api.code in {400, 409} then err.api.code else 500
    ensures r.body == if err.ApiFailure? then ErrorBody(err.api.code, err.api.message) else InternalErrorBody
  {
    Classify({400, 409}, err)
  }

  /** `handleRefreshError`: 400 and 401 pass through, the rest is a 500. */
  function HandleRefreshError(err: Failure): (r: Reply<TokenPair>)
    ensures r.Problem?
    ensures r.status == if err.ApiFailure? && err.api.code in {400, 401} then err.api.code else 500
    ensures r.body == if err.ApiFailure? then ErrorBody(err.api.code, err.api.message) else InternalErrorBody
  {
    Classify({400, 401}, err)
  }

  /** `PostAuthLogin` over the older service. */
  function PostAuthLogin(body: AuthHandlers.LoginBody, t: Tables, env: Env, lookupFault: bool): (r: Reply<TokenPair>)
    ensures var res := LegacyLogin(t, AuthHandlers.ToLoginRequest(body), env, lookupFault);
      && (res.Success? ==> r == Answer(200, res.value))
      && (res.Failure? ==> r == HandleLoginError(ApiFailure(res.error)))
  {
    AuthHandlers.Respond(LegacyLogin(t, AuthHandlers.ToLoginRequest(body), env, lookupFault), 200, HandleLoginError)
  }

  /** `PostAuthRegister`, given the older service's answer. */
  function PostAuthRegister(res: Result<TokenPair, APIError>): (r: Reply<TokenPair>)
    ensures res.Success? ==> r == Answer(201, res.value)
    ensures res.Failure? ==> r == HandleRegisterError(ApiFailure(res.error))
  {
    AuthHandlers.Respond(res, 201, HandleRegisterError)
  }

  /** `PostAuthRefreshToken` over the older service. */
  function PostAuthRefreshToken(body: AuthHandlers.RefreshBody, env: Env): (r: Reply<TokenPair>)
    ensures var res := LegacyRefreshToken(body.refreshToken, env);
      && (res.Success? ==> r == Answer(200, res.value))
      && (res.Failure? ==> r == HandleRefreshError(ApiFailure(res.error)))
  {
    AuthHandlers.Respond(LegacyRefreshToken(body.refreshToken, env), 200, HandleRefreshError)
  }

  /** The older and the current endpoints give the same answers; for
      registration, on a store whose email index agrees with its rows. */
  lemma {:induction false} LegacyEndpointsAgree(lb: AuthHandlers.LoginBody, rb: AuthHandlers.RegisterBody,
                                                fb: AuthHandlers.RefreshBody, t: Tables, env: Env,
                                                lookupFault: bool, ids: NewIds, f: RegisterFaults)
    requires Valid(t)
    ensures PostAuthLogin(lb, t, env, lookupFault) == AuthHandlers.PostAuthLogin(lb, t, env, lookupFault)
    ensures PostAuthRefreshToken(fb, env) == AuthHandlers.PostAuthRefreshToken(fb, env)
    ensures var req := AuthHandlers.ToRegisterRequest(rb);
      PostAuthRegister(LegacyRegisterSpec(t, req, env, ids, f).result)
        == AuthHandlers.PostAuthRegister(RegisterSpec(t, req, env, ids, f).result)
  {
    LegacyRegisterAgrees(t, AuthHandlers.ToRegisterRequest(rb), env, ids, f);
  }
}
