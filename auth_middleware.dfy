/** The bearer and role gates of internal/app/middleware/auth.go. The
    header check is a pure function, `Authenticate`; the middleware that
    writes the caller's identity into the request context is a method on a
    `RequestContext`; the role gate is a loop over the allowed roles,
    specified by `RoleGate`. The `Authorization` header follows the Bearer
    scheme of section 2.1 of RFC 6750, matched case-sensitively with exactly
    one space. */
module AuthMiddleware {
  import opened Wrappers
  import opened SharedErrors
  import opened Store
  import opened Collaborators
  import opened AuthService

  const BearerPrefix: string := "Bearer "

  const ErrHeaderRequired := HTTPError(401, TextMessage("Authorization header required"))
  const ErrHeaderFormat := HTTPError(401, TextMessage("Invalid authorization header format"))
  const ErrInvalidToken := HTTPError(401, TextMessage("Invalid token"))
  const ErrRoleMissing := HTTPError(401, TextMessage("User role not found in context"))
  const ErrInsufficient := HTTPError(403, TextMessage("Insufficient permissions"))

  /** `strings.HasPrefix`. */
  predicate HasPrefix(s: string, p: string) {
    |p| <= |s| && s[..|p|] == p
  }

  /** `strings.TrimPrefix`: removes one leading `p`, if there is one. */
  function TrimPrefix(s: string, p: string): (r: string)
    ensures HasPrefix(s, p) ==> p + r == s
    ensures !HasPrefix(s, p) ==> r == s
  {
    if HasPrefix(s, p) then s[|p|..] else s
  }

  /** The caller a valid token names. */
  datatype Identity = Identity(userId: Uuid, role: string)

  /** The decision `AuthMiddleware` takes on a header: a missing header, a
      header without the exact prefix, and a token `ValidateToken` rejects
      are each answered 401 with their own message; otherwise the identity
      is the one `ValidateToken` returns for the header minus one prefix. */
  function Authenticate(header: string, env: Env): (r: Result<Identity, HTTPError>)
    ensures header == "" ==> r == Failure(ErrHeaderRequired)
    ensures header != "" && !HasPrefix(header, BearerPrefix) ==> r == Failure(ErrHeaderFormat)
    ensures HasPrefix(header, BearerPrefix) ==>
      var v := ValidateToken(header[|BearerPrefix|..], env);
      r == if v.err.None? then Success(Identity(v.userId, v.role)) else Failure(ErrInvalidToken)
    ensures r.Failure? ==> r.error.code == 401
  {
    if header == "" then Failure(ErrHeaderRequired)
    else if !HasPrefix(header, BearerPrefix) then Failure(ErrHeaderFormat)
    else
      var v := ValidateToken(TrimPrefix(header, BearerPrefix), env);
      if v.err.Some? then Failure(ErrInvalidToken) else Success(Identity(v.userId, v.role))
  }

  /** A header made of the prefix and a token is judged by that token
      alone: exactly one prefix is removed, whatever the token holds. */
  lemma {:induction false} BearerToken(tok: string, env: Env)
    ensures var v := ValidateToken(tok, env);
      Authenticate(BearerPrefix + tok, env) ==
        if v.err.None? then Success(Identity(v.userId, v.role)) else Failure(ErrInvalidToken)
  {
    var h := BearerPrefix + tok;
    assert h[..|BearerPrefix|] == BearerPrefix;
    assert h[|BearerPrefix|..] == tok;
  }

  /** The prefix alone leaves an empty token, which is an invalid token. */
  lemma {:induction false} BearerAloneRejected(env: Env)
    ensures Authenticate(BearerPrefix, env) == Failure(ErrInvalidToken)
  {
    BearerToken("", env);
    assert BearerPrefix + "" == BearerPrefix;
  }

  /** The scheme name is matched case-sensitively: a lower-case `bearer`
      is a malformed header, whatever follows it. */
  lemma {:induction false} LowerCaseSchemeRejected(tok: string, env: Env)
    ensures Authenticate("bearer " + tok, env) == Failure(ErrHeaderFormat)
  {
    var h := "bearer " + tok;
    assert h[0] == 'b' != BearerPrefix[0];
    assert !HasPrefix(h, BearerPrefix);
  }

  /** A freshly issued access token, presented as a bearer token, lets its
      subject through with the role it was issued for. */
  lemma {:induction false} IssuedTokenAuthenticates(env: Env, id: Uuid, role: string)
    requires TokensRoundTrip(env) && env.tokens.generate(id, role).Some?
    ensures Authenticate(BearerPrefix + env.tokens.generate(id, role).value.accessToken, env)
      == Success(Identity(id, role))
  {
    IssuedTokensValidate(env, id, role);
    BearerToken(env.tokens.generate(id, role).value.accessToken, env);
  }

  /** A value stored in the request context (`c.Set`). */
  datatype CtxValue = UuidValue(id: Uuid) | TextValue(text: string) | OtherValue

  /** The request context the middlewares read and write. */
  class RequestContext {
    var values: map<string, CtxValue>

    constructor (values: map<string, CtxValue>)
      ensures this.values == values
    {
      this.values := values;
    }
  }

  /** What a middleware does with the request: hand it to the next
      handler, or answer it with an error. */
  datatype Gate = CallNext | Respond(err: HTTPError)

  /** `AuthMiddleware`: the next handler runs exactly when `Authenticate`
      accepts the header, and then with `user_id` and `user_role` set to the
      validated identity; a rejected request leaves the context alone. */
  method Authorize(ctx: RequestContext, header: string, env: Env) returns (g: Gate)
    modifies ctx
    ensures var a := Authenticate(header, env);
      && (g == CallNext <==> a.Success?)
      && (a.Failure? ==> g == Respond(a.error) && ctx.values == old(ctx.values))
      && (a.Success? ==> ctx.values == old(ctx.values)["user_id" := UuidValue(a.value.userId)]
                                                      ["user_role" := TextValue(a.value.role)])
  {
    if header == "" {
      return Respond(ErrHeaderRequired);
    }
    if !HasPrefix(header, BearerPrefix) {
      return Respond(ErrHeaderFormat);
    }
    var token := TrimPrefix(header, BearerPrefix);
    var v := ValidateToken(token, env);
    if v.err.Some? {
      return Respond(ErrInvalidToken);
    }
    ctx.values := ctx.values["user_id" := UuidValue(v.userId)];
    ctx.values := ctx.values["user_role" := TextValue(v.role)];
    return CallNext;
  }

  /** The decision `RoleMiddleware` takes: a missing or non-string
      `user_role` is a 401; otherwise the request passes exactly when the
      role equals one of the allowed roles, and is a 403 when it does not. */
  function RoleGate(values: map<string, CtxValue>, allowed: seq<string>): (g: Gate)
    ensures ("user_role" !in values || !values["user_role"].TextValue?) ==> g == Respond(ErrRoleMissing)
    ensures "user_role" in values && values["user_role"].TextValue? ==>
      (g == CallNext <==> values["user_role"].text in allowed)
      && (g != CallNext ==> g == Respond(ErrInsufficient))
  {
    if "user_role" !in values || !values["user_role"].TextValue? then Respond(ErrRoleMissing)
    else if values["user_role"].text in allowed then CallNext
    else Respond(ErrInsufficient)
  }

  /** An empty list of allowed roles turns every request away. */
  lemma EmptyAllowedForbids(values: map<string, CtxValue>)
    ensures RoleGate(values, []) != CallNext
  {
  }

  /** Behind `Authorize`, the role gate sees the validated role: it passes
      exactly the allowed roles and answers 403 to the rest. */
  lemma AuthorizedRoleGate(values: map<string, CtxValue>, id: Uuid, role: string, allowed: seq<string>)
    ensures RoleGate(values["user_id" := UuidValue(id)]["user_role" := TextValue(role)], allowed)
      == if role in allowed then CallNext else Respond(ErrInsufficient)
  {
  }

  /** `RoleMiddleware`: reads `user_role` and scans the allowed roles,
      passing on the first equal one. */
  method RoleMiddleware(ctx: RequestContext, allowed: seq<string>) returns (g: Gate)
    ensures g == RoleGate(ctx.values, allowed)
  {
    if "user_role" !in ctx.values || !ctx.values["user_role"].TextValue? {
      return Respond(ErrRoleMissing);
    }
    var userRole := ctx.values["user_role"].text;
    var i := 0;
    while i < |allowed|
      invariant 0 <= i <= |allowed|
      invariant userRole !in allowed[..i]
    {
      if userRole == allowed[i] {
        return CallNext;
      }
      i := i + 1;
    }
    assert allowed[..i] == allowed;
    return Respond(ErrInsufficient);
  }
}
