/** The authentication service of internal/domain/auth/service.go: login,
    registration (two store writes with a compensating delete), token
    refresh and token validation. Login, refresh and validation are pure
    guard chains over the store's value; registration changes the store and
    is specified by `RegisterSpec`. Repository failures are oracle
    parameters; `uuid.New` values arrive as `NewIds`. */
module AuthService {
  import opened Wrappers
  import opened SharedErrors
  import opened Store
  import opened Collaborators

  datatype LoginRequest = LoginRequest(email: string, password: string)

  datatype RegisterRequest = RegisterRequest(
    firstName: string, lastName: string, email: string,
    password: string, role: string, location: string)

  /** The two values `uuid.New` yields during a registration. */
  datatype NewIds = NewIds(userId: Uuid, infoId: Uuid)

  /** Which repository calls of a registration fail. */
  datatype RegisterFaults = RegisterFaults(lookup: bool, createUser: bool, createInfo: bool, delete: bool)

  /** What a registration answers, and the store it leaves behind. */
  datatype Registration = Registration(result: Result<TokenPair, APIError>, tables: Tables)

  /** `ValidateToken`'s three results: a subject id, a role, an error. */
  datatype Validation = Validation(userId: Uuid, role: string, err: Option<APIError>)

  const ValidRoles: seq<string> := ["student", "tutor", "admin"]

  const ErrInvalidRole := NewAPIError(400, "Invalid role. Must be one of: student, tutor, admin")

  predicate MissingField(req: RegisterRequest) {
    || req.email == "" || req.password == ""
    || req.firstName == "" || req.lastName == ""
    || req.role == "" || req.location == ""
  }

  // ---- Login ----

  /** `Login`: empty fields are rejected before the store is consulted; an
      unknown email and a wrong password give the same error; any other
      lookup failure is a database error; on success the tokens are issued
      for the stored user's id and role. */
  function Login(t: Tables, req: LoginRequest, env: Env, lookupFault: bool): (r: Result<TokenPair, APIError>)
    ensures req.email == "" || req.password == "" ==> r == Failure(ErrMissingFields)
    ensures r.Failure? ==> r.error in {ErrMissingFields, ErrInvalidCredentials, ErrDatabaseError, ErrTokenGeneration}
    ensures r == Failure(ErrDatabaseError) <==> req.email != "" && req.password != "" && lookupFault
    ensures Valid(t) ==>
      (r == Failure(ErrInvalidCredentials) <==>
        && req.email != "" && req.password != "" && !lookupFault
        && (req.email !in t.byEmail || !env.hasher.compare(req.password, t.users[t.byEmail[req.email]].password)))
    ensures r.Success? ==>
      && req.email in t.byEmail && t.byEmail[req.email] in t.users
      && var u := t.users[t.byEmail[req.email]];
         env.hasher.compare(req.password, u.password) && env.tokens.generate(u.id, u.role) == Some(r.value)
  {
    if req.email == "" || req.password == "" then Failure(ErrMissingFields)
    else
      match UserByEmail(t, req.email, lookupFault)
      case Failure(e) =>
        if e == RecordNotFound then Failure(ErrInvalidCredentials) else Failure(ErrDatabaseError)
      case Success(u) =>
        if !env.hasher.compare(req.password, u.password) then Failure(ErrInvalidCredentials)
        else
          match env.tokens.generate(u.id, u.role)
          case None => Failure(ErrTokenGeneration)
          case Some(p) => Success(p)
  }

  /** An unknown email and a known email with a wrong password cannot be
      told apart by the answer. */
  lemma LoginHidesUnknownEmail(t: Tables, t': Tables, req: LoginRequest, env: Env)
    requires Valid(t) && Valid(t') && req.email != "" && req.password != ""
    requires req.email !in t.byEmail
    requires req.email in t'.byEmail && !env.hasher.compare(req.password, t'.users[t'.byEmail[req.email]].password)
    ensures Login(t, req, env, false) == Login(t', req, env, false) == Failure(ErrInvalidCredentials)
  {
  }

  // ---- Register ----

  /** The user row a registration creates: the hash, never the plaintext,
      in the password column; the two flags take the columns' defaults. */
  function NewUser(id: Uuid, req: RegisterRequest, hash: string): User {
    User(id, req.email, hash, req.role, req.location, false, true)
  }

  /** The profile a registration creates: names and location from the
      request, avatar, bio and phone empty. */
  function NewUserInfo(id: Uuid, userId: Uuid, req: RegisterRequest): UserInfo {
    UserInfo(id, userId, req.firstName, req.lastName, "", "", req.location, "")
  }

  /** Every check a registration makes before it writes anything. */
  predicate Admitted(t: Tables, req: RegisterRequest, env: Env, f: RegisterFaults) {
    && !MissingField(req) && req.role in ValidRoles
    && !f.lookup && req.email !in t.byEmail
    && env.hasher.hash(req.password).Some?
  }

  /** `Register`, step by step: field and role validation, the existence
      check, hashing, the user insert, the profile insert (with a
      compensating delete when it fails) and the token issuance. */
  function RegisterSpec(t: Tables, req: RegisterRequest, env: Env, ids: NewIds, f: RegisterFaults): (reg: Registration)
    ensures reg.result.Failure? ==>
      reg.result.error in {ErrMissingFields, ErrInvalidRole, ErrDatabaseError,
                           ErrUserAlreadyExists, ErrInternalServer, ErrTokenGeneration}
    ensures MissingField(req) ==> reg == Registration(Failure(ErrMissingFields), t)
    ensures !MissingField(req) && req.role !in ValidRoles ==> reg == Registration(Failure(ErrInvalidRole), t)
    ensures !MissingField(req) && req.role in ValidRoles && f.lookup ==>
      reg == Registration(Failure(ErrDatabaseError), t)
    ensures !MissingField(req) && req.role in ValidRoles && !f.lookup && req.email in t.byEmail ==>
      reg == Registration(Failure(ErrUserAlreadyExists), t)
    ensures !Admitted(t, req, env, f) ==> reg.tables == t
  {
    if MissingField(req) then Registration(Failure(ErrMissingFields), t)
    else if req.role !in ValidRoles then Registration(Failure(ErrInvalidRole), t)
    else
      match EmailTaken(t, req.email, f.lookup)
      case Failure(_) => Registration(Failure(ErrDatabaseError), t)
      case Success(taken) =>
        if taken then Registration(Failure(ErrUserAlreadyExists), t)
        else
          match env.hasher.hash(req.password)
          case None => Registration(Failure(ErrInternalServer), t)
          case Some(hash) =>
            var u := NewUser(ids.userId, req, hash);
            if f.createUser || !CanInsertUser(t, u) then Registration(Failure(ErrDatabaseError), t)
            else
              var t1 := InsertUser(t, u);
              if f.createInfo then
                Registration(Failure(ErrDatabaseError), if f.delete then t1 else RemoveUser(t1, u.id))
              else
                var t2 := PutInfo(t1, NewUserInfo(ids.infoId, u.id, req));
                match env.tokens.generate(u.id, u.role)
                case None => Registration(Failure(ErrTokenGeneration), t2)
                case Some(p) => Registration(Success(p), t2)
  }

  /** A successful registration adds exactly one fresh user, holding the
      hasher's output, and its profile, and answers with the tokens issued
      for the new id and the requested role. */
  lemma RegisterSuccess(t: Tables, req: RegisterRequest, env: Env, ids: NewIds, f: RegisterFaults)
    requires RegisterSpec(t, req, env, ids, f).result.Success?
    ensures Admitted(t, req, env, f) && ids.userId !in t.users
    ensures var hash := env.hasher.hash(req.password).value;
      var u := NewUser(ids.userId, req, hash);
      var reg := RegisterSpec(t, req, env, ids, f);
      && u.password == hash && u.id == ids.userId
      && reg.tables == PutInfo(InsertUser(t, u), NewUserInfo(ids.infoId, ids.userId, req))
      && Some(reg.result.value) == env.tokens.generate(ids.userId, req.role)
  {
  }

  /** When the profile insert fails, the answer is a database error
      whatever the delete does; when the delete succeeds the store is
      exactly as before, and when it fails the new user is left behind. */
  lemma {:induction false} RegisterCompensates(t: Tables, req: RegisterRequest, env: Env, ids: NewIds, f: RegisterFaults)
    requires Admitted(t, req, env, f) && !f.createUser && ids.userId !in t.users && f.createInfo
    ensures var reg := RegisterSpec(t, req, env, ids, f);
      var u := NewUser(ids.userId, req, env.hasher.hash(req.password).value);
      && reg.result == Failure(ErrDatabaseError)
      && (!f.delete ==> reg.tables == t)
      && (f.delete ==> reg.tables == InsertUser(t, u))
  {
    var u := NewUser(ids.userId, req, env.hasher.hash(req.password).value);
    RemoveUndoesInsert(t, u);
  }

  /** Registration keeps the store's invariant, even when it leaves an
      orphaned user behind. */
  lemma {:induction false} RegisterPreservesValid(t: Tables, req: RegisterRequest, env: Env, ids: NewIds, f: RegisterFaults)
    requires Valid(t)
    ensures Valid(RegisterSpec(t, req, env, ids, f).tables)
  {
    if Admitted(t, req, env, f) && !f.createUser && ids.userId !in t.users {
      var u := NewUser(ids.userId, req, env.hasher.hash(req.password).value);
      assert CanInsertUser(t, u);
      InsertUserValid(t, u);
      RemoveUserValid(InsertUser(t, u), u.id);
    }
  }

  /** After a successful registration, logging in with the same email and
      password succeeds, given a hasher whose hashes compare equal to their
      passwords. */
  lemma {:induction false} RegisterThenLogin(t: Tables, req: RegisterRequest, env: Env, ids: NewIds, f: RegisterFaults)
    requires Valid(t) && HasherSound(env.hasher)
    requires RegisterSpec(t, req, env, ids, f).result.Success?
    ensures Login(RegisterSpec(t, req, env, ids, f).tables, LoginRequest(req.email, req.password), env, false).Success?
  {
    RegisterSuccess(t, req, env, ids, f);
    RegisterPreservesValid(t, req, env, ids, f);
    var t' := RegisterSpec(t, req, env, ids, f).tables;
    assert t'.byEmail[req.email] == ids.userId;
  }

  /** `Register` on the store: the steps of `RegisterSpec`, performed by the
      repository's writes. */
  method Register(store: UserStore, req: RegisterRequest, env: Env, ids: NewIds, f: RegisterFaults)
    returns (r: Result<TokenPair, APIError>)
    modifies store
    ensures var reg := RegisterSpec(old(store.Snapshot()), req, env, ids, f);
      r == reg.result && store.Snapshot() == reg.tables
  {
    if MissingField(req) {
      return Failure(ErrMissingFields);
    }
    if req.role !in ValidRoles {
      return Failure(ErrInvalidRole);
    }
    var taken := EmailTaken(store.Snapshot(), req.email, f.lookup);
    if taken.Failure? {
      return Failure(ErrDatabaseError);
    }
    if taken.value {
      return Failure(ErrUserAlreadyExists);
    }
    var hashed := env.hasher.hash(req.password);
    if hashed.None? {
      return Failure(ErrInternalServer);
    }
    var newUser := NewUser(ids.userId, req, hashed.value);
    var err := store.CreateUser(newUser, f.createUser);
    if err.Some? {
      return Failure(ErrDatabaseError);
    }
    err := store.CreateUserInfo(NewUserInfo(ids.infoId, newUser.id, req), f.createInfo);
    if err.Some? {
      // Roll back the user insert; the delete's own error is ignored.
      var _ := store.Delete(newUser.id, f.delete);
      return Failure(ErrDatabaseError);
    }
    var tokens := env.tokens.generate(newUser.id, newUser.role);
    if tokens.None? {
      return Failure(ErrTokenGeneration);
    }
    return Success(tokens.value);
  }

  // ---- Tokens ----

  /** The claim under `key` when it is a string. */
  function TextClaim(c: Claims, key: string): Option<string> {
    if key in c && c[key].ClaimText? then Some(c[key].text) else None
  }

  /** Whether the claims carry a string `sub` that parses as a UUID and a
      string `role`. */
  predicate HasSubject(c: Claims, uuids: UuidCodec) {
    && TextClaim(c, "sub").Some? && TextClaim(c, "role").Some?
    && uuids.parse(TextClaim(c, "sub").value).Some?
  }

  /** `ValidateToken`: an empty token is a missing field; a token the codec
      rejects, or whose `sub` or `role` is missing, not a string, or (for
      `sub`) not a UUID, gives invalid credentials, with `uuid.Nil` and an
      empty role; otherwise exactly the parsed subject and role. The `type`
      claim is never looked at. */
  function ValidateToken(tok: string, env: Env): (v: Validation)
    ensures v.err.Some? ==> v.userId == NilUuid && v.role == ""
    ensures v.err.Some? ==> v.err.value in {ErrMissingFields, ErrInvalidCredentials}
    ensures v.err == Some(ErrMissingFields) <==> tok == ""
    ensures v.err.None? <==>
      tok != "" && env.tokens.parse(tok).Some? && HasSubject(env.tokens.parse(tok).value, env.uuids)
    ensures v.err.None? ==>
      var c := env.tokens.parse(tok).value;
      v.userId == env.uuids.parse(TextClaim(c, "sub").value).value && v.role == TextClaim(c, "role").value
  {
    if tok == "" then Validation(NilUuid, "", Some(ErrMissingFields))
    else
      match env.tokens.parse(tok)
      case None => Validation(NilUuid, "", Some(ErrInvalidCredentials))
      case Some(claims) =>
        match TextClaim(claims, "sub")
        case None => Validation(NilUuid, "", Some(ErrInvalidCredentials))
        case Some(sub) =>
          match TextClaim(claims, "role")
          case None => Validation(NilUuid, "", Some(ErrInvalidCredentials))
          case Some(role) =>
            match env.uuids.parse(sub)
            case None => Validation(NilUuid, "", Some(ErrInvalidCredentials))
            case Some(id) => Validation(id, role, None)
  }

  /** `RefreshToken`: the same guard chain as `ValidateToken`, failing with
      the same error, then a new pair for exactly the validated subject and
      role, or a token-generation error. */
  function RefreshToken(tok: string, env: Env): (r: Result<TokenPair, APIError>)
    ensures var v := ValidateToken(tok, env);
      && (v.err.Some? ==> r == Failure(v.err.value))
      && (v.err.None? ==> r == if env.tokens.generate(v.userId, v.role).Some?
                               then Success(env.tokens.generate(v.userId, v.role).value)
                               else Failure(ErrTokenGeneration))
  {
    if tok == "" then Failure(ErrMissingFields)
    else
      match env.tokens.parse(tok)
      case None => Failure(ErrInvalidCredentials)
      case Some(claims) =>
        match TextClaim(claims, "sub")
        case None => Failure(ErrInvalidCredentials)
        case Some(sub) =>
          match TextClaim(claims, "role")
          case None => Failure(ErrInvalidCredentials)
          case Some(role) =>
            match env.uuids.parse(sub)
            case None => Failure(ErrInvalidCredentials)
            case Some(id) =>
              match env.tokens.generate(id, role)
              case None => Failure(ErrTokenGeneration)
              case Some(p) => Success(p)
  }

  /** Rewriting the `type` claim changes neither validation nor refresh:
      an access token is as good as a refresh token. */
  lemma TypeClaimIgnored(tok: string, env: Env, env': Env, c: Claims, kind: ClaimValue)
    requires env.tokens.parse(tok) == Some(c)
    requires env'.tokens.parse(tok) == Some(c["type" := kind])
    requires env'.tokens.generate == env.tokens.generate && env'.uuids == env.uuids
    ensures ValidateToken(tok, env') == ValidateToken(tok, env)
    ensures RefreshToken(tok, env') == RefreshToken(tok, env)
  {
    assert TextClaim(c["type" := kind], "sub") == TextClaim(c, "sub");
    assert TextClaim(c["type" := kind], "role") == TextClaim(c, "role");
  }

  /** Both tokens of an issued pair validate to the subject and role they
      were issued for, and either one can be used to refresh. */
  lemma {:induction false} IssuedTokensValidate(env: Env, id: Uuid, role: string)
    requires TokensRoundTrip(env) && env.tokens.generate(id, role).Some?
    ensures var p := env.tokens.generate(id, role).value;
      && ValidateToken(p.accessToken, env) == Validation(id, role, None)
      && ValidateToken(p.refreshToken, env) == Validation(id, role, None)
      && RefreshToken(p.accessToken, env) == Success(p)
      && RefreshToken(p.refreshToken, env) == Success(p)
  {
    var p := env.tokens.generate(id, role).value;
    assert env.uuids.parse(env.uuids.format(id)) == Some(id);
    var ca := env.tokens.parse(p.accessToken).value;
    var cr := env.tokens.parse(p.refreshToken).value;
    assert TextClaim(ca, "sub") == Some(env.uuids.format(id)) && TextClaim(ca, "role") == Some(role);
    assert TextClaim(cr, "sub") == Some(env.uuids.format(id)) && TextClaim(cr, "role") == Some(role);
  }

  /** The access token of a successful login validates to the stored
      user's id and role. */
  lemma {:induction false} LoginThenValidate(t: Tables, req: LoginRequest, env: Env, lookupFault: bool)
    requires TokensRoundTrip(env) && Login(t, req, env, lookupFault).Success?
    ensures var u := t.users[t.byEmail[req.email]];
      ValidateToken(Login(t, req, env, lookupFault).value.accessToken, env) == Validation(u.id, u.role, None)
  {
    var u := t.users[t.byEmail[req.email]];
    IssuedTokensValidate(env, u.id, u.role);
  }
}
