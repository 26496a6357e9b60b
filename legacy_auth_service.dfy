/** The older authentication service of internal/authService/service.go.
    Its chains are those of `AuthService`, except that the existence check
    of a registration is "the lookup by email succeeded" rather than a
    count. Each operation is written out as the source writes it and then
    related to its counterpart in `AuthService`. */
module LegacyAuthService {
  import opened Wrappers
  import opened SharedErrors
  import opened Store
  import opened Collaborators
  import opened AuthService

  /** Legacy `Login`: the same answers as the domain service's `Login`. */
  function LegacyLogin(t: Tables, req: LoginRequest, env: Env, lookupFault: bool): (r: Result<TokenPair, APIError>)
    ensures r == Login(t, req, env, lookupFault)
  {
    if req.email == "" || req.password == "" then Failure(ErrMissingFields)
    else
      var found := UserByEmail(t, req.email, lookupFault);
      if found.Failure? then
        Failure(if found.error == RecordNotFound then ErrInvalidCredentials else ErrDatabaseError)
      else if !env.hasher.compare(req.password, found.value.password) then Failure(ErrInvalidCredentials)
      else
        var tokens := env.tokens.generate(found.value.id, found.value.role);
        if tokens.None? then Failure(ErrTokenGeneration) else Success(tokens.value)
  }

  /** Legacy `Register`: a successful lookup means the email is taken,
      `RecordNotFound` lets the registration proceed, and any other lookup
      error is a database error; the rest is as in `RegisterSpec`. */
  function LegacyRegisterSpec(t: Tables, req: RegisterRequest, env: Env, ids: NewIds, f: RegisterFaults): (reg: Registration)
    ensures MissingField(req) ==> reg == Registration(Failure(ErrMissingFields), t)
    ensures !MissingField(req) && req.role !in ValidRoles ==> reg == Registration(Failure(ErrInvalidRole), t)
    ensures !MissingField(req) && req.role in ValidRoles ==>
      match UserByEmail(t, req.email, f.lookup)
      case Success(_) => reg == Registration(Failure(ErrUserAlreadyExists), t)
      case Failure(e) => e == QueryFailed ==> reg == Registration(Failure(ErrDatabaseError), t)
  {
    if MissingField(req) then Registration(Failure(ErrMissingFields), t)
    else if req.role !in ValidRoles then Registration(Failure(ErrInvalidRole), t)
    else
      var found := UserByEmail(t, req.email, f.lookup);
      if found.Success? then Registration(Failure(ErrUserAlreadyExists), t)
      else if found.error != RecordNotFound then Registration(Failure(ErrDatabaseError), t)
      else
        var hashed := env.hasher.hash(req.password);
        if hashed.None? then Registration(Failure(ErrInternalServer), t)
        else
          var u := NewUser(ids.userId, req, hashed.value);
          if f.createUser || !CanInsertUser(t, u) then Registration(Failure(ErrDatabaseError), t)
          else
            var t1 := InsertUser(t, u);
            if f.createInfo then
              Registration(Failure(ErrDatabaseError), if f.delete then t1 else RemoveUser(t1, u.id))
            else
              var t2 := PutInfo(t1, NewUserInfo(ids.infoId, u.id, req));
              var tokens := env.tokens.generate(u.id, u.role);
              if tokens.None? then Registration(Failure(ErrTokenGeneration), t2)
              else Registration(Success(tokens.value), t2)
  }

  /** On a store whose email index agrees with its users table, the two
      existence checks agree and so do the two registrations. */
  lemma {:induction false} LegacyRegisterAgrees(t: Tables, req: RegisterRequest, env: Env, ids: NewIds, f: RegisterFaults)
    requires Valid(t)
    ensures LegacyRegisterSpec(t, req, env, ids, f) == RegisterSpec(t, req, env, ids, f)
  {
    if !MissingField(req) && req.role in ValidRoles && !f.lookup {
      assert UserByEmail(t, req.email, false).Success? <==> req.email in t.byEmail;
    }
  }

  /** A property of this model's representation only, not of the program:
      the two existence checks read different parts of `Tables`, so they
      can part only on a value where the email index names a missing row.
      `Valid` excludes that value, and a database with a unique email index
      cannot reach it. On such a value the legacy check lets the
      registration proceed to the insert, which the unique email then
      refuses: both versions leave the store as it was, but they answer
      different errors. `LegacyRegisterAgrees` covers every consistent
      store. */
  lemma {:induction false} LegacyRegisterDanglingIndex(t: Tables, req: RegisterRequest, env: Env, ids: NewIds, f: RegisterFaults)
    requires !MissingField(req) && req.role in ValidRoles && !f.lookup
    requires req.email in t.byEmail && t.byEmail[req.email] !in t.users
    ensures RegisterSpec(t, req, env, ids, f) == Registration(Failure(ErrUserAlreadyExists), t)
    ensures LegacyRegisterSpec(t, req, env, ids, f) ==
      Registration(Failure(if env.hasher.hash(req.password).None? then ErrInternalServer else ErrDatabaseError), t)
  {
  }

  /** Legacy `Register` on the store, against `LegacyRegisterSpec`; the
      profile's failure is compensated with `DeleteUser`, whose own error
      is ignored. */
  method LegacyRegister(store: UserStore, req: RegisterRequest, env: Env, ids: NewIds, f: RegisterFaults)
    returns (r: Result<TokenPair, APIError>)
    modifies store
    ensures var reg := LegacyRegisterSpec(old(store.Snapshot()), req, env, ids, f);
      r == reg.result && store.Snapshot() == reg.tables
  {
    if MissingField(req) {
      return Failure(ErrMissingFields);
    }
    if req.role !in ValidRoles {
      return Failure(ErrInvalidRole);
    }
    var found := UserByEmail(store.Snapshot(), req.email, f.lookup);
    if found.Success? {
      return Failure(ErrUserAlreadyExists);
    }
    if found.error != RecordNotFound {
      return Failure(ErrDatabaseError);
    }
    var hashed := env.hasher.hash(req.password);
    if hashed.None? {
      return Failure(ErrInternalServer);
    }
    var user := NewUser(ids.userId, req, hashed.value);
    var err := store.CreateUser(user, f.createUser);
    if err.Some? {
      return Failure(ErrDatabaseError);
    }
    err := store.CreateUserInfo(NewUserInfo(ids.infoId, user.id, req), f.createInfo);
    if err.Some? {
      var _ := store.Delete(user.id, f.delete);
      return Failure(ErrDatabaseError);
    }
    var tokens := env.tokens.generate(user.id, user.role);
    if tokens.None? {
      return Failure(ErrTokenGeneration);
    }
    return Success(tokens.value);
  }

  /** The subject and role a token's claims name, when both are strings
      and the subject parses as a UUID. */
  function SubjectOf(c: Claims, uuids: UuidCodec): (s: Option<(Uuid, string)>)
    ensures s.Some? <==> HasSubject(c, uuids)
    ensures s.Some? ==> s.value == (uuids.parse(TextClaim(c, "sub").value).value, TextClaim(c, "role").value)
  {
    match (TextClaim(c, "sub"), TextClaim(c, "role"))
    case (Some(sub), Some(role)) =>
      if uuids.parse(sub).Some? then Some((uuids.parse(sub).value, role)) else None
    case _ => None
  }

  /** Legacy `RefreshToken`: the same chain and answers as the domain
      service's `RefreshToken`. */
  function LegacyRefreshToken(tok: string, env: Env): (r: Result<TokenPair, APIError>)
    ensures r == RefreshToken(tok, env)
  {
    if tok == "" then Failure(ErrMissingFields)
    else if env.tokens.parse(tok).None? then Failure(ErrInvalidCredentials)
    else
      match SubjectOf(env.tokens.parse(tok).value, env.uuids)
      case None => Failure(ErrInvalidCredentials)
      case Some((id, role)) =>
        var tokens := env.tokens.generate(id, role);
        if tokens.None? then Failure(ErrTokenGeneration) else Success(tokens.value)
  }
}
