/** The user service of internal/domain/user/service.go: id and field
    guards in front of single repository calls. The reads take the
    repository's answer as a function of the id; the password change and
    the status change write the store and are specified by functions on
    `Tables`. The password change is given twice: as the source writes it,
    with its comparison the wrong way round, and as evidently intended. */
module UserService {
  import opened Wrappers
  import opened SharedErrors
  import opened Store
  import opened Collaborators
  import opened AuthService

  /** `user.UserStats`. */
  datatype UserStats = UserStats(
    id: Uuid, userId: Uuid, coursesCompleted: int, coursesInProgress: int,
    followers: int, following: int, level: int, xp: int, nextLevelXp: int)

  /** `user.UserAchievements`. */
  datatype UserAchievement = UserAchievement(id: Uuid, userId: Uuid, achievementName: string)

  /** `user.UserBadges`. */
  datatype UserBadge = UserBadge(id: Uuid, userId: Uuid, badgeName: string)

  /** `user.UpdateUserInfoRequest`. */
  datatype UpdateUserInfoRequest = UpdateUserInfoRequest(
    firstName: string, lastName: string, bio: string, location: string, phone: string)

  /** `user.UpdateUserPasswordRequest`. */
  datatype UpdateUserPasswordRequest = UpdateUserPasswordRequest(currentPassword: string, newPassword: string)

  /** Which repository calls of a password change fail. */
  datatype PasswordFaults = PasswordFaults(lookup: bool, write: bool)

  /** What a writing operation answers, and the store it leaves behind. */
  datatype Change = Change(result: Outcome<APIError>, tables: Tables)

  // ---- Reads ----

  /** The shape shared by the four reads: a nil id is invalid input and the
      repository is not asked; any repository error is a database error;
      otherwise the repository's value, unchanged. */
  function GuardedRead<T>(userId: Uuid, repo: Uuid -> Result<T, DbError>): (r: Result<T, APIError>)
    ensures userId == NilUuid ==> r == Failure(ErrInvalidInput)
    ensures userId != NilUuid && repo(userId).Failure? ==> r == Failure(ErrDatabaseError)
    ensures userId != NilUuid && repo(userId).Success? ==> r == Success(repo(userId).value)
  {
    if userId == NilUuid then Failure(ErrInvalidInput)
    else
      match repo(userId)
      case Failure(_) => Failure(ErrDatabaseError)
      case Success(v) => Success(v)
  }

  /** A nil id is refused whatever the repository would have answered. */
  lemma NilIdNeverReaches<T>(repo: Uuid -> Result<T, DbError>, repo': Uuid -> Result<T, DbError>)
    ensures GuardedRead(NilUuid, repo) == GuardedRead(NilUuid, repo') == Failure(ErrInvalidInput)
  {
  }

  function GetUserInfo(userId: Uuid, repo: Uuid -> Result<UserInfo, DbError>): (r: Result<UserInfo, APIError>)
    ensures r.Success? <==> userId != NilUuid && repo(userId).Success?
    ensures r.Success? ==> r.value == repo(userId).value
    ensures r.Failure? ==> r.error == if userId == NilUuid then ErrInvalidInput else ErrDatabaseError
  {
    GuardedRead(userId, repo)
  }

  function GetUserStats(userId: Uuid, repo: Uuid -> Result<UserStats, DbError>): (r: Result<UserStats, APIError>)
    ensures r.Success? <==> userId != NilUuid && repo(userId).Success?
    ensures r.Success? ==> r.value == repo(userId).value
    ensures r.Failure? ==> r.error == if userId == NilUuid then ErrInvalidInput else ErrDatabaseError
  {
    GuardedRead(userId, repo)
  }

  function GetUserAchievements(userId: Uuid, repo: Uuid -> Result<seq<UserAchievement>, DbError>)
    : (r: Result<seq<UserAchievement>, APIError>)
    ensures r.Success? <==> userId != NilUuid && repo(userId).Success?
    ensures r.Success? ==> r.value == repo(userId).value
    ensures r.Failure? ==> r.error == if userId == NilUuid then ErrInvalidInput else ErrDatabaseError
  {
    GuardedRead(userId, repo)
  }

  function GetUserBadges(userId: Uuid, repo: Uuid -> Result<seq<UserBadge>, DbError>)
    : (r: Result<seq<UserBadge>, APIError>)
    ensures r.Success? <==> userId != NilUuid && repo(userId).Success?
    ensures r.Success? ==> r.value == repo(userId).value
    ensures r.Failure? ==> r.error == if userId == NilUuid then ErrInvalidInput else ErrDatabaseError
  {
    GuardedRead(userId, repo)
  }

  // ---- UpdateUserInfo ----

  /** `UpdateUserInfo`: a nil id is invalid input; a missing request or an
      empty first name, last name or location is a missing field, and
      nothing is written; bio and phone may be empty; otherwise the answer
      is the repository update's. `repoFault` says whether that update
      fails. */
  function UpdateUserInfo(userId: Uuid, req: Option<UpdateUserInfoRequest>, repoFault: bool): (r: Outcome<APIError>)
    ensures userId == NilUuid ==> r == Fail(ErrInvalidInput)
    ensures userId != NilUuid && req.None? ==> r == Fail(ErrMissingFields)
    ensures r.Pass? <==>
      && userId != NilUuid && req.Some? && !repoFault
      && req.value.firstName != "" && req.value.lastName != "" && req.value.location != ""
    ensures (userId != NilUuid && req.Some? &&
             (req.value.firstName == "" || req.value.lastName == "" || req.value.location == ""))
      ==> r == Fail(ErrMissingFields)
    ensures (userId != NilUuid && req.Some? && repoFault &&
             req.value.firstName != "" && req.value.lastName != "" && req.value.location != "")
      ==> r == Fail(ErrDatabaseError)
    ensures r.Fail? ==> r.error in {ErrInvalidInput, ErrMissingFields, ErrDatabaseError}
    ensures r == Fail(ErrDatabaseError) ==> repoFault
  {
    if userId == NilUuid then Fail(ErrInvalidInput)
    else if req.None? then Fail(ErrMissingFields)
    else if req.value.firstName == "" || req.value.lastName == "" || req.value.location == "" then Fail(ErrMissingFields)
    else if repoFault then Fail(ErrDatabaseError)
    else Pass
  }

  /** The answer does not depend on the bio or the phone. */
  lemma UpdateUserInfoIgnoresOptionalFields(userId: Uuid, req: UpdateUserInfoRequest, bio: string, phone: string, repoFault: bool)
    ensures UpdateUserInfo(userId, Some(req.(bio := bio, phone := phone)), repoFault)
         == UpdateUserInfo(userId, Some(req), repoFault)
  {
  }

  // ---- UpdateUserPassword ----

  /** `UpdateUserPassword` as the source writes it: it refuses the change
      when the current password DOES match the stored hash, and goes on to
      write when it does not. */
  function PasswordChangeAsWritten(t: Tables, userId: Uuid, req: Option<UpdateUserPasswordRequest>, h: Hasher, f: PasswordFaults)
    : (c: Change)
    ensures c.tables == t || (c.result.Pass? && userId in t.users)
    ensures userId == NilUuid ==> c == Change(Fail(ErrInvalidInput), t)
    ensures userId != NilUuid && req.None? ==> c == Change(Fail(ErrMissingFields), t)
    ensures userId != NilUuid && req.Some? && (f.lookup || userId !in t.users) ==> c == Change(Fail(ErrDatabaseError), t)
    ensures c.result == Fail(ErrInvalidCredentials) <==>
      && userId != NilUuid && req.Some? && !f.lookup && userId in t.users
      && h.compare(req.value.currentPassword, t.users[userId].password)
    ensures (&& userId != NilUuid && req.Some? && !f.lookup && userId in t.users
             && !h.compare(req.value.currentPassword, t.users[userId].password)
             && (h.hash(req.value.newPassword).None? || f.write))
      ==> c == Change(Fail(ErrDatabaseError), t)
    ensures c.result.Pass? ==>
      && userId in t.users && !h.compare(req.value.currentPassword, t.users[userId].password)
      && h.hash(req.value.newPassword).Some?
      && c.tables == SetPassword(t, userId, h.hash(req.value.newPassword).value)
  {
    if userId == NilUuid then Change(Fail(ErrInvalidInput), t)
    else if req.None? then Change(Fail(ErrMissingFields), t)
    else
      match UserById(t, userId, f.lookup)
      case Failure(_) => Change(Fail(ErrDatabaseError), t)
      case Success(u) =>
        if h.compare(req.value.currentPassword, u.password) then Change(Fail(ErrInvalidCredentials), t)
        else
          match h.hash(req.value.newPassword)
          case None => Change(Fail(ErrDatabaseError), t)
          case Some(hash) =>
            if f.write then Change(Fail(ErrDatabaseError), t)
            else Change(Pass, SetPassword(t, userId, hash))
  }

  /** The password change as evidently intended: it refuses the change
      when the current password does NOT match the stored hash. */
  function PasswordChangeSpec(t: Tables, userId: Uuid, req: Option<UpdateUserPasswordRequest>, h: Hasher, f: PasswordFaults)
    : (c: Change)
    ensures userId == NilUuid ==> c == Change(Fail(ErrInvalidInput), t)
    ensures userId != NilUuid && req.None? ==> c == Change(Fail(ErrMissingFields), t)
    ensures c.result.Fail? ==> c.tables == t
    ensures c.result.Fail? ==> c.result.error in {ErrInvalidInput, ErrMissingFields, ErrDatabaseError, ErrInvalidCredentials}
    ensures userId != NilUuid && req.Some? && (f.lookup || userId !in t.users) ==> c == Change(Fail(ErrDatabaseError), t)
    ensures (&& userId != NilUuid && req.Some? && !f.lookup && userId in t.users
             && h.compare(req.value.currentPassword, t.users[userId].password)
             && (h.hash(req.value.newPassword).None? || f.write))
      ==> c == Change(Fail(ErrDatabaseError), t)
    ensures c.result == Fail(ErrInvalidCredentials) <==>
      && userId != NilUuid && req.Some? && !f.lookup && userId in t.users
      && !h.compare(req.value.currentPassword, t.users[userId].password)
    ensures c.result.Pass? ==>
      && userId in t.users && h.compare(req.value.currentPassword, t.users[userId].password)
      && h.hash(req.value.newPassword).Some?
      && c.tables == SetPassword(t, userId, h.hash(req.value.newPassword).value)
  {
    if userId == NilUuid then Change(Fail(ErrInvalidInput), t)
    else if req.None? then Change(Fail(ErrMissingFields), t)
    else
      match UserById(t, userId, f.lookup)
      case Failure(_) => Change(Fail(ErrDatabaseError), t)
      case Success(u) =>
        if !h.compare(req.value.currentPassword, u.password) then Change(Fail(ErrInvalidCredentials), t)
        else
          match h.hash(req.value.newPassword)
          case None => Change(Fail(ErrDatabaseError), t)
          case Some(hash) =>
            if f.write then Change(Fail(ErrDatabaseError), t)
            else Change(Pass, SetPassword(t, userId, hash))
  }

  /** As written, the user who knows their password is refused, and one who
      does not know it gets the password replaced; the intended version
      does the opposite. */
  lemma {:induction false} AsWrittenInvertsCheck(t: Tables, userId: Uuid, req: UpdateUserPasswordRequest, h: Hasher, f: PasswordFaults)
    requires userId != NilUuid && userId in t.users && !f.lookup && !f.write
    requires h.hash(req.newPassword).Some?
    ensures var stored := t.users[userId].password;
      var changed := SetPassword(t, userId, h.hash(req.newPassword).value);
      && (h.compare(req.currentPassword, stored) ==>
            && PasswordChangeAsWritten(t, userId, Some(req), h, f) == Change(Fail(ErrInvalidCredentials), t)
            && PasswordChangeSpec(t, userId, Some(req), h, f) == Change(Pass, changed))
      && (!h.compare(req.currentPassword, stored) ==>
            && PasswordChangeAsWritten(t, userId, Some(req), h, f) == Change(Pass, changed)
            && PasswordChangeSpec(t, userId, Some(req), h, f) == Change(Fail(ErrInvalidCredentials), t))
  {
    assert UserById(t, userId, false) == Success(t.users[userId]);
  }

  /** A concrete store on which the source refuses the right password: the
      user's stored hash compares equal to "old". */
  lemma AsWrittenRefusesRightPassword()
    ensures var u := User(1, "a@b.c", "h(old)", "student", "x", false, true);
      var t := Tables(map[1 := u], map["a@b.c" := 1], map[]);
      var h := Hasher(p => Some("h(" + p + ")"), (p, hp) => hp == "h(" + p + ")");
      var req := UpdateUserPasswordRequest("old", "new");
      && PasswordChangeAsWritten(t, 1, Some(req), h, PasswordFaults(false, false)) == Change(Fail(ErrInvalidCredentials), t)
      && PasswordChangeSpec(t, 1, Some(req), h, PasswordFaults(false, false)).result == Pass
  {
    var u := User(1, "a@b.c", "h(old)", "student", "x", false, true);
    var t := Tables(map[1 := u], map["a@b.c" := 1], map[]);
    var h := Hasher(p => Some("h(" + p + ")"), (p, hp) => hp == "h(" + p + ")");
    var req := UpdateUserPasswordRequest("old", "new");
    AsWrittenInvertsCheck(t, 1, req, h, PasswordFaults(false, false));
  }

  /** Changing the password keeps the store's invariant and touches nothing
      but the one password. */
  lemma {:induction false} SetPasswordFrame(t: Tables, userId: Uuid, hash: string)
    requires Valid(t)
    ensures var t' := SetPassword(t, userId, hash);
      && Valid(t')
      && t'.byEmail == t.byEmail && t'.infos == t.infos && t'.users.Keys == t.users.Keys
      && (forall id :: id in t.users && id != userId ==> t'.users[id] == t.users[id])
      && (userId in t.users ==> t'.users[userId] == t.users[userId].(password := hash))
  {
  }

  /** After an intended password change, logging in with the new password
      succeeds (given a sound hasher, a working token codec and non-empty
      credentials, which `Login` demands), and the stored value is the
      hasher's output. */
  lemma {:induction false} PasswordChangeThenLogin(t: Tables, userId: Uuid, req: UpdateUserPasswordRequest, env: Env, f: PasswordFaults)
    requires Valid(t) && HasherSound(env.hasher)
    requires PasswordChangeSpec(t, userId, Some(req), env.hasher, f).result.Pass?
    requires env.tokens.generate(userId, t.users[userId].role).Some?
    requires t.users[userId].email != "" && req.newPassword != ""
    ensures var t' := PasswordChangeSpec(t, userId, Some(req), env.hasher, f).tables;
      && t'.users[userId].password == env.hasher.hash(req.newPassword).value
      && Login(t', LoginRequest(t.users[userId].email, req.newPassword), env, false).Success?
  {
    var hash := env.hasher.hash(req.newPassword).value;
    SetPasswordFrame(t, userId, hash);
    var t' := SetPassword(t, userId, hash);
    assert t'.byEmail[t.users[userId].email] == userId;
  }

  /** `UpdateUserPassword` on the store, as intended. */
  method UpdateUserPassword(store: UserStore, userId: Uuid, req: Option<UpdateUserPasswordRequest>, h: Hasher, f: PasswordFaults)
    returns (r: Outcome<APIError>)
    modifies store
    ensures var c := PasswordChangeSpec(old(store.Snapshot()), userId, req, h, f);
      r == c.result && store.Snapshot() == c.tables
  {
    if userId == NilUuid {
      return Fail(ErrInvalidInput);
    }
    if req.None? {
      return Fail(ErrMissingFields);
    }
    var found := UserById(store.Snapshot(), userId, f.lookup);
    if found.Failure? {
      return Fail(ErrDatabaseError);
    }
    if !h.compare(req.value.currentPassword, found.value.password) {
      return Fail(ErrInvalidCredentials);
    }
    var hashed := h.hash(req.value.newPassword);
    if hashed.None? {
      return Fail(ErrDatabaseError);
    }
    var err := store.UpdateUserPassword(userId, hashed.value, f.write);
    if err.Some? {
      return Fail(ErrDatabaseError);
    }
    return Pass;
  }

  // ---- UpdateStudentStatus ----

  /** `UpdateStudentStatus`: either id nil is invalid input; a request with
      neither flag is a missing field; both are refused before the
      repository is called; otherwise the repository's column update of
      the student's row, whose failure is a database error. */
  function StatusChangeSpec(t: Tables, replacerId: Uuid, studentId: Uuid, status: BooleanUpdateRequest, fault: bool)
    : (c: Change)
    ensures replacerId == NilUuid || studentId == NilUuid ==> c == Change(Fail(ErrInvalidInput), t)
    ensures replacerId != NilUuid && studentId != NilUuid && status.isActive.None? && status.isVerified.None? ==>
      c == Change(Fail(ErrMissingFields), t)
    ensures c.result.Fail? ==> c.tables == t
    ensures c.result.Pass? <==>
      replacerId != NilUuid && studentId != NilUuid && (status.isActive.Some? || status.isVerified.Some?) && !fault
    ensures replacerId != NilUuid && studentId != NilUuid && (status.isActive.Some? || status.isVerified.Some?) && fault ==>
      c == Change(Fail(ErrDatabaseError), t)
    ensures c.result.Pass? ==> c.tables == SetColumns(t, studentId, StatusUpdates(status))
  {
    if replacerId == NilUuid || studentId == NilUuid then Change(Fail(ErrInvalidInput), t)
    else if status.isActive.None? && status.isVerified.None? then Change(Fail(ErrMissingFields), t)
    else if fault then Change(Fail(ErrDatabaseError), t)
    else Change(Pass, SetColumns(t, studentId, StatusUpdates(status)))
  }

  /** A status change touches only the student's row, and in it only the
      flags the request carries; the replacer's id plays no part. */
  lemma {:induction false} StatusChangeFrame(t: Tables, replacerId: Uuid, replacerId': Uuid, studentId: Uuid, status: BooleanUpdateRequest, fault: bool)
    requires Valid(t) && replacerId != NilUuid && replacerId' != NilUuid
    ensures StatusChangeSpec(t, replacerId, studentId, status, fault) == StatusChangeSpec(t, replacerId', studentId, status, fault)
    ensures var c := StatusChangeSpec(t, replacerId, studentId, status, fault);
      var t', done := c.tables, c.result.Pass?;
      && Valid(t')
      && t'.byEmail == t.byEmail && t'.infos == t.infos && t'.users.Keys == t.users.Keys
      && (forall id :: id in t.users && id != studentId ==> t'.users[id] == t.users[id])
      && (studentId in t.users ==>
            var u, u' := t.users[studentId], t'.users[studentId];
            && u'.(isActive := u.isActive, isVerified := u.isVerified) == u
            && u'.isActive == (if status.isActive.Some? && done then status.isActive.value else u.isActive)
            && u'.isVerified == (if status.isVerified.Some? && done then status.isVerified.value else u.isVerified))
  {
    var c := StatusChangeSpec(t, replacerId, studentId, status, fault);
    if c.result.Pass? && studentId in t.users {
      var m := StatusUpdates(status);
      var u := t.users[studentId];
      var u' := ApplyColumns(u, m);
      assert u'.id == u.id && u'.email == u.email;
      if c.tables == t {
        assert u' == u;
      }
    }
  }

  /** `UpdateStudentStatus` on the store. */
  method UpdateStudentStatus(store: UserStore, replacerId: Uuid, studentId: Uuid, status: BooleanUpdateRequest, fault: bool)
    returns (r: Outcome<APIError>)
    modifies store
    ensures var c := StatusChangeSpec(old(store.Snapshot()), replacerId, studentId, status, fault);
      r == c.result && store.Snapshot() == c.tables
  {
    if replacerId == NilUuid || studentId == NilUuid {
      return Fail(ErrInvalidInput);
    }
    if status.isActive.None? && status.isVerified.None? {
      return Fail(ErrMissingFields);
    }
    StatusUpdatesEmpty(status);
    var err := store.UpdateStudentStatus(replacerId, studentId, status, fault);
    if err.Some? {
      return Fail(ErrDatabaseError);
    }
    return Pass;
  }
}
