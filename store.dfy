/** The user tables behind the repositories: users by id, the unique email
    index, and the profile (user info) of each user, keyed by user id.
    The write operations of internal/infrastructure/repositories/user.go
    that the services rely on are methods of `UserStore`; their effect is
    given by functions on the value `Tables`, about which the services'
    properties are proved. */
module Store {
  import opened Wrappers
  import opened SharedErrors

  /** A UUID; `NilUuid` is `uuid.Nil`. */
  type Uuid = nat
  const NilUuid: Uuid := 0

  /** A row of the users table (`shared.User`, timestamps left out). */
  datatype User = User(
    id: Uuid, email: string, password: string, role: string, location: string,
    isVerified: bool, isActive: bool)

  /** A row of the user-info table (`user.UserInfo`). */
  datatype UserInfo = UserInfo(
    id: Uuid, userId: Uuid, firstName: string, lastName: string,
    avatar: string, bio: string, location: string, phone: string)

  /** `user.BooleanUpdateRequest`: two optional flags. */
  datatype BooleanUpdateRequest = BooleanUpdateRequest(isActive: Option<bool>, isVerified: Option<bool>)

  /** The value of the store. */
  datatype Tables = Tables(
    users: map<Uuid, User>,
    byEmail: map<string, Uuid>,
    infos: map<Uuid, UserInfo>)

  /** The store's invariant: every row sits under its own id, the email
      index and the users table agree in both directions (so emails are
      unique), and every profile sits under its owner's id. */
  ghost predicate Valid(t: Tables) {
    && (forall id :: id in t.users ==> t.users[id].id == id)
    && (forall e :: e in t.byEmail ==> t.byEmail[e] in t.users && t.users[t.byEmail[e]].email == e)
    && (forall id :: id in t.users ==> t.users[id].email in t.byEmail && t.byEmail[t.users[id].email] == id)
    && (forall id :: id in t.infos ==> t.infos[id].userId == id)
  }

  // ---- Queries ----

  /** `GetUserByEmail` / `CheckUserExists`: the row whose email matches;
      a failing query gives `QueryFailed`, no row gives `RecordNotFound`. */
  function UserByEmail(t: Tables, email: string, fault: bool): (r: Result<User, DbError>)
    ensures fault ==> r == Failure(QueryFailed)
    ensures !fault && Valid(t) ==> (r.Success? <==> email in t.byEmail)
    ensures r.Success? ==> email in t.byEmail && t.byEmail[email] in t.users && r.value == t.users[t.byEmail[email]]
    ensures r.Failure? && !fault ==> r.error == RecordNotFound
  {
    if fault then Failure(QueryFailed)
    else if email in t.byEmail && t.byEmail[email] in t.users then Success(t.users[t.byEmail[email]])
    else Failure(RecordNotFound)
  }

  /** `GetByID`: the row with the given id. */
  function UserById(t: Tables, id: Uuid, fault: bool): (r: Result<User, DbError>)
    ensures r.Success? <==> !fault && id in t.users
    ensures r.Success? ==> r.value == t.users[id]
    ensures r.Failure? ==> r.error == if fault then QueryFailed else RecordNotFound
  {
    if fault then Failure(QueryFailed)
    else if id in t.users then Success(t.users[id])
    else Failure(RecordNotFound)
  }

  /** `UserExists`: whether some row has the email (a count above zero). */
  function EmailTaken(t: Tables, email: string, fault: bool): (r: Result<bool, DbError>)
    ensures r.Failure? <==> fault
    ensures r.Success? ==> (r.value <==> email in t.byEmail)
    ensures Valid(t) && r.Success? ==> (r.value <==> exists id :: id in t.users && t.users[id].email == email)
  {
    if fault then Failure(QueryFailed) else Success(email in t.byEmail)
  }

  // ---- Effects of the writes ----

  /** Whether a create of `u` satisfies the table's unique constraints
      (primary key and unique email). */
  predicate CanInsertUser(t: Tables, u: User) {
    u.id !in t.users && u.email !in t.byEmail
  }

  function InsertUser(t: Tables, u: User): Tables {
    t.(users := t.users[u.id := u], byEmail := t.byEmail[u.email := u.id])
  }

  /** `Delete(id)`: the row with that id and its index entry disappear;
      deleting an absent id changes nothing. */
  function RemoveUser(t: Tables, id: Uuid): Tables {
    if id in t.users then
      t.(users := t.users - {id}, byEmail := t.byEmail - {t.users[id].email})
    else t
  }

  function PutInfo(t: Tables, info: UserInfo): Tables {
    t.(infos := t.infos[info.userId := info])
  }

  /** `UpdateUserPassword(id, hash)`: only the password column of row `id`. */
  function SetPassword(t: Tables, id: Uuid, hash: string): Tables {
    if id in t.users then t.(users := t.users[id := t.users[id].(password := hash)]) else t
  }

  /** The column map that `UpdateStudentStatus` builds: `is_active` and
      `is_verified` appear exactly when the request carries them. */
  function StatusUpdates(status: BooleanUpdateRequest): (m: map<string, bool>)
    ensures m.Keys <= {"is_active", "is_verified"}
    ensures "is_active" in m <==> status.isActive.Some?
    ensures "is_verified" in m <==> status.isVerified.Some?
    ensures "is_active" in m ==> m["is_active"] == status.isActive.value
    ensures "is_verified" in m ==> m["is_verified"] == status.isVerified.value
  {
    var a := if status.isActive.Some? then map["is_active" := status.isActive.value] else map[];
    if status.isVerified.Some? then a["is_verified" := status.isVerified.value] else a
  }

  /** The column map is empty exactly when neither flag is given. */
  lemma StatusUpdatesEmpty(status: BooleanUpdateRequest)
    ensures |StatusUpdates(status)| == 0 <==> status.isActive.None? && status.isVerified.None?
  {
    var m := StatusUpdates(status);
    if status.isActive.Some? {
      assert "is_active" in m;
    } else if status.isVerified.Some? {
      assert "is_verified" in m;
    } else {
      assert m == map[];
    }
  }

  /** A row with the named boolean columns overwritten. */
  function ApplyColumns(u: User, updates: map<string, bool>): User {
    var u1 := if "is_active" in updates then u.(isActive := updates["is_active"]) else u;
    if "is_verified" in updates then u1.(isVerified := updates["is_verified"]) else u1
  }

  function SetColumns(t: Tables, id: Uuid, updates: map<string, bool>): Tables {
    if id in t.users then t.(users := t.users[id := ApplyColumns(t.users[id], updates)]) else t
  }

  // ---- The writes preserve the invariant ----

  lemma {:induction false} InsertUserValid(t: Tables, u: User)
    requires Valid(t) && CanInsertUser(t, u)
    ensures Valid(InsertUser(t, u))
  {
    var t' := InsertUser(t, u);
    forall e | e in t'.byEmail
      ensures t'.byEmail[e] in t'.users && t'.users[t'.byEmail[e]].email == e
    {
      if e != u.email {
        assert t.byEmail[e] in t.users && t.byEmail[e] != u.id;
      }
    }
    forall id | id in t'.users
      ensures t'.users[id].email in t'.byEmail && t'.byEmail[t'.users[id].email] == id
    {
      if id != u.id {
        assert t.users[id].email != u.email;
      }
    }
  }

  lemma {:induction false} RemoveUserValid(t: Tables, id: Uuid)
    requires Valid(t)
    ensures Valid(RemoveUser(t, id))
  {
    if id in t.users {
      var t' := RemoveUser(t, id);
      var gone := t.users[id].email;
      forall e | e in t'.byEmail
        ensures t'.byEmail[e] in t'.users && t'.users[t'.byEmail[e]].email == e
      {
        assert e != gone && t.byEmail[e] != id;
      }
      forall i | i in t'.users
        ensures t'.users[i].email in t'.byEmail && t'.byEmail[t'.users[i].email] == i
      {
        assert t.byEmail[t.users[i].email] == i;
      }
    }
  }

  /** Deleting a user just inserted restores the tables exactly. */
  lemma {:induction false} RemoveUndoesInsert(t: Tables, u: User)
    requires CanInsertUser(t, u)
    ensures RemoveUser(InsertUser(t, u), u.id) == t
  {
    var t' := InsertUser(t, u);
    assert t'.users - {u.id} == t.users;
    assert t'.byEmail - {u.email} == t.byEmail;
  }

  /** The mutable store that the repositories read and write. */
  class UserStore {
    var users: map<Uuid, User>
    var byEmail: map<string, Uuid>
    var infos: map<Uuid, UserInfo>

    function Snapshot(): Tables
      reads this
    {
      Tables(users, byEmail, infos)
    }

    constructor ()
      ensures Snapshot() == Tables(map[], map[], map[])
      ensures Valid(Snapshot())
    {
      users, byEmail, infos := map[], map[], map[];
    }

    /** `CreateUser` / `Register`: an insert that fails on a query fault or
        on a unique-constraint violation, and then changes nothing. */
    method CreateUser(u: User, fault: bool) returns (err: Option<DbError>)
      modifies this
      ensures err.None? <==> !fault && CanInsertUser(old(Snapshot()), u)
      ensures Snapshot() == if err.None? then InsertUser(old(Snapshot()), u) else old(Snapshot())
    {
      if fault || u.id in users || u.email in byEmail {
        return Some(QueryFailed);
      }
      users := users[u.id := u];
      byEmail := byEmail[u.email := u.id];
      return None;
    }

    /** `CreateUserInfo`. */
    method CreateUserInfo(info: UserInfo, fault: bool) returns (err: Option<DbError>)
      modifies this
      ensures err.None? <==> !fault
      ensures Snapshot() == if err.None? then PutInfo(old(Snapshot()), info) else old(Snapshot())
    {
      if fault {
        return Some(QueryFailed);
      }
      infos := infos[info.userId := info];
      return None;
    }

    /** `Delete` / `DeleteUser`: removes the row whose id matches. */
    method Delete(id: Uuid, fault: bool) returns (err: Option<DbError>)
      modifies this
      ensures err.None? <==> !fault
      ensures Snapshot() == if err.None? then RemoveUser(old(Snapshot()), id) else old(Snapshot())
    {
      if fault {
        return Some(QueryFailed);
      }
      if id in users {
        byEmail := byEmail - {users[id].email};
        users := users - {id};
      }
      return None;
    }

    /** `UpdateUserPassword`: writes the password column of row `id` only. */
    method UpdateUserPassword(id: Uuid, hash: string, fault: bool) returns (err: Option<DbError>)
      modifies this
      ensures err.None? <==> !fault
      ensures Snapshot() == if err.None? then SetPassword(old(Snapshot()), id, hash) else old(Snapshot())
    {
      if fault {
        return Some(QueryFailed);
      }
      if id in users {
        users := users[id := users[id].(password := hash)];
      }
      return None;
    }

    /** `UpdateStudentStatus`: builds the column map from the two optional
        flags; with no column it returns without touching the table (and
        without a query, so `fault` plays no part), otherwise it updates
        row `studentId`. `replacerId` is never used. */
    method UpdateStudentStatus(replacerId: Uuid, studentId: Uuid, status: BooleanUpdateRequest, fault: bool)
      returns (err: Option<DbError>)
      modifies this
      ensures var m := StatusUpdates(status);
        if |m| == 0 then err.None? && Snapshot() == old(Snapshot())
        else (err.None? <==> !fault) &&
             Snapshot() == if err.None? then SetColumns(old(Snapshot()), studentId, m) else old(Snapshot())
    {
      var updates: map<string, bool> := map[];
      if status.isActive.Some? {
        updates := updates["is_active" := status.isActive.value];
      }
      if status.isVerified.Some? {
        updates := updates["is_verified" := status.isVerified.value];
      }
      assert updates == StatusUpdates(status);
      if |updates| == 0 {
        return None;
      }
      if fault {
        return Some(QueryFailed);
      }
      if studentId in users {
        users := users[studentId := ApplyColumns(users[studentId], updates)];
      }
      return None;
    }
  }
}
