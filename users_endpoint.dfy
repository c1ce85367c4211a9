/** The user endpoints of `app/api/v1/endpoints/users.py`.  Password
    hashing (`get_password_hash`) is a parameter of the model.  Flushing a
    changed e-mail that another row already holds violates the unique index
    on `users.email`; the commit raises and the request ends in an
    unhandled 500 with nothing stored. */
module UsersEndpoint {
  import opened Wrappers
  import opened UserModel
  import opened UserSchema

  /** Another row than `id` holds the e-mail. */
  predicate EmailHeldByOther(rows: map<nat, User>, email: string, id: nat) {
    exists k :: k in rows && k != id && rows[k].email == email
  }

  /** The field updates of `update_current_user`: e-mail, names and
      password, each only when truthy. */
  function SelfUpdated(u: User, b: UserUpdate, hash: string -> string): (v: User)
    ensures v.id == u.id && v.role == u.role && v.isActive == u.isActive && v.createdAt == u.createdAt
    ensures b.email != "" ==> v.email == b.email
    ensures b.email == "" ==> v.email == u.email
    ensures b.firstName != "" ==> v.firstName == b.firstName
    ensures b.firstName == "" ==> v.firstName == u.firstName
    ensures b.lastName != "" ==> v.lastName == b.lastName
    ensures b.lastName == "" ==> v.lastName == u.lastName
    ensures v.hashedPassword == if Truthy(b.password) then hash(b.password.value) else u.hashedPassword
  {
    u.(email := if b.email != "" then b.email else u.email,
       firstName := if b.firstName != "" then b.firstName else u.firstName,
       lastName := if b.lastName != "" then b.lastName else u.lastName,
       hashedPassword := if Truthy(b.password) then hash(b.password.value) else u.hashedPassword)
  }

  /** The field updates of the admin's `update_user`: those of the self
      update, plus the role when truthy and the active flag always (it is
      never `None` once the body is parsed). */
  function AdminUpdated(u: User, b: UserUpdate, hash: string -> string): (v: User)
    ensures v.isActive == b.isActive
    ensures b.role != "" ==> v.role == b.role
    ensures b.role == "" ==> v.role == u.role
    ensures v.(role := u.role, isActive := u.isActive) == SelfUpdated(u, b, hash)
  {
    SelfUpdated(u, b, hash).(role := if b.role != "" then b.role else u.role, isActive := b.isActive)
  }

  /** Applying the same profile update twice is the same as applying it
      once, with the password hashed by the second call.  The two calls of
      `get_password_hash` are separate parameters, so a salted hasher that
      gives a new hash each time is covered: only the hash of the last
      update remains. */
  lemma SelfUpdateIdempotent(u: User, b: UserUpdate, hash1: string -> string, hash2: string -> string)
    ensures SelfUpdated(SelfUpdated(u, b, hash1), b, hash2) == SelfUpdated(u, b, hash2)
    ensures AdminUpdated(AdminUpdated(u, b, hash1), b, hash2) == AdminUpdated(u, b, hash2)
    ensures !Truthy(b.password) ==> SelfUpdated(SelfUpdated(u, b, hash1), b, hash2) == SelfUpdated(u, b, hash1)
  {
  }

  /** An admin update whose body leaves out `role` and `is_active` still
      sets them, to the schema defaults: an admin is demoted to `agent` and
      a deactivated user is reactivated. */
  lemma AdminUpdateResetsOmittedFields(u: User, body: UserBody, hash: string -> string,
                                      checkEmail: string -> Option<string>)
    requires ValidBase(body, checkEmail) && body.role.None? && body.isActive.None?
    ensures ParseUserUpdate(body, checkEmail).Some?
    ensures var v := AdminUpdated(u, ParseUserUpdate(body, checkEmail).value, hash);
      v.role == Agent && v.isActive
  {
  }

  /** `update_current_user`: the caller's own row gets the self update;
      role and active flag are never touched. */
  method UpdateCurrentUser(table: UserTable, callerId: nat, b: UserUpdate, hash: string -> string)
    returns (r: Outcome<User>)
    requires table.Valid() && callerId in table.rows && table.rows[callerId].isActive
    modifies table
    ensures table.Valid() && table.nextId == old(table.nextId)
    ensures var v := SelfUpdated(old(table.rows)[callerId], b, hash);
      if EmailHeldByOther(old(table.rows), v.email, callerId)
      then r == Fail(500, InternalError) && table.rows == old(table.rows)
      else r == Ok(v) && table.rows == old(table.rows)[callerId := v]
    ensures r.Ok? ==> r.value.role == old(table.rows)[callerId].role && r.value.isActive
  {
    var v := SelfUpdated(table.rows[callerId], b, hash);
    r := Commit(table, callerId, v);
  }

  /** Flushing a changed row: the unique e-mail index either accepts it or
      the commit fails with nothing stored. */
  method Commit(table: UserTable, id: nat, v: User) returns (r: Outcome<User>)
    requires table.Valid() && id in table.rows && v.id == id
    modifies table
    ensures table.Valid() && table.nextId == old(table.nextId)
    ensures EmailHeldByOther(old(table.rows), v.email, id) ==> r == Fail(500, InternalError) && table.rows == old(table.rows)
    ensures !EmailHeldByOther(old(table.rows), v.email, id) ==> r == Ok(v) && table.rows == old(table.rows)[id := v]
  {
    if EmailHeldByOther(table.rows, v.email, id) {
      return Fail(500, InternalError);
    }
    table.rows := table.rows[id := v];
    r := Ok(v);
  }

  /** `create_user` (admin only): 400 for a taken e-mail; otherwise one new
      row with the requested role and active flag. */
  method CreateUser(table: UserTable, b: UserCreate, hash: string -> string, now: int) returns (r: Outcome<User>)
    requires table.Valid()
    modifies table
    ensures table.Valid()
    ensures EmailTaken(old(table.rows), b.email) ==>
      r == Fail(400, "Email already registered") && table.rows == old(table.rows) && table.nextId == old(table.nextId)
    ensures !EmailTaken(old(table.rows), b.email) ==>
      var u := NewUser(old(table.nextId), b.email, hash(b.password), b.firstName, b.lastName, Some(b.role), Some(b.isActive), now);
      r == Ok(u) && table.rows == old(table.rows)[u.id := u] && table.nextId == old(table.nextId) + 1
    ensures EmailTaken(table.rows, b.email)
  {
    if EmailTaken(table.rows, b.email) {
      return Fail(400, "Email already registered");
    }
    var u := NewUser(table.nextId, b.email, hash(b.password), b.firstName, b.lastName, Some(b.role), Some(b.isActive), now);
    Insert(table, u);
    r := Ok(u);
  }

  /** Adding a row whose e-mail is free under the next id. */
  method Insert(table: UserTable, u: User)
    requires table.Valid() && u.id == table.nextId && !EmailTaken(table.rows, u.email)
    modifies table
    ensures table.Valid()
    ensures table.rows == old(table.rows)[u.id := u] && table.nextId == old(table.nextId) + 1
    ensures EmailTaken(table.rows, u.email)
  {
    table.rows := table.rows[u.id := u];
    table.nextId := table.nextId + 1;
    assert table.rows[u.id].email == u.email;
  }

  /** `get_user` (admin only). */
  function GetUser(rows: map<nat, User>, id: nat): (r: Outcome<User>)
    ensures id !in rows <==> r == Fail(404, "User not found")
    ensures r.Ok? ==> r.value == rows[id]
  {
    if id in rows then Ok(rows[id]) else Fail(404, "User not found")
  }

  /** `update_user` (admin only): 404 for an unknown id; otherwise the admin
      update of that row. */
  method UpdateUser(table: UserTable, id: nat, b: UserUpdate, hash: string -> string) returns (r: Outcome<User>)
    requires table.Valid()
    modifies table
    ensures table.Valid() && table.nextId == old(table.nextId)
    ensures id !in old(table.rows) ==> r == Fail(404, "User not found") && table.rows == old(table.rows)
    ensures id in old(table.rows) ==>
      var v := AdminUpdated(old(table.rows)[id], b, hash);
      if EmailHeldByOther(old(table.rows), v.email, id)
      then r == Fail(500, InternalError) && table.rows == old(table.rows)
      else r == Ok(v) && table.rows == old(table.rows)[id := v]
    ensures r.Ok? ==> r.value.isActive == b.isActive && (b.role != "" ==> r.value.role == b.role)
  {
    if id !in table.rows {
      return Fail(404, "User not found");
    }
    var v := AdminUpdated(table.rows[id], b, hash);
    r := Commit(table, id, v);
  }

  /** `delete_user` (admin only): 404 for an unknown id, then 400 when the
      admin targets their own row; otherwise exactly that row goes. */
  method DeleteUser(table: UserTable, caller: User, id: nat) returns (r: Outcome<()>)
    requires table.Valid() && caller.role == Admin
    modifies table
    ensures table.Valid() && table.nextId == old(table.nextId)
    ensures id !in old(table.rows) ==> r == Fail(404, "User not found") && table.rows == old(table.rows)
    ensures id in old(table.rows) && id == caller.id ==> r == Fail(400, "Cannot delete yourself") && table.rows == old(table.rows)
    ensures id in old(table.rows) && id != caller.id ==> r == Ok(()) && table.rows == old(table.rows) - {id}
  {
    if id !in table.rows {
      return Fail(404, "User not found");
    }
    if id == caller.id {
      return Fail(400, "Cannot delete yourself");
    }
    table.rows := table.rows - {id};
    r := Ok(());
  }
}
