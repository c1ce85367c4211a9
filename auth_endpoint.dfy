/** `register` and `login` of `app/api/v1/endpoints/auth.py`.  Password
    hashing and checking (`get_password_hash`, `verify_password`) and the
    signing of the JWT (`create_access_token`) are parameters of the model;
    what is signed is the token subject, the user id as decimal text. */
module AuthEndpoint {
  import opened Wrappers
  import opened Decimal
  import opened UserModel
  import opened UserSchema
  import UsersEndpoint

  /** The bearer token for a user: its subject is `str(user.id)`. */
  function TokenFor(u: User, sign: string -> string): (t: Token)
    ensures t.tokenType == Bearer && t.userId == u.id && t.accessToken == sign(IntToString(u.id))
  {
    NewToken(sign(IntToString(u.id)), u.id)
  }

  /** The subject of a token names exactly the user it was issued to. */
  lemma SubjectNamesUser(u: User, v: User, sign: string -> string)
    ensures ParseInt(IntToString(TokenFor(u, sign).userId)) == Some(u.id)
    ensures IntToString(u.id) == IntToString(v.id) ==> u.id == v.id
  {
    IntToStringRoundTrip(u.id);
    if IntToString(u.id) == IntToString(v.id) {
      IntToStringInjective(u.id, v.id);
    }
  }

  /** `register`: 400 for a taken e-mail; otherwise a new row with the
      requested role (the active flag of the body is not passed on, so the
      column default, active, applies) and a token for it. */
  method Register(table: UserTable, b: UserCreate, hash: string -> string, sign: string -> string, now: int)
    returns (r: Outcome<Token>)
    requires table.Valid()
    modifies table
    ensures table.Valid()
    ensures EmailTaken(old(table.rows), b.email) ==>
      r == Fail(400, "Email already registered") && table.rows == old(table.rows) && table.nextId == old(table.nextId)
    ensures !EmailTaken(old(table.rows), b.email) ==>
      var u := NewUser(old(table.nextId), b.email, hash(b.password), b.firstName, b.lastName, Some(b.role), None, now);
      && r == Ok(TokenFor(u, sign)) && table.rows == old(table.rows)[u.id := u] && table.nextId == old(table.nextId) + 1
      && u.role == b.role && u.isActive
  {
    if EmailTaken(table.rows, b.email) {
      return Fail(400, "Email already registered");
    }
    var u := NewUser(table.nextId, b.email, hash(b.password), b.firstName, b.lastName, Some(b.role), None, now);
    UsersEndpoint.Insert(table, u);
    r := Ok(TokenFor(u, sign));
  }

  /** The row holding an e-mail (the `.first()` of the query; the unique
      index makes it the only one). */
  function RowByEmail(rows: map<nat, User>, email: string): (r: Option<nat>)
    requires EmailsUnique(rows)
    ensures r.None? <==> !EmailTaken(rows, email)
    ensures r.Some? ==> r.value in rows && rows[r.value].email == email
  {
    if EmailTaken(rows, email) then
      var k :| k in rows && rows[k].email == email;
      Some(k)
    else None
  }

  /** `login`: 401 for an unknown e-mail or a password that does not
      check, before 400 for an inactive user; otherwise a token for the
      user. */
  function Login(rows: map<nat, User>, email: string, password: string, verify: (string, string) -> bool,
                 sign: string -> string): (r: Outcome<Token>)
    requires EmailsUnique(rows)
    ensures !EmailTaken(rows, email) ==> r == Fail(401, "Incorrect email or password")
    ensures EmailTaken(rows, email) ==>
      var u := rows[RowByEmail(rows, email).value];
      && (!verify(password, u.hashedPassword) ==> r == Fail(401, "Incorrect email or password"))
      && (verify(password, u.hashedPassword) && !u.isActive ==> r == Fail(400, "Inactive user"))
      && (verify(password, u.hashedPassword) && u.isActive ==> r == Ok(TokenFor(u, sign)))
    ensures r.Ok? ==> exists k :: k in rows && rows[k].email == email && rows[k].isActive && r.value.userId == rows[k].id
  {
    match RowByEmail(rows, email)
    case None => Fail(401, "Incorrect email or password")
    case Some(k) =>
      if !verify(password, rows[k].hashedPassword) then Fail(401, "Incorrect email or password")
      else if !rows[k].isActive then Fail(400, "Inactive user")
      else Ok(TokenFor(rows[k], sign))
  }

  /** A user who just registered can log in with the same e-mail and
      password, and gets a token for the same row, whenever the password
      checker accepts what the hasher produced. */
  lemma RegisterThenLogin(rows: map<nat, User>, u: User, password: string, hash: string -> string,
                          verify: (string, string) -> bool, sign: string -> string)
    requires EmailsUnique(rows) && !EmailTaken(rows, u.email) && u.id !in rows
    requires u.hashedPassword == hash(password) && u.isActive
    requires verify(password, hash(password))
    ensures EmailsUnique(rows[u.id := u])
    ensures Login(rows[u.id := u], u.email, password, verify, sign) == Ok(TokenFor(u, sign))
  {
    var rows' := rows[u.id := u];
    assert rows'[u.id].email == u.email;
    assert RowByEmail(rows', u.email) == Some(u.id);
  }
}
