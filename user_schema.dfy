/** The request and response bodies of `app/schemas/user.py`.  A JSON body
    arrives as a `UserBody` whose absent fields are `None`; parsing fills in
    the declared defaults or fails validation (HTTP 422) when a required
    field is missing or the e-mail is not a valid address.  The `EmailStr`
    check is a parameter `checkEmail`: the normalised address, or `None` for
    an address the e-mail validator rejects. */
module UserSchema {
  import opened Wrappers

  /** `UserBase.role` default. */
  const DefaultRole := "agent"
  /** `Token.token_type` default. */
  const Bearer := "bearer"

  /** A user body as sent by the client, before validation. */
  datatype UserBody = UserBody(
    email: Option<string>,
    firstName: Option<string>,
    lastName: Option<string>,
    role: Option<string>,
    isActive: Option<bool>,
    password: Option<string>)

  /** `UserCreate`: every `UserBase` field plus a required password. */
  datatype UserCreate = UserCreate(email: string, firstName: string, lastName: string, role: string,
                                   isActive: bool, password: string)

  /** `UserUpdate`: the same required fields as `UserBase`; only the password
      is optional. */
  datatype UserUpdate = UserUpdate(email: string, firstName: string, lastName: string, role: string,
                                   isActive: bool, password: Option<string>)

  predicate HasBaseFields(b: UserBody) {
    b.email.Some? && b.firstName.Some? && b.lastName.Some?
  }

  /** The `UserBase` fields are present and the e-mail passes `EmailStr`. */
  predicate ValidBase(b: UserBody, checkEmail: string -> Option<string>) {
    HasBaseFields(b) && checkEmail(b.email.value).Some?
  }

  function RoleOrDefault(b: UserBody): string {
    if b.role.Some? then b.role.value else DefaultRole
  }

  function ActiveOrDefault(b: UserBody): bool {
    if b.isActive.Some? then b.isActive.value else true
  }

  /** Validation of a `UserCreate` body: `None` (422) when the email, a name
      or the password is missing, or the e-mail is not valid. */
  function ParseUserCreate(b: UserBody, checkEmail: string -> Option<string>): (r: Option<UserCreate>)
    ensures r.Some? <==> ValidBase(b, checkEmail) && b.password.Some?
    ensures r.Some? ==>
      r.value.email == checkEmail(b.email.value).value && r.value.firstName == b.firstName.value &&
      r.value.lastName == b.lastName.value && r.value.password == b.password.value
    ensures r.Some? && b.role.None? ==> r.value.role == DefaultRole
    ensures r.Some? && b.role.Some? ==> r.value.role == b.role.value
    ensures r.Some? && b.isActive.None? ==> r.value.isActive
    ensures r.Some? && b.isActive.Some? ==> r.value.isActive == b.isActive.value
  {
    if ValidBase(b, checkEmail) && b.password.Some? then
      Some(UserCreate(checkEmail(b.email.value).value, b.firstName.value, b.lastName.value, RoleOrDefault(b), ActiveOrDefault(b),
                      b.password.value))
    else None
  }

  /** Validation of a `UserUpdate` body: the email (a valid one) and both
      names are still required, and an omitted role or active flag takes its
      default rather than staying unset. */
  function ParseUserUpdate(b: UserBody, checkEmail: string -> Option<string>): (r: Option<UserUpdate>)
    ensures r.Some? <==> ValidBase(b, checkEmail)
    ensures r.Some? ==>
      r.value.email == checkEmail(b.email.value).value && r.value.firstName == b.firstName.value &&
      r.value.lastName == b.lastName.value && r.value.password == b.password
    ensures r.Some? && b.role.None? ==> r.value.role == DefaultRole
    ensures r.Some? && b.role.Some? ==> r.value.role == b.role.value
    ensures r.Some? && b.isActive.None? ==> r.value.isActive
    ensures r.Some? && b.isActive.Some? ==> r.value.isActive == b.isActive.value
  {
    if ValidBase(b, checkEmail) then
      Some(UserUpdate(checkEmail(b.email.value).value, b.firstName.value, b.lastName.value, RoleOrDefault(b), ActiveOrDefault(b),
                      b.password))
    else None
  }

  /** `UserLogin`: an e-mail that passes `EmailStr` and a password. */
  datatype UserLogin = UserLogin(email: string, password: string)

  function ParseUserLogin(email: Option<string>, password: Option<string>, checkEmail: string -> Option<string>)
    : (r: Option<UserLogin>)
    ensures r.Some? <==> email.Some? && password.Some? && checkEmail(email.value).Some?
    ensures r.Some? ==> r.value == UserLogin(checkEmail(email.value).value, password.value)
  {
    if email.Some? && password.Some? && checkEmail(email.value).Some? then
      Some(UserLogin(checkEmail(email.value).value, password.value))
    else None
  }

  /** The `Token` response, the JWT itself being opaque. */
  datatype Token = Token(accessToken: string, tokenType: string, userId: nat)

  function NewToken(accessToken: string, userId: nat): (t: Token)
    ensures t.tokenType == Bearer && t.accessToken == accessToken && t.userId == userId
  {
    Token(accessToken, Bearer, userId)
  }
}
