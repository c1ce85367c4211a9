/** The `users` table (`app/models/user.py`).  Password hashes are opaque
    strings produced outside the model. */
module UserModel {
  import opened Wrappers

  const Admin := "admin"
  const Agent := "agent"

  datatype User = User(
    id: nat,
    email: string,
    hashedPassword: string,
    firstName: string,
    lastName: string,
    role: string,
    isActive: bool,
    createdAt: int)

  /** A row as inserted: `role` and `is_active` take their column defaults
      (`agent`, true) when the insert does not give them. */
  function NewUser(id: nat, email: string, hashedPassword: string, firstName: string, lastName: string,
                   role: Option<string>, isActive: Option<bool>, now: int): (u: User)
    ensures u.id == id && u.email == email && u.hashedPassword == hashedPassword
    ensures u.firstName == firstName && u.lastName == lastName && u.createdAt == now
    ensures u.role == (if role.Some? then role.value else Agent)
    ensures u.isActive == (isActive.None? || isActive.value)
  {
    User(id, email, hashedPassword, firstName, lastName,
         if role.Some? then role.value else Agent,
         if isActive.Some? then isActive.value else true, now)
  }

  /** The `full_name` property: first name, one space, last name. */
  function FullName(u: User): (s: string)
    ensures |s| == |u.firstName| + 1 + |u.lastName|
    ensures s[..|u.firstName|] == u.firstName && s[|u.firstName|] == ' ' && s[|u.firstName| + 1..] == u.lastName
  {
    u.firstName + " " + u.lastName
  }

  /** Position of the first space, or `|s|` when there is none. */
  function FirstSpace(s: string): (i: nat)
    ensures i <= |s| && (i < |s| ==> s[i] == ' ')
    ensures forall k :: 0 <= k < i ==> s[k] != ' '
  {
    if s == [] then 0 else if s[0] == ' ' then 0 else 1 + FirstSpace(s[1..])
  }

  /** When the first name has no space, splitting the full name at its first
      space gives back both names. */
  lemma FullNameSplits(u: User)
    requires forall k :: 0 <= k < |u.firstName| ==> u.firstName[k] != ' '
    ensures var s := FullName(u); var i := FirstSpace(s);
      s[..i] == u.firstName && i < |s| && s[i + 1..] == u.lastName
  {
  }

  predicate EmailTaken(rows: map<nat, User>, email: string) {
    exists k :: k in rows && rows[k].email == email
  }

  /** `email` is unique. */
  ghost predicate EmailsUnique(rows: map<nat, User>) {
    forall a, b :: a in rows && b in rows && rows[a].email == rows[b].email ==> a == b
  }

  class UserTable {
    var rows: map<nat, User>
    var nextId: nat

    ghost predicate Valid()
      reads this
    {
      && (forall k :: k in rows ==> k < nextId && rows[k].id == k)
      && EmailsUnique(rows)
    }

    constructor ()
      ensures Valid() && rows == map[] && nextId == 0
    {
      rows := map[];
      nextId := 0;
    }
  }
}
