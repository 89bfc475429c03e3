/**
 * The User document: the fields of the schema, their defaults and the role
 * enumeration. The `date` field (default: the creation time) is not modelled.
 */
module UserModel {
  import opened Wrappers
  import opened Ids
  import opened Bcrypt
  import opened Jwt
  import opened Favorites

  /** The `role` enumeration: "user" or "admin". */
  datatype Role = UserRole | AdminRole

  /** The string stored for a role. */
  function RoleName(r: Role): (s: string)
    ensures s == "user" || s == "admin"
    ensures s == "admin" <==> r == AdminRole
  {
    match r
    case UserRole => "user"
    case AdminRole => "admin"
  }

  /** The enum validator: a string is a role only if it is one of the two names. */
  function ParseRole(s: string): (r: Option<Role>)
    ensures r.Some? <==> s == "user" || s == "admin"
    ensures r.Some? ==> RoleName(r.value) == s
  {
    if s == "user" then Some(UserRole)
    else if s == "admin" then Some(AdminRole)
    else None
  }

  /** The role actually stored when the document is built from `given`: the default when absent. */
  function RoleFromBody(given: Option<string>): (r: Option<Role>)
    ensures given.None? ==> r == Some(UserRole)
    ensures given.Some? ==> (r.Some? <==> given.value == "user" || given.value == "admin")
    ensures given.Some? && r.Some? ==> RoleName(r.value) == given.value
  {
    if given.None? then Some(UserRole) else ParseRole(given.value)
  }

  lemma RoleRoundTrip(r: Role)
    ensures ParseRole(RoleName(r)) == Some(r)
  {
  }

  /** The empty `resetPasswordLink`: no reset is pending. */
  const NoResetLink: TokenText := Plain("")

  datatype User = User(
    id: ObjectId,
    username: string,
    email: string,
    password: Option<Digest>,
    resetPasswordLink: TokenText,
    role: Role,
    favorites: seq<ObjectId>)

  /** A pending reset link is a reset token naming the document it is stored in. */
  predicate ResetLinkOwned(u: User) {
    u.resetPasswordLink == NoResetLink
    || (u.resetPasswordLink.Compact? && u.resetPasswordLink.token.payload == ResetPayload(u.id))
  }

  /** What every document the controller writes satisfies. */
  predicate WellFormed(u: User) {
    && NoDuplicates(u.favorites)
    && ResetLinkOwned(u)
    && (u.password.Some? ==> u.password.value.cost == Cost)
  }

  /** `new User({username, email, password, role})` with the schema's defaults filled in. */
  function NewUser(id: ObjectId, username: string, email: string, password: Digest, role: Role): (u: User)
    ensures u.id == id && u.username == username && u.email == email
    ensures u.password == Some(password) && u.role == role
    ensures u.resetPasswordLink == NoResetLink && u.favorites == []
    // the defaults start a document with no reset pending and nothing to deduplicate
    ensures password.cost == Cost ==> WellFormed(u)
    ensures ResetLinkOwned(u) && NoDuplicates(u.favorites)
  {
    User(id, username, email, Some(password), NoResetLink, role, [])
  }

  /** The session claims login signs for a user. */
  function ClaimsOf(u: User): (c: Claims)
    ensures c.id == u.id && c.email == u.email && c.role == RoleName(u.role)
    // the role travels in the token as a string that the enum reads back as the same role
    ensures ParseRole(c.role) == Some(u.role)
    ensures c.role == "admin" <==> u.role == AdminRole
  {
    Claims(u.id, u.email, RoleName(u.role))
  }
}
