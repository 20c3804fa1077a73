/** The user model: the three roles, the capabilities derived from a role,
    and the constraints the database keeps on the user table
    (users/models.py). */
module Users {
  import opened Text

  type Id = int

  /** The `role` choices. A role is stored as its lower-case name. */
  datatype Role = UserRole | Moderator | Admin

  const USER: string := "user"
  const MODERATOR: string := "moderator"
  const ADMIN: string := "admin"

  const USERNAME_MAX_LENGTH: nat := 150
  const EMAIL_MAX_LENGTH: nat := 150
  const NAME_MAX_LENGTH: nat := 150
  /** The username the `name_not_me` check constraint forbids. */
  const RESERVED_USERNAME: string := "me"

  function RoleValue(r: Role): string
  {
    match r
    case UserRole => USER
    case Moderator => MODERATOR
    case Admin => ADMIN
  }

  /** The choice validation a serializer applies to a submitted role name:
      exactly the three stored names are accepted, each giving back its role. */
  function ParseRole(s: string): (r: Option<Role>)
    ensures r.Some? <==> s == USER || s == MODERATOR || s == ADMIN
    ensures r.Some? ==> RoleValue(r.value) == s
    ensures forall role: Role :: s == RoleValue(role) ==> r == Some(role)
  {
    if s == USER then Some(UserRole)
    else if s == MODERATOR then Some(Moderator)
    else if s == ADMIN then Some(Admin)
    else None
  }

  datatype User = User(
    username: string,
    email: string,
    firstName: string,
    lastName: string,
    bio: string,
    role: Role,
    isSuperuser: bool)

  predicate IsModerator(u: User)
  {
    u.role == Moderator
  }

  predicate IsAdmin(u: User)
  {
    u.role == Admin || u.isSuperuser
  }

  /** A user as the model's defaults create it from a username and an email:
      role `user`, not a superuser, blank names and biography. */
  function NewUser(username: string, email: string): (u: User)
    ensures u.username == username && u.email == email
    ensures u.role == UserRole && !u.isSuperuser
    ensures !IsAdmin(u) && !IsModerator(u)
  {
    User(username, email, "", "", "", UserRole, false)
  }

  /** The capability truth table: moderator exactly for the moderator role,
      admin exactly for the admin role or a superuser, and the stored role
      name decides the same thing as the role value. */
  lemma CapabilityTable(u: User)
    ensures IsModerator(u) <==> RoleValue(u.role) == MODERATOR
    ensures IsAdmin(u) <==> RoleValue(u.role) == ADMIN || u.isSuperuser
    ensures u.isSuperuser ==> IsAdmin(u)
    ensures u.role == UserRole && !u.isSuperuser ==> !IsAdmin(u) && !IsModerator(u)
    ensures IsModerator(u) && !u.isSuperuser ==> !IsAdmin(u)
  {
  }

  /** The username pattern `^[\w.@+-]+\Z`: one or more characters, each a word
      character or one of `.`, `@`, `+`, `-`, and nothing after the last one
      (`\Z`, unlike `$`, does not let a trailing newline through). What `\w`
      admits is left to the caller as `isWord`. */
  predicate UsernamePattern(s: string, isWord: char -> bool)
  {
    |s| > 0 && forall i :: 0 <= i < |s| ==> isWord(s[i]) || s[i] in ".@+-"
  }

  /** The row-level constraints the database enforces on one user: the
      `name_not_me` check and the varchar lengths. The pattern and the email
      syntax are validators, which only forms and serializers run. */
  predicate StoredUserValid(u: User)
  {
    && u.username != RESERVED_USERNAME
    && |u.username| <= USERNAME_MAX_LENGTH
    && |u.email| <= EMAIL_MAX_LENGTH
    && |u.firstName| <= NAME_MAX_LENGTH
    && |u.lastName| <= NAME_MAX_LENGTH
  }

  /** Username and email are unique (the database compares them exactly). */
  predicate UniqueUsers(users: map<Id, User>)
  {
    forall i, j :: i in users && j in users && i != j ==>
      users[i].username != users[j].username && users[i].email != users[j].email
  }

  predicate UserTableValid(users: map<Id, User>)
  {
    UniqueUsers(users) && forall i :: i in users ==> StoredUserValid(users[i])
  }
}
