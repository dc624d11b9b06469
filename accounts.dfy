/** The account routes: the signup conflict check and its message choice,
    the login ladder (ban checked before the password), the profile merge and
    GET /api/auth/me. bcrypt's comparison is an opaque predicate
    `matchPassword(given, stored)`; the signed token is not modelled. */
module Accounts {
  import opened Common
  import opened Text
  import opened UserModel
  import opened Api
  import opened AuthMiddleware

  const InvalidCredentials := "Invalid email or password"
  const EmailTaken := "Email already registered"
  const UsernameTaken := "Username already taken"

  /** `User.findOne({ $or: [{ email }, { username }] })`. */
  function ConflictIndex(users: seq<User>, username: string, email: string): (r: Option<nat>)
    ensures r.Some? ==> r.value < |users| && (users[r.value].email == email || users[r.value].username == username)
    ensures r.None? <==> forall i :: 0 <= i < |users| ==> users[i].email != email && users[i].username != username
  {
    FindFirst(users, (u: User) => u.email == email || u.username == username)
  }

  /** The 400 message of a signup that collides with a stored user, or None
      when nothing collides. The message names the email when the first
      colliding user has that email, and the username otherwise. */
  function SignupConflict(users: seq<User>, username: string, email: string): (r: Option<string>)
    ensures r.None? <==> forall i :: 0 <= i < |users| ==> users[i].email != email && users[i].username != username
    ensures r == Some(EmailTaken) ==> exists i :: 0 <= i < |users| && users[i].email == email
    ensures r == Some(UsernameTaken) ==>
      exists i :: 0 <= i < |users| && users[i].username == username && users[i].email != email
    ensures r.Some? ==> r == Some(EmailTaken) || r == Some(UsernameTaken)
  {
    match ConflictIndex(users, username, email)
    case None => None
    case Some(k) => if users[k].email == email then Some(EmailTaken) else Some(UsernameTaken)
  }

  /** When the email is free, a collision can only be on the username. */
  lemma FreeEmailMeansUsername(users: seq<User>, username: string, email: string)
    requires forall i :: 0 <= i < |users| ==> users[i].email != email
    requires exists i :: 0 <= i < |users| && users[i].username == username
    ensures SignupConflict(users, username, email) == Some(UsernameTaken)
  {
    var i :| 0 <= i < |users| && users[i].username == username;
    assert !(users[i].email != email && users[i].username != username);
  }

  /** The user a login names: `User.findOne({ email })`. */
  function UserByEmail(users: seq<User>, email: string): (r: Option<nat>)
    ensures r.Some? ==> r.value < |users| && users[r.value].email == email
    ensures r.None? <==> forall i :: 0 <= i < |users| ==> users[i].email != email
  {
    FindFirst(users, (u: User) => u.email == email)
  }

  /** POST /api/auth/login: unknown email 401, banned 403 (before the
      password is looked at), wrong password 401 with the same message as an
      unknown email, otherwise 200 with the user's session data. */
  function Login(users: seq<User>, email: string, password: string,
                 matchPassword: (string, string) -> bool): (r: Response)
    ensures UserByEmail(users, email).None? ==> r == Fail(401, InvalidCredentials)
    ensures UserByEmail(users, email).Some? && users[UserByEmail(users, email).value].isBanned
      ==> r == Fail(403, Suspended)
    ensures r.status == 200 <==> (UserByEmail(users, email).Some?
      && !users[UserByEmail(users, email).value].isBanned
      && matchPassword(password, users[UserByEmail(users, email).value].password))
    ensures r.status == 200 ==> exists u :: (u in users && u.email == email && !u.isBanned
      && matchPassword(password, u.password) && r.data == SessionData(SessionOf(u)))
    ensures r.status != 200 ==> r.data == NoData && (r.status == 401 || r.status == 403)
    ensures r.status == 401 ==> r.message == InvalidCredentials
  {
    match UserByEmail(users, email)
    case None => Fail(401, InvalidCredentials)
    case Some(k) =>
      var u := users[k];
      if u.isBanned then Fail(403, Suspended)
      else if !matchPassword(password, u.password) then Fail(401, InvalidCredentials)
      else Response(200, "", SessionData(SessionOf(u)))
  }

  /** A banned account gets the same answer whatever password is offered and
      however the comparison behaves. */
  lemma BanBeforePassword(users: seq<User>, email: string, p1: string, p2: string,
                          m1: (string, string) -> bool, m2: (string, string) -> bool)
    requires UserByEmail(users, email).Some? && users[UserByEmail(users, email).value].isBanned
    ensures Login(users, email, p1, m1) == Login(users, email, p2, m2) == Fail(403, Suspended)
  {
  }

  /** A wrong password and an unknown email cannot be told apart. */
  lemma NoAccountProbe(users: seq<User>, known: string, unknown: string, password: string,
                       matchPassword: (string, string) -> bool)
    requires UserByEmail(users, known).Some?
    requires !users[UserByEmail(users, known).value].isBanned
    requires !matchPassword(password, users[UserByEmail(users, known).value].password)
    requires UserByEmail(users, unknown).None?
    ensures Login(users, known, password, matchPassword) == Login(users, unknown, password, matchPassword)
  {
  }

  /** GET /api/auth/me: the stored user, without its password (null when the
      id names no user). */
  function Me(users: seq<User>, caller: User): (r: Response)
    ensures r.status == 200
    ensures caller.id in UserIds(users) ==> exists u :: (u in users && u.id == caller.id
      && r.data == ProfileData(Some(ProfileOf(u))))
    ensures caller.id !in UserIds(users) ==> r.data == ProfileData(None)
  {
    match LookupUser(users, caller.id)
    case None => Response(200, "", ProfileData(None))
    case Some(u) => Response(200, "", ProfileData(Some(ProfileOf(u))))
  }

  /** PUT /api/auth/profile before saving: `username` and `contact_number`
      are replaced only by truthy values; nothing else changes. */
  function ProfileMerge(u: User, username: string, contact: string): (r: User)
    ensures r.username == OrElse(username, u.username) && r.contact == OrElse(contact, u.contact)
    ensures r.id == u.id && r.email == u.email && r.password == u.password && r.role == u.role
    ensures r.isBanned == u.isBanned && r.createdAt == u.createdAt
  {
    u.(username := OrElse(username, u.username), contact := OrElse(contact, u.contact))
  }

  /** Supplying neither field leaves the user as it was, and the merge keeps
      a valid user valid. */
  lemma ProfileMergeProperties(u: User, username: string, contact: string)
    ensures ProfileMerge(u, "", "") == u
    ensures ValidUser(u) ==> ValidUser(ProfileMerge(u, username, contact))
  {
  }
}
