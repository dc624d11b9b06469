/** The `protect` and `adminOnly` middleware: decision ladders over the
    Authorization header and the user the token names. JWT verification is
    an opaque function from a token to the id it carries (None when
    `jwt.verify` throws); setting `req.user` and calling `next()` is the
    `Next` outcome. */
module AuthMiddleware {
  import opened Common
  import opened Text
  import opened UserModel

  datatype Gate = Next(user: User) | Deny(status: nat, message: string)

  const NoToken := "Not authorized, no token provided"
  const TokenInvalid := "Not authorized, token invalid"
  const UserNotFound := "User not found"
  const Suspended := "Your account has been suspended. Please contact admin."
  const AdminRequired := "Access denied. Admin privileges required."

  /** `req.headers.authorization && req.headers.authorization.startsWith('Bearer')` */
  predicate BearerScheme(authorization: Option<string>) {
    authorization.Some? && StartsWith(authorization.value, "Bearer")
  }

  /** The id a verified bearer token carries: the token is the second
      space-separated field of the header. A header without one hands
      `undefined` to `jwt.verify`, and a header `"Bearer "` hands it the
      empty string; `jwt.verify` throws on both ("jwt must be provided"). */
  function DecodedId(authorization: Option<string>, verify: string -> Option<Id>): (r: Option<Id>)
    ensures r.Some? ==> (BearerScheme(authorization) && SecondField(authorization.value).Some?
      && SecondField(authorization.value).value != ""
      && verify(SecondField(authorization.value).value) == r)
    ensures BearerScheme(authorization) && SecondField(authorization.value).Some?
      && SecondField(authorization.value).value != ""
      ==> r == verify(SecondField(authorization.value).value)
  {
    if !BearerScheme(authorization) then None
    else match SecondField(authorization.value)
      case None => None
      case Some(token) => if token == "" then None else verify(token)
  }

  /** `protect`: no bearer header gives 401 "no token provided"; a token that
      does not verify gives 401 "token invalid"; a token naming no user gives
      401 "User not found"; a banned user gives 403; otherwise the request
      goes on with that user. */
  function Protect(authorization: Option<string>, users: seq<User>, verify: string -> Option<Id>): (g: Gate)
    ensures !BearerScheme(authorization) ==> g == Deny(401, NoToken)
    ensures BearerScheme(authorization) && DecodedId(authorization, verify).None? ==> g == Deny(401, TokenInvalid)
    ensures DecodedId(authorization, verify).Some? && DecodedId(authorization, verify).value !in UserIds(users)
      ==> g == Deny(401, UserNotFound)
    ensures DecodedId(authorization, verify).Some? && DecodedId(authorization, verify).value in UserIds(users)
      && LookupUser(users, DecodedId(authorization, verify).value).value.isBanned
      ==> g == Deny(403, Suspended)
    ensures g.Deny? && g.status == 403 ==> (g.message == Suspended
      && exists u :: u in users && u.isBanned && Some(u.id) == DecodedId(authorization, verify))
    ensures g.Next? <==> (DecodedId(authorization, verify).Some?
      && DecodedId(authorization, verify).value in UserIds(users)
      && !LookupUser(users, DecodedId(authorization, verify).value).value.isBanned)
    ensures g.Next? ==> g.user in users && !g.user.isBanned && DecodedId(authorization, verify) == Some(g.user.id)
  {
    if !BearerScheme(authorization) then Deny(401, NoToken)
    else match DecodedId(authorization, verify)
      case None => Deny(401, TokenInvalid)
      case Some(id) =>
        match LookupUser(users, id)
        case None => Deny(401, UserNotFound)
        case Some(u) => if u.isBanned then Deny(403, Suspended) else Next(u)
  }

  /** `adminOnly`: continues exactly when a user is present with role admin. */
  function AdminOnly(user: Option<User>): (g: Gate)
    ensures g.Next? <==> user.Some? && user.value.role == Admin
    ensures g.Next? ==> g.user == user.value
    ensures g.Deny? ==> g == Deny(403, AdminRequired)
  {
    if user.Some? && user.value.role == Admin then Next(user.value) else Deny(403, AdminRequired)
  }

  /** `router.use(protect); router.use(adminOnly)`: the user an admin route
      sees. */
  function AdminGate(authorization: Option<string>, users: seq<User>, verify: string -> Option<Id>): (g: Gate)
    ensures g.Next? <==> (DecodedId(authorization, verify).Some?
      && DecodedId(authorization, verify).value in UserIds(users)
      && !LookupUser(users, DecodedId(authorization, verify).value).value.isBanned
      && LookupUser(users, DecodedId(authorization, verify).value).value.role == Admin)
    ensures g.Next? ==> g.user == LookupUser(users, DecodedId(authorization, verify).value).value
    ensures Protect(authorization, users, verify).Deny? ==> g == Protect(authorization, users, verify)
    ensures Protect(authorization, users, verify).Next? && g.Deny? ==> g == Deny(403, AdminRequired)
  {
    match Protect(authorization, users, verify)
    case Deny(status, message) => Deny(status, message)
    case Next(u) => AdminOnly(Some(u))
  }

  /** An admin route runs only for a stored, unbanned admin whose token
      verified; every other request is answered 401 or 403. */
  lemma AdminGateAdmits(authorization: Option<string>, users: seq<User>, verify: string -> Option<Id>)
    ensures var g := AdminGate(authorization, users, verify);
      && (g.Next? ==> g.user in users && g.user.role == Admin && !g.user.isBanned
                      && DecodedId(authorization, verify) == Some(g.user.id))
      && (g.Deny? ==> g.status == 401 || g.status == 403)
  {
  }
}
