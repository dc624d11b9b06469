/** The user record as the seed script declares it: unique username and
    email, a required password, an optional contact number, role `user` or
    `admin` (default `user`) and `isBanned` (default false). */
module UserModel {
  import opened Common

  datatype Role = RegularUser | Admin

  /** A stored user document. `password` is whatever the User model keeps for
      the password; only the opaque comparison used at login reads it. An
      absent contact number is the empty string. */
  datatype User = User(
    id: Id,
    username: string,
    email: string,
    password: string,
    contact: string,
    role: Role,
    isBanned: bool,
    createdAt: nat)

  function RoleName(r: Role): string {
    match r
    case RegularUser => "user"
    case Admin => "admin"
  }

  /** The required paths are non-empty strings. */
  predicate ValidUser(u: User) {
    u.username != [] && u.email != [] && u.password != []
  }

  /** Two users differ in id, username and email (the unique indexes). */
  predicate DistinctUsers(a: User, b: User) {
    a.id != b.id && a.username != b.username && a.email != b.email
  }

  /** The user collection: unique ids below the allocator, unique usernames
      and emails, every user valid, and no admin banned (the ban route
      refuses admins and nothing else sets the flag). */
  ghost predicate UserStore(users: seq<User>, nextId: nat) {
    && Pairwise(users, DistinctUsers)
    && (forall i :: 0 <= i < |users| ==> users[i].id < nextId && ValidUser(users[i]))
    && (forall i :: 0 <= i < |users| ==> users[i].role == Admin ==> !users[i].isBanned)
  }

  ghost function UserIds(users: seq<User>): set<Id> {
    set i | 0 <= i < |users| :: users[i].id
  }

  /** The position of the user with this id (`User.findById`). */
  function UserIndex(users: seq<User>, id: Id): (r: Option<nat>)
    ensures r.Some? ==> r.value < |users| && users[r.value].id == id
    ensures r.None? <==> id !in UserIds(users)
  {
    FindFirst(users, (u: User) => u.id == id)
  }

  function LookupUser(users: seq<User>, id: Id): (r: Option<User>)
    ensures r.Some? ==> r.value in users && r.value.id == id
    ensures r.None? <==> id !in UserIds(users)
  {
    match UserIndex(users, id)
    case None => None
    case Some(k) => Some(users[k])
  }

  /** Rewriting a user in place keeps the set of user ids when the id is kept. */
  lemma ReplaceKeepsIds(users: seq<User>, k: nat, u: User)
    requires k < |users| && u.id == users[k].id
    ensures UserIds(users[k := u]) == UserIds(users)
  {
    var r := users[k := u];
    forall id | id in UserIds(users) ensures id in UserIds(r) {
      var i :| 0 <= i < |users| && users[i].id == id;
      assert r[i].id == id;
    }
    forall id | id in UserIds(r) ensures id in UserIds(users) {
      var i :| 0 <= i < |r| && r[i].id == id;
      assert users[i].id == id;
    }
  }

  lemma AppendIds(users: seq<User>, u: User)
    ensures UserIds(users + [u]) == UserIds(users) + {u.id}
  {
    var r := users + [u];
    forall id | id in UserIds(users) ensures id in UserIds(r) {
      var i :| 0 <= i < |users| && users[i].id == id;
      assert r[i].id == id;
    }
    assert r[|users|].id == u.id;
  }

  /** The ban toggle on user k: `user.isBanned = !user.isBanned`. */
  function ToggleBan(users: seq<User>, k: nat): (r: seq<User>)
    requires k < |users|
    ensures |r| == |users| && r[k].isBanned == !users[k].isBanned
    ensures r[k] == users[k].(isBanned := r[k].isBanned)
    ensures forall i :: 0 <= i < |users| && i != k ==> r[i] == users[i]
  {
    users[k := users[k].(isBanned := !users[k].isBanned)]
  }

  /** Toggling twice restores the collection. */
  lemma ToggleBanTwice(users: seq<User>, k: nat)
    requires k < |users|
    ensures ToggleBan(ToggleBan(users, k), k) == users
  {
    var r := ToggleBan(ToggleBan(users, k), k);
    assert forall i :: 0 <= i < |users| ==> r[i] == users[i];
  }

  /** Toggling the ban of a regular user keeps the collection valid. */
  lemma ToggleBanKeepsStore(users: seq<User>, nextId: nat, k: nat)
    requires UserStore(users, nextId) && k < |users| && users[k].role != Admin
    ensures UserStore(ToggleBan(users, k), nextId)
    ensures UserIds(ToggleBan(users, k)) == UserIds(users)
  {
    var x := ToggleBan(users, k)[k];
    PairwiseReplace(users, k, x, DistinctUsers);
    ReplaceKeepsIds(users, k, x);
  }

  /** Appending a valid user with a fresh id, username and email keeps the
      collection valid. */
  lemma AppendKeepsStore(users: seq<User>, nextId: nat, u: User)
    requires UserStore(users, nextId) && u.id == nextId && ValidUser(u) && !(u.role == Admin && u.isBanned)
    requires forall i :: 0 <= i < |users| ==> users[i].username != u.username && users[i].email != u.email
    ensures UserStore(users + [u], nextId + 1)
  {
    PairwiseAppend(users, u, DistinctUsers);
  }

  /** Rewriting user k with the same id, email, role and ban flag and a
      username no other user has keeps the collection valid. */
  lemma RenameKeepsStore(users: seq<User>, nextId: nat, k: nat, u: User)
    requires UserStore(users, nextId) && k < |users| && ValidUser(u)
    requires u.id == users[k].id && u.email == users[k].email && u.role == users[k].role
    requires u.isBanned == users[k].isBanned
    requires forall j :: 0 <= j < |users| && j != k ==> users[j].username != u.username
    ensures UserStore(users[k := u], nextId)
    ensures UserIds(users[k := u]) == UserIds(users)
  {
    forall i | 0 <= i < k ensures DistinctUsers(users[i], u) {
      assert DistinctUsers(users[i], users[k]);
    }
    forall j | k < j < |users| ensures DistinctUsers(u, users[j]) {
      assert DistinctUsers(users[k], users[j]);
    }
    PairwiseReplace(users, k, u, DistinctUsers);
    ReplaceKeepsIds(users, k, u);
  }

  /** In a valid collection the lookup by id finds the one user with that id. */
  lemma LookupUnique(users: seq<User>, nextId: nat, u: User)
    requires UserStore(users, nextId) && u in users
    ensures LookupUser(users, u.id) == Some(u)
  {
    var b :| 0 <= b < |users| && users[b] == u;
    assert u.id in UserIds(users);
    assert forall i, j :: 0 <= i < j < |users| ==> DistinctUsers(users[i], users[j]);
  }
}
