/** The read-only moderation routes: GET /api/admin/stats and GET
    /api/admin/users. (GET /api/admin/items is `ItemQueries.AdminItems`.) */
module AdminQueries {
  import opened Common
  import opened Text
  import opened ItemModel
  import opened ClaimModel
  import opened UserModel
  import opened Api
  import ItemQueries

  function IsRegular(u: User): bool { u.role == RegularUser }
  function IsBanned(u: User): bool { u.isBanned }
  function IsActive(it: Item): bool { it.status == Active }
  function IsResolved(it: Item): bool { it.status == Resolved }
  function IsLost(it: Item): bool { it.itemType == Lost }
  function IsFound(it: Item): bool { it.itemType == Found }
  function IsPending(c: Claim): bool { c.status == Pending }

  /** GET /api/admin/stats: nine counts. `users` counts role `user` only
      while `bannedUsers` counts every banned account; an item is exactly one
      of lost and found and exactly one of active and resolved. */
  function ComputeStats(users: seq<User>, items: seq<Item>, claims: seq<Claim>): (s: Stats)
    ensures s.users == Count(users, IsRegular) && s.bannedUsers == Count(users, IsBanned)
    ensures s.items == |items| && s.claims == |claims|
    ensures s.activeItems == Count(items, IsActive) && s.resolvedItems == Count(items, IsResolved)
    ensures s.lostItems == Count(items, IsLost) && s.foundItems == Count(items, IsFound)
    ensures s.pendingClaims == Count(claims, IsPending)
    ensures s.lostItems + s.foundItems == s.items
    ensures s.activeItems + s.resolvedItems == s.items
    ensures s.pendingClaims <= s.claims && s.users <= |users| && s.bannedUsers <= |users|
  {
    CountPartition(items, IsLost, IsFound);
    CountPartition(items, IsActive, IsResolved);
    Stats(Count(users, IsRegular), Count(users, IsBanned),
          |items|, Count(items, IsActive), Count(items, IsResolved), Count(items, IsLost), Count(items, IsFound),
          |claims|, Count(claims, IsPending))
  }

  /** Since no admin is ever banned, the banned accounts are among the
      regular users the first count reports. */
  lemma BannedAreRegular(users: seq<User>, nextId: nat, items: seq<Item>, claims: seq<Claim>)
    requires UserStore(users, nextId)
    ensures ComputeStats(users, items, claims).bannedUsers <= ComputeStats(users, items, claims).users
  {
    CountMonotone(users, IsBanned, IsRegular);
  }

  /** The response of GET /api/admin/stats. */
  function StatsResponse(users: seq<User>, items: seq<Item>, claims: seq<Claim>): (r: Response)
    ensures r.status == 200 && r.data == StatsData(ComputeStats(users, items, claims))
  {
    Response(200, "", StatsData(ComputeStats(users, items, claims)))
  }

  /** The condition of GET /api/admin/users: role `user`, and, when a search
      is given, a username or email matching it. */
  predicate Listed(search: string, matches: (string, string) -> bool, u: User) {
    u.role == RegularUser && (Truthy(search) ==> matches(search, u.username) || matches(search, u.email))
  }

  function UserMatcher(search: string, matches: (string, string) -> bool): User -> bool {
    (u: User) => Listed(search, matches, u)
  }

  function UserTime(u: User): nat { u.createdAt }

  function ProfileTime(p: Profile): nat { p.createdAt }

  /** `.select('-password')` over a page of users, in the same order. */
  function Profiles(us: seq<User>): (r: seq<Profile>)
    ensures |r| == |us| && forall i :: 0 <= i < |us| ==> r[i] == ProfileOf(us[i])
    ensures NewestFirst(us, UserTime) ==> NewestFirst(r, ProfileTime)
  {
    seq(|us|, i requires 0 <= i < |us| => ProfileOf(us[i]))
  }

  /** `User.find(query).sort({ createdAt: -1 })`: every listed user,
      newest first. */
  function MatchingUsers(users: seq<User>, search: string, matches: (string, string) -> bool): (r: seq<User>)
    ensures NewestFirst(r, UserTime)
    ensures multiset(r) == multiset(Filter(users, UserMatcher(search, matches)))
    ensures |r| == Count(users, UserMatcher(search, matches))
    ensures forall i :: 0 <= i < |r| ==> r[i] in users && Listed(search, matches, r[i])
    ensures forall i :: 0 <= i < |users| && Listed(search, matches, users[i]) ==> users[i] in r
  {
    SortNewest(Filter(users, UserMatcher(search, matches)), UserTime)
  }

  /** The matching regular users, newest first, one page of them. */
  function UsersWindow(users: seq<User>, search: string, matches: (string, string) -> bool,
                       page: int, limit: int): (r: Option<seq<User>>)
    ensures r == Window(MatchingUsers(users, search, matches), page, limit)
    ensures r.None? <==> (page - 1) * limit < 0
    ensures r.Some? ==> NewestFirst(r.value, UserTime)
    ensures r.Some? && limit != 0 ==> |r.value| <= Abs(limit)
    ensures r.Some? ==> forall i :: 0 <= i < |r.value| ==> r.value[i] in users && Listed(search, matches, r.value[i])
  {
    var sorted := MatchingUsers(users, search, matches);
    var w := Window(sorted, page, limit);
    if w.Some? then
      WindowNewest(sorted, page, limit, UserTime);
      w
    else w
  }

  /** One page of the user listing with its pagination block; a negative
      skip is answered with 500. */
  function UsersPage(users: seq<User>, search: string, matches: (string, string) -> bool,
                     page: int, limit: int): (r: Response)
    ensures r.status == 500 <==> (page - 1) * limit < 0
    ensures r.status != 500 ==> r.status == 200 && r.data.UserPage?
    ensures r.status == 200 ==> (r.data.userPagination == Pagination(page, limit,
      Count(users, UserMatcher(search, matches)), PageCount(Count(users, UserMatcher(search, matches)), limit)))
    ensures r.status == 200 ==> r.data.profiles == Profiles(Window(MatchingUsers(users, search, matches), page, limit).value)
    ensures r.status == 200 && limit != 0 ==> |r.data.profiles| <= Abs(limit)
    ensures r.status == 200 ==> NewestFirst(r.data.profiles, ProfileTime)
    ensures r.status == 200 ==> forall i :: 0 <= i < |r.data.profiles| ==>
      (r.data.profiles[i].role == RegularUser
       && exists u :: u in users && Listed(search, matches, u) && r.data.profiles[i] == ProfileOf(u))
  {
    var total := Count(users, UserMatcher(search, matches));
    match UsersWindow(users, search, matches, page, limit)
    case None => Fail(500, "skip must be non-negative")
    case Some(w) =>
      var ps := Profiles(w);
      assert forall i :: 0 <= i < |ps| ==> ps[i] == ProfileOf(w[i]) && w[i] in users && Listed(search, matches, w[i]);
      Response(200, "", UserPage(ps, Pagination(page, limit, total, PageCount(total, limit))))
  }

  /** GET /api/admin/users: page 1 and limit 20 by default. */
  function ListUsers(users: seq<User>, search: string, page: Option<int>, limit: Option<int>,
                     matches: (string, string) -> bool): (r: Response)
    ensures r == UsersPage(users, search, matches, if page.Some? then page.value else ItemQueries.DefaultPage,
                           if limit.Some? then limit.value else ItemQueries.AdminLimit)
    ensures page.None? && limit.None? ==> r.status == 200 && |r.data.profiles| <= ItemQueries.AdminLimit
  {
    UsersPage(users, search, matches, if page.Some? then page.value else ItemQueries.DefaultPage,
              if limit.Some? then limit.value else ItemQueries.AdminLimit)
  }
}
