/** The server's state and its state-changing routes. The items, claims and
    users collections are fields of one object; each handler runs as one
    sequential step, checks its guards in the order the route does, and
    answers with the status and message the route sends. A fresh ObjectId is
    the value of the `nextId` counter. A handler behind `protect` takes the
    user `protect` set on the request, which `Protect` proves is stored and
    not banned. */
module ReFind {
  import opened Common
  import opened Text
  import opened ItemModel
  import opened ClaimModel
  import opened UserModel
  import opened Api
  import opened AuthMiddleware
  import opened Accounts
  import opened ItemQueries
  import opened ClaimQueries
  import opened AdminQueries

  const ItemNotFound := "Item not found"
  const ItemResolved := "This item has already been resolved"
  const OwnItem := "You cannot claim your own item"
  const DuplicateClaim := "You have already submitted a claim for this item"
  const ClaimNotFound := "Claim not found"
  const NotFinderApprove := "Not authorized to approve this claim"
  const NotFinderReject := "Not authorized to reject this claim"
  const ApprovedMessage := "Claim approved! Contact details have been shared."
  const RejectedMessage := "Claim rejected"
  const NotOwnerUpdate := "Not authorized to update this item"
  const NotOwnerDelete := "Not authorized to delete this item"
  const ItemDeleted := "Item deleted successfully"
  const ItemAndClaimsDeleted := "Item and associated claims deleted successfully"
  const AdminImmune := "Cannot ban an admin user"
  const Banned := "User has been banned"
  const Unbanned := "User has been unbanned"
  /** The message of a Mongoose ValidationError (its wording is not modelled). */
  const ValidationFailed := "Validation failed"
  /** The message of a duplicate-key error from a unique index. */
  const DuplicateKey := "E11000 duplicate key error"

  /** Every reference to a user names a stored user. Claims may outlive their
      item (the owner's delete leaves them), so `itemId` is not linked. */
  ghost predicate Linked(items: seq<Item>, claims: seq<Claim>, users: seq<User>) {
    && (forall i :: 0 <= i < |items| ==> items[i].postedBy in UserIds(users))
    && (forall i :: 0 <= i < |claims| ==>
          claims[i].claimerId in UserIds(users) && claims[i].finderId in UserIds(users))
  }

  /** Status changes move no reference. */
  lemma StatusChangesKeepLinks(items: seq<Item>, claims: seq<Claim>, users: seq<User>,
                               k: nat, status: ClaimStatus, id: Id)
    requires Linked(items, claims, users) && k < |claims|
    ensures Linked(ResolveItem(items, id), WithStatus(claims, k, status), users)
    ensures Linked(items, WithStatus(claims, k, status), users)
  {
    var cs := WithStatus(claims, k, status);
    assert forall i :: 0 <= i < |cs| ==> cs[i].claimerId == claims[i].claimerId && cs[i].finderId == claims[i].finderId;
    var its := ResolveItem(items, id);
    assert forall i :: 0 <= i < |its| ==> its[i].postedBy == items[i].postedBy;
  }

  /** A new claim by and for stored users keeps every reference linked. */
  lemma LinkedAppendClaim(items: seq<Item>, claims: seq<Claim>, users: seq<User>, c: Claim)
    requires Linked(items, claims, users) && c.claimerId in UserIds(users) && c.finderId in UserIds(users)
    ensures Linked(items, claims + [c], users)
  {
    var cs := claims + [c];
    assert forall i :: 0 <= i < |claims| ==> cs[i] == claims[i];
  }

  /** A new item posted by a stored user keeps every reference linked. */
  lemma LinkedAppendItem(items: seq<Item>, claims: seq<Claim>, users: seq<User>, it: Item)
    requires Linked(items, claims, users) && it.postedBy in UserIds(users)
    ensures Linked(items + [it], claims, users)
  {
    var its := items + [it];
    assert forall i :: 0 <= i < |items| ==> its[i] == items[i];
  }

  /** Rewriting an item under the same poster keeps every reference linked. */
  lemma LinkedReplaceItem(items: seq<Item>, claims: seq<Claim>, users: seq<User>, k: nat, it: Item)
    requires Linked(items, claims, users) && k < |items| && it.postedBy == items[k].postedBy
    ensures Linked(items[k := it], claims, users)
  {
  }

  /** The guards of POST /api/claims: the item exists, is active, was not
      posted by the caller, and the caller has no claim on it, whatever its
      status. */
  function Claimable(items: seq<Item>, claims: seq<Claim>, caller: Id, itemId: Id): (b: bool)
    ensures b ==> exists i :: (0 <= i < |items| && items[i].id == itemId
                               && items[i].status == Active && items[i].postedBy != caller)
    ensures b ==> forall j :: 0 <= j < |claims| ==> !(claims[j].itemId == itemId && claims[j].claimerId == caller)
    ensures (exists j :: 0 <= j < |claims| && claims[j].itemId == itemId && claims[j].claimerId == caller) ==> !b
    ensures (forall i :: 0 <= i < |items| ==> items[i].id != itemId) ==> !b
  {
    && ItemIndex(items, itemId).Some?
    && items[ItemIndex(items, itemId).value].status == Active
    && items[ItemIndex(items, itemId).value].postedBy != caller
    && ExistingClaim(claims, itemId, caller).None?
  }

  /** The caller may change the item: its poster, or an admin. */
  function MayEdit(it: Item, caller: User): (b: bool)
    ensures caller.role == Admin ==> b
    ensures caller.role == RegularUser ==> (b <==> it.postedBy == caller.id)
  {
    it.postedBy == caller.id || caller.role == Admin
  }

  /** The routes behind `router.use(protect); router.use(adminOnly)`. */
  datatype AdminRoute =
    | GetStats
    | GetUsers(page: Option<int>, limit: Option<int>, search: string)
    | BanToggle(userId: Id)
    | GetItems(itemsPage: Option<int>, itemsLimit: Option<int>, itemType: string, status: string)
    | DeleteItemOf(itemId: Id)

  class Server {
    var items: seq<Item>
    var claims: seq<Claim>
    var users: seq<User>
    var nextId: nat

    ghost predicate Valid()
      reads this
    {
      && ItemStore(items, nextId)
      && ClaimStore(claims, nextId)
      && UserStore(users, nextId)
      && Linked(items, claims, users)
    }

    constructor ()
      ensures Valid() && items == [] && claims == [] && users == [] && nextId == 0
    {
      items, claims, users, nextId := [], [], [], 0;
    }

    /** POST /api/claims. */
    method CreateClaim(caller: User, itemId: Id, message: string, now: nat) returns (r: Response)
      requires Valid() && caller in users
      modifies this
      ensures Valid() && items == old(items) && users == old(users)
      ensures ItemIndex(old(items), itemId).None? ==> r == Fail(404, ItemNotFound)
      ensures ItemIndex(old(items), itemId).Some? && old(items)[ItemIndex(old(items), itemId).value].status != Active
        ==> r == Fail(400, ItemResolved)
      ensures ItemIndex(old(items), itemId).Some? && old(items)[ItemIndex(old(items), itemId).value].status == Active
        && old(items)[ItemIndex(old(items), itemId).value].postedBy == caller.id
        ==> r == Fail(400, OwnItem)
      ensures ItemIndex(old(items), itemId).Some? && old(items)[ItemIndex(old(items), itemId).value].status == Active
        && old(items)[ItemIndex(old(items), itemId).value].postedBy != caller.id
        && ExistingClaim(old(claims), itemId, caller.id).Some?
        ==> r == Fail(400, DuplicateClaim)
      ensures Claimable(old(items), old(claims), caller.id, itemId) && !ValidMessage(message)
        ==> r == Fail(500, ValidationFailed)
      ensures r.status == 201 <==> Claimable(old(items), old(claims), caller.id, itemId) && ValidMessage(message)
      ensures r.status == 201 ==>
        var c := Claim(old(nextId), itemId, caller.id, old(items)[ItemIndex(old(items), itemId).value].postedBy,
                       Pending, message, now);
        claims == old(claims) + [c] && nextId == old(nextId) + 1 && r == Response(201, "", ClaimData(c))
      ensures r.status != 201 ==> claims == old(claims) && nextId == old(nextId)
    {
      var k := ItemIndex(items, itemId);
      if k.None? {
        return Fail(404, ItemNotFound);
      }
      var item := items[k.value];
      if item.status != Active {
        return Fail(400, ItemResolved);
      }
      if item.postedBy == caller.id {
        return Fail(400, OwnItem);
      }
      if ExistingClaim(claims, itemId, caller.id).Some? {
        return Fail(400, DuplicateClaim);
      }
      var made := NewClaim(nextId, itemId, caller.id, item.postedBy, message, now);
      if made.None? {
        return Fail(500, ValidationFailed);
      }
      var c := made.value;
      AppendClaim(c);
      r := Response(201, "", ClaimData(c));
    }

    /** `Claim.create`: the claim stored under a fresh id. */
    method AppendClaim(c: Claim)
      requires Valid() && c.id == nextId && ValidMessage(c.message) && c.claimerId != c.finderId
      requires c.claimerId in UserIds(users) && c.finderId in UserIds(users)
      requires ExistingClaim(claims, c.itemId, c.claimerId).None?
      modifies this
      ensures Valid() && claims == old(claims) + [c] && nextId == old(nextId) + 1
      ensures items == old(items) && users == old(users)
    {
      ClaimModel.AppendKeepsStore(claims, nextId, c);
      LinkedAppendClaim(items, claims, users, c);
      claims := claims + [c];
      nextId := nextId + 1;
    }

    /** PUT /api/claims/:id/approve. The claim's current status is not
        looked at. */
    method ApproveClaim(caller: User, claimId: Id) returns (r: Response)
      requires Valid() && caller in users
      modifies this
      ensures Valid() && users == old(users) && nextId == old(nextId)
      ensures ClaimIndex(old(claims), claimId).None? ==>
        r == Fail(404, ClaimNotFound) && claims == old(claims) && items == old(items)
      ensures ClaimIndex(old(claims), claimId).Some? && old(claims)[ClaimIndex(old(claims), claimId).value].finderId != caller.id
        ==> r == Fail(403, NotFinderApprove) && claims == old(claims) && items == old(items)
      ensures ClaimIndex(old(claims), claimId).Some? && old(claims)[ClaimIndex(old(claims), claimId).value].finderId == caller.id
        ==> var k := ClaimIndex(old(claims), claimId).value;
            var c := old(claims)[k].(status := Approved);
            && claims == WithStatus(old(claims), k, Approved)
            && items == ResolveItem(old(items), c.itemId)
            && (forall i :: 0 <= i < |items| && items[i].id == c.itemId ==> items[i].status == Resolved)
            && r == Response(200, ApprovedMessage, ApprovedData(ApprovedView(c, PopulateRef(items, c.itemId),
                                                                     PopulateParty(users, c.claimerId))))
    {
      var k := ClaimIndex(claims, claimId);
      if k.None? {
        return Fail(404, ClaimNotFound);
      }
      if claims[k.value].finderId != caller.id {
        return Fail(403, NotFinderApprove);
      }
      MarkApproved(k.value);
      var c := claims[k.value];
      r := Response(200, ApprovedMessage, ApprovedData(ApprovedView(c, PopulateRef(items, c.itemId),
                                                             PopulateParty(users, c.claimerId))));
    }

    /** `claim.status = 'approved'; claim.save()`, then the item resolved. */
    method MarkApproved(k: nat)
      requires Valid() && k < |claims|
      modifies this
      ensures Valid() && users == old(users) && nextId == old(nextId)
      ensures claims == WithStatus(old(claims), k, Approved)
      ensures items == ResolveItem(old(items), old(claims)[k].itemId)
      ensures forall i :: 0 <= i < |items| && items[i].id == old(claims)[k].itemId ==> items[i].status == Resolved
    {
      var id := claims[k].itemId;
      WithStatusKeepsStore(claims, nextId, k, Approved);
      StatusChangesKeepLinks(items, claims, users, k, Approved, id);
      ResolveKeepsStore(items, nextId, id);
      claims := WithStatus(claims, k, Approved);
      items := ResolveItem(items, id);
    }

    /** PUT /api/claims/:id/reject. The claim's current status is not looked
        at, and no item changes. */
    method RejectClaim(caller: User, claimId: Id) returns (r: Response)
      requires Valid() && caller in users
      modifies this
      ensures Valid() && users == old(users) && items == old(items) && nextId == old(nextId)
      ensures ClaimIndex(old(claims), claimId).None? ==> r == Fail(404, ClaimNotFound) && claims == old(claims)
      ensures ClaimIndex(old(claims), claimId).Some? && old(claims)[ClaimIndex(old(claims), claimId).value].finderId != caller.id
        ==> r == Fail(403, NotFinderReject) && claims == old(claims)
      ensures ClaimIndex(old(claims), claimId).Some? && old(claims)[ClaimIndex(old(claims), claimId).value].finderId == caller.id
        ==> var k := ClaimIndex(old(claims), claimId).value;
            && claims == WithStatus(old(claims), k, Rejected)
            && r == Response(200, RejectedMessage, ClaimData(claims[k]))
    {
      var k := ClaimIndex(claims, claimId);
      if k.None? {
        return Fail(404, ClaimNotFound);
      }
      if claims[k.value].finderId != caller.id {
        return Fail(403, NotFinderReject);
      }
      WithStatusKeepsStore(claims, nextId, k.value, Rejected);
      StatusChangesKeepLinks(items, claims, users, k.value, Rejected, 0);
      claims := WithStatus(claims, k.value, Rejected);
      r := Response(200, RejectedMessage, ClaimData(claims[k.value]));
    }

    /** POST /api/items. */
    method CreateItem(caller: User, itemType: string, title: string, category: string, location: string,
                      description: string, file: Option<string>, now: nat) returns (r: Response)
      requires Valid() && caller in users
      modifies this
      ensures Valid() && claims == old(claims) && users == old(users)
      ensures r.status == 201 <==> NewItem(old(nextId), itemType, title, category, location, description,
                                           file, caller.id, now).Some?
      ensures r.status == 201 ==>
        var it := NewItem(old(nextId), itemType, title, category, location, description, file, caller.id, now).value;
        items == old(items) + [it] && nextId == old(nextId) + 1 && r == Response(201, "", ItemData(it))
      ensures r.status != 201 ==> r == Fail(500, ValidationFailed) && items == old(items) && nextId == old(nextId)
    {
      var made := NewItem(nextId, itemType, title, category, location, description, file, caller.id, now);
      if made.None? {
        return Fail(500, ValidationFailed);
      }
      var it := made.value;
      AppendItem(it);
      r := Response(201, "", ItemData(it));
    }

    /** `Item.create`: the item stored under a fresh id. */
    method AppendItem(it: Item)
      requires Valid() && it.id == nextId && ValidItem(it) && it.postedBy in UserIds(users)
      modifies this
      ensures Valid() && items == old(items) + [it] && nextId == old(nextId) + 1
      ensures claims == old(claims) && users == old(users)
    {
      ItemModel.AppendKeepsStore(items, nextId, it);
      LinkedAppendItem(items, claims, users, it);
      items := items + [it];
      nextId := nextId + 1;
    }

    /** PUT /api/items/:id. */
    method UpdateItem(caller: User, id: Id, given: ItemFields, file: Option<string>) returns (r: Response)
      requires Valid() && caller in users
      modifies this
      ensures Valid() && claims == old(claims) && users == old(users) && nextId == old(nextId)
      ensures ItemIndex(old(items), id).None? ==> r == Fail(404, ItemNotFound)
      ensures ItemIndex(old(items), id).Some? && !MayEdit(old(items)[ItemIndex(old(items), id).value], caller)
        ==> r == Fail(403, NotOwnerUpdate)
      ensures ItemIndex(old(items), id).Some? && MayEdit(old(items)[ItemIndex(old(items), id).value], caller)
        ==> var k := ItemIndex(old(items), id).value;
            match Merge(old(items)[k], given, file)
            case None => r == Fail(500, ValidationFailed)
            case Some(it) => items == old(items)[k := it] && r == Response(200, "", ItemData(it))
      ensures r.status != 200 ==> items == old(items)
    {
      var k := ItemIndex(items, id);
      if k.None? {
        return Fail(404, ItemNotFound);
      }
      if !MayEdit(items[k.value], caller) {
        return Fail(403, NotOwnerUpdate);
      }
      var merged := Merge(items[k.value], given, file);
      if merged.None? {
        return Fail(500, ValidationFailed);
      }
      ReplaceItem(k.value, merged.value);
      r := Response(200, "", ItemData(merged.value));
    }

    /** `item.save()`: the document rewritten under its id and poster. */
    method ReplaceItem(k: nat, it: Item)
      requires Valid() && k < |items| && ValidItem(it)
      requires it.id == items[k].id && it.postedBy == items[k].postedBy
      modifies this
      ensures Valid() && items == old(items)[k := it]
      ensures claims == old(claims) && users == old(users) && nextId == old(nextId)
    {
      ReplaceKeepsStore(items, nextId, k, it);
      LinkedReplaceItem(items, claims, users, k, it);
      items := items[k := it];
    }

    /** DELETE /api/items/:id: the item goes, its claims stay. */
    method DeleteItem(caller: User, id: Id) returns (r: Response)
      requires Valid() && caller in users
      modifies this
      ensures Valid() && claims == old(claims) && users == old(users) && nextId == old(nextId)
      ensures ItemIndex(old(items), id).None? ==> r == Fail(404, ItemNotFound) && items == old(items)
      ensures ItemIndex(old(items), id).Some? && !MayEdit(old(items)[ItemIndex(old(items), id).value], caller)
        ==> r == Fail(403, NotOwnerDelete) && items == old(items)
      ensures ItemIndex(old(items), id).Some? && MayEdit(old(items)[ItemIndex(old(items), id).value], caller)
        ==> items == WithoutItem(old(items), id) && r == Response(200, ItemDeleted, NoData)
    {
      var k := ItemIndex(items, id);
      if k.None? {
        return Fail(404, ItemNotFound);
      }
      if !MayEdit(items[k.value], caller) {
        return Fail(403, NotOwnerDelete);
      }
      WithoutItemKeepsStore(items, nextId, id);
      items := WithoutItem(items, id);
      r := Response(200, ItemDeleted, NoData);
    }

    /** POST /api/auth/signup. */
    method Signup(username: string, email: string, password: string, contact: string, now: nat)
      returns (r: Response)
      requires Valid()
      modifies this
      ensures Valid() && items == old(items) && claims == old(claims)
      ensures SignupConflict(old(users), username, email).Some? ==>
        r == Fail(400, SignupConflict(old(users), username, email).value)
      ensures SignupConflict(old(users), username, email).None? && !ValidUser(User(0, username, email, password, "", RegularUser, false, 0))
        ==> r == Fail(500, ValidationFailed)
      ensures r.status == 201 ==>
        var u := User(old(nextId), username, email, password, contact, RegularUser, false, now);
        users == old(users) + [u] && nextId == old(nextId) + 1 && r == Response(201, "", SessionData(SessionOf(u)))
      ensures r.status != 201 ==> users == old(users) && nextId == old(nextId)
      ensures r.status == 201 <==> (SignupConflict(old(users), username, email).None?
        && username != [] && email != [] && password != [])
    {
      var conflict := SignupConflict(users, username, email);
      if conflict.Some? {
        return Fail(400, conflict.value);
      }
      var u := User(nextId, username, email, password, contact, RegularUser, false, now);
      if !ValidUser(u) {
        return Fail(500, ValidationFailed);
      }
      UserModel.AppendKeepsStore(users, nextId, u);
      AppendIds(users, u);
      users := users + [u];
      nextId := nextId + 1;
      r := Response(201, "", SessionData(SessionOf(u)));
    }

    /** PUT /api/auth/profile: a username another user has is refused by
        the unique index when the document is saved. */
    method UpdateProfile(caller: User, username: string, contact: string) returns (r: Response)
      requires Valid() && caller in users
      modifies this
      ensures Valid() && items == old(items) && claims == old(claims) && nextId == old(nextId)
      ensures var k := UserIndex(old(users), caller.id).value;
        var u := ProfileMerge(old(users)[k], username, contact);
        && ((exists j :: 0 <= j < |old(users)| && j != k && old(users)[j].username == u.username) ==>
              r == Fail(500, DuplicateKey) && users == old(users))
        && (!(exists j :: 0 <= j < |old(users)| && j != k && old(users)[j].username == u.username) ==>
              users == old(users)[k := u] && r == Response(200, "", ProfileData(Some(ProfileOf(u)))))
    {
      assert caller.id in UserIds(users);
      var k := UserIndex(users, caller.id).value;
      var u := ProfileMerge(users[k], username, contact);
      if exists j :: 0 <= j < |users| && j != k && users[j].username == u.username {
        return Fail(500, DuplicateKey);
      }
      RenameKeepsStore(users, nextId, k, u);
      users := users[k := u];
      r := Response(200, "", ProfileData(Some(ProfileOf(u))));
    }

    /** PUT /api/admin/users/:id/ban. */
    method BanUser(id: Id) returns (r: Response)
      requires Valid()
      modifies this
      ensures Valid() && items == old(items) && claims == old(claims) && nextId == old(nextId)
      ensures UserIndex(old(users), id).None? ==> r == Fail(404, UserNotFound) && users == old(users)
      ensures UserIndex(old(users), id).Some? && old(users)[UserIndex(old(users), id).value].role == Admin
        ==> r == Fail(400, AdminImmune) && users == old(users)
      ensures UserIndex(old(users), id).Some? && old(users)[UserIndex(old(users), id).value].role != Admin
        ==> var k := UserIndex(old(users), id).value;
            && users == ToggleBan(old(users), k)
            && users[k].isBanned == !old(users)[k].isBanned
            && r == Response(200, if users[k].isBanned then Banned else Unbanned, ProfileData(Some(ProfileOf(users[k]))))
    {
      var k := UserIndex(users, id);
      if k.None? {
        return Fail(404, UserNotFound);
      }
      if users[k.value].role == Admin {
        return Fail(400, AdminImmune);
      }
      ToggleBanKeepsStore(users, nextId, k.value);
      users := ToggleBan(users, k.value);
      var u := users[k.value];
      r := Response(200, if u.isBanned then Banned else Unbanned, ProfileData(Some(ProfileOf(u))));
    }

    /** DELETE /api/admin/items/:id: the item's claims, then the item. */
    method AdminDeleteItem(id: Id) returns (r: Response)
      requires Valid()
      modifies this
      ensures Valid() && users == old(users) && nextId == old(nextId)
      ensures ItemIndex(old(items), id).None? ==>
        r == Fail(404, ItemNotFound) && items == old(items) && claims == old(claims)
      ensures ItemIndex(old(items), id).Some? ==>
        && claims == WithoutClaimsOn(old(claims), id)
        && items == WithoutItem(old(items), id)
        && r == Response(200, ItemAndClaimsDeleted, NoData)
    {
      var k := ItemIndex(items, id);
      if k.None? {
        return Fail(404, ItemNotFound);
      }
      WithoutClaimsKeepsStore(claims, nextId, id);
      claims := WithoutClaimsOn(claims, id);
      WithoutItemKeepsStore(items, nextId, id);
      items := WithoutItem(items, id);
      r := Response(200, ItemAndClaimsDeleted, NoData);
    }

    /** A request to an admin route: `protect` and `adminOnly` first; a
        denied request changes nothing. */
    method AdminRequest(authorization: Option<string>, verify: string -> Option<Id>,
                 matches: (string, string) -> bool, route: AdminRoute) returns (r: Response)
      requires Valid()
      modifies this
      ensures Valid()
      ensures AdminGate(authorization, old(users), verify).Deny? ==>
        && r == Fail(AdminGate(authorization, old(users), verify).status, AdminGate(authorization, old(users), verify).message)
        && items == old(items) && claims == old(claims) && users == old(users) && nextId == old(nextId)
      ensures AdminGate(authorization, old(users), verify).Next? ==> match route
        case GetStats =>
          r == StatsResponse(users, items, claims) && unchanged(this)
        case GetUsers(page, limit, search) =>
          r == ListUsers(users, search, page, limit, matches) && unchanged(this)
        case GetItems(page, limit, itemType, status) =>
          r == AdminItems(items, itemType, status, page, limit, matches) && unchanged(this)
        case BanToggle(_) => items == old(items) && claims == old(claims)
        case DeleteItemOf(_) => users == old(users)
    {
      var gate := AdminGate(authorization, users, verify);
      if gate.Deny? {
        return Fail(gate.status, gate.message);
      }
      match route
      case GetStats =>
        r := StatsResponse(users, items, claims);
      case GetUsers(page, limit, search) =>
        r := ListUsers(users, search, page, limit, matches);
      case GetItems(page, limit, itemType, status) =>
        r := AdminItems(items, itemType, status, page, limit, matches);
      case BanToggle(id) =>
        r := BanUser(id);
      case DeleteItemOf(id) =>
        r := AdminDeleteItem(id);
    }
  }
}
