/** The read-only item routes: the public listing GET /api/items with its
    query construction, newest-first order and pagination, GET
    /api/items/my-items, GET /api/items/:id, and the moderation listing GET
    /api/admin/items. Case-insensitive `$regex` matching is an opaque
    predicate `matches(pattern, text)`. */
module ItemQueries {
  import opened Common
  import opened Text
  import opened ItemModel
  import opened UserModel
  import opened Api

  /** The conditions of an item query; an empty string is a condition that
      was not set. */
  datatype ItemFilter = ItemFilter(itemType: string, category: string, location: string,
                                   status: string, search: string)

  const DefaultPage := 1
  const DefaultLimit := 10
  const AdminLimit := 20

  /** The query `GET /api/items` builds: the request's conditions, with the
      status defaulting to `active` when none is given. */
  function PublicFilter(itemType: string, category: string, location: string,
                        status: string, search: string): (q: ItemFilter)
    ensures q.itemType == itemType && q.category == category && q.location == location && q.search == search
    ensures Truthy(status) ==> q.status == status
    ensures !Truthy(status) ==> q.status == StatusName(Active)
  {
    ItemFilter(itemType, category, location, OrElse(status, StatusName(Active)), search)
  }

  /** The query `GET /api/admin/items` builds: type and status only, and no
      default status. */
  function AdminFilter(itemType: string, status: string): (q: ItemFilter)
    ensures q.itemType == itemType && q.status == status
    ensures !Truthy(q.category) && !Truthy(q.location) && !Truthy(q.search)
  {
    ItemFilter(itemType, "", "", status, "")
  }

  /** Whether an item matches a query: exact `type`, `category` and `status`,
      a pattern on `location`, and `search` on title OR description. */
  predicate Satisfies(q: ItemFilter, matches: (string, string) -> bool, it: Item) {
    && (Truthy(q.itemType) ==> TypeName(it.itemType) == q.itemType)
    && (Truthy(q.category) ==> CategoryName(it.category) == q.category)
    && (Truthy(q.location) ==> matches(q.location, it.location))
    && (Truthy(q.status) ==> StatusName(it.status) == q.status)
    && (Truthy(q.search) ==> matches(q.search, it.title) || matches(q.search, it.description))
  }

  function Matcher(q: ItemFilter, matches: (string, string) -> bool): Item -> bool {
    (it: Item) => Satisfies(q, matches, it)
  }

  function ItemTime(it: Item): nat { it.createdAt }

  /** `Item.find(query).sort({ createdAt: -1 })`: every match, newest first. */
  function Matching(items: seq<Item>, q: ItemFilter, matches: (string, string) -> bool): (r: seq<Item>)
    ensures NewestFirst(r, ItemTime)
    ensures multiset(r) == multiset(Filter(items, Matcher(q, matches)))
    ensures |r| == Count(items, Matcher(q, matches))
    ensures forall i :: 0 <= i < |r| ==> r[i] in items && Satisfies(q, matches, r[i])
    ensures forall i :: 0 <= i < |items| && Satisfies(q, matches, items[i]) ==> items[i] in r
  {
    var m := Filter(items, Matcher(q, matches));
    SortNewest(m, ItemTime)
  }

  /** One page of a query's matches with its pagination block; a negative
      skip is refused by MongoDB, which the route answers with 500. */
  function ItemsPage(items: seq<Item>, q: ItemFilter, matches: (string, string) -> bool,
                     page: int, limit: int): (r: Response)
    ensures r.status == 500 <==> (page - 1) * limit < 0
    ensures r.status != 500 ==> r.status == 200 && r.data.ItemPage?
    ensures r.status == 200 ==> (r.data.pagination
      == Pagination(page, limit, Count(items, Matcher(q, matches)), PageCount(Count(items, Matcher(q, matches)), limit)))
    ensures r.status == 200 ==> r.data.items == Window(Matching(items, q, matches), page, limit).value
    ensures r.status == 200 ==> NewestFirst(r.data.items, ItemTime)
    ensures r.status == 200 ==> forall i :: 0 <= i < |r.data.items| ==>
      r.data.items[i] in items && Satisfies(q, matches, r.data.items[i])
    ensures r.status == 200 && limit != 0 ==> |r.data.items| <= Abs(limit)
  {
    var sorted := Matching(items, q, matches);
    var total := Count(items, Matcher(q, matches));
    match Window(sorted, page, limit)
    case None => Fail(500, "skip must be non-negative")
    case Some(w) =>
      WindowNewest(sorted, page, limit, ItemTime);
      Response(200, "", ItemPage(w, Pagination(page, limit, total, PageCount(total, limit))))
  }

  /** GET /api/items: defaults page 1 and limit 10. */
  function ListItems(items: seq<Item>, itemType: string, category: string, location: string,
                     status: string, search: string, page: Option<int>, limit: Option<int>,
                     matches: (string, string) -> bool): (r: Response)
    ensures r == ItemsPage(items, PublicFilter(itemType, category, location, status, search), matches,
                           if page.Some? then page.value else DefaultPage,
                           if limit.Some? then limit.value else DefaultLimit)
    ensures page.None? && limit.None? ==> r.status == 200 && |r.data.items| <= DefaultLimit
    ensures r.status == 200 && !Truthy(status) ==>
      forall i :: 0 <= i < |r.data.items| ==> r.data.items[i].status == Active
  {
    var q := PublicFilter(itemType, category, location, status, search);
    var r := ItemsPage(items, q, matches, if page.Some? then page.value else DefaultPage,
                       if limit.Some? then limit.value else DefaultLimit);
    if r.status == 200 && !Truthy(status) then
      ActiveOnly(q, matches, r.data.items);
      r
    else r
  }

  /** Items matching a query on status `active` are active. */
  lemma ActiveOnly(q: ItemFilter, matches: (string, string) -> bool, s: seq<Item>)
    requires q.status == StatusName(Active)
    requires forall i :: 0 <= i < |s| ==> Satisfies(q, matches, s[i])
    ensures forall i :: 0 <= i < |s| ==> s[i].status == Active
  {
    forall i | 0 <= i < |s| ensures s[i].status == Active {
      assert StatusName(s[i].status) == "active";
    }
  }

  /** Every match appears exactly once in the listing: with a positive limit,
      the k-th newest match is entry k % limit of page k / limit + 1, and
      that page is one of the `pages` the response reports. */
  lemma ListingCovers(items: seq<Item>, q: ItemFilter, matches: (string, string) -> bool, limit: int, k: nat)
    requires limit > 0 && k < Count(items, Matcher(q, matches))
    ensures var r := ItemsPage(items, q, matches, k / limit + 1, limit);
      && r.status == 200 && k % limit < |r.data.items|
      && r.data.items[k % limit] == Matching(items, q, matches)[k]
      && 1 <= k / limit + 1 <= r.data.pagination.pages.value
  {
    PageOfIndex(Matching(items, q, matches), limit, k);
  }

  /** GET /api/items/my-items: exactly the caller's items, newest first. */
  function MyItems(items: seq<Item>, caller: Id): (r: Response)
    ensures r.status == 200 && r.data.ItemList?
    ensures NewestFirst(r.data.items, ItemTime)
    ensures forall i :: 0 <= i < |r.data.items| ==> r.data.items[i] in items && r.data.items[i].postedBy == caller
    ensures forall i :: 0 <= i < |items| && items[i].postedBy == caller ==> items[i] in r.data.items
    ensures multiset(r.data.items) == multiset(Filter(items, (it: Item) => it.postedBy == caller))
  {
    var mine := Filter(items, (it: Item) => it.postedBy == caller);
    Response(200, "", ItemList(SortNewest(mine, ItemTime)))
  }

  /** GET /api/items/:id as written: a public route that populates the
      poster with username, email and contact number. */
  function GetItem(items: seq<Item>, users: seq<User>, id: Id): (r: Response)
    ensures r.status == 404 <==> forall i :: 0 <= i < |items| ==> items[i].id != id
    ensures r.status == 404 ==> r == Fail(404, "Item not found")
    ensures r.status != 404 ==> (r.status == 200 && r.data.ItemDetail?
      && r.data.item in items && r.data.item.id == id
      && r.data.poster == PopulateParty(users, r.data.item.postedBy))
  {
    match ItemIndex(items, id)
    case None => Fail(404, "Item not found")
    case Some(k) => Response(200, "", ItemDetail(items[k], PopulateParty(users, items[k].postedBy)))
  }

  /** GET /api/items/:id populating only 'username', so that contact details
      stay behind the claim approval. */
  function GetItemRedacted(items: seq<Item>, users: seq<User>, id: Id): (r: Response)
    ensures r.status == 404 <==> forall i :: 0 <= i < |items| ==> items[i].id != id
    ensures r.status == 404 ==> r == Fail(404, "Item not found")
    ensures r.status != 404 ==> (r.status == 200 && r.data.PublicItemDetail?
      && r.data.item in items && r.data.item.id == id
      && (r.data.posterName.None? <==> r.data.item.postedBy !in UserIds(users))
      && (r.data.posterName.Some? ==> exists u :: (u in users && u.id == r.data.item.postedBy
                                                 && r.data.posterName.value == NameOf(u))))
  {
    match ItemIndex(items, id)
    case None => Fail(404, "Item not found")
    case Some(k) =>
      var poster := match LookupUser(users, items[k].postedBy) case None => None case Some(u) => Some(NameOf(u));
      Response(200, "", PublicItemDetail(items[k], poster))
  }

  /** GET /api/admin/items: defaults page 1 and limit 20, no default status. */
  function AdminItems(items: seq<Item>, itemType: string, status: string,
                      page: Option<int>, limit: Option<int>, matches: (string, string) -> bool): (r: Response)
    ensures r == ItemsPage(items, AdminFilter(itemType, status), matches,
                           if page.Some? then page.value else DefaultPage,
                           if limit.Some? then limit.value else AdminLimit)
    ensures page.None? && limit.None? ==> r.status == 200 && |r.data.items| <= AdminLimit
  {
    ItemsPage(items, AdminFilter(itemType, status), matches,
              if page.Some? then page.value else DefaultPage,
              if limit.Some? then limit.value else AdminLimit)
  }

  /** Without type and status conditions the moderation listing counts every
      item, resolved ones included, while the public listing counts only the
      active ones. */
  lemma AdminSeesResolved(items: seq<Item>, matches: (string, string) -> bool)
    ensures AdminItems(items, "", "", None, None, matches).data.pagination.total == |items|
    ensures ListItems(items, "", "", "", "", "", None, None, matches).data.pagination.total
         == Count(items, (it: Item) => it.status == Active)
  {
    CountAll(items, Matcher(AdminFilter("", ""), matches));
    var q := PublicFilter("", "", "", "", "");
    CountSame(items, Matcher(q, matches), (it: Item) => it.status == Active);
  }
}
