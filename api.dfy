/** The JSON the routes send: an HTTP status, the `message` field (empty when
    the route sends none) and the `data` payload, with the populated and
    projected shapes of users, items and claims. Every failure is
    `{ success: false, message }`; success is a status below 400. */
module Api {
  import opened Common
  import opened ItemModel
  import opened ClaimModel
  import opened UserModel

  /** A user populated with 'username email contact_number'. */
  datatype Party = Party(id: Id, username: string, email: string, contact: string)

  /** A user reduced to `{ _id, username }`. */
  datatype Name = Name(id: Id, username: string)

  /** An item populated with 'title type category'. */
  datatype ItemRef = ItemRef(id: Id, title: string, itemType: ItemType, category: Category)

  /** An item populated with 'title type category image_url'. */
  datatype ItemCard = ItemCard(ref: ItemRef, imageUrl: Option<string>)

  /** The finder as the claimant sees it: the populated user (null when the
      user is gone), or only the id and username. */
  datatype FinderView = Disclosed(finder: Option<Party>) | Redacted(name: Name)

  /** An entry of GET /api/claims/sent. */
  datatype SentView = SentView(claim: Claim, item: Option<ItemCard>, finder: FinderView)

  /** An entry of GET /api/claims/received; also the populated claim that
      approval returns (whose item has no image_url). */
  datatype ReceivedView = ReceivedView(claim: Claim, item: Option<ItemCard>, claimer: Option<Party>)
  datatype ApprovedView = ApprovedView(claim: Claim, item: Option<ItemRef>, claimer: Option<Party>)

  /** A user document without its password. */
  datatype Profile = Profile(id: Id, username: string, email: string, contact: string,
                             role: Role, isBanned: bool, createdAt: nat)

  /** The data of a successful signup or login, without the signed token. */
  datatype Session = Session(id: Id, username: string, email: string, contact: string, role: Role)

  datatype Pagination = Pagination(page: int, limit: int, total: nat, pages: Option<int>)

  datatype Stats = Stats(
    users: nat, bannedUsers: nat,
    items: nat, activeItems: nat, resolvedItems: nat, lostItems: nat, foundItems: nat,
    claims: nat, pendingClaims: nat)

  datatype Data =
    | NoData
    | ItemData(item: Item)
    | ItemDetail(item: Item, poster: Option<Party>)
    | PublicItemDetail(item: Item, posterName: Option<Name>)
    | ItemList(items: seq<Item>)
    | ItemPage(items: seq<Item>, pagination: Pagination)
    | ClaimData(claim: Claim)
    | ApprovedData(approved: ApprovedView)
    | SentList(sent: seq<SentView>)
    | ReceivedList(received: seq<ReceivedView>)
    | ProfileData(profile: Option<Profile>)
    | UserPage(profiles: seq<Profile>, userPagination: Pagination)
    | SessionData(session: Session)
    | StatsData(stats: Stats)

  datatype Response = Response(status: nat, message: string, data: Data)

  function Fail(status: nat, message: string): Response {
    Response(status, message, NoData)
  }

  function PartyOf(u: User): Party { Party(u.id, u.username, u.email, u.contact) }
  function NameOf(u: User): Name { Name(u.id, u.username) }
  function ProfileOf(u: User): Profile { Profile(u.id, u.username, u.email, u.contact, u.role, u.isBanned, u.createdAt) }
  function SessionOf(u: User): Session { Session(u.id, u.username, u.email, u.contact, u.role) }
  function RefOf(it: Item): ItemRef { ItemRef(it.id, it.title, it.itemType, it.category) }
  function CardOf(it: Item): ItemCard { ItemCard(RefOf(it), it.imageUrl) }

  /** `populate` of a user reference: null when no user has the id. */
  function PopulateParty(users: seq<User>, id: Id): (r: Option<Party>)
    ensures r.None? <==> id !in UserIds(users)
    ensures r.Some? ==> exists u :: u in users && u.id == id && r.value == PartyOf(u)
  {
    match LookupUser(users, id)
    case None => None
    case Some(u) => Some(PartyOf(u))
  }

  /** `populate` of an item reference: null when the item was deleted. */
  function PopulateCard(items: seq<Item>, id: Id): (r: Option<ItemCard>)
    ensures r.None? <==> forall i :: 0 <= i < |items| ==> items[i].id != id
    ensures r.Some? ==> exists it :: it in items && it.id == id && r.value == CardOf(it)
  {
    match ItemIndex(items, id)
    case None => None
    case Some(k) => Some(CardOf(items[k]))
  }

  function PopulateRef(items: seq<Item>, id: Id): (r: Option<ItemRef>)
    ensures r.None? <==> forall i :: 0 <= i < |items| ==> items[i].id != id
    ensures r.Some? ==> exists it :: it in items && it.id == id && r.value == RefOf(it)
  {
    match ItemIndex(items, id)
    case None => None
    case Some(k) => Some(RefOf(items[k]))
  }
}
