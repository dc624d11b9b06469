/** The claim listings: GET /api/claims/sent, which shows the claimant the
    finder's contact details only once the claim is approved, and GET
    /api/claims/received, which always shows the finder the claimant's. */
module ClaimQueries {
  import opened Common
  import opened ItemModel
  import opened ClaimModel
  import opened UserModel
  import opened Api

  /** The TypeError the redaction raises on a claim whose finder is gone. */
  const NullFinder := "Cannot read properties of null (reading '_id')"

  function ClaimTime(c: Claim): nat { c.createdAt }

  function ClaimerIs(id: Id): Claim -> bool { (c: Claim) => c.claimerId == id }
  function FinderIs(id: Id): Claim -> bool { (c: Claim) => c.finderId == id }

  /** `Claim.find({ claimer_id }).sort({ createdAt: -1 })` */
  function SentBy(claims: seq<Claim>, caller: Id): (r: seq<Claim>)
    ensures NewestFirst(r, ClaimTime)
    ensures forall i :: 0 <= i < |r| ==> r[i] in claims && r[i].claimerId == caller
    ensures forall i :: 0 <= i < |claims| && claims[i].claimerId == caller ==> claims[i] in r
    ensures multiset(r) == multiset(Filter(claims, ClaimerIs(caller)))
  {
    SortNewest(Filter(claims, ClaimerIs(caller)), ClaimTime)
  }

  /** `Claim.find({ finder_id }).sort({ createdAt: -1 })` */
  function ReceivedBy(claims: seq<Claim>, caller: Id): (r: seq<Claim>)
    ensures NewestFirst(r, ClaimTime)
    ensures forall i :: 0 <= i < |r| ==> r[i] in claims && r[i].finderId == caller
    ensures forall i :: 0 <= i < |claims| && claims[i].finderId == caller ==> claims[i] in r
    ensures multiset(r) == multiset(Filter(claims, FinderIs(caller)))
  {
    SortNewest(Filter(claims, FinderIs(caller)), ClaimTime)
  }

  /** One entry of the sent listing: an approved claim keeps its populated
      finder (null when the user is gone); any other claim has the finder cut
      down to `{ _id, username }`, which fails (None) when there is no finder
      document to read them from. */
  function SentOf(c: Claim, items: seq<Item>, users: seq<User>): (r: Option<SentView>)
    ensures r.None? <==> c.status != Approved && c.finderId !in UserIds(users)
    ensures r.Some? ==> r.value.claim == c && r.value.item == PopulateCard(items, c.itemId)
    ensures r.Some? ==> (r.value.finder.Disclosed? <==> c.status == Approved)
    ensures r.Some? && r.value.finder.Disclosed? ==> r.value.finder.finder == PopulateParty(users, c.finderId)
    ensures r.Some? && r.value.finder.Redacted? ==>
      exists u :: u in users && u.id == c.finderId && r.value.finder.name == NameOf(u)
  {
    var card := PopulateCard(items, c.itemId);
    if c.status == Approved then Some(SentView(c, card, Disclosed(PopulateParty(users, c.finderId))))
    else match LookupUser(users, c.finderId)
      case None => None
      case Some(u) => Some(SentView(c, card, Redacted(NameOf(u))))
  }

  /** `claims.map(...)`: every entry projected, or None when one of them throws. */
  function ProjectSent(cs: seq<Claim>, items: seq<Item>, users: seq<User>): (r: Option<seq<SentView>>)
    ensures r.None? <==> exists i :: 0 <= i < |cs| && SentOf(cs[i], items, users).None?
    ensures r.Some? ==> |r.value| == |cs|
    ensures r.Some? ==> forall i :: 0 <= i < |cs| ==>
      SentOf(cs[i], items, users).Some? && r.value[i] == SentOf(cs[i], items, users).value
  {
    if |cs| == 0 then Some([])
    else match SentOf(cs[0], items, users)
      case None => None
      case Some(v) =>
        match ProjectSent(cs[1..], items, users)
        case None =>
          assert forall i :: 0 <= i < |cs[1..]| ==> cs[1..][i] == cs[i + 1];
          None
        case Some(rest) =>
          assert forall i :: 1 <= i < |cs| ==> cs[i] == cs[1..][i - 1];
          Some([v] + rest)
  }

  /** GET /api/claims/sent: the caller's claims, newest first, with the
      finder's email and contact number disclosed exactly on approved claims. */
  function ListSent(claims: seq<Claim>, items: seq<Item>, users: seq<User>, caller: Id): (r: Response)
    ensures r.status == 500 <==> exists c :: c in claims && c.claimerId == caller
                                              && c.status != Approved && c.finderId !in UserIds(users)
    ensures r.status == 500 ==> r == Fail(500, NullFinder)
    ensures r.status != 500 ==> (r.status == 200 && r.data.SentList?
      && |r.data.sent| == |SentBy(claims, caller)|
      && forall i :: 0 <= i < |r.data.sent| ==>
           && r.data.sent[i] == SentOf(SentBy(claims, caller)[i], items, users).value
           && r.data.sent[i].claim == SentBy(claims, caller)[i]
           && r.data.sent[i].claim.claimerId == caller
           && (r.data.sent[i].finder.Disclosed? <==> r.data.sent[i].claim.status == Approved))
  {
    var sent := SentBy(claims, caller);
    match ProjectSent(sent, items, users)
    case None =>
      var i :| 0 <= i < |sent| && SentOf(sent[i], items, users).None?;
      assert sent[i] in claims;
      Fail(500, NullFinder)
    case Some(views) =>
      assert forall c :: c in claims && c.claimerId == caller ==> c in sent;
      Response(200, "", SentList(views))
  }

  /** While every claim's finder is a stored user, the sent listing never
      fails, and it lists every claim the caller made. */
  lemma SentSucceeds(claims: seq<Claim>, items: seq<Item>, users: seq<User>, caller: Id)
    requires forall i :: 0 <= i < |claims| ==> claims[i].finderId in UserIds(users)
    ensures ListSent(claims, items, users, caller).status == 200
    ensures forall i :: 0 <= i < |claims| && claims[i].claimerId == caller ==>
      exists j :: 0 <= j < |ListSent(claims, items, users, caller).data.sent|
               && ListSent(claims, items, users, caller).data.sent[j].claim == claims[i]
  {
    var sent := SentBy(claims, caller);
    forall i | 0 <= i < |claims| && claims[i].claimerId == caller
      ensures exists j :: 0 <= j < |sent| && sent[j] == claims[i]
    {
      assert claims[i] in sent;
    }
  }

  /** One entry of the received listing: the claimer always populated. */
  function ReceivedOf(c: Claim, items: seq<Item>, users: seq<User>): (v: ReceivedView)
    ensures v.claim == c
    ensures v.claimer.None? <==> c.claimerId !in UserIds(users)
    ensures v.claimer.Some? ==> exists u :: u in users && u.id == c.claimerId && v.claimer.value == PartyOf(u)
    ensures v.item == PopulateCard(items, c.itemId)
    ensures v.item.None? <==> forall i :: 0 <= i < |items| ==> items[i].id != c.itemId
    ensures v.item.Some? ==> exists it :: it in items && it.id == c.itemId && v.item.value == CardOf(it)
  {
    ReceivedView(c, PopulateCard(items, c.itemId), PopulateParty(users, c.claimerId))
  }

  /** GET /api/claims/received: the claims on the caller's items, newest
      first, each with the claimant's username, email and contact number. */
  function ListReceived(claims: seq<Claim>, items: seq<Item>, users: seq<User>, caller: Id): (r: Response)
    ensures r.status == 200 && r.data.ReceivedList?
    ensures |r.data.received| == |ReceivedBy(claims, caller)|
    ensures forall i :: 0 <= i < |r.data.received| ==>
      && r.data.received[i].claim == ReceivedBy(claims, caller)[i]
      && r.data.received[i] == ReceivedOf(ReceivedBy(claims, caller)[i], items, users)
      && r.data.received[i].claim.finderId == caller
      && r.data.received[i].item == PopulateCard(items, r.data.received[i].claim.itemId)
      && r.data.received[i].claimer == PopulateParty(users, r.data.received[i].claim.claimerId)
  {
    var rs := ReceivedBy(claims, caller);
    Response(200, "", ReceivedList(seq(|rs|, i requires 0 <= i < |rs| => ReceivedOf(rs[i], items, users))))
  }

  /** While every claimant is a stored user, the finder sees each claimant's
      full contact details, whatever the claim's status. */
  lemma ReceivedDiscloses(claims: seq<Claim>, items: seq<Item>, users: seq<User>, caller: Id, i: nat)
    requires forall k :: 0 <= k < |claims| ==> claims[k].claimerId in UserIds(users)
    requires i < |ListReceived(claims, items, users, caller).data.received|
    ensures var v := ListReceived(claims, items, users, caller).data.received[i];
      exists u :: u in users && u.id == v.claim.claimerId && v.claimer == Some(PartyOf(u))
  {
    var v := ListReceived(claims, items, users, caller).data.received[i];
    assert v.claim in claims;
  }
}
