/** The contact-disclosure rule across routes. GET /api/claims/sent hides
    the finder's email and contact number until the claim is approved, but
    the public GET /api/items/:id populates the same poster with
    'username email contact_number' for anyone who asks. */
module Disclosure {
  import opened Common
  import opened ItemModel
  import opened ClaimModel
  import opened UserModel
  import opened Api
  import opened ItemQueries
  import opened ClaimQueries

  /** As written: while a claim is still pending, its claimant's sent
      listing shows the finder only as `{ _id, username }`, yet the item's
      public page, which needs no login and no claim, hands out the same
      finder's email and contact number. */
  lemma ItemPageLeaksContact(claims: seq<Claim>, items: seq<Item>, users: seq<User>, nextId: nat,
                             c: Claim, it: Item, finder: User)
    requires ItemStore(items, nextId) && UserStore(users, nextId)
    requires forall i :: 0 <= i < |claims| ==> claims[i].finderId in UserIds(users)
    requires c in claims && c.status == Pending
    requires it in items && it.id == c.itemId && it.postedBy == c.finderId
    requires finder in users && finder.id == c.finderId
    ensures var sent := ListSent(claims, items, users, c.claimerId);
      sent.status == 200
      && exists j :: 0 <= j < |sent.data.sent| && sent.data.sent[j].claim == c
                     && sent.data.sent[j].finder == Redacted(NameOf(finder))
    ensures GetItem(items, users, c.itemId).status == 200
    ensures GetItem(items, users, c.itemId).data.poster == Some(PartyOf(finder))
    ensures GetItem(items, users, c.itemId).data.poster.value.contact == finder.contact
    ensures GetItem(items, users, c.itemId).data.poster.value.email == finder.email
  {
    SentListingRedacts(claims, items, users, nextId, c, finder);
    ItemPageDiscloses(items, users, nextId, it, finder);
  }

  /** A pending claim appears in its claimant's sent listing with the finder
      reduced to id and username. */
  lemma SentListingRedacts(claims: seq<Claim>, items: seq<Item>, users: seq<User>, nextId: nat,
                           c: Claim, finder: User)
    requires UserStore(users, nextId)
    requires forall i :: 0 <= i < |claims| ==> claims[i].finderId in UserIds(users)
    requires c in claims && c.status == Pending
    requires finder in users && finder.id == c.finderId
    ensures var sent := ListSent(claims, items, users, c.claimerId);
      sent.status == 200
      && exists j :: 0 <= j < |sent.data.sent| && sent.data.sent[j].claim == c
                     && sent.data.sent[j].finder == Redacted(NameOf(finder))
  {
    SentSucceeds(claims, items, users, c.claimerId);
    var sent := ListSent(claims, items, users, c.claimerId);
    var cs := SentBy(claims, c.claimerId);
    var k :| 0 <= k < |claims| && claims[k] == c;
    assert claims[k].claimerId == c.claimerId;
    var j :| 0 <= j < |cs| && cs[j] == c;
    assert sent.data.sent[j] == SentOf(c, items, users).value;
    PendingRedacted(c, items, users, nextId, finder);
  }

  /** The sent-listing entry of an unapproved claim names its finder. */
  lemma PendingRedacted(c: Claim, items: seq<Item>, users: seq<User>, nextId: nat, finder: User)
    requires UserStore(users, nextId) && c.status != Approved
    requires finder in users && finder.id == c.finderId
    ensures SentOf(c, items, users) == Some(SentView(c, PopulateCard(items, c.itemId), Redacted(NameOf(finder))))
  {
    LookupUnique(users, nextId, finder);
  }

  /** The public item page populates its poster in full. */
  lemma ItemPageDiscloses(items: seq<Item>, users: seq<User>, nextId: nat, it: Item, finder: User)
    requires ItemStore(items, nextId) && UserStore(users, nextId)
    requires it in items && finder in users && it.postedBy == finder.id
    ensures GetItem(items, users, it.id).status == 200
    ensures GetItem(items, users, it.id).data.poster == Some(PartyOf(finder))
  {
    LookupUnique(users, nextId, finder);
    var m :| 0 <= m < |items| && items[m] == it;
    ItemIndexUnique(items, nextId, it.id, m);
  }

  /** Corrected: with the poster populated by username only, the item page
      shows exactly what the redacted sent listing shows of the finder. */
  lemma RedactedItemPageAgrees(claims: seq<Claim>, items: seq<Item>, users: seq<User>, nextId: nat,
                               c: Claim, it: Item, finder: User)
    requires ItemStore(items, nextId) && UserStore(users, nextId)
    requires c in claims && c.status != Approved
    requires it in items && it.id == c.itemId && it.postedBy == c.finderId
    requires finder in users && finder.id == c.finderId
    ensures SentOf(c, items, users).value.finder == Redacted(NameOf(finder))
    ensures GetItemRedacted(items, users, c.itemId).status == 200
    ensures GetItemRedacted(items, users, c.itemId).data.posterName == Some(NameOf(finder))
  {
    LookupUnique(users, nextId, finder);
    var m :| 0 <= m < |items| && items[m] == it;
    ItemIndexUnique(items, nextId, it.id, m);
  }
}
