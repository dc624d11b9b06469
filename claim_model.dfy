/** The Claim schema: the status enum and its default, the required request
    message with its length limit, and the unique (item_id, claimer_id)
    index, which becomes an invariant of the claim collection. */
module ClaimModel {
  import opened Common

  datatype ClaimStatus = Pending | Approved | Rejected

  const MaxMessage := 500

  /** A stored claim document. The status is one of the three enum values by
      construction. */
  datatype Claim = Claim(
    id: Id,
    itemId: Id,
    claimerId: Id,
    finderId: Id,
    status: ClaimStatus,
    message: string,
    createdAt: nat)

  /** `request_message` is required (a non-empty string) and at most 500 characters. */
  predicate ValidMessage(m: string) {
    1 <= |m| <= MaxMessage
  }

  /** `Claim.create`: the document is validated before it is stored; the
      status path takes its default. None is a ValidationError. */
  function NewClaim(id: Id, itemId: Id, claimerId: Id, finderId: Id, message: string, now: nat): (r: Option<Claim>)
    ensures r.Some? <==> ValidMessage(message)
    ensures r.Some? ==> && r.value.status == Pending && r.value.id == id && r.value.itemId == itemId
                        && r.value.claimerId == claimerId && r.value.finderId == finderId
                        && r.value.message == message && r.value.createdAt == now
  {
    if ValidMessage(message) then Some(Claim(id, itemId, claimerId, finderId, Pending, message, now)) else None
  }

  /** Two claims differ in id and in their (item_id, claimer_id) pair. */
  predicate DistinctClaims(a: Claim, b: Claim) {
    a.id != b.id && (a.itemId != b.itemId || a.claimerId != b.claimerId)
  }

  /** The claim collection: unique ids below the allocator, the unique
      (item_id, claimer_id) index, valid messages, and no claim by the
      item's own poster. */
  ghost predicate ClaimStore(claims: seq<Claim>, nextId: nat) {
    && Pairwise(claims, DistinctClaims)
    && (forall i :: 0 <= i < |claims| ==>
          claims[i].id < nextId && ValidMessage(claims[i].message) && claims[i].claimerId != claims[i].finderId)
  }

  /** No two claims in a valid collection share a (item_id, claimer_id) pair,
      whatever their statuses. */
  lemma UniquePair(claims: seq<Claim>, nextId: nat, i: nat, j: nat)
    requires ClaimStore(claims, nextId) && i < |claims| && j < |claims| && i != j
    ensures claims[i].itemId != claims[j].itemId || claims[i].claimerId != claims[j].claimerId
  {
    if i < j { assert DistinctClaims(claims[i], claims[j]); }
    else { assert DistinctClaims(claims[j], claims[i]); }
  }

  /** The position of the claim with this id (`Claim.findById`). */
  function ClaimIndex(claims: seq<Claim>, id: Id): (r: Option<nat>)
    ensures r.Some? ==> r.value < |claims| && claims[r.value].id == id
    ensures r.None? <==> forall i :: 0 <= i < |claims| ==> claims[i].id != id
  {
    FindFirst(claims, (c: Claim) => c.id == id)
  }

  /** `Claim.findOne({ item_id, claimer_id })`: note the absence of any status
      condition. */
  function ExistingClaim(claims: seq<Claim>, itemId: Id, claimerId: Id): (r: Option<nat>)
    ensures r.Some? ==> r.value < |claims| && claims[r.value].itemId == itemId && claims[r.value].claimerId == claimerId
    ensures r.None? <==> forall i :: 0 <= i < |claims| ==> !(claims[i].itemId == itemId && claims[i].claimerId == claimerId)
  {
    FindFirst(claims, (c: Claim) => c.itemId == itemId && c.claimerId == claimerId)
  }

  /** The collection with claim k's status set, as `claim.status = ...; claim.save()` leaves it. */
  function WithStatus(claims: seq<Claim>, k: nat, status: ClaimStatus): (r: seq<Claim>)
    requires k < |claims|
    ensures |r| == |claims| && r[k] == claims[k].(status := status)
    ensures forall i :: 0 <= i < |claims| && i != k ==> r[i] == claims[i]
  {
    claims[k := claims[k].(status := status)]
  }

  /** A status change keeps the collection valid: ids, pairs and messages are untouched. */
  lemma WithStatusKeepsStore(claims: seq<Claim>, nextId: nat, k: nat, status: ClaimStatus)
    requires ClaimStore(claims, nextId) && k < |claims|
    ensures ClaimStore(WithStatus(claims, k, status), nextId)
  {
    var c := claims[k].(status := status);
    forall i | 0 <= i < k ensures DistinctClaims(claims[i], c) {
      assert DistinctClaims(claims[i], claims[k]);
    }
    forall j | k < j < |claims| ensures DistinctClaims(c, claims[j]) {
      assert DistinctClaims(claims[k], claims[j]);
    }
    PairwiseReplace(claims, k, c, DistinctClaims);
  }

  /** `Claim.deleteMany({ item_id })`: every claim on other items. */
  function WithoutClaimsOn(claims: seq<Claim>, itemId: Id): (r: seq<Claim>)
    ensures forall i :: 0 <= i < |r| ==> r[i] in claims && r[i].itemId != itemId
    ensures forall i :: 0 <= i < |claims| && claims[i].itemId != itemId ==> claims[i] in r
  {
    Filter(claims, (c: Claim) => c.itemId != itemId)
  }

  lemma WithoutClaimsKeepsStore(claims: seq<Claim>, nextId: nat, itemId: Id)
    requires ClaimStore(claims, nextId)
    ensures ClaimStore(WithoutClaimsOn(claims, itemId), nextId)
  {
    FilterPairwise(claims, (c: Claim) => c.itemId != itemId, DistinctClaims);
  }

  /** Appending a claim with a fresh id, a pair no stored claim has, a valid
      message and distinct claimer and finder keeps the collection valid. */
  lemma AppendKeepsStore(claims: seq<Claim>, nextId: nat, c: Claim)
    requires ClaimStore(claims, nextId) && c.id == nextId && ValidMessage(c.message) && c.claimerId != c.finderId
    requires ExistingClaim(claims, c.itemId, c.claimerId).None?
    ensures ClaimStore(claims + [c], nextId + 1)
  {
    PairwiseAppend(claims, c, DistinctClaims);
  }
}
