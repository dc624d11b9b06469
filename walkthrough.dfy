/** Request sequences run against a fresh server: the approval that opens
    the finder's contact details to the claimant, and the rejected claim
    that still blocks a second claim on the same item. */
module Walkthrough {
  import opened Common
  import opened Text
  import opened ItemModel
  import opened ClaimModel
  import opened UserModel
  import opened Api
  import opened ClaimQueries
  import opened ReFind

  /** Ann posts a found wallet, Ben claims it. Ben's sent listing shows Ann
      as a name only; once Ann approves, it shows her email and contact
      number, and the wallet is resolved. */
  method ApprovalRevealsContact() returns (before: Response, after: Response, item: Item)
    ensures before.status == 200 && before.data.SentList? && |before.data.sent| == 1
    ensures before.data.sent[0].finder == Redacted(Name(0, "ann"))
    ensures after.status == 200 && after.data.SentList? && |after.data.sent| == 1
    ensures after.data.sent[0].finder == Disclosed(Some(Party(0, "ann", "ann@example.org", "555-0100")))
    ensures after.data.sent[0].claim.status == Approved && item.status == Resolved
  {
    var s, ann, ben := Claimed();
    var r;
    before := Sent(s.claims, s.items, s.users, 1);
    r := s.ApproveClaim(ann, 3);
    assert s.claims[0].status == Approved;
    after := Sent(s.claims, s.items, s.users, 1);
    item := s.items[0];
  }

  /** The sent listing of a store holding one claim, made by the caller. */
  method Sent(claims: seq<Claim>, items: seq<Item>, users: seq<User>, caller: Id) returns (r: Response)
    requires |claims| == 1 && claims[0].claimerId == caller && claims[0].finderId in UserIds(users)
    ensures r == ListSent(claims, items, users, caller)
    ensures r.status == 200 && r.data.SentList? && |r.data.sent| == 1 && r.data.sent[0] == SentOf(claims[0], items, users).value
  {
    var cs := SentBy(claims, caller);
    assert claims[0] in cs;
    assert |cs| == 1 && cs[0] == claims[0];
    SentSucceeds(claims, items, users, caller);
    r := ListSent(claims, items, users, caller);
  }

  /** Ben claims Ann's wallet and Ann rejects the claim; Ben's second claim
      on the wallet is refused although the first is no longer pending. */
  method RejectionBlocksReclaim() returns (again: Response)
    ensures again == Fail(400, DuplicateClaim)
  {
    var s, ann, ben := Claimed();
    var r;
    r := s.RejectClaim(ann, 3);
    assert s.claims[0].status == Rejected && s.items[0].status == Active;
    again := s.CreateClaim(ben, 2, "Please look again", 5);
  }

  /** Ann and Ben sign up, Ann posts a found wallet, Ben claims it. */
  method Claimed() returns (s: Server, ann: User, ben: User)
    ensures fresh(s) && s.Valid()
    ensures ann == User(0, "ann", "ann@example.org", "secret-a", "555-0100", RegularUser, false, 1)
    ensures ben == User(1, "ben", "ben@example.org", "secret-b", "555-0199", RegularUser, false, 2)
    ensures s.users == [ann, ben]
    ensures |s.items| == 1 && s.items[0].id == 2 && s.items[0].postedBy == 0 && s.items[0].status == Active
    ensures s.claims == [Claim(3, 2, 1, 0, Pending, "It has my card in it", 4)]
  {
    s, ann, ben := SignedUp();
    PostWallet(s, ann);
    var r := s.CreateClaim(ben, 2, "It has my card in it", 4);
    assert r.status == 201;
  }

  method SignedUp() returns (s: Server, ann: User, ben: User)
    ensures fresh(s) && s.Valid() && s.items == [] && s.claims == [] && s.nextId == 2
    ensures ann == User(0, "ann", "ann@example.org", "secret-a", "555-0100", RegularUser, false, 1)
    ensures ben == User(1, "ben", "ben@example.org", "secret-b", "555-0199", RegularUser, false, 2)
    ensures s.users == [ann, ben]
  {
    s, ann := AnnSignedUp();
    BenIsFree(ann);
    var r := s.Signup("ben", "ben@example.org", "secret-b", "555-0199", 2);
    assert r.status == 201;
    ben := s.users[1];
  }

  method AnnSignedUp() returns (s: Server, ann: User)
    ensures fresh(s) && s.Valid() && s.items == [] && s.claims == [] && s.nextId == 1
    ensures ann == User(0, "ann", "ann@example.org", "secret-a", "555-0100", RegularUser, false, 1)
    ensures s.users == [ann]
  {
    s := new Server();
    var r := s.Signup("ann", "ann@example.org", "secret-a", "555-0100", 1);
    assert r.status == 201;
    ann := s.users[0];
  }

  /** Ben's username and email are both free once only Ann has signed up. */
  lemma BenIsFree(ann: User)
    requires ann == User(0, "ann", "ann@example.org", "secret-a", "555-0100", RegularUser, false, 1)
    ensures Accounts.SignupConflict([ann], "ben", "ben@example.org").None?
  {
    assert "ann@example.org"[0] != "ben@example.org"[0];
    assert "ann"[0] != "ben"[0];
  }

  /** The wallet's form passes the schema as it stands. */
  lemma WalletValidates()
    ensures NewItem(2, "found", "Blue wallet", "Bags/Wallets", "Library", "Found near the desk", None, 0, 3).Some?
  {
    WalletFields();
  }

  /** Each field of the wallet's form, as the schema reads it. */
  lemma WalletFields()
    ensures ParseType("found") == Some(Found)
    ensures ParseCategory("Bags/Wallets") == Some(BagsWallets)
    ensures ParseStatus(StatusName(Active)) == Some(Active)
    ensures Trim("Blue wallet") == "Blue wallet" && Trim("Library") == "Library"
  {
    WalletCategory();
    TitleTrimmed();
    LocationTrimmed();
  }

  lemma TitleTrimmed()
    ensures Trim("Blue wallet") == "Blue wallet"
  {
    var t := "Blue wallet";
    assert t[0] == 'B' && t[|t| - 1] == 't';
    TrimmedIsFixed(t);
  }

  lemma LocationTrimmed()
    ensures Trim("Library") == "Library"
  {
    var t := "Library";
    assert t[0] == 'L' && t[|t| - 1] == 'y';
    TrimmedIsFixed(t);
  }

  lemma WalletCategory()
    ensures ParseCategory("Bags/Wallets") == Some(BagsWallets)
  {
    assert "Bags/Wallets" != "Electronics" by { assert "Bags/Wallets"[0] != "Electronics"[0]; }
    assert "Bags/Wallets" != "Documents/IDs" by { assert "Bags/Wallets"[0] != "Documents/IDs"[0]; }
    assert "Bags/Wallets" != "Keys" by { assert "Bags/Wallets"[0] != "Keys"[0]; }
  }

  method PostWallet(s: Server, ann: User)
    requires s.Valid() && s.items == [] && s.nextId == 2 && ann in s.users && ann.id == 0
    modifies s
    ensures s.Valid() && s.users == old(s.users) && s.claims == old(s.claims) && s.nextId == 3
    ensures |s.items| == 1 && s.items[0].id == 2 && s.items[0].postedBy == 0 && s.items[0].status == Active
  {
    WalletValidates();
    var r := s.CreateItem(ann, "found", "Blue wallet", "Bags/Wallets", "Library", "Found near the desk", None, 3);
  }
}
