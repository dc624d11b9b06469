# ReFind server core in Dafny

ReFind is a lost-and-found marketplace. Users post lost or found items and
claim other people's items. The poster (the "finder" of a claim) approves
or rejects each claim. The finder sees every claimant's email and contact
number in the received listing whatever the claim's status; approval is what
reveals the finder's email and contact number to the claimant in the sent
listing. Admins moderate users and items.

This project models the Express/Mongoose server as a state machine over
three collections: items, claims and users. Its parts:

- `common.dfy`: the MongoDB operations the routes use, on sequences in
  insertion order: `findOne`, `find`, `countDocuments`,
  `sort({ createdAt: -1 })`, `skip`/`limit`, and the `Math.ceil` page count.
- `text.dfy`: JavaScript's `trim`, string truthiness, `a || b`, `startsWith`
  and `split(' ')[1]`.
- `item_model.dfy`, `claim_model.dfy`, `user_model.dfy`: the Item, Claim and
  User records, their validity, and invariants for each collection. These
  cover unique ids, the unique `(item_id, claimer_id)` index, unique
  usernames and emails, and no banned admin. The user record is the schema
  in `server/scripts/seedAdmin.js`.
- `api.dfy`: the response shapes, the populated projections and the HTTP
  status.
- `auth_middleware.dfy`: the `protect` and `adminOnly` decision ladders.
- `accounts.dfy`: signup conflicts, the login ladder, `me`, and the profile
  merge.
- `item_queries.dfy`: the public listing, my-items, the item page, and the
  moderation listing.
- `claim_queries.dfy`: the sent listing (redacting) and the received
  listing.
- `admin_queries.dfy`: the statistics and the user listing.
- `server.dfy`: class `ReFind.Server`. It holds the three collections and an
  id allocator. Its methods are the routes that change state, each checking
  its guards in the route's order. `Valid()` is the invariant they preserve:
  every collection invariant, plus every reference to a user naming a
  stored user.
- `disclosure.dfy`: the contact-disclosure rule across routes (see
  Findings).
- `walkthrough.dfy`: two request sequences on a fresh server.

Opaque collaborators are function-valued parameters:

- `verify` for JWT verification: a token gives the id it carries, or None
  when it does not verify. The empty token is never passed to it: `jwt.verify`
  throws on an empty string, so an empty second field is "token invalid";
- `matchPassword` for bcrypt comparison;
- `matches` for case-insensitive `$regex` matching.

Route behaviours worth noting:

- claiming a resolved item is answered 400, the status the own-item and duplicate-claim guards also use;
- the duplicate-claim lookup has no status condition, so a rejected claim
  still blocks a second claim;
- approve and reject never look at the claim's current status;
- the request message is checked only by the schema when the claim is
  inserted, so a bad message is a 500 after every other guard has passed.

## Model

| member | source | states |
|---|---|---|
| `Common.FindFirst` | server/routes/itemRoutes.js:143 | `findOne`/`findById` give the first document satisfying the condition, and nothing exactly when none does |
| `Common.Filter` | server/routes/itemRoutes.js:36 | `find(query)` keeps exactly the documents satisfying the query, each drawn from the collection |
| `Common.Count` | server/routes/itemRoutes.js:42 | `countDocuments` is at most the collection's size and is 0 exactly when no document satisfies the query |
| `Common.CountHead` | server/routes/itemRoutes.js:42 | the count is the number of matches: the first document adds one exactly when it satisfies the query, with the rest counted the same way |
| `Common.SortNewest` | server/routes/itemRoutes.js:38 | `sort({ createdAt: -1 })` gives the same documents (a permutation) newest first |
| `Common.Window` | server/routes/itemRoutes.js:34-40 | `skip`/`limit` fail iff the skip is negative; otherwise the result is the consecutive run of documents from the skip on, at most |limit| long, and limit 0 means no limit |
| `Common.PageCount` | server/routes/itemRoutes.js:51 | `Math.ceil(total / limit)` is the ceiling quotient for either sign of limit, and undefined for limit 0 |
| `ClaimModel.NewClaim` | server/models/Claim.js:19-28 | a claim document is created iff the request message has 1 to 500 characters; it is `pending` and keeps the given item, claimer, finder, message and time |
| `ClaimModel.UniquePair` | server/models/Claim.js:34 | in a valid claim collection no two claims share an `(item_id, claimer_id)` pair, whatever their statuses |
| `ClaimModel.ExistingClaim` | server/routes/claimRoutes.js:44-47 | finds a claim by item and claimer exactly when one exists, with no condition on status |
| `ClaimModel.ClaimIndex` | server/routes/claimRoutes.js:138 | `Claim.findById` finds a claim exactly when one has the id |
| `ClaimModel.WithStatus` | server/routes/claimRoutes.js:156-157 | the save changes claim k's status and no other claim |
| `ClaimModel.WithStatusKeepsStore` | server/routes/claimRoutes.js:202-203 | a status change keeps the claim collection valid |
| `ClaimModel.AppendKeepsStore` | server/routes/claimRoutes.js:57-62 | inserting a claim with a fresh id, an unused pair, a valid message and claimer ≠ finder keeps the unique index and the invariant |
| `ClaimModel.WithoutClaimsOn` | server/routes/adminRoutes.js:180 | `deleteMany({ item_id })` keeps exactly the claims on other items |
| `ClaimModel.WithoutClaimsKeepsStore` | server/routes/adminRoutes.js:180 | the cascade keeps the claim collection valid |
| `ItemModel.ParseType` | server/models/Item.js:4-8 | `type` is accepted exactly when it names `lost` or `found` |
| `ItemModel.ParseCategory` | server/models/Item.js:15-19 | `category` is accepted exactly when it is one of the seven listed names |
| `ItemModel.ParseStatus` | server/models/Item.js:34-38 | `status` is accepted exactly when it is `active` or `resolved` |
| `ItemModel.ParseNames` | server/models/Item.js:4-38 | every enum value is accepted under its own name |
| `ItemModel.Validate` | server/models/Item.js:3-44 | a document validates iff its enums are valid, its trimmed title has 1 to 100 characters, its trimmed location is non-empty and its description has 1 to 1000 characters; the stored title and location are the trimmed ones |
| `ItemModel.UploadUrl` | server/routes/itemRoutes.js:122 | `image_url` is null without a file and `/uploads/<name>` with one |
| `ItemModel.NewItem` | server/routes/itemRoutes.js:116-124 | an item is created iff the type and category are listed names, the trimmed title has 1 to 100 characters, the trimmed location is non-empty and the description has 1 to 1000 characters; it then stores that type and category, the trimmed title and location and the description as given, is valid and `active`, is posted by the caller, and carries the upload URL |
| `ItemModel.Merge` | server/routes/itemRoutes.js:162-173 | the saved item is valid and keeps its id, poster and creation time; a new file replaces the image and otherwise the image is kept |
| `ItemModel.MergeSucceeds` | server/routes/itemRoutes.js:162-173 | an update of a valid item is saved iff every truthy field given is acceptable on its own: a listed type, category or status, a trimmed title of 1 to 100 characters, a non-empty trimmed location, a description of at most 1000 characters |
| `ItemModel.MergeFields` | server/routes/itemRoutes.js:162-167 | each of type, title, category, location, description and status takes the given value when it is truthy and keeps the old one otherwise |
| `ItemModel.MergeNothing` | server/routes/itemRoutes.js:162-167 | an update that supplies nothing leaves a valid item unchanged |
| `ItemModel.ItemIndex` | server/routes/itemRoutes.js:143 | `findById` finds an item exactly when one has the id |
| `ItemModel.ResolveItem` | server/routes/claimRoutes.js:160 | `findByIdAndUpdate` resolves the item with the id and leaves all others as they were |
| `ItemModel.ResolveKeepsStore` | server/routes/claimRoutes.js:160 | resolving keeps the item collection valid and resolves every item carrying the id |
| `ItemModel.ResolvesCarriers` | server/routes/claimRoutes.js:160 | in a valid collection the item carrying the id is the one resolved |
| `ItemModel.ReplaceKeepsStore` | server/routes/itemRoutes.js:173 | saving a valid document with the same id keeps the item collection valid |
| `ItemModel.AppendKeepsStore` | server/routes/itemRoutes.js:116 | inserting a valid item with a fresh id keeps the item collection valid |
| `ItemModel.WithoutItem` | server/routes/itemRoutes.js:209 | `findByIdAndDelete` keeps exactly the other items |
| `ItemModel.WithoutItemKeepsStore` | server/routes/adminRoutes.js:183 | deleting an item keeps the item collection valid |
| `Text.Trim` | server/models/Item.js:12 | the result has no white space at either end and is the input with only white space removed around it |
| `Text.TrimIdempotent` | server/models/Item.js:20-24 | trimming twice is trimming once |
| `Text.SecondField` | server/middleware/authMiddleware.js:11 | `split(' ')[1]` is undefined iff the header has no space, and is otherwise the space-free text after the first space |
| `UserModel.LookupUser` | server/middleware/authMiddleware.js:17 | `findById` returns a stored user with the id, or null exactly when none has it |
| `UserModel.LookupUnique` | server/scripts/seedAdmin.js:17-24 | in a valid user collection the lookup by id finds the one user with that id |
| `UserModel.UserIndex` | server/routes/adminRoutes.js:93 | `User.findById` finds a user exactly when one has the id |
| `UserModel.ToggleBan` | server/routes/adminRoutes.js:110 | flips `isBanned` of user k and changes nothing else |
| `UserModel.ToggleBanTwice` | server/routes/adminRoutes.js:110 | toggling twice restores the collection |
| `UserModel.ToggleBanKeepsStore` | server/routes/adminRoutes.js:102-111 | toggling a non-admin keeps the user collection valid (no admin is ever banned) and keeps the set of ids |
| `UserModel.AppendKeepsStore` | server/scripts/seedAdmin.js:18-19 | a valid new user with a fresh id, username and email keeps the unique indexes |
| `UserModel.RenameKeepsStore` | server/routes/authRoutes.js:144-147 | rewriting a user with a username no other user has keeps the user collection valid |
| `Api.PopulateParty` | server/routes/claimRoutes.js:83 | populating a user reference is null exactly when no user has the id, and otherwise gives that user's username, email and contact number |
| `Api.PopulateCard` | server/routes/claimRoutes.js:82 | populating an item reference is null exactly when the item is gone |
| `Api.PopulateRef` | server/routes/claimRoutes.js:164 | the same for the approval's 'title type category' population |
| `AuthMiddleware.DecodedId` | server/middleware/authMiddleware.js:8-14 | an id is decoded iff the header starts with `Bearer` and has a non-empty second field, and it is then exactly what that field verifies to |
| `AuthMiddleware.Protect` | server/middleware/authMiddleware.js:5-50 | no bearer header → 401 "no token provided"; a token that does not verify → 401 "token invalid"; an unknown id → 401 "User not found"; 403 exactly for a stored banned user; continues iff the token verifies to a stored, unbanned user, and then with that user |
| `AuthMiddleware.AdminOnly` | server/middleware/authMiddleware.js:53-62 | continues iff a user is present with role admin, otherwise 403 |
| `AuthMiddleware.AdminGate` | server/routes/adminRoutes.js:10-11 | `protect` then `adminOnly`: continues iff the token verifies to a stored, unbanned admin, with that user; a `protect` denial passes through unchanged, and otherwise the denial is 403 admin-required |
| `AuthMiddleware.AdminGateAdmits` | server/routes/adminRoutes.js:10-11 | an admin route runs only for a stored, unbanned admin whose token verified; every other request gets 401 or 403 |
| `Accounts.ConflictIndex` | server/routes/authRoutes.js:16-18 | finds a user with the email or the username exactly when one exists |
| `Accounts.SignupConflict` | server/routes/authRoutes.js:20-27 | a conflict is reported iff some user has the email or the username; "Email already registered" only when a user has that email, "Username already taken" only when a user has that username and a different email |
| `Accounts.FreeEmailMeansUsername` | server/routes/authRoutes.js:23-25 | with the email free, a collision is always reported as the username |
| `Accounts.UserByEmail` | server/routes/authRoutes.js:67 | finds a user by email exactly when one has it |
| `Accounts.Login` | server/routes/authRoutes.js:67-107 | unknown email → 401 "Invalid email or password"; banned → 403; 200 iff the user exists, is not banned and the password matches, with that user's session data; every 401 has the same message |
| `Accounts.BanBeforePassword` | server/routes/authRoutes.js:77-92 | a banned account gets 403 whatever the password and whatever the comparison does |
| `Accounts.NoAccountProbe` | server/routes/authRoutes.js:69-92 | a wrong password and an unknown email give identical responses |
| `Accounts.Me` | server/routes/authRoutes.js:121-126 | 200 with the stored user without its password, or null when the id names no user |
| `Accounts.ProfileMerge` | server/routes/authRoutes.js:144-145 | username and contact number are replaced only by truthy values; email, role, ban flag, password and id are untouched |
| `Accounts.ProfileMergeProperties` | server/routes/authRoutes.js:144-145 | supplying neither field changes nothing, and a valid user stays valid |
| `ItemQueries.PublicFilter` | server/routes/itemRoutes.js:17-31 | the public query keeps the request's conditions and sets status `active` when none is given |
| `ItemQueries.AdminFilter` | server/routes/adminRoutes.js:133-135 | the moderation query conditions on type and status only, with no default status |
| `ItemQueries.Matching` | server/routes/itemRoutes.js:36-38 | the matches newest first: exactly the items satisfying the query, as a permutation of the filtered collection |
| `ItemQueries.ItemsPage` | server/routes/itemRoutes.js:34-53 | 500 iff the skip `(page-1)*limit` is negative; otherwise the page is the window of the newest-first matches at that skip, newest first, at most |limit| long, with `total` the number of matches and `pages` their ceiling quotient |
| `ItemQueries.ListItems` | server/routes/itemRoutes.js:12-60 | page 1 and limit 10 by default; without a status condition every listed item is active |
| `ItemQueries.ActiveOnly` | server/routes/itemRoutes.js:22-23 | items matching the default status condition are active |
| `ItemQueries.ListingCovers` | server/routes/itemRoutes.js:34-51 | with a positive limit, the k-th newest match is entry k mod limit of page k div limit + 1, and that page is within the reported page count |
| `ItemQueries.MyItems` | server/routes/itemRoutes.js:67-68 | exactly the caller's items, newest first, as a permutation |
| `ItemQueries.GetItem` | server/routes/itemRoutes.js:87-100 | 404 iff no item has the id; otherwise that item with its poster populated with username, email and contact number |
| `ItemQueries.GetItemRedacted` | server/routes/itemRoutes.js:87-100 | the same route with the poster cut down to id and username |
| `ItemQueries.AdminItems` | server/routes/adminRoutes.js:129-156 | the moderation listing pages the type/status query, with page 1 and limit 20 by default |
| `ItemQueries.AdminSeesResolved` | server/routes/adminRoutes.js:133-135 | with no conditions the moderation listing's total is every item, while the public listing's total counts only active items |
| `ClaimQueries.SentBy` | server/routes/claimRoutes.js:81-84 | exactly the caller's claims, newest first |
| `ClaimQueries.ReceivedBy` | server/routes/claimRoutes.js:116-119 | exactly the claims whose finder is the caller, newest first |
| `ClaimQueries.SentOf` | server/routes/claimRoutes.js:87-97 | the finder is disclosed iff the claim is approved; otherwise it is reduced to id and username, and the redaction fails exactly when the finder is missing |
| `ClaimQueries.ProjectSent` | server/routes/claimRoutes.js:87-97 | the map fails iff one entry fails, and otherwise projects every claim in order |
| `ClaimQueries.ListSent` | server/routes/claimRoutes.js:79-109 | 500 exactly when an unapproved claim of the caller has a missing finder; otherwise entry i is the `SentOf` projection of the caller's i-th claim newest first, so the finder's contact details are present iff the claim is approved |
| `ClaimQueries.SentSucceeds` | server/routes/claimRoutes.js:89-95 | while every finder is stored, the sent listing succeeds and lists every claim the caller made |
| `ClaimQueries.ReceivedOf` | server/routes/claimRoutes.js:117-118 | a received entry keeps the claim; the claimer is null exactly when no user has the id and is otherwise that user's username, email and contact number; the item is the populated card of the claim's item (title, type, category and image URL), null exactly when the item is gone |
| `ClaimQueries.ListReceived` | server/routes/claimRoutes.js:114-131 | always 200: one entry per claim on the caller's items, newest first; entry i is the `ReceivedOf` population of the i-th of those claims, so it carries that claim's item card and the claimer populated and never redacted |
| `ClaimQueries.ReceivedDiscloses` | server/routes/claimRoutes.js:116-119 | while every claimant is stored, the finder sees each claimant's email and contact number, whatever the status |
| `AdminQueries.ComputeStats` | server/routes/adminRoutes.js:18-26 | the nine counts; lost + found = total items, active + resolved = total items, pending ≤ total claims |
| `AdminQueries.BannedAreRegular` | server/routes/adminRoutes.js:18-19 | because no admin is ever banned, the banned count never exceeds the count of role `user` |
| `AdminQueries.StatsResponse` | server/routes/adminRoutes.js:28-35 | the stats route answers 200 with those counts |
| `AdminQueries.Profiles` | server/routes/adminRoutes.js:63 | `select('-password')` keeps order and every other field |
| `AdminQueries.MatchingUsers` | server/routes/adminRoutes.js:62-64 | the users satisfying the query newest first: exactly the matching regular users, as a permutation of the filtered collection, as many as `countDocuments` counts |
| `AdminQueries.UsersWindow` | server/routes/adminRoutes.js:60-66 | the page of the user listing is the skip/limit window of the newest-first matches, so it holds only matching regular users, newest first, at most |limit| of them |
| `AdminQueries.UsersPage` | server/routes/adminRoutes.js:60-79 | 500 iff the skip is negative; otherwise the listed profiles are exactly those of the window of the newest-first matches, no admin is listed, and the totals count the matching regular users |
| `AdminQueries.ListUsers` | server/routes/adminRoutes.js:47-79 | the user listing with page 1 and limit 20 by default |
| `ReFind.Claimable` | server/routes/claimRoutes.js:18-54 | a claim passes the route's guards only on an existing active item not posted by the caller, with no claim of the caller on it; a missing item or any existing claim of the caller fails it |
| `ReFind.MayEdit` | server/routes/itemRoutes.js:153 | an admin may always edit or delete; a regular user exactly when they posted the item |
| `ReFind.Server.CreateClaim` | server/routes/claimRoutes.js:13-74 | the guards in order (404 missing item, 400 resolved, 400 own item, 400 any existing claim), then 500 for an invalid message; 201 iff all pass, adding exactly one pending claim whose finder is the item's poster at that moment; items and users never change |
| `ReFind.Server.AppendClaim` | server/routes/claimRoutes.js:57-62 | `Claim.create` stores exactly the new claim under a fresh id, and the claim index stays unique |
| `ReFind.Server.ApproveClaim` | server/routes/claimRoutes.js:136-178 | 404 missing claim, 403 unless the caller is the finder (nothing changes); otherwise only that claim becomes approved, whatever its status was, the referenced item is resolved, and the claimer is populated in the response |
| `ReFind.Server.MarkApproved` | server/routes/claimRoutes.js:156-160 | the approval writes: that claim approved, the referenced item resolved, the invariant kept |
| `ReFind.Server.RejectClaim` | server/routes/claimRoutes.js:183-216 | 404 missing claim, 403 unless the caller is the finder; otherwise only that claim becomes rejected, whatever its status was, and no item changes |
| `ReFind.Server.CreateItem` | server/routes/itemRoutes.js:112-136 | 201 iff the document validates, appending it posted by the caller; 500 otherwise with nothing stored |
| `ReFind.Server.AppendItem` | server/routes/itemRoutes.js:116-124 | `Item.create` stores exactly the new item under a fresh id and keeps every invariant |
| `ReFind.Server.UpdateItem` | server/routes/itemRoutes.js:141-185 | 404 missing, 403 unless poster or admin (nothing changes), 500 when the merged document does not validate, otherwise the item is replaced by the merge |
| `ReFind.Server.ReplaceItem` | server/routes/itemRoutes.js:173 | `item.save()` rewrites one item under the same id and poster and keeps every invariant |
| `ReFind.Server.DeleteItem` | server/routes/itemRoutes.js:190-221 | 404 missing, 403 unless poster or admin; otherwise the item is removed and every claim stays |
| `ReFind.Server.Signup` | server/routes/authRoutes.js:11-57 | 400 with the conflict message; 500 when a required field is empty; 201 iff neither, appending exactly one regular, unbanned user and answering without a password |
| `ReFind.Server.UpdateProfile` | server/routes/authRoutes.js:138-159 | the merged user replaces the caller's record unless another user has that username (500, nothing changes) |
| `ReFind.Server.BanUser` | server/routes/adminRoutes.js:91-124 | 404 missing, 400 for an admin (unchanged); otherwise `isBanned` flips and the message says "banned" iff the new flag is set |
| `ReFind.Server.AdminDeleteItem` | server/routes/adminRoutes.js:168-195 | 404 missing; otherwise every claim on the item is removed, claims on other items are untouched, then the item is removed |
| `ReFind.Server.AdminRequest` | server/routes/adminRoutes.js:9-11 | a request the gate denies gets the gate's answer and changes nothing; an admitted one runs the route |
| `Disclosure.ItemPageLeaksContact` | server/routes/itemRoutes.js:85-88 | while a claim is pending, the claimant's sent listing shows the finder as id and username only, yet the public item page gives the same finder's email and contact number |
| `Disclosure.RedactedItemPageAgrees` | server/routes/claimRoutes.js:89-95 | the corrected item page shows of the poster exactly what the redacted sent listing shows |
| `Walkthrough.ApprovalRevealsContact` | server/routes/claimRoutes.js:79-178 | sign up, post, claim, list, approve, list: the finder's contact details appear in the claimant's listing only after approval, and the item is then resolved |
| `Walkthrough.RejectionBlocksReclaim` | server/routes/claimRoutes.js:44-54 | after a rejection, a second claim by the same user on the same active item is refused with 400 |

## Left out

- HTTP and Express plumbing is not modelled: routing, JSON encoding, the `success` flag, `toObject`, the rate limiters, and multer's storage. An uploaded file appears only as the file name it was given.
- The JWT is not modelled. Signing is left out and a `Session` carries no token. Verification is the `verify` parameter, and the `console.error` logging is left out.
- bcrypt, the password hashing and the `matchPassword` method are not modelled. `server/models/User.js` is not part of this model. A user keeps one password value, and the `matchPassword` parameter compares against it.
- The User record follows `server/scripts/seedAdmin.js:17-24`: required username, email and password; a unique username and email; role default `user`; `isBanned` default false. Other validators User.js may have are not modelled.
- Login's `select('+password')` shows that the password path is hidden by default. The documents returned by `me`, profile and ban are therefore modelled without it.
- Regex matching is not modelled. `location`, `search` and the user search are the `matches` parameter, an uninterpreted predicate.
- `parseInt` is not modelled: `page` and `limit` arrive as integers or absent. NaN, non-numeric text and arrays of query values are not modelled.
- Malformed ObjectIds are not modelled. Ids are abstract naturals, so the CastError that would give 500 cannot occur.
- A request field absent and a request field empty are the same thing here; body values that are not strings are not modelled. As a result a login or signup without an email looks for the empty email, which no stored user has. Mongoose's own treatment of `{ email: undefined }` filters is not modelled.
- Timestamps are not generated: `createdAt` is a parameter and `updatedAt` is not kept.
- MongoDB leaves the order of equal `createdAt` keys open. The model keeps the collection order for ties, and its contracts state only "newest first" and "a permutation".
- Populated posters in lists are not returned. The public listing's `populate('posted_by', 'username')` and the moderation listing's 'username email' are left out, and those listings return the item documents.
- Concurrency is not modelled; each request is one atomic step. The check-then-insert race in claim creation is out, as are the non-atomic claim save and item update on approval. So is any duplicate-key error on the claim index, which sequential requests cannot reach.
- The failure messages of Mongoose and MongoDB are not modelled word for word. A ValidationError, a duplicate key and a negative skip each answer 500 with one fixed message, and other store exceptions are left out.
- Strings are sequences of code points. JavaScript counts `maxlength` in UTF-16 code units, so characters outside the Basic Multilingual Plane count once here and twice there.
- `generateToken`, `server/server.js`, `server/config/db.js`, the seed script's own logic and the `client/` sources are not part of this model.
- No route deletes users. Every user reference therefore stays linked; it is part of `Valid()`, and the sent listing's TypeError path cannot occur (`ClaimQueries.SentSucceeds`).
- Login and `me` read state without changing it and are functions over the user collection, not `Server` methods. The user-facing listings and the item page are functions in the same way.
- ReFind.Server.AdminRequest: for the ban and delete routes the dispatcher states only which collections stay unchanged. What those routes do is stated on `BanUser` and `AdminDeleteItem`, which it calls.

## Findings

| source | as written | input that shows it | evidently intended | confidence | as-written member | corrected member |
|---|---|---|---|---|---|---|
| server/routes/itemRoutes.js:85-88 | the public `GET /api/items/:id` populates `posted_by` with 'username email contact_number' | B holds a pending claim on item I posted by A. B's `GET /api/claims/sent` shows A only as `{ _id, username }`, but an unauthenticated `GET /api/items/I` returns A's email and contact number | contact details reach a claimant only through an approved claim; the item page populates the poster's username only (the client's item page reads only `posted_by._id` and `posted_by.username`) | medium; not executed | `Disclosure.ItemPageLeaksContact` (over `ItemQueries.GetItem`) | `ItemQueries.GetItemRedacted` (with `Disclosure.RedactedItemPageAgrees`) |
