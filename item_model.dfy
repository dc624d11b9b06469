/** The Item schema: enums, required fields, trimming, length limits and
    defaults, and the validation Mongoose runs when an item is created or
    saved. */
module ItemModel {
  import opened Common
  import opened Text

  datatype ItemType = Lost | Found
  datatype Category = Electronics | DocumentsIds | Keys | BagsWallets | Clothing | Books | Other
  datatype ItemStatus = Active | Resolved

  const MaxTitle := 100
  const MaxDescription := 1000

  /** A stored item document. `imageUrl` None is the schema's null default. */
  datatype Item = Item(
    id: Id,
    itemType: ItemType,
    title: string,
    category: Category,
    location: string,
    description: string,
    imageUrl: Option<string>,
    status: ItemStatus,
    postedBy: Id,
    createdAt: nat)

  function TypeName(t: ItemType): string {
    match t
    case Lost => "lost"
    case Found => "found"
  }

  function CategoryName(c: Category): string {
    match c
    case Electronics => "Electronics"
    case DocumentsIds => "Documents/IDs"
    case Keys => "Keys"
    case BagsWallets => "Bags/Wallets"
    case Clothing => "Clothing"
    case Books => "Books"
    case Other => "Other"
  }

  function StatusName(s: ItemStatus): string {
    match s
    case Active => "active"
    case Resolved => "resolved"
  }

  /** The enum check on `type`: exactly the listed names are accepted. */
  function ParseType(s: string): (r: Option<ItemType>)
    ensures r.Some? ==> TypeName(r.value) == s
    ensures r.None? ==> forall t :: TypeName(t) != s
  {
    if s == "lost" then Some(Lost) else if s == "found" then Some(Found) else None
  }

  /** The enum check on `category`. */
  function ParseCategory(s: string): (r: Option<Category>)
    ensures r.Some? ==> CategoryName(r.value) == s
    ensures r.None? ==> forall c :: CategoryName(c) != s
  {
    if s == "Electronics" then Some(Electronics)
    else if s == "Documents/IDs" then Some(DocumentsIds)
    else if s == "Keys" then Some(Keys)
    else if s == "Bags/Wallets" then Some(BagsWallets)
    else if s == "Clothing" then Some(Clothing)
    else if s == "Books" then Some(Books)
    else if s == "Other" then Some(Other)
    else None
  }

  /** The enum check on `status`. */
  function ParseStatus(s: string): (r: Option<ItemStatus>)
    ensures r.Some? ==> StatusName(r.value) == s
    ensures r.None? ==> forall t :: StatusName(t) != s
  {
    if s == "active" then Some(Active) else if s == "resolved" then Some(Resolved) else None
  }

  /** Every enum value is accepted under its own name. */
  lemma ParseNames(t: ItemType, c: Category, s: ItemStatus)
    ensures ParseType(TypeName(t)) == Some(t)
    ensures ParseCategory(CategoryName(c)) == Some(c)
    ensures ParseStatus(StatusName(s)) == Some(s)
  {
  }

  /** What the schema demands of a stored item beyond its enums. */
  predicate ValidItem(it: Item) {
    && IsTrimmed(it.title) && 1 <= |it.title| <= MaxTitle
    && IsTrimmed(it.location) && |it.location| >= 1
    && 1 <= |it.description| <= MaxDescription
  }

  /** The string values assigned to an item document's enum and text paths. */
  datatype ItemFields = ItemFields(
    itemType: string, title: string, category: string,
    location: string, description: string, status: string)

  /** Mongoose validation of a document: `title` and `location` are trimmed,
      then the required, enum and maxlength validators run. `description` is
      not trimmed. None is a ValidationError. */
  function Validate(id: Id, f: ItemFields, imageUrl: Option<string>, postedBy: Id, createdAt: nat): (r: Option<Item>)
    ensures r.Some? <==>
      && ParseType(f.itemType).Some? && ParseCategory(f.category).Some? && ParseStatus(f.status).Some?
      && 1 <= |Trim(f.title)| <= MaxTitle && |Trim(f.location)| >= 1
      && 1 <= |f.description| <= MaxDescription
    ensures r.Some? ==> ValidItem(r.value)
    ensures r.Some? ==> && TypeName(r.value.itemType) == f.itemType
                        && CategoryName(r.value.category) == f.category
                        && StatusName(r.value.status) == f.status
                        && r.value.title == Trim(f.title) && r.value.location == Trim(f.location)
                        && r.value.description == f.description
    ensures r.Some? ==> && r.value.id == id && r.value.imageUrl == imageUrl
                        && r.value.postedBy == postedBy && r.value.createdAt == createdAt
  {
    var t, c, s := ParseType(f.itemType), ParseCategory(f.category), ParseStatus(f.status);
    var title, location := Trim(f.title), Trim(f.location);
    if t.Some? && c.Some? && s.Some? && 1 <= |title| <= MaxTitle && |location| >= 1
       && 1 <= |f.description| <= MaxDescription
    then Some(Item(id, t.value, title, c.value, location, f.description, imageUrl, s.value, postedBy, createdAt))
    else None
  }

  /** `req.file ? '/uploads/' + req.file.filename : null` */
  function UploadUrl(file: Option<string>): (r: Option<string>)
    ensures file.None? <==> r.None?
    ensures file.Some? ==> r.value == "/uploads/" + file.value
  {
    match file
    case None => None
    case Some(name) => Some("/uploads/" + name)
  }

  /** The document `Item.create` stores: the status path is left to its
      default, `posted_by` is the caller. */
  function NewItem(id: Id, itemType: string, title: string, category: string, location: string,
                   description: string, file: Option<string>, postedBy: Id, now: nat): (r: Option<Item>)
    ensures r.Some? ==> ValidItem(r.value) && r.value.status == Active && r.value.postedBy == postedBy
    ensures r.Some? ==> r.value.imageUrl == UploadUrl(file) && r.value.id == id && r.value.createdAt == now
    ensures r.Some? <==>
      && ParseType(itemType).Some? && ParseCategory(category).Some?
      && 1 <= |Trim(title)| <= MaxTitle && |Trim(location)| >= 1
      && 1 <= |description| <= MaxDescription
    ensures r.Some? ==> && TypeName(r.value.itemType) == itemType
                        && CategoryName(r.value.category) == category
                        && r.value.title == Trim(title) && r.value.location == Trim(location)
                        && r.value.description == description
  {
    Validate(id, ItemFields(itemType, title, category, location, description, StatusName(Active)),
             UploadUrl(file), postedBy, now)
  }

  /** The item as PUT /api/items/:id saves it: each of type, title, category,
      location, description and status takes the given value when it is
      truthy and keeps the current one otherwise; a new file replaces the
      image; then the document is validated again. */
  function Merge(current: Item, given: ItemFields, file: Option<string>): (r: Option<Item>)
    ensures r.Some? ==> ValidItem(r.value)
    ensures r.Some? ==> && r.value.id == current.id && r.value.postedBy == current.postedBy
                        && r.value.createdAt == current.createdAt
    ensures r.Some? ==> r.value.imageUrl == if file.Some? then UploadUrl(file) else current.imageUrl
  {
    var f := ItemFields(
      OrElse(given.itemType, TypeName(current.itemType)),
      OrElse(given.title, current.title),
      OrElse(given.category, CategoryName(current.category)),
      OrElse(given.location, current.location),
      OrElse(given.description, current.description),
      OrElse(given.status, StatusName(current.status)));
    Validate(current.id, f, if file.Some? then UploadUrl(file) else current.imageUrl,
             current.postedBy, current.createdAt)
  }

  /** A falsy field keeps the current value, a truthy one replaces it. */
  lemma MergeFields(current: Item, given: ItemFields, file: Option<string>)
    requires ValidItem(current)
    requires Merge(current, given, file).Some?
    ensures var r := Merge(current, given, file).value;
      && r.itemType == (if Truthy(given.itemType) then ParseType(given.itemType).value else current.itemType)
      && r.title == (if Truthy(given.title) then Trim(given.title) else current.title)
      && r.category == (if Truthy(given.category) then ParseCategory(given.category).value else current.category)
      && r.location == (if Truthy(given.location) then Trim(given.location) else current.location)
      && r.description == (if Truthy(given.description) then given.description else current.description)
      && r.status == (if Truthy(given.status) then ParseStatus(given.status).value else current.status)
  {
    var r := Merge(current, given, file).value;
    ParseNames(current.itemType, current.category, current.status);
    TrimmedIsFixed(current.title);
    TrimmedIsFixed(current.location);
    if Truthy(given.itemType) {
      assert TypeName(r.itemType) == given.itemType;
    }
    if Truthy(given.category) {
      assert CategoryName(r.category) == given.category;
    }
    if Truthy(given.status) {
      assert StatusName(r.status) == given.status;
    }
  }

  /** Which updates are saved: the merged document validates exactly when
      every truthy field given is itself acceptable, since the fields kept
      from a valid item always are. */
  lemma MergeSucceeds(current: Item, given: ItemFields, file: Option<string>)
    requires ValidItem(current)
    ensures Merge(current, given, file).Some? <==>
      && (Truthy(given.itemType) ==> ParseType(given.itemType).Some?)
      && (Truthy(given.title) ==> 1 <= |Trim(given.title)| <= MaxTitle)
      && (Truthy(given.category) ==> ParseCategory(given.category).Some?)
      && (Truthy(given.location) ==> |Trim(given.location)| >= 1)
      && (Truthy(given.description) ==> |given.description| <= MaxDescription)
      && (Truthy(given.status) ==> ParseStatus(given.status).Some?)
  {
    ParseNames(current.itemType, current.category, current.status);
    TrimmedIsFixed(current.title);
    TrimmedIsFixed(current.location);
  }

  /** An update that supplies nothing leaves a valid item exactly as it was. */
  lemma MergeNothing(current: Item)
    requires ValidItem(current)
    ensures Merge(current, ItemFields("", "", "", "", "", ""), None) == Some(current)
  {
    ParseNames(current.itemType, current.category, current.status);
    TrimmedIsFixed(current.title);
    TrimmedIsFixed(current.location);
  }

  /** The position of the item with this id (`Item.findById`). */
  function ItemIndex(items: seq<Item>, id: Id): (r: Option<nat>)
    ensures r.Some? ==> r.value < |items| && items[r.value].id == id
    ensures r.None? <==> forall i :: 0 <= i < |items| ==> items[i].id != id
  {
    FindFirst(items, (it: Item) => it.id == id)
  }

  predicate DistinctItems(a: Item, b: Item) { a.id != b.id }

  /** The item collection: unique ids below the allocator, every item valid. */
  ghost predicate ItemStore(items: seq<Item>, nextId: nat) {
    && Pairwise(items, DistinctItems)
    && (forall i :: 0 <= i < |items| ==> items[i].id < nextId && ValidItem(items[i]))
  }

  /** With unique ids, the item found by id is the only one carrying it. */
  lemma ItemIndexUnique(items: seq<Item>, nextId: nat, id: Id, k: nat)
    requires ItemStore(items, nextId) && k < |items| && items[k].id == id
    ensures ItemIndex(items, id) == Some(k)
  {
  }

  /** `Item.findByIdAndUpdate(id, { status: 'resolved' })`: the item with
      that id is resolved, every other item is left as it was. */
  function ResolveItem(items: seq<Item>, id: Id): (r: seq<Item>)
    ensures |r| == |items|
    ensures forall i :: 0 <= i < |items| ==>
      r[i] == if ItemIndex(items, id) == Some(i) then items[i].(status := Resolved) else items[i]
  {
    match ItemIndex(items, id)
    case None => items
    case Some(j) => items[j := items[j].(status := Resolved)]
  }

  /** Resolving keeps the collection valid, and in a valid collection it
      resolves every item carrying the id. */
  lemma ResolveKeepsStore(items: seq<Item>, nextId: nat, id: Id)
    requires ItemStore(items, nextId)
    ensures ItemStore(ResolveItem(items, id), nextId)
    ensures forall i :: 0 <= i < |items| && items[i].id == id ==> ResolveItem(items, id)[i].status == Resolved
  {
    match ItemIndex(items, id)
    case None =>
    case Some(j) =>
      var x := items[j].(status := Resolved);
      assert ResolveItem(items, id) == items[j := x];
      ReplaceKeepsStore(items, nextId, j, x);
      ResolvesCarriers(items, nextId, id);
  }

  /** In a valid collection every item carrying the id is the one resolved. */
  lemma ResolvesCarriers(items: seq<Item>, nextId: nat, id: Id)
    requires ItemStore(items, nextId)
    ensures forall i :: 0 <= i < |items| && items[i].id == id ==> ResolveItem(items, id)[i].status == Resolved
  {
    forall i | 0 <= i < |items| && items[i].id == id ensures ResolveItem(items, id)[i].status == Resolved {
      ItemIndexUnique(items, nextId, id, i);
    }
  }

  /** Rewriting item k in place keeps the collection valid when the id is
      kept and the new document is valid. */
  lemma ReplaceKeepsStore(items: seq<Item>, nextId: nat, k: nat, x: Item)
    requires ItemStore(items, nextId) && k < |items| && x.id == items[k].id && ValidItem(x)
    ensures ItemStore(items[k := x], nextId)
  {
    PairwiseReplace(items, k, x, DistinctItems);
  }

  /** Appending an item with a fresh id keeps the collection valid. */
  lemma AppendKeepsStore(items: seq<Item>, nextId: nat, x: Item)
    requires ItemStore(items, nextId) && x.id == nextId && ValidItem(x)
    ensures ItemStore(items + [x], nextId + 1)
  {
    PairwiseAppend(items, x, DistinctItems);
  }

  /** `Item.findByIdAndDelete(id)`: every other item. */
  function WithoutItem(items: seq<Item>, id: Id): (r: seq<Item>)
    ensures forall i :: 0 <= i < |r| ==> r[i] in items && r[i].id != id
    ensures forall i :: 0 <= i < |items| && items[i].id != id ==> items[i] in r
  {
    Filter(items, (it: Item) => it.id != id)
  }

  lemma WithoutItemKeepsStore(items: seq<Item>, nextId: nat, id: Id)
    requires ItemStore(items, nextId)
    ensures ItemStore(WithoutItem(items, id), nextId)
  {
    FilterPairwise(items, (it: Item) => it.id != id, DistinctItems);
  }
}
