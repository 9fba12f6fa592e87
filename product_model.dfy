/**
 * The product record of the catalogue as the document schema declares it:
 * the closed category enumeration, the stored record, the draft a client
 * posts, the patch an update applies, and what the storage layer does with
 * them (defaults, required-field and enum validators, timestamps).
 */
module ProductModel {
  import opened Wrappers

  /** Identifiers are opaque strings handed out by the storage layer. */
  type Id = string

  /** The eleven values the schema's `category` enum admits. */
  datatype Category =
    | Electronics | Clothing | Books | HomeAndGarden | Sports | Beauty
    | Toys | Automotive | Health | FoodAndBeverages | Other

  /** The enum list, in the order the schema writes it. */
  const CategoryNames: seq<string> := [
    "Electronics", "Clothing", "Books", "Home & Garden", "Sports", "Beauty",
    "Toys", "Automotive", "Health", "Food & Beverages", "Other"
  ]

  /** Category given to a new record whose draft omits it. */
  const DefaultCategory: string := "Other"

  function CategoryName(c: Category): string {
    match c
    case Electronics => "Electronics"
    case Clothing => "Clothing"
    case Books => "Books"
    case HomeAndGarden => "Home & Garden"
    case Sports => "Sports"
    case Beauty => "Beauty"
    case Toys => "Toys"
    case Automotive => "Automotive"
    case Health => "Health"
    case FoodAndBeverages => "Food & Beverages"
    case Other => "Other"
  }

  /** The enum value a stored string denotes, if any. */
  function ParseCategory(s: string): (r: Option<Category>)
    ensures r.Some? ==> CategoryName(r.value) == s
  {
    if s == "Electronics" then Some(Electronics)
    else if s == "Clothing" then Some(Clothing)
    else if s == "Books" then Some(Books)
    else if s == "Home & Garden" then Some(HomeAndGarden)
    else if s == "Sports" then Some(Sports)
    else if s == "Beauty" then Some(Beauty)
    else if s == "Toys" then Some(Toys)
    else if s == "Automotive" then Some(Automotive)
    else if s == "Health" then Some(Health)
    else if s == "Food & Beverages" then Some(FoodAndBeverages)
    else if s == "Other" then Some(Other)
    else None
  }

  /** Membership in the schema's enum list. */
  predicate IsCategoryName(s: string) {
    s in CategoryNames
  }

  /** Each category's name is listed in the enum and parses back to it, so
      distinct categories have distinct names. */
  lemma CategoryRoundTrip(c: Category)
    ensures IsCategoryName(CategoryName(c))
    ensures ParseCategory(CategoryName(c)) == Some(c)
  {
  }

  /** A string parses exactly when the enum lists it; the list has eleven
      entries. */
  lemma CategoryParseIffListed(s: string)
    ensures ParseCategory(s).Some? <==> IsCategoryName(s)
    ensures |CategoryNames| == 11
  {
  }

  /** A stored product. `createdAt` and `updatedAt` are written by the
      storage layer only (milliseconds; any clock will do). */
  datatype Product = Product(
    id: Id,
    name: string,
    price: real,
    image: string,
    category: string,
    description: string,
    createdAt: int,
    updatedAt: int)

  /** A request body for create: every field may be missing (`None`). */
  datatype Draft = Draft(
    name: Option<string>,
    price: Option<real>,
    image: Option<string>,
    category: Option<string>,
    description: Option<string>)

  /** A request body for update: the fields it mentions overwrite the record. */
  datatype Patch = Patch(
    name: Option<string>,
    price: Option<real>,
    image: Option<string>,
    category: Option<string>,
    description: Option<string>)

  const EmptyPatch: Patch := Patch(None, None, None, None, None)

  /** JavaScript truthiness of an optional string: absent and "" are falsy. */
  predicate TextPresent(o: Option<string>) {
    o.Some? && o.value != ""
  }

  /** JavaScript truthiness of an optional number: absent and 0 are falsy. */
  predicate NumberPresent(o: Option<real>) {
    o.Some? && o.value != 0.0
  }

  /** The check both the create handler and the client store make before
      anything else: name, price, image and category must all be truthy. */
  predicate RequiredPresent(d: Draft): (ok: bool)
    ensures ok ==> d.name.Some? && d.price.Some? && d.image.Some? && d.category.Some?
    ensures ok ==> d.price.value != 0.0 && |d.name.value| > 0 && |d.image.value| > 0 && |d.category.value| > 0
  {
    TextPresent(d.name) && NumberPresent(d.price) && TextPresent(d.image) && TextPresent(d.category)
  }

  /** The required-field check refuses a zero price and empty strings. */
  lemma FalsyFieldsRejected(d: Draft)
    requires d.price == Some(0.0) || d.name == Some("") || d.image == Some("")
          || d.category == Some("") || d.name.None? || d.price.None?
          || d.image.None? || d.category.None?
    ensures !RequiredPresent(d)
  {
  }

  /** What the schema makes of a draft when the record is built and saved:
      defaults fill `category` ("Other") and `description` (""), then the
      `required` validators (a string must be non-empty, a number present)
      and the enum validator run; `None` when a validator rejects. */
  function Instantiate(d: Draft, id: Id, now: int): (r: Option<Product>)
    ensures r.Some? ==> r.value.id == id && r.value.createdAt == now && r.value.updatedAt == now
    ensures r.Some? ==> r.value.name != "" && r.value.image != "" && IsCategoryName(r.value.category)
    ensures r.Some? ==> Some(r.value.price) == d.price
    ensures d.name.None? || d.price.None? || d.image.None? ==> r.None?
  {
    var category := d.category.GetOr(DefaultCategory);
    var description := d.description.GetOr("");
    if !TextPresent(d.name) || d.price.None? || !TextPresent(d.image) then None
    else if !IsCategoryName(category) then None
    else Some(Product(id, d.name.value, d.price.value, d.image.value, category, description, now, now))
  }

  /** The schema's defaults: a draft that omits `category` is stored as
      "Other", one that omits `description` with "". */
  lemma InstantiateDefaults(d: Draft, id: Id, now: int)
    requires TextPresent(d.name) && d.price.Some? && TextPresent(d.image)
    ensures d.category.None? ==> Instantiate(d, id, now).Some? && Instantiate(d, id, now).value.category == "Other"
    ensures d.description.None? && Instantiate(d, id, now).Some? ==> Instantiate(d, id, now).value.description == ""
  {
  }

  /** A draft that passes the handlers' check is stored with its own fields:
      the `category` default is never used on that path, and the enum is the
      only schema validator that can still refuse it. */
  lemma CheckedDraftKeepsItsFields(d: Draft, id: Id, now: int)
    requires RequiredPresent(d)
    ensures Instantiate(d, id, now).Some? <==> IsCategoryName(d.category.value)
    ensures Instantiate(d, id, now).Some? ==>
      Instantiate(d, id, now).value == Product(id, d.name.value, d.price.value, d.image.value,
        d.category.value, d.description.GetOr(""), now, now)
  {
  }

  /** The handlers' check is strictly stronger than the schema: a zero price
      satisfies the schema's `required` but not the truthiness check. */
  lemma ZeroPriceOnlyHandlersRefuse(id: Id, now: int)
    ensures var d := Draft(Some("Pen"), Some(0.0), Some("pen.png"), Some("Books"), None);
      Instantiate(d, id, now).Some? && !RequiredPresent(d)
  {
    var d := Draft(Some("Pen"), Some(0.0), Some("pen.png"), Some("Books"), None);
    assert IsCategoryName("Books") by { assert CategoryNames[2] == "Books"; }
  }

  /** An update as the storage layer applies it without validators: each
      field the patch mentions overwrites the stored one, the identifier and
      `createdAt` stay, `updatedAt` becomes `now`. */
  function Merge(p: Product, patch: Patch, now: int): (r: Product)
    ensures r.id == p.id && r.createdAt == p.createdAt && r.updatedAt == now
  {
    p.(name := patch.name.GetOr(p.name),
       price := patch.price.GetOr(p.price),
       image := patch.image.GetOr(p.image),
       category := patch.category.GetOr(p.category),
       description := patch.description.GetOr(p.description),
       updatedAt := now)
  }

  /** Field by field: a patched field takes the patch's value, any other
      keeps the record's. */
  lemma MergeOverwritesOnlyPatched(p: Product, patch: Patch, now: int)
    ensures var r := Merge(p, patch, now);
      && (if patch.name.Some? then r.name == patch.name.value else r.name == p.name)
      && (if patch.price.Some? then r.price == patch.price.value else r.price == p.price)
      && (if patch.image.Some? then r.image == patch.image.value else r.image == p.image)
      && (if patch.category.Some? then r.category == patch.category.value else r.category == p.category)
      && (if patch.description.Some? then r.description == patch.description.value else r.description == p.description)
  {
  }

  /** Applying the same patch twice is applying it once; the empty patch
      only refreshes `updatedAt`. */
  lemma MergeIdempotent(p: Product, patch: Patch, now: int)
    ensures Merge(Merge(p, patch, now), patch, now) == Merge(p, patch, now)
    ensures Merge(p, EmptyPatch, now) == p.(updatedAt := now)
  {
  }

  /** No enum check on update: a patch can store a category the enum does
      not list, which `Instantiate` would have refused. */
  lemma MergeSkipsEnumCheck(p: Product, now: int)
    ensures var r := Merge(p, EmptyPatch.(category := Some("Gadgets")), now);
      r.category == "Gadgets" && !IsCategoryName(r.category)
  {
  }
}
