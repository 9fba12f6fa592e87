# Product catalogue of the MERN shopping site, in Dafny

The shopping site keeps a catalogue of products (name, price, image URL,
category, description, creation and update timestamps) in a document store.
A small HTTP service lists the products, with search, category and price
filters and a sort directive. It also creates, updates and deletes products
and lists the categories in use. The browser keeps a client-side store that
holds the product list, the categories, a loading flag, an error message, the
search term and the filter panel's values. Each store action issues one
request and folds the reply into its state.

This project models these parts of that system:

- `product_model.dfy` (module `ProductModel`) models the document schema:
  - the closed list of eleven categories;
  - the defaults (`category` "Other", `description` "");
  - the `required` validators;
  - the automatic `createdAt`/`updatedAt` stamps;
  - the unvalidated field overwrite that an update performs.
- `catalog_query.dfy` (module `CatalogQuery`) models how the listing handler
  reads its query:
  - the filter is built as a list of typed clauses (name pattern, category
    equality, price range) joined by AND;
  - `Admits` gives the same meaning as a direct reference predicate;
  - the `field:order` sort directive is split at ':';
  - the order the store sorts by is a key order that follows the
    document store's type ordering.
- `catalog.dfy` (module `Catalog`) holds the handlers, as methods of the
  class `Products` over a map from identifier to record:
  - list, create, update, delete and distinct categories;
  - the storage layer's identifier check is a function fixed when the
    collection is built;
  - a storage fault (which the handlers catch) is a `fault` parameter;
  - the identifier the storage layer assigns and its clock are parameters
    too.
- `product_store.dfy` (module `ProductStore`) models the client store as the
  class `Store`, with one field per state entry:
  - the setters;
  - the listing parameters and URL;
  - create, fetch, fetch categories, delete and update.

  Every network reply is a `Reply<T>` parameter: a 2xx reply with its body, a
  non-2xx reply with the server's message, or a thrown error. Every action
  returns the request it would send.

`wrappers.dfy` holds the `Option` type.

Where a REST client would expect a different answer, the model follows the
code:

- An update of a well-formed identifier that has no record answers 200 with
  `data: null`, not "not found" (`Catalog.Products.Update`).
- A delete of such an identifier answers 200 "Product deleted successfully"
  (`Catalog.Products.Delete`).
- A storage fault during update or delete is reported as 404 "Product not
  found", not as a server error.
- No validator bounds the price from below, so a negative price is stored.
- The update path runs no validators, so it can store a category that the
  enum does not list (`ProductModel.MergeSkipsEnumCheck`).

## Model

| member | source | states |
|---|---|---|
| ProductModel.ParseCategory | backend/models/product.model.js:20-31 | a string that parses names exactly the category it parses to |
| ProductModel.CategoryRoundTrip | backend/models/product.model.js:20-31 | every category's name is in the enum list and parses back to that category, so names are distinct |
| ProductModel.CategoryParseIffListed | backend/models/product.model.js:17-34 | a string is a category exactly when the enum lists it; the enum has eleven entries |
| ProductModel.RequiredPresent | backend/controller/product.controller.js:46 | a draft that passes the truthiness check has all four required fields, a non-zero price and non-empty name, image and category |
| ProductModel.FalsyFieldsRejected | backend/controller/product.controller.js:46-48 | the required-field check refuses a zero price, an empty string, and any missing required field |
| ProductModel.Instantiate | backend/models/product.model.js:3-43 | a built record carries the assigned id, both timestamps equal to the clock, a non-empty name and image, a listed category and the draft's price; a draft without name, price or image is refused |
| ProductModel.InstantiateDefaults | backend/models/product.model.js:33-37 | a draft without category is stored as "Other", one without description gets "" |
| ProductModel.CheckedDraftKeepsItsFields | backend/controller/product.controller.js:46-53 | a draft that passes the handler's check is saved exactly when its category is listed, and is stored with its own fields (so the default category is never used on this path) |
| ProductModel.ZeroPriceOnlyHandlersRefuse | backend/controller/product.controller.js:46 | a price of 0 satisfies the schema but not the handler's truthiness check |
| ProductModel.Merge | backend/controller/product.controller.js:69 | an update keeps the id and `createdAt` and sets `updatedAt` to the clock |
| ProductModel.MergeOverwritesOnlyPatched | backend/controller/product.controller.js:69 | each patched field takes the patch's value; every other field keeps the stored one |
| ProductModel.MergeIdempotent | backend/controller/product.controller.js:69 | applying a patch twice is applying it once; an empty patch only refreshes `updatedAt` |
| ProductModel.MergeSkipsEnumCheck | backend/controller/product.controller.js:69 | an update can store a category the enum does not list |
| CatalogQuery.MatchIgnoresCase | backend/controller/product.controller.js:13 | for every name and every pattern, upper-casing either one never changes whether the name clause matches |
| CatalogQuery.Satisfies | backend/controller/product.controller.js:12-26 | an empty pattern and a price clause without bounds admit every record; a name that matches is at least as long as the pattern |
| CatalogQuery.BuildFilter | backend/controller/product.controller.js:9-26 | the name clause is present iff `search` is truthy, the category clause iff `category` is truthy and not "all", the price clause iff a bound is given; no other clause, each field at most once, in a fixed order |
| CatalogQuery.BuildFilterMeaning | backend/controller/product.controller.js:9-26 | a record satisfies every built clause exactly when the reference predicate `Admits` accepts it (case-insensitive name match, exact category, inclusive bounds) |
| CatalogQuery.NoParametersMatchAll | backend/controller/product.controller.js:9 | a query without parameters builds the empty filter, which every record satisfies |
| CatalogQuery.SearchIsCaseInsensitiveSubstring | backend/controller/product.controller.js:12-14 | "phone" finds "Smartphone X" and "PHONE" does not find "Laptop" |
| CatalogQuery.Split | backend/controller/product.controller.js:31 | splitting gives at least one part, no part contains the separator, and joining the parts gives the input back |
| CatalogQuery.HeadBeforeUnique | backend/controller/product.controller.js:31 | the text before the first separator is unique |
| CatalogQuery.SplitHeads | backend/controller/product.controller.js:31 | the first part is the text before the first ':'; there is a second part iff the input holds ':', and it is the text between the first and second ':' |
| CatalogQuery.JoinHead | backend/controller/product.controller.js:31 | joining puts the first part before the first separator, and the result holds a separator iff there are several parts |
| CatalogQuery.ParseSort | backend/controller/product.controller.js:29-33 | no directive gives `createdAt` descending; a directive without ':' sorts ascending by that field |
| CatalogQuery.ParseSortMeaning | backend/controller/product.controller.js:30-33 | the field is the text before the first ':'; the order is descending exactly when the text after it, up to the next ':', is "desc" |
| CatalogQuery.UpperCaseDescIsAscending | backend/controller/product.controller.js:32 | "price:DESC" sorts by price ascending (the comparison is case-sensitive) |
| CatalogQuery.AscendingUnlessDesc | backend/controller/product.controller.js:31-32 | any order word other than "desc" gives ascending order on the named field |
| CatalogQuery.PriceDescIsDescending | backend/controller/product.controller.js:31-32 | "price:desc" sorts by price descending and "price" ascending |
| CatalogQuery.CreatedAtDescIsDefault | backend/controller/product.controller.js:29-32 | "createdAt:desc" is the same directive as the default |
| CatalogQuery.DescendingWhenDescFollows | backend/controller/product.controller.js:31-32 | "field:desc" sorts descending on that field |
| CatalogQuery.KeyOf | backend/controller/product.controller.js:32-35 | a record has a sort key exactly on its own paths (the schema fields, `_id` and the two timestamps); any other field sorts as missing; a number key is the price; `createdAt` and `updatedAt` are keyed by their own timestamps |
| CatalogQuery.SortedByDefault | backend/controller/product.controller.js:29 | a list in the default order is newest first by `createdAt` |
| CatalogQuery.TextLeTotal | backend/controller/product.controller.js:35 | the text order compares any two strings |
| CatalogQuery.TextLeTransitive | backend/controller/product.controller.js:35 | the text order is transitive |
| CatalogQuery.KeyLeTotalOrder | backend/controller/product.controller.js:35 | the sort-key order (missing < number < text < date) is total and transitive |
| CatalogQuery.InOrderTotalPreorder | backend/controller/product.controller.js:35 | for either direction the record order is total and transitive |
| CatalogQuery.SortedByPrice | backend/controller/product.controller.js:32-35 | a list sorted by price has non-decreasing prices when ascending and non-increasing prices when descending |
| CatalogQuery.InsertSorted | backend/controller/product.controller.js:35 | insertion adds exactly the one record and keeps all others (multiset) |
| CatalogQuery.ConsKeepsOrder | backend/controller/product.controller.js:35 | a record ordered before all records of a sorted list may head it |
| CatalogQuery.InsertSortedKeepsOrder | backend/controller/product.controller.js:35 | insertion into a sorted list keeps it sorted |
| CatalogQuery.InsertSortedKeepsIdsDistinct | backend/controller/product.controller.js:35 | inserting a record with a new id keeps ids distinct |
| Catalog.PresentCategories | backend/controller/product.controller.js:96 | every stored record's category is among the present categories, and there are none exactly when there are no records |
| Catalog.Products.constructor | backend/models/product.model.js:45 | the collection starts empty, with the given identifier check |
| Catalog.Products.Select | backend/controller/product.controller.js:35 | the result is every stored record that satisfies the filter, each once, sorted by the directive |
| Catalog.Products.List | backend/controller/product.controller.js:4-41 | a fault gives 500 "server error"; otherwise 200 with exactly the stored records the query admits, no record twice, in the directive's order |
| Catalog.Products.Create | backend/controller/product.controller.js:43-58 | a falsy required field gives 400 and no write; a fault or a validator refusal gives 500 and no write; otherwise 201 with the built record, stored under its new id |
| Catalog.Products.Update | backend/controller/product.controller.js:60-75 | a malformed id gives 404 "Invalid product id"; a fault gives 404 "Product not found"; an absent record gives 200 with null data; otherwise the merged record is stored and returned |
| Catalog.Products.Delete | backend/controller/product.controller.js:77-91 | a malformed id gives 404 "Invalid product id"; a fault gives 404 "Product not found"; otherwise the id is removed (present or not) and the answer is 200 "Product deleted successfully" |
| Catalog.Products.Categories | backend/controller/product.controller.js:94-102 | a fault gives 500; otherwise 200 with every category in use, each exactly once |
| ProductStore.ErrorMessage | frontend/src/store/product.js:51-54 | a non-2xx reply reports the server's message when it is non-empty and the fallback otherwise; a thrown error reports its own message |
| ProductStore.ParamsFor | frontend/src/store/product.js:74-80 | at most one parameter per candidate, so at most five (`ParamsForMeaning` states which) |
| ProductStore.AppendKeepsRanks | frontend/src/store/product.js:76-80 | appending a later parameter keeps the parameters in order |
| ProductStore.ParamsForMembers | frontend/src/store/product.js:74-80 | the listing parameters are exactly the candidates that are sent |
| ProductStore.ParamsForOrdered | frontend/src/store/product.js:76-80 | the parameters appear in the order search, minPrice, maxPrice, sort, category |
| ProductStore.ParamsForMeaning | frontend/src/store/product.js:74-80 | each of search, minPrice, maxPrice and sort is sent exactly when non-empty, and category exactly when non-empty and not "all"; each carries the store's value; nothing else is sent; the order is fixed |
| ProductStore.QueryString | frontend/src/store/product.js:82 | a non-empty parameter list gives a non-empty query string |
| ProductStore.Url | frontend/src/store/product.js:82-83 | the URL is the bare path exactly when there are no parameters, and otherwise the path, '?' and the query string |
| ProductStore.WithoutId | frontend/src/store/product.js:131-134 | no product with the deleted id remains; every other product stays as often as before, in the same order |
| ProductStore.ReplaceById | frontend/src/store/product.js:163-168 | the list keeps its length; each entry with the updated id becomes the server's record and the others are unchanged |
| ProductStore.InitialListingRequest | frontend/src/store/product.js:9-14 | a fresh store's first listing sends only `sort=createdAt:desc`, which the handler reads as its own default |
| ProductStore.Store.constructor | frontend/src/store/product.js:3-14 | the initial state: empty lists, not loading, no error, empty search term, the default filters |
| ProductStore.Store.SetLoading | frontend/src/store/product.js:17 | sets `loading` only |
| ProductStore.Store.SetError | frontend/src/store/product.js:20 | sets `error` only |
| ProductStore.Store.ClearError | frontend/src/store/product.js:23 | clears `error` only |
| ProductStore.Store.SetSearchTerm | frontend/src/store/product.js:26 | sets `searchTerm` only |
| ProductStore.Store.SetFilters | frontend/src/store/product.js:29 | sets `filters` only |
| ProductStore.Store.SetProducts | frontend/src/store/product.js:31 | sets `products` only |
| ProductStore.Store.SetCategories | frontend/src/store/product.js:33 | sets `categories` only |
| ProductStore.Store.BeginRequest | frontend/src/store/product.js:36 | raises `loading` and clears `error` |
| ProductStore.Store.FailWith | frontend/src/store/product.js:63-64 | lowers `loading` and records the message in `error` |
| ProductStore.Store.QueryParams | frontend/src/store/product.js:74-80 | the parameters appended one by one are exactly the listing parameters of the current search term and filters |
| ProductStore.Store.CreateProduct | frontend/src/store/product.js:35-67 | a falsy required field fails with "Please fill in all required fields" and sends nothing; otherwise it posts the draft, appends the server's record on success, and on failure keeps the list and reports the server's message or "Failed to create product" |
| ProductStore.Store.FetchProducts | frontend/src/store/product.js:69-97 | requests the URL of the current listing parameters; on success shows the server's list; on failure keeps the list and reports the message or "Failed to fetch products" |
| ProductStore.Store.FetchCategories | frontend/src/store/product.js:99-113 | requests the categories path; on success replaces the categories; a failure changes nothing, not even `loading` or `error` |
| ProductStore.Store.DeleteProduct | frontend/src/store/product.js:115-141 | sends DELETE for the id; on success removes every product with that id and passes on the server's message; on failure keeps the list and reports the message or "Failed to delete product" |
| ProductStore.Store.UpdateProduct | frontend/src/store/product.js:143-175 | sends PUT with the body; on success replaces every product with that id by the server's record; on failure keeps the list and reports the message or "Failed to update product" |

## Left out

- CatalogQuery.Satisfies: the search term is matched as a literal substring with ASCII case folding. Regular-expression metacharacters and Unicode case folding are not modelled.
- CatalogQuery.KeyOf: the version key `__v` is treated as a missing path. It is 0 on every record, so both readings admit every order.
- CatalogQuery.KeyOf: sorting on a field path the document store rejects (empty, or `$`-prefixed other than `$natural`) would be a storage fault, which `fault` covers. It is not derived from the directive.
- Catalog.Products.List: `minPrice`/`maxPrice` arrive already parsed as numbers. `parseFloat` on text and NaN bounds are not modelled, and neither are array-valued query parameters.
- Catalog.Products.Select: records with equal sort keys come in an arbitrary order, which the storage layer also leaves unspecified.
- Catalog.Products.Update, Catalog.Products.Delete: identifiers are compared as the strings given. The storage layer casts a well-formed id to its 12-byte value first, so an upper-case hex spelling addresses the record stored under the lower-case spelling. That cast is not modelled: in the model such a spelling finds no record (update answers 200 with null data, delete removes nothing).
- Catalog.Products.Create: body fields arrive already typed as the schema types them, so JSON type coercion is not modelled. For example, a price sent as the string "0" passes the truthiness check and is then cast to the number 0, which the model cannot express. Only the five schema fields are read, so a client-supplied `_id` (stored under that id, or a duplicate-key 500) is not modelled either; the record is always stored under the identifier the storage layer assigns.
- Catalog.Products.constructor: `ObjectId.isValid` is kept abstract as the `ValidId` function. Identifier generation and the clock are parameters.
- The storage layer's I/O, connection and error details are a single `fault` flag. Console logging is not modelled.
- `null` values inside JSON bodies are not modelled; a draft or patch field is either given or absent.
- ProductStore.Store.UpdateProduct: the server's `data: null` reply for an absent record is not representable. The model's successful reply always carries a record.
- ProductStore.Url: percent-encoding of parameter values is not modelled; values are kept as typed.
- The asynchronous interleaving of store actions is not modelled. Each action runs to completion as one step, and fetch/JSON are replaced by the `Reply` parameter.
- Routing and server start-up (backend/server.js, backend/routes/product.route.js) are not part of this model. The route table does not register the categories handler.
- The UI components and pages, including search debouncing and totals shown on the home page, are not part of this model.
