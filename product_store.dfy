/**
 * The client's product store: the list of products and categories it shows,
 * the loading flag and error message, and the search term and filters it
 * turns into listing requests. Each operation that talks to the server takes
 * the server's reply as a parameter and returns the request it would issue.
 */
module ProductStore {
  import opened Wrappers
  import opened ProductModel
  import CatalogQuery

  /** The filter panel's values, all text as typed. */
  datatype Filters = Filters(minPrice: string, maxPrice: string, sortBy: string, category: string)

  const DefaultFilters: Filters := Filters("", "", "createdAt:desc", "all")

  /** One query-string parameter, before percent-encoding. */
  datatype Param = Param(key: string, value: string)

  /** A request the store issues. */
  datatype Request =
    | Get(url: string)
    | Post(url: string, draft: Draft)
    | Put(url: string, patch: Patch)
    | Delete(url: string)

  /** How a request ended: a 2xx reply and its parsed body; a non-2xx reply
      and the `message` of its body ("" when it has none); or a rejected
      fetch or body parse, with the error's message. */
  datatype Reply<T> =
    | Ok(data: T, message: Option<string>)
    | NotOk(reason: string)
    | Threw(reason: string)

  /** What create, delete and update resolve to. */
  datatype Ack = Ack(success: bool, message: Option<string>)

  const ProductsPath: string := "/api/products"
  const CategoriesPath: string := "/api/products/categories"
  const MissingFieldsMessage: string := "Please fill in all required fields"
  const CreatedMessage: string := "Product created successfully"

  /** The message a failed request leaves in `error`: the server's own
      message when it gave a non-empty one, else the operation's fallback. */
  function ErrorMessage<T>(reply: Reply<T>, fallback: string): (m: string)
    requires !reply.Ok?
    ensures m == reply.reason || m == fallback
    ensures reply.Threw? ==> m == reply.reason
    ensures reply.NotOk? && reply.reason != "" ==> m == reply.reason
    ensures reply.NotOk? && reply.reason == "" ==> m == fallback
    ensures reply.NotOk? && fallback != "" ==> m != ""
  {
    if reply.NotOk? && reply.reason == "" then fallback else reply.reason
  }

  // ---- listing request -----------------------------------------------------

  /** Every parameter the listing request could carry, in the order the
      store appends them. */
  function Candidates(searchTerm: string, filters: Filters): seq<Param> {
    [Param("search", searchTerm), Param("minPrice", filters.minPrice),
     Param("maxPrice", filters.maxPrice), Param("sort", filters.sortBy),
     Param("category", filters.category)]
  }

  /** A candidate is sent when its value is truthy, and the category only
      when it is not the "all" sentinel. */
  predicate Emitted(p: Param) {
    p.value != "" && (p.key != "category" || p.value != "all")
  }

  /** `[p]` when `b` holds, else nothing. */
  function When(b: bool, p: Param): seq<Param> {
    if b then [p] else []
  }

  /** The parameters of the listing request for a search term and filters:
      each candidate in turn, when it is emitted. */
  function ParamsFor(searchTerm: string, filters: Filters): (ps: seq<Param>)
    ensures |ps| <= 5
  {
    var cs := Candidates(searchTerm, filters);
    When(Emitted(cs[0]), cs[0]) + When(Emitted(cs[1]), cs[1]) + When(Emitted(cs[2]), cs[2])
    + When(Emitted(cs[3]), cs[3]) + When(Emitted(cs[4]), cs[4])
  }

  /** Position of a parameter name in the fixed order. */
  function KeyRank(key: string): nat {
    if key == "search" then 0
    else if key == "minPrice" then 1
    else if key == "maxPrice" then 2
    else if key == "sort" then 3
    else if key == "category" then 4
    else 5
  }

  predicate RanksIncrease(ps: seq<Param>) {
    forall i, j | 0 <= i < j < |ps| :: KeyRank(ps[i].key) < KeyRank(ps[j].key)
  }

  /** Appending a parameter of rank `n` after parameters of lower rank
      keeps the order. */
  lemma AppendKeepsRanks(ps: seq<Param>, p: Param, b: bool, n: nat)
    requires RanksIncrease(ps) && forall q | q in ps :: KeyRank(q.key) < n
    requires KeyRank(p.key) == n
    ensures RanksIncrease(ps + When(b, p))
    ensures forall q | q in ps + When(b, p) :: KeyRank(q.key) < n + 1
  {
    if b {
      forall i, j | 0 <= i < j < |ps + [p]| ensures KeyRank((ps + [p])[i].key) < KeyRank((ps + [p])[j].key) {
        if j == |ps| {
          assert (ps + [p])[i] in ps;
        }
      }
    }
  }

  /** The listing parameters are the emitted candidates. */
  lemma ParamsForMembers(searchTerm: string, filters: Filters)
    ensures forall q :: q in ParamsFor(searchTerm, filters) <==> q in Candidates(searchTerm, filters) && Emitted(q)
  {
    var cs := Candidates(searchTerm, filters);
    var w := seq(5, i requires 0 <= i < 5 => When(Emitted(cs[i]), cs[i]));
    assert ParamsFor(searchTerm, filters) == w[0] + w[1] + w[2] + w[3] + w[4];
    forall q ensures q in w[0] + w[1] + w[2] + w[3] + w[4] <==> exists i | 0 <= i < 5 :: q in w[i] {
    }
  }

  /** The listing parameters appear in the fixed order. */
  lemma ParamsForOrdered(searchTerm: string, filters: Filters)
    ensures RanksIncrease(ParamsFor(searchTerm, filters))
  {
    var cs := Candidates(searchTerm, filters);
    assert KeyRank(cs[0].key) == 0 && KeyRank(cs[1].key) == 1 && KeyRank(cs[2].key) == 2;
    assert KeyRank(cs[3].key) == 3 && KeyRank(cs[4].key) == 4;
    AppendKeepsRanks([], cs[0], Emitted(cs[0]), 0);
    var p0 := [] + When(Emitted(cs[0]), cs[0]);
    AppendKeepsRanks(p0, cs[1], Emitted(cs[1]), 1);
    var p1 := p0 + When(Emitted(cs[1]), cs[1]);
    AppendKeepsRanks(p1, cs[2], Emitted(cs[2]), 2);
    var p2 := p1 + When(Emitted(cs[2]), cs[2]);
    AppendKeepsRanks(p2, cs[3], Emitted(cs[3]), 3);
    var p3 := p2 + When(Emitted(cs[3]), cs[3]);
    AppendKeepsRanks(p3, cs[4], Emitted(cs[4]), 4);
    assert [] + When(Emitted(cs[0]), cs[0]) == When(Emitted(cs[0]), cs[0]);
  }

  /** The listing parameters: search, minPrice, maxPrice and sort exactly
      when non-empty, category exactly when non-empty and not "all", each
      with the store's value, nothing else, in that fixed order. */
  lemma ParamsForMeaning(searchTerm: string, filters: Filters)
    ensures var ps := ParamsFor(searchTerm, filters);
      && (Param("search", searchTerm) in ps <==> searchTerm != "")
      && (Param("minPrice", filters.minPrice) in ps <==> filters.minPrice != "")
      && (Param("maxPrice", filters.maxPrice) in ps <==> filters.maxPrice != "")
      && (Param("sort", filters.sortBy) in ps <==> filters.sortBy != "")
      && (Param("category", filters.category) in ps <==> filters.category != "" && filters.category != "all")
      && (forall p | p in ps :: p in Candidates(searchTerm, filters) && p.value != "")
      && RanksIncrease(ps)
  {
    ParamsForMembers(searchTerm, filters);
    ParamsForOrdered(searchTerm, filters);
    var cs := Candidates(searchTerm, filters);
    assert cs[0] in cs && cs[1] in cs && cs[2] in cs && cs[3] in cs && cs[4] in cs;
  }

  /** The parameters joined as "key=value" pairs with "&". */
  function QueryString(ps: seq<Param>): (qs: string)
    ensures ps != [] ==> |qs| > 0
  {
    if ps == [] then ""
    else ps[0].key + "=" + ps[0].value + (if |ps| == 1 then "" else "&" + QueryString(ps[1..]))
  }

  /** The listing URL: the bare path exactly when there are no parameters. */
  function Url(ps: seq<Param>): (u: string)
    ensures u == ProductsPath <==> ps == []
    ensures ps != [] ==> u == ProductsPath + "?" + QueryString(ps)
  {
    var qs := QueryString(ps);
    if qs != "" then ProductsPath + "?" + qs else ProductsPath
  }

  // ---- list updates --------------------------------------------------------

  /** `a` is `b` with some elements left out, the rest in the same order. */
  predicate IsSubsequence(a: seq<Product>, b: seq<Product>) {
    a == [] || (b != [] && ((a[0] == b[0] && IsSubsequence(a[1..], b[1..])) || IsSubsequence(a, b[1..])))
  }

  /** The list after deleting `pid`: every product with that identifier is
      gone, every other one stays as often as it was there, and their order
      is kept. */
  function WithoutId(ps: seq<Product>, pid: Id): (r: seq<Product>)
    ensures forall x | x in r :: x.id != pid
    ensures forall x :: multiset(r)[x] == if x.id == pid then 0 else multiset(ps)[x]
    ensures IsSubsequence(r, ps)
  {
    if ps == [] then []
    else
      assert ps == [ps[0]] + ps[1..];
      if ps[0].id == pid then WithoutId(ps[1..], pid)
      else [ps[0]] + WithoutId(ps[1..], pid)
  }

  /** The list after updating `pid`: same length, each product with that
      identifier replaced by `rec`, every other entry unchanged. */
  function ReplaceById(ps: seq<Product>, pid: Id, rec: Product): (r: seq<Product>)
    ensures |r| == |ps|
    ensures forall i | 0 <= i < |ps| :: r[i] == if ps[i].id == pid then rec else ps[i]
  {
    if ps == [] then []
    else [if ps[0].id == pid then rec else ps[0]] + ReplaceById(ps[1..], pid, rec)
  }

  /** The first listing request of a fresh store asks for the handler's
      default order and nothing else. */
  lemma InitialListingRequest()
    ensures ParamsFor("", DefaultFilters) == [Param("sort", "createdAt:desc")]
    ensures CatalogQuery.ParseSort(DefaultFilters.sortBy) == CatalogQuery.ParseSort("")
  {
    var cs := Candidates("", DefaultFilters);
    assert !Emitted(cs[0]) && !Emitted(cs[1]) && !Emitted(cs[2]);
    assert Emitted(cs[3]) && !Emitted(cs[4]);
    CatalogQuery.CreatedAtDescIsDefault();
  }

  class Store {
    var products: seq<Product>
    var categories: seq<string>
    var loading: bool
    var error: Option<string>
    var searchTerm: string
    var filters: Filters

    /** The initial state. */
    constructor ()
      ensures products == [] && categories == [] && !loading && error == None
      ensures searchTerm == "" && filters == DefaultFilters
    {
      products := [];
      categories := [];
      loading := false;
      error := None;
      searchTerm := "";
      filters := DefaultFilters;
    }

    method SetLoading(b: bool)
      modifies this`loading
      ensures loading == b
    {
      loading := b;
    }

    method SetError(e: Option<string>)
      modifies this`error
      ensures error == e
    {
      error := e;
    }

    method ClearError()
      modifies this`error
      ensures error == None
    {
      error := None;
    }

    method SetSearchTerm(t: string)
      modifies this`searchTerm
      ensures searchTerm == t
    {
      searchTerm := t;
    }

    method SetFilters(f: Filters)
      modifies this`filters
      ensures filters == f
    {
      filters := f;
    }

    method SetProducts(ps: seq<Product>)
      modifies this`products
      ensures products == ps
    {
      products := ps;
    }

    method SetCategories(cs: seq<string>)
      modifies this`categories
      ensures categories == cs
    {
      categories := cs;
    }

    /** What create, fetch, delete and update do before their request. */
    method BeginRequest()
      modifies this`loading, this`error
      ensures loading && error == None
    {
      loading, error := true, None;
    }

    /** The common error path. */
    method FailWith(message: string)
      modifies this`loading, this`error
      ensures !loading && error == Some(message)
    {
      loading, error := false, Some(message);
    }

    /** The listing parameters, appended one at a time. */
    method QueryParams() returns (ps: seq<Param>)
      ensures ps == ParamsFor(searchTerm, filters)
    {
      var t, f := searchTerm, filters;
      ghost var cs := Candidates(t, f);
      ps := [];
      if t != "" {
        ps := ps + [Param("search", t)];
      }
      ghost var upToSearch := ps;
      assert upToSearch == When(Emitted(cs[0]), cs[0]);
      if f.minPrice != "" {
        ps := ps + [Param("minPrice", f.minPrice)];
      }
      ghost var upToMin := ps;
      assert upToMin == upToSearch + When(Emitted(cs[1]), cs[1]);
      if f.maxPrice != "" {
        ps := ps + [Param("maxPrice", f.maxPrice)];
      }
      ghost var upToMax := ps;
      assert upToMax == upToMin + When(Emitted(cs[2]), cs[2]);
      if f.sortBy != "" {
        ps := ps + [Param("sort", f.sortBy)];
      }
      ghost var upToSort := ps;
      assert upToSort == upToMax + When(Emitted(cs[3]), cs[3]);
      if f.category != "" && f.category != "all" {
        ps := ps + [Param("category", f.category)];
      }
      assert ps == upToSort + When(Emitted(cs[4]), cs[4]);
    }

    /** Create: a draft with a falsy required field fails without a request;
        otherwise the server's record is appended on success. */
    method CreateProduct(draft: Draft, reply: Reply<Product>) returns (ack: Ack, sent: Option<Request>)
      modifies this`loading, this`error, this`products
      ensures !RequiredPresent(draft) ==>
        && sent == None && products == old(products)
        && !loading && error == Some(MissingFieldsMessage)
        && ack == Ack(false, Some(MissingFieldsMessage))
      ensures RequiredPresent(draft) ==> sent == Some(Post(ProductsPath, draft))
      ensures RequiredPresent(draft) && reply.Ok? ==>
        && products == old(products) + [reply.data]
        && !loading && error == None
        && ack == Ack(true, Some(CreatedMessage))
      ensures RequiredPresent(draft) && !reply.Ok? ==>
        var m := ErrorMessage(reply, "Failed to create product");
        && products == old(products)
        && !loading && error == Some(m)
        && ack == Ack(false, Some(m))
    {
      BeginRequest();
      if !RequiredPresent(draft) {
        FailWith(MissingFieldsMessage);
        return Ack(false, Some(MissingFieldsMessage)), None;
      }
      sent := Some(Post(ProductsPath, draft));
      if reply.Ok? {
        products, loading := products + [reply.data], false;
        ack := Ack(true, Some(CreatedMessage));
      } else {
        var m := ErrorMessage(reply, "Failed to create product");
        FailWith(m);
        ack := Ack(false, Some(m));
      }
    }

    /** Fetch: request the listing for the current search term and filters
        and show what the server returns. */
    method FetchProducts(reply: Reply<seq<Product>>) returns (sent: Request)
      modifies this`loading, this`error, this`products
      ensures sent == Get(Url(ParamsFor(searchTerm, filters)))
      ensures reply.Ok? ==> products == reply.data && !loading && error == None
      ensures !reply.Ok? ==>
        && products == old(products)
        && !loading && error == Some(ErrorMessage(reply, "Failed to fetch products"))
    {
      BeginRequest();
      var ps := QueryParams();
      sent := Get(Url(ps));
      if reply.Ok? {
        products, loading := reply.data, false;
      } else {
        FailWith(ErrorMessage(reply, "Failed to fetch products"));
      }
    }

    /** Fetch categories: neither `loading` nor `error` is touched, and a
        failure changes nothing. */
    method FetchCategories(reply: Reply<seq<string>>) returns (sent: Request)
      modifies this`categories
      ensures sent == Get(CategoriesPath)
      ensures reply.Ok? ==> categories == reply.data
      ensures !reply.Ok? ==> categories == old(categories)
    {
      sent := Get(CategoriesPath);
      if reply.Ok? {
        categories := reply.data;
      }
    }

    /** Delete: on success every product with identifier `pid` leaves the
        list; the server's message is passed on. */
    method DeleteProduct(pid: Id, reply: Reply<()>) returns (ack: Ack, sent: Request)
      modifies this`loading, this`error, this`products
      ensures sent == Delete(ProductsPath + "/" + pid)
      ensures reply.Ok? ==>
        && products == WithoutId(old(products), pid)
        && !loading && error == None
        && ack == Ack(true, reply.message)
      ensures !reply.Ok? ==>
        var m := ErrorMessage(reply, "Failed to delete product");
        && products == old(products)
        && !loading && error == Some(m)
        && ack == Ack(false, Some(m))
    {
      BeginRequest();
      sent := Delete(ProductsPath + "/" + pid);
      if reply.Ok? {
        products, loading := WithoutId(products, pid), false;
        ack := Ack(true, reply.message);
      } else {
        var m := ErrorMessage(reply, "Failed to delete product");
        FailWith(m);
        ack := Ack(false, Some(m));
      }
    }

    /** Update: on success every product with identifier `pid` is replaced
        by the server's record; the server's message is passed on. */
    method UpdateProduct(pid: Id, body: Patch, reply: Reply<Product>) returns (ack: Ack, sent: Request)
      modifies this`loading, this`error, this`products
      ensures sent == Put(ProductsPath + "/" + pid, body)
      ensures reply.Ok? ==>
        && products == ReplaceById(old(products), pid, reply.data)
        && !loading && error == None
        && ack == Ack(true, reply.message)
      ensures !reply.Ok? ==>
        var m := ErrorMessage(reply, "Failed to update product");
        && products == old(products)
        && !loading && error == Some(m)
        && ack == Ack(false, Some(m))
    {
      BeginRequest();
      sent := Put(ProductsPath + "/" + pid, body);
      if reply.Ok? {
        products, loading := ReplaceById(products, pid, reply.data), false;
        ack := Ack(true, reply.message);
      } else {
        var m := ErrorMessage(reply, "Failed to update product");
        FailWith(m);
        ack := Ack(false, Some(m));
      }
    }
  }
}
