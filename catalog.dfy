/**
 * The product handlers of the catalogue service over an in-memory stand-in
 * for the product collection: list (filter, then sort), create, update,
 * delete and the distinct categories. A storage fault, which the handlers
 * catch, is a parameter; so are the identifier the storage layer assigns and
 * the clock it stamps records with.
 */
module Catalog {
  import opened Wrappers
  import opened ProductModel
  import opened CatalogQuery

  /** The `data` member of a response envelope. */
  datatype Data =
    | NoData                            // no `data` member
    | Null                              // `data: null`
    | Record(product: Product)
    | Records(products: seq<Product>)
    | Names(names: seq<string>)

  /** A response: HTTP status and the `{ success, data, message }` envelope. */
  datatype Response = Response(status: nat, success: bool, data: Data, message: Option<string>)

  const MissingFields: Response := Response(400, false, NoData, Some("please provide all required fields"))
  const ServerError: Response := Response(500, false, NoData, Some("server error"))
  const InvalidId: Response := Response(404, false, NoData, Some("Invalid product id"))
  const NotFound: Response := Response(404, false, NoData, Some("Product not found"))
  const Deleted: Response := Response(200, true, NoData, Some("Product deleted successfully"))

  /** The categories present among the stored records. */
  function PresentCategories(records: map<Id, Product>): (r: set<string>)
    ensures forall k | k in records :: records[k].category in r
    ensures r == {} <==> records == map[]
  {
    set k | k in records :: records[k].category
  }

  /** No value occurs twice. */
  predicate Distinct(s: seq<string>) {
    forall i, j | 0 <= i < j < |s| :: s[i] != s[j]
  }

  class Products {
    /** The collection: each record under its own identifier. */
    var records: map<Id, Product>

    /** The storage layer's identifier well-formedness check. */
    const ValidId: Id -> bool

    ghost predicate Valid()
      reads this
    {
      forall k | k in records :: records[k].id == k
    }

    constructor (validId: Id -> bool)
      ensures Valid() && records == map[] && ValidId == validId
    {
      records := map[];
      ValidId := validId;
    }

    /** The listing handler: every stored record the query admits, each
        once, in the order the sort directive asks for; an empty result is
        still a success. */
    method List(q: Query, fault: bool) returns (res: Response)
      requires Valid()
      ensures fault ==> res == ServerError
      ensures !fault ==> res.status == 200 && res.success && res.data.Records? && res.message.None?
      ensures !fault ==> forall x ::
        x in res.data.products <==> x.id in records && records[x.id] == x && Admits(q, x)
      ensures !fault ==> IdsDistinct(res.data.products)
      ensures !fault ==> SortedBy(res.data.products, ParseSort(q.sort))
    {
      if fault {
        return ServerError;
      }
      var found := Select(BuildFilter(q), ParseSort(q.sort));
      forall x ensures x in found <==> x.id in records && records[x.id] == x && Admits(q, x) {
        BuildFilterMeaning(q, x);
      }
      res := Response(200, true, Records(found), None);
    }

    /** The in-memory `find(filter).sort(spec)`: the matching records, each
        once, sorted. */
    method Select(filter: seq<Clause>, spec: SortSpec) returns (found: seq<Product>)
      requires Valid()
      ensures forall x :: x in found <==> x.id in records && records[x.id] == x && Matches(x, filter)
      ensures IdsDistinct(found)
      ensures SortedBy(found, spec)
    {
      var remaining := records.Keys;
      found := [];
      while remaining != {}
        invariant remaining <= records.Keys
        invariant forall x | x in found ::
          x.id in records && x.id !in remaining && records[x.id] == x && Matches(x, filter)
        invariant forall k | k in records && k !in remaining && Matches(records[k], filter) ::
          records[k] in found
        invariant IdsDistinct(found)
        invariant SortedBy(found, spec)
        decreases remaining
      {
        var k :| k in remaining;
        var p := records[k];
        if Matches(p, filter) {
          InsertSortedKeepsOrder(found, p, spec);
          InsertSortedKeepsIdsDistinct(found, p, spec);
          var next := InsertSorted(found, p, spec);
          forall x | x in next ensures x == p || x in found {
            assert x in multiset(next);
          }
          assert p in next by { assert p in multiset(next); }
          forall x | x in found ensures x in next {
            assert x in multiset(found);
            assert x in multiset(next);
          }
          found := next;
        }
        remaining := remaining - {k};
      }
    }

    /** The create handler: a draft with a falsy required field is refused
        with 400 and nothing is stored; otherwise the schema builds and
        validates the record under the identifier the storage layer assigns,
        and a validator's refusal or a storage fault is a 500. */
    method Create(draft: Draft, freshId: Id, now: int, fault: bool) returns (res: Response)
      requires Valid()
      requires freshId !in records && ValidId(freshId)
      modifies this
      ensures Valid()
      ensures !RequiredPresent(draft) ==> res == MissingFields && records == old(records)
      ensures RequiredPresent(draft) && (fault || Instantiate(draft, freshId, now).None?) ==>
        res == ServerError && records == old(records)
      ensures RequiredPresent(draft) && !fault && Instantiate(draft, freshId, now).Some? ==>
        var p := Instantiate(draft, freshId, now).value;
        res == Response(201, true, Record(p), None) && records == old(records)[freshId := p]
      ensures res.status == 201 ==> ValidId(res.data.product.id) && res.data.product.id in records
    {
      if !RequiredPresent(draft) {
        return MissingFields;
      }
      var built := Instantiate(draft, freshId, now);
      if fault || built.None? {
        return ServerError;
      }
      records := records[freshId := built.value];
      res := Response(201, true, Record(built.value), None);
    }

    /** The update handler: a malformed identifier is a 404 before anything
        else; a storage fault is reported as "Product not found"; an absent
        record is a success with `data: null`; otherwise the patch is merged
        with no enum or required-field validation and the new record is
        returned. */
    method Update(id: Id, patch: Patch, now: int, fault: bool) returns (res: Response)
      requires Valid()
      modifies this
      ensures Valid()
      ensures !ValidId(id) ==> res == InvalidId && records == old(records)
      ensures ValidId(id) && fault ==> res == NotFound && records == old(records)
      ensures ValidId(id) && !fault && id !in old(records) ==>
        res == Response(200, true, Null, None) && records == old(records)
      ensures ValidId(id) && !fault && id in old(records) ==>
        var p := Merge(old(records)[id], patch, now);
        records == old(records)[id := p] && res == Response(200, true, Record(p), None)
    {
      if !ValidId(id) {
        return InvalidId;
      }
      if fault {
        return NotFound;
      }
      if id !in records {
        return Response(200, true, Null, None);
      }
      var p := Merge(records[id], patch, now);
      records := records[id := p];
      res := Response(200, true, Record(p), None);
    }

    /** The delete handler: a malformed identifier or a storage fault is a
        404; otherwise the record is gone afterwards and the answer is the
        same success whether or not it was there, so deleting twice
        succeeds twice. */
    method Delete(id: Id, fault: bool) returns (res: Response)
      requires Valid()
      modifies this
      ensures Valid()
      ensures !ValidId(id) ==> res == InvalidId && records == old(records)
      ensures ValidId(id) && fault ==> res == NotFound && records == old(records)
      ensures ValidId(id) && !fault ==> res == Deleted && records == old(records) - {id}
    {
      if !ValidId(id) {
        return InvalidId;
      }
      if fault {
        return NotFound;
      }
      records := records - {id};
      res := Deleted;
    }

    /** The categories handler: each category present among the records,
        once, in no particular order. */
    method Categories(fault: bool) returns (res: Response)
      ensures fault ==> res == ServerError
      ensures !fault ==> res.status == 200 && res.success && res.data.Names? && res.message.None?
      ensures !fault ==> Distinct(res.data.names)
      ensures !fault ==> forall c :: c in res.data.names <==> c in PresentCategories(records)
    {
      if fault {
        return ServerError;
      }
      var remaining := records.Keys;
      var names: seq<string> := [];
      while remaining != {}
        invariant remaining <= records.Keys
        invariant Distinct(names)
        invariant forall c | c in names :: c in PresentCategories(records)
        invariant forall k | k in records && k !in remaining :: records[k].category in names
        decreases remaining
      {
        var k :| k in remaining;
        var c := records[k].category;
        if c !in names {
          names := names + [c];
        }
        remaining := remaining - {k};
      }
      res := Response(200, true, Names(names), None);
    }
  }
}
