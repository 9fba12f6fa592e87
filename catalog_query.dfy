/**
 * The listing handler's query construction: the filter built from the
 * optional query parameters (a conjunction of typed clauses), the sort
 * directive parsed from "field:direction", and the order the storage layer
 * sorts by.
 */
module CatalogQuery {
  import opened Wrappers
  import opened ProductModel

  /** The query parameters of a listing request. A text parameter that is
      missing and one that is empty are the same (both falsy): "". Price
      bounds arrive already parsed; `Some(0.0)` is the non-empty text "0". */
  datatype Query = Query(
    search: string,
    category: string,
    minPrice: Option<real>,
    maxPrice: Option<real>,
    sort: string)

  const NoParameters: Query := Query("", "", None, None, "")

  /** The category value that stands for "no category filter". */
  const AllCategories: string := "all"

  /** One filter clause; a filter is their conjunction. */
  datatype Clause =
    | NameMatches(pattern: string)                   // case-insensitive pattern on `name`
    | CategoryIs(category: string)                   // exact equality on `category`
    | PriceWithin(min: Option<real>, max: Option<real>)  // inclusive bounds on `price`
  {
    /** Which field the clause constrains; the builder adds at most one per field. */
    function Field(): nat {
      match this
      case NameMatches(_) => 0
      case CategoryIs(_) => 1
      case PriceWithin(_, _) => 2
    }
  }

  /** ASCII lower-casing, used on both sides of a case-insensitive match. */
  function Lower(c: char): char {
    if 'A' <= c <= 'Z' then (c as int + 32) as char else c
  }

  function LowerText(s: string): (r: string)
    ensures |r| == |s| && forall i :: 0 <= i < |s| ==> r[i] == Lower(s[i])
  {
    seq(|s|, i requires 0 <= i < |s| => Lower(s[i]))
  }

  /** ASCII upper-casing. */
  function Upper(c: char): char {
    if 'a' <= c <= 'z' then (c as int - 32) as char else c
  }

  function UpperText(s: string): (r: string)
    ensures |r| == |s| && forall i :: 0 <= i < |s| ==> r[i] == Upper(s[i])
  {
    seq(|s|, i requires 0 <= i < |s| => Upper(s[i]))
  }

  /** `t` occurs in `s` starting at `i`. */
  predicate OccursAt(s: string, t: string, i: int) {
    0 <= i && i + |t| <= |s| && s[i..i + |t|] == t
  }

  /** `t` occurs somewhere in `s`. */
  predicate Contains(s: string, t: string) {
    exists i | 0 <= i <= |s| - |t| :: OccursAt(s, t, i)
  }

  /** An unanchored, case-insensitive pattern match of a pattern without
      metacharacters: substring containment after lower-casing. */
  predicate ContainsIgnoringCase(s: string, t: string) {
    Contains(LowerText(s), LowerText(t))
  }

  /** The name clause ignores case on either side: upper-casing the record's
      name or the search pattern never changes whether it matches. */
  lemma MatchIgnoresCase(s: string, t: string)
    ensures ContainsIgnoringCase(s, t) <==> ContainsIgnoringCase(UpperText(s), t)
    ensures ContainsIgnoringCase(s, t) <==> ContainsIgnoringCase(s, UpperText(t))
  {
    assert LowerText(UpperText(s)) == LowerText(s);
    assert LowerText(UpperText(t)) == LowerText(t);
  }

  /** Whether a record meets one clause. An empty pattern and an unbounded
      range admit every record; a name that matches is at least as long as
      the pattern. */
  predicate Satisfies(p: Product, c: Clause): (ok: bool)
    ensures c.NameMatches? && c.pattern == "" ==> ok
    ensures c.NameMatches? && ok ==> |c.pattern| <= |p.name|
    ensures c.PriceWithin? && c.min.None? && c.max.None? ==> ok
  {
    match c
    case NameMatches(t) =>
      assert t == "" ==> OccursAt(LowerText(p.name), LowerText(t), 0);
      ContainsIgnoringCase(p.name, t)
    case CategoryIs(k) => p.category == k
    case PriceWithin(lo, hi) =>
      (lo.None? || lo.value <= p.price) && (hi.None? || p.price <= hi.value)
  }

  /** Clauses combine by AND. */
  predicate Matches(p: Product, cs: seq<Clause>) {
    forall c | c in cs :: Satisfies(p, c)
  }

  /** The filter the listing handler builds: a name clause when `search` is
      truthy (the raw text, used as a pattern, not escaped), a category
      clause when `category` is truthy and not "all", and one price clause
      holding whichever bounds were given. */
  function BuildFilter(q: Query): (cs: seq<Clause>)
    ensures forall i, j :: 0 <= i < j < |cs| ==> cs[i].Field() < cs[j].Field()
    ensures NameMatches(q.search) in cs <==> q.search != ""
    ensures CategoryIs(q.category) in cs <==> q.category != "" && q.category != AllCategories
    ensures PriceWithin(q.minPrice, q.maxPrice) in cs <==> q.minPrice.Some? || q.maxPrice.Some?
    ensures forall c | c in cs ::
      c in [NameMatches(q.search), CategoryIs(q.category), PriceWithin(q.minPrice, q.maxPrice)]
  {
    (if q.search != "" then [NameMatches(q.search)] else [])
    + (if q.category != "" && q.category != AllCategories then [CategoryIs(q.category)] else [])
    + (if q.minPrice.Some? || q.maxPrice.Some? then [PriceWithin(q.minPrice, q.maxPrice)] else [])
  }

  /** Reference meaning of a listing query, stated on the parameters alone:
      an absent parameter constrains nothing, the others combine by AND. */
  predicate Admits(q: Query, p: Product) {
    && (q.search == "" || ContainsIgnoringCase(p.name, q.search))
    && (q.category == "" || q.category == AllCategories || p.category == q.category)
    && (q.minPrice.None? || p.price >= q.minPrice.value)
    && (q.maxPrice.None? || p.price <= q.maxPrice.value)
  }

  /** The built filter selects exactly what the query means. */
  lemma {:induction false} BuildFilterMeaning(q: Query, p: Product)
    ensures Matches(p, BuildFilter(q)) <==> Admits(q, p)
  {
    var cs := BuildFilter(q);
    if Matches(p, cs) {
      if q.search != "" { assert Satisfies(p, NameMatches(q.search)); }
      if q.category != "" && q.category != AllCategories { assert Satisfies(p, CategoryIs(q.category)); }
      if q.minPrice.Some? || q.maxPrice.Some? { assert Satisfies(p, PriceWithin(q.minPrice, q.maxPrice)); }
    }
  }

  /** No parameters: the filter is empty and every record matches. */
  lemma NoParametersMatchAll(p: Product)
    ensures BuildFilter(NoParameters) == []
    ensures Matches(p, BuildFilter(NoParameters))
  {
  }

  /** The name clause is a case-insensitive substring match: "phone" selects
      "Smartphone X" and not "Laptop". */
  lemma SearchIsCaseInsensitiveSubstring(p: Product, r: Product)
    requires p.name == "Smartphone X" && r.name == "Laptop"
    ensures Admits(NoParameters.(search := "phone"), p)
    ensures !Admits(NoParameters.(search := "PHONE"), r)
  {
    assert OccursAt(LowerText(p.name), LowerText("phone"), 5);
    assert LowerText("PHONE") == "phone";
    assert LowerText("Laptop") == "laptop";
    forall i | 0 <= i <= |"laptop"| - |"phone"|
      ensures !OccursAt("laptop", "phone", i)
    {
      assert "laptop"[i] != "phone"[0];
    }
  }

  // ---- sort directive ------------------------------------------------------

  /** `s` split at every `sep`, as String.prototype.split does. */
  function Split(s: string, sep: char): (parts: seq<string>)
    ensures |parts| >= 1
    ensures forall i | 0 <= i < |parts| :: sep !in parts[i]
    ensures Join(parts, sep) == s
  {
    if s == [] then [""]
    else if s[0] == sep then
      var rest := Split(s[1..], sep);
      assert Join([""] + rest, sep) == [sep] + Join(rest, sep) by {
        assert ([""] + rest)[1..] == rest;
      }
      assert s == [sep] + s[1..];
      [""] + rest
    else
      var rest := Split(s[1..], sep);
      var parts := [[s[0]] + rest[0]] + rest[1..];
      assert parts[1..] == rest[1..];
      assert Join(parts, sep) == [s[0]] + Join(rest, sep) by {
        if |rest| > 1 {
          calc {
            Join(parts, sep);
            ([s[0]] + rest[0]) + [sep] + Join(rest[1..], sep);
            [s[0]] + (rest[0] + [sep] + Join(rest[1..], sep));
            [s[0]] + Join(rest, sep);
          }
        }
      }
      assert s == [s[0]] + s[1..];
      parts
  }

  /** The parts rejoined with `sep` between them. */
  function Join(parts: seq<string>, sep: char): string
    requires |parts| >= 1
  {
    if |parts| == 1 then parts[0] else parts[0] + [sep] + Join(parts[1..], sep)
  }

  /** `h` is the text of `s` before its first `sep` (all of `s` when there is
      none). */
  predicate HeadBefore(s: string, sep: char, h: string) {
    |h| <= |s| && h == s[..|h|] && sep !in h && (|h| == |s| || s[|h|] == sep)
  }

  /** There is only one such text. */
  lemma HeadBeforeUnique(s: string, sep: char, h1: string, h2: string)
    requires HeadBefore(s, sep, h1) && HeadBefore(s, sep, h2)
    ensures h1 == h2
  {
  }

  /** The first part of a split is the text before the first separator;
      when there is a second part, the separator follows the first part and
      the second part is the text before the next separator. */
  lemma {:induction false} SplitHeads(s: string, sep: char)
    ensures HeadBefore(s, sep, Split(s, sep)[0])
    ensures |Split(s, sep)| > 1 <==> sep in s
    ensures |Split(s, sep)| > 1 ==>
      |Split(s, sep)[0]| < |s| && HeadBefore(s[|Split(s, sep)[0]| + 1..], sep, Split(s, sep)[1])
  {
    var parts := Split(s, sep);
    JoinHead(parts, sep);
    if |parts| > 1 {
      var h := parts[0];
      assert s == h + [sep] + Join(parts[1..], sep);
      assert s[|h| + 1..] == Join(parts[1..], sep);
      JoinHead(parts[1..], sep);
      assert sep in s by { assert s[|h|] == sep; }
    } else {
      assert s == parts[0];
    }
  }

  lemma {:induction false} JoinHead(parts: seq<string>, sep: char)
    requires |parts| >= 1 && forall i | 0 <= i < |parts| :: sep !in parts[i]
    ensures HeadBefore(Join(parts, sep), sep, parts[0])
    ensures |parts| > 1 <==> sep in Join(parts, sep)
  {
    var s := Join(parts, sep);
    if |parts| > 1 {
      assert s == parts[0] + [sep] + Join(parts[1..], sep);
      assert s[|parts[0]|] == sep;
      assert s[..|parts[0]|] == parts[0];
    } else {
      assert s == parts[0];
    }
  }

  datatype Direction = Ascending | Descending

  /** The sort object `{ field: 1 }` or `{ field: -1 }`. */
  datatype SortSpec = SortSpec(field: string, direction: Direction) {
    function Sign(): int {
      if direction == Descending then -1 else 1
    }
  }

  /** Newest first, when no directive is given. */
  const DefaultSort: SortSpec := SortSpec("createdAt", Descending)

  /** The listing handler's sort directive: the default for a falsy `sort`;
      otherwise `sort` split at ':', the first part naming the field and the
      second selecting descending order only when it is exactly "desc". */
  function ParseSort(sort: string): (spec: SortSpec)
    ensures sort == "" ==> spec == DefaultSort
    ensures sort != "" && ':' !in sort ==> spec == SortSpec(sort, Ascending)
  {
    if sort == "" then DefaultSort
    else
      var parts := Split(sort, ':');
      assert ':' !in sort ==> parts == [sort] by {
        if ':' !in sort { SplitHeads(sort, ':'); assert parts[0] == sort; }
      }
      SortSpec(parts[0], if |parts| > 1 && parts[1] == "desc" then Descending else Ascending)
  }

  /** The directive stated on the text itself: the field is the text before
      the first ':', and the order is descending exactly when the text
      between the first ':' and the next one (or the end) is "desc". */
  lemma {:induction false} ParseSortMeaning(sort: string)
    requires sort != ""
    ensures HeadBefore(sort, ':', ParseSort(sort).field)
    ensures ParseSort(sort).direction == Descending <==>
      |ParseSort(sort).field| < |sort| && HeadBefore(sort[|ParseSort(sort).field| + 1..], ':', "desc")
  {
    var parts := Split(sort, ':');
    SplitHeads(sort, ':');
    var f := parts[0];
    assert ParseSort(sort).field == f;
    if |f| < |sort| && HeadBefore(sort[|f| + 1..], ':', "desc") {
      assert ':' in sort by { assert sort[|f|] == ':'; }
      HeadBeforeUnique(sort[|f| + 1..], ':', "desc", parts[1]);
    }
  }

  /** "DESC" is not "desc": the order is ascending. */
  lemma UpperCaseDescIsAscending()
    ensures ParseSort("price:DESC") == SortSpec("price", Ascending)
  {
    AscendingUnlessDesc("price", "DESC", "price:DESC");
  }

  /** A directive "f:o" with colon-free `f` and `o` sorts by `f`, and
      ascending unless `o` is exactly "desc". */
  lemma AscendingUnlessDesc(f: string, o: string, sort: string)
    requires sort == f + ":" + o && ':' !in f && ':' !in o && o != "desc"
    ensures ParseSort(sort) == SortSpec(f, Ascending)
  {
    ParseSortMeaning(sort);
    var spec := ParseSort(sort);
    assert HeadBefore(sort, ':', f) by {
      assert sort[..|f|] == f;
      assert sort[|f|] == ':';
    }
    HeadBeforeUnique(sort, ':', spec.field, f);
    assert sort[|f| + 1..] == o;
  }

  /** "price:desc" sorts by price, highest first; a bare field name sorts
      ascending. */
  lemma PriceDescIsDescending()
    ensures ParseSort("price:desc") == SortSpec("price", Descending)
    ensures ParseSort("price") == SortSpec("price", Ascending)
  {
    DescendingWhenDescFollows("price", "price:desc");
  }

  /** The directive the client sends by default names the handler's own
      default order. */
  lemma CreatedAtDescIsDefault()
    ensures ParseSort("createdAt:desc") == DefaultSort
  {
    DescendingWhenDescFollows("createdAt", "createdAt:desc");
  }

  /** A directive "f:desc" with a colon-free `f` sorts by `f`, descending. */
  lemma DescendingWhenDescFollows(f: string, sort: string)
    requires sort == f + ":desc" && ':' !in f
    ensures ParseSort(sort) == SortSpec(f, Descending)
  {
    ParseSortMeaning(sort);
    var spec := ParseSort(sort);
    assert HeadBefore(sort, ':', f) by {
      assert sort[..|f|] == f;
      assert sort[|f|] == ':';
    }
    HeadBeforeUnique(sort, ':', spec.field, f);
    assert sort[|f| + 1..] == "desc";
  }

  // ---- the order the storage layer sorts by --------------------------------

  /** What a record sorts by under a field name. A field the record does not
      have sorts as missing. */
  datatype SortKey = Missing | Number(x: real) | Text(s: string) | Date(t: int)

  /** The paths of a stored record: its schema fields, its identifier and
      its two timestamps. The version key `__v` is 0 on every record, so
      sorting on it orders nothing; it sorts here like a missing path. */
  const SortablePaths: seq<string> :=
    ["name", "price", "image", "category", "description", "_id", "createdAt", "updatedAt"]

  /** Only the record's own paths give a key; a number key is the price, and
      each timestamp path is keyed by its own timestamp. */
  function KeyOf(field: string, p: Product): (r: SortKey)
    ensures r.Missing? <==> field !in SortablePaths
    ensures r.Number? ==> r.x == p.price
    ensures r.Date? ==> r.t == p.createdAt || r.t == p.updatedAt
    ensures field == "createdAt" ==> r == Date(p.createdAt)
    ensures field == "updatedAt" ==> r == Date(p.updatedAt)
  {
    if field == "name" then Text(p.name)
    else if field == "price" then Number(p.price)
    else if field == "image" then Text(p.image)
    else if field == "category" then Text(p.category)
    else if field == "description" then Text(p.description)
    else if field == "_id" then Text(p.id)
    else if field == "createdAt" then Date(p.createdAt)
    else if field == "updatedAt" then Date(p.updatedAt)
    else Missing
  }

  /** Keys of different kinds compare by kind: missing, numbers, text, dates. */
  function KindRank(k: SortKey): nat {
    match k
    case Missing => 0
    case Number(_) => 1
    case Text(_) => 2
    case Date(_) => 3
  }

  /** Lexicographic order on text, character by character. */
  predicate TextLe(a: string, b: string) {
    a == [] || (b != [] && (a[0] < b[0] || (a[0] == b[0] && TextLe(a[1..], b[1..]))))
  }

  predicate KeyLe(a: SortKey, b: SortKey) {
    match (a, b)
    case (Number(x), Number(y)) => x <= y
    case (Text(s), Text(t)) => TextLe(s, t)
    case (Date(s), Date(t)) => s <= t
    case _ => KindRank(a) <= KindRank(b)
  }

  lemma {:induction false} TextLeTotal(a: string, b: string)
    ensures TextLe(a, b) || TextLe(b, a)
  {
    if a != [] && b != [] && a[0] == b[0] {
      TextLeTotal(a[1..], b[1..]);
    }
  }

  lemma {:induction false} TextLeTransitive(a: string, b: string, c: string)
    requires TextLe(a, b) && TextLe(b, c)
    ensures TextLe(a, c)
  {
    if a != [] && a[0] == b[0] && b[0] == c[0] {
      TextLeTransitive(a[1..], b[1..], c[1..]);
    }
  }

  /** Any two keys compare one way or the other, and the order chains. */
  lemma KeyLeTotalOrder(a: SortKey, b: SortKey, c: SortKey)
    ensures KeyLe(a, b) || KeyLe(b, a)
    ensures KeyLe(a, b) && KeyLe(b, c) ==> KeyLe(a, c)
  {
    if a.Text? && b.Text? {
      TextLeTotal(a.s, b.s);
      if c.Text? && KeyLe(a, b) && KeyLe(b, c) {
        TextLeTransitive(a.s, b.s, c.s);
      }
    }
  }

  /** `a` may come before `b` in a result sorted by `spec`. */
  predicate InOrder(spec: SortSpec, a: Product, b: Product) {
    if spec.direction == Ascending then KeyLe(KeyOf(spec.field, a), KeyOf(spec.field, b))
    else KeyLe(KeyOf(spec.field, b), KeyOf(spec.field, a))
  }

  predicate SortedBy(s: seq<Product>, spec: SortSpec) {
    forall i, j | 0 <= i < j < |s| :: InOrder(spec, s[i], s[j])
  }

  /** Ascending by price is non-decreasing in price, descending is
      non-increasing. */
  lemma SortedByPrice(s: seq<Product>, d: Direction)
    requires SortedBy(s, SortSpec("price", d))
    ensures forall i, j | 0 <= i < j < |s| ::
      if d == Ascending then s[i].price <= s[j].price else s[i].price >= s[j].price
  {
    forall i, j | 0 <= i < j < |s|
      ensures if d == Ascending then s[i].price <= s[j].price else s[i].price >= s[j].price
    {
      assert InOrder(SortSpec("price", d), s[i], s[j]);
    }
  }

  /** A list sorted by the default directive is newest first. */
  lemma SortedByDefault(s: seq<Product>)
    requires SortedBy(s, DefaultSort)
    ensures forall i, j | 0 <= i < j < |s| :: s[i].createdAt >= s[j].createdAt
  {
    forall i, j | 0 <= i < j < |s| ensures s[i].createdAt >= s[j].createdAt {
      assert InOrder(DefaultSort, s[i], s[j]);
    }
  }

  /** `p` placed before the first element it may precede. */
  function InsertSorted(s: seq<Product>, p: Product, spec: SortSpec): (r: seq<Product>)
    ensures multiset(r) == multiset(s) + multiset{p}
  {
    if s == [] then [p]
    else if InOrder(spec, p, s[0]) then [p] + s
    else
      assert s == [s[0]] + s[1..];
      [s[0]] + InsertSorted(s[1..], p, spec)
  }

  /** `InOrder` is a total preorder for any directive. */
  lemma InOrderTotalPreorder(spec: SortSpec, a: Product, b: Product, c: Product)
    ensures InOrder(spec, a, b) || InOrder(spec, b, a)
    ensures InOrder(spec, a, b) && InOrder(spec, b, c) ==> InOrder(spec, a, c)
  {
    var f := spec.field;
    KeyLeTotalOrder(KeyOf(f, a), KeyOf(f, b), KeyOf(f, c));
    KeyLeTotalOrder(KeyOf(f, c), KeyOf(f, b), KeyOf(f, a));
  }

  /** A record that may precede every record of a sorted sequence may head it. */
  lemma ConsKeepsOrder(x: Product, rest: seq<Product>, spec: SortSpec)
    requires SortedBy(rest, spec)
    requires forall y | y in rest :: InOrder(spec, x, y)
    ensures SortedBy([x] + rest, spec)
  {
    var r := [x] + rest;
    forall i, j | 0 <= i < j < |r| ensures InOrder(spec, r[i], r[j]) {
      assert r[j] == rest[j - 1];
      if i == 0 {
        assert r[j] in rest;
      } else {
        assert r[i] == rest[i - 1];
      }
    }
  }

  lemma {:induction false} InsertSortedKeepsOrder(s: seq<Product>, p: Product, spec: SortSpec)
    requires SortedBy(s, spec)
    ensures SortedBy(InsertSorted(s, p, spec), spec)
  {
    if s == [] {
    } else if InOrder(spec, p, s[0]) {
      forall y | y in s ensures InOrder(spec, p, y) {
        var k :| 0 <= k < |s| && s[k] == y;
        if k > 0 {
          InOrderTotalPreorder(spec, p, s[0], y);
        }
      }
      ConsKeepsOrder(p, s, spec);
    } else {
      InsertSortedKeepsOrder(s[1..], p, spec);
      var rest := InsertSorted(s[1..], p, spec);
      InOrderTotalPreorder(spec, p, s[0], p);
      forall y | y in rest ensures InOrder(spec, s[0], y) {
        assert y in multiset(rest);
        if y != p {
          assert y in s[1..];
          var k :| 0 <= k < |s[1..]| && s[1..][k] == y;
          assert s[k + 1] == y;
        }
      }
      ConsKeepsOrder(s[0], rest, spec);
    }
  }

  /** No two records of the sequence share an identifier. */
  predicate IdsDistinct(s: seq<Product>) {
    forall i, j | 0 <= i < j < |s| :: s[i].id != s[j].id
  }

  lemma {:induction false} InsertSortedKeepsIdsDistinct(s: seq<Product>, p: Product, spec: SortSpec)
    requires IdsDistinct(s)
    requires forall x | x in s :: x.id != p.id
    ensures IdsDistinct(InsertSorted(s, p, spec))
  {
    if s == [] {
    } else if InOrder(spec, p, s[0]) {
      assert forall j | 0 <= j < |s| :: s[j] in s;
    } else {
      assert forall x | x in s[1..] :: x in s;
      InsertSortedKeepsIdsDistinct(s[1..], p, spec);
      var rest := InsertSorted(s[1..], p, spec);
      forall j | 0 <= j < |rest| ensures s[0].id != rest[j].id {
        assert rest[j] in multiset(rest);
        if rest[j] != p {
          assert rest[j] in s[1..];
          var k :| 0 <= k < |s[1..]| && s[1..][k] == rest[j];
          assert s[k + 1] == rest[j];
        }
      }
    }
  }
}
