/**
 * The product listing service: the mock product model (`find`,
 * `findById`, `countDocuments`) over a catalogue of products, and the
 * `GET /` handler that turns query parameters into a filter, sorts the
 * matching products on one field and cuts out one page of them.
 *
 * Query parameters arrive already parsed: numbers are `real` or `int`
 * values, an absent parameter is `None`.
 */
module ProductApi {
  import opened Common
  import Sorting

  // ---------------------------------------------------------------------------
  // Products and the catalogue

  datatype ProductId = ProductId(hex: string)

  datatype Product = Product(
    id: ProductId,
    name: string,
    description: string,
    price: real,
    category: string,
    stockQuantity: int,
    createdAt: string,
    updatedAt: string)

  /** The module's fixed catalogue. */
  const Catalogue: seq<Product> := [
    Product(ProductId("61fa9bcf5c130b2e6d675432"), "Wireless Headphones",
      "High-quality wireless headphones with noise cancellation", 89.99, "electronics", 45,
      "2023-02-01T15:32:47Z", "2023-03-15T09:21:08Z"),
    Product(ProductId("61fa9bcf5c130b2e6d675433"), "Smartphone Case",
      "Protective case for smartphones", 19.99, "accessories", 200,
      "2023-02-02T10:11:33Z", "2023-02-02T10:11:33Z"),
    Product(ProductId("61fa9bcf5c130b2e6d675435"), "Bluetooth Speaker",
      "Portable bluetooth speaker with 20 hour battery life", 49.99, "electronics", 32,
      "2023-01-25T14:22:19Z", "2023-03-10T11:05:24Z"),
    Product(ProductId("61fa9bcf5c130b2e6d675439"), "T-Shirt",
      "Cotton t-shirt with logo", 24.99, "clothing", 150,
      "2023-01-15T08:27:13Z", "2023-01-15T08:27:13Z")
  ]

  // ---------------------------------------------------------------------------
  // Filters

  /** `{ $gte, $lte }` on the price. */
  datatype PriceFilter = PriceFilter(gte: Option<real>, lte: Option<real>)

  /** `{ $gt }` on the stock quantity. */
  datatype StockFilter = StockFilter(gt: Option<int>)

  /** A filter object; an absent key is `None`. */
  datatype Filter = Filter(
    category: Option<string>,
    price: Option<PriceFilter>,
    stockQuantity: Option<StockFilter>)

  const NoFilter := Filter(None, None, None)

  /** The category condition is active only for a non-empty (truthy) string. */
  predicate CategoryActive(category: Option<string>) {
    category.Some? && category.value != ""
  }

  /** `p` passes every condition the filter sets. */
  predicate Matches(f: Filter, p: Product) {
    && (CategoryActive(f.category) ==> p.category == f.category.value)
    && (f.price.Some? && f.price.value.gte.Some? ==> p.price >= f.price.value.gte.value)
    && (f.price.Some? && f.price.value.lte.Some? ==> p.price <= f.price.value.lte.value)
    && (f.stockQuantity.Some? && f.stockQuantity.value.gt.Some? ==> p.stockQuantity > f.stockQuantity.value.gt.value)
  }

  /** `Array.prototype.filter`: the elements of `s` that `keep` accepts, in order. */
  function Select(s: seq<Product>, keep: Product -> bool): (r: seq<Product>)
    ensures |r| <= |s|
    ensures forall p :: p in r <==> p in s && keep(p)
  {
    if s == [] then []
    else
      var rest := Select(s[1..], keep);
      assert forall p :: p in s <==> p == s[0] || p in s[1..];
      if keep(s[0]) then [s[0]] + rest else rest
  }

  /** Filtering twice is filtering once by both conditions. */
  lemma {:induction false} SelectTwice(s: seq<Product>, keep: Product -> bool, also: Product -> bool)
    ensures Select(Select(s, keep), also) == Select(s, p => keep(p) && also(p))
  {
    if s != [] {
      SelectTwice(s[1..], keep, also);
      if keep(s[0]) {
        assert Select([s[0]] + Select(s[1..], keep), also)
            == (if also(s[0]) then [s[0]] else []) + Select(Select(s[1..], keep), also)
        by {
          assert ([s[0]] + Select(s[1..], keep))[1..] == Select(s[1..], keep);
        }
      }
    }
  }

  /** A condition every element passes keeps the whole sequence. */
  lemma {:induction false} SelectAll(s: seq<Product>, keep: Product -> bool)
    requires forall p :: p in s ==> keep(p)
    ensures Select(s, keep) == s
  {
    if s != [] {
      assert forall p :: p in s[1..] ==> p in s;
      SelectAll(s[1..], keep);
    }
  }

  function KeepCategory(f: Filter): Product -> bool {
    (p: Product) => CategoryActive(f.category) ==> p.category == f.category.value
  }

  function KeepMinPrice(f: Filter): Product -> bool {
    (p: Product) => f.price.Some? && f.price.value.gte.Some? ==> p.price >= f.price.value.gte.value
  }

  function KeepMaxPrice(f: Filter): Product -> bool {
    (p: Product) => f.price.Some? && f.price.value.lte.Some? ==> p.price <= f.price.value.lte.value
  }

  function KeepInStock(f: Filter): Product -> bool {
    (p: Product) => f.stockQuantity.Some? && f.stockQuantity.value.gt.Some? ==> p.stockQuantity > f.stockQuantity.value.gt.value
  }

  /**
   * `ProductModel.find`: starting from a copy of the catalogue, the
   * category, minimum price, maximum price and stock conditions are
   * applied one after another, each only when the filter sets it.
   */
  function Find(products: seq<Product>, f: Filter): (results: seq<Product>)
    ensures |results| <= |products|
    ensures forall p :: p in results <==> p in products && Matches(f, p)
  {
    var byCategory := if CategoryActive(f.category) then Select(products, KeepCategory(f)) else products;
    var byMin := if f.price.Some? && f.price.value.gte.Some? then Select(byCategory, KeepMinPrice(f)) else byCategory;
    var byMax := if f.price.Some? && f.price.value.lte.Some? then Select(byMin, KeepMaxPrice(f)) else byMin;
    if f.stockQuantity.Some? && f.stockQuantity.value.gt.Some? then Select(byMax, KeepInStock(f)) else byMax
  }

  /** A step that the filter does not set changes nothing. */
  lemma SkippedStep(s: seq<Product>, keep: Product -> bool, active: bool)
    requires !active ==> forall p :: keep(p)
    ensures (if active then Select(s, keep) else s) == Select(s, keep)
  {
    if !active {
      SelectAll(s, keep);
    }
  }

  /**
   * The successive filters of `find` select exactly the products that
   * pass all conditions, in catalogue order: nothing that matches is lost.
   */
  lemma FindIsConjunction(products: seq<Product>, f: Filter)
    ensures Find(products, f) == Select(products, p => Matches(f, p))
  {
    var c, lo, hi, st := KeepCategory(f), KeepMinPrice(f), KeepMaxPrice(f), KeepInStock(f);
    SkippedStep(products, c, CategoryActive(f.category));
    var s1 := Select(products, c);
    SkippedStep(s1, lo, f.price.Some? && f.price.value.gte.Some?);
    SelectTwice(products, c, lo);
    var k2 := (p: Product) => c(p) && lo(p);
    var s2 := Select(products, k2);
    SkippedStep(s2, hi, f.price.Some? && f.price.value.lte.Some?);
    SelectTwice(products, k2, hi);
    var k3 := (p: Product) => k2(p) && hi(p);
    var s3 := Select(products, k3);
    SkippedStep(s3, st, f.stockQuantity.Some? && f.stockQuantity.value.gt.Some?);
    SelectTwice(products, k3, st);
    var k4 := (p: Product) => k3(p) && st(p);
    assert Find(products, f) == Select(products, k4);
    SameSelection(products, k4, p => Matches(f, p));
  }

  /** Two conditions that agree everywhere select the same elements. */
  lemma {:induction false} SameSelection(s: seq<Product>, keep: Product -> bool, same: Product -> bool)
    requires forall p :: keep(p) == same(p)
    ensures Select(s, keep) == Select(s, same)
  {
    if s != [] {
      SameSelection(s[1..], keep, same);
    }
  }

  /** With no filter, `find` returns the whole catalogue. */
  lemma FindWithoutFilter(products: seq<Product>)
    ensures Find(products, NoFilter) == products
  {
  }

  /** `ProductModel.findById`: the first product with that id, or null. */
  function FindById(products: seq<Product>, id: ProductId): (found: Option<Product>)
    ensures found.None? <==> forall p :: p in products ==> p.id != id
    ensures found.Some? ==>
      exists i :: 0 <= i < |products| && products[i] == found.value && found.value.id == id
        && forall j :: 0 <= j < i ==> products[j].id != id
  {
    if products == [] then None
    else if products[0].id == id then Some(products[0])
    else
      var rest := FindById(products[1..], id);
      assert forall p :: p in products <==> p == products[0] || p in products[1..];
      if rest.Some? then
        ghost var i :| 0 <= i < |products[1..]| && products[1..][i] == rest.value && rest.value.id == id
          && forall j :: 0 <= j < i ==> products[1..][j].id != id;
        assert products[i + 1] == rest.value;
        rest
      else rest
  }

  /** `ProductModel.countDocuments`: how many products `find` returns. */
  function CountDocuments(products: seq<Product>, f: Filter): (n: nat)
    ensures n <= |products|
    ensures n == 0 <==> forall p :: p in products ==> !Matches(f, p)
  {
    var results := Find(products, f);
    assert results != [] ==> results[0] in results;
    |results|
  }

  /** The count is the size of the matching subsequence. */
  lemma CountIsMatches(products: seq<Product>, f: Filter)
    ensures CountDocuments(products, f) == |Select(products, p => Matches(f, p))|
  {
    FindIsConjunction(products, f);
  }

  // ---------------------------------------------------------------------------
  // Building the filter from the query

  /** The query parameters of `GET /`, already parsed; `None` when absent. */
  datatype Query = Query(
    category: Option<string>,
    minPrice: Option<real>,
    maxPrice: Option<real>,
    sort: Option<string>,
    order: Option<string>,
    page: Option<int>,
    limit: Option<int>,
    inStock: Option<string>)

  const NoQuery := Query(None, None, None, None, None, None, None, None)

  function BuildFilter(q: Query): (f: Filter)
    ensures f.price.Some? <==> q.minPrice.Some? || q.maxPrice.Some?
    ensures f.stockQuantity.Some? <==> q.inStock == Some("true")
    ensures CategoryActive(f.category) <==> CategoryActive(q.category)
  {
    Filter(
      if CategoryActive(q.category) then q.category else None,
      if q.minPrice.Some? || q.maxPrice.Some? then Some(PriceFilter(q.minPrice, q.maxPrice)) else None,
      if q.inStock == Some("true") then Some(StockFilter(Some(0))) else None)
  }

  /** What the built filter means, in terms of the query itself. */
  lemma BuiltFilterMeaning(q: Query, p: Product)
    ensures Matches(BuildFilter(q), p) <==>
      && (CategoryActive(q.category) ==> p.category == q.category.value)
      && (q.minPrice.Some? ==> p.price >= q.minPrice.value)
      && (q.maxPrice.Some? ==> p.price <= q.maxPrice.value)
      && (q.inStock == Some("true") ==> p.stockQuantity > 0)
  {
  }

  // ---------------------------------------------------------------------------
  // Sorting on one field

  /** The product fields a `sort` parameter can name; any other name reads `undefined`. */
  datatype SortField = Id | Name | Description | Price | Category | StockQuantity | CreatedAt | UpdatedAt | Unknown

  function FieldNamed(name: string): SortField {
    match name
    case "_id" => Id
    case "name" => Name
    case "description" => Description
    case "price" => Price
    case "category" => Category
    case "stockQuantity" => StockQuantity
    case "createdAt" => CreatedAt
    case "updatedAt" => UpdatedAt
    case _ => Unknown
  }

  /** A field's value as the comparison operators see it. */
  datatype SortKey = Number(x: real) | Text(t: string) | Undefined

  function KeyOf(p: Product, field: SortField): SortKey {
    match field
    case Id => Text(p.id.hex)
    case Name => Text(p.name)
    case Description => Text(p.description)
    case Price => Number(p.price)
    case Category => Text(p.category)
    case StockQuantity => Number(p.stockQuantity as real)
    case CreatedAt => Text(p.createdAt)
    case UpdatedAt => Text(p.updatedAt)
    case Unknown => Undefined
  }

  /** JavaScript's `<` on two strings: character by character, a proper prefix first. */
  predicate TextBefore(a: string, b: string)
    decreases |a|
  {
    if a == [] then b != []
    else if b == [] then false
    else if a[0] != b[0] then a[0] < b[0]
    else TextBefore(a[1..], b[1..])
  }

  lemma {:induction false} TextBeforeIrreflexive(a: string)
    ensures !TextBefore(a, a)
    decreases |a|
  {
    if a != [] {
      TextBeforeIrreflexive(a[1..]);
    }
  }

  lemma {:induction false} TextBeforeTransitive(a: string, b: string, c: string)
    requires TextBefore(a, b) && TextBefore(b, c)
    ensures TextBefore(a, c)
    decreases |a|
  {
    if a != [] && a[0] == b[0] && b[0] == c[0] {
      TextBeforeTransitive(a[1..], b[1..], c[1..]);
    }
  }

  lemma {:induction false} TextBeforeTotal(a: string, b: string)
    ensures a == b || TextBefore(a, b) || TextBefore(b, a)
    decreases |a|
  {
    if a != [] && b != [] && a[0] == b[0] {
      TextBeforeTotal(a[1..], b[1..]);
      if a[1..] == b[1..] {
        assert a == [a[0]] + a[1..] && b == [b[0]] + b[1..];
      }
    }
  }

  /** `x < y` on two field values; `undefined` compares false with everything. */
  predicate KeyLess(x: SortKey, y: SortKey) {
    match (x, y)
    case (Number(a), Number(b)) => a < b
    case (Text(a), Text(b)) => TextBefore(a, b)
    case _ => false
  }

  /** Both keys come from the same field, so they are of the same kind. */
  predicate SameKind(x: SortKey, y: SortKey) {
    (x.Number? && y.Number?) || (x.Text? && y.Text?) || (x.Undefined? && y.Undefined?)
  }

  lemma KeyLessIsStrictWeakOrder(x: SortKey, y: SortKey, z: SortKey)
    requires SameKind(x, y) && SameKind(y, z)
    ensures !KeyLess(x, x)
    ensures KeyLess(x, y) && KeyLess(y, z) ==> KeyLess(x, z)
    ensures KeyLess(x, z) ==> KeyLess(x, y) || KeyLess(y, z)
  {
    if x.Text? {
      TextBeforeIrreflexive(x.t);
      if TextBefore(x.t, y.t) && TextBefore(y.t, z.t) {
        TextBeforeTransitive(x.t, y.t, z.t);
      }
      if TextBefore(x.t, z.t) && !TextBefore(x.t, y.t) {
        TextBeforeTotal(x.t, y.t);
        if TextBefore(y.t, x.t) {
          TextBeforeTransitive(y.t, x.t, z.t);
        }
      }
    }
  }

  /**
   * The comparator of the handler: for `asc`, `a` goes ahead of `b` when
   * `a[sort] < b[sort]`; otherwise when `a[sort] > b[sort]`.
   */
  function Ahead(field: SortField, ascending: bool): (Product, Product) -> bool {
    (a: Product, b: Product) =>
      if ascending then KeyLess(KeyOf(a, field), KeyOf(b, field))
      else KeyLess(KeyOf(b, field), KeyOf(a, field))
  }

  lemma AheadIsStrictWeakOrder(field: SortField, ascending: bool)
    ensures Sorting.StrictWeakOrder(Ahead(field, ascending))
  {
    var ahead := Ahead(field, ascending);
    forall a: Product, b: Product, c: Product
      ensures !ahead(a, a)
      ensures ahead(a, b) && ahead(b, c) ==> ahead(a, c)
      ensures ahead(a, c) ==> ahead(a, b) || ahead(b, c)
    {
      if ascending {
        KeyLessIsStrictWeakOrder(KeyOf(a, field), KeyOf(b, field), KeyOf(c, field));
      } else {
        KeyLessIsStrictWeakOrder(KeyOf(c, field), KeyOf(b, field), KeyOf(a, field));
        KeyLessIsStrictWeakOrder(KeyOf(a, field), KeyOf(a, field), KeyOf(a, field));
      }
    }
  }

  /** The products ordered on `field`, ties kept in their input order. */
  function SortProducts(products: seq<Product>, field: SortField, ascending: bool): (sorted: seq<Product>)
    ensures multiset(sorted) == multiset(products)
    ensures Sorting.Ordered(sorted, Ahead(field, ascending))
  {
    AheadIsStrictWeakOrder(field, ascending);
    Sorting.Sort(products, Ahead(field, ascending))
  }

  /** Sorted on price ascending, prices never decrease along the list. */
  lemma PriceAscending(products: seq<Product>)
    ensures var sorted := SortProducts(products, Price, true);
      forall i, j :: 0 <= i < j < |sorted| ==> sorted[i].price <= sorted[j].price
  {
    var sorted := SortProducts(products, Price, true);
    forall i, j | 0 <= i < j < |sorted| ensures sorted[i].price <= sorted[j].price {
      assert !Ahead(Price, true)(sorted[j], sorted[i]);
    }
  }

  /** Sorted on price in the default (descending) order, prices never increase. */
  lemma PriceDescending(products: seq<Product>)
    ensures var sorted := SortProducts(products, Price, false);
      forall i, j :: 0 <= i < j < |sorted| ==> sorted[i].price >= sorted[j].price
  {
    var sorted := SortProducts(products, Price, false);
    forall i, j | 0 <= i < j < |sorted| ensures sorted[i].price >= sorted[j].price {
      assert !Ahead(Price, false)(sorted[j], sorted[i]);
    }
  }

  /** Sorted on a text field ascending, the values never go backwards. */
  lemma TextAscending(products: seq<Product>, field: SortField)
    requires !(field.Price? || field.StockQuantity? || field.Unknown?)
    ensures var sorted := SortProducts(products, field, true);
      forall i, j :: 0 <= i < j < |sorted| ==> !TextBefore(KeyOf(sorted[j], field).t, KeyOf(sorted[i], field).t)
  {
    var sorted := SortProducts(products, field, true);
    forall i, j | 0 <= i < j < |sorted|
      ensures !TextBefore(KeyOf(sorted[j], field).t, KeyOf(sorted[i], field).t)
    {
      assert !Ahead(field, true)(sorted[j], sorted[i]);
    }
  }

  // ---------------------------------------------------------------------------
  // Pagination

  /** `Array.prototype.slice` index: negative counts from the end, clamped to the length. */
  function SliceIndex(i: int, length: nat): (k: nat)
    ensures k <= length
    ensures 0 <= i ==> k == Min(i, length)
    ensures i < 0 ==> k == Max(length + i, 0)
  {
    if i < 0 then Max(length + i, 0) else Min(i, length)
  }

  /** `s.slice(start, end)`: the elements from the start index up to, not including, the end index. */
  function JsSlice(s: seq<Product>, start: int, end: int): (r: seq<Product>)
    ensures |r| == Max(SliceIndex(end, |s|) - SliceIndex(start, |s|), 0)
    ensures forall i :: 0 <= i < |r| ==> r[i] == s[SliceIndex(start, |s|) + i]
    ensures start <= end ==> |r| <= end - start
  {
    var from, to := SliceIndex(start, |s|), SliceIndex(end, |s|);
    if from < to then s[from..to] else []
  }

  /** A slice of an ordered sequence is ordered and holds only elements of it. */
  lemma SliceOrdered(s: seq<Product>, start: int, end: int, ahead: (Product, Product) -> bool)
    requires Sorting.Ordered(s, ahead)
    ensures Sorting.Ordered(JsSlice(s, start, end), ahead)
    ensures forall p :: p in JsSlice(s, start, end) ==> p in s
  {
    var r, from := JsSlice(s, start, end), SliceIndex(start, |s|);
    forall i, j | 0 <= i < j < |r| ensures !ahead(r[j], r[i]) {
      assert r[i] == s[from + i] && r[j] == s[from + j];
    }
    forall p | p in r ensures p in s {
      var i :| 0 <= i < |r| && r[i] == p;
      assert s[from + i] == p;
    }
  }

  /** With non-negative bounds, a slice is the ordinary subsequence, cut at the length. */
  lemma SliceFromStart(s: seq<Product>, start: int, end: int)
    requires 0 <= start <= end
    ensures JsSlice(s, start, end) == s[Min(start, |s|)..Min(end, |s|)]
  {
  }

  /** `Math.ceil(a / b)` for a non-zero divisor. */
  function CeilDiv(a: int, b: int): (r: int)
    requires b != 0
    ensures b > 0 ==> (r - 1) * b < a <= r * b
    ensures b < 0 ==> r * b <= a < (r - 1) * b
  {
    if b > 0 then
      var d := a / b;
      assert a == d * b + a % b;
      if a % b == 0 then d else d + 1
    else
      var d := (-a) / (-b);
      assert -a == d * (-b) + (-a) % (-b);
      if (-a) % (-b) == 0 then d else d + 1
  }

  /** The response body of `GET /`; `pages` is `None` where JSON would show `Infinity`/`NaN` as null. */
  datatype Listing = Listing(products: seq<Product>, total: int, page: int, limit: int, pages: Option<int>)

  function PageOf(q: Query): int { q.page.GetOr(1) }

  function LimitOf(q: Query): int { q.limit.GetOr(20) }

  /** `(page - 1) * limit`. */
  function Skip(q: Query): (skip: int)
    ensures PageOf(q) >= 1 && LimitOf(q) >= 0 ==> skip >= 0
  {
    MultiplyNonNegative(PageOf(q) - 1, 0, LimitOf(q));
    (PageOf(q) - 1) * LimitOf(q)
  }

  /** `order === 'asc'`; any other order, and the default, is descending. */
  predicate Ascending(q: Query) { q.order.GetOr("desc") == "asc" }

  function SortFieldOf(q: Query): SortField { FieldNamed(q.sort.GetOr("createdAt")) }

  /** All products that pass the query's filter, in the order the query asks for. */
  function SortedMatches(catalogue: seq<Product>, q: Query): (sorted: seq<Product>)
    ensures forall p :: p in sorted <==> p in catalogue && Matches(BuildFilter(q), p)
    ensures Sorting.Ordered(sorted, Ahead(SortFieldOf(q), Ascending(q)))
    ensures |sorted| == CountDocuments(catalogue, BuildFilter(q))
  {
    var found := Find(catalogue, BuildFilter(q));
    var sorted := SortProducts(found, SortFieldOf(q), Ascending(q));
    assert forall p :: p in sorted <==> p in multiset(sorted);
    assert |sorted| == |multiset(sorted)| == |multiset(found)|;
    sorted
  }

  /** `Math.ceil(total / limit)`, or `None` for a zero limit. */
  function PageCount(total: int, limit: int): (pages: Option<int>)
    ensures pages.None? <==> limit == 0
    ensures limit > 0 ==> (pages.value - 1) * limit < total <= pages.value * limit
  {
    if limit == 0 then None else Some(CeilDiv(total, limit))
  }

  /**
   * The `GET /` handler: build the filter, find and sort the matching
   * products, cut out the page, and report the count and page total.
   */
  function ListProducts(catalogue: seq<Product>, q: Query): (listing: Listing)
    ensures forall p :: p in listing.products ==> p in catalogue && Matches(BuildFilter(q), p)
    ensures Sorting.Ordered(listing.products, Ahead(SortFieldOf(q), Ascending(q)))
    ensures listing.total == |Find(catalogue, BuildFilter(q))|
    ensures listing.limit >= 0 ==> |listing.products| <= listing.limit
  {
    var sorted := SortedMatches(catalogue, q);
    var skip, limit := Skip(q), LimitOf(q);
    SliceOrdered(sorted, skip, skip + limit, Ahead(SortFieldOf(q), Ascending(q)));
    var total := CountDocuments(catalogue, BuildFilter(q));
    Listing(JsSlice(sorted, skip, skip + limit), total, PageOf(q), limit, PageCount(total, limit))
  }

  lemma MultiplyNonNegative(a: int, b: int, c: int)
    ensures a >= b && c >= 0 ==> a * c >= b * c
  {
  }

  /** For page 1 and up, the page is the window starting at `(page-1)*limit`, at most `limit` long. */
  lemma PageWindow(catalogue: seq<Product>, q: Query)
    requires PageOf(q) >= 1 && LimitOf(q) >= 0
    ensures var sorted := SortedMatches(catalogue, q);
      ListProducts(catalogue, q).products == sorted[Min(Skip(q), |sorted|)..Min(Skip(q) + LimitOf(q), |sorted|)]
  {
    SliceFromStart(SortedMatches(catalogue, q), Skip(q), Skip(q) + LimitOf(q));
  }

  /** With a positive limit, `pages` is the number of pages needed to hold every match. */
  lemma PagesHoldAll(catalogue: seq<Product>, q: Query)
    requires LimitOf(q) > 0
    ensures var listing := ListProducts(catalogue, q);
      listing.pages.Some? && (listing.pages.value - 1) * listing.limit < listing.total <= listing.pages.value * listing.limit
  {
    var listing := ListProducts(catalogue, q);
    var total, limit := CountDocuments(catalogue, BuildFilter(q)), LimitOf(q);
    assert listing.total == total && listing.limit == limit;
    assert listing.pages == PageCount(total, limit);
  }

  /** A page past the last one is empty. */
  lemma PastLastPageIsEmpty(catalogue: seq<Product>, q: Query)
    requires LimitOf(q) > 0
    requires PageCount(CountDocuments(catalogue, BuildFilter(q)), LimitOf(q)).value < PageOf(q)
    ensures ListProducts(catalogue, q).products == []
  {
    var total, limit := CountDocuments(catalogue, BuildFilter(q)), LimitOf(q);
    var pages := PageCount(total, limit).value;
    assert total <= pages * limit;
    MultiplyNonNegative(PageOf(q) - 1, pages, limit);
    assert Skip(q) >= total;
    MultiplyNonNegative(pages, 0, limit);
    PageWindow(catalogue, q);
    var sorted := SortedMatches(catalogue, q);
    assert |sorted| == total;
    assert ListProducts(catalogue, q).products == sorted[|sorted|..|sorted|];
  }

  /**
   * With no query parameters and at most 20 products, the first page
   * shows every product and the total equals the number shown.
   */
  lemma DefaultListingShowsAll(catalogue: seq<Product>)
    requires |catalogue| <= 20
    ensures var listing := ListProducts(catalogue, NoQuery);
      |listing.products| == listing.total == |catalogue| && listing.pages == Some(if catalogue == [] then 0 else 1)
  {
    assert BuildFilter(NoQuery) == NoFilter;
    FindWithoutFilter(catalogue);
    var total := CountDocuments(catalogue, NoFilter);
    assert total == |catalogue|;
    assert Skip(NoQuery) == 0 && LimitOf(NoQuery) == 20;
    PageWindow(catalogue, NoQuery);
    var sorted := SortedMatches(catalogue, NoQuery);
    assert |sorted| == total;
    assert ListProducts(catalogue, NoQuery).products == sorted[0..|sorted|];
    if catalogue == [] {
      assert PageCount(total, 20) == Some(0);
    } else {
      assert 0 < total <= 20;
      assert PageCount(total, 20) == Some(1);
    }
  }

  /** The catalogue's own listing: four products on one page. */
  lemma CatalogueListing()
    ensures var listing := ListProducts(Catalogue, NoQuery);
      |listing.products| == listing.total == 4 && listing.pages == Some(1)
  {
    DefaultListingShowsAll(Catalogue);
  }

  /** `?category=electronics` keeps the headphones and the speaker, in catalogue order. */
  lemma ElectronicsExample()
    ensures Find(Catalogue, BuildFilter(NoQuery.(category := Some("electronics")))) == [Catalogue[0], Catalogue[2]]
  {
  }
}
