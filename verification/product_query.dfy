/**
 * The query descriptors the product handlers build: the listing, the
 * single-concept demonstration endpoints under /products/q and the
 * combined search.
 */
module ProductQuery {
  import opened Js
  import opened Query

  /** The query string of `GET /products/search`. */
  datatype ProductSearch = ProductSearch(
    keyword: Param,
    category: Param,
    minPrice: Param,
    maxPrice: Param,
    inStock: Param,
    sort: Param,
    order: Param)

  const SearchSortFields: seq<string> := ["name", "price", "stock", "createdAt"]
  const DemoSortFields: seq<string> := ["id", "name", "price", "stock", "createdAt"]

  /** `isActive: true` */
  const ActiveOnly: Cond := Equals(Flag(true))

  const Zero: Scalar := Num(Some(0.0))

  function ContainsFilter(p: Param): Option<Cond> {
    if Given(p) then Some(ContainsInsensitive(p.value)) else None
  }

  /** `inStock === 'true'` gives `stock > 0`, `'false'` gives `stock <= 0`; anything else, nothing. */
  function StockFilter(inStock: Param): Option<Cond> {
    if inStock == Some("true") then Some(Compare(map[Gt := Zero]))
    else if inStock == Some("false") then Some(Compare(map[Lte := Zero]))
    else None
  }

  /** The search's own stock rule: only 'true' filters. */
  function SearchStockFilter(inStock: Param): Option<Cond> {
    if inStock == Some("true") then Some(Compare(map[Gt := Zero])) else None
  }

  /** GET /products: the active products, newest first. */
  function ListProducts(): FindMany {
    FindMany(map["isActive" := ActiveOnly], Some(OrderBy("createdAt", Desc)))
  }

  /** GET /products/q/price-range: the `price` key is always there, `{}` when neither bound is given. */
  function QPriceRange(min: Param, max: Param): FindMany {
    RangeQuery("price", min, max)
  }

  /** GET /products/q/stock-filter */
  function QStockFilter(inStock: Param): (q: FindMany)
    ensures q.orderBy.None?
    ensures q.where.Keys == if inStock == Some("true") || inStock == Some("false") then {"stock"} else {}
  {
    FindMany(Put(map[], "stock", StockFilter(inStock)), None)
  }

  /** GET /products/q/category: a case-insensitive `contains` on category when it is given. */
  function QCategory(category: Param): (q: FindMany)
    ensures q.orderBy.None?
    ensures q.where.Keys == if Given(category) then {"category"} else {}
  {
    FindMany(Put(map[], "category", ContainsFilter(category)), None)
  }

  /** GET /products/q/sort: `req.query.by || 'id'`, then the allow-list with `id` as fallback. */
  function QSort(sortBy: Param, dir: Param): FindMany {
    SortQuery(DemoSortFields, sortBy, dir)
  }

  /** The text filters of the search: keyword on name, and category. */
  function TextWhere(p: ProductSearch): Where {
    var w := Put(map[], "name", ContainsFilter(p.keyword));
    Put(w, "category", ContainsFilter(p.category))
  }

  /** The text filters, then the price range. */
  function RangeWhere(p: ProductSearch): Where {
    Put(TextWhere(p), "price", NumberRange(p.minPrice, p.maxPrice))
  }

  /** The text filters, the price range, then the stock filter. */
  function StockWhere(p: ProductSearch): Where {
    Put(RangeWhere(p), "stock", SearchStockFilter(p.inStock))
  }

  function SearchWhere(p: ProductSearch): Where {
    StockWhere(p)["isActive" := ActiveOnly]
  }

  /**
   * GET /products/search. `isActive = true` is always there; only
   * `inStock === 'true'` filters the stock; the sort field is one of the four
   * allowed, with `name` for anything else.
   */
  function SearchProducts(p: ProductSearch): (q: FindMany)
    ensures q.where.Keys <= {"name", "category", "price", "stock", "isActive"}
    ensures "isActive" in q.where && q.where["isActive"] == ActiveOnly
    ensures "name" in q.where <==> Given(p.keyword)
    ensures "category" in q.where <==> Given(p.category)
    ensures "price" in q.where <==> Given(p.minPrice) || Given(p.maxPrice)
    ensures "stock" in q.where <==> p.inStock == Some("true")
    ensures q.orderBy.Some? && q.orderBy.value.field in SearchSortFields
    ensures p.sort.Some? && p.sort.value in SearchSortFields ==> q.orderBy.value.field == p.sort.value
    ensures !(p.sort.Some? && p.sort.value in SearchSortFields) ==> q.orderBy.value.field == "name"
    ensures q.orderBy.value.dir == Desc <==> p.order == Some("desc")
  {
    FindMany(SearchWhere(p), Some(OrderBy(AllowListed(SearchSortFields, p.sort, "name"), SortDirection(p.order))))
  }

  // ---------------------------------------------------------------------------
  // What the descriptors select
  // ---------------------------------------------------------------------------

  predicate InStock(row: Row) {
    "stock" in row && row["stock"].Num? && row["stock"].n.Some? && row["stock"].n.value > 0.0
  }

  predicate OutOfStock(row: Row) {
    "stock" in row && row["stock"].Num? && row["stock"].n.Some? && row["stock"].n.value <= 0.0
  }

  /** The rows a product search is meant to return, stated without descriptors. */
  predicate SearchIntent(p: ProductSearch, row: Row) {
    && (Given(p.keyword) ==> TextHas(row, "name", p.keyword.value))
    && (Given(p.category) ==> TextHas(row, "category", p.category.value))
    && (Given(p.minPrice) ==> NumberAtLeast(row, "price", p.minPrice.value))
    && (Given(p.maxPrice) ==> NumberAtMost(row, "price", p.maxPrice.value))
    && (p.inStock == Some("true") ==> InStock(row))
    && FieldIs(row, "isActive", Flag(true))
  }

  /** A row matches the search exactly when it is active and meets every filter the request gives. */
  lemma SearchProductsMeaning(p: ProductSearch, row: Row)
    ensures Matches(SearchProducts(p).where, row) <==> SearchIntent(p, row)
  {
    SearchWhereMeaning(p, row);
  }

  lemma SearchWhereMeaning(p: ProductSearch, row: Row)
    ensures Matches(SearchWhere(p), row) <==> SearchIntent(p, row)
  {
    StockWhereMeaning(p, row);
    MatchesPut(StockWhere(p), "isActive", Some(ActiveOnly), row);
    assert SearchWhere(p) == Put(StockWhere(p), "isActive", Some(ActiveOnly));
  }

  lemma StockWhereMeaning(p: ProductSearch, row: Row)
    ensures Matches(StockWhere(p), row)
        <==> ((Given(p.keyword) ==> TextHas(row, "name", p.keyword.value))
          && (Given(p.category) ==> TextHas(row, "category", p.category.value))
          && (Given(p.minPrice) ==> NumberAtLeast(row, "price", p.minPrice.value))
          && (Given(p.maxPrice) ==> NumberAtMost(row, "price", p.maxPrice.value))
          && (p.inStock == Some("true") ==> InStock(row)))
  {
    RangeWhereMeaning(p, row);
    MatchesPut(RangeWhere(p), "stock", SearchStockFilter(p.inStock), row);
    SingleBoundMeaning("stock", Gt, Zero, row);
  }

  lemma RangeWhereMeaning(p: ProductSearch, row: Row)
    ensures Matches(RangeWhere(p), row)
        <==> ((Given(p.keyword) ==> TextHas(row, "name", p.keyword.value))
          && (Given(p.category) ==> TextHas(row, "category", p.category.value))
          && (Given(p.minPrice) ==> NumberAtLeast(row, "price", p.minPrice.value))
          && (Given(p.maxPrice) ==> NumberAtMost(row, "price", p.maxPrice.value)))
  {
    TextWhereMeaning(p, row);
    MatchesPut(TextWhere(p), "price", NumberRange(p.minPrice, p.maxPrice), row);
    NumberBoundsMeaning(p.minPrice, p.maxPrice, "price", row);
  }

  lemma TextWhereMeaning(p: ProductSearch, row: Row)
    ensures Matches(TextWhere(p), row)
        <==> ((Given(p.keyword) ==> TextHas(row, "name", p.keyword.value))
          && (Given(p.category) ==> TextHas(row, "category", p.category.value)))
  {
    var w1 := Put(map[], "name", ContainsFilter(p.keyword));
    MatchesPut(map[], "name", ContainsFilter(p.keyword), row);
    MatchesPut(w1, "category", ContainsFilter(p.category), row);
  }

  /** Whatever the request, both product listings return active products only. */
  lemma ListingsShowOnlyActive(p: ProductSearch, row: Row)
    ensures Matches(SearchProducts(p).where, row) ==> FieldIs(row, "isActive", Flag(true))
    ensures Matches(ListProducts().where, row) <==> FieldIs(row, "isActive", Flag(true))
  {
    var w := SearchProducts(p).where;
    if Matches(w, row) {
      assert Holds("isActive", w["isActive"], row);
    }
    ListProductsMeaning(row);
  }

  lemma ListProductsMeaning(row: Row)
    ensures Matches(ListProducts().where, row) <==> FieldIs(row, "isActive", Flag(true))
  {
    var w := ListProducts().where;
    assert "isActive" in w && w["isActive"] == ActiveOnly;
    if FieldIs(row, "isActive", Flag(true)) {
      forall k | k in w
        ensures Holds(k, w[k], row)
      {
        assert k == "isActive";
      }
    }
  }

  /**
   * The stock endpoint: 'true' keeps the products in stock, 'false' those
   * out of stock, anything else keeps every row.
   */
  lemma QStockFilterMeaning(inStock: Param, row: Row)
    ensures Matches(QStockFilter(inStock).where, row)
        <==> ((inStock == Some("true") ==> InStock(row))
          && (inStock == Some("false") ==> OutOfStock(row)))
  {
    MatchesPut(map[], "stock", StockFilter(inStock), row);
    SingleBoundMeaning("stock", Gt, Zero, row);
    SingleBoundMeaning("stock", Lte, Zero, row);
  }

  /** A numeric stock passes exactly one of the 'true' and 'false' filters. */
  lemma StockFiltersPartition(row: Row)
    requires "stock" in row && row["stock"].Num? && row["stock"].n.Some?
    ensures Matches(QStockFilter(Some("true")).where, row) != Matches(QStockFilter(Some("false")).where, row)
  {
    QStockFilterMeaning(Some("true"), row);
    QStockFilterMeaning(Some("false"), row);
  }

  /** In the search, 'false' is no filter at all: only 'true' narrows the stock. */
  lemma SearchIgnoresInStockFalse(p: ProductSearch, row: Row)
    requires p.inStock == Some("false")
    ensures Matches(SearchProducts(p).where, row) == Matches(SearchProducts(p.(inStock := None)).where, row)
  {
    SearchProductsMeaning(p, row);
    SearchProductsMeaning(p.(inStock := None), row);
  }

  /** The category endpoint keeps the products whose category contains the text, ignoring case. */
  lemma QCategoryMeaning(category: Param, row: Row)
    ensures Matches(QCategory(category).where, row) <==> (Given(category) ==> TextHas(row, "category", category.value))
  {
    MatchesPut(map[], "category", ContainsFilter(category), row);
  }
}
