/**
 * The query descriptors the order handlers build: the single-concept
 * demonstration endpoints under /orders/q and the combined search.
 */
module OrderQuery {
  import opened Js
  import opened Query

  /** The query string of `GET /orders/search`. */
  datatype OrderSearch = OrderSearch(
    keyword: Param,
    status: Param,
    minAmount: Param,
    maxAmount: Param,
    startDate: DateParam,
    endDate: DateParam,
    sort: Param,
    order: Param)

  const SearchSortFields: seq<string> := ["orderNumber", "customerName", "totalAmount", "orderDate"]
  const DemoSortFields: seq<string> := ["id", "orderNumber", "customerName", "totalAmount", "orderDate", "createdAt"]

  function StatusFilter(status: Param): Option<Cond> {
    if Given(status) then Some(Equals(Text(status.value))) else None
  }

  /** `OR: [customerName contains keyword, orderNumber contains keyword]`, both ignoring case. */
  function KeywordGroup(keyword: string): Cond {
    AnyOf([Clause("customerName", ContainsInsensitive(keyword)), Clause("orderNumber", ContainsInsensitive(keyword))])
  }

  function KeywordFilter(keyword: Param): Option<Cond> {
    if Given(keyword) then Some(KeywordGroup(keyword.value)) else None
  }

  /** GET /orders/q/status: an exact `status` match when status is given, no filter otherwise. */
  function QStatus(status: Param): (q: FindMany)
    ensures q.orderBy.None?
    ensures q.where.Keys == if Given(status) then {"status"} else {}
  {
    FindMany(Put(map[], "status", StatusFilter(status)), None)
  }

  /** GET /orders/q/amount-range: the `totalAmount` key is always there, `{}` when neither bound is given. */
  function QAmountRange(min: Param, max: Param): FindMany {
    RangeQuery("totalAmount", min, max)
  }

  /** GET /orders/q/date-range: `orderDate` is filtered only when a start or end date is given. */
  function QDateRange(start: DateParam, end: DateParam): (q: FindMany)
    ensures q.orderBy.None?
    ensures q.where.Keys == if DateGiven(start) || DateGiven(end) then {"orderDate"} else {}
  {
    FindMany(Put(map[], "orderDate", DateRange(start, end)), None)
  }

  /** GET /orders/q/sort: `req.query.by || 'id'`, then the allow-list with `id` as fallback. */
  function QSort(sortBy: Param, dir: Param): FindMany {
    SortQuery(DemoSortFields, sortBy, dir)
  }

  /** The exact-value filters of the search: the keyword group and the status. */
  function TextWhere(p: OrderSearch): Where {
    var w := Put(map[], "OR", KeywordFilter(p.keyword));
    Put(w, "status", StatusFilter(p.status))
  }

  /** The keyword and status filters, then the amount range. */
  function AmountWhere(p: OrderSearch): Where {
    Put(TextWhere(p), "totalAmount", NumberRange(p.minAmount, p.maxAmount))
  }

  function SearchWhere(p: OrderSearch): Where {
    Put(AmountWhere(p), "orderDate", DateRange(p.startDate, p.endDate))
  }

  /**
   * GET /orders/search. Each filter key appears exactly when its parameters
   * are truthy; the sort field is always one of the four allowed, with
   * `orderDate` for anything else (absence included).
   */
  function SearchOrders(p: OrderSearch): (q: FindMany)
    ensures q.where.Keys <= {"OR", "status", "totalAmount", "orderDate"}
    ensures "OR" in q.where <==> Given(p.keyword)
    ensures "status" in q.where <==> Given(p.status)
    ensures "totalAmount" in q.where <==> Given(p.minAmount) || Given(p.maxAmount)
    ensures "orderDate" in q.where <==> DateGiven(p.startDate) || DateGiven(p.endDate)
    ensures q.orderBy.Some? && q.orderBy.value.field in SearchSortFields
    ensures p.sort.Some? && p.sort.value in SearchSortFields ==> q.orderBy.value.field == p.sort.value
    ensures !(p.sort.Some? && p.sort.value in SearchSortFields) ==> q.orderBy.value.field == "orderDate"
    ensures q.orderBy.value.dir == Desc <==> p.order == Some("desc")
  {
    FindMany(SearchWhere(p), Some(OrderBy(AllowListed(SearchSortFields, p.sort, "orderDate"), SortDirection(p.order))))
  }

  // ---------------------------------------------------------------------------
  // What the descriptors select
  // ---------------------------------------------------------------------------

  /** The rows an order search is meant to return, stated without descriptors. */
  predicate SearchIntent(p: OrderSearch, row: Row) {
    && (Given(p.keyword) ==> TextHas(row, "customerName", p.keyword.value) || TextHas(row, "orderNumber", p.keyword.value))
    && (Given(p.status) ==> FieldIs(row, "status", Text(p.status.value)))
    && (Given(p.minAmount) ==> NumberAtLeast(row, "totalAmount", p.minAmount.value))
    && (Given(p.maxAmount) ==> NumberAtMost(row, "totalAmount", p.maxAmount.value))
    && (DateGiven(p.startDate) ==> OnOrAfter(row, "orderDate", p.startDate))
    && (DateGiven(p.endDate) ==> OnOrBefore(row, "orderDate", p.endDate))
  }

  /** The keyword group holds exactly when either text field contains the keyword, ignoring case. */
  lemma KeywordGroupMeaning(keyword: string, row: Row)
    ensures Holds("OR", KeywordGroup(keyword), row)
        <==> TextHas(row, "customerName", keyword) || TextHas(row, "orderNumber", keyword)
  {
    var cs := KeywordGroup(keyword).clauses;
    assert Holds(cs[0].field, cs[0].cond, row) <==> TextHas(row, "customerName", keyword);
    assert Holds(cs[1].field, cs[1].cond, row) <==> TextHas(row, "orderNumber", keyword);
  }

  /** A row matches the search exactly when it meets every filter the request gives. */
  lemma SearchOrdersMeaning(p: OrderSearch, row: Row)
    ensures Matches(SearchOrders(p).where, row) <==> SearchIntent(p, row)
  {
    SearchWhereMeaning(p, row);
  }

  lemma SearchWhereMeaning(p: OrderSearch, row: Row)
    ensures Matches(SearchWhere(p), row) <==> SearchIntent(p, row)
  {
    AmountWhereMeaning(p, row);
    MatchesPut(AmountWhere(p), "orderDate", DateRange(p.startDate, p.endDate), row);
    DateBoundsMeaning(p.startDate, p.endDate, "orderDate", row);
  }

  lemma AmountWhereMeaning(p: OrderSearch, row: Row)
    ensures Matches(AmountWhere(p), row)
        <==> ((Given(p.keyword) ==> TextHas(row, "customerName", p.keyword.value) || TextHas(row, "orderNumber", p.keyword.value))
          && (Given(p.status) ==> FieldIs(row, "status", Text(p.status.value)))
          && (Given(p.minAmount) ==> NumberAtLeast(row, "totalAmount", p.minAmount.value))
          && (Given(p.maxAmount) ==> NumberAtMost(row, "totalAmount", p.maxAmount.value)))
  {
    TextWhereMeaning(p, row);
    MatchesPut(TextWhere(p), "totalAmount", NumberRange(p.minAmount, p.maxAmount), row);
    NumberBoundsMeaning(p.minAmount, p.maxAmount, "totalAmount", row);
  }

  lemma TextWhereMeaning(p: OrderSearch, row: Row)
    ensures Matches(TextWhere(p), row)
        <==> ((Given(p.keyword) ==> TextHas(row, "customerName", p.keyword.value) || TextHas(row, "orderNumber", p.keyword.value))
          && (Given(p.status) ==> FieldIs(row, "status", Text(p.status.value))))
  {
    var w1 := Put(map[], "OR", KeywordFilter(p.keyword));
    MatchesPut(map[], "OR", KeywordFilter(p.keyword), row);
    MatchesPut(w1, "status", StatusFilter(p.status), row);
    if Given(p.keyword) {
      KeywordGroupMeaning(p.keyword.value, row);
    }
  }

  /** The date-range endpoint keeps orders from the start day through the end day, both included. */
  lemma QDateRangeMeaning(start: DateParam, end: DateParam, row: Row)
    ensures Matches(QDateRange(start, end).where, row)
        <==> ((DateGiven(start) ==> OnOrAfter(row, "orderDate", start))
          && (DateGiven(end) ==> OnOrBefore(row, "orderDate", end)))
  {
    MatchesPut(map[], "orderDate", DateRange(start, end), row);
    DateBoundsMeaning(start, end, "orderDate", row);
  }

  /** The status endpoint keeps the orders whose status is exactly the one given. */
  lemma QStatusMeaning(status: Param, row: Row)
    ensures Matches(QStatus(status).where, row) <==> (Given(status) ==> FieldIs(row, "status", Text(status.value)))
  {
    MatchesPut(map[], "status", StatusFilter(status), row);
  }

  /** `id` is not a search sort field, and "DESC" is not "desc". */
  lemma SearchSortFallbacks(p: OrderSearch)
    requires p.sort == Some("id") && p.order == Some("DESC")
    ensures SearchOrders(p).orderBy == Some(OrderBy("orderDate", Asc))
  {
  }

  /** A whitespace keyword is truthy: it filters, and a row without a space in either field is dropped. */
  lemma WhitespaceKeywordFilters(p: OrderSearch)
    requires p.keyword == Some(" ")
    ensures !Matches(SearchOrders(p).where, map["customerName" := Text("Ann"), "orderNumber" := Text("ann")])
  {
    var row := map["customerName" := Text("Ann"), "orderNumber" := Text("ann")];
    SearchOrdersMeaning(p, row);
    ContainsIgnoringCaseExample();
    assert LowerAll("ann") == LowerAll("Ann");
  }
}
