# Store back-office API: a Dafny model of the controllers

The system is a small Express REST API over a Prisma database. It manages
three entities: members, orders and products. This project models its
three controllers:

- **Member CRUD** (`src/controllers/member.controller.js`):
  - get, create, update and delete by id;
  - create and update keep emails unique by looking up the email before
    writing.
- **Order handlers** (`src/controllers/order.controller.js`):
  - CRUD, with a generated order number;
  - the single-concept query endpoints under `/orders/q` (status,
    amount range, date range, sort);
  - the combined `/orders/search`.
- **Product handlers** (`src/controllers/product.controller.js`):
  - CRUD, with defaults on create and a partial update;
  - the active-only listing;
  - the query endpoints under `/products/q` (price range, stock filter,
    category, sort);
  - the combined `/products/search`.

The model is functional. Each concept has its own representation:

- **The database** is a `Store.Table`: a map from id to record, plus the
  next auto-increment id.
- **A handler** is a pure function from the table and the request to a
  `Store.Reply`. The reply holds the status (200, 201, 400, 404 or 500),
  the table afterwards and the returned record.
- **A search** is a function from query-string values to a
  `Query.FindMany` descriptor: the `where` object and the `orderBy`
  clause handed to `findMany`.
- **What a descriptor selects** is given by `Query.Matches`, which
  evaluates a `where` against a row. Each search is also related to an
  independent statement of the rows it is meant to return, its
  `SearchIntent`.

JavaScript behaviour that the handlers depend on is written out in module
`Js`:

- truthiness and `??`;
- `parseInt`, following section 19.2.5 of ECMA-262 up to the
  mathematical integer: leading white space, a sign and the longest digit
  prefix, with NaN as `None` (the final conversion to a Number is left
  out, see below);
- `parseFloat` on decimal text;
- `String(n)` for integers below 2^53, and `padStart`.

Modules and files:

| file | module | contents |
|---|---|---|
| js.dfy | `Js` | JS values, truthiness, `parseInt`/`parseFloat`, `String(n)`, `padStart` |
| query.dfy | `Query` | `where`/`orderBy` descriptors, shared builders, row matching |
| order_query.dfy | `OrderQuery` | order query endpoints and order search |
| product_query.dfy | `ProductQuery` | product listing, query endpoints and product search |
| store.dfy | `Store` | table, replies, P2025-to-404, get/delete by id, column conversions |
| members.dfy | `Members` | member handlers and the email-uniqueness invariant |
| orders.dfy | `Orders` | order number, order handlers |
| products.dfy | `Products` | product handlers, and how a product looks to the listing filter |

## Model

The three controllers' get-by-id and delete-by-id handlers differ only
in names and messages (`src/controllers/member.controller.js:30-49` and
`188-215`, `src/controllers/product.controller.js:30-49` and `168-195`,
and the order ones cited below). So each entity's `Get…`/`Delete…` is
`Store.GetById`/`Store.DeleteById` at its own table. Likewise
`ProductQuery.QPriceRange` (`src/controllers/product.controller.js:236-244`)
and `ProductQuery.QSort` (`src/controllers/product.controller.js:327-333`)
are `Query.RangeQuery` and `Query.SortQuery` at the product's field and
allow-list, as `OrderQuery.QAmountRange` and `OrderQuery.QSort` are for
orders.

| member | source | states |
|---|---|---|
| Js.DecimalStringRoundTrip | src/controllers/order.controller.js:5 | The decimal text `String(n)` writes for a natural number below 2^53 (a timestamp here) reads back as that number; the model's digit writer round-trips for every natural. |
| Js.CanonicalDigitsRoundTrip | src/controllers/order.controller.js:5 | The converse: a digit string with no superfluous leading zero is exactly the model's digit text of its value, which is what `String` writes when the value is below 2^53. |
| Js.TrimStart | src/controllers/member.controller.js:30 | `parseInt` drops exactly a leading run of StrWhiteSpace characters and stops at the first other character. |
| Js.DigitPrefix | src/controllers/member.controller.js:30 | `parseInt` reads the longest prefix of decimal digits: the prefix is all digits, and the character after it is not a digit. |
| Js.ParseIntReadsDecimal | src/controllers/member.controller.js:30 | `parseInt` returns n (or -n) for white space, an optional sign, the decimal text of n, then any text not starting with a digit. |
| Js.ParseIntIgnoresTrailingText | src/controllers/member.controller.js:30-32 | `"12abc"` parses as the id 12, so it passes the NaN check. |
| Js.ParseIntReadsNegative | src/controllers/member.controller.js:30-32 | `"  -7"` parses as -7, so negative ids pass the NaN check. |
| Js.ParseIntNaNExamples | src/controllers/member.controller.js:30-32 | Text with no digit after the white space and sign is NaN: `"abc"`, `""` and `"-"`. |
| Js.ParseIntTruncatesParseFloat | src/controllers/product.controller.js:86 | On the decimal text (no exponent) that the model's parsers read, `Js.ParseInt` succeeds only where `Js.ParseFloat` does, and gives that number truncated toward zero; this is why `Js.IntegerOf` may read `parseInt(stock, 10)` of a number value as truncation. |
| Js.PadStart | src/controllers/order.controller.js:6 | `padStart(width, fill)` has length max(width, the text's length), ends with the text, and is fill characters before it. |
| Query.SortDirection | src/controllers/order.controller.js:409 | The direction is descending if and only if the raw value is exactly `"desc"`. |
| Query.AllowListed | src/controllers/order.controller.js:407-408 | The chosen field is in the allow-list or is the fallback; it is never a value other than the one requested; an allowed request is kept. |
| Query.RangeQuery | src/controllers/order.controller.js:271-279 | The range field is always a key, possibly with no bounds; `gte` is there if and only if min is truthy, and `lte` if and only if max is. |
| Query.RangeQueryMeaning | src/controllers/order.controller.js:271-279 | A row matches exactly when its value lies within the bounds given, and every row matches when no bound is given. |
| Query.SortQuery | src/controllers/order.controller.js:341-347 | The field is in the allow-list or is `id`; anything other than `id` is the requested `by`; an allowed `by` is kept; an absent or empty `by` gives `id`; the direction is descending only for exactly `"desc"`. |
| Query.MatchesPut | src/controllers/order.controller.js:374-383 | Adding a fresh key to a `where` adds exactly that key's condition to what a row must satisfy. |
| Query.SingleBoundMeaning | src/controllers/product.controller.js:271-275 | A bound object with a single operator holds exactly when the field satisfies that comparison. |
| Query.BoundPairMeaning | src/controllers/order.controller.js:274-277 | A bound object built from an optional lower and an optional upper bound holds exactly when the field satisfies each bound present; with neither, it holds of every row. |
| Query.NumberBoundsMeaning | src/controllers/order.controller.js:385-393 | The built `{ gte, lte }` holds exactly of rows whose number is at least `parseFloat(min)` when min is truthy and at most `parseFloat(max)` when max is truthy. |
| Query.DateBoundsMeaning | src/controllers/order.controller.js:395-405 | The built `{ gte: start, lt: end + 1 day }` holds exactly of rows dated from the start day through the end day, each bound only when given. |
| Query.EndDayIncluded | src/controllers/order.controller.js:306-318 | A row dated on the end day matches the date range; a row dated the day after does not. |
| Query.ContainsIgnoringCaseExample | src/controllers/order.controller.js:376-377 | `"smith"` finds `"Smith"`; a one-space needle does not match a text with no space. |
| OrderQuery.QStatus | src/controllers/order.controller.js:246-248 | The `status` key is present exactly when status is truthy; there is no ordering. |
| OrderQuery.QStatusMeaning | src/controllers/order.controller.js:246-248 | A row matches exactly when its status equals the given one, or always when none is given. |
| OrderQuery.QDateRange | src/controllers/order.controller.js:306-318 | `orderDate` is a key exactly when startDate or endDate is truthy. |
| OrderQuery.QDateRangeMeaning | src/controllers/order.controller.js:306-318 | A row matches exactly when its date is on or after the start day and on or before the end day, for each date given. |
| OrderQuery.SearchOrders | src/controllers/order.controller.js:374-411 | Each filter key is present exactly when its parameters are truthy; the sort field is one of the four allowed, otherwise `orderDate`; the direction is descending only for exactly `"desc"`. |
| OrderQuery.KeywordGroupMeaning | src/controllers/order.controller.js:374-379 | The OR group holds exactly when customerName or orderNumber contains the keyword, ignoring case. |
| OrderQuery.SearchOrdersMeaning | src/controllers/order.controller.js:374-405 | A row matches the search exactly when it meets every filter the request gives: keyword, status, amount bounds and date bounds. |
| OrderQuery.SearchSortFallbacks | src/controllers/order.controller.js:407-409 | `sort=id&order=DESC` sorts by orderDate ascending. |
| OrderQuery.WhitespaceKeywordFilters | src/controllers/order.controller.js:374-379 | A one-space keyword is truthy and filters: an order with no space in either field is excluded. |
| ProductQuery.QStockFilter | src/controllers/product.controller.js:271-275 | `stock` is a key exactly when inStock is `"true"` or `"false"`. |
| ProductQuery.QStockFilterMeaning | src/controllers/product.controller.js:271-275 | `"true"` keeps the products with stock above 0, `"false"` those with stock at most 0, anything else every row. |
| ProductQuery.StockFiltersPartition | src/controllers/product.controller.js:271-275 | A product with a numeric stock passes exactly one of the `"true"` and `"false"` filters. |
| ProductQuery.QCategory | src/controllers/product.controller.js:302-304 | `category` is a key exactly when category is truthy. |
| ProductQuery.QCategoryMeaning | src/controllers/product.controller.js:302-304 | A row matches exactly when its category contains the text, ignoring case. |
| ProductQuery.SearchProducts | src/controllers/product.controller.js:360-388 | `isActive = true` is always a key; every other filter key is present exactly when its parameter is truthy, and stock only for `"true"`; the sort field is one of four, otherwise `name`. |
| ProductQuery.SearchProductsMeaning | src/controllers/product.controller.js:360-382 | A row matches the search exactly when it is active and meets every filter the request gives. |
| ProductQuery.SearchWhereMeaning | src/controllers/product.controller.js:360-382 | The same, stated on the `where` alone. |
| ProductQuery.TextWhereMeaning | src/controllers/product.controller.js:360-366 | The keyword filters only `name`, and category only `category`, both as case-insensitive containment. |
| ProductQuery.ListingsShowOnlyActive | src/controllers/product.controller.js:7-10 | Whatever the request, the search returns only active products; the listing returns exactly the active ones. |
| ProductQuery.ListProductsMeaning | src/controllers/product.controller.js:7-10 | The listing's `where` selects exactly the active products. |
| ProductQuery.SearchIgnoresInStockFalse | src/controllers/product.controller.js:378-380 | In the search, `inStock=false` selects the same rows as leaving inStock out. |
| Store.GetById | src/controllers/order.controller.js:35-58 | A NaN id is 400 before any lookup; an absent id is 404; otherwise 200 with the stored record; only a 200 carries a record, and the table never changes. |
| Store.DeleteById | src/controllers/order.controller.js:173-200 | A NaN id is 400 and an absent id 404 (P2025), both leaving the table unchanged and returning no record; otherwise exactly that row is removed and returned. |
| Store.DeleteThenGetNotFound | src/controllers/member.controller.js:198-200 | After a successful delete, a get of the same id is 404. |
| Store.ZeroIdReachesStore | src/controllers/member.controller.js:30-49 | The id `"0"` passes the NaN check; when no row has id 0, get and delete answer 404, not 400. |
| Store.GetByDecimalId | src/controllers/member.controller.js:30-55 | The decimal text of a stored id retrieves that row. |
| Store.OrNullVersusNullishOrNull | src/controllers/member.controller.js:98-99 | Defaulting a falsy value to null (create) and defaulting only null or undefined to null (`??`, update) agree on truthy and nullish values; they differ on every falsy value that is not nullish; an empty string becomes null under the first and stays `""` under the second. |
| Members.CreateMember | src/controllers/member.controller.js:70-103 | 400 exactly when a name or the email is falsy; 400 exactly when the email is already held; 201 exactly when the values fit their columns and the email is free. A refusal changes nothing; a success adds one row under the next id, with a falsy phone or address as null. |
| Members.UpdateMember | src/controllers/member.controller.js:120-176 | The checks in order: id, fields, email held by another member, then the store. 404 exactly when nothing else fails and the id is absent, and 200 exactly when nothing fails and the id is present. Only a success changes the table, replacing just that row, with phone and address `?? null`. |
| Members.CreateKeepsEmailsUnique | src/controllers/member.controller.js:82-101 | If no two members share an email, that still holds after any create. |
| Members.UpdateKeepsEmailsUnique | src/controllers/member.controller.js:141-161 | If no two members share an email, that still holds after any update. |
| Members.DeleteKeepsEmailsUnique | src/controllers/member.controller.js:198-200 | If no two members share an email, that still holds after any delete. |
| Members.SecondCreateRefused | src/controllers/member.controller.js:82-101 | After a successful create, a second create with the same email is a 400 that changes nothing. |
| Members.CreateThenGet | src/controllers/member.controller.js:93-103 | A created member is returned by a get with the decimal text of its new id. |
| Members.ConflictBeforeNotFound | src/controllers/member.controller.js:141-176 | An update of an absent id, with an email another member holds, is a 400, not a 404. |
| Members.UpdateAbsentIsNotFound | src/controllers/member.controller.js:171-176 | With no email conflict, an update of an absent id is a 404 that leaves the table alone. |
| Members.KeepOwnEmail | src/controllers/member.controller.js:145 | Given unique emails, an update that keeps the member's own email is not a conflict, and succeeds. |
| Members.EmptyPhoneDefaulting | src/controllers/member.controller.js:93-161 | An empty phone is stored as null by create and as `""` by update. |
| Members.CreateLeavesOthers | src/controllers/member.controller.js:93-101 | Create leaves every existing member's row as it was. |
| Members.UpdateLeavesOthers | src/controllers/member.controller.js:152-161 | Update leaves every row other than its own id's as it was. |
| Members.DeleteLeavesOthers | src/controllers/member.controller.js:198-200 | Delete leaves every row other than its own id's as it was. |
| Orders.RandomSuffix | src/controllers/order.controller.js:6 | `Math.floor(random * 1000)` is the integer part of random * 1000, below 1000. |
| Orders.OrderNumber | src/controllers/order.controller.js:4-8 | The order number starts with `"ORD"`, is all digits after that, holds the timestamp's decimal text, and is 3 + length of the timestamp + 3 long. |
| Orders.OrderNumberRoundTrip | src/controllers/order.controller.js:4-8 | Reading an order number back gives the timestamp and the random suffix it was made from, so the last three characters are the zero-padded suffix. |
| Orders.ShortDecimal | src/controllers/order.controller.js:6 | A suffix below 1000 has at most three digits, so padding yields exactly three. |
| Orders.LeadingZerosAddNothing | src/controllers/order.controller.js:6 | Zero padding in front of a digit string does not change its value. |
| Orders.CreateOrder | src/controllers/order.controller.js:75-99 | 400 exactly when customerName or email is falsy or totalAmount is undefined; a refusal changes nothing; a success adds one row under the next id with status `pending`, the generated number, `parseFloat` of the amount, and a falsy phone stored as null. |
| Orders.UpdateOrder | src/controllers/order.controller.js:116-161 | The id is checked before the fields. 404 exactly when nothing else fails and the id is absent, and 200 exactly when nothing fails and the id is present. A success rewrites only that row: its number is kept; a falsy status keeps the stored one; the phone is `?? null`. |
| Orders.CreateThenGetPending | src/controllers/order.controller.js:88-97 | A created order is read back by its new id, with status pending and an order number that decodes to the clock and the random draw. |
| Orders.UpdateIdempotent | src/controllers/order.controller.js:137-146 | Sending the same update twice leaves the table as sending it once. |
| Orders.IdCheckedFirst | src/controllers/order.controller.js:119-134 | With a NaN id and missing fields, the answer is the invalid-id 400. |
| Orders.CreateLeavesOthers | src/controllers/order.controller.js:88-97 | Create leaves every existing order's row as it was. |
| Orders.UpdateLeavesOthers | src/controllers/order.controller.js:136-146 | Update leaves every row other than its own id's as it was. |
| Orders.DeleteLeavesOthers | src/controllers/order.controller.js:183-185 | Delete leaves every row other than its own id's as it was. |
| Products.CreateProduct | src/controllers/product.controller.js:70-91 | 400 exactly when name is falsy or price is undefined; a refusal changes nothing; a success adds one active row with `parseFloat` of the price, a falsy stock as 0, otherwise `parseInt` of it, and falsy optional text as null. |
| Products.UpdateProduct | src/controllers/product.controller.js:112-156 | The id is checked before the fields. 404 exactly when nothing else fails and the id is absent, and 200 exactly when nothing fails and the id is present. A success rewrites only that row: an undefined stock and a non-boolean isActive keep the stored values, and the optional text is `?? null`. |
| Products.CreatedProductListed | src/controllers/product.controller.js:7-10 | A product just created is active, so the product listing selects it. |
| Products.DeactivateHides | src/controllers/product.controller.js:139 | An update with `isActive: false` removes the product from the listing; a non-boolean isActive keeps whatever visibility it had. |
| Products.UpdateIdempotent | src/controllers/product.controller.js:130-141 | Sending the same update twice leaves the table as sending it once. |
| Products.CreateLeavesOthers | src/controllers/product.controller.js:81-90 | Create leaves every existing product's row as it was. |
| Products.UpdateLeavesOthers | src/controllers/product.controller.js:130-141 | Update leaves every row other than its own id's as it was. |
| Products.DeleteLeavesOthers | src/controllers/product.controller.js:178-180 | Delete leaves every row other than its own id's as it was. |

Behaviour of the code worth knowing, which the model follows:

- **Non-numeric range bounds are not rejected.** `parseFloat`'s NaN goes
  into the filter, which `Num(None)` models.
- **Whitespace-only keywords filter.** A keyword of spaces is truthy, so
  it becomes a `contains` condition (`OrderQuery.WhitespaceKeywordFilters`).
- **Ids are only checked for NaN.** 0 and negative ids reach the store
  (`Store.ZeroIdReachesStore`).
- **The order handlers do not check email uniqueness.** Only the member
  handlers look the email up before writing.

## Left out

- Routing, the Express app, Swagger comments and the fallback 404 are left out: they are wiring with no logic. Only `/members` is mounted (`src/index.js:18`), so the order and product handlers are modelled as the controllers define them, not as the running app exposes them.
- Response bodies, the messages and logging are left out. A reply keeps only its status and the record.
- `qProjection` (both controllers) is left out. Its `select` is a fixed constant with nothing to prove.
- `getOrders` and `getMembers` are left out. Each is a fixed `orderBy` with no filter; `getProducts` is modelled as `ProductQuery.ListProducts`.
- The Prisma client is replaced by `Store.Table`:
  - Any failure other than P2025 is answered with 500.
  - A body value of the wrong JSON type for its column is assumed to fail the client's validation, which gives 500. So is a NaN `stock`.
  - A NaN price or amount is assumed to be stored as NaN (`None`).
  - The `isActive` column default is assumed to be `true`.
- Timestamps (`createdAt`, `updatedAt`, `orderDate`) are not modelled as record fields.
- Js.ParseFloat: covers decimal text only (sign, digits, optional fraction). Exponents, `Infinity`, hexadecimal and the rounding to IEEE doubles are not modelled.
- Js.ParseInt: returns the exact integer of the digit prefix. Section 19.2.5 of ECMA-262 ends by converting it to a Number, so digit strings beyond 2^53 round and very long ones give Infinity, which passes the NaN check; none of that is modelled. Store.ParseId inherits this.
- Store.GetById, Store.DeleteById and the update handlers: the width of the database's id column is not modelled. An id the column cannot hold (past 2^31-1 for a 32-bit column) would fail the client's validation and answer 500, where the model answers 404.
- Query.Satisfies: a comparison against NaN (`Num(None)`), on either side, is assumed to select no row. Nothing in the code fixes what the client or the database does with `gte: NaN` or `lte: NaN`: PostgreSQL orders NaN above every number, and the client may instead refuse the value (500). Query.NumberBoundsMeaning, Query.RangeQueryMeaning and both `SearchIntent` equivalences rest on this assumption.
- Js.DecimalString: is `String(n)` only for n below 2^53. Beyond that JavaScript rounds the number first, and from 10^21 on writes exponent form ("1e+21"); the model writes the exact digits. The code applies `String` only to `Date.now()`, which stays far below 2^53.
- Products.CreateProduct, Products.UpdateProduct: the width of the integer `stock` column is not modelled. A `parseInt(stock, 10)` outside the column's range (past 2^31-1 for a 32-bit column) would fail the client's validation and answer 500, where the model stores it and answers 201 or 200.
- Js.IntegerOf: `parseInt` of a number value goes through `String(n)`. The model uses truncation instead, which differs only for numbers whose `String` form uses an exponent.
- JS `Date` parsing and time zones are not modelled: a date is a day number, an unparsable date matches no row, and `setDate(+1)` is the next day number. Whether the client refuses an Invalid Date bound is not modelled.
- Query.ContainsIgnoringCase: folds ASCII letters only, where the database's case-insensitive mode folds according to its collation.
- Query-string arrays (repeated keys) and object or array body values are not modelled: a parameter is absent or one string.
- The check-then-write race on member emails is left out: it is concurrency, and the model runs one request at a time.
- Order-number collisions are not handled by the code and are not modelled.
- Sorting the result rows by `orderBy` is not modelled: only the clause the handlers build is.
