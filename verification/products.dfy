/**
 * The product handlers: create with its defaults, the partial update,
 * get and delete; and how a stored product looks to the listing filters.
 */
module Products {
  import opened Js
  import opened Query
  import opened Store
  import ProductQuery

  /** `price` holds `parseFloat`'s result, None standing for NaN. */
  datatype Product = Product(
    name: string,
    description: Option<string>,
    price: Option<real>,
    stock: int,
    category: Option<string>,
    imageUrl: Option<string>,
    isActive: bool)

  datatype ProductBody = ProductBody(
    name: JsValue,
    description: JsValue,
    price: JsValue,
    stock: JsValue,
    category: JsValue,
    imageUrl: JsValue,
    isActive: JsValue)

  /** The column default of `isActive`, which create never writes. */
  const ActiveByDefault: bool := true

  /** `name` truthy and `price` not undefined (null, 0 and "" pass). */
  predicate HasRequired(b: ProductBody) {
    Truthy(b.name) && !b.price.Undefined?
  }

  /** `stock ? parseInt(stock, 10) : 0`, None when parseInt gives NaN. */
  function StockOnCreate(v: JsValue): Option<int> {
    if Truthy(v) then IntegerOf(v) else Some(0)
  }

  /** `stock !== undefined ? parseInt(stock, 10) : undefined`: Some(None) writes nothing. */
  function StockOnUpdate(v: JsValue): Option<Option<int>> {
    if v.Undefined? then Some(None)
    else match IntegerOf(v)
      case None => None
      case Some(n) => Some(Some(n))
  }

  /** `typeof isActive === 'boolean' ? isActive : undefined` */
  function ActiveOnUpdate(v: JsValue): Option<bool> {
    if v.Bool? then Some(v.b) else None
  }

  predicate StorableOnCreate(b: ProductBody) {
    && b.name.Str?
    && (!Truthy(b.description) || b.description.Str?)
    && (!Truthy(b.category) || b.category.Str?)
    && (!Truthy(b.imageUrl) || b.imageUrl.Str?)
    && StockOnCreate(b.stock).Some?
  }

  predicate StorableOnUpdate(b: ProductBody) {
    && b.name.Str?
    && (Nullish(b.description) || b.description.Str?)
    && (Nullish(b.category) || b.category.Str?)
    && (Nullish(b.imageUrl) || b.imageUrl.Str?)
    && StockOnUpdate(b.stock).Some?
  }

  function NewProduct(b: ProductBody): Option<Product> {
    match (TextColumn(b.name), OrNull(b.description), StockOnCreate(b.stock), OrNull(b.category), OrNull(b.imageUrl))
    case (Some(n), Some(d), Some(s), Some(c), Some(i)) => Some(Product(n, d, NumberOf(b.price), s, c, i, ActiveByDefault))
    case _ => None
  }

  /** The columns an update writes; `stock` and `isActive` None leave the stored values alone. */
  datatype ProductPatch = ProductPatch(
    name: string,
    description: Option<string>,
    price: Option<real>,
    stock: Option<int>,
    category: Option<string>,
    imageUrl: Option<string>,
    isActive: Option<bool>)

  function PatchOf(b: ProductBody): Option<ProductPatch> {
    match (TextColumn(b.name), NullishOrNull(b.description), StockOnUpdate(b.stock), NullishOrNull(b.category), NullishOrNull(b.imageUrl))
    case (Some(n), Some(d), Some(s), Some(c), Some(i)) => Some(ProductPatch(n, d, NumberOf(b.price), s, c, i, ActiveOnUpdate(b.isActive)))
    case _ => None
  }

  function Apply(p: Product, patch: ProductPatch): Product {
    Product(
      patch.name, patch.description, patch.price,
      if patch.stock.Some? then patch.stock.value else p.stock,
      patch.category, patch.imageUrl,
      if patch.isActive.Some? then patch.isActive.value else p.isActive)
  }

  /**
   * POST /products. A refusal leaves the table alone; a success adds one
   * active product under the next id, with a falsy stock as 0 and falsy
   * optional text as null.
   */
  function CreateProduct(t: Table<Product>, b: ProductBody): (r: Reply<Product>)
    ensures r.status in {Created, BadRequest(MissingFields), ServerError}
    ensures r.status == BadRequest(MissingFields) <==> !HasRequired(b)
    ensures r.status == Created <==> HasRequired(b) && StorableOnCreate(b) && t.nextId !in t.rows
    ensures r.status != Created ==> r.table == t && r.data.None?
    ensures r.status == Created ==>
      && r.data.Some?
      && r.table == Table(t.rows[t.nextId := r.data.value], t.nextId + 1)
      && var p := r.data.value;
      && p.name == b.name.s
      && p.price == NumberOf(b.price)
      && (!Truthy(b.stock) ==> p.stock == 0)
      && (Truthy(b.stock) ==> Some(p.stock) == IntegerOf(b.stock))
      && p.description == (if Truthy(b.description) then Some(b.description.s) else None)
      && p.category == (if Truthy(b.category) then Some(b.category.s) else None)
      && p.imageUrl == (if Truthy(b.imageUrl) then Some(b.imageUrl.s) else None)
      && p.isActive
  {
    if !HasRequired(b) then Refuse(t, MissingFields)
    else
      match NewProduct(b)
      case None => Fail(t)
      case Some(p) => Answer(t, Insert(t, p), Created)
  }

  /**
   * PUT /products/:id. The id, then the fields, then the update. An
   * undefined stock and a non-boolean isActive keep the stored values.
   */
  function UpdateProduct(t: Table<Product>, rawId: string, b: ProductBody): (r: Reply<Product>)
    ensures r.status in {Ok, BadRequest(InvalidId), BadRequest(MissingFields), NotFound, ServerError}
    ensures r.status == BadRequest(InvalidId) <==> ParseId(rawId).None?
    ensures r.status == BadRequest(MissingFields) <==> ParseId(rawId).Some? && !HasRequired(b)
    ensures r.status == NotFound
        <==> (ParseId(rawId).Some? && HasRequired(b) && StorableOnUpdate(b) && ParseId(rawId).value !in t.rows)
    ensures r.status == Ok
        <==> (ParseId(rawId).Some? && HasRequired(b) && StorableOnUpdate(b) && ParseId(rawId).value in t.rows)
    ensures r.status != Ok ==> r.table == t && r.data.None?
    ensures r.status == Ok ==>
      && ParseId(rawId).Some? && StorableOnUpdate(b) && r.data.Some?
      && var id := ParseId(rawId).value;
      && id in t.rows
      && r.table == t.(rows := t.rows[id := r.data.value])
      && var p := r.data.value;
      && p.name == b.name.s
      && p.price == NumberOf(b.price)
      && (b.stock.Undefined? ==> p.stock == t.rows[id].stock)
      && (!b.stock.Undefined? ==> Some(p.stock) == IntegerOf(b.stock))
      && p.isActive == (if b.isActive.Bool? then b.isActive.b else t.rows[id].isActive)
      && p.description == (if Nullish(b.description) then None else Some(b.description.s))
      && p.category == (if Nullish(b.category) then None else Some(b.category.s))
      && p.imageUrl == (if Nullish(b.imageUrl) then None else Some(b.imageUrl.s))
  {
    match ParseId(rawId)
    case None => Refuse(t, InvalidId)
    case Some(id) =>
      if !HasRequired(b) then Refuse(t, MissingFields)
      else
        match PatchOf(b)
        case None => Fail(t)
        case Some(patch) => Answer(t, Update(t, id, p => Apply(p, patch)), Ok)
  }

  /** GET /products/:id, which returns inactive products too. */
  function GetProduct(t: Table<Product>, rawId: string): Reply<Product> {
    GetById(t, rawId)
  }

  /** DELETE /products/:id: a hard delete, whatever `isActive` says. */
  function DeleteProduct(t: Table<Product>, rawId: string): Reply<Product> {
    DeleteById(t, rawId)
  }

  // ---------------------------------------------------------------------------
  // Properties across calls
  // ---------------------------------------------------------------------------

  /** A stored product as the query filters see it; a null text column is absent. */
  function RowOf(p: Product): (row: Row)
    ensures FieldIs(row, "isActive", Flag(true)) <==> p.isActive
    ensures FieldIs(row, "stock", Num(Some(p.stock as real)))
    ensures "name" in row && row["name"] == Text(p.name)
  {
    var row := map["name" := Text(p.name), "price" := Num(p.price), "stock" := Num(Some(p.stock as real)), "isActive" := Flag(p.isActive)];
    var row := if p.category.Some? then row["category" := Text(p.category.value)] else row;
    if p.description.Some? then row["description" := Text(p.description.value)] else row
  }

  /** A product just created is active, so the listing shows it. */
  lemma CreatedProductListed(t: Table<Product>, b: ProductBody)
    requires CreateProduct(t, b).status == Created
    ensures Matches(ProductQuery.ListProducts().where, RowOf(CreateProduct(t, b).data.value))
  {
    var row := RowOf(CreateProduct(t, b).data.value);
    ProductQuery.ListingsShowOnlyActive(ProductQuery.ProductSearch(None, None, None, None, None, None, None), row);
  }

  /** Updating with `isActive: false` hides the product from the listing; any other value keeps its visibility. */
  lemma DeactivateHides(t: Table<Product>, rawId: string, b: ProductBody)
    requires UpdateProduct(t, rawId, b).status == Ok
    ensures var row := RowOf(UpdateProduct(t, rawId, b).data.value);
      && (b.isActive == Bool(false) ==> !Matches(ProductQuery.ListProducts().where, row))
      && (!b.isActive.Bool? ==>
            (Matches(ProductQuery.ListProducts().where, row)
             <==> t.rows[ParseId(rawId).value].isActive))
  {
    var row := RowOf(UpdateProduct(t, rawId, b).data.value);
    ProductQuery.ListingsShowOnlyActive(ProductQuery.ProductSearch(None, None, None, None, None, None, None), row);
  }

  /** Sending the same update twice leaves the table as sending it once. */
  lemma UpdateIdempotent(t: Table<Product>, rawId: string, b: ProductBody)
    requires UpdateProduct(t, rawId, b).status == Ok
    ensures UpdateProduct(UpdateProduct(t, rawId, b).table, rawId, b).table == UpdateProduct(t, rawId, b).table
  {
  }

  /** Create adds a row under a fresh id and leaves every existing product as it was. */
  lemma CreateLeavesOthers(t: Table<Product>, b: ProductBody, k: int)
    requires k in t.rows
    ensures k in CreateProduct(t, b).table.rows && CreateProduct(t, b).table.rows[k] == t.rows[k]
  {
  }

  /** Update rewrites at most the row of its own id. */
  lemma UpdateLeavesOthers(t: Table<Product>, rawId: string, b: ProductBody, k: int)
    requires k in t.rows
    requires ParseId(rawId).Some? ==> k != ParseId(rawId).value
    ensures k in UpdateProduct(t, rawId, b).table.rows && UpdateProduct(t, rawId, b).table.rows[k] == t.rows[k]
  {
  }

  /** Delete removes at most the row of its own id. */
  lemma DeleteLeavesOthers(t: Table<Product>, rawId: string, k: int)
    requires k in t.rows
    requires ParseId(rawId).Some? ==> k != ParseId(rawId).value
    ensures k in DeleteProduct(t, rawId).table.rows && DeleteProduct(t, rawId).table.rows[k] == t.rows[k]
  {
  }
}
