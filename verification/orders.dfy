/**
 * The order handlers: the order number a new order gets, create, update,
 * get and delete. The clock and the random source are parameters.
 */
module Orders {
  import opened Js
  import opened Store

  // ---------------------------------------------------------------------------
  // Order numbers
  // ---------------------------------------------------------------------------

  /** `Math.floor(random * 1000)` for a `Math.random()` value. */
  function RandomSuffix(random: real): (k: nat)
    requires 0.0 <= random < 1.0
    ensures k < 1000
    ensures k as real <= random * 1000.0 < k as real + 1.0
  {
    (random * 1000.0).Floor
  }

  /**
   * "ORD", the millisecond timestamp, and the random suffix padded with
   * zeros to three digits.
   */
  function OrderNumber(now: nat, random: real): (s: string)
    requires 0.0 <= random < 1.0
    ensures |s| == 3 + |DecimalString(now)| + 3
    ensures s[..3] == "ORD"
    ensures AllDigits(s[3..])
    ensures s[3..|s| - 3] == DecimalString(now)
  {
    ShortDecimal(RandomSuffix(random));
    "ORD" + DecimalString(now) + PadStart(DecimalString(RandomSuffix(random)), 3, '0')
  }

  /** A number below 1000 has at most three digits, so the padding always yields exactly three. */
  lemma ShortDecimal(k: nat)
    requires k < 1000
    ensures |DecimalString(k)| <= 3
  {
    if k >= 10 {
      assert |DecimalString(k)| == |DecimalString(k / 10)| + 1;
      if k / 10 >= 10 {
        assert |DecimalString(k / 10)| == |DecimalString(k / 100)| + 1;
      }
    }
  }

  /** Splits an order number back into its timestamp and suffix, if it has the shape. */
  function ReadOrderNumber(s: string): Option<(nat, nat)> {
    if |s| >= 7 && s[..3] == "ORD" && AllDigits(s[3..]) then
      Some((DigitsValue(s[3..|s| - 3]), DigitsValue(s[|s| - 3..])))
    else None
  }

  /** An order number gives back the timestamp and the random suffix it was made from. */
  lemma OrderNumberRoundTrip(now: nat, random: real)
    requires 0.0 <= random < 1.0
    ensures ReadOrderNumber(OrderNumber(now, random)) == Some((now, RandomSuffix(random)))
  {
    var s := OrderNumber(now, random);
    var k := RandomSuffix(random);
    var digits := DecimalString(k);
    var pad := PadStart(digits, 3, '0');
    ShortDecimal(k);
    assert s[|s| - 3..] == pad;
    assert pad == pad[..|pad| - |digits|] + digits;
    LeadingZerosAddNothing(pad[..|pad| - |digits|], digits);
    DecimalStringRoundTrip(k);
    DecimalStringRoundTrip(now);
  }

  /** Zeros in front of a digit string do not change its value. */
  lemma {:induction false} LeadingZerosAddNothing(zeros: string, s: string)
    requires forall i :: 0 <= i < |zeros| ==> zeros[i] == '0'
    requires AllDigits(s)
    ensures AllDigits(zeros + s)
    ensures DigitsValue(zeros + s) == DigitsValue(s)
    decreases |s|
  {
    if s == [] {
      assert zeros + s == zeros;
      ZerosAreZero(zeros);
    } else {
      var z := zeros + s;
      assert z[..|z| - 1] == zeros + s[..|s| - 1];
      LeadingZerosAddNothing(zeros, s[..|s| - 1]);
    }
  }

  lemma {:induction false} ZerosAreZero(zeros: string)
    requires forall i :: 0 <= i < |zeros| ==> zeros[i] == '0'
    ensures AllDigits(zeros) && DigitsValue(zeros) == 0
    decreases |zeros|
  {
    if zeros != [] {
      ZerosAreZero(zeros[..|zeros| - 1]);
    }
  }

  // ---------------------------------------------------------------------------
  // Orders
  // ---------------------------------------------------------------------------

  /** `totalAmount` holds `parseFloat`'s result, None standing for NaN. */
  datatype Order = Order(
    orderNumber: string,
    customerName: string,
    email: string,
    phone: Option<string>,
    totalAmount: Option<real>,
    status: string)

  datatype OrderBody = OrderBody(
    customerName: JsValue,
    email: JsValue,
    phone: JsValue,
    totalAmount: JsValue,
    status: JsValue)

  const Pending: string := "pending"

  /** `customerName` and `email` truthy, `totalAmount` not undefined (null, 0 and "" pass). */
  predicate HasRequired(b: OrderBody) {
    Truthy(b.customerName) && Truthy(b.email) && !b.totalAmount.Undefined?
  }

  predicate StorableOnCreate(b: OrderBody) {
    b.customerName.Str? && b.email.Str? && (!Truthy(b.phone) || b.phone.Str?)
  }

  /** As on create, with `phone ?? null`, and a truthy status must be text. */
  predicate StorableOnUpdate(b: OrderBody) {
    && b.customerName.Str? && b.email.Str? && (Nullish(b.phone) || b.phone.Str?)
    && (!Truthy(b.status) || b.status.Str?)
  }

  function NewOrder(b: OrderBody, orderNumber: string): Option<Order> {
    match (TextColumn(b.customerName), TextColumn(b.email), OrNull(b.phone))
    case (Some(c), Some(e), Some(p)) => Some(Order(orderNumber, c, e, p, NumberOf(b.totalAmount), Pending))
    case _ => None
  }

  /** The columns an update writes; `status` None leaves the stored status alone. */
  datatype OrderPatch = OrderPatch(
    customerName: string,
    email: string,
    phone: Option<string>,
    totalAmount: Option<real>,
    status: Option<string>)

  /** `status || undefined`: a falsy status writes nothing (Some(None)), a text one writes itself. */
  function StatusColumn(v: JsValue): Option<Option<string>> {
    if !Truthy(v) then Some(None)
    else if v.Str? then Some(Some(v.s))
    else None
  }

  function PatchOf(b: OrderBody): Option<OrderPatch> {
    match (TextColumn(b.customerName), TextColumn(b.email), NullishOrNull(b.phone), StatusColumn(b.status))
    case (Some(c), Some(e), Some(p), Some(st)) => Some(OrderPatch(c, e, p, NumberOf(b.totalAmount), st))
    case _ => None
  }

  function Apply(o: Order, p: OrderPatch): Order {
    Order(
      o.orderNumber, p.customerName, p.email, p.phone, p.totalAmount,
      if p.status.Some? then p.status.value else o.status)
  }

  /**
   * POST /orders at time `now` with random draw `random`. A refusal leaves
   * the table alone; a success adds one pending order under the next id.
   */
  function CreateOrder(t: Table<Order>, b: OrderBody, now: nat, random: real): (r: Reply<Order>)
    requires 0.0 <= random < 1.0
    ensures r.status in {Created, BadRequest(MissingFields), ServerError}
    ensures r.status == BadRequest(MissingFields) <==> !HasRequired(b)
    ensures r.status == Created <==> HasRequired(b) && StorableOnCreate(b) && t.nextId !in t.rows
    ensures r.status != Created ==> r.table == t && r.data.None?
    ensures r.status == Created ==>
      && r.data.Some?
      && r.table == Table(t.rows[t.nextId := r.data.value], t.nextId + 1)
      && var o := r.data.value;
      && o.orderNumber == OrderNumber(now, random)
      && o.status == Pending
      && o.customerName == b.customerName.s && o.email == b.email.s
      && o.phone == (if Truthy(b.phone) then Some(b.phone.s) else None)
      && o.totalAmount == NumberOf(b.totalAmount)
  {
    if !HasRequired(b) then Refuse(t, MissingFields)
    else
      match NewOrder(b, OrderNumber(now, random))
      case None => Fail(t)
      case Some(o) => Answer(t, Insert(t, o), Created)
  }

  /**
   * PUT /orders/:id. The id, then the fields, then the update. The order
   * number never changes, and a falsy status keeps the stored one.
   */
  function UpdateOrder(t: Table<Order>, rawId: string, b: OrderBody): (r: Reply<Order>)
    ensures r.status in {Ok, BadRequest(InvalidId), BadRequest(MissingFields), NotFound, ServerError}
    ensures r.status == BadRequest(InvalidId) <==> ParseId(rawId).None?
    ensures r.status == BadRequest(MissingFields) <==> ParseId(rawId).Some? && !HasRequired(b)
    ensures r.status == NotFound
        <==> (ParseId(rawId).Some? && HasRequired(b) && StorableOnUpdate(b) && ParseId(rawId).value !in t.rows)
    ensures r.status == Ok
        <==> (ParseId(rawId).Some? && HasRequired(b) && StorableOnUpdate(b) && ParseId(rawId).value in t.rows)
    ensures r.status != Ok ==> r.table == t && r.data.None?
    ensures r.status == Ok ==>
      && ParseId(rawId).Some? && StorableOnUpdate(b) && r.data.Some?
      && var id := ParseId(rawId).value;
      && id in t.rows
      && r.table == t.(rows := t.rows[id := r.data.value])
      && var o := r.data.value;
      && o.orderNumber == t.rows[id].orderNumber
      && o.status == (if Truthy(b.status) then b.status.s else t.rows[id].status)
      && o.customerName == b.customerName.s && o.email == b.email.s
      && o.phone == (if Nullish(b.phone) then None else Some(b.phone.s))
      && o.totalAmount == NumberOf(b.totalAmount)
  {
    match ParseId(rawId)
    case None => Refuse(t, InvalidId)
    case Some(id) =>
      if !HasRequired(b) then Refuse(t, MissingFields)
      else
        match PatchOf(b)
        case None => Fail(t)
        case Some(p) => Answer(t, Update(t, id, o => Apply(o, p)), Ok)
  }

  /** GET /orders/:id */
  function GetOrder(t: Table<Order>, rawId: string): Reply<Order> {
    GetById(t, rawId)
  }

  /** DELETE /orders/:id */
  function DeleteOrder(t: Table<Order>, rawId: string): Reply<Order> {
    DeleteById(t, rawId)
  }

  // ---------------------------------------------------------------------------
  // Properties across calls
  // ---------------------------------------------------------------------------

  /** A new order is read back, pending and with its generated number, by the decimal text of its id. */
  lemma CreateThenGetPending(t: Table<Order>, b: OrderBody, now: nat, random: real)
    requires 0.0 <= random < 1.0 && t.nextId >= 0
    requires CreateOrder(t, b, now, random).status == Created
    ensures var r := GetOrder(CreateOrder(t, b, now, random).table, DecimalString(t.nextId));
      && r.status == Ok
      && r.data.value.status == Pending
      && ReadOrderNumber(r.data.value.orderNumber) == Some((now, RandomSuffix(random)))
  {
    GetByDecimalId(CreateOrder(t, b, now, random).table, t.nextId);
    OrderNumberRoundTrip(now, random);
  }

  /** Sending the same update twice leaves the table as sending it once. */
  lemma UpdateIdempotent(t: Table<Order>, rawId: string, b: OrderBody)
    requires UpdateOrder(t, rawId, b).status == Ok
    ensures UpdateOrder(UpdateOrder(t, rawId, b).table, rawId, b).table == UpdateOrder(t, rawId, b).table
  {
  }

  /** The id is checked before the fields: a NaN id with an empty body is an invalid id. */
  lemma IdCheckedFirst(t: Table<Order>, rawId: string, b: OrderBody)
    requires ParseId(rawId).None? && !HasRequired(b)
    ensures UpdateOrder(t, rawId, b) == Refuse(t, InvalidId)
  {
  }

  /** Create adds a row under a fresh id and leaves every existing order as it was. */
  lemma CreateLeavesOthers(t: Table<Order>, b: OrderBody, now: nat, random: real, k: int)
    requires 0.0 <= random < 1.0
    requires k in t.rows
    ensures k in CreateOrder(t, b, now, random).table.rows && CreateOrder(t, b, now, random).table.rows[k] == t.rows[k]
  {
  }

  /** Update rewrites at most the row of its own id. */
  lemma UpdateLeavesOthers(t: Table<Order>, rawId: string, b: OrderBody, k: int)
    requires k in t.rows
    requires ParseId(rawId).Some? ==> k != ParseId(rawId).value
    ensures k in UpdateOrder(t, rawId, b).table.rows && UpdateOrder(t, rawId, b).table.rows[k] == t.rows[k]
  {
  }

  /** Delete removes at most the row of its own id. */
  lemma DeleteLeavesOthers(t: Table<Order>, rawId: string, k: int)
    requires k in t.rows
    requires ParseId(rawId).Some? ==> k != ParseId(rawId).value
    ensures k in DeleteOrder(t, rawId).table.rows && DeleteOrder(t, rawId).table.rows[k] == t.rows[k]
  {
  }
}
