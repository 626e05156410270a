/**
 * The record store behind the CRUD handlers, in place of the Prisma
 * client: one table per entity, rows keyed by an auto-increment id. The
 * handlers rely on lookups by id, inserts, and updates and deletes by id
 * that fail with "record not found" (Prisma's P2025) when the id is
 * absent. Also here: the handlers' shared id check and the way a body
 * value becomes a column value.
 */
module Store {
  import opened Js

  /** Rows by id, and the id the auto-increment sequence hands out next. */
  datatype Table<R> = Table(rows: map<int, R>, nextId: int)

  /** Why a request was answered with 400. */
  datatype Refusal = InvalidId | MissingFields | EmailTaken

  /** The HTTP statuses the handlers answer with: 200, 201, 400, 404 and 500. */
  datatype Status = Ok | Created | BadRequest(why: Refusal) | NotFound | ServerError

  /** A handler's answer: its status, the table afterwards, and the record in the body, if any. */
  datatype Reply<R> = Reply(status: Status, table: Table<R>, data: Option<R>)

  /** The outcome of one write call. Failed is any other error the client raises. */
  datatype Write<R> = Done(table: Table<R>, row: R) | RecordNotFound | Failed

  /** `create`: the row takes the next id; an id already in use is a unique-key failure. */
  function Insert<R>(t: Table<R>, r: R): Write<R> {
    if t.nextId in t.rows then Failed
    else Done(Table(t.rows[t.nextId := r], t.nextId + 1), r)
  }

  /** `update({ where: { id }, data })`: the record is rewritten by `change`, or P2025. */
  function Update<R>(t: Table<R>, id: int, change: R -> R): Write<R> {
    if id !in t.rows then RecordNotFound
    else
      var r := change(t.rows[id]);
      Done(t.(rows := t.rows[id := r]), r)
  }

  /** `delete({ where: { id } })`: the deleted record, or P2025. */
  function Delete<R>(t: Table<R>, id: int): Write<R> {
    if id !in t.rows then RecordNotFound
    else Done(t.(rows := t.rows - {id}), t.rows[id])
  }

  function Refuse<R>(t: Table<R>, why: Refusal): Reply<R> {
    Reply(BadRequest(why), t, None)
  }

  function Fail<R>(t: Table<R>): Reply<R> {
    Reply(ServerError, t, None)
  }

  /** The catch block: P2025 becomes 404, any other error 500. */
  function Answer<R>(t: Table<R>, w: Write<R>, success: Status): Reply<R> {
    match w
    case Done(t', r) => Reply(success, t', Some(r))
    case RecordNotFound => Reply(NotFound, t, None)
    case Failed => Fail(t)
  }

  /** `parseInt(req.params.id, 10)`, refused only when it is NaN: 0 and negative ids pass. */
  function ParseId(raw: string): Option<int> {
    ParseInt(raw)
  }

  /**
   * GET /:id, the same for every entity: 400 for a NaN id before any
   * lookup, 404 for an absent id, else the record. The table never changes.
   */
  function GetById<R>(t: Table<R>, rawId: string): (r: Reply<R>)
    ensures r.table == t
    ensures r.status == BadRequest(InvalidId) <==> ParseId(rawId).None?
    ensures r.status == NotFound <==> ParseId(rawId).Some? && ParseId(rawId).value !in t.rows
    ensures r.status == Ok <==> ParseId(rawId).Some? && ParseId(rawId).value in t.rows
    ensures r.status == Ok ==> r.data == Some(t.rows[ParseId(rawId).value])
    ensures r.status != Ok ==> r.data.None?
    ensures r.status in {Ok, NotFound, BadRequest(InvalidId)}
  {
    match ParseId(rawId)
    case None => Refuse(t, InvalidId)
    case Some(id) => if id in t.rows then Reply(Ok, t, Some(t.rows[id])) else Reply(NotFound, t, None)
  }

  /**
   * DELETE /:id, the same for every entity: 400 for a NaN id, 404 for an
   * absent id, both with the table unchanged; else exactly that row goes.
   */
  function DeleteById<R>(t: Table<R>, rawId: string): (r: Reply<R>)
    ensures r.status == BadRequest(InvalidId) <==> ParseId(rawId).None?
    ensures r.status == NotFound <==> ParseId(rawId).Some? && ParseId(rawId).value !in t.rows
    ensures r.status != Ok ==> r.table == t && r.data.None?
    ensures r.status == Ok ==>
      && ParseId(rawId).Some?
      && var id := ParseId(rawId).value;
      && id in t.rows
      && r.data == Some(t.rows[id])
      && r.table == Table(t.rows - {id}, t.nextId)
    ensures r.status in {Ok, NotFound, BadRequest(InvalidId)}
  {
    match ParseId(rawId)
    case None => Refuse(t, InvalidId)
    case Some(id) => Answer(t, Delete(t, id), Ok)
  }

  /** After a delete, reading the same id back is a 404. */
  lemma DeleteThenGetNotFound<R>(t: Table<R>, rawId: string)
    requires DeleteById(t, rawId).status == Ok
    ensures GetById(DeleteById(t, rawId).table, rawId).status == NotFound
  {
  }

  /** Zero is a well-formed id: it reaches the store and, being absent, is a 404, not a 400. */
  lemma ZeroIdReachesStore<R>(t: Table<R>)
    requires 0 !in t.rows
    ensures GetById(t, "0").status == NotFound
    ensures DeleteById(t, "0").status == NotFound
  {
    assert DecimalString(0) == "0";
    assert "0" == "" + "" + DecimalString(0) + "";
    ParseIntReadsDecimal("", "", 0, "");
  }

  /** The decimal text of a row's id finds that row. */
  lemma GetByDecimalId<R>(t: Table<R>, id: nat)
    requires id in t.rows
    ensures GetById(t, DecimalString(id)) == Reply(Ok, t, Some(t.rows[id]))
  {
    assert DecimalString(id) == "" + "" + DecimalString(id) + "";
    ParseIntReadsDecimal("", "", id, "");
  }

  // ---------------------------------------------------------------------------
  // From body values to column values. A value the column's type cannot hold
  // fails the client's validation, which the handlers answer with 500.
  // ---------------------------------------------------------------------------

  /** A required text column. */
  function TextColumn(v: JsValue): Option<string> {
    if v.Str? then Some(v.s) else None
  }

  /** A nullable text column written `v || null`: every falsy value, "" included, is null. */
  function OrNull(v: JsValue): Option<Option<string>> {
    if !Truthy(v) then Some(None)
    else if v.Str? then Some(Some(v.s))
    else None
  }

  /** A nullable text column written `v ?? null`: only undefined and null are null, "" stays. */
  function NullishOrNull(v: JsValue): Option<Option<string>> {
    if Nullish(v) then Some(None)
    else if v.Str? then Some(Some(v.s))
    else None
  }

  /** The two defaulting operators differ on exactly the falsy values that are not nullish. */
  lemma OrNullVersusNullishOrNull(v: JsValue)
    ensures v == Str("") ==> OrNull(v) == Some(None) && NullishOrNull(v) == Some(Some(""))
    ensures Nullish(v) ==> OrNull(v) == NullishOrNull(v) == Some(None)
    ensures Truthy(v) ==> OrNull(v) == NullishOrNull(v)
    ensures !Truthy(v) && !Nullish(v) ==> OrNull(v) != NullishOrNull(v)
  {
  }
}
