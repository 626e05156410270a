/**
 * The member handlers: create and update with their email-uniqueness
 * check, and get and delete by id. Emails are unique only because the
 * handlers look before they write; `EmailsUnique` is that invariant, and
 * every handler keeps it.
 */
module Members {
  import opened Js
  import opened Store

  datatype Member = Member(
    firstName: string,
    lastName: string,
    email: string,
    phone: Option<string>,
    address: Option<string>)

  /** The fields of a create or update body, each as it arrived. */
  datatype MemberBody = MemberBody(
    firstName: JsValue,
    lastName: JsValue,
    email: JsValue,
    phone: JsValue,
    address: JsValue)

  /** No two members share an email. */
  predicate EmailsUnique(rows: map<int, Member>) {
    forall i, j :: i in rows && j in rows && rows[i].email == rows[j].email ==> i == j
  }

  /** `findUnique({ where: { email } })` finds a member. */
  predicate EmailInUse(rows: map<int, Member>, email: string) {
    exists k :: k in rows && rows[k].email == email
  }

  /** The member found by email exists and its id is not `self`. */
  predicate EmailHeldByOther(rows: map<int, Member>, email: string, self: int) {
    exists k :: k in rows && k != self && rows[k].email == email
  }

  /** `firstName`, `lastName` and `email` are all truthy. */
  predicate HasRequired(b: MemberBody) {
    Truthy(b.firstName) && Truthy(b.lastName) && Truthy(b.email)
  }

  /** Every value of a create body fits its column, with `phone || null` and `address || null`. */
  predicate StorableOnCreate(b: MemberBody) {
    && b.firstName.Str? && b.lastName.Str? && b.email.Str?
    && (!Truthy(b.phone) || b.phone.Str?)
    && (!Truthy(b.address) || b.address.Str?)
  }

  /** Every value of an update body fits its column, with `phone ?? null` and `address ?? null`. */
  predicate StorableOnUpdate(b: MemberBody) {
    && b.firstName.Str? && b.lastName.Str? && b.email.Str?
    && (Nullish(b.phone) || b.phone.Str?)
    && (Nullish(b.address) || b.address.Str?)
  }

  function NewMember(b: MemberBody): Option<Member> {
    match (TextColumn(b.firstName), TextColumn(b.lastName), TextColumn(b.email), OrNull(b.phone), OrNull(b.address))
    case (Some(f), Some(l), Some(e), Some(p), Some(a)) => Some(Member(f, l, e, p, a))
    case _ => None
  }

  function ReplacementMember(b: MemberBody): Option<Member> {
    match (TextColumn(b.firstName), TextColumn(b.lastName), TextColumn(b.email), NullishOrNull(b.phone), NullishOrNull(b.address))
    case (Some(f), Some(l), Some(e), Some(p), Some(a)) => Some(Member(f, l, e, p, a))
    case _ => None
  }

  /**
   * POST /members. Missing fields, then the email lookup, then the insert.
   * A refusal leaves the table as it was; a success adds exactly one row,
   * under the next id, holding the body's values.
   */
  function CreateMember(t: Table<Member>, b: MemberBody): (r: Reply<Member>)
    ensures r.status in {Created, BadRequest(MissingFields), BadRequest(EmailTaken), ServerError}
    ensures r.status == BadRequest(MissingFields) <==> !HasRequired(b)
    ensures r.status == BadRequest(EmailTaken) <==> HasRequired(b) && b.email.Str? && EmailInUse(t.rows, b.email.s)
    ensures r.status == Created
        <==> HasRequired(b) && StorableOnCreate(b) && !EmailInUse(t.rows, b.email.s) && t.nextId !in t.rows
    ensures r.status != Created ==> r.table == t && r.data.None?
    ensures r.status == Created ==>
      && r.data.Some?
      && r.table == Table(t.rows[t.nextId := r.data.value], t.nextId + 1)
      && var m := r.data.value;
      && m.firstName == b.firstName.s && m.lastName == b.lastName.s && m.email == b.email.s
      && m.phone == (if Truthy(b.phone) then Some(b.phone.s) else None)
      && m.address == (if Truthy(b.address) then Some(b.address.s) else None)
  {
    if !HasRequired(b) then Refuse(t, MissingFields)
    else if !b.email.Str? then Fail(t)
    else if EmailInUse(t.rows, b.email.s) then Refuse(t, EmailTaken)
    else
      match NewMember(b)
      case None => Fail(t)
      case Some(m) => Answer(t, Insert(t, m), Created)
  }

  /**
   * PUT /members/:id. The id, then the fields, then the email lookup, then
   * the update; every field is replaced. Only a success changes the table,
   * and then only the row of that id.
   */
  function UpdateMember(t: Table<Member>, rawId: string, b: MemberBody): (r: Reply<Member>)
    ensures r.status in {Ok, BadRequest(InvalidId), BadRequest(MissingFields), BadRequest(EmailTaken), NotFound, ServerError}
    ensures r.status == BadRequest(InvalidId) <==> ParseId(rawId).None?
    ensures r.status == BadRequest(MissingFields) <==> ParseId(rawId).Some? && !HasRequired(b)
    ensures r.status == BadRequest(EmailTaken)
        <==> (ParseId(rawId).Some? && HasRequired(b) && b.email.Str?
          && EmailHeldByOther(t.rows, b.email.s, ParseId(rawId).value))
    ensures r.status == NotFound
        <==> (ParseId(rawId).Some? && HasRequired(b) && StorableOnUpdate(b)
          && !EmailHeldByOther(t.rows, b.email.s, ParseId(rawId).value) && ParseId(rawId).value !in t.rows)
    ensures r.status == Ok
        <==> (ParseId(rawId).Some? && HasRequired(b) && StorableOnUpdate(b)
          && !EmailHeldByOther(t.rows, b.email.s, ParseId(rawId).value) && ParseId(rawId).value in t.rows)
    ensures r.status != Ok ==> r.table == t && r.data.None?
    ensures r.status == Ok ==>
      && ParseId(rawId).Some? && StorableOnUpdate(b) && r.data.Some?
      && var id := ParseId(rawId).value;
      && id in t.rows
      && r.table == t.(rows := t.rows[id := r.data.value])
      && var m := r.data.value;
      && m.firstName == b.firstName.s && m.lastName == b.lastName.s && m.email == b.email.s
      && m.phone == (if Nullish(b.phone) then None else Some(b.phone.s))
      && m.address == (if Nullish(b.address) then None else Some(b.address.s))
  {
    match ParseId(rawId)
    case None => Refuse(t, InvalidId)
    case Some(id) =>
      if !HasRequired(b) then Refuse(t, MissingFields)
      else if !b.email.Str? then Fail(t)
      else if EmailHeldByOther(t.rows, b.email.s, id) then Refuse(t, EmailTaken)
      else
        match ReplacementMember(b)
        case None => Fail(t)
        case Some(m) => Answer(t, Update(t, id, _ => m), Ok)
  }

  /** GET /members/:id */
  function GetMember(t: Table<Member>, rawId: string): Reply<Member> {
    GetById(t, rawId)
  }

  /** DELETE /members/:id */
  function DeleteMember(t: Table<Member>, rawId: string): Reply<Member> {
    DeleteById(t, rawId)
  }

  // ---------------------------------------------------------------------------
  // Properties across calls
  // ---------------------------------------------------------------------------

  /** Create keeps emails unique: it inserts only an email no member holds. */
  lemma CreateKeepsEmailsUnique(t: Table<Member>, b: MemberBody)
    requires EmailsUnique(t.rows)
    ensures EmailsUnique(CreateMember(t, b).table.rows)
  {
    var r := CreateMember(t, b);
    if r.status == Created {
      var rows := r.table.rows;
      forall i, j | i in rows && j in rows && rows[i].email == rows[j].email
        ensures i == j
      {
        if i != t.nextId && j != t.nextId {
          assert t.rows[i].email == t.rows[j].email;
        }
      }
    }
  }

  /** Update keeps emails unique: the new email is held by no other member. */
  lemma UpdateKeepsEmailsUnique(t: Table<Member>, rawId: string, b: MemberBody)
    requires EmailsUnique(t.rows)
    ensures EmailsUnique(UpdateMember(t, rawId, b).table.rows)
  {
    var r := UpdateMember(t, rawId, b);
    if r.status == Ok {
      var id := ParseId(rawId).value;
      var rows := r.table.rows;
      forall i, j | i in rows && j in rows && rows[i].email == rows[j].email
        ensures i == j
      {
        if i != id && j != id {
          assert t.rows[i].email == t.rows[j].email;
        }
      }
    }
  }

  /** Delete keeps emails unique: it only removes rows. */
  lemma DeleteKeepsEmailsUnique(t: Table<Member>, rawId: string)
    requires EmailsUnique(t.rows)
    ensures EmailsUnique(DeleteMember(t, rawId).table.rows)
  {
  }

  /** Once a create succeeds, its email is in use, so a second create with it is refused. */
  lemma SecondCreateRefused(t: Table<Member>, b: MemberBody, again: MemberBody)
    requires CreateMember(t, b).status == Created
    requires HasRequired(again) && again.email == b.email
    ensures CreateMember(CreateMember(t, b).table, again) == Refuse(CreateMember(t, b).table, EmailTaken)
  {
    var t' := CreateMember(t, b).table;
    assert t'.rows[t.nextId].email == b.email.s;
    assert EmailInUse(t'.rows, again.email.s);
  }

  /** A created member is read back by the decimal text of its new id. */
  lemma CreateThenGet(t: Table<Member>, b: MemberBody)
    requires t.nextId >= 0
    requires CreateMember(t, b).status == Created
    ensures GetMember(CreateMember(t, b).table, DecimalString(t.nextId))
         == Reply(Ok, CreateMember(t, b).table, CreateMember(t, b).data)
  {
    GetByDecimalId(CreateMember(t, b).table, t.nextId);
  }

  /**
   * The email check comes before the store update: an absent id with
   * another member's email is a 400, never a 404.
   */
  lemma ConflictBeforeNotFound(t: Table<Member>, rawId: string, b: MemberBody)
    requires ParseId(rawId).Some? && ParseId(rawId).value !in t.rows
    requires HasRequired(b) && b.email.Str? && EmailInUse(t.rows, b.email.s)
    ensures UpdateMember(t, rawId, b) == Refuse(t, EmailTaken)
  {
    var k :| k in t.rows && t.rows[k].email == b.email.s;
    assert k != ParseId(rawId).value;
  }

  /** With no conflict, an update of an absent id is a 404 that leaves the table alone. */
  lemma UpdateAbsentIsNotFound(t: Table<Member>, rawId: string, b: MemberBody)
    requires ParseId(rawId).Some? && ParseId(rawId).value !in t.rows
    requires HasRequired(b) && StorableOnUpdate(b) && !EmailInUse(t.rows, b.email.s)
    ensures UpdateMember(t, rawId, b) == Reply(NotFound, t, None)
  {
  }

  /** Keeping one's own email is no conflict: the update goes through, given unique emails. */
  lemma KeepOwnEmail(t: Table<Member>, rawId: string, b: MemberBody)
    requires EmailsUnique(t.rows)
    requires ParseId(rawId).Some? && ParseId(rawId).value in t.rows
    requires HasRequired(b) && StorableOnUpdate(b) && b.email == Str(t.rows[ParseId(rawId).value].email)
    ensures UpdateMember(t, rawId, b).status == Ok
  {
  }

  /** Create turns an empty phone into null; update stores it as the empty string. */
  lemma EmptyPhoneDefaulting(t: Table<Member>, rawId: string, b: MemberBody)
    requires b.phone == Str("")
    ensures CreateMember(t, b).status == Created ==> CreateMember(t, b).data.value.phone == None
    ensures UpdateMember(t, rawId, b).status == Ok ==> UpdateMember(t, rawId, b).data.value.phone == Some("")
  {
  }

  /** Create adds a row under a fresh id and leaves every existing member as it was. */
  lemma CreateLeavesOthers(t: Table<Member>, b: MemberBody, k: int)
    requires k in t.rows
    ensures k in CreateMember(t, b).table.rows && CreateMember(t, b).table.rows[k] == t.rows[k]
  {
  }

  /** Update rewrites at most the row of its own id. */
  lemma UpdateLeavesOthers(t: Table<Member>, rawId: string, b: MemberBody, k: int)
    requires k in t.rows
    requires ParseId(rawId).Some? ==> k != ParseId(rawId).value
    ensures k in UpdateMember(t, rawId, b).table.rows && UpdateMember(t, rawId, b).table.rows[k] == t.rows[k]
  {
  }

  /** Delete removes at most the row of its own id. */
  lemma DeleteLeavesOthers(t: Table<Member>, rawId: string, k: int)
    requires k in t.rows
    requires ParseId(rawId).Some? ==> k != ParseId(rawId).value
    ensures k in DeleteMember(t, rawId).table.rows && DeleteMember(t, rawId).table.rows[k] == t.rows[k]
  {
  }
}
