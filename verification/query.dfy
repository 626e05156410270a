/**
 * Prisma-style query descriptors: the `where` objects and `orderBy` clauses
 * the search handlers build out of query-string values, and what it means
 * for a stored row to match a `where`. The builders for each entity live in
 * OrderQuery and ProductQuery; this module holds the parts they share.
 */
module Query {
  import opened Js

  /** A raw query-string value; None is a parameter the request lacks. */
  type Param = Option<string>

  /** `if (p)` on a query-string value: present and non-empty (" " counts). */
  predicate Given(p: Param) {
    p.Some? && p.value != ""
  }

  /**
   * A date parameter as `new Date(text)` reads it, with dates as day numbers:
   * Empty is the falsy "" text, Unparsable a non-empty text that gives an
   * Invalid Date.
   */
  datatype DateParam = Absent | Empty | Unparsable | OnDay(day: int)

  predicate DateGiven(d: DateParam) {
    d.Unparsable? || d.OnDay?
  }

  /** A value in a filter or in a row. Num(None) is NaN, Date(None) an Invalid Date. */
  datatype Scalar = Text(s: string) | Flag(b: bool) | Num(n: Option<real>) | Date(day: Option<int>)

  datatype Op = Gte | Lte | Gt | Lt

  /** The value of one key of a `where` object. */
  datatype Cond =
    | Equals(value: Scalar)                 // field: value
    | ContainsInsensitive(needle: string)   // field: { contains: needle, mode: 'insensitive' }
    | Compare(bounds: map<Op, Scalar>)      // field: { gte: a, lte: b, ... }
    | AnyOf(clauses: seq<Clause>)           // OR: [ { field: cond }, ... ]

  datatype Clause = Clause(field: string, cond: Cond)

  /** A `where` object: its keys are field names, or "OR". */
  type Where = map<string, Cond>

  datatype Direction = Asc | Desc

  /** `{ [field]: dir }` */
  datatype OrderBy = OrderBy(field: string, dir: Direction)

  /** The arguments of one `findMany` call. */
  datatype FindMany = FindMany(where: Where, orderBy: Option<OrderBy>)

  // ---------------------------------------------------------------------------
  // Builders shared by the entities
  // ---------------------------------------------------------------------------

  /** `raw === 'desc' ? 'desc' : 'asc'`: only the exact lower-case text sorts descending. */
  function SortDirection(raw: Param): (d: Direction)
    ensures d == Desc <==> raw == Some("desc")
  {
    if raw == Some("desc") then Desc else Asc
  }

  /** `allowed.includes(requested) ? requested : fallback` */
  function AllowListed(allowed: seq<string>, requested: Param, fallback: string): (f: string)
    ensures f in allowed || f == fallback
    ensures f != fallback ==> requested == Some(f)
    ensures requested.Some? && requested.value in allowed ==> f == requested.value
  {
    if requested.Some? && requested.value in allowed then requested.value else fallback
  }

  /** Adds `key: c` to a `where` when there is a condition to add. */
  function Put(w: Where, key: string, c: Option<Cond>): (r: Where)
    ensures r.Keys == if c.Some? then w.Keys + {key} else w.Keys
  {
    if c.Some? then w[key := c.value] else w
  }

  /** A bound object with at most a lower and an upper operator, each present only when given. */
  function BoundPair(lowOp: Op, low: Option<Scalar>, highOp: Op, high: Option<Scalar>): (b: map<Op, Scalar>)
    ensures b.Keys <= {lowOp, highOp}
  {
    var b: map<Op, Scalar> := if low.Some? then map[lowOp := low.value] else map[];
    if high.Some? then b[highOp := high.value] else b
  }

  /** `p ? parseFloat(p) : undefined` */
  function NumberBound(p: Param): Option<Scalar> {
    if Given(p) then Some(Num(ParseFloat(p.value))) else None
  }

  /** `{ ...(min ? { gte: parseFloat(min) } : {}), ...(max ? { lte: parseFloat(max) } : {}) }` */
  function NumberBounds(min: Param, max: Param): map<Op, Scalar> {
    BoundPair(Gte, NumberBound(min), Lte, NumberBound(max))
  }

  /** The search form: the field is filtered only when one of min or max is given. */
  function NumberRange(min: Param, max: Param): Option<Cond> {
    if Given(min) || Given(max) then Some(Compare(NumberBounds(min, max))) else None
  }

  function DateValue(d: DateParam): Scalar {
    if d.OnDay? then Date(Some(d.day)) else Date(None)
  }

  /** `end.setDate(end.getDate() + 1)`: an Invalid Date stays invalid. */
  function NextDay(v: Scalar): Scalar {
    if v.Date? && v.day.Some? then Date(Some(v.day.value + 1)) else v
  }

  /** `gte: new Date(start)` and `lt:` the day after `new Date(end)`, each only when given. */
  function DateBounds(start: DateParam, end: DateParam): map<Op, Scalar> {
    BoundPair(
      Gte, if DateGiven(start) then Some(DateValue(start)) else None,
      Lt, if DateGiven(end) then Some(NextDay(DateValue(end))) else None)
  }

  /** `if (startDate || endDate) where.orderDate = { ... }` */
  function DateRange(start: DateParam, end: DateParam): Option<Cond> {
    if DateGiven(start) || DateGiven(end) then Some(Compare(DateBounds(start, end))) else None
  }

  /**
   * The range demonstration endpoints: `field` is always a key, holding
   * `{}` when neither bound is given (unlike the search, which leaves it out).
   */
  function RangeQuery(field: string, min: Param, max: Param): (q: FindMany)
    ensures q.orderBy.None?
    ensures q.where.Keys == {field} && q.where[field].Compare?
    ensures Gte in q.where[field].bounds <==> Given(min)
    ensures Lte in q.where[field].bounds <==> Given(max)
    ensures q.where[field].bounds.Keys <= {Gte, Lte}
  {
    FindMany(map[field := Compare(NumberBounds(min, max))], None)
  }

  /**
   * The sort demonstration endpoints: `req.query.by || 'id'`, then the
   * allow-list with `id` as the fallback, and the direction.
   */
  function SortQuery(allowed: seq<string>, sortBy: Param, dir: Param): (q: FindMany)
    ensures q.where == map[] && q.orderBy.Some?
    ensures q.orderBy.value.field in allowed || q.orderBy.value.field == "id"
    ensures q.orderBy.value.field != "id" ==> sortBy == Some(q.orderBy.value.field)
    ensures Given(sortBy) && sortBy.value in allowed ==> q.orderBy.value.field == sortBy.value
    ensures !Given(sortBy) ==> q.orderBy.value.field == "id"
    ensures q.orderBy.value.dir == Desc <==> dir == Some("desc")
  {
    var requested := if Given(sortBy) then sortBy.value else "id";
    FindMany(map[], Some(OrderBy(AllowListed(allowed, Some(requested), "id"), SortDirection(dir))))
  }

  // ---------------------------------------------------------------------------
  // What a row must be to match a `where`
  // ---------------------------------------------------------------------------

  /** A stored row, by column name. */
  type Row = map<string, Scalar>

  function Lower(c: char): char {
    if 'A' <= c <= 'Z' then (c as int + 32) as char else c
  }

  function LowerAll(s: string): (r: string)
    ensures |r| == |s|
  {
    seq(|s|, i requires 0 <= i < |s| => Lower(s[i]))
  }

  predicate OccursAt(needle: string, hay: string, i: int) {
    0 <= i <= |hay| - |needle| && hay[i..i + |needle|] == needle
  }

  predicate IsSubstring(needle: string, hay: string) {
    exists i :: 0 <= i <= |hay| && OccursAt(needle, hay, i)
  }

  /** `mode: 'insensitive'` `contains`: a substring once letters are folded to lower case. */
  predicate ContainsIgnoringCase(hay: string, needle: string) {
    IsSubstring(LowerAll(needle), LowerAll(hay))
  }

  predicate Compares(op: Op, x: real, bound: real) {
    match op
    case Gte => x >= bound
    case Lte => x <= bound
    case Gt => x > bound
    case Lt => x < bound
  }

  /** A comparison against NaN or an Invalid Date is assumed to hold for no value (IEEE comparison semantics). */
  predicate Satisfies(v: Scalar, op: Op, bound: Scalar) {
    if v.Num? && bound.Num? && v.n.Some? && bound.n.Some? then Compares(op, v.n.value, bound.n.value)
    else if v.Date? && bound.Date? && v.day.Some? && bound.day.Some? then Compares(op, v.day.value as real, bound.day.value as real)
    else false
  }

  /** Whether `field: c` holds of a row; an empty `{}` bound object holds of every row, `OR: []` of none. */
  predicate Holds(field: string, c: Cond, row: Row)
    decreases c
  {
    match c
    case Equals(v) => field in row && row[field] == v
    case ContainsInsensitive(n) => field in row && row[field].Text? && ContainsIgnoringCase(row[field].s, n)
    case Compare(bounds) => forall op :: op in bounds ==> field in row && Satisfies(row[field], op, bounds[op])
    case AnyOf(cs) => exists i :: 0 <= i < |cs| && Holds(cs[i].field, cs[i].cond, row)
  }

  /** Every key of the `where` holds of the row. */
  predicate Matches(w: Where, row: Row) {
    forall k :: k in w ==> Holds(k, w[k], row)
  }

  // ---------------------------------------------------------------------------
  // The intent the descriptors are meant to express, stated without them
  // ---------------------------------------------------------------------------

  predicate TextHas(row: Row, field: string, needle: string) {
    field in row && row[field].Text? && ContainsIgnoringCase(row[field].s, needle)
  }

  predicate FieldIs(row: Row, field: string, v: Scalar) {
    field in row && row[field] == v
  }

  /** The field holds a number, and it is at least (or at most) the number `text` parses to. */
  predicate NumberAtLeast(row: Row, field: string, text: string) {
    field in row && row[field].Num? && row[field].n.Some? && ParseFloat(text).Some?
    && row[field].n.value >= ParseFloat(text).value
  }

  predicate NumberAtMost(row: Row, field: string, text: string) {
    field in row && row[field].Num? && row[field].n.Some? && ParseFloat(text).Some?
    && row[field].n.value <= ParseFloat(text).value
  }

  /** The field holds a date on the start day or later; an unparsable start admits nothing. */
  predicate OnOrAfter(row: Row, field: string, start: DateParam) {
    field in row && row[field].Date? && row[field].day.Some?
    && match start
       case OnDay(s) => s <= row[field].day.value
       case Unparsable => false
       case _ => true
  }

  /** The field holds a date on the end day or earlier: the end day is included. */
  predicate OnOrBefore(row: Row, field: string, end: DateParam) {
    field in row && row[field].Date? && row[field].day.Some?
    && match end
       case OnDay(e) => row[field].day.value <= e
       case Unparsable => false
       case _ => true
  }

  // ---------------------------------------------------------------------------
  // Meaning of the shared builders
  // ---------------------------------------------------------------------------

  /** Adding a fresh key adds exactly its condition to what a row must satisfy. */
  lemma MatchesPut(w: Where, key: string, c: Option<Cond>, row: Row)
    requires key !in w
    ensures Matches(Put(w, key, c), row) <==> Matches(w, row) && (c.Some? ==> Holds(key, c.value, row))
  {
    if c.Some? {
      var r := Put(w, key, c);
      if Matches(w, row) && Holds(key, c.value, row) {
        forall k | k in r
          ensures Holds(k, r[k], row)
        {
          if k != key {
            assert r[k] == w[k];
          }
        }
      }
      if Matches(r, row) {
        forall k | k in w
          ensures Holds(k, w[k], row)
        {
          assert r[k] == w[k];
        }
        assert key in r;
      }
    }
  }

  /** A bound object with one operator holds exactly when the field satisfies it. */
  lemma SingleBoundMeaning(field: string, op: Op, bound: Scalar, row: Row)
    ensures Holds(field, Compare(map[op := bound]), row) <==> field in row && Satisfies(row[field], op, bound)
  {
    assert op in map[op := bound];
  }

  /** Adding an operator that is not yet there adds exactly its comparison to a bound object. */
  lemma AddBoundMeaning(field: string, b: map<Op, Scalar>, op: Op, v: Scalar, row: Row)
    requires op !in b
    ensures Holds(field, Compare(b[op := v]), row)
        <==> (Holds(field, Compare(b), row) && field in row && Satisfies(row[field], op, v))
  {
    var b' := b[op := v];
    if Holds(field, Compare(b), row) && field in row && Satisfies(row[field], op, v) {
      forall o | o in b'
        ensures field in row && Satisfies(row[field], o, b'[o])
      {
        if o != op {
          assert b'[o] == b[o];
        }
      }
    }
    if Holds(field, Compare(b'), row) {
      forall o | o in b
        ensures field in row && Satisfies(row[field], o, b[o])
      {
        assert b'[o] == b[o];
      }
      assert op in b';
    }
  }

  /** A bound pair holds exactly when the field satisfies each bound that is present. */
  lemma BoundPairMeaning(field: string, lowOp: Op, low: Option<Scalar>, highOp: Op, high: Option<Scalar>, row: Row)
    requires lowOp != highOp
    ensures Holds(field, Compare(BoundPair(lowOp, low, highOp, high)), row)
        <==> ((low.Some? ==> field in row && Satisfies(row[field], lowOp, low.value))
          && (high.Some? ==> field in row && Satisfies(row[field], highOp, high.value)))
  {
    var none: map<Op, Scalar> := map[];
    var b := if low.Some? then none[lowOp := low.value] else none;
    assert Holds(field, Compare(none), row);
    if low.Some? {
      AddBoundMeaning(field, none, lowOp, low.value, row);
    }
    if high.Some? {
      AddBoundMeaning(field, b, highOp, high.value, row);
    }
  }

  /** `{ gte: min, lte: max }` holds exactly of rows whose number lies within the bounds given. */
  lemma NumberBoundsMeaning(min: Param, max: Param, field: string, row: Row)
    ensures Holds(field, Compare(NumberBounds(min, max)), row)
        <==> ((Given(min) ==> NumberAtLeast(row, field, min.value))
          && (Given(max) ==> NumberAtMost(row, field, max.value)))
  {
    BoundPairMeaning(field, Gte, NumberBound(min), Lte, NumberBound(max), row);
  }

  /**
   * `{ gte: start, lt: end + 1 day }` holds exactly of rows dated from the
   * start day through the end day, both included.
   */
  lemma DateBoundsMeaning(start: DateParam, end: DateParam, field: string, row: Row)
    ensures Holds(field, Compare(DateBounds(start, end)), row)
        <==> ((DateGiven(start) ==> OnOrAfter(row, field, start))
          && (DateGiven(end) ==> OnOrBefore(row, field, end)))
  {
    BoundPairMeaning(
      field,
      Gte, if DateGiven(start) then Some(DateValue(start)) else None,
      Lt, if DateGiven(end) then Some(NextDay(DateValue(end))) else None,
      row);
  }

  /** A range endpoint keeps the rows within the bounds given, and every row when none is. */
  lemma RangeQueryMeaning(field: string, min: Param, max: Param, row: Row)
    ensures Matches(RangeQuery(field, min, max).where, row)
        <==> ((Given(min) ==> NumberAtLeast(row, field, min.value))
          && (Given(max) ==> NumberAtMost(row, field, max.value)))
  {
    var w := RangeQuery(field, min, max).where;
    assert Matches(w, row) <==> Holds(field, w[field], row);
    NumberBoundsMeaning(min, max, field, row);
  }

  /** With both ends given, the last day matches and the day after it does not. */
  lemma {:induction false} EndDayIncluded(start: int, end: int, field: string)
    requires start <= end
    ensures Holds(field, DateRange(OnDay(start), OnDay(end)).value, map[field := Date(Some(end))])
    ensures !Holds(field, DateRange(OnDay(start), OnDay(end)).value, map[field := Date(Some(end + 1))])
  {
    DateBoundsMeaning(OnDay(start), OnDay(end), field, map[field := Date(Some(end))]);
    DateBoundsMeaning(OnDay(start), OnDay(end), field, map[field := Date(Some(end + 1))]);
  }

  /** Folding case on both sides makes "smith" find "Smith". */
  lemma ContainsIgnoringCaseExample()
    ensures ContainsIgnoringCase("Smith", "smith")
    ensures !ContainsIgnoringCase("Ann", " ")
  {
    assert LowerAll("Smith") == "smith";
    assert LowerAll("smith") == "smith";
    assert OccursAt("smith", "smith", 0);
    assert LowerAll(" ") == " ";
    assert LowerAll("Ann") == "ann";
    forall i | 0 <= i <= 3
      ensures !OccursAt(" ", "ann", i)
    {
      if i < 3 {
        assert "ann"[i..i + 1] == ["ann"[i]];
      }
    }
  }
}
