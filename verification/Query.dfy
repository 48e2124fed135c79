/** The query engine over materialised documents: field paths, comparisons, ordering and paging. */
module Query {
  import opened Prelude
  import opened Sorting
  import opened OperationLog

  /** A document row as listings see it. */
  datatype Row = Row(id: string, doc: Document, updated: int)

  datatype CompareOp = Eq | Ne | Lt | Le | Gt | Ge | Contains | StartsWith

  datatype Where = Where(field: string, op: CompareOp, value: Json)

  datatype QuerySpec = QuerySpec(
    where: seq<Where>, orderBy: Option<string>, descending: bool, limit: nat, offset: nat)

  datatype QueryError = Uncomparable

  // ---------------------------------------------------------------- field paths

  /** `path.split(".")`. */
  function Split(path: string): seq<string> {
    if path == "" then [""]
    else
      var rest := Split(path[1..]);
      if path[0] == '.' then [""] + rest
      else if rest == [] then [[path[0]]]
      else [[path[0]] + rest[0]] + rest[1..]
  }

  /** Follows the parts through nested objects; anything missing is `null`. */
  function Walk(current: Json, parts: seq<string>): Json {
    if parts == [] then current
    else if !current.Obj? || parts[0] !in current.fields then Null
    else Walk(current.fields[parts[0]], parts[1..])
  }

  function FieldAt(data: Object, path: string): Json {
    Walk(Obj(data), Split(path))
  }

  method GetField(data: Object, path: string) returns (r: Json)
    ensures r == FieldAt(data, path)
  {
    var parts := Split(path);
    var current := Obj(data);
    for n := 0 to |parts|
      invariant Walk(current, parts[n..]) == FieldAt(data, path)
    {
      assert parts[n..][1..] == parts[n + 1..];
      if !current.Obj? || parts[n] !in current.fields { return Null; }
      current := current.fields[parts[n]];
    }
    return current;
  }

  // ---------------------------------------------------------------- Python comparisons

  predicate IsNumber(j: Json) {
    j.Num? || j.Bool?
  }

  /** Python counts `True` and `False` as 1 and 0. */
  function NumberOf(j: Json): real
    requires IsNumber(j)
  {
    if j.Num? then j.n else if j.b then 1.0 else 0.0
  }

  predicate PyEqual(a: Json, b: Json)
    decreases a
  {
    if IsNumber(a) && IsNumber(b) then NumberOf(a) == NumberOf(b)
    else if a.Arr? && b.Arr? then
      |a.items| == |b.items| && forall i | 0 <= i < |a.items| :: PyEqual(a.items[i], b.items[i])
    else if a.Obj? && b.Obj? then
      a.fields.Keys == b.fields.Keys && forall k | k in a.fields :: PyEqual(a.fields[k], b.fields[k])
    else a == b
  }

  /** Lexicographic by code point. */
  predicate TextLess(a: string, b: string) {
    b != "" && (a == "" || a[0] < b[0] || (a[0] == b[0] && TextLess(a[1..], b[1..])))
  }

  /** `a < b`, or nothing where Python raises a TypeError. */
  function PyLess(a: Json, b: Json): Option<bool>
    decreases a
  {
    if IsNumber(a) && IsNumber(b) then Some(NumberOf(a) < NumberOf(b))
    else if a.Str? && b.Str? then Some(TextLess(a.s, b.s))
    else if a.Arr? && b.Arr? then ListLess(a.items, b.items)
    else None
  }

  /** Lists compare at the first position where they differ, else by length. */
  function ListLess(a: seq<Json>, b: seq<Json>): Option<bool>
    decreases a
  {
    if a == [] || b == [] then Some(|a| < |b|)
    else if PyEqual(a[0], b[0]) then ListLess(a[1..], b[1..])
    else PyLess(a[0], b[0])
  }

  predicate Occurs(part: string, text: string) {
    part <= text || (text != "" && Occurs(part, text[1..]))
  }

  /** `_compare`; `str` is Python's conversion of a value to text. */
  predicate Compare(left: Json, op: CompareOp, right: Json, str: Json -> string) {
    match op
    case Eq => PyEqual(left, right)
    case Ne => !PyEqual(left, right)
    case Contains =>
      if left.Str? then Occurs(str(right), left.s)
      else if left.Arr? then exists i | 0 <= i < |left.items| :: PyEqual(left.items[i], right)
      else false
    case StartsWith => left.Str? && str(right) <= left.s
    case Lt => PyLess(left, right) == Some(true)
    case Gt => PyLess(right, left) == Some(true)
    case Le => PyLess(left, right).Some? && (PyLess(left, right).value || PyEqual(left, right))
    case Ge => PyLess(right, left).Some? && (PyLess(right, left).value || PyEqual(left, right))
  }

  // ---------------------------------------------------------------- matching and ordering

  predicate Matches(row: Row, where: seq<Where>, str: Json -> string) {
    forall k | 0 <= k < |where| ::
      Compare(FieldAt(row.doc.data, where[k].field), where[k].op, where[k].value, str)
  }

  function Matched(rows: seq<Row>, where: seq<Where>, str: Json -> string): seq<Row> {
    Filter(rows, (r: Row) => Matches(r, where, str))
  }

  /** Numbers before strings before anything else, missing values last.  Python raises where two
      kinds meet, so only the order within one kind and of missing values matters. */
  function Kind(j: Json): nat {
    if IsNumber(j) then 0 else if j.Str? then 1 else if j.Null? then 3 else 2
  }

  predicate KeyLe(a: Json, b: Json) {
    if Kind(a) != Kind(b) then Kind(a) < Kind(b)
    else if IsNumber(a) then NumberOf(a) <= NumberOf(b)
    else if a.Str? then !TextLess(b.s, a.s)
    else true
  }

  lemma {:induction false} TextLessIsOrder(a: string, b: string, c: string)
    ensures !(TextLess(a, b) && TextLess(b, a))
    ensures TextLess(a, b) || TextLess(b, a) || a == b
    ensures TextLess(a, b) && TextLess(b, c) ==> TextLess(a, c)
  {
    if a != "" && b != "" {
      if c != "" { TextLessIsOrder(a[1..], b[1..], c[1..]); } else { TextLessIsOrder(a[1..], b[1..], c); }
      assert a == [a[0]] + a[1..] && b == [b[0]] + b[1..];
    }
  }

  lemma KeyLeIsOrder(a: Json, b: Json, c: Json)
    ensures KeyLe(a, b) || KeyLe(b, a)
    ensures KeyLe(a, b) && KeyLe(b, c) ==> KeyLe(a, c)
  {
    if a.Str? && b.Str? {
      TextLessIsOrder(a.s, b.s, a.s);
      if c.Str? {
        TextLessIsOrder(c.s, b.s, a.s);
        TextLessIsOrder(c.s, a.s, b.s);
        TextLessIsOrder(b.s, c.s, a.s);
      }
    }
  }

  /** Filters and sorting agree: on two numbers or two strings exactly one of `<`, `==` and `>` holds,
      `<=` and `>=` are what they say, and `<=` is the order that results are sorted by. */
  lemma FilterAgreesWithSort(a: Json, b: Json, str: Json -> string)
    requires (IsNumber(a) && IsNumber(b)) || (a.Str? && b.Str?)
    ensures Compare(a, Le, b, str) <==> KeyLe(a, b)
    ensures Compare(a, Le, b, str) <==> Compare(a, Lt, b, str) || Compare(a, Eq, b, str)
    ensures Compare(a, Ge, b, str) <==> !Compare(a, Lt, b, str)
    ensures Compare(a, Gt, b, str) <==> Compare(b, Lt, a, str)
    ensures !(Compare(a, Lt, b, str) && (Compare(a, Eq, b, str) || Compare(a, Gt, b, str)))
    ensures Compare(a, Lt, b, str) || Compare(a, Eq, b, str) || Compare(a, Gt, b, str)
  {
    if a.Str? { TextLessIsOrder(a.s, b.s, a.s); }
  }

  lemma {:induction false} PyEqualSymmetric(a: Json, b: Json)
    ensures PyEqual(a, b) <==> PyEqual(b, a)
    decreases a
  {
    if a.Arr? && b.Arr? && |a.items| == |b.items| {
      forall i | 0 <= i < |a.items| ensures PyEqual(a.items[i], b.items[i]) <==> PyEqual(b.items[i], a.items[i]) {
        PyEqualSymmetric(a.items[i], b.items[i]);
      }
    } else if a.Obj? && b.Obj? && a.fields.Keys == b.fields.Keys {
      forall k | k in a.fields ensures PyEqual(a.fields[k], b.fields[k]) <==> PyEqual(b.fields[k], a.fields[k]) {
        PyEqualSymmetric(a.fields[k], b.fields[k]);
      }
    }
  }

  /** Python can order two values one way exactly if it can the other way. */
  lemma {:induction false} OrderableBothWays(a: Json, b: Json)
    ensures PyLess(a, b).Some? <==> PyLess(b, a).Some?
    decreases a
  {
    if a.Arr? && b.Arr? { ListsOrderableBothWays(a.items, b.items); }
  }

  lemma {:induction false} ListsOrderableBothWays(a: seq<Json>, b: seq<Json>)
    ensures ListLess(a, b).Some? <==> ListLess(b, a).Some?
    decreases a
  {
    if a != [] && b != [] {
      PyEqualSymmetric(a[0], b[0]);
      if PyEqual(a[0], b[0]) { ListsOrderableBothWays(a[1..], b[1..]); } else { OrderableBothWays(a[0], b[0]); }
    }
  }

  /** A value that Python cannot order against the operand (another kind, a missing one, lists that differ
      first in such elements) passes none of `<`, `<=`, `>` and `>=`, on either side: it is left out, and
      nothing is raised. */
  lemma UnorderedNeverPasses(a: Json, b: Json, op: CompareOp, str: Json -> string)
    requires PyLess(a, b).None? && (op.Lt? || op.Le? || op.Gt? || op.Ge?)
    ensures !Compare(a, op, b, str) && !Compare(b, op, a, str)
  {
    OrderableBothWays(a, b);
  }

  function SortValue(r: Row, path: string): Json {
    FieldAt(r.doc.data, path)
  }

  predicate RowLe(a: Row, b: Row, path: string, descending: bool) {
    if descending then KeyLe(SortValue(b, path), SortValue(a, path))
    else KeyLe(SortValue(a, path), SortValue(b, path))
  }

  function OrderOf(path: string, descending: bool): (Row, Row) -> bool {
    (a, b) => RowLe(a, b, path, descending)
  }

  lemma OrderOfIsOrder(path: string, descending: bool)
    ensures TotalPreorder(OrderOf(path, descending))
  {
    var le := OrderOf(path, descending);
    forall a, b ensures le(a, b) || le(b, a) {
      KeyLeIsOrder(SortValue(a, path), SortValue(b, path), Null);
    }
    forall a, b, c ensures le(a, b) && le(b, c) ==> le(a, c) {
      KeyLeIsOrder(SortValue(a, path), SortValue(b, path), SortValue(c, path));
      KeyLeIsOrder(SortValue(c, path), SortValue(b, path), SortValue(a, path));
    }
  }

  /** Python can sort the values: at most one is present, or all are numbers, or all are strings. */
  predicate Sortable(rows: seq<Row>, path: string) {
    var present := Filter(rows, (r: Row) => !SortValue(r, path).Null?);
    || |present| <= 1
    || (forall k | 0 <= k < |present| :: IsNumber(SortValue(present[k], path)))
    || (forall k | 0 <= k < |present| :: SortValue(present[k], path).Str?)
  }

  /** All matching rows in result order. */
  function Ordered(rows: seq<Row>, q: QuerySpec, str: Json -> string): Result<seq<Row>, QueryError> {
    var matched := Matched(rows, q.where, str);
    if q.orderBy.None? then Success(matched)
    else if !Sortable(matched, q.orderBy.value) then Failure(Uncomparable)
    else Success(StableSort(matched, OrderOf(q.orderBy.value, q.descending)))
  }

  /** Python's `xs[offset : offset + limit]`. */
  function Slice<T>(xs: seq<T>, offset: nat, limit: nat): seq<T> {
    if offset >= |xs| then [] else xs[offset..Min(offset + limit, |xs|)]
  }

  datatype Page = Page(items: seq<Row>, total: nat, limit: nat, offset: nat)

  function RunQuery(rows: seq<Row>, q: QuerySpec, str: Json -> string): Result<Page, QueryError> {
    match Ordered(rows, q, str)
    case Failure(e) => Failure(e)
    case Success(all) => Success(Page(Slice(all, q.offset, q.limit), |all|, q.limit, q.offset))
  }

  /** The query route's loop over the rows, its sort and its page. */
  method QueryDocuments(rows: seq<Row>, q: QuerySpec, str: Json -> string) returns (r: Result<Page, QueryError>)
    ensures r == RunQuery(rows, q, str)
  {
    var matched: seq<Row> := [];
    for n := 0 to |rows|
      invariant matched == Matched(rows[..n], q.where, str)
    {
      var row := rows[n];
      assert Front(rows[..n + 1]) == rows[..n];
      var all := true;
      for k := 0 to |q.where|
        invariant all <==> forall j | 0 <= j < k ::
            Compare(FieldAt(row.doc.data, q.where[j].field), q.where[j].op, q.where[j].value, str)
      {
        var field := GetField(row.doc.data, q.where[k].field);
        all := all && Compare(field, q.where[k].op, q.where[k].value, str);
      }
      if all { matched := matched + [row]; }
    }
    assert rows[..|rows|] == rows;
    if q.orderBy.Some? {
      if !Sortable(matched, q.orderBy.value) { return Failure(Uncomparable); }
      matched := StableSort(matched, OrderOf(q.orderBy.value, q.descending));
    }
    return Success(Page(Slice(matched, q.offset, q.limit), |matched|, q.limit, q.offset));
  }

  // ---------------------------------------------------------------- what a query returns

  /** Where page `n` begins: `n` times the limit. */
  function PageStart(limit: nat, n: nat): (r: nat)
    ensures r == n * limit
  {
    if n == 0 then 0 else PageStart(limit, n - 1) + limit
  }

  /** The rows at offsets 0, L, 2L, ... up to the `n`-th page, one after the other. */
  function Pages(rows: seq<Row>, q: QuerySpec, str: Json -> string, n: nat): seq<Row> {
    if n == 0 then []
    else
      Pages(rows, q, str, n - 1) + PageAt(rows, q, str, PageStart(q.limit, n - 1))
  }

  function PageAt(rows: seq<Row>, q: QuerySpec, str: Json -> string, offset: nat): seq<Row> {
    match RunQuery(rows, q.(offset := offset), str)
    case Failure(_) => []
    case Success(page) => page.items
  }

  lemma PageIsSlice(rows: seq<Row>, q: QuerySpec, str: Json -> string, offset: nat)
    requires Ordered(rows, q, str).Success?
    ensures PageAt(rows, q, str, offset) == Slice(Ordered(rows, q, str).value, offset, q.limit)
  {
    assert Ordered(rows, q.(offset := offset), str) == Ordered(rows, q, str);
  }

  /** The same of a list that is already in order. */
  function Slices<T>(xs: seq<T>, limit: nat, n: nat): seq<T> {
    if n == 0 then [] else Slices(xs, limit, n - 1) + Slice(xs, PageStart(limit, n - 1), limit)
  }

  lemma {:induction false} PagesAreSlices(rows: seq<Row>, q: QuerySpec, str: Json -> string, n: nat, all: seq<Row>)
    requires Ordered(rows, q, str) == Success(all)
    ensures Pages(rows, q, str, n) == Slices(all, q.limit, n)
  {
    if n > 0 {
      PagesAreSlices(rows, q, str, n - 1, all);
      PageIsSlice(rows, q, str, PageStart(q.limit, n - 1));
    }
  }

  lemma {:induction false} SlicesArePrefix<T>(xs: seq<T>, limit: nat, n: nat)
    ensures Slices(xs, limit, n) <= xs && |Slices(xs, limit, n)| == Min(PageStart(limit, n), |xs|)
  {
    if n > 0 {
      SlicesArePrefix(xs, limit, n - 1);
      SliceExtends(xs, Slices(xs, limit, n - 1), PageStart(limit, n - 1), limit);
    }
  }

  lemma SliceExtends<T>(xs: seq<T>, front: seq<T>, offset: nat, limit: nat)
    requires front <= xs && |front| == Min(offset, |xs|)
    ensures front + Slice(xs, offset, limit) <= xs && |front + Slice(xs, offset, limit)| == Min(offset + limit, |xs|)
  {
  }

  /** PAGES TILE.  Over a fixed snapshot, the pages at offsets 0, L, 2L, ... put together are all the
      matching rows in result order: none is lost and none repeated.  Every page reports their number. */
  lemma PagesTile(rows: seq<Row>, q: QuerySpec, str: Json -> string, n: nat)
    requires Ordered(rows, q, str).Success? && n * q.limit >= |Matched(rows, q.where, str)|
    ensures Pages(rows, q, str, n) == Ordered(rows, q, str).value
    ensures multiset(Pages(rows, q, str, n)) == multiset(Matched(rows, q.where, str))
    ensures forall offset: nat :: RunQuery(rows, q.(offset := offset), str).Success? &&
                                  RunQuery(rows, q.(offset := offset), str).value.total == |Matched(rows, q.where, str)|
  {
    var matched := Matched(rows, q.where, str);
    PagesAreSlices(rows, q, str, n, Ordered(rows, q, str).value);
    SlicesArePrefix(Ordered(rows, q, str).value, q.limit, n);
    if q.orderBy.Some? { SortKeeps(matched, OrderOf(q.orderBy.value, q.descending)); }
    assert forall offset: nat :: Ordered(rows, q.(offset := offset), str) == Ordered(rows, q, str);
  }

  /** Result order: along the result the sort values go up (or down); missing fields come last when
      ascending and first when descending. */
  lemma ResultIsOrdered(rows: seq<Row>, q: QuerySpec, str: Json -> string, i: nat, j: nat)
    requires q.orderBy.Some? && Ordered(rows, q, str).Success? && i < j < |Ordered(rows, q, str).value|
    ensures
      var a := SortValue(Ordered(rows, q, str).value[i], q.orderBy.value);
      var b := SortValue(Ordered(rows, q, str).value[j], q.orderBy.value);
      && (if q.descending then KeyLe(b, a) else KeyLe(a, b))
      && (if q.descending then b.Null? ==> a.Null? else a.Null? ==> b.Null?)
  {
    var le := OrderOf(q.orderBy.value, q.descending);
    OrderOfIsOrder(q.orderBy.value, q.descending);
    SortSorts(Matched(rows, q.where, str), le);
    var all := Ordered(rows, q, str).value;
    assert le(all[i], all[j]);
  }

  /** Rows with tied sort values keep the order they had, in both directions. */
  lemma TiesKeepOrder(rows: seq<Row>, q: QuerySpec, str: Json -> string, tie: Json)
    requires q.orderBy.Some? && Ordered(rows, q, str).Success?
    ensures
      var tied := (r: Row) => KeyLe(SortValue(r, q.orderBy.value), tie) && KeyLe(tie, SortValue(r, q.orderBy.value));
      Filter(Ordered(rows, q, str).value, tied) == Filter(Matched(rows, q.where, str), tied)
  {
    var path := q.orderBy.value;
    var le := OrderOf(path, q.descending);
    var tied := (r: Row) => KeyLe(SortValue(r, path), tie) && KeyLe(tie, SortValue(r, path));
    forall a, b | tied(a) && tied(b) ensures le(a, b) {
      KeyLeIsOrder(SortValue(a, path), tie, SortValue(b, path));
      KeyLeIsOrder(SortValue(b, path), tie, SortValue(a, path));
    }
    SortIsStable(Matched(rows, q.where, str), le, tied);
  }

  // ---------------------------------------------------------------- listing order

  function Reversed<T>(xs: seq<T>): seq<T> {
    if xs == [] then [] else [Last(xs)] + Reversed(Front(xs))
  }

  predicate NewerFirst(a: Row, b: Row) {
    a.updated >= b.updated
  }

  /** `ORDER BY updated_at DESC, id DESC` over the live rows; `rows` is in id order. */
  function Listing(rows: seq<Row>): seq<Row> {
    StableSort(Reversed(Filter(rows, (r: Row) => !r.doc.deleted)), NewerFirst)
  }
}
