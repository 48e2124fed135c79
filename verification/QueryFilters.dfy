/** What a query's filters, field paths and orders mean, said of the values themselves. */
module QueryFilters {
  import opened Prelude
  import opened Sorting
  import opened OperationLog
  import opened Query
  import TtlCache

  // ---------------------------------------------------------------- equality

  /** One filter on one field. */
  function On(field: string, op: CompareOp, value: Json): QuerySpec {
    QuerySpec([Where(field, op, value)], None, false, 0, 0)
  }

  /** Whether the row passes the one filter. */
  predicate Passes(r: Row, field: string, op: CompareOp, value: Json, str: Json -> string) {
    Matches(r, On(field, op, value).where, str)
  }

  lemma PassesIs(r: Row, field: string, op: CompareOp, value: Json, str: Json -> string)
    ensures Passes(r, field, op, value, str) <==> Compare(FieldAt(r.doc.data, field), op, value, str)
  {
    var where := On(field, op, value).where;
    assert |where| == 1 && where[0] == Where(field, op, value);
  }

  /** A row passes a list of filters exactly if it passes each of them. */
  lemma MatchesAll(r: Row, where: seq<Where>, str: Json -> string)
    ensures Matches(r, where, str) <==> forall w | w in where :: Passes(r, w.field, w.op, w.value, str)
  {
    forall k | 0 <= k < |where|
      ensures Passes(r, where[k].field, where[k].op, where[k].value, str) <==>
              Compare(FieldAt(r.doc.data, where[k].field), where[k].op, where[k].value, str)
    {
      PassesIs(r, where[k].field, where[k].op, where[k].value, str);
    }
    if Matches(r, where, str) {
      forall w | w in where ensures Passes(r, w.field, w.op, w.value, str) {
        var k :| 0 <= k < |where| && where[k] == w;
      }
    } else {
      var k :| 0 <= k < |where| && !Compare(FieldAt(r.doc.data, where[k].field), where[k].op, where[k].value, str);
      assert where[k] in where;
    }
  }

  /** What equality is: the same text, the same number (`true` is 1), the same truth value, both missing. */
  lemma EqualityIs(a: Json, b: Json, str: Json -> string)
    ensures a == b ==> Compare(a, Eq, b, str)
    ensures a.Str? ==> (Compare(a, Eq, b, str) <==> b.Str? && a.s == b.s)
    ensures a.Null? ==> (Compare(a, Eq, b, str) <==> b.Null?)
    ensures a.Num? && b.Num? ==> (Compare(a, Eq, b, str) <==> a.n == b.n)
    ensures a.Bool? && b.Bool? ==> (Compare(a, Eq, b, str) <==> a.b == b.b)
    ensures a.Bool? && b.Num? ==> (Compare(a, Eq, b, str) <==> b.n == if a.b then 1.0 else 0.0)
    ensures a.Num? && !(b.Num? || b.Bool?) ==> !Compare(a, Eq, b, str)
    ensures Compare(a, Ne, b, str) <==> !Compare(a, Eq, b, str)
  {
    if a == b { PyEqualReflexive(a); }
  }

  lemma {:induction false} PyEqualReflexive(a: Json)
    ensures PyEqual(a, a)
    decreases a
  {
    match a
    case Arr(items) => forall i | 0 <= i < |items| ensures PyEqual(items[i], items[i]) { PyEqualReflexive(items[i]); }
    case Obj(fields) => forall k | k in fields ensures PyEqual(fields[k], fields[k]) { PyEqualReflexive(fields[k]); }
    case _ =>
  }

  /** Lists are equal element by element, objects field by field. */
  lemma EqualityIsDeep(a: Json, b: Json, str: Json -> string)
    ensures a.Arr? ==> (Compare(a, Eq, b, str) <==>
              b.Arr? && |a.items| == |b.items|
              && forall i | 0 <= i < |a.items| :: Compare(a.items[i], Eq, b.items[i], str))
    ensures a.Obj? ==> (Compare(a, Eq, b, str) <==>
              b.Obj? && a.fields.Keys == b.fields.Keys
              && forall k | k in a.fields :: Compare(a.fields[k], Eq, b.fields[k], str))
  {
    if a.Arr? && b.Arr? && |a.items| == |b.items| {
      forall i | 0 <= i < |a.items| ensures Compare(a.items[i], Eq, b.items[i], str) <==>
                                            PyEqual(a.items[i], b.items[i]) { }
    }
    if a.Obj? && b.Obj? && a.fields.Keys == b.fields.Keys {
      forall k | k in a.fields ensures Compare(a.fields[k], Eq, b.fields[k], str) <==>
                                       PyEqual(a.fields[k], b.fields[k]) { }
    }
  }

  lemma {:induction false} CountSplits<T>(xs: seq<T>, p: T -> bool, q: T -> bool)
    requires forall x | x in xs :: p(x) <==> !q(x)
    ensures |Filter(xs, p)| + |Filter(xs, q)| == |xs|
  {
    if xs != [] {
      assert Last(xs) in xs && forall x | x in Front(xs) :: x in xs;
      CountSplits(Front(xs), p, q);
    }
  }

  /** EQUAL AND NOT EQUAL split a snapshot: every row is in exactly one of the two results, a row without the
      field on the side of `!=` unless the operand is null, and the two totals add up to the number of rows. */
  lemma EqualAndNotEqualSplit(rows: seq<Row>, field: string, value: Json, str: Json -> string)
    ensures
      var same, other := Ordered(rows, On(field, Eq, value), str), Ordered(rows, On(field, Ne, value), str);
      && same.Success? && other.Success? && |same.value| + |other.value| == |rows|
      && (forall r | r in rows :: (r in same.value) != (r in other.value))
      && (forall r | r in same.value :: r in rows && Compare(FieldAt(r.doc.data, field), Eq, value, str))
      && (forall r | r in other.value :: r in rows && !Compare(FieldAt(r.doc.data, field), Eq, value, str))
      && (forall r | r in rows && FieldAt(r.doc.data, field).Null? && !value.Null? :: r in other.value)
  {
    var eq, ne := On(field, Eq, value).where, On(field, Ne, value).where;
    var p, q := (r: Row) => Matches(r, eq, str), (r: Row) => Matches(r, ne, str);
    forall r: Row
      ensures p(r) <==> !q(r)
      ensures r in Filter(rows, p) <==> r in rows && Compare(FieldAt(r.doc.data, field), Eq, value, str)
      ensures r in Filter(rows, q) <==> r in rows && !Compare(FieldAt(r.doc.data, field), Eq, value, str)
    {
      PassesIs(r, field, Eq, value, str);
      PassesIs(r, field, Ne, value, str);
      EqualityIs(FieldAt(r.doc.data, field), value, str);
      TtlCache.FilterMembers(rows, p, r);
      TtlCache.FilterMembers(rows, q, r);
    }
    CountSplits(rows, p, q);
    assert Matched(rows, eq, str) == Filter(rows, p) && Matched(rows, ne, str) == Filter(rows, q);
  }

  // ---------------------------------------------------------------- text and lists

  lemma {:induction false} OccursIs(part: string, text: string)
    ensures Occurs(part, text) <==> exists a, b :: text == a + part + b
  {
    if part <= text {
      assert text == [] + part + text[|part|..];
    } else if text != "" {
      OccursIs(part, text[1..]);
      if Occurs(part, text[1..]) {
        var a, b :| text[1..] == a + part + b;
        assert text == ([text[0]] + a) + part + b;
      }
      if a, b :| text == a + part + b {
        NothingBefore(a, part, b);
        assert text[1..] == a[1..] + part + b;
      }
    } else {
      forall a, b ensures text != a + part + b { assert |a + part + b| >= |part|; }
    }
  }

  lemma NothingBefore(a: string, part: string, b: string)
    ensures a == [] ==> part <= a + part + b
  {
    assert a == [] ==> a + part + b == part + b;
  }

  /** CONTAINS and STARTS-WITH on text: the operand's text stands inside, or at the start. */
  lemma TextFilters(left: string, right: Json, str: Json -> string)
    ensures Compare(Str(left), Contains, right, str) <==> exists a, b :: left == a + str(right) + b
    ensures Compare(Str(left), StartsWith, right, str) <==> exists b :: left == str(right) + b
  {
    OccursIs(str(right), left);
    if str(right) <= left { assert left == str(right) + left[|str(right)|..]; }
  }

  /** CONTAINS on a list: some element equals the operand.  Nothing else passes either filter. */
  lemma ListFilters(left: Json, right: Json, str: Json -> string)
    ensures left.Arr? ==> (Compare(left, Contains, right, str) <==>
                           exists x :: x in left.items && Compare(x, Eq, right, str))
    ensures !left.Arr? && !left.Str? ==> !Compare(left, Contains, right, str)
    ensures !left.Str? ==> !Compare(left, StartsWith, right, str)
  {
    if left.Arr? {
      if i :| 0 <= i < |left.items| && PyEqual(left.items[i], right) {
        assert left.items[i] in left.items && Compare(left.items[i], Eq, right, str);
      }
      if x :| x in left.items && Compare(x, Eq, right, str) {
        var i :| 0 <= i < |left.items| && left.items[i] == x;
        assert PyEqual(left.items[i], right);
      }
    }
  }

  // ---------------------------------------------------------------- order

  /** The texts agree up to position `n`, where the first is at its end or has the smaller character. */
  predicate SmallerAt(a: string, b: string, n: nat) {
    n <= |a| && n < |b| && a[..n] == b[..n] && (n == |a| || a[n] < b[n])
  }

  lemma FirstIsShared(a: string, b: string, n: nat)
    ensures SmallerAt(a, b, n) && n > 0 ==> a[0] == b[0]
  {
    if SmallerAt(a, b, n) && n > 0 { assert a[..n][0] == b[..n][0]; }
  }

  /** Text order is the order of the first difference, a beginning of a text coming before it. */
  lemma {:induction false} TextOrderIs(a: string, b: string)
    ensures TextLess(a, b) <==> exists n: nat :: SmallerAt(a, b, n)
  {
    if b != "" && (a == "" || a[0] < b[0]) {
      assert SmallerAt(a, b, 0);
    } else if b != "" && a[0] == b[0] {
      TextOrderIs(a[1..], b[1..]);
      if TextLess(a[1..], b[1..]) {
        var n: nat :| SmallerAt(a[1..], b[1..], n);
        assert a[..n + 1] == [a[0]] + a[1..][..n] && b[..n + 1] == [b[0]] + b[1..][..n];
        assert SmallerAt(a, b, n + 1);
      }
      if n: nat :| SmallerAt(a, b, n) {
        assert n > 0;
        assert a[1..][..n - 1] == a[..n][1..] && b[1..][..n - 1] == b[..n][1..];
        assert SmallerAt(a[1..], b[1..], n - 1);
      }
    } else if b != "" {
      forall n: nat ensures !SmallerAt(a, b, n) { FirstIsShared(a, b, n); }
    }
  }

  /** LESS THAN and its kin on numbers are the numbers' own order, and on text the text order. */
  lemma OrderFilters(a: Json, b: Json, str: Json -> string)
    ensures a.Num? && b.Num? ==> && (Compare(a, Lt, b, str) <==> a.n < b.n)
                                 && (Compare(a, Le, b, str) <==> a.n <= b.n)
                                 && (Compare(a, Gt, b, str) <==> a.n > b.n)
                                 && (Compare(a, Ge, b, str) <==> a.n >= b.n)
    ensures a.Str? && b.Str? ==> && (Compare(a, Lt, b, str) <==> exists n: nat :: SmallerAt(a.s, b.s, n))
                                 && (Compare(a, Gt, b, str) <==> exists n: nat :: SmallerAt(b.s, a.s, n))
  {
    if a.Str? && b.Str? {
      TextOrderIs(a.s, b.s);
      TextOrderIs(b.s, a.s);
    }
  }

  /** Lists are compared at the first position where they differ, or else by length. */
  lemma {:induction false} ListOrderIs(a: seq<Json>, b: seq<Json>, n: nat)
    requires n <= |a| && n <= |b| && forall i | 0 <= i < n :: PyEqual(a[i], b[i])
    ensures n < |a| && n < |b| && !PyEqual(a[n], b[n]) ==> ListLess(a, b) == PyLess(a[n], b[n])
    ensures n == |a| || n == |b| ==> ListLess(a, b) == Some(|a| < |b|)
  {
    if n > 0 {
      assert forall i | 0 <= i < n - 1 :: a[1..][i] == a[i + 1] && b[1..][i] == b[i + 1];
      ListOrderIs(a[1..], b[1..], n - 1);
    }
  }

  // ---------------------------------------------------------------- field paths

  function Join(parts: seq<string>): string {
    if parts == [] then "" else if |parts| == 1 then parts[0] else parts[0] + "." + Join(parts[1..])
  }

  /** A path is taken apart at its dots: the parts have none and, joined by dots, are the path. */
  lemma {:induction false} SplitIsAtDots(path: string)
    ensures Split(path) != [] && Join(Split(path)) == path
    ensures forall p | p in Split(path) :: '.' !in p
  {
    if path != "" {
      var rest := Split(path[1..]);
      SplitIsAtDots(path[1..]);
      assert path == [path[0]] + path[1..];
      if path[0] == '.' {
        assert Split(path) == [""] + rest && Split(path)[1..] == rest;
      } else {
        assert Split(path) == [[path[0]] + rest[0]] + rest[1..];
        assert Split(path)[1..] == rest[1..];
        assert rest[0] in rest;
        forall p | p in Split(path) ensures '.' !in p { assert p in rest || p == [path[0]] + rest[0]; }
      }
    }
  }

  lemma {:induction false} NoDotNoSplit(path: string)
    requires '.' !in path
    ensures Split(path) == [path]
  {
    if path != "" {
      NoDotNoSplit(path[1..]);
      assert path == [path[0]] + path[1..];
    }
  }

  lemma {:induction false} SplitAtDot(a: string, b: string)
    requires '.' !in a
    ensures Split(a + "." + b) == [a] + Split(b)
  {
    var path := a + "." + b;
    if a == "" {
      assert path[0] == '.' && path[1..] == b;
    } else {
      SplitAtDot(a[1..], b);
      assert path[0] == a[0] && path[1..] == a[1..] + "." + b;
      assert a == [a[0]] + a[1..];
    }
  }

  /** A FIELD PATH: a name without dots is the field, or null; `a.b` is `b` in the object at `a`, or null. */
  lemma FieldPaths(data: Object, name: string, rest: string)
    requires '.' !in name
    ensures FieldAt(data, name) == if name in data then data[name] else Null
    ensures FieldAt(data, name + "." + rest) ==
            if name in data && data[name].Obj? then FieldAt(data[name].fields, rest) else Null
  {
    NoDotNoSplit(name);
    SplitAtDot(name, rest);
    SplitIsAtDots(rest);
    var parts := Split(rest);
    assert [name][1..] == [];
    assert ([name] + parts)[1..] == parts;
    if name in data {
      assert Walk(Obj(data), [name]) == Walk(data[name], []);
      assert Walk(Obj(data), [name] + parts) == Walk(data[name], parts);
    }
  }

  // ---------------------------------------------------------------- when sorting fails

  /** Two present values that Python cannot be relied on to order: not both numbers, not both texts. */
  predicate Mixed(a: Json, b: Json) {
    !a.Null? && !b.Null? && !(IsNumber(a) && IsNumber(b)) && !(a.Str? && b.Str?)
  }

  /** `a` stands somewhere before `b`. */
  predicate InOrder(rows: seq<Row>, a: Row, b: Row) {
    rows != [] && (InOrder(Front(rows), a, b) || (Last(rows) == b && a in Front(rows)))
  }

  lemma {:induction false} InOrderFiltered(rows: seq<Row>, keep: Row -> bool, a: Row, b: Row)
    ensures InOrder(Filter(rows, keep), a, b) <==> InOrder(rows, a, b) && keep(a) && keep(b)
  {
    if rows != [] {
      var front := Filter(Front(rows), keep);
      InOrderFiltered(Front(rows), keep, a, b);
      TtlCache.FilterMembers(Front(rows), keep, a);
      assert keep(Last(rows)) ==> Front(front + [Last(rows)]) == front;
    }
  }

  lemma {:induction false} InOrderMembers(rows: seq<Row>, a: Row, b: Row)
    requires InOrder(rows, a, b)
    ensures a in rows && b in rows
  {
    assert rows == Front(rows) + [Last(rows)];
    if InOrder(Front(rows), a, b) { InOrderMembers(Front(rows), a, b); }
  }

  lemma {:induction false} SomeInOrder(rows: seq<Row>, k: nat)
    requires 0 < k < |rows|
    ensures InOrder(rows, rows[0], rows[k])
  {
    if k < |rows| - 1 {
      SomeInOrder(Front(rows), k);
    } else {
      assert Front(rows)[0] == rows[0];
    }
  }

  lemma SortableIs(rows: seq<Row>, path: string)
    ensures !Sortable(rows, path) <==>
            exists a, b :: InOrder(rows, a, b) && Mixed(SortValue(a, path), SortValue(b, path))
  {
    var keep := (r: Row) => !SortValue(r, path).Null?;
    var present := Filter(rows, keep);
    forall r | r in present ensures keep(r) { TtlCache.FilterMembers(rows, keep, r); }
    if !Sortable(rows, path) {
      assert forall k | 0 <= k < |present| :: present[k] in present;
      var k := MixedWithFirst(present, path);
      SomeInOrder(present, k);
      InOrderFiltered(rows, keep, present[0], present[k]);
    }
    if a, b :| InOrder(rows, a, b) && Mixed(SortValue(a, path), SortValue(b, path)) {
      InOrderFiltered(rows, keep, a, b);
      InOrderMembers(present, a, b);
      InOrderIsTwo(present, a, b);
    }
  }

  lemma {:induction false} InOrderIsTwo(rows: seq<Row>, a: Row, b: Row)
    requires InOrder(rows, a, b)
    ensures |rows| >= 2
  {
    if InOrder(Front(rows), a, b) { InOrderIsTwo(Front(rows), a, b); }
  }

  lemma MixedWithFirst(present: seq<Row>, path: string) returns (k: nat)
    requires |present| > 1 && forall i | 0 <= i < |present| :: !SortValue(present[i], path).Null?
    requires exists i :: 0 <= i < |present| && !IsNumber(SortValue(present[i], path))
    requires exists i :: 0 <= i < |present| && !SortValue(present[i], path).Str?
    ensures 0 < k < |present| && Mixed(SortValue(present[0], path), SortValue(present[k], path))
  {
    var first := SortValue(present[0], path);
    if IsNumber(first) {
      k :| 0 <= k < |present| && !IsNumber(SortValue(present[k], path));
    } else if first.Str? {
      k :| 0 <= k < |present| && !SortValue(present[k], path).Str?;
    } else {
      k := 1;
    }
  }

  /** SORTING FAILS exactly if two of the matching rows have values of different kinds, or of a kind that is
      neither number nor text. */
  lemma SortFailsExactly(rows: seq<Row>, q: QuerySpec, str: Json -> string)
    requires q.orderBy.Some?
    ensures
      var matched := Matched(rows, q.where, str);
      Ordered(rows, q, str).Failure? <==>
        exists a, b :: InOrder(matched, a, b) && Mixed(SortValue(a, q.orderBy.value), SortValue(b, q.orderBy.value))
  {
    var matched, path := Matched(rows, q.where, str), q.orderBy.value;
    SortableIs(matched, path);
  }

  // ---------------------------------------------------------------- the listing

  lemma NewerFirstIsOrder()
    ensures TotalPreorder(NewerFirst)
  {
  }

  /** THE LISTING is newest first: along it the time of the last update never rises. */
  lemma ListingIsNewestFirst(rows: seq<Row>, i: nat, j: nat)
    requires i < j < |Listing(rows)|
    ensures Listing(rows)[j].updated <= Listing(rows)[i].updated
  {
    NewerFirstIsOrder();
    SortSorts(Reversed(Filter(rows, (r: Row) => !r.doc.deleted)), NewerFirst);
    assert NewerFirst(Listing(rows)[i], Listing(rows)[j]);
  }

  lemma {:induction false} ReversedFilter<T>(xs: seq<T>, keep: T -> bool)
    ensures Filter(Reversed(xs), keep) == Reversed(Filter(xs, keep))
  {
    if xs != [] {
      var last, rest := Last(xs), Reversed(Front(xs));
      ReversedFilter(Front(xs), keep);
      FilterConcat([last], rest, keep);
      assert Front([last]) == [];
      var kept := Filter(Front(xs), keep);
      assert keep(last) ==> Front(kept + [last]) == kept;
    }
  }

  /** Rows updated at one time stand in the listing in falling primary-key order. */
  lemma TiesAreNewestRowFirst(rows: seq<Row>, time: int)
    ensures
      var atOnce := (r: Row) => r.updated == time;
      Filter(Listing(rows), atOnce) == Reversed(Filter(Filter(rows, (r: Row) => !r.doc.deleted), atOnce))
  {
    var live := Filter(rows, (r: Row) => !r.doc.deleted);
    var atOnce := (r: Row) => r.updated == time;
    SortIsStable(Reversed(live), NewerFirst, atOnce);
    ReversedFilter(live, atOnce);
  }

  /** Every live row is listed as often as it is there. */
  lemma ListingIsPermutation(rows: seq<Row>)
    ensures multiset(Listing(rows)) == multiset(Filter(rows, (r: Row) => !r.doc.deleted))
  {
    var live := Filter(rows, (r: Row) => !r.doc.deleted);
    SortKeeps(Reversed(live), NewerFirst);
    ReversedKeeps(live);
  }

  lemma {:induction false} ReversedKeeps<T>(xs: seq<T>)
    ensures multiset(Reversed(xs)) == multiset(xs)
  {
    if xs != [] {
      ReversedKeeps(Front(xs));
      assert xs == Front(xs) + [Last(xs)];
    }
  }
}
