/** Python's stable sort, as an insertion from the left, and filtering. */
module Sorting {
  import opened Prelude

  /** `le` compares any two values and is transitive: what a Python sort key gives. */
  ghost predicate TotalPreorder<T(!new)>(le: (T, T) -> bool) {
    && (forall a, b :: le(a, b) || le(b, a))
    && (forall a, b, c :: le(a, b) && le(b, c) ==> le(a, c))
  }

  ghost predicate Sorted<T>(xs: seq<T>, le: (T, T) -> bool) {
    forall i, j | 0 <= i < j < |xs| :: le(xs[i], xs[j])
  }

  /** Puts `x` after every element that is not above it. */
  function Insert<T>(xs: seq<T>, x: T, le: (T, T) -> bool): seq<T> {
    if xs == [] then [x]
    else if le(Last(xs), x) then xs + [x]
    else Insert(Front(xs), x, le) + [Last(xs)]
  }

  function StableSort<T>(xs: seq<T>, le: (T, T) -> bool): seq<T> {
    if xs == [] then [] else Insert(StableSort(Front(xs), le), Last(xs), le)
  }

  function Filter<T>(xs: seq<T>, keep: T -> bool): seq<T> {
    if xs == [] then []
    else if keep(Last(xs)) then Filter(Front(xs), keep) + [Last(xs)]
    else Filter(Front(xs), keep)
  }

  lemma {:induction false} InsertKeeps<T>(xs: seq<T>, x: T, le: (T, T) -> bool)
    ensures multiset(Insert(xs, x, le)) == multiset(xs) + multiset{x}
  {
    if xs != [] {
      assert xs == Front(xs) + [Last(xs)];
      if !le(Last(xs), x) { InsertKeeps(Front(xs), x, le); }
    }
  }

  lemma {:induction false} InsertMembers<T>(xs: seq<T>, x: T, le: (T, T) -> bool, y: T)
    ensures y in Insert(xs, x, le) <==> y in xs || y == x
  {
    if xs != [] {
      assert xs == Front(xs) + [Last(xs)];
      InsertMembers(Front(xs), x, le, y);
    }
  }

  /** Sorting is a permutation. */
  lemma {:induction false} SortKeeps<T>(xs: seq<T>, le: (T, T) -> bool)
    ensures multiset(StableSort(xs, le)) == multiset(xs)
    ensures |StableSort(xs, le)| == |xs|
  {
    if xs != [] {
      assert xs == Front(xs) + [Last(xs)];
      SortKeeps(Front(xs), le);
      InsertKeeps(StableSort(Front(xs), le), Last(xs), le);
      assert |multiset(StableSort(xs, le))| == |multiset(xs)|;
    }
  }

  lemma SortMembers<T>(xs: seq<T>, le: (T, T) -> bool)
    ensures forall x :: x in StableSort(xs, le) <==> x in xs
  {
    SortKeeps(xs, le);
    forall x ensures x in StableSort(xs, le) <==> x in xs {
      assert x in StableSort(xs, le) <==> x in multiset(StableSort(xs, le));
    }
  }

  predicate NoDuplicates<T(==)>(xs: seq<T>) {
    xs == [] || (NoDuplicates(Front(xs)) && Last(xs) !in Front(xs))
  }

  lemma {:induction false} InsertDistinct<T>(xs: seq<T>, x: T, le: (T, T) -> bool)
    requires NoDuplicates(xs) && x !in xs
    ensures NoDuplicates(Insert(xs, x, le))
  {
    if xs == [] {
      assert Front([x]) == [];
    } else if le(Last(xs), x) {
      assert Front(xs + [x]) == xs;
    } else {
      var lower := Insert(Front(xs), x, le);
      InsertDistinct(Front(xs), x, le);
      InsertKeeps(Front(xs), x, le);
      assert Front(lower + [Last(xs)]) == lower;
      assert Last(xs) in lower <==> Last(xs) in multiset(lower);
    }
  }

  /** Sorting distinct elements keeps them distinct. */
  lemma {:induction false} SortDistinct<T>(xs: seq<T>, le: (T, T) -> bool)
    requires NoDuplicates(xs)
    ensures NoDuplicates(StableSort(xs, le))
  {
    if xs != [] {
      SortDistinct(Front(xs), le);
      SortMembers(Front(xs), le);
      InsertDistinct(StableSort(Front(xs), le), Last(xs), le);
    }
  }

  lemma {:induction false} DistinctAt<T>(xs: seq<T>, i: nat, j: nat)
    requires NoDuplicates(xs) && i < j < |xs|
    ensures xs[i] != xs[j]
  {
    if j < |xs| - 1 {
      DistinctAt(Front(xs), i, j);
    } else {
      assert xs[i] == Front(xs)[i];
    }
  }

  lemma {:induction false} InsertSorts<T(!new)>(xs: seq<T>, x: T, le: (T, T) -> bool)
    requires TotalPreorder(le) && Sorted(xs, le)
    ensures Sorted(Insert(xs, x, le), le)
  {
    if xs != [] {
      var last := Last(xs);
      if le(last, x) {
        forall i | 0 <= i < |xs| ensures le(xs[i], x) { assert i == |xs| - 1 || le(xs[i], last); }
      } else {
        InsertSorts(Front(xs), x, le);
        var lower := Insert(Front(xs), x, le);
        InsertKeeps(Front(xs), x, le);
        forall i | 0 <= i < |lower| ensures le(lower[i], last) {
          assert lower[i] in multiset(lower);
          if lower[i] != x {
            assert lower[i] in Front(xs);
            var k :| 0 <= k < |xs| - 1 && xs[k] == lower[i];
          }
        }
      }
    }
  }

  lemma {:induction false} SortSorts<T(!new)>(xs: seq<T>, le: (T, T) -> bool)
    requires TotalPreorder(le)
    ensures Sorted(StableSort(xs, le), le)
  {
    if xs != [] {
      SortSorts(Front(xs), le);
      InsertSorts(StableSort(Front(xs), le), Last(xs), le);
    }
  }

  lemma {:induction false} FilterConcat<T>(xs: seq<T>, ys: seq<T>, keep: T -> bool)
    ensures Filter(xs + ys, keep) == Filter(xs, keep) + Filter(ys, keep)
  {
    if ys == [] {
      assert xs + ys == xs;
    } else {
      assert Front(xs + ys) == xs + Front(ys);
      FilterConcat(xs, Front(ys), keep);
    }
  }

  /** The elements of one class are pairwise equal under `le`. */
  ghost predicate Tied<T(!new)>(le: (T, T) -> bool, same: T -> bool) {
    && (forall a, b :: same(a) && same(b) ==> le(a, b))
  }

  lemma {:induction false} InsertIsStable<T(!new)>(xs: seq<T>, x: T, le: (T, T) -> bool, same: T -> bool)
    requires Tied(le, same)
    ensures Filter(Insert(xs, x, le), same) == Filter(xs + [x], same)
  {
    assert Front(xs + [x]) == xs;
    if xs != [] && !le(Last(xs), x) {
      var front, last := Front(xs), Last(xs);
      InsertIsStable(front, x, le, same);
      assert Front(front + [x]) == front;
      assert Front(Insert(front, x, le) + [last]) == Insert(front, x, le);
    }
  }

  /** Sorting is stable: tied elements keep the order they had. */
  lemma {:induction false} SortIsStable<T(!new)>(xs: seq<T>, le: (T, T) -> bool, same: T -> bool)
    requires Tied(le, same)
    ensures Filter(StableSort(xs, le), same) == Filter(xs, same)
  {
    if xs != [] {
      SortIsStable(Front(xs), le, same);
      var sorted := StableSort(Front(xs), le);
      InsertIsStable(sorted, Last(xs), le, same);
      assert Front(sorted + [Last(xs)]) == sorted;
    }
  }
}
