/** Sorting by a strict total order, as sort.Strings and sort.Slice do. */
module Sorting {
  ghost predicate TotalOrder<T(!new)>(less: (T, T) -> bool) {
    && (forall x :: !less(x, x))
    && (forall x, y :: x != y ==> less(x, y) || less(y, x))
    && (forall x, y, z :: less(x, y) && less(y, z) ==> less(x, z))
  }

  predicate Ascending<T>(less: (T, T) -> bool, xs: seq<T>) {
    forall i, j | 0 <= i < j < |xs| :: less(xs[i], xs[j])
  }

  predicate NoRepeats<T(==)>(xs: seq<T>) {
    forall i, j | 0 <= i < j < |xs| :: xs[i] != xs[j]
  }

  predicate SameElements<T(==)>(xs: seq<T>, ys: seq<T>) {
    (forall x | x in xs :: x in ys) && (forall y | y in ys :: y in xs)
  }

  function Insert<T>(less: (T, T) -> bool, x: T, xs: seq<T>): seq<T> {
    if xs == [] then [x]
    else if less(x, xs[0]) then [x] + xs
    else [xs[0]] + Insert(less, x, xs[1..])
  }

  function Sort<T>(less: (T, T) -> bool, xs: seq<T>): seq<T> {
    if xs == [] then [] else Insert(less, xs[0], Sort(less, xs[1..]))
  }

  lemma {:induction false} InsertIsAscending<T(!new)>(less: (T, T) -> bool, x: T, xs: seq<T>)
    requires TotalOrder(less) && Ascending(less, xs) && x !in xs
    ensures Ascending(less, Insert(less, x, xs))
    ensures forall y :: y in Insert(less, x, xs) <==> y == x || y in xs
  {
    if xs != [] && !less(x, xs[0]) {
      assert xs == [xs[0]] + xs[1..];
      InsertIsAscending(less, x, xs[1..]);
      var rest := Insert(less, x, xs[1..]);
      forall j | 0 <= j < |rest| ensures less(xs[0], rest[j]) {
        assert rest[j] in rest;
        if rest[j] != x {
          assert rest[j] in xs[1..];
        }
      }
    } else if xs != [] {
      forall j | 0 <= j < |xs| ensures less(x, xs[j]) {
      }
    }
  }

  /** Sorting distinct elements gives the same elements in ascending order. */
  lemma {:induction false} SortIsAscending<T(!new)>(less: (T, T) -> bool, xs: seq<T>)
    requires TotalOrder(less) && NoRepeats(xs)
    ensures Ascending(less, Sort(less, xs)) && SameElements(Sort(less, xs), xs)
  {
    if xs != [] {
      SortIsAscending(less, xs[1..]);
      assert xs[0] !in xs[1..];
      InsertIsAscending(less, xs[0], Sort(less, xs[1..]));
      assert xs == [xs[0]] + xs[1..];
    }
  }

  /** There is only one ascending arrangement of given elements. */
  lemma {:induction false} AscendingIsUnique<T(!new)>(less: (T, T) -> bool, xs: seq<T>, ys: seq<T>)
    requires TotalOrder(less) && Ascending(less, xs) && Ascending(less, ys) && SameElements(xs, ys)
    ensures xs == ys
  {
    assert xs != [] ==> xs[0] in xs;
    assert ys != [] ==> ys[0] in ys;
    if xs != [] && ys != [] {
      assert xs[0] in ys && ys[0] in xs;
      assert xs == [xs[0]] + xs[1..] && ys == [ys[0]] + ys[1..];
      assert xs[0] == ys[0];
      assert xs[0] !in xs[1..] && ys[0] !in ys[1..];
      forall x | x in xs[1..] ensures x in ys[1..] { assert x in xs; assert x in ys; }
      forall y | y in ys[1..] ensures y in xs[1..] { assert y in ys; assert y in xs; }
      AscendingIsUnique(less, xs[1..], ys[1..]);
    }
  }

  lemma AscendingHasNoRepeats<T(!new)>(less: (T, T) -> bool, xs: seq<T>)
    requires TotalOrder(less) && Ascending(less, xs)
    ensures NoRepeats(xs)
  {
  }
}
