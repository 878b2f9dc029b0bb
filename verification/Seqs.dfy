/** The array operations the services chain: filter, map and `[...new Set(xs)]`. */
module Seqs {

  ghost predicate Distinct<T(!new)>(xs: seq<T>) {
    forall i, j | 0 <= i < j < |xs| :: xs[i] != xs[j]
  }

  function Filter<T(!new)>(keep: T -> bool, xs: seq<T>): (r: seq<T>)
    ensures forall x :: x in r <==> x in xs && keep(x)
  {
    if xs == [] then []
    else if keep(xs[0]) then [xs[0]] + Filter(keep, xs[1..])
    else Filter(keep, xs[1..])
  }

  lemma {:induction false} FilterDistinct<T(!new)>(keep: T -> bool, xs: seq<T>)
    requires Distinct(xs)
    ensures Distinct(Filter(keep, xs))
  {
    if xs == [] {
    } else {
      FilterDistinct(keep, xs[1..]);
      if keep(xs[0]) {
        var rest := Filter(keep, xs[1..]);
        forall j | 0 <= j < |rest| ensures rest[j] != xs[0] {
          assert rest[j] in xs[1..];
        }
      }
    }
  }

  /** What is kept and what is dropped make up the whole. */
  lemma {:induction false} FilterSplit<T(!new)>(keep: T -> bool, drop: T -> bool, xs: seq<T>)
    requires forall x | x in xs :: drop(x) == !keep(x)
    ensures |Filter(keep, xs)| + |Filter(drop, xs)| == |xs|
  {
    if xs == [] {
    } else {
      FilterSplit(keep, drop, xs[1..]);
    }
  }

  lemma {:induction false} FilterConcat<T(!new)>(keep: T -> bool, a: seq<T>, b: seq<T>)
    ensures Filter(keep, a + b) == Filter(keep, a) + Filter(keep, b)
  {
    if a == [] {
      assert a + b == b;
    } else {
      assert (a + b)[1..] == a[1..] + b;
      FilterConcat(keep, a[1..], b);
    }
  }

  /** First occurrences in order, as a JavaScript `Set` iterates them. */
  function Dedupe<T(==, !new)>(xs: seq<T>): (r: seq<T>)
    ensures forall x :: x in r <==> x in xs
  {
    if xs == [] then []
    else
      var n := |xs| - 1;
      assert forall x :: x in xs <==> x in xs[..n] || x == xs[n];
      Dedupe(xs[..n]) + if xs[n] in xs[..n] then [] else [xs[n]]
  }

  lemma {:induction false} DedupeDistinct<T(!new)>(xs: seq<T>)
    ensures Distinct(Dedupe(xs))
  {
    if xs == [] {
    } else {
      DedupeDistinct(xs[..|xs| - 1]);
    }
  }

  lemma EmptyIffNoMember<T(!new)>(xs: seq<T>)
    ensures xs == [] <==> forall x :: x !in xs
  {
    if xs != [] {
      assert xs[0] in xs;
    }
  }

  // ----- strictly sorted sequences

  ghost predicate Increasing<T(!new)>(less: (T, T) -> bool, xs: seq<T>) {
    forall i, j | 0 <= i < j < |xs| :: less(xs[i], xs[j])
  }

  ghost predicate Asymmetric<T(!new)>(less: (T, T) -> bool) {
    forall x, y :: less(x, y) ==> !less(y, x)
  }

  /** A strictly sorted sequence is determined by its elements. */
  lemma {:induction false} IncreasingUnique<T(!new)>(less: (T, T) -> bool, a: seq<T>, b: seq<T>)
    requires Asymmetric(less) && Increasing(less, a) && Increasing(less, b)
    requires forall x :: x in a <==> x in b
    ensures a == b
  {
    assert a != [] ==> a[0] in b;
    assert b != [] ==> b[0] in a;
    if a != [] {
      HeadsEqual(less, a, b);
      forall x ensures x in a[1..] <==> x in b[1..] {
        assert x in a <==> x == a[0] || x in a[1..];
        assert x in b <==> x == b[0] || x in b[1..];
        assert a[0] !in a[1..] && b[0] !in b[1..];
      }
      IncreasingUnique(less, a[1..], b[1..]);
      assert a == [a[0]] + a[1..] && b == [b[0]] + b[1..];
    }
  }

  lemma HeadsEqual<T(!new)>(less: (T, T) -> bool, a: seq<T>, b: seq<T>)
    requires a != [] && b != []
    requires Asymmetric(less) && Increasing(less, a) && Increasing(less, b)
    requires forall x :: x in a <==> x in b
    ensures a[0] == b[0]
  {
    assert a[0] in b && b[0] in a;
    var i :| 0 <= i < |b| && b[i] == a[0];
    var j :| 0 <= j < |a| && a[j] == b[0];
    assert i > 0 ==> less(b[0], b[i]);
    assert j > 0 ==> less(a[0], a[j]);
  }

  // ----- stable insertion sort

  ghost predicate TotalOrder<T(!new)>(le: (T, T) -> bool) {
    && (forall x, y :: le(x, y) || le(y, x))
    && (forall x, y, z :: le(x, y) && le(y, z) ==> le(x, z))
  }

  function Insert<T(!new)>(le: (T, T) -> bool, x: T, xs: seq<T>): (r: seq<T>)
    ensures forall y :: y in r <==> y == x || y in xs
  {
    if xs == [] then [x]
    else if le(x, xs[0]) then [x] + xs
    else [xs[0]] + Insert(le, x, xs[1..])
  }

  function Sort<T(!new)>(le: (T, T) -> bool, xs: seq<T>): (r: seq<T>)
    ensures forall y :: y in r <==> y in xs
  {
    if xs == [] then [] else Insert(le, xs[0], Sort(le, xs[1..]))
  }

  lemma {:induction false} InsertSorted<T(!new)>(le: (T, T) -> bool, x: T, xs: seq<T>)
    requires TotalOrder(le) && Increasing(le, xs)
    ensures Increasing(le, Insert(le, x, xs))
    ensures x !in xs && Distinct(xs) ==> Distinct(Insert(le, x, xs))
  {
    if xs != [] && !le(x, xs[0]) {
      InsertSorted(le, x, xs[1..]);
      var rest := Insert(le, x, xs[1..]);
      forall j | 0 <= j < |rest| ensures le(xs[0], rest[j]) && (x !in xs && Distinct(xs) ==> xs[0] != rest[j]) {
        assert rest[j] == x || rest[j] in xs[1..];
      }
    }
  }

  /** Sorting orders the elements and repeats none that was not repeated. */
  lemma {:induction false} SortSorted<T(!new)>(le: (T, T) -> bool, xs: seq<T>)
    requires TotalOrder(le)
    ensures Increasing(le, Sort(le, xs))
    ensures Distinct(xs) ==> Distinct(Sort(le, xs))
  {
    if xs == [] {
    } else {
      SortSorted(le, xs[1..]);
      InsertSorted(le, xs[0], Sort(le, xs[1..]));
    }
  }
}
