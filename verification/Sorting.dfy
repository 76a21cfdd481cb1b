/** The library sort the program calls (`sort.SliceStable`): a stable insertion
    sort, with the three facts that determine a stable sort's result. */
module Sorting {

  ghost predicate StrictWeak<T(!new)>(less: (T, T) -> bool) {
    && (forall x, y :: less(x, y) ==> !less(y, x))
    && (forall x, y, z :: !less(y, x) && !less(z, y) ==> !less(z, x))
  }

  ghost predicate SortedBy<T>(xs: seq<T>, less: (T, T) -> bool) {
    forall i, j :: 0 <= i < j < |xs| ==> !less(xs[j], xs[i])
  }

  function Insert<T>(x: T, xs: seq<T>, less: (T, T) -> bool): (r: seq<T>)
    ensures |r| == |xs| + 1
  {
    if xs == [] || !less(xs[0], x) then [x] + xs else [xs[0]] + Insert(x, xs[1..], less)
  }

  function StableSort<T>(xs: seq<T>, less: (T, T) -> bool): (r: seq<T>)
    ensures |r| == |xs|
  {
    if xs == [] then [] else Insert(xs[0], StableSort(xs[1..], less), less)
  }

  lemma {:induction false} InsertKeeps<T>(x: T, xs: seq<T>, less: (T, T) -> bool)
    ensures multiset(Insert(x, xs, less)) == multiset([x]) + multiset(xs)
  {
    if xs == [] || !less(xs[0], x) {
    } else {
      InsertKeeps(x, xs[1..], less);
      assert xs == [xs[0]] + xs[1..];
    }
  }

  lemma {:induction false} SortKeeps<T>(xs: seq<T>, less: (T, T) -> bool)
    ensures multiset(StableSort(xs, less)) == multiset(xs)
  {
    if xs != [] {
      SortKeeps(xs[1..], less);
      InsertKeeps(xs[0], StableSort(xs[1..], less), less);
      assert xs == [xs[0]] + xs[1..];
    }
  }

  lemma SortMembers<T>(xs: seq<T>, less: (T, T) -> bool)
    ensures forall x :: x in StableSort(xs, less) <==> x in xs
  {
    SortKeeps(xs, less);
    forall x ensures x in StableSort(xs, less) <==> x in xs {
      assert x in StableSort(xs, less) <==> x in multiset(StableSort(xs, less));
      assert x in xs <==> x in multiset(xs);
    }
  }

  lemma {:induction false} InsertSorts<T(!new)>(x: T, xs: seq<T>, less: (T, T) -> bool)
    requires StrictWeak(less) && SortedBy(xs, less)
    ensures SortedBy(Insert(x, xs, less), less)
  {
    if xs == [] {
    } else if !less(xs[0], x) {
      forall j | 0 <= j < |xs| ensures !less(xs[j], x) { }
    } else {
      var rest := Insert(x, xs[1..], less);
      InsertSorts(x, xs[1..], less);
      InsertKeeps(x, xs[1..], less);
      forall j | 0 <= j < |rest| ensures !less(rest[j], xs[0]) {
        assert rest[j] in multiset(rest);
        if rest[j] != x {
          assert rest[j] in xs[1..];
        }
      }
    }
  }

  /** The result is in order. */
  lemma {:induction false} SortSorts<T(!new)>(xs: seq<T>, less: (T, T) -> bool)
    requires StrictWeak(less)
    ensures SortedBy(StableSort(xs, less), less)
  {
    if xs != [] {
      SortSorts(xs[1..], less);
      InsertSorts(xs[0], StableSort(xs[1..], less), less);
    }
  }

  /** The elements neither before nor after `e`, in their order. */
  function Peers<T>(xs: seq<T>, e: T, less: (T, T) -> bool): seq<T> {
    if xs == [] then []
    else (if !less(xs[0], e) && !less(e, xs[0]) then [xs[0]] else []) + Peers(xs[1..], e, less)
  }

  lemma {:induction false} InsertStable<T(!new)>(x: T, xs: seq<T>, e: T, less: (T, T) -> bool)
    requires StrictWeak(less)
    ensures Peers(Insert(x, xs, less), e, less) == Peers([x] + xs, e, less)
  {
    if xs == [] || !less(xs[0], x) {
    } else {
      InsertStable(x, xs[1..], e, less);
      var h := xs[0];
      assert ([x] + xs)[1..] == xs && ([x] + xs[1..])[1..] == xs[1..];
      assert ([h] + Insert(x, xs[1..], less))[1..] == Insert(x, xs[1..], less);
      // h is strictly before x, so not both are peers of e
      assert !(!less(h, e) && !less(e, h) && !less(x, e) && !less(e, x));
    }
  }

  /** Elements the order does not tell apart keep the order they came in. */
  lemma {:induction false} SortStable<T(!new)>(xs: seq<T>, e: T, less: (T, T) -> bool)
    requires StrictWeak(less)
    ensures Peers(StableSort(xs, less), e, less) == Peers(xs, e, less)
  {
    if xs != [] {
      SortStable(xs[1..], e, less);
      var rest := StableSort(xs[1..], less);
      InsertStable(xs[0], rest, e, less);
      assert ([xs[0]] + rest)[1..] == rest;
    }
  }
}
