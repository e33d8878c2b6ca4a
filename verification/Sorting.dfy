/** Stable sorting, by whatever comes before what. */
module Sorting {
  /** After everything it does not come before: equals keep their order. */
  function Insert<T>(x: T, xs: seq<T>, less: (T, T) -> bool): seq<T> {
    if xs == [] || less(x, xs[0]) then [x] + xs else [xs[0]] + Insert(x, xs[1..], less)
  }

  function Sort<T>(xs: seq<T>, less: (T, T) -> bool): seq<T> {
    if xs == [] then [] else Insert(xs[|xs| - 1], Sort(xs[..|xs| - 1], less), less)
  }

  ghost predicate WeakOrder<T(!new)>(less: (T, T) -> bool) {
    && (forall a, b :: less(a, b) ==> !less(b, a))
    && (forall a, b, c :: !less(b, a) && !less(c, b) ==> !less(c, a))
  }

  ghost predicate InOrder<T>(xs: seq<T>, less: (T, T) -> bool) {
    forall i, j :: 0 <= i < j < |xs| ==> !less(xs[j], xs[i])
  }

  lemma {:induction false} InsertMembers<T>(x: T, xs: seq<T>, less: (T, T) -> bool)
    ensures |Insert(x, xs, less)| == |xs| + 1
    ensures forall y :: y in Insert(x, xs, less) <==> y == x || y in xs
  {
    if xs != [] && !less(x, xs[0]) {
      InsertMembers(x, xs[1..], less);
    }
  }

  lemma {:induction false} SortMembers<T>(xs: seq<T>, less: (T, T) -> bool)
    ensures |Sort(xs, less)| == |xs|
    ensures forall y :: y in Sort(xs, less) <==> y in xs
  {
    if xs != [] {
      var init, last := xs[..|xs| - 1], xs[|xs| - 1];
      SortMembers(init, less);
      InsertMembers(last, Sort(init, less), less);
      assert xs == init + [last];
    }
  }

  lemma {:induction false} InsertInOrder<T(!new)>(x: T, xs: seq<T>, less: (T, T) -> bool)
    requires WeakOrder(less) && InOrder(xs, less)
    ensures InOrder(Insert(x, xs, less), less)
  {
    if xs != [] && !less(x, xs[0]) {
      var rest := Insert(x, xs[1..], less);
      InsertInOrder(x, xs[1..], less);
      InsertMembers(x, xs[1..], less);
      forall j | 0 <= j < |rest|
        ensures !less(rest[j], xs[0])
      {
        assert rest[j] in rest;
      }
    }
  }

  lemma {:induction false} SortInOrder<T(!new)>(xs: seq<T>, less: (T, T) -> bool)
    requires WeakOrder(less)
    ensures InOrder(Sort(xs, less), less)
  {
    if xs != [] {
      var init, last := xs[..|xs| - 1], xs[|xs| - 1];
      SortInOrder(init, less);
      InsertInOrder(last, Sort(init, less), less);
    }
  }
}
