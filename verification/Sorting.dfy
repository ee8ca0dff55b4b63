/** Stable sorting by a comparison, as `list.sort(key=...)` does it. */
module Sorting {

  ghost predicate Total<T(!new)>(le: (T, T) -> bool) {
    forall a, b :: le(a, b) || le(b, a)
  }

  ghost predicate Transitive<T(!new)>(le: (T, T) -> bool) {
    forall a, b, c :: le(a, b) && le(b, c) ==> le(a, c)
  }

  ghost predicate Ordered<T>(xs: seq<T>, le: (T, T) -> bool) {
    forall i, j :: 0 <= i < j < |xs| ==> le(xs[i], xs[j])
  }

  /** Puts `x` after the last element that is not above it. */
  function Insert<T>(xs: seq<T>, x: T, le: (T, T) -> bool): seq<T> {
    if xs == [] || le(xs[|xs| - 1], x) then xs + [x]
    else Insert(xs[..|xs| - 1], x, le) + [xs[|xs| - 1]]
  }

  function Sort<T>(xs: seq<T>, le: (T, T) -> bool): seq<T> {
    if xs == [] then [] else Insert(Sort(xs[..|xs| - 1], le), xs[|xs| - 1], le)
  }

  lemma {:induction false} InsertHolds<T>(xs: seq<T>, x: T, le: (T, T) -> bool)
    ensures multiset(Insert(xs, x, le)) == multiset(xs) + multiset{x}
  {
    if xs != [] && !le(xs[|xs| - 1], x) {
      assert Insert(xs, x, le) == Insert(xs[..|xs| - 1], x, le) + [xs[|xs| - 1]];
      InsertHolds(xs[..|xs| - 1], x, le);
      hide Insert;
      assert xs == xs[..|xs| - 1] + [xs[|xs| - 1]];
    }
  }

  lemma Below<T(!new)>(le: (T, T) -> bool, a: T, b: T, c: T)
    requires Transitive(le) && le(a, b) && le(b, c)
    ensures le(a, c)
  {
  }

  lemma Other<T(!new)>(le: (T, T) -> bool, a: T, b: T)
    requires Total(le) && !le(a, b)
    ensures le(b, a)
  {
  }

  lemma {:induction false} InsertOrders<T(!new)>(xs: seq<T>, x: T, le: (T, T) -> bool)
    requires Total(le) && Transitive(le) && Ordered(xs, le)
    ensures Ordered(Insert(xs, x, le), le)
  {
    hide Total, Transitive;
    if xs == [] {
    } else if le(xs[|xs| - 1], x) {
      forall i | 0 <= i < |xs| - 1
        ensures le(xs[i], x)
      {
        Below(le, xs[i], xs[|xs| - 1], x);
      }
    } else {
      var n := |xs| - 1;
      InsertOrders(xs[..n], x, le);
      var head := Insert(xs[..n], x, le);
      InsertHolds(xs[..n], x, le);
      Other(le, xs[n], x);
      forall i | 0 <= i < |head|
        ensures le(head[i], xs[n])
      {
        assert head[i] in multiset(head);
      }
    }
  }

  /** The result is ordered, and holds the same elements as often as before. */
  lemma {:induction false} SortSorts<T(!new)>(xs: seq<T>, le: (T, T) -> bool)
    requires Total(le) && Transitive(le)
    ensures Ordered(Sort(xs, le), le)
    ensures multiset(Sort(xs, le)) == multiset(xs)
  {
    hide Total, Transitive;
    if xs != [] {
      var n := |xs| - 1;
      SortSorts(xs[..n], le);
      assert Sort(xs, le) == Insert(Sort(xs[..n], le), xs[n], le);
      hide Sort, Insert, Ordered;
      InsertOrders(Sort(xs[..n], le), xs[n], le);
      InsertHolds(Sort(xs[..n], le), xs[n], le);
      assert xs == xs[..n] + [xs[n]];
    }
  }
}
