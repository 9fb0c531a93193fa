/** The library's stable sort, as far as the sources rely on it: ordered, a permutation, and
    items that the order does not distinguish stay in their original order. */
module Sorting {

  ghost predicate StrictWeak<T(!new)>(less: (T, T) -> bool) {
    && (forall a, b :: less(a, b) ==> !less(b, a))
    && (forall a, b, c :: !less(a, b) && !less(b, c) ==> !less(a, c))
  }

  ghost predicate Ordered<T(!new)>(xs: seq<T>, less: (T, T) -> bool) {
    forall i, j :: 0 <= i < j < |xs| ==> !less(xs[j], xs[i])
  }

  function Insert<T>(x: T, xs: seq<T>, less: (T, T) -> bool): seq<T> {
    if xs == [] || !less(xs[0], x) then [x] + xs else [xs[0]] + Insert(x, xs[1..], less)
  }

  function Sort<T>(xs: seq<T>, less: (T, T) -> bool): seq<T> {
    if xs == [] then [] else Insert(xs[0], Sort(xs[1..], less), less)
  }

  lemma {:induction false} InsertSorts<T(!new)>(x: T, xs: seq<T>, less: (T, T) -> bool)
    requires StrictWeak(less) && Ordered(xs, less)
    ensures Ordered(Insert(x, xs, less), less)
    ensures multiset(Insert(x, xs, less)) == multiset(xs) + multiset{x}
  {
    if xs != [] && less(xs[0], x) {
      InsertSorts(x, xs[1..], less);
      var r := Insert(x, xs[1..], less);
      assert xs == [xs[0]] + xs[1..];
      forall i | 0 <= i < |r| ensures !less(r[i], xs[0]) {
        assert r[i] in multiset(r);
        assert r[i] == x || r[i] in xs[1..];
      }
    } else if xs != [] {
      assert forall i :: 0 <= i < |xs| ==> !less(xs[i], xs[0]);
    }
  }

  lemma {:induction false} SortSorts<T(!new)>(xs: seq<T>, less: (T, T) -> bool)
    requires StrictWeak(less)
    ensures Ordered(Sort(xs, less), less)
    ensures multiset(Sort(xs, less)) == multiset(xs)
  {
    if xs != [] {
      SortSorts(xs[1..], less);
      InsertSorts(xs[0], Sort(xs[1..], less), less);
      assert xs == [xs[0]] + xs[1..];
    }
  }

  lemma SortMembers<T(!new)>(xs: seq<T>, less: (T, T) -> bool)
    requires StrictWeak(less)
    ensures |Sort(xs, less)| == |xs| && forall x :: x in Sort(xs, less) <==> x in xs
  {
    SortSorts(xs, less);
    assert |multiset(Sort(xs, less))| == |multiset(xs)|;
    assert forall x :: x in Sort(xs, less) <==> x in multiset(Sort(xs, less));
    assert forall x :: x in xs <==> x in multiset(xs);
  }

  /** The items that the order does not distinguish from `a`. */
  function Tied<T>(xs: seq<T>, less: (T, T) -> bool, a: T): seq<T> {
    if xs == [] then []
    else (if !less(a, xs[0]) && !less(xs[0], a) then [xs[0]] else []) + Tied(xs[1..], less, a)
  }

  lemma {:induction false} InsertStable<T(!new)>(x: T, xs: seq<T>, less: (T, T) -> bool, a: T)
    requires StrictWeak(less)
    ensures Tied(Insert(x, xs, less), less, a) == Tied([x], less, a) + Tied(xs, less, a)
  {
    if xs == [] || !less(xs[0], x) {
      assert ([x] + xs)[1..] == xs;
      assert Tied([x], less, a) + [] == Tied([x], less, a);
    } else {
      InsertStable(x, xs[1..], less, a);
      var r := Insert(x, xs[1..], less);
      assert ([xs[0]] + r)[1..] == r;
      assert less(xs[0], x);
    }
  }

  lemma TiedCons<T(!new)>(x: T, rest: seq<T>, less: (T, T) -> bool, a: T)
    ensures Tied([x] + rest, less, a) == Tied([x], less, a) + Tied(rest, less, a)
  {
    assert ([x] + rest)[1..] == rest && [x][1..] == [];
  }

  /** Ties stay in their original order. */
  lemma {:induction false} SortStable<T(!new)>(xs: seq<T>, less: (T, T) -> bool, a: T)
    requires StrictWeak(less)
    ensures Tied(Sort(xs, less), less, a) == Tied(xs, less, a)
  {
    if xs != [] {
      SortStable(xs[1..], less, a);
      InsertStable(xs[0], Sort(xs[1..], less), less, a);
      TiedCons(xs[0], xs[1..], less, a);
      assert xs == [xs[0]] + xs[1..];
    }
  }
}
