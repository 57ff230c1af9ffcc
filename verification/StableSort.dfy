/** The stable sort the simulation and the name matcher rely on, by any strict weak order. */
module StableSort {

  ghost predicate StrictWeakOrder<T(!new)>(less: (T, T) -> bool) {
    && (forall a: T, b: T :: less(a, b) ==> !less(b, a))
    && (forall a: T, b: T, c: T :: !less(b, a) && !less(c, b) ==> !less(c, a))
  }

  function Insert<T>(x: T, ordered: seq<T>, less: (T, T) -> bool): seq<T> {
    if ordered == [] then [x]
    else if !less(ordered[0], x) then [x] + ordered
    else [ordered[0]] + Insert(x, ordered[1..], less)
  }

  function Sorted<T>(xs: seq<T>, less: (T, T) -> bool): seq<T> {
    if xs == [] then [] else Insert(xs[0], Sorted(xs[1..], less), less)
  }

  ghost predicate Ordered<T>(xs: seq<T>, less: (T, T) -> bool) {
    forall i, j | 0 <= i < j < |xs| :: !less(xs[j], xs[i])
  }

  lemma {:induction false} InsertPermutes<T>(x: T, ordered: seq<T>, less: (T, T) -> bool)
    ensures multiset(Insert(x, ordered, less)) == multiset{x} + multiset(ordered)
  {
    if ordered == [] {
    } else if less(ordered[0], x) {
      InsertPermutes(x, ordered[1..], less);
      assert ordered == [ordered[0]] + ordered[1..];
    }
  }

  lemma {:induction false} InsertOrders<T(!new)>(x: T, ordered: seq<T>, less: (T, T) -> bool)
    requires StrictWeakOrder(less) && Ordered(ordered, less)
    ensures Ordered(Insert(x, ordered, less), less)
  {
    var result := Insert(x, ordered, less);
    if ordered != [] && !less(ordered[0], x) {
      assert forall j | 0 <= j < |ordered| :: !less(ordered[j], x);
    } else if ordered != [] {
      var rest := Insert(x, ordered[1..], less);
      InsertOrders(x, ordered[1..], less);
      InsertPermutes(x, ordered[1..], less);
      forall j | 0 <= j < |rest|
        ensures !less(rest[j], ordered[0])
      {
        assert rest[j] in multiset(rest);
        assert rest[j] == x || rest[j] in ordered[1..];
      }
    }
  }

  /** A permutation in order. */
  lemma {:induction false} SortedIsSorted<T(!new)>(xs: seq<T>, less: (T, T) -> bool)
    requires StrictWeakOrder(less)
    ensures multiset(Sorted(xs, less)) == multiset(xs)
    ensures Ordered(Sorted(xs, less), less)
    ensures |Sorted(xs, less)| == |xs|
  {
    if xs == [] {
    } else {
      SortedIsSorted(xs[1..], less);
      InsertPermutes(xs[0], Sorted(xs[1..], less), less);
      InsertOrders(xs[0], Sorted(xs[1..], less), less);
      assert xs == [xs[0]] + xs[1..];
      assert |multiset(Sorted(xs, less))| == |multiset(xs)|;
    }
  }

  lemma HeadAndTail<T>(xs: seq<T>)
    requires xs != []
    ensures xs == [xs[0]] + xs[1..] && multiset(xs[1..]) == multiset(xs) - multiset{xs[0]}
  {
    assert xs == [xs[0]] + xs[1..];
  }

  lemma HeadsAgree<T(!new)>(a: seq<T>, b: seq<T>, less: (T, T) -> bool)
    requires Ordered(a, less) && Ordered(b, less) && a != [] && b != []
    requires a[0] in b && b[0] in a
    requires a[0] != b[0] ==> less(a[0], b[0]) || less(b[0], a[0])
    ensures a[0] == b[0]
  {
  }

  /** Two ordered arrangements of the same elements are equal if no two elements tie. */
  lemma {:induction false} OrderedIsUnique<T(!new)>(a: seq<T>, b: seq<T>, less: (T, T) -> bool)
    requires Ordered(a, less) && Ordered(b, less)
    requires multiset(a) == multiset(b)
    requires forall x, y | x in a && y in a && x != y :: less(x, y) || less(y, x)
    ensures a == b
  {
    assert |multiset(a)| == |a| && |multiset(b)| == |b|;
    if a == [] {
    } else {
      assert a[0] in multiset(b) && b[0] in multiset(a);
      HeadsAgree(a, b, less);
      HeadAndTail(a);
      HeadAndTail(b);
      OrderedIsUnique(a[1..], b[1..], less);
    }
  }

  // ----- stability

  function Filter<T(!new)>(xs: seq<T>, keep: T -> bool): (kept: seq<T>)
    ensures forall x :: x in kept <==> x in xs && keep(x)
  {
    if xs == [] then [] else (if keep(xs[0]) then [xs[0]] else []) + Filter(xs[1..], keep)
  }

  lemma {:induction false} FilterAppend<T(!new)>(xs: seq<T>, last: T, keep: T -> bool)
    ensures Filter(xs + [last], keep) == Filter(xs, keep) + (if keep(last) then [last] else [])
  {
    if xs == [] {
      assert xs + [last] == [last] && [last][1..] == [];
    } else {
      assert (xs + [last])[1..] == xs[1..] + [last];
      FilterAppend(xs[1..], last, keep);
    }
  }

  lemma {:induction false} InsertIsStable<T(!new)>(x: T, ordered: seq<T>, less: (T, T) -> bool, keep: T -> bool)
    requires forall y | y in ordered && keep(x) && keep(y) :: !less(y, x)
    ensures Filter(Insert(x, ordered, less), keep) == (if keep(x) then [x] else []) + Filter(ordered, keep)
  {
    if ordered == [] {
    } else if !less(ordered[0], x) {
      assert ([x] + ordered)[1..] == ordered;
    } else {
      var rest := Insert(x, ordered[1..], less);
      assert ([ordered[0]] + rest)[1..] == rest;
      InsertIsStable(x, ordered[1..], less, keep);
    }
  }

  /** Elements that tie keep the order they came in. */
  lemma {:induction false} SortedIsStable<T(!new)>(xs: seq<T>, less: (T, T) -> bool, keep: T -> bool)
    requires StrictWeakOrder(less)
    requires forall x, y | x in xs && y in xs && keep(x) && keep(y) :: !less(x, y)
    ensures Filter(Sorted(xs, less), keep) == Filter(xs, keep)
  {
    if xs == [] {
    } else {
      var rest := Sorted(xs[1..], less);
      SortedIsStable(xs[1..], less, keep);
      SortedIsSorted(xs[1..], less);
      forall y | y in rest
        ensures y in xs
      {
        assert y in multiset(xs[1..]);
      }
      InsertIsStable(xs[0], rest, less, keep);
    }
  }
}
