/** Strings in lexicographic order, and lists sorted by a strict order: there is only one way to sort. */
module Sorting {
  // ---- Lexicographic order --------------------------------------------------------------------

  predicate Before<T(==)>(less: (T, T) -> bool, a: seq<T>, b: seq<T>) {
    b != [] && (a == [] || less(a[0], b[0]) || (a[0] == b[0] && Before(less, a[1..], b[1..])))
  }

  /** A strict order in which any two different things compare. */
  ghost predicate Total<T(!new)>(less: (T, T) -> bool) {
    Strict(less) && forall x, y :: x == y || less(x, y) || less(y, x)
  }

  ghost predicate Strict<T(!new)>(less: (T, T) -> bool) {
    (forall x :: !less(x, x)) && (forall x, y, z :: less(x, y) && less(y, z) ==> less(x, z))
  }

  lemma {:induction false} BeforeTotal<T(!new)>(less: (T, T) -> bool, a: seq<T>, b: seq<T>)
    requires Total(less)
    ensures a == b || Before(less, a, b) || Before(less, b, a)
    decreases |a|
  {
    if a != [] && b != [] && a[0] == b[0] {
      BeforeTotal(less, a[1..], b[1..]);
      assert a == [a[0]] + a[1..] && b == [b[0]] + b[1..];
    }
  }

  lemma {:induction false} NotBeforeItself<T(!new)>(less: (T, T) -> bool, a: seq<T>)
    requires Strict(less)
    ensures !Before(less, a, a)
  {
    if a != [] {
      NotBeforeItself(less, a[1..]);
    }
  }

  lemma {:induction false} BeforeTransitive<T(!new)>(less: (T, T) -> bool, a: seq<T>, b: seq<T>, c: seq<T>)
    requires Strict(less) && Before(less, a, b) && Before(less, b, c)
    ensures Before(less, a, c)
    decreases |a|
  {
    if a != [] && a[0] == b[0] == c[0] {
      BeforeTransitive(less, a[1..], b[1..], c[1..]);
    }
  }

  // ---- Sorting --------------------------------------------------------------------------------

  function Insert<E>(before: (E, E) -> bool, e: E, es: seq<E>): seq<E> {
    if es == [] || !before(es[0], e) then [e] + es else [es[0]] + Insert(before, e, es[1..])
  }

  function Sort<E>(before: (E, E) -> bool, es: seq<E>): seq<E> {
    if es == [] then [] else Insert(before, es[0], Sort(before, es[1..]))
  }

  lemma {:induction false} InsertLength<E>(before: (E, E) -> bool, e: E, es: seq<E>)
    ensures |Insert(before, e, es)| == |es| + 1
  {
    if es != [] && before(es[0], e) {
      InsertLength(before, e, es[1..]);
    }
  }

  lemma {:induction false} SortLength<E>(before: (E, E) -> bool, es: seq<E>)
    ensures |Sort(before, es)| == |es|
  {
    if es != [] {
      SortLength(before, es[1..]);
      InsertLength(before, es[0], Sort(before, es[1..]));
    }
  }

  predicate Sorted<E>(before: (E, E) -> bool, es: seq<E>) {
    forall i, j :: 0 <= i < j < |es| ==> before(es[i], es[j])
  }

  /** Any two places of the list compare. */
  predicate Comparable<E>(before: (E, E) -> bool, es: seq<E>) {
    forall i, j :: 0 <= i < j < |es| ==> before(es[i], es[j]) || before(es[j], es[i])
  }

  lemma {:induction false} InsertHas<E(!new)>(before: (E, E) -> bool, e: E, es: seq<E>)
    ensures forall x :: x in Insert(before, e, es) <==> x == e || x in es
  {
    if es != [] && before(es[0], e) {
      InsertHas(before, e, es[1..]);
      assert es == [es[0]] + es[1..];
    }
  }

  lemma SortedCons<E(!new)>(before: (E, E) -> bool, e: E, es: seq<E>)
    requires Sorted(before, es) && forall x :: x in es ==> before(e, x)
    ensures Sorted(before, [e] + es)
  {
  }

  lemma {:induction false} InsertSorted<E(!new)>(before: (E, E) -> bool, e: E, es: seq<E>)
    requires Strict(before) && Sorted(before, es) && forall x :: x in es ==> before(e, x) || before(x, e)
    ensures Sorted(before, Insert(before, e, es))
  {
    if es != [] && before(es[0], e) {
      InsertSorted(before, e, es[1..]);
      InsertHas(before, e, es[1..]);
      SortedCons(before, es[0], Insert(before, e, es[1..]));
    } else if es != [] {
      forall x | x in es
        ensures before(e, x)
      {
        assert es[0] in es;
        assert x != es[0] ==> before(es[0], x);
      }
      SortedCons(before, e, es);
    }
  }

  lemma {:induction false} SortSorts<E(!new)>(before: (E, E) -> bool, es: seq<E>)
    requires Strict(before) && Comparable(before, es)
    ensures Sorted(before, Sort(before, es)) && forall x :: x in Sort(before, es) <==> x in es
  {
    if es != [] {
      SortSorts(before, es[1..]);
      InsertHas(before, es[0], Sort(before, es[1..]));
      assert es == [es[0]] + es[1..];
      forall x | x in Sort(before, es[1..])
        ensures before(es[0], x) || before(x, es[0])
      {
        var k :| 0 <= k < |es[1..]| && es[1..][k] == x;
        assert es[k + 1] == x;
      }
      InsertSorted(before, es[0], Sort(before, es[1..]));
    }
  }

  lemma SortedTail<E(!new)>(before: (E, E) -> bool, a: seq<E>)
    requires Strict(before) && Sorted(before, a) && a != []
    ensures Sorted(before, a[1..]) && forall x :: x in a[1..] <==> x in a && x != a[0]
  {
    assert a == [a[0]] + a[1..];
  }

  lemma FirstIsLeast<E(!new)>(before: (E, E) -> bool, a: seq<E>, x: E)
    requires Sorted(before, a) && x in a
    ensures x == a[0] || before(a[0], x)
  {
  }

  /** There is only one way to sort. */
  lemma {:induction false} SortedUnique<E(!new)>(before: (E, E) -> bool, a: seq<E>, b: seq<E>)
    requires Strict(before) && Sorted(before, a) && Sorted(before, b) && forall x :: x in a <==> x in b
    ensures a == b
  {
    if b != [] {
      assert b[0] in b;
    }
    if a != [] {
      assert a[0] in b && b[0] in a;
      FirstIsLeast(before, a, b[0]);
      FirstIsLeast(before, b, a[0]);
      assert a[0] == b[0];
      SortedTail(before, a);
      SortedTail(before, b);
      SortedUnique(before, a[1..], b[1..]);
    }
  }
}
