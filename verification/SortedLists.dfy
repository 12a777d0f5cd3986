/** Lists without repetition in a strict order, and code-point order on strings. */
module SortedLists {
  /** Code-point order. */
  predicate Before(a: string, b: string)
    decreases |a|
  {
    if a == [] then b != []
    else b != [] && (a[0] < b[0] || (a[0] == b[0] && Before(a[1..], b[1..])))
  }

  lemma {:induction false} BeforeIsStrict(a: string, b: string, c: string)
    ensures !Before(a, a)
    ensures Before(a, b) && Before(b, c) ==> Before(a, c)
    ensures a == b || Before(a, b) || Before(b, a)
    decreases |a|
  {
    if a != [] {
      if b != [] && c != [] {
        BeforeIsStrict(a[1..], b[1..], c[1..]);
        assert a[0] == b[0] && a[1..] == b[1..] ==> a == [a[0]] + a[1..] == [b[0]] + b[1..] == b;
      } else if b != [] {
        BeforeIsStrict(a[1..], b[1..], []);
        assert a[0] == b[0] && a[1..] == b[1..] ==> a == [a[0]] + a[1..] == [b[0]] + b[1..] == b;
      } else {
        BeforeIsStrict(a[1..], [], []);
      }
    }
  }

  ghost predicate Strict<T(!new)>(less: (T, T) -> bool) {
    && (forall a :: !less(a, a))
    && (forall a, b, c :: less(a, b) && less(b, c) ==> less(a, c))
  }

  ghost predicate Ordered<T>(less: (T, T) -> bool, xs: seq<T>) {
    forall i, j :: 0 <= i < j < |xs| ==> less(xs[i], xs[j])
  }

  function Insert<T>(less: (T, T) -> bool, sorted: seq<T>, x: T): seq<T> {
    if sorted == [] then [x]
    else if less(x, sorted[0]) then [x] + sorted
    else [sorted[0]] + Insert(less, sorted[1..], x)
  }

  lemma {:induction false} InsertOrdered<T(!new)>(less: (T, T) -> bool, sorted: seq<T>, x: T)
    requires Strict(less) && Ordered(less, sorted)
    requires forall y :: y in sorted ==> less(x, y) || less(y, x)
    ensures Ordered(less, Insert(less, sorted, x))
    ensures forall y :: y in Insert(less, sorted, x) <==> y in sorted || y == x
  {
    if sorted != [] {
      var rest := sorted[1..];
      assert forall y :: y in sorted <==> y == sorted[0] || y in rest;
      if less(x, sorted[0]) {
        assert forall j :: 0 < j < |sorted| ==> less(sorted[0], sorted[j]);
      } else {
        InsertOrdered(less, rest, x);
        var tail := Insert(less, rest, x);
        forall j | 0 <= j < |tail| ensures less(sorted[0], tail[j]) {
          assert tail[j] in tail;
          if tail[j] != x { assert exists k :: 0 <= k < |rest| && rest[k] == tail[j]; }
        }
      }
    }
  }

  lemma HeadIsAlone<T(!new)>(less: (T, T) -> bool, xs: seq<T>)
    requires Strict(less) && Ordered(less, xs) && xs != []
    ensures xs[0] !in xs[1..]
  {
    forall i | 1 <= i < |xs| ensures xs[i] != xs[0] { assert less(xs[0], xs[i]); }
  }

  lemma SomeMember<T>(xs: seq<T>)
    requires xs != []
    ensures exists x :: x in xs
  {
    assert xs[0] in xs;
  }

  /** Only one list of given elements is in the order. */
  lemma {:induction false} OrderedIsUnique<T(!new)>(less: (T, T) -> bool, a: seq<T>, b: seq<T>)
    requires Strict(less) && Ordered(less, a) && Ordered(less, b) && forall x :: x in a <==> x in b
    ensures a == b
    decreases |a|
  {
    if a == [] {
      if b != [] { SomeMember(b); }
    } else {
      assert a[0] in b && a[0] in a;
      assert b != [] && b[0] in a;
      assert a[0] == b[0];
      var ra, rb := a[1..], b[1..];
      HeadIsAlone(less, a);
      HeadIsAlone(less, b);
      forall x ensures x in ra <==> x in rb {
        assert x in a <==> x == a[0] || x in ra;
        assert x in b <==> x == b[0] || x in rb;
      }
      OrderedIsUnique(less, ra, rb);
    }
  }
}
