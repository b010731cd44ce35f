/** Sorting a set under a strict total order, as the database and Python's `sorted` do. */
module Ordering {
  import opened Prelude

  predicate Ordered<T>(a: seq<T>, less: (T, T) -> bool) {
    forall i, j :: 0 <= i < j < |a| ==> less(a[i], a[j])
  }

  /** A strict total order on the elements of `s`. */
  ghost predicate StrictTotal<T>(s: set<T>, less: (T, T) -> bool) {
    && (forall x :: x in s ==> !less(x, x))
    && (forall x, y :: x in s && y in s && x != y ==> less(x, y) || less(y, x))
    && (forall x, y, z :: x in s && y in s && z in s && less(x, y) && less(y, z) ==> less(x, z))
  }

  function Elements<T>(a: seq<T>): set<T> {
    set x | x in a
  }

  lemma ElementsSnoc<T>(a: seq<T>, x: T)
    ensures Elements(a + [x]) == Elements(a) + {x}
  {
  }

  /** Puts `x` at its place in an ordered list. */
  function Insert<T>(a: seq<T>, x: T, less: (T, T) -> bool): seq<T> {
    if a == [] || less(a[|a| - 1], x) then a + [x]
    else Insert(a[..|a| - 1], x, less) + [a[|a| - 1]]
  }

  lemma OrderedSnoc<T>(a: seq<T>, x: T, less: (T, T) -> bool)
    requires Ordered(a, less) && forall y :: y in Elements(a) ==> less(y, x)
    ensures Ordered(a + [x], less)
  {
    assert forall i :: 0 <= i < |a| ==> a[i] in Elements(a);
  }

  lemma OrderedInit<T>(a: seq<T>, x: T, less: (T, T) -> bool)
    requires Ordered(a + [x], less)
    ensures Ordered(a, less) && forall y :: y in Elements(a) ==> less(y, x)
  {
    var s := a + [x];
    assert forall i :: 0 <= i < |a| ==> s[i] == a[i];
    assert s[|a|] == x;
  }

  lemma {:induction false} InsertOrdered<T>(a: seq<T>, x: T, less: (T, T) -> bool)
    requires Ordered(a, less) && x !in a
    requires StrictTotal(Elements(a) + {x}, less)
    ensures Ordered(Insert(a, x, less), less)
    ensures Elements(Insert(a, x, less)) == Elements(a) + {x}
  {
    if a == [] {
      ElementsSnoc(a, x);
    } else {
      var n := |a| - 1;
      var init, last := a[..n], a[n];
      assert a == init + [last];
      ElementsSnoc(init, last);
      OrderedInit(init, last, less);
      assert last in Elements(a);
      if less(last, x) {
        ElementsSnoc(a, x);
        OrderedSnoc(a, x, less);
      } else {
        var r := Insert(init, x, less);
        InsertOrdered(init, x, less);
        ElementsSnoc(r, last);
        OrderedSnoc(r, last, less);
      }
    }
  }

  method Sort<T(==)>(s: set<T>, less: (T, T) -> bool) returns (sorted: seq<T>)
    requires StrictTotal(s, less)
    ensures Ordered(sorted, less) && Elements(sorted) == s
  {
    sorted := [];
    var rest := s;
    while rest != {}
      invariant rest <= s && Ordered(sorted, less)
      invariant Elements(sorted) == s - rest
      decreases rest
    {
      ghost var _ := Inhabitant(rest);
      var x :| x in rest;
      assert x !in Elements(sorted);
      InsertOrdered(sorted, x, less);
      sorted := Insert(sorted, x, less);
      rest := rest - {x};
    }
  }

  lemma EmptyElements<T>(a: seq<T>)
    ensures a == [] <==> Elements(a) == {}
  {
    if a != [] {
      var x := a[0];
      assert x in Elements(a);
    }
  }

  /** The last element is above every other. */
  lemma LastIsGreatest<T>(a: seq<T>, x: T, less: (T, T) -> bool)
    requires Ordered(a, less) && x in Elements(a)
    ensures x == a[|a| - 1] || less(x, a[|a| - 1])
  {
    var i :| 0 <= i < |a| && a[i] == x;
  }

  lemma Antisymmetric<T>(s: set<T>, x: T, y: T, less: (T, T) -> bool)
    requires StrictTotal(s, less) && x in s && y in s
    requires x == y || less(x, y)
    requires x == y || less(y, x)
    ensures x == y
  {
  }

  lemma PrefixOrdered<T>(a: seq<T>, less: (T, T) -> bool)
    requires a != [] && Ordered(a, less)
    ensures Ordered(a[..|a| - 1], less) && a == a[..|a| - 1] + [a[|a| - 1]]
  {
  }

  lemma SubsetTotal<T>(s: set<T>, t: set<T>, less: (T, T) -> bool)
    requires t <= s && StrictTotal(s, less)
    ensures StrictTotal(t, less)
  {
  }

  lemma LastRemoved<T>(a: seq<T>, less: (T, T) -> bool)
    requires a != [] && Ordered(a, less) && StrictTotal(Elements(a), less)
    ensures Elements(a[..|a| - 1]) == Elements(a) - {a[|a| - 1]}
  {
    var n := |a| - 1;
    var x := a[n];
    assert a == a[..n] + [x];
    ElementsSnoc(a[..n], x);
    assert x in Elements(a);
    assert x !in a[..n];
  }

  /** An ordered list is determined by its elements. */
  lemma {:induction false} OrderedUnique<T>(a: seq<T>, b: seq<T>, less: (T, T) -> bool)
    requires Ordered(a, less) && Ordered(b, less)
    requires Elements(a) == Elements(b) && StrictTotal(Elements(a), less)
    ensures a == b
  {
    EmptyElements(a);
    EmptyElements(b);
    if a != [] {
      var m, n := |a| - 1, |b| - 1;
      var x, y := a[m], b[n];
      assert x == y by {
        assert x in Elements(a) && y in Elements(b);
        LastIsGreatest(b, x, less);
        LastIsGreatest(a, y, less);
        Antisymmetric(Elements(a), x, y, less);
      }
      LastRemoved(a, less);
      LastRemoved(b, less);
      SubsetTotal(Elements(a), Elements(a[..m]), less);
      PrefixOrdered(a, less);
      PrefixOrdered(b, less);
      OrderedUnique(a[..m], b[..n], less);
    }
  }

  /** Strictly ascending numbers. */
  predicate Ascending(a: seq<int>) {
    forall i, j :: 0 <= i < j < |a| ==> a[i] < a[j]
  }

  const BELOW: (int, int) -> bool := (x, y) => x < y

  method SortNumbers(s: set<int>) returns (sorted: seq<int>)
    ensures Ascending(sorted) && Elements(sorted) == s
  {
    sorted := Sort(s, BELOW);
  }

  lemma AscendingUnique(a: seq<int>, b: seq<int>)
    requires Ascending(a) && Ascending(b) && Elements(a) == Elements(b)
    ensures a == b
  {
    OrderedUnique(a, b, BELOW);
  }
}
