// Sorted listings: what ORDER BY and the sort functions return.
module Ordering {

  /** less is a strict total order on these elements. */
  ghost predicate OrderOn<T(!new)>(less: (T, T) -> bool, elements: set<T>) {
    && (forall x :: x in elements ==> !less(x, x))
    && (forall x, y | x in elements && y in elements :: less(x, y) || less(y, x) || x == y)
    && (forall x, y, z | x in elements && y in elements && z in elements :: less(x, y) && less(y, z) ==> less(x, z))
  }

  ghost predicate SortedBy<T>(less: (T, T) -> bool, s: seq<T>) {
    forall i, j :: 0 <= i < j < |s| ==> less(s[i], s[j])
  }

  /** s holds exactly these elements, each once, in order. */
  ghost predicate ListsBy<T(!new)>(less: (T, T) -> bool, s: seq<T>, elements: set<T>) {
    && SortedBy(less, s)
    && forall x :: x in s <==> x in elements
  }

  lemma FirstIsLeast<T(!new)>(less: (T, T) -> bool, s: seq<T>, elements: set<T>, x: T)
    requires ListsBy(less, s, elements) && x in elements
    ensures s != [] && (x == s[0] || less(s[0], x))
  {
    assert x in s;
    var i :| 0 <= i < |s| && s[i] == x;
  }

  lemma TailLists<T(!new)>(less: (T, T) -> bool, s: seq<T>, elements: set<T>)
    requires OrderOn(less, elements) && ListsBy(less, s, elements) && s != []
    ensures ListsBy(less, s[1..], elements - {s[0]}) && OrderOn(less, elements - {s[0]})
  {
    assert s == [s[0]] + s[1..];
    assert s[0] in s;
    forall x | x in s[1..] ensures x != s[0] {
      var i :| 0 <= i < |s[1..]| && s[1..][i] == x;
      assert less(s[0], s[i + 1]);
    }
  }

  /** A set has only one sorted listing, so the way it was computed does not show. */
  lemma {:induction false} ListingUnique<T(!new)>(less: (T, T) -> bool, a: seq<T>, b: seq<T>, elements: set<T>)
    requires OrderOn(less, elements) && ListsBy(less, a, elements) && ListsBy(less, b, elements)
    ensures a == b
    decreases |a|
  {
    assert |b| > 0 ==> b[0] in a;
    if a != [] {
      assert a[0] in b && a[0] in elements;
      FirstIsLeast(less, b, elements, a[0]);
      assert b[0] in b && b[0] in elements;
      FirstIsLeast(less, a, elements, b[0]);
      assert a[0] == b[0];
      TailLists(less, a, elements);
      TailLists(less, b, elements);
      ListingUnique(less, a[1..], b[1..], elements - {a[0]});
    }
  }

  lemma {:induction false} LeastExists<T(!new)>(less: (T, T) -> bool, elements: set<T>)
    requires OrderOn(less, elements) && elements != {}
    ensures exists x :: x in elements && forall y :: y in elements ==> y == x || less(x, y)
    decreases |elements|
  {
    var some :| some in elements;
    var rest := elements - {some};
    assert elements == rest + {some};
    if rest != {} {
      LeastExists(less, rest);
      var x :| x in rest && forall y :: y in rest ==> y == x || less(x, y);
      var least := if less(some, x) then some else x;
      forall y | y in elements ensures y == least || less(least, y) {
        assert y in rest || y == some;
      }
    }
  }

  /** Lists a set by repeatedly taking its least element. */
  method ListBy<T(==, !new)>(less: (T, T) -> bool, elements: set<T>) returns (s: seq<T>)
    requires OrderOn(less, elements)
    ensures ListsBy(less, s, elements)
  {
    s := [];
    var rest := elements;
    while rest != {}
      invariant rest <= elements
      invariant ListsBy(less, s, elements - rest)
      invariant forall i, x :: 0 <= i < |s| && x in rest ==> less(s[i], x)
    {
      LeastExists(less, rest);
      var x :| x in rest && forall y :: y in rest ==> y == x || less(x, y);
      s := s + [x];
      rest := rest - {x};
    }
    assert elements - rest == elements;
  }
}
