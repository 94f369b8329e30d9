/** The stable sort of Rust's `sort_by` and Python's `list.sort`, by any total order. */
module StableSort {
  ghost predicate IsTotalOrder<T(!new)>(atMost: (T, T) -> bool) {
    && (forall x, y :: atMost(x, y) || atMost(y, x))
    && (forall x, y, z :: atMost(x, y) && atMost(y, z) ==> atMost(x, z))
  }

  /** Puts an element behind those that are not greater. */
  function Insert<T>(s: seq<T>, x: T, atMost: (T, T) -> bool): (r: seq<T>)
    ensures |r| == |s| + 1
  {
    if s == [] || atMost(s[|s| - 1], x) then s + [x] else Insert(s[..|s| - 1], x, atMost) + [s[|s| - 1]]
  }

  function Sort<T>(s: seq<T>, atMost: (T, T) -> bool): (r: seq<T>)
    ensures |r| == |s|
  {
    if s == [] then [] else Insert(Sort(s[..|s| - 1], atMost), s[|s| - 1], atMost)
  }

  ghost predicate IsSorted<T>(s: seq<T>, atMost: (T, T) -> bool) {
    forall i, j :: 0 <= i <= j < |s| ==> atMost(s[i], s[j])
  }

  ghost predicate AllAtMost<T>(s: seq<T>, x: T, atMost: (T, T) -> bool) {
    forall i :: 0 <= i < |s| ==> atMost(s[i], x)
  }

  /** The element, if it is wanted. */
  function If<T>(x: T, wanted: T -> bool): (r: seq<T>) {
    if wanted(x) then [x] else []
  }

  /** The wanted elements, in order. */
  function Filter<T>(s: seq<T>, wanted: T -> bool): (r: seq<T>) {
    if s == [] then [] else Filter(s[..|s| - 1], wanted) + If(s[|s| - 1], wanted)
  }

  lemma FilterAppend<T>(s: seq<T>, x: T, wanted: T -> bool)
    ensures Filter(s + [x], wanted) == Filter(s, wanted) + If(x, wanted)
  {
    assert (s + [x])[..|s|] == s;
  }

  /** All the wanted ones are equal in the order. */
  ghost predicate AreEqual<T(!new)>(wanted: T -> bool, atMost: (T, T) -> bool) {
    forall x, y :: wanted(x) && wanted(y) ==> atMost(x, y)
  }

  lemma {:induction false} InsertBounded<T>(s: seq<T>, x: T, y: T, atMost: (T, T) -> bool)
    requires AllAtMost(s, y, atMost) && atMost(x, y)
    ensures AllAtMost(Insert(s, x, atMost), y, atMost)
  {
    if s != [] && !atMost(s[|s| - 1], x) {
      InsertBounded(s[..|s| - 1], x, y, atMost);
    }
  }

  lemma {:induction false} InsertSorts<T(!new)>(s: seq<T>, x: T, atMost: (T, T) -> bool)
    requires IsTotalOrder(atMost) && IsSorted(s, atMost)
    ensures IsSorted(Insert(s, x, atMost), atMost)
  {
    if s == [] || atMost(s[|s| - 1], x) {
      assert forall i :: 0 <= i < |s| ==> atMost(s[i], s[|s| - 1]);
    } else {
      var front, last := s[..|s| - 1], s[|s| - 1];
      assert forall i :: 0 <= i < |front| ==> atMost(s[i], s[|s| - 1]);
      InsertSorts(front, x, atMost);
      InsertBounded(front, x, last, atMost);
    }
  }

  lemma {:induction false} InsertPermutes<T>(s: seq<T>, x: T, atMost: (T, T) -> bool)
    ensures multiset(Insert(s, x, atMost)) == multiset(s) + multiset{x}
  {
    if s != [] && !atMost(s[|s| - 1], x) {
      assert s == s[..|s| - 1] + [s[|s| - 1]];
      InsertPermutes(s[..|s| - 1], x, atMost);
    }
  }

  lemma Swap<T>(found: seq<T>, x: T, y: T, wanted: T -> bool)
    requires !wanted(x) || !wanted(y)
    ensures found + If(x, wanted) + If(y, wanted) == found + If(y, wanted) + If(x, wanted)
  {
    if wanted(x) {
      assert If(y, wanted) == [];
    } else {
      assert If(x, wanted) == [];
    }
  }

  lemma FilterBefore<T>(front: seq<T>, inserted: seq<T>, last: T, x: T, wanted: T -> bool)
    requires Filter(inserted, wanted) == Filter(front, wanted) + If(x, wanted) && !(wanted(x) && wanted(last))
    ensures Filter(inserted + [last], wanted) == Filter(front + [last], wanted) + If(x, wanted)
  {
    FilterAppend(inserted, last, wanted);
    FilterAppend(front, last, wanted);
    Swap(Filter(front, wanted), x, last, wanted);
  }

  lemma {:induction false} InsertIsStable<T(!new)>(s: seq<T>, x: T, atMost: (T, T) -> bool, wanted: T -> bool)
    requires AreEqual(wanted, atMost)
    ensures Filter(Insert(s, x, atMost), wanted) == Filter(s, wanted) + If(x, wanted)
  {
    if s == [] || atMost(s[|s| - 1], x) {
      FilterAppend(s, x, wanted);
    } else {
      var front, last := s[..|s| - 1], s[|s| - 1];
      assert s == front + [last];
      InsertIsStable(front, x, atMost, wanted);
      FilterBefore(front, Insert(front, x, atMost), last, x, wanted);
    }
  }

  /** Sorting orders the elements and keeps every one of them. */
  lemma {:induction false} SortSorts<T(!new)>(s: seq<T>, atMost: (T, T) -> bool)
    requires IsTotalOrder(atMost)
    ensures IsSorted(Sort(s, atMost), atMost) && multiset(Sort(s, atMost)) == multiset(s)
  {
    if s != [] {
      var front, last := s[..|s| - 1], s[|s| - 1];
      assert s == front + [last];
      SortSorts(front, atMost);
      InsertSorts(Sort(front, atMost), last, atMost);
      InsertPermutes(Sort(front, atMost), last, atMost);
    }
  }

  /** Elements that are equal in the order stay in the order they came in. */
  lemma {:induction false} SortIsStable<T(!new)>(s: seq<T>, atMost: (T, T) -> bool, wanted: T -> bool)
    requires AreEqual(wanted, atMost)
    ensures Filter(Sort(s, atMost), wanted) == Filter(s, wanted)
  {
    if s != [] {
      var front, last := s[..|s| - 1], s[|s| - 1];
      SortIsStable(front, atMost, wanted);
      InsertIsStable(Sort(front, atMost), last, atMost, wanted);
    }
  }
}
