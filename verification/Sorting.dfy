/** A stable sort by any total order. */
module Sorting {

  ghost predicate TotalOrder<T(!new)>(before: (T, T) -> bool) {
    && (forall a, b :: before(a, b) || before(b, a))
    && (forall a, b, c :: before(a, b) && before(b, c) ==> before(a, c))
  }

  ghost predicate SortedBy<T>(s: seq<T>, before: (T, T) -> bool) {
    forall i, j :: 0 <= i <= j < |s| ==> before(s[i], s[j])
  }

  function Insert<T>(s: seq<T>, x: T, before: (T, T) -> bool): seq<T> {
    if s == [] || before(s[|s| - 1], x) then s + [x] else Insert(s[..|s| - 1], x, before) + [s[|s| - 1]]
  }

  function Sort<T>(s: seq<T>, before: (T, T) -> bool): seq<T> {
    if s == [] then [] else Insert(Sort(s[..|s| - 1], before), s[|s| - 1], before)
  }

  lemma {:induction false} InsertPermutes<T>(s: seq<T>, x: T, before: (T, T) -> bool)
    ensures multiset(Insert(s, x, before)) == multiset(s) + multiset{x}
  {
    if s != [] {
      assert s == s[..|s| - 1] + [s[|s| - 1]];
      InsertPermutes(s[..|s| - 1], x, before);
    }
  }

  lemma AppendSorted<T(!new)>(s: seq<T>, x: T, before: (T, T) -> bool)
    requires TotalOrder(before) && SortedBy(s, before) && (forall y :: y in s ==> before(y, x))
    ensures SortedBy(s + [x], before)
  {
    forall i | 0 <= i < |s| ensures before(s[i], x) { assert s[i] in s; }
    assert before(x, x);
  }

  lemma {:induction false} InsertSorts<T(!new)>(s: seq<T>, x: T, before: (T, T) -> bool)
    requires TotalOrder(before) && SortedBy(s, before)
    ensures SortedBy(Insert(s, x, before), before)
  {
    if s != [] && !before(s[|s| - 1], x) {
      var init, last := s[..|s| - 1], s[|s| - 1];
      var inner := Insert(init, x, before);
      InsertSorts(init, x, before);
      InsertPermutes(init, x, before);
      forall y | y in inner ensures before(y, last) {
        assert y in multiset(inner);
      }
      AppendSorted(inner, last, before);
    } else {
      forall y | y in s ensures before(y, x) {
        var i :| 0 <= i < |s| && s[i] == y;
        assert before(s[i], s[|s| - 1]);
      }
      AppendSorted(s, x, before);
    }
  }

  /** The result is sorted and holds the same elements as often. */
  lemma {:induction false} SortSorts<T(!new)>(s: seq<T>, before: (T, T) -> bool)
    requires TotalOrder(before)
    ensures SortedBy(Sort(s, before), before) && multiset(Sort(s, before)) == multiset(s)
    ensures |Sort(s, before)| == |s| && forall x :: x in Sort(s, before) <==> x in s
  {
    if s != [] {
      var init, last := s[..|s| - 1], s[|s| - 1];
      SortSorts(init, before);
      InsertSorts(Sort(init, before), last, before);
      InsertPermutes(Sort(init, before), last, before);
      assert s == init + [last];
    }
    SamePermutation(Sort(s, before), s);
  }

  lemma SamePermutation<T(!new)>(a: seq<T>, b: seq<T>)
    requires multiset(a) == multiset(b)
    ensures |a| == |b| && forall x :: x in a <==> x in b
  {
    assert |multiset(a)| == |a| && |multiset(b)| == |b|;
    forall x ensures x in a <==> x in b {
      assert (x in a <==> x in multiset(a)) && (x in b <==> x in multiset(b));
    }
  }

  /** A sorted list is left as it is. */
  lemma {:induction false} SortedStays<T>(s: seq<T>, before: (T, T) -> bool)
    requires SortedBy(s, before)
    ensures Sort(s, before) == s
  {
    if s != [] {
      var init, last := s[..|s| - 1], s[|s| - 1];
      SortedStays(init, before);
      assert init == [] || before(init[|init| - 1], last);
      assert s == init + [last];
    }
  }
}
