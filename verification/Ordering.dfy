/** The ends and the ascending list of a finite set of integers: what iterating an ordered map
    from either end yields. */
module Ordering {

  predicate Ascending(s: seq<int>) {
    forall i, j :: 0 <= i < j < |s| ==> s[i] < s[j]
  }

  lemma EmptyOrNot(keys: set<int>)
    ensures keys == {} || exists x :: x in keys
  {
    if forall x :: x !in keys {
      assert keys == {};
    }
  }

  lemma SubsetSize<T>(a: set<T>, b: set<T>)
    requires a <= b
    ensures |a| <= |b| && (a < b ==> |a| < |b|)
  {
    assert b == a + (b - a);
    if a < b { assert b - a != {}; }
  }

  lemma SameMaps<K, V>(m: map<K, V>, m': map<K, V>)
    requires m.Keys == m'.Keys && forall k :: k in m ==> m[k] == m'[k]
    ensures m == m'
  {
  }

  lemma {:induction false} FindLeast(keys: set<int>) returns (least: int)
    requires keys != {}
    ensures least in keys && forall j :: j in keys ==> least <= j
  {
    EmptyOrNot(keys);
    least :| least in keys;
    var rest := keys - {least};
    if rest != {} {
      var k := FindLeast(rest);
      if k < least { least := k; }
    }
    assert forall j :: j in keys ==> j in rest || rest == keys - {j};
  }

  lemma LeastExists(keys: set<int>)
    requires keys != {}
    ensures exists k :: k in keys && forall j :: j in keys ==> k <= j
  {
    var k := FindLeast(keys);
  }

  function Least(keys: set<int>): (k: int)
    requires keys != {}
    ensures k in keys && forall j :: j in keys ==> k <= j
  {
    LeastExists(keys);
    var k :| k in keys && forall j :: j in keys ==> k <= j;
    k
  }

  function Greatest(keys: set<int>): (k: int)
    requires keys != {}
    ensures k in keys && forall j :: j in keys ==> j <= k
  {
    var negated := set j | j in keys :: -j;
    EmptyOrNot(keys);
    assert forall j :: j in keys ==> -j in negated;
    -Least(negated)
  }

  /** The set as an ascending list. */
  function Sorted(keys: set<int>): (s: seq<int>)
    ensures Ascending(s)
    ensures forall k :: k in keys <==> k in s
    ensures |s| == |keys|
  {
    if keys == {} then []
    else
      var k := Least(keys);
      var rest := Sorted(keys - {k});
      assert forall i :: 0 <= i < |rest| ==> rest[i] in keys - {k};
      [k] + rest
  }
}
