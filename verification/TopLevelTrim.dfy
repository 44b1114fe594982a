/** Trimming as the list of levels is trimmed: rank the matching indices, and remove the losers
    from the back. */
module TopLevelTrim {
  import opened LevelModel
  import opened TopLevels

  predicate IndexBeats(levels: seq<Level>, i: nat, j: nat)
    requires i < |levels| && j < |levels|
  {
    var a, b := levels[i], levels[j];
    || a.strength > b.strength
    || (a.strength == b.strength && (a.bubble < b.bubble || (a.bubble == b.bubble && i < j)))
  }

  /** In a list in arrival order, comparing indices is comparing arrivals. */
  lemma IndexBeatsIsBeats(levels: seq<Level>, i: nat, j: nat)
    requires InOrder(levels) && i < |levels| && j < |levels| && IsTop(levels[i].kind) && IsTop(levels[j].kind)
    ensures IndexBeats(levels, i, j) <==> Beats(levels[i], levels[j])
  {
    if i < j { assert levels[i].arrival < levels[j].arrival; }
    if j < i { assert levels[j].arrival < levels[i].arrival; }
  }

  predicate Indices(levels: seq<Level>, order: seq<nat>) {
    forall p :: 0 <= p < |order| ==> order[p] < |levels|
  }

  predicate TopIndices(levels: seq<Level>, order: seq<nat>) {
    forall p :: 0 <= p < |order| ==> order[p] < |levels| && IsTop(levels[order[p]].kind)
  }

  /** Each index of the list beats every later one. */
  predicate BestFirst(levels: seq<Level>, order: seq<nat>)
    requires Indices(levels, order)
  {
    forall p, q :: 0 <= p < q < |order| ==> IndexBeats(levels, order[p], order[q])
  }

  /** Inserts an index behind all that beat it. */
  method InsertIndex(levels: seq<Level>, order: seq<nat>, i: nat) returns (r: seq<nat>)
    requires i < |levels| && Indices(levels, order) && BestFirst(levels, order) && i !in order
    ensures Indices(levels, r) && BestFirst(levels, r)
    ensures |r| == |order| + 1 && forall j: nat :: j in r <==> j in order || j == i
  {
    var p := |order|;
    while p > 0 && !IndexBeats(levels, order[p - 1], i)
      invariant 0 <= p <= |order|
      invariant forall q :: p <= q < |order| ==> IndexBeats(levels, i, order[q])
    {
      assert order[p - 1] in order;
      p := p - 1;
    }
    if p > 0 { BehindAll(levels, order, p, i); }
    r := order[..p] + [i] + order[p..];
    InsertedInOrder(levels, order, p, i);
    assert order == order[..p] + order[p..];
  }

  lemma BehindAll(levels: seq<Level>, order: seq<nat>, p: nat, i: nat)
    requires 0 < p <= |order| && i < |levels| && Indices(levels, order) && BestFirst(levels, order)
    requires IndexBeats(levels, order[p - 1], i)
    ensures forall q :: 0 <= q < p ==> IndexBeats(levels, order[q], i)
  {
    forall q | 0 <= q < p ensures IndexBeats(levels, order[q], i) {
      assert q < p - 1 ==> IndexBeats(levels, order[q], order[p - 1]);
    }
  }

  lemma InsertedInOrder(levels: seq<Level>, order: seq<nat>, p: nat, i: nat)
    requires p <= |order| && i < |levels| && Indices(levels, order) && BestFirst(levels, order)
    requires forall q :: 0 <= q < p ==> IndexBeats(levels, order[q], i)
    requires forall q :: p <= q < |order| ==> IndexBeats(levels, i, order[q])
    ensures Indices(levels, order[..p] + [i] + order[p..]) && BestFirst(levels, order[..p] + [i] + order[p..])
  {
    var r := order[..p] + [i] + order[p..];
    forall a, b | 0 <= a < b < |r| ensures IndexBeats(levels, r[a], r[b]) {
      assert r[a] == if a < p then order[a] else if a == p then i else order[a - 1];
      assert r[b] == if b < p then order[b] else if b == p then i else order[b - 1];
    }
  }

  /** The matching indices, best first. */
  method RankMatches(levels: seq<Level>, kind: Kind, window: int, direction: Direction) returns (order: seq<nat>)
    ensures Indices(levels, order) && BestFirst(levels, order)
    ensures forall i: nat :: i in order <==> i < |levels| && Matches(levels[i], kind, window, direction)
  {
    order := [];
    for i := 0 to |levels|
      invariant Indices(levels, order) && BestFirst(levels, order)
      invariant forall j: nat :: j in order <==> j < i && Matches(levels[j], kind, window, direction)
    {
      if Matches(levels[i], kind, window, direction) {
        order := InsertIndex(levels, order, i);
      }
    }
  }

  function Taken(levels: seq<Level>, order: seq<nat>, p: nat): set<Level>
    requires p <= |order| && Indices(levels, order)
  {
    set q | 0 <= q < p :: levels[order[q]]
  }

  lemma {:induction false} TakenSize(levels: seq<Level>, order: seq<nat>, p: nat)
    requires InOrder(levels) && p <= |order| && TopIndices(levels, order) && BestFirst(levels, order)
    ensures |Taken(levels, order, p)| == p
  {
    if p == 0 {
      assert Taken(levels, order, 0) == {};
    } else {
      TakenSize(levels, order, p - 1);
      var last := levels[order[p - 1]];
      assert last !in Taken(levels, order, p - 1) by {
        forall q | 0 <= q < p - 1 ensures levels[order[q]] != last {
          assert IndexBeats(levels, order[q], order[p - 1]);
          IndexBeatsIsBeats(levels, order[q], order[p - 1]);
        }
      }
      assert Taken(levels, order, p) == Taken(levels, order, p - 1) + {last};
    }
  }

  /** The place in the ranking is the number of rivals that beat it. */
  lemma PlaceIsRank(levels: seq<Level>, order: seq<nat>, kind: Kind, window: int, direction: Direction, p: nat)
    requires InOrder(levels) && Indices(levels, order) && BestFirst(levels, order) && p < |order| && IsTop(kind)
    requires forall i: nat :: i in order <==> i < |levels| && Matches(levels[i], kind, window, direction)
    ensures |Beaters(Rivals(levels, kind, window, direction), levels[order[p]])| == p
  {
    var rivals, x := Rivals(levels, kind, window, direction), levels[order[p]];
    forall q | 0 <= q < |order| ensures IsTop(levels[order[q]].kind) { assert order[q] in order; }
    TakenSize(levels, order, p);
    forall a | a in Beaters(rivals, x) ensures a in Taken(levels, order, p) {
      var i :| 0 <= i < |levels| && levels[i] == a;
      assert i in order;
      var q :| 0 <= q < |order| && order[q] == i;
      IndexBeatsIsBeats(levels, order[q], order[p]);
    }
    forall a | a in Taken(levels, order, p) ensures a in Beaters(rivals, x) {
      var q :| 0 <= q < p && levels[order[q]] == a;
      assert order[q] in order;
      assert IndexBeats(levels, order[q], order[p]);
      IndexBeatsIsBeats(levels, order[q], order[p]);
    }
    assert Beaters(rivals, x) == Taken(levels, order, p);
  }

  /** Keeps the best `k` of one kind, window and direction. */
  method TrimTop(levels: seq<Level>, kind: Kind, window: int, direction: Direction, k: nat) returns (out: seq<Level>)
    requires InOrder(levels) && IsTop(kind)
    ensures out == Trimmed(levels, kind, window, direction, k)
  {
    var order := RankMatches(levels, kind, window, direction);
    var remove := if |order| <= k then [] else order[k..];
    ghost var test := Ranked(Rivals(levels, kind, window, direction), kind, window, direction, k);
    RemovedFail(levels, order, remove, kind, window, direction, k);
    out := RemoveIndices(levels, remove, test);
  }

  /** Removes the given indices, from the last to the first. */
  method RemoveIndices(levels: seq<Level>, remove: seq<nat>, ghost test: Test) returns (out: seq<Level>)
    requires forall i: nat :: i < |levels| ==> (i in remove <==> !Passes(test, levels[i]))
    ensures out == Keep(levels, test)
  {
    out := levels;
    ghost var rest: seq<Level> := [];
    var i := |levels|;
    assert levels[..i] == levels;
    while i > 0
      invariant 0 <= i <= |levels|
      invariant out == levels[..i] + rest
      invariant Keep(levels, test) == Keep(levels[..i], test) + rest
    {
      KeepLast(levels, i, test, rest);
      i := i - 1;
      if i in remove {
        out := out[..i] + out[i + 1..];
      } else {
        rest := [levels[i]] + rest;
      }
    }
  }

  lemma KeepLast(levels: seq<Level>, i: nat, test: Test, rest: seq<Level>)
    requires 0 < i <= |levels|
    ensures Keep(levels[..i], test) + rest
         == if Passes(test, levels[i - 1]) then Keep(levels[..i - 1], test) + ([levels[i - 1]] + rest)
            else Keep(levels[..i - 1], test) + rest
  {
    assert levels[..i][..i - 1] == levels[..i - 1];
  }

  lemma RemovedFail(levels: seq<Level>, order: seq<nat>, remove: seq<nat>, kind: Kind, window: int,
          direction: Direction, k: nat)
    requires InOrder(levels) && Indices(levels, order) && BestFirst(levels, order) && IsTop(kind)
    requires forall i: nat :: i in order <==> i < |levels| && Matches(levels[i], kind, window, direction)
    requires remove == if |order| <= k then [] else order[k..]
    ensures forall i: nat :: i < |levels| ==>
              (i in remove <==>
               !Passes(Ranked(Rivals(levels, kind, window, direction), kind, window, direction, k), levels[i]))
  {
    forall i: nat | i < |levels|
      ensures i in remove <==>
              !Passes(Ranked(Rivals(levels, kind, window, direction), kind, window, direction, k), levels[i])
    {
      if i in order {
        var p :| 0 <= p < |order| && order[p] == i;
        PlaceIsRank(levels, order, kind, window, direction, p);
        if p >= k { assert remove[p - k] == i; }
        if i in remove {
          var q :| k <= q < |order| && order[q] == i;
          PlaceIsRank(levels, order, kind, window, direction, q);
        }
      }
    }
  }
}
