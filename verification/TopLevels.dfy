/** The strongest structural levels of a day or week, kept by trimming as candles arrive. */
module TopLevels {
  import opened Common
  import opened LevelModel
  import opened Ordering

  predicate Distinct(s: set<Level>) {
    forall a, b :: a in s && b in s && a.arrival == b.arrival ==> a == b
  }

  // ---- The best k of a set ----

  /** Those that fewer than `k` others beat. */
  function TopK(s: set<Level>, k: nat): set<Level> {
    set x | x in s && |Beaters(s, x)| < k
  }

  lemma SomeLevel(s: set<Level>)
    ensures s == {} || exists x :: x in s
  {
    if forall x :: x !in s {
      assert s == {};
    }
  }

  lemma {:induction false} WorstExists(s: set<Level>) returns (w: Level)
    requires s != {} && Distinct(s)
    ensures w in s && forall a :: a in s && a != w ==> Beats(a, w)
    decreases |s|
  {
    SomeLevel(s);
    w :| w in s;
    var rest := s - {w};
    if rest != {} {
      var v := WorstExists(rest);
      if Beats(w, v) {
        assert forall a :: a in s && a != v ==> a == w || a in rest;
        w := v;
      } else {
        forall a | a in s && a != w ensures Beats(a, w) {
          assert a in rest;
          assert a == v || Beats(a, v);
        }
      }
    }
  }

  /** Dropping the worst of too many changes nothing. */
  lemma DropWorst(s: set<Level>, k: nat, w: Level)
    requires w in s && |s| > k && (forall a :: a in s && a != w ==> Beats(a, w))
    ensures TopK(s - {w}, k) == TopK(s, k)
  {
    assert Beaters(s, w) == s - {w};
    forall x | x in s - {w} ensures Beaters(s - {w}, x) == Beaters(s, x) {
      assert Beats(x, w);
    }
  }

  lemma {:induction false} TopKSize(s: set<Level>, k: nat)
    requires Distinct(s)
    ensures |TopK(s, k)| == if |s| < k then |s| else k
    decreases |s|
  {
    if |s| <= k {
      forall x | x in s ensures |Beaters(s, x)| < k {
        assert x !in Beaters(s, x);
        SubsetSize(Beaters(s, x), s);
      }
      assert TopK(s, k) == s;
    } else {
      var w := WorstExists(s);
      DropWorst(s, k, w);
      TopKSize(s - {w}, k);
    }
  }

  /** A level that is not among the best is beaten by `k` that are. */
  lemma DroppedIsBeaten(s: set<Level>, k: nat, d: Level)
    requires Distinct(s) && d in s && d !in TopK(s, k)
    ensures |Beaters(TopK(s, k), d)| >= k
  {
    var up := Beaters(s, d);
    TopKSize(up, k);
    forall x | x in TopK(up, k) ensures x in Beaters(TopK(s, k), d) {
      assert Beaters(s, x) == Beaters(up, x);
    }
    SubsetSize(TopK(up, k), Beaters(TopK(s, k), d));
  }

  lemma StreamingAt(a: set<Level>, b: set<Level>, k: nat, x: Level)
    requires Distinct(a + b)
    ensures x in TopK(TopK(a, k) + b, k) <==> x in TopK(a + b, k)
  {
    var kept, all := TopK(a, k) + b, a + b;
    SubsetSize(Beaters(kept, x), Beaters(all, x));
    var gap := Beaters(all, x) - Beaters(kept, x);
    SomeLevel(gap);
    if gap != {} {
      var d :| d in gap;
      DroppedIsBeaten(a, k, d);
      SubsetSize(Beaters(TopK(a, k), d), Beaters(kept, x));
    } else {
      forall d | d in Beaters(all, x) ensures d in Beaters(kept, x) { assert d !in gap; }
      assert Beaters(kept, x) == Beaters(all, x);
    }
    if x in a && x !in TopK(a, k) {
      SubsetSize(Beaters(a, x), Beaters(all, x));
    }
  }

  /** Trimming as levels arrive loses nothing: the best of the retained and the new are the best
      of everything. */
  lemma Streaming(a: set<Level>, b: set<Level>, k: nat)
    requires Distinct(a + b)
    ensures TopK(TopK(a, k) + b, k) == TopK(a + b, k)
  {
    forall x ensures x in TopK(TopK(a, k) + b, k) <==> x in TopK(a + b, k) {
      StreamingAt(a, b, k, x);
    }
  }

  // ---- The list of levels ----

  /** Top levels stand in the order of their arrival. */
  predicate InOrder(levels: seq<Level>) {
    forall i, j :: 0 <= i < j < |levels| && IsTop(levels[i].kind) && IsTop(levels[j].kind) ==>
      levels[i].arrival < levels[j].arrival
  }

  /** The levels of one kind, window and direction. */
  function Rivals(levels: seq<Level>, kind: Kind, window: int, direction: Direction): set<Level> {
    set l | l in levels && Matches(l, kind, window, direction)
  }

  lemma {:induction false} KeepOrder(levels: seq<Level>, t: Test)
    requires InOrder(levels)
    ensures InOrder(Keep(levels, t))
  {
    if levels != [] {
      var init, last := levels[..|levels| - 1], levels[|levels| - 1];
      KeepOrder(init, t);
      forall l | l in Keep(init, t) && IsTop(l.kind) && IsTop(last.kind) ensures l.arrival < last.arrival {
        KeepMembers(init, t, l);
      }
      AppendInOrder(Keep(init, t), last);
    }
  }

  lemma AppendInOrder(levels: seq<Level>, l: Level)
    requires InOrder(levels) && (forall x :: x in levels && IsTop(x.kind) && IsTop(l.kind) ==> x.arrival < l.arrival)
    ensures InOrder(levels + [l])
  {
    forall i | 0 <= i < |levels| && IsTop(levels[i].kind) && IsTop(l.kind) ensures levels[i].arrival < l.arrival {
      assert levels[i] in levels;
    }
  }

  lemma OrderIsDistinct(levels: seq<Level>, kind: Kind, window: int, direction: Direction)
    requires InOrder(levels) && IsTop(kind)
    ensures Distinct(Rivals(levels, kind, window, direction))
  {
    forall a, b | a in levels && b in levels && IsTop(a.kind) && IsTop(b.kind) && a.arrival == b.arrival
      ensures a == b
    {
      var i :| 0 <= i < |levels| && levels[i] == a;
      var j :| 0 <= j < |levels| && levels[j] == b;
    }
  }

  // ---- What a candle does to the top levels ----

  /** Keeps the best `k` of one kind, window and direction, and everything else. */
  function Trimmed(levels: seq<Level>, kind: Kind, window: int, direction: Direction, k: nat): seq<Level> {
    Keep(levels, Ranked(Rivals(levels, kind, window, direction), kind, window, direction, k))
  }

  lemma TrimmedMembers(levels: seq<Level>, kind: Kind, window: int, direction: Direction, k: nat, l: Level)
    ensures l in Trimmed(levels, kind, window, direction, k) <==>
              && l in levels
              && (Matches(l, kind, window, direction) ==> |Beaters(Rivals(levels, kind, window, direction), l)| < k)
  {
    KeepMembers(levels, Ranked(Rivals(levels, kind, window, direction), kind, window, direction, k), l);
  }

  lemma TrimmedRivals(levels: seq<Level>, kind: Kind, window: int, direction: Direction, k: nat)
    requires InOrder(levels)
    ensures InOrder(Trimmed(levels, kind, window, direction, k))
    ensures Rivals(Trimmed(levels, kind, window, direction, k), kind, window, direction)
         == TopK(Rivals(levels, kind, window, direction), k)
  {
    KeepOrder(levels, Ranked(Rivals(levels, kind, window, direction), kind, window, direction, k));
    forall l ensures l in Rivals(Trimmed(levels, kind, window, direction, k), kind, window, direction)
                <==> l in TopK(Rivals(levels, kind, window, direction), k)
    {
      TrimmedMembers(levels, kind, window, direction, k, l);
    }
  }

  /** Other kinds, windows and directions are left alone. */
  lemma TrimmedOthers(levels: seq<Level>, kind: Kind, window: int, direction: Direction, k: nat, kind': Kind,
          window': int, direction': Direction)
    requires (kind', window', direction') != (kind, window, direction)
    ensures Rivals(Trimmed(levels, kind, window, direction, k), kind', window', direction')
         == Rivals(levels, kind', window', direction')
  {
    forall l ensures l in Rivals(Trimmed(levels, kind, window, direction, k), kind', window', direction')
                <==> l in Rivals(levels, kind', window', direction')
    {
      TrimmedMembers(levels, kind, window, direction, k, l);
    }
  }

  /** Drops the kind's levels of other windows. */
  function Retained(levels: seq<Level>, kind: Kind, window: int): seq<Level> {
    Keep(levels, InWindow(kind, window))
  }

  /** Retain, append, and trim each direction. */
  function Updated(levels: seq<Level>, kind: Kind, window: int, added: seq<Level>, k: nat): seq<Level> {
    Trimmed(Trimmed(Retained(levels, kind, window) + added, kind, window, Buy, k), kind, window, Sell, k)
  }

  lemma RetainedRivals(levels: seq<Level>, kind: Kind, window: int, kind': Kind, window': int, direction: Direction)
    ensures Rivals(Retained(levels, kind, window), kind', window', direction)
         == if kind' == kind && window' != window then {} else Rivals(levels, kind', window', direction)
  {
    forall l
      ensures l in Retained(levels, kind, window) <==> l in levels && (l.kind != kind || l.window == Some(window))
    {
      KeepMembers(levels, InWindow(kind, window), l);
    }
  }

  lemma RivalsOfBoth(a: seq<Level>, b: seq<Level>, kind: Kind, window: int, direction: Direction)
    ensures Rivals(a + b, kind, window, direction)
         == Rivals(a, kind, window, direction) + Rivals(b, kind, window, direction)
  {
  }

  /** New levels of one kind and window, numbered from `next`. */
  predicate Fresh(added: seq<Level>, kind: Kind, window: int, next: nat) {
    && IsTop(kind)
    && forall i :: 0 <= i < |added| ==>
         && added[i].kind == kind && added[i].window == Some(window) && added[i].direction != Neutral
         && added[i].arrival == next + i && added[i].touched.None?
  }

  predicate Numbered(levels: seq<Level>, next: nat) {
    InOrder(levels) && forall i :: 0 <= i < |levels| && IsTop(levels[i].kind) ==> levels[i].arrival < next
  }

  lemma JoinNumbered(levels: seq<Level>, added: seq<Level>, next: nat)
    requires Numbered(levels, next) && (forall i :: 0 <= i < |added| ==> added[i].arrival == next + i)
    ensures Numbered(levels + added, next + |added|)
  {
  }

  lemma KeepNumbered(levels: seq<Level>, t: Test, next: nat)
    requires Numbered(levels, next)
    ensures Numbered(Keep(levels, t), next)
  {
    KeepOrder(levels, t);
    var kept := Keep(levels, t);
    forall i | 0 <= i < |kept| && IsTop(kept[i].kind) ensures kept[i].arrival < next {
      KeepMembers(levels, t, kept[i]);
      assert kept[i] in kept;
    }
  }

  lemma UpdatedNumbered(levels: seq<Level>, kind: Kind, window: int, added: seq<Level>, k: nat, next: nat)
    requires Numbered(levels, next) && Fresh(added, kind, window, next)
    ensures Numbered(Updated(levels, kind, window, added, k), next + |added|)
  {
    var retained := Retained(levels, kind, window);
    KeepNumbered(levels, InWindow(kind, window), next);
    JoinNumbered(retained, added, next);
    var joined := retained + added;
    var once := Trimmed(joined, kind, window, Buy, k);
    KeepNumbered(joined, Ranked(Rivals(joined, kind, window, Buy), kind, window, Buy, k), next + |added|);
    KeepNumbered(once, Ranked(Rivals(once, kind, window, Sell), kind, window, Sell, k), next + |added|);
  }

  /** The update leaves, of its own window and in each direction, the best of old and new. */
  lemma UpdatedRivals(levels: seq<Level>, kind: Kind, window: int, added: seq<Level>, k: nat, next: nat,
          direction: Direction)
    requires Numbered(levels, next) && Fresh(added, kind, window, next) && direction != Neutral
    ensures Rivals(Updated(levels, kind, window, added, k), kind, window, direction)
         == TopK(Rivals(levels, kind, window, direction) + Rivals(added, kind, window, direction), k)
  {
    var retained := Retained(levels, kind, window);
    var joined := retained + added;
    var once := Trimmed(joined, kind, window, Buy, k);
    KeepNumbered(levels, InWindow(kind, window), next);
    JoinNumbered(retained, added, next);
    RetainedRivals(levels, kind, window, kind, window, direction);
    RivalsOfBoth(retained, added, kind, window, direction);
    TrimmedRivals(joined, kind, window, Buy, k);
    TrimmedRivals(once, kind, window, Sell, k);
    if direction == Buy {
      TrimmedOthers(once, kind, window, Sell, k, kind, window, Buy);
    } else {
      TrimmedOthers(joined, kind, window, Buy, k, kind, window, Sell);
    }
  }

  /** And of other windows of its kind nothing, of other kinds everything. */
  lemma UpdatedOthers(levels: seq<Level>, kind: Kind, window: int, added: seq<Level>, k: nat, next: nat, kind': Kind,
          window': int, direction: Direction)
    requires Fresh(added, kind, window, next) && (kind', window') != (kind, window)
    ensures Rivals(Updated(levels, kind, window, added, k), kind', window', direction)
         == if kind' == kind then {} else Rivals(levels, kind', window', direction)
  {
    var joined := Retained(levels, kind, window) + added;
    TrimmedOthers(joined, kind, window, Buy, k, kind', window', direction);
    TrimmedOthers(Trimmed(joined, kind, window, Buy, k), kind, window, Sell, k, kind', window', direction);
    RivalsOfBoth(Retained(levels, kind, window), added, kind', window', direction);
    RetainedRivals(levels, kind, window, kind', window', direction);
    assert Rivals(added, kind', window', direction) == {};
  }
}
