/** Exactly when the greedy window is the smallest set of levels for every target: when activity
    falls away from the point of control. */
module AreaShape {
  import Ordering
  import opened ValueArea

  predicate InRange(s: set<nat>, n: nat) {
    forall i :: i in s ==> i < n
  }

  function Size(w: (nat, nat)): int {
    w.1 + 1 - w.0
  }

  /** No set with fewer levels than the window holds the target. */
  ghost predicate SmallestFor(act: seq<int>, poc: nat, t: int)
    requires poc < |act|
  {
    forall s: set<nat> :: InRange(s, |act|) && SumOver(act, s, |act|) >= t ==> |s| >= Size(Expand(act, t, poc, poc))
  }

  ghost predicate AlwaysSmallest(act: seq<int>, poc: nat)
    requires poc < |act|
  {
    forall t :: 1 <= t <= Sum(act, 0, |act|) ==> SmallestFor(act, poc, t)
  }

  // ---- The shape is needed ----

  /** The part of the shape that lies in the window. */
  predicate FallsInside(act: seq<int>, poc: nat, l: nat, u: nat)
    requires l <= poc <= u < |act|
  {
    && (forall i, j :: l <= i <= j <= poc ==> act[i] <= act[j])
    && (forall i, j :: poc <= i <= j <= u ==> act[j] <= act[i])
  }

  /** Every target that the window does not hold passes through it. */
  ghost predicate Passed(act: seq<int>, poc: nat, l: nat, u: nat)
    requires l <= poc <= u < |act|
  {
    forall t :: Sum(act, l, u + 1) < t ==> Expand(act, t, poc, poc) == Expand(act, t, l, u)
  }

  /** The level that joins the window next. */
  function Joining(act: seq<int>, l: nat, u: nat): (x: nat)
    requires l <= u < |act| && !(l == 0 && u + 1 == |act|)
    ensures x < |act| && (x + 1 == l || x == u + 1)
  {
    if TakesLower(act, l, u) then l - 1 else u + 1
  }

  lemma JoinedSum(act: seq<int>, l: nat, u: nat)
    requires l <= u < |act|
    ensures l > 0 ==> Sum(act, l - 1, u + 1) == Sum(act, l, u + 1) + act[l - 1]
    ensures u + 1 < |act| ==> Sum(act, l, u + 2) == Sum(act, l, u + 1) + act[u + 1]
  {
    if l > 0 { SumSplits(act, l - 1, l, u + 1); }
  }

  /** A window that does not hold the target ends up larger. */
  lemma Larger(act: seq<int>, t: int, l: nat, u: nat)
    requires l <= u < |act| && Sum(act, l, u + 1) < t <= Sum(act, 0, |act|)
    ensures Size(Expand(act, t, l, u)) >= u + 2 - l
  {
    ExpandReaches(act, t, l, u);
  }

  /** When the next level does not complete the target either, it grows by two or more. */
  lemma LargerByTwo(act: seq<int>, t: int, l: nat, u: nat)
    requires l <= u < |act| && !(l == 0 && u + 1 == |act|) && Sum(act, 0, |act|) >= t
    requires Sum(act, l, u + 1) < t && Sum(act, l, u + 1) + act[Joining(act, l, u)] < t
    ensures Size(Expand(act, t, l, u)) >= u + 3 - l
  {
    JoinedSum(act, l, u);
    if Tie(act, l, u) {
      ExpandReaches(act, t, l - 1, u + 1);
    } else if TakesLower(act, l, u) {
      Larger(act, t, l - 1, u);
    } else {
      Larger(act, t, l, u + 1);
    }
  }

  lemma {:induction false} WithOneMore(act: seq<int>, s: set<nat>, y: nat, n: nat)
    requires n <= |act| && y !in s && y < |act|
    ensures SumOver(act, s + {y}, n) == SumOver(act, s, n) + if y < n then act[y] else 0
  {
    if n > 0 { WithOneMore(act, s, y, n - 1); }
  }

  /** The window with one level from outside holds what the two sum to. */
  lemma WindowAnd(act: seq<int>, l: nat, u: nat, y: nat)
    requires l <= u < |act| && y < |act| && !(l <= y <= u)
    ensures var s := Window(l, u) + {y};
            InRange(s, |act|) && |s| == u + 2 - l && SumOver(act, s, |act|) == Sum(act, l, u + 1) + act[y]
  {
    WithOneMore(act, Window(l, u), y, |act|);
    WindowSum(act, l, u, |act|);
  }

  lemma {:induction false} SetAtMostAll(act: seq<int>, s: set<nat>, n: nat)
    requires n <= |act| && Activities(act)
    ensures 0 <= SumOver(act, s, n) <= Sum(act, 0, n)
  {
    if n > 0 { SetAtMostAll(act, s, n - 1); }
  }

  /** When a level outside is busier than the one that joins next, the window with that busier level is
      a smaller set for what they sum to. */
  lemma SmallerSet(act: seq<int>, l: nat, u: nat, y: nat, t: int)
    requires l <= u < |act| && Activities(act) && y < |act| && !(l <= y <= u)
    requires act[y] > act[Joining(act, l, u)] && t == Sum(act, l, u + 1) + act[y]
    ensures Sum(act, l, u + 1) < t && 1 <= t <= Sum(act, 0, |act|)
    ensures var s := Window(l, u) + {y};
            InRange(s, |act|) && SumOver(act, s, |act|) >= t && |s| < Size(Expand(act, t, l, u))
  {
    WindowAnd(act, l, u, y);
    SumNonNegative(act, l, u + 1);
    SetAtMostAll(act, Window(l, u) + {y}, |act|);
    LargerByTwo(act, t, l, u);
  }

  lemma NotSmallest(act: seq<int>, poc: nat, l: nat, u: nat, t: int, s: set<nat>)
    requires l <= poc <= u < |act| && Passed(act, poc, l, u) && Sum(act, l, u + 1) < t
    requires InRange(s, |act|) && SumOver(act, s, |act|) >= t && |s| < Size(Expand(act, t, l, u))
    ensures !SmallestFor(act, poc, t)
  {
    assert Expand(act, t, poc, poc) == Expand(act, t, l, u);
  }

  /** Nothing outside a passed window is busier than the level that joins next. */
  lemma NextIsBusiest(act: seq<int>, poc: nat, l: nat, u: nat, y: nat)
    requires l <= poc <= u < |act| && Activities(act) && AlwaysSmallest(act, poc) && Passed(act, poc, l, u)
    requires y < |act| && !(l <= y <= u)
    ensures act[y] <= act[Joining(act, l, u)]
  {
    if act[y] > act[Joining(act, l, u)] {
      var t := Sum(act, l, u + 1) + act[y];
      SmallerSet(act, l, u, y, t);
      NotSmallest(act, poc, l, u, t, Window(l, u) + {y});
    }
  }

  // ---- The walk ----

  /** The next window that every larger target passes: a tie takes both neighbours. */
  function Onward(act: seq<int>, l: nat, u: nat): (w: (nat, nat))
    requires l <= u < |act| && !(l == 0 && u + 1 == |act|)
    ensures w.0 <= l && u <= w.1 < |act| && w.1 - w.0 > u - l
  {
    if Tie(act, l, u) then (l - 1, u + 1) else if TakesLower(act, l, u) then (l - 1, u) else (l, u + 1)
  }

  lemma DominatesMore(act: seq<int>, poc: nat, l: nat, u: nat)
    requires l <= poc <= u < |act| && Activities(act) && AlwaysSmallest(act, poc) && Passed(act, poc, l, u)
    requires Dominates(act, l, u) && !(l == 0 && u + 1 == |act|)
    ensures Dominates(act, Onward(act, l, u).0, Onward(act, l, u).1)
  {
    forall y | 0 <= y < |act| && !(l <= y <= u) ensures act[y] <= act[Joining(act, l, u)] {
      NextIsBusiest(act, poc, l, u, y);
    }
  }

  lemma FallsFurther(act: seq<int>, poc: nat, l: nat, u: nat)
    requires l <= poc <= u < |act| && Dominates(act, l, u) && FallsInside(act, poc, l, u)
    requires !(l == 0 && u + 1 == |act|)
    ensures FallsInside(act, poc, Onward(act, l, u).0, Onward(act, l, u).1)
  {
  }

  lemma PassedMore(act: seq<int>, poc: nat, l: nat, u: nat)
    requires l <= poc <= u < |act| && Activities(act) && Passed(act, poc, l, u) && !(l == 0 && u + 1 == |act|)
    ensures Passed(act, poc, Onward(act, l, u).0, Onward(act, l, u).1)
  {
    JoinedSum(act, l, u);
    if l > 0 { JoinedSum(act, l - 1, u); }
    var (l', u') := Onward(act, l, u);
    forall t | Sum(act, l', u' + 1) < t ensures Expand(act, t, poc, poc) == Expand(act, t, l', u') {
      assert Expand(act, t, poc, poc) == Expand(act, t, l, u);
    }
  }

  lemma {:induction false} Walk(act: seq<int>, poc: nat, l: nat, u: nat)
    requires l <= poc <= u < |act| && Activities(act) && AlwaysSmallest(act, poc)
    requires Dominates(act, l, u) && FallsInside(act, poc, l, u) && Passed(act, poc, l, u)
    ensures FallsAwayFrom(act, poc)
    decreases |act| - (u - l)
  {
    if !(l == 0 && u + 1 == |act|) {
      var (l', u') := Onward(act, l, u);
      DominatesMore(act, poc, l, u);
      FallsFurther(act, poc, l, u);
      PassedMore(act, poc, l, u);
      Walk(act, poc, l', u');
    }
  }

  /** For a busiest level, the greedy window is smallest among all sets of levels for every target if
      and only if activity does not rise on the way outwards. */
  lemma SmallestExactly(act: seq<int>, poc: nat)
    requires poc < |act| && Activities(act) && Busiest(act, poc)
    ensures AlwaysSmallest(act, poc) <==> FallsAwayFrom(act, poc)
  {
    if FallsAwayFrom(act, poc) {
      forall t, s: set<nat> | 1 <= t <= Sum(act, 0, |act|) && InRange(s, |act|) && SumOver(act, s, |act|) >= t
        ensures |s| >= Size(Expand(act, t, poc, poc))
      {
        FallingIsSmallest(act, poc, t, s);
      }
    }
    if AlwaysSmallest(act, poc) {
      Walk(act, poc, poc, poc);
    }
  }

  // ---- In terms of the configured share ----

  /** No set with fewer levels than the value area holds the share. */
  ghost predicate AreaSmallest(buckets: seq<int>, act: seq<int>, bps: nat)
    requires |act| == |buckets| && buckets != []
  {
    var a := AreaOf(buckets, act, bps);
    forall s: set<nat> :: InRange(s, |act|) && SumOver(act, s, |act|) * 10_000 >= Sum(act, 0, |act|) * bps
      ==> |s| >= a.vah + 1 - a.val
  }

  /** While activity sums to at most 10,000 every target is that of some share. */
  lemma ShareOfTarget(total: int, t: int)
    requires 1 <= t <= total <= 10_000
    ensures var bps := t * 10_000 / total; 1 <= bps <= 10_000 && Target(total, bps) == t
  {
    var bps := t * 10_000 / total;
    Quotient(t * 10_000, total, bps);
  }

  lemma Quotient(a: int, d: int, q: int)
    requires 0 < d <= a <= 10_000 * d && q == a / d
    ensures d * q <= a < d * q + d && 1 <= q <= 10_000
  {
    assert a == d * q + a % d;
    if q > 10_000 { ScaleMonotone(d, 10_001, q); }
  }

  lemma AreaIsForTarget(buckets: seq<int>, act: seq<int>, bps: nat)
    requires |act| == |buckets| && buckets != []
    ensures var t, poc := Target(Sum(act, 0, |act|), bps), Winner(buckets, act, |buckets|);
            AreaSmallest(buckets, act, bps) <==> SmallestFor(act, poc, t)
  {
    var total, poc := Sum(act, 0, |act|), Winner(buckets, act, |buckets|);
    forall s: set<nat>
      ensures SumOver(act, s, |act|) * 10_000 >= total * bps <==> SumOver(act, s, |act|) >= Target(total, bps)
    {
      TargetIsShare(total, bps, SumOver(act, s, |act|));
    }
  }

  /** Then the value area is the smallest set for every share if and only if activity falls away. */
  lemma AreaSmallestExactly(buckets: seq<int>, act: seq<int>)
    requires |act| == |buckets| && buckets != [] && Ordering.Ascending(buckets) && Activities(act)
    requires 1 <= Sum(act, 0, |act|) <= 10_000
    ensures (forall bps: nat :: 1 <= bps <= 10_000 ==> AreaSmallest(buckets, act, bps))
       <==> FallsAwayFrom(act, Winner(buckets, act, |buckets|))
  {
    var total, poc := Sum(act, 0, |act|), Winner(buckets, act, |buckets|);
    WinnerBeatsAll(buckets, act, |buckets|);
    forall i | 0 <= i < |act| ensures act[i] <= act[poc] { assert i == poc || Beats(buckets, act, poc, i); }
    SmallestExactly(act, poc);
    if forall bps: nat :: 1 <= bps <= 10_000 ==> AreaSmallest(buckets, act, bps) {
      forall t | 1 <= t <= total ensures SmallestFor(act, poc, t) {
        ShareOfTarget(total, t);
        AreaIsForTarget(buckets, act, t * 10_000 / total);
      }
    }
    if AlwaysSmallest(act, poc) {
      forall bps: nat | 1 <= bps <= 10_000 ensures AreaSmallest(buckets, act, bps) {
        TargetInRange(total, bps);
        AreaIsForTarget(buckets, act, bps);
      }
    }
  }

  lemma TargetInRange(total: int, bps: nat)
    requires 1 <= total && 1 <= bps <= 10_000
    ensures 1 <= Target(total, bps) <= total
  {
    ScaleMonotone(total, 1, bps);
    ScaleMonotone(total, bps, 10_000);
    TargetIsShare(total, bps, total);
    TargetIsShare(total, bps, 0);
  }
}
