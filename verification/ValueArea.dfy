/** Point of control and value area of a session profile: which level is chosen, and why the
    greedy window around it is as small as any set of levels can be. */
module ValueArea {
  import opened Common
  import opened Ordering

  /** Indices into the ascending list of traded buckets. */
  datatype Area = Area(poc: nat, val: nat, vah: nat)

  predicate Activities(act: seq<int>) {
    forall i :: 0 <= i < |act| ==> 0 <= act[i]
  }

  /** The activity of levels `a`, `a + 1`, ..., `b - 1`. */
  function Sum(act: seq<int>, a: nat, b: nat): int
    requires a <= b <= |act|
    decreases b
  {
    if a == b then 0 else Sum(act, a, b - 1) + act[b - 1]
  }

  lemma {:induction false} SumSplits(act: seq<int>, a: nat, b: nat, c: nat)
    requires a <= b <= c <= |act|
    ensures Sum(act, a, c) == Sum(act, a, b) + Sum(act, b, c)
    decreases c
  {
    if b < c { SumSplits(act, a, b, c - 1); }
  }

  lemma {:induction false} SumNonNegative(act: seq<int>, a: nat, b: nat)
    requires a <= b <= |act| && Activities(act)
    ensures 0 <= Sum(act, a, b)
    decreases b
  {
    if a < b { SumNonNegative(act, a, b - 1); }
  }

  // ---- Point of control ----

  function Distance(bucket: int, midpointTwice: int): nat {
    if 2 * bucket >= midpointTwice then 2 * bucket - midpointTwice else midpointTwice - 2 * bucket
  }

  function MidpointTwice(buckets: seq<int>): int
    requires buckets != []
  {
    buckets[0] + buckets[|buckets| - 1]
  }

  /** More activity wins, then less distance from the middle of the range, then the lower bucket. */
  predicate Beats(buckets: seq<int>, act: seq<int>, i: nat, j: nat)
    requires |act| == |buckets| && i < |buckets| && j < |buckets|
  {
    var di, dj := Distance(buckets[i], MidpointTwice(buckets)), Distance(buckets[j], MidpointTwice(buckets));
    act[i] > act[j] || (act[i] == act[j] && (di < dj || (di == dj && buckets[i] < buckets[j])))
  }

  /** The winner of the scan over the first `n` levels. */
  function Winner(buckets: seq<int>, act: seq<int>, n: nat): nat
    requires |act| == |buckets| && 0 < n <= |buckets|
    ensures Winner(buckets, act, n) < n
  {
    if n == 1 then 0
    else
      var w := Winner(buckets, act, n - 1);
      if Beats(buckets, act, n - 1, w) then n - 1 else w
  }

  /** The scan finds the one level that beats every other. */
  lemma {:induction false} WinnerBeatsAll(buckets: seq<int>, act: seq<int>, n: nat)
    requires |act| == |buckets| && 0 < n <= |buckets| && Ascending(buckets)
    ensures forall j :: 0 <= j < n && j != Winner(buckets, act, n) ==> Beats(buckets, act, Winner(buckets, act, n), j)
  {
    if n > 1 {
      WinnerBeatsAll(buckets, act, n - 1);
      var w, x := Winner(buckets, act, n - 1), n - 1;
      if Beats(buckets, act, x, w) {
        forall j | 0 <= j < x ensures Beats(buckets, act, x, j) {
          assert j == w || Beats(buckets, act, w, j);
        }
      } else {
        assert Beats(buckets, act, w, x);
      }
    }
  }

  // ---- The window ----

  function Target(total: int, bps: nat): int {
    (total * bps + 9_999) / 10_000
  }

  /** Rounding up: reaching the target is holding that share of the total. */
  lemma TargetIsShare(total: int, bps: nat, selected: int)
    ensures selected >= Target(total, bps) <==> selected * 10_000 >= total * bps
  {
  }

  predicate Tie(act: seq<int>, l: nat, u: nat)
    requires l <= u < |act|
  {
    l > 0 && u + 1 < |act| && act[l - 1] == act[u + 1]
  }

  predicate TakesLower(act: seq<int>, l: nat, u: nat)
    requires l <= u < |act|
  {
    l > 0 && (u + 1 < |act| ==> act[l - 1] >= act[u + 1])
  }

  /** Takes the busier neighbour, or both when they are equally busy and the lower one does
      not suffice, until the window holds the target or is everything. */
  function Expand(act: seq<int>, target: int, l: nat, u: nat): (nat, nat)
    requires l <= u < |act|
    decreases |act| - (u - l)
  {
    if Sum(act, l, u + 1) >= target || (l == 0 && u + 1 == |act|) then (l, u)
    else if Tie(act, l, u) then
      if Sum(act, l - 1, u + 1) < target then Expand(act, target, l - 1, u + 1) else (l - 1, u)
    else if TakesLower(act, l, u) then Expand(act, target, l - 1, u)
    else Expand(act, target, l, u + 1)
  }

  function AreaOf(buckets: seq<int>, act: seq<int>, bps: nat): Area
    requires |act| == |buckets| && buckets != []
  {
    var poc := Winner(buckets, act, |buckets|);
    var (l, u) := Expand(act, Target(Sum(act, 0, |act|), bps), poc, poc);
    Area(poc, l, u)
  }

  lemma {:induction false} ExpandReaches(act: seq<int>, target: int, l: nat, u: nat)
    requires l <= u < |act| && Sum(act, 0, |act|) >= target
    ensures var (l', u') := Expand(act, target, l, u);
            l' <= l && u <= u' < |act| && Sum(act, l', u' + 1) >= target
    decreases |act| - (u - l)
  {
    if Sum(act, l, u + 1) < target && !(l == 0 && u + 1 == |act|) {
      if Tie(act, l, u) { ExpandReaches(act, target, l - 1, u + 1); }
      else if TakesLower(act, l, u) { ExpandReaches(act, target, l - 1, u); }
      else { ExpandReaches(act, target, l, u + 1); }
    }
  }

  /** The value area surrounds the point of control and holds its share of the total activity. */
  lemma AreaHoldsShare(buckets: seq<int>, act: seq<int>, bps: nat)
    requires |act| == |buckets| && buckets != [] && Ascending(buckets) && Activities(act) && bps <= 10_000
    ensures var a := AreaOf(buckets, act, bps);
            && a.val <= a.poc <= a.vah < |buckets|
            && buckets[a.val] <= buckets[a.poc] <= buckets[a.vah]
            && (forall j :: 0 <= j < |buckets| && j != a.poc ==> Beats(buckets, act, a.poc, j))
            && Sum(act, a.val, a.vah + 1) * 10_000 >= Sum(act, 0, |act|) * bps
  {
    var total := Sum(act, 0, |act|);
    var poc := Winner(buckets, act, |buckets|);
    WinnerBeatsAll(buckets, act, |buckets|);
    SumNonNegative(act, 0, |act|);
    ScaleMonotone(total, bps, 10_000);
    TargetIsShare(total, bps, total);
    ExpandReaches(act, Target(total, bps), poc, poc);
    var a := AreaOf(buckets, act, bps);
    TargetIsShare(total, bps, Sum(act, a.val, a.vah + 1));
  }

  // ---- Smallest among all sets of levels ----

  /** The activity of the levels below `n` that are in `s`. */
  function SumOver(act: seq<int>, s: set<nat>, n: nat): int
    requires n <= |act|
  {
    if n == 0 then 0 else SumOver(act, s, n - 1) + if n - 1 in s then act[n - 1] else 0
  }

  /** The same, counting each level's excess over `t`. */
  function Excess(act: seq<int>, s: set<nat>, n: nat, t: int): int
    requires n <= |act|
  {
    if n == 0 then 0 else Excess(act, s, n - 1, t) + if n - 1 in s then act[n - 1] - t else 0
  }

  function Below(s: set<nat>, n: nat): set<nat> {
    set i | i in s && i < n
  }

  lemma {:induction false} ExcessIs(act: seq<int>, s: set<nat>, n: nat, t: int)
    requires n <= |act|
    ensures Excess(act, s, n, t) == SumOver(act, s, n) - t * |Below(s, n)|
  {
    if n == 0 {
      assert Below(s, 0) == {};
    } else {
      ExcessIs(act, s, n - 1, t);
      if n - 1 in s {
        assert Below(s, n) == Below(s, n - 1) + {n - 1};
        assert t * (|Below(s, n - 1)| + 1) == t * |Below(s, n - 1)| + t;
      } else {
        assert Below(s, n) == Below(s, n - 1);
      }
    }
  }

  /** The levels from `l` to `u`. */
  function Window(l: nat, u: nat): (w: set<nat>)
    requires l <= u
    ensures forall i: nat :: i in w <==> l <= i <= u
    ensures |w| == u + 1 - l
    decreases u
  {
    if l == u then {u} else Window(l, u - 1) + {u}
  }

  lemma {:induction false} WindowSum(act: seq<int>, l: nat, u: nat, n: nat)
    requires l <= u < |act| && n <= |act|
    ensures SumOver(act, Window(l, u), n)
         == if n <= l then 0 else if n <= u then Sum(act, l, n) else Sum(act, l, u + 1)
  {
    if n > 0 { WindowSum(act, l, u, n - 1); }
  }

  /** Every level of the window is at least as busy as every level outside it. */
  predicate Dominates(act: seq<int>, l: nat, u: nat)
    requires l <= u < |act|
  {
    forall i, j :: l <= i <= u && 0 <= j < |act| && !(l <= j <= u) ==> act[j] <= act[i]
  }

  lemma {:induction false} ExcessAtMost(act: seq<int>, s: set<nat>, l: nat, u: nat, t: int, n: nat)
    requires l <= u < |act| && n <= |act|
    requires forall i :: l <= i <= u ==> t <= act[i]
    requires forall j :: 0 <= j < |act| && !(l <= j <= u) ==> act[j] <= t
    ensures Excess(act, s, n, t) <= Excess(act, Window(l, u), n, t)
  {
    if n > 0 { ExcessAtMost(act, s, l, u, t, n - 1); }
  }

  lemma {:induction false} Quietest(act: seq<int>, l: nat, u: nat) returns (m: nat)
    requires l <= u < |act|
    ensures l <= m <= u && forall i :: l <= i <= u ==> act[m] <= act[i]
    decreases u
  {
    m := u;
    if l < u {
      var k := Quietest(act, l, u - 1);
      if act[k] < act[u] { m := k; }
    }
  }

  lemma ScaleMonotone(t: int, a: int, b: int)
    requires 0 <= t && a <= b
    ensures t * a <= t * b
  {
  }

  /** No set of at most as many levels holds more than a dominating window. */
  lemma DominatingIsMost(act: seq<int>, l: nat, u: nat, s: set<nat>)
    requires l <= u < |act| && Activities(act) && Dominates(act, l, u)
    requires (forall i :: i in s ==> i < |act|) && |s| <= u + 1 - l
    ensures SumOver(act, s, |act|) <= Sum(act, l, u + 1)
  {
    var n, w := |act|, Window(l, u);
    var m := Quietest(act, l, u);
    var t := act[m];
    ExcessAtMost(act, s, l, u, t, n);
    ExcessIs(act, s, n, t);
    ExcessIs(act, w, n, t);
    assert Below(s, n) == s && Below(w, n) == w;
    WindowSum(act, l, u, n);
    ScaleMonotone(t, |s|, |w|);
  }

  /** Activity does not rise on the way from the point of control outwards. */
  predicate FallsAwayFrom(act: seq<int>, poc: nat)
    requires poc < |act|
  {
    && (forall i, j :: 0 <= i <= j <= poc ==> act[i] <= act[j])
    && (forall i, j :: poc <= i <= j < |act| ==> act[j] <= act[i])
  }

  lemma DominanceGrows(act: seq<int>, poc: nat, l: nat, u: nat)
    requires l <= poc <= u < |act| && FallsAwayFrom(act, poc) && Dominates(act, l, u)
    requires !(l == 0 && u + 1 == |act|)
    ensures if TakesLower(act, l, u) then Dominates(act, l - 1, u) else u + 1 < |act| && Dominates(act, l, u + 1)
    ensures Tie(act, l, u) ==> Dominates(act, l - 1, u + 1)
  {
  }

  /** Below the final window, the last one that did not suffice: one level smaller, dominating. */
  lemma {:induction false} LastInsufficient(act: seq<int>, target: int, poc: nat, l: nat, u: nat)
    returns (l0: nat, u0: nat)
    requires l <= poc <= u < |act| && FallsAwayFrom(act, poc) && Dominates(act, l, u)
    requires Sum(act, 0, |act|) >= target && Sum(act, l, u + 1) < target
    ensures var (l', u') := Expand(act, target, l, u);
            && l0 <= u0 < |act| && Dominates(act, l0, u0)
            && Sum(act, l0, u0 + 1) < target
            && u' - l' == u0 - l0 + 1
    decreases |act| - (u - l)
  {
    DominanceGrows(act, poc, l, u);
    var l1, u1 := if TakesLower(act, l, u) then l - 1 else l, if TakesLower(act, l, u) then u else u + 1;
    if Sum(act, l1, u1 + 1) >= target {
      l0, u0 := l, u;
    } else if Tie(act, l, u) && Sum(act, l1, u1 + 2) >= target {
      l0, u0 := l1, u1;
    } else {
      l0, u0 := LastInsufficient(act, target, poc, l1, if Tie(act, l, u) then u1 + 1 else u1);
    }
  }

  predicate Busiest(act: seq<int>, poc: nat)
    requires poc < |act|
  {
    forall i :: 0 <= i < |act| ==> act[i] <= act[poc]
  }

  /** For such a shape no set with fewer levels than the window holds the target. */
  lemma FallingIsSmallest(act: seq<int>, poc: nat, target: int, s: set<nat>)
    requires poc < |act| && Activities(act) && Busiest(act, poc) && FallsAwayFrom(act, poc)
    requires 1 <= target <= Sum(act, 0, |act|)
    requires (forall i :: i in s ==> i < |act|) && SumOver(act, s, |act|) >= target
    ensures |s| >= Expand(act, target, poc, poc).1 + 1 - Expand(act, target, poc, poc).0
  {
    if Sum(act, poc, poc + 1) < target {
      assert Dominates(act, poc, poc);
      var l0, u0 := LastInsufficient(act, target, poc, poc, poc);
      if |s| <= u0 + 1 - l0 { DominatingIsMost(act, l0, u0, s); }
    } else {
      NothingHoldsNothing(act, |act|);
    }
  }

  /** When activity falls away from the point of control on both sides, no set with fewer
      levels, contiguous or not, holds the value area's share. */
  lemma AreaIsSmallest(buckets: seq<int>, act: seq<int>, bps: nat, s: set<nat>)
    requires |act| == |buckets| && buckets != [] && Ascending(buckets) && Activities(act)
    requires 1 <= bps <= 10_000 && Sum(act, 0, |act|) > 0
    requires FallsAwayFrom(act, AreaOf(buckets, act, bps).poc)
    requires forall i :: i in s ==> i < |act|
    requires SumOver(act, s, |act|) * 10_000 >= Sum(act, 0, |act|) * bps
    ensures |s| >= AreaOf(buckets, act, bps).vah + 1 - AreaOf(buckets, act, bps).val
  {
    var total, poc := Sum(act, 0, |act|), Winner(buckets, act, |buckets|);
    var target := Target(total, bps);
    ScaleMonotone(total, bps, 10_000);
    ScaleMonotone(total, 1, bps);
    TargetIsShare(total, bps, total);
    TargetIsShare(total, bps, SumOver(act, s, |act|));
    WinnerBeatsAll(buckets, act, |buckets|);
    FallingIsSmallest(act, poc, target, s);
  }

  lemma {:induction false} NothingHoldsNothing(act: seq<int>, n: nat)
    requires n <= |act|
    ensures SumOver(act, {}, n) == 0
  {
    if n > 0 { NothingHoldsNothing(act, n - 1); }
  }

  /** Without that shape the window can be larger than needed: here the two busiest levels hold the
      share, but the window must cross the quiet level between them. */
  lemma GapMakesAreaLarger()
    ensures var buckets, act := [1, 2, 3], [10, 1, 9];
            && AreaOf(buckets, act, 9_000) == Area(0, 0, 2)
            && SumOver(act, {0, 2}, 3) * 10_000 >= Sum(act, 0, 3) * 9_000
  {
    var buckets, act := [1, 2, 3], [10, 1, 9];
    assert Sum(act, 0, 1) == 10 && Sum(act, 0, 2) == 11 && Sum(act, 0, 3) == 20;
    assert Winner(buckets, act, 1) == 0 && Winner(buckets, act, 2) == 0 && Winner(buckets, act, 3) == 0;
    assert Expand(act, 18, 0, 2) == (0, 2);
    assert Expand(act, 18, 0, 1) == (0, 2);
    assert Expand(act, 18, 0, 0) == (0, 2);
    assert SumOver(act, {0, 2}, 1) == 10 && SumOver(act, {0, 2}, 2) == 10;
  }

  // ---- The method ----

  /** Every intermediate value of the computation fits a 128-bit integer. */
  predicate Fits(buckets: seq<int>, act: seq<int>, bps: nat)
    requires |act| == |buckets| && buckets != []
  {
    && I128_MIN <= MidpointTwice(buckets) <= I128_MAX
    && (forall i :: 0 <= i < |buckets| ==> DistanceFits(buckets, i))
    && Sum(act, 0, |act|) <= I128_MAX
    && Sum(act, 0, |act|) * bps + 9_999 <= I128_MAX
  }

  predicate DistanceFits(buckets: seq<int>, i: nat)
    requires i < |buckets|
  {
    && I128_MIN <= 2 * buckets[i] <= I128_MAX
    && I128_MIN <= 2 * buckets[i] - MidpointTwice(buckets) <= I128_MAX
  }

  /** The scan for the point of control. */
  method FindPoc(buckets: seq<int>, act: seq<int>) returns (r: Result<nat, ()>)
    requires |act| == |buckets| && buckets != [] && Ascending(buckets) && Activities(act)
    ensures r == if forall i :: 0 <= i < |buckets| ==> DistanceFits(buckets, i)
                 then Ok(Winner(buckets, act, |buckets|)) else Err(())
  {
    var midpoint := MidpointTwice(buckets);
    var poc, pocActivity, pocDistance := 0, -1, 0;
    for i := 0 to |buckets|
      invariant 0 <= poc <= i && poc < |buckets|
      invariant if i == 0 then pocActivity == -1
                else
                  && poc == Winner(buckets, act, i) && pocActivity == act[poc]
                  && pocDistance == Distance(buckets[poc], midpoint)
      invariant forall k :: 0 <= k < i ==> DistanceFits(buckets, k)
    {
      if !DistanceFits(buckets, i) {
        return Err(());
      }
      var distance := Distance(buckets[i], midpoint);
      if act[i] > pocActivity || (act[i] == pocActivity && distance < pocDistance)
         || (act[i] == pocActivity && distance == pocDistance && buckets[i] < buckets[poc]) {
        poc, pocActivity, pocDistance := i, act[i], distance;
      }
    }
    r := Ok(poc);
  }

  /** The checked sum of all activity. */
  method TotalActivity(act: seq<int>) returns (r: Result<int, ()>)
    requires Activities(act)
    ensures r == if Sum(act, 0, |act|) <= I128_MAX then Ok(Sum(act, 0, |act|)) else Err(())
  {
    var total := 0;
    for i := 0 to |act|
      invariant total == Sum(act, 0, i) <= I128_MAX
    {
      PrefixAtMostWhole(act, i + 1);
      if total + act[i] > I128_MAX {
        return Err(());
      }
      total := total + act[i];
    }
    r := Ok(total);
  }

  /** The expanding loop. */
  method ExpandWindow(act: seq<int>, target: int, poc: nat) returns (lower: nat, upper: nat)
    requires poc < |act|
    ensures (lower, upper) == Expand(act, target, poc, poc)
  {
    lower, upper := poc, poc;
    var selected := act[poc];
    while selected < target && !(lower == 0 && upper + 1 == |act|)
      invariant lower <= upper < |act| && selected == Sum(act, lower, upper + 1)
      invariant Expand(act, target, lower, upper) == Expand(act, target, poc, poc)
      decreases |act| - (upper - lower)
    {
      if lower > 0 { SumSplits(act, lower - 1, lower, upper + 1); }
      if Tie(act, lower, upper) {
        lower := lower - 1;
        selected := selected + act[lower];
        if selected < target {
          upper := upper + 1;
          selected := selected + act[upper];
        }
      } else if TakesLower(act, lower, upper) {
        lower := lower - 1;
        selected := selected + act[lower];
      } else {
        upper := upper + 1;
        selected := selected + act[upper];
      }
    }
  }

  /** The whole computation over the list of traded buckets; it fails exactly on overflow. */
  method Compute(buckets: seq<int>, act: seq<int>, bps: nat) returns (r: Result<Area, ()>)
    requires |act| == |buckets| && buckets != [] && Ascending(buckets) && Activities(act)
    ensures r == if Fits(buckets, act, bps) then Ok(AreaOf(buckets, act, bps)) else Err(())
  {
    if !(I128_MIN <= MidpointTwice(buckets) <= I128_MAX) {
      return Err(());
    }
    var poc := FindPoc(buckets, act);
    var total := TotalActivity(act);
    if poc.Err? || total.Err? || total.value * bps + 9_999 > I128_MAX {
      return Err(());
    }
    var lower, upper := ExpandWindow(act, Target(total.value, bps), poc.value);
    r := Ok(Area(poc.value, lower, upper));
  }

  lemma PrefixAtMostWhole(act: seq<int>, n: nat)
    requires n <= |act| && Activities(act)
    ensures Sum(act, 0, n) <= Sum(act, 0, |act|)
  {
    SumSplits(act, 0, n, |act|);
    SumNonNegative(act, n, |act|);
  }
}
