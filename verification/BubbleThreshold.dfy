/** The adaptive threshold of bubble detection: percentiles of a capped history, and which
    strengths the spike-adapted threshold accepts. */
module BubbleThreshold {
  import opened Common
  import Sorting

  // ---- Percentiles ----

  predicate Ascends(s: seq<nat>) {
    forall i, j :: 0 <= i <= j < |s| ==> s[i] <= s[j]
  }

  /** The position of the nearest rank, rounded up. */
  function RankIndex(n: nat, bps: nat): (i: nat)
    requires n > 0
    ensures i < n
  {
    var rank := (bps * n + 9_999) / 10_000;
    var i := if rank == 0 then 0 else rank - 1;
    if i < n then i else n - 1
  }

  function Percentile(values: seq<nat>, bps: nat): nat
    requires values != []
  {
    values[RankIndex(|values|, bps)]
  }

  lemma RankIsMonotone(n: nat, bps: nat, bps': nat)
    requires n > 0 && bps <= bps'
    ensures RankIndex(n, bps) <= RankIndex(n, bps')
  {
    Scaled(bps, bps', n);
  }

  lemma Scaled(a: int, b: int, k: int)
    requires a <= b && 0 <= k
    ensures a * k <= b * k
  {
  }

  /** It is the nearest rank: the samples up to it are at least the share, those before it are not. */
  lemma RankIsNearest(n: nat, bps: nat)
    requires n > 0 && bps <= 10_000
    ensures (RankIndex(n, bps) + 1) * 10_000 >= bps * n
    ensures bps > 0 ==> RankIndex(n, bps) * 10_000 < bps * n
  {
    Scaled(bps, 10_000, n);
    if bps > 0 { Scaled(1, bps, n); }
  }

  function Least(a: nat, b: nat): nat { if a <= b then a else b }
  function Most(a: nat, b: nat): nat { if a >= b then a else b }

  function Capped(values: seq<nat>, cap: nat): seq<nat> {
    seq(|values|, i requires 0 <= i < |values| => Least(values[i], cap))
  }

  /** Capping outliers at one percentile and reading another is reading the raw history at the
      smaller of the two. */
  lemma CappedPercentile(values: seq<nat>, capBps: nat, bps: nat)
    requires values != [] && Ascends(values)
    ensures Ascends(Capped(values, Percentile(values, capBps)))
    ensures Percentile(Capped(values, Percentile(values, capBps)), bps) == Percentile(values, Least(bps, capBps))
  {
    var n := |values|;
    if bps <= capBps { RankIsMonotone(n, bps, capBps); } else { RankIsMonotone(n, capBps, bps); }
  }

  // ---- Sorting the samples ----

  function AtMost(): (nat, nat) -> bool {
    (a, b) => a <= b
  }

  function SortSamples(s: seq<nat>): seq<nat> {
    Sorting.Sort(s, AtMost())
  }

  lemma SortSamplesSorts(s: seq<nat>)
    ensures Ascends(SortSamples(s)) && multiset(SortSamples(s)) == multiset(s) && |SortSamples(s)| == |s|
  {
    Sorting.SortSorts(s, AtMost());
    var sorted := SortSamples(s);
    forall i, j | 0 <= i <= j < |sorted| ensures sorted[i] <= sorted[j] { assert AtMost()(sorted[i], sorted[j]); }
  }

  lemma SortedStays(s: seq<nat>)
    requires Ascends(s)
    ensures SortSamples(s) == s
  {
    forall i, j | 0 <= i <= j < |s| ensures AtMost()(s[i], s[j]) {
    }
    Sorting.SortedStays(s, AtMost());
  }

  // ---- The baseline ----

  datatype Adaptive = Adaptive(presetBps: nat, floor: nat, minimumSamples: nat, capBps: nat, spikeBps: nat) {
    predicate Valid() {
      presetBps <= 10_000 && capBps <= 10_000 && spikeBps <= 10_000 && 0 < minimumSamples
    }
  }

  datatype Baseline =
    | Off
    | Manual(threshold: nat)
    | FloorOnly(onlyFloor: Option<nat>)
    | Blended(floor: nat, cap: nat, historical: nat, historicalBps: nat, spikeBps: nat)

  /** The figures that the sorted samples give: the cap, and the percentile of the capped samples. */
  function Figures(sorted: seq<nat>, capBps: nat, presetBps: nat): (nat, nat)
    requires sorted != []
  {
    var cap := Percentile(sorted, capBps);
    SortSamplesSorts(Capped(sorted, cap));
    (cap, Percentile(SortSamples(Capped(sorted, cap)), presetBps))
  }

  /** What the history's samples make of the configuration. */
  function AdaptiveBaseline(a: Adaptive, samples: seq<nat>): Baseline
    requires a.Valid()
  {
    if |samples| < a.minimumSamples then FloorOnly(if a.floor > 0 then Some(a.floor) else None)
    else
      SortSamplesSorts(samples);
      var (cap, historical) := Figures(SortSamples(samples), a.capBps, a.presetBps);
      Blended(a.floor, cap, historical, 10_000 - a.spikeBps, a.spikeBps)
  }

  lemma FiguresMeaning(sorted: seq<nat>, capBps: nat, presetBps: nat)
    requires sorted != [] && Ascends(sorted)
    ensures var (cap, historical) := Figures(sorted, capBps, presetBps);
            && cap == Percentile(sorted, capBps)
            && historical == Percentile(sorted, Least(presetBps, capBps))
            && historical <= cap
  {
    CappedPercentile(sorted, capBps, presetBps);
    SortedStays(Capped(sorted, Percentile(sorted, capBps)));
    RankIsMonotone(|sorted|, Least(presetBps, capBps), capBps);
  }

  /** The historical figure is one percentile of the raw samples, and never above the cap. */
  lemma HistoricalIsPercentile(a: Adaptive, samples: seq<nat>)
    requires a.Valid() && |samples| >= a.minimumSamples
    ensures SortSamples(samples) != []
    ensures var b := AdaptiveBaseline(a, samples);
            && b.Blended?
            && b.historical == Percentile(SortSamples(samples), Least(a.presetBps, a.capBps))
            && b.historical <= b.cap
            && b.historicalBps + b.spikeBps == 10_000
  {
    SortSamplesSorts(samples);
    FiguresMeaning(SortSamples(samples), a.capBps, a.presetBps);
  }

  // ---- Which strengths are accepted ----

  /** The weighted sum of two figures, in ten-thousandths. */
  function Weighted(left: nat, leftBps: nat, right: nat, rightBps: nat): nat {
    left * leftBps + right * rightBps
  }

  function BlendThreshold(weighted: nat, floor: nat): Option<nat> {
    if weighted > U128_MAX then None else Some(Most(weighted / 10_000, floor))
  }

  /** The threshold that a strength is held against; nothing when the tier is off or the sum
      overflows. */
  function Threshold(b: Baseline, strength: nat): Option<nat> {
    match b
    case Off => None
    case Manual(t) => Some(t)
    case FloorOnly(t) => t
    case Blended(floor, cap, historical, historicalBps, spikeBps) =>
      BlendThreshold(Weighted(historical, historicalBps, Least(strength, cap), spikeBps), floor)
  }

  predicate Accepts(b: Baseline, strength: nat) {
    Threshold(b, strength).Some? && strength >= Threshold(b, strength).value
  }

  function Blend(b: Baseline, strength: nat): nat
    requires b.Blended?
  {
    Weighted(b.historical, b.historicalBps, Least(strength, b.cap), b.spikeBps)
  }

  /** The weights sum to one and the blend fits 128 bits; otherwise detection reports an overflow. */
  predicate Computes(b: Baseline, strength: nat) {
    b.Blended? ==> b.historicalBps + b.spikeBps == 10_000 && Blend(b, strength) <= U128_MAX
  }

  /** It always does when the two figures leave room for the scale. */
  lemma BlendFits(b: Baseline, strength: nat)
    requires b.Blended? && b.historicalBps + b.spikeBps == 10_000
    requires b.historical * 10_000 <= U128_MAX && b.cap * 10_000 <= U128_MAX
    ensures Computes(b, strength)
  {
    var h, s, w := b.historical, Least(strength, b.cap), b.spikeBps;
    var m := Most(h, b.cap);
    Scaled(h, m, 10_000 - w);
    Scaled(s, m, w);
    Rebalance(m, m, 10_000 - w, w);
  }

  /** Rounded down, a sum stays at or below `s` exactly when it is below the next step. */
  lemma RoundedAtMost(weighted: nat, floor: nat, s: nat)
    requires weighted <= U128_MAX
    ensures s >= BlendThreshold(weighted, floor).value <==> s >= floor && weighted < (s + 1) * 10_000
  {
  }

  /** Exactly which strengths pass: at least the floor, with a blend below the next step. */
  lemma AcceptedExactly(b: Baseline, strength: nat)
    requires b.Blended? && Computes(b, strength)
    ensures Accepts(b, strength) <==> strength >= b.floor && Blend(b, strength) < (strength + 1) * 10_000
  {
    RoundedAtMost(Blend(b, strength), b.floor, strength);
  }

  /** Up to the cap, those short of the historical figure by less than one rounding step of its
      weight. */
  lemma AcceptedBelowCap(b: Baseline, strength: nat)
    requires b.Blended? && Computes(b, strength) && strength <= b.cap
    ensures Accepts(b, strength) <==> strength >= b.floor && (b.historical - strength) * b.historicalBps < 10_000
  {
    AcceptedExactly(b, strength);
    Rebalance(b.historical, strength, b.historicalBps, b.spikeBps);
  }

  lemma Rebalance(h: int, s: int, p: int, q: int)
    requires p + q == 10_000
    ensures h * p + s * q == (h - s) * p + s * 10_000
  {
    Distribute(h, s, p);
    assert q == 10_000 - p;
    assert s * q == s * 10_000 - s * p;
  }

  lemma Distribute(a: int, b: int, k: int)
    ensures (a - b) * k == a * k - b * k
  {
  }

  lemma GrowthIsBounded(a: int, b: int, d: int, w: int)
    requires a <= b && b - a <= d && 0 <= w <= 10_000
    ensures b * w <= a * w + d * 10_000
  {
    Distribute(b, a, w);
    Scaled(b - a, d, w);
    Scaled(w, 10_000, d);
  }

  /** Acceptance is upward closed: although a stronger spike raises its own threshold, it never
      raises it past itself. */
  lemma AcceptanceIsUpwardClosed(b: Baseline, weaker: nat, stronger: nat)
    requires Computes(b, stronger) && weaker <= stronger
    requires Accepts(b, weaker)
    ensures Accepts(b, stronger)
  {
    if b.Blended? {
      Scaled(Least(weaker, b.cap), Least(stronger, b.cap), b.spikeBps);
      AcceptedExactly(b, weaker);
      AcceptedExactly(b, stronger);
      GrowthIsBounded(Least(weaker, b.cap), Least(stronger, b.cap), stronger - weaker, b.spikeBps);
    }
  }

  /** Whatever the weights, a strength at or above both the historical figure and the floor passes. */
  lemma StrongEnoughPasses(b: Baseline, strength: nat)
    requires b.Blended? && Computes(b, strength)
    requires strength >= b.historical && strength >= b.floor
    ensures Accepts(b, strength)
  {
    AcceptedExactly(b, strength);
    var s := Least(strength, b.cap);
    Scaled(b.historical, strength, b.historicalBps);
    Scaled(s, strength, b.spikeBps);
    Rebalance(strength, strength, b.historicalBps, b.spikeBps);
  }

  /** Without spike adaptation the threshold is the larger of historical figure and floor. */
  lemma NoAdaptation(b: Baseline, strength: nat)
    requires b.Blended? && Computes(b, strength) && b.spikeBps == 0
    ensures Accepts(b, strength) <==> strength >= b.historical && strength >= b.floor
  {
    AcceptedExactly(b, strength);
  }

  /** With full adaptation every strength up to the cap passes that reaches the floor. */
  lemma FullAdaptation(b: Baseline, strength: nat)
    requires b.Blended? && Computes(b, strength) && b.spikeBps == 10_000
    ensures Accepts(b, strength) <==> strength >= b.floor
  {
    AcceptedExactly(b, strength);
  }
}
