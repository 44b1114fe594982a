/** Detection of order-flow bubbles in one candle: each candidate goes to the strictest tier that
    accepts it, the best of each tier are kept, and neighbours are merged. */
module BubbleDetect {
  import opened Common
  import opened Decimal
  import opened Grid
  import opened BubbleOrder
  import opened BubbleStyle
  import opened BubbleGroups
  import opened BubbleMerge
  import opened BubbleAggregate
  import opened BubbleThreshold

  datatype ThresholdMode =
    | Disabled
    | ManualAt(quantity: Fixed)
    | Adapting(
        presetBps: nat, minimumFloor: Option<Fixed>, minimumSamples: nat, calibration: nat, capBps: nat, spikeBps: nat)

  datatype Filter = Filter(mode: Mode, threshold: ThresholdMode, sources: Selector, maxBubbles: nat, style: Style) {
    predicate Valid() {
      && 0 < maxBubbles && style.Valid()
      && (threshold.Adapting? ==>
            && threshold.presetBps <= 10_000 && threshold.capBps <= 10_000 && threshold.spikeBps <= 10_000
            && 0 < threshold.minimumSamples && 0 < threshold.calibration)
    }
  }

  datatype Performance = Full | High(liveTiers: nat, deferMerging: bool)

  datatype Phase = Live | Final

  datatype Config = Config(
    f1: Filter, f2: Filter, f3: Filter, merge: MergeConfig, performance: Performance, maxHistory: nat)
  {
    predicate Valid() {
      && f1.Valid() && f2.Valid() && f3.Valid() && merge.style.Valid() && 0 < maxHistory
      && (performance.High? ==> 1 <= performance.liveTiers <= 3)
    }

    function For(t: Tier): Filter {
      match t case F1 => f1 case F2 => f2 case F3 => f3
    }

    /** The tiers to try, strictest first. */
    function Active(phase: Phase): seq<Tier>
      requires Valid()
    {
      if phase == Live && performance.High? then [F3, F2, F1][..performance.liveTiers] else [F3, F2, F1]
    }

    predicate Merges(phase: Phase) {
      merge.enabled != {} && !(phase == Live && performance.High? && performance.deferMerging)
    }
  }

  // ---- The threshold of a tier in a segment ----

  function StrengthOf(v: Volumes, mode: Mode): nat {
    if mode == Volume then v.total else Abs(v.buy - v.sell)
  }

  /** A candidate as a sample: nothing when no source is selected or a delta is zero. */
  function SampleOf(a: Aggregate, mode: Mode): seq<nat> {
    if a.sources == {} || (mode == Delta && StrengthOf(a.volumes, mode) == 0) then [] else [StrengthOf(a.volumes, mode)]
  }

  function KeySamples(rs: seq<Reading>, ks: seq<Key>, f: Filter, segment: int): Result<seq<nat>, ()> {
    if ks == [] then Ok([])
    else
      var k, before := ks[|ks| - 1], KeySamples(rs, ks[..|ks| - 1], f, segment);
      if before.Err? then Err(())
      else if k.segment != segment then before
      else
        var a := AggregateFor(rs, k, f.sources);
        if a.Err? then Err(()) else Ok(before.value + SampleOf(a.value, f.mode))
  }

  function CandleSamples(rs: seq<Reading>, f: Filter, segment: int): Result<seq<nat>, ()> {
    var ks := Candidates(rs);
    if ks.Err? then Err(()) else KeySamples(rs, ks.value, f, segment)
  }

  /** The samples of the latest `count` candles, latest first. */
  function Samples(history: seq<seq<Reading>>, count: nat, f: Filter, segment: int): Result<seq<nat>, ()> {
    if count == 0 || history == [] then Ok([])
    else
      var latest := CandleSamples(history[|history| - 1], f, segment);
      if latest.Err? then Err(())
      else
        var rest := Samples(history[..|history| - 1], count - 1, f, segment);
        if rest.Err? then Err(()) else Ok(latest.value + rest.value)
  }

  function FloorUnits(g: GridSpec, floor: Option<Fixed>): Result<nat, ()> {
    if floor.None? then Ok(0)
    else
      var u := QuantityUnits(g, floor.value);
      if u.Err? then Err(()) else Ok(u.value)
  }

  function BaselineFor(g: GridSpec, history: seq<seq<Reading>>, f: Filter, segment: int): Result<Baseline, ()>
    requires f.Valid()
  {
    match f.threshold
    case Disabled => Ok(Off)
    case ManualAt(q) =>
      var u := QuantityUnits(g, q);
      if u.Err? then Err(()) else Ok(Manual(u.value))
    case Adapting(presetBps, minimumFloor, minimumSamples, calibration, capBps, spikeBps) =>
      var floor := FloorUnits(g, minimumFloor);
      if floor.Err? then Err(())
      else
        var samples := Samples(history, calibration, f, segment);
        if samples.Err? then Err(())
        else Ok(AdaptiveBaseline(Adaptive(presetBps, floor.value, minimumSamples, capBps, spikeBps), samples.value))
  }

  /** Only the latest candles matter: a history cut to its last `kept` gives the samples of the
      latest min(kept, count) candles. */
  lemma {:induction false} OnlyLatestMatter(history: seq<seq<Reading>>, kept: nat, count: nat, f: Filter, segment: int)
    requires kept <= |history|
    ensures Samples(history[|history| - kept..], count, f, segment)
         == Samples(history, BubbleThreshold.Least(count, kept), f, segment)
    decreases kept
  {
    if count > 0 && kept > 0 {
      var n := |history| - 1;
      CutEnds(history, kept);
      OnlyLatestMatter(history[..n], kept - 1, count - 1, f, segment);
      SamplesMore(history[..n], history[n], BubbleThreshold.Least(count, kept) - 1, f, segment);
      SamplesMore(history[..n][n - (kept - 1)..], history[n], count - 1, f, segment);
    }
  }

  lemma CutEnds(history: seq<seq<Reading>>, kept: nat)
    requires 0 < kept <= |history|
    ensures var n := |history| - 1;
            && history == history[..n] + [history[n]]
            && history[|history| - kept..] == history[..n][n - (kept - 1)..] + [history[n]]
  {
  }

  function Prepended(latest: Result<seq<nat>, ()>, rest: Result<seq<nat>, ()>): Result<seq<nat>, ()> {
    if latest.Err? || rest.Err? then Err(()) else Ok(latest.value + rest.value)
  }

  lemma SamplesMore(history: seq<seq<Reading>>, rs: seq<Reading>, count: nat, f: Filter, segment: int)
    ensures Samples(history + [rs], count + 1, f, segment)
         == Prepended(CandleSamples(rs, f, segment), Samples(history, count, f, segment))
  {
    assert (history + [rs])[..|history|] == history;
  }

  // ---- One candidate ----

  /** The bubble of an accepted candidate. */
  function Materialized(k: Key, t: Tier, mode: Mode, a: Aggregate, threshold: nat, size: nat, id: int): Bubble {
    var v := a.volumes;
    Bubble(id, k.segment, DirectionOf(v.buy - v.sell), k.bucket, k.bucket, k.bucket, t, mode, a.sources,
           v.buy, v.sell, v.unknown, v.total, StrengthOf(v, mode), threshold, size, 1)
  }

  predicate Overflows(b: Baseline, strength: nat) {
    b.Blended? && Blend(b, strength) > U128_MAX
  }

  /** One tier's verdict on a candidate: a bubble, or nothing. */
  function Verdict(g: GridSpec, f: Filter, baseline: Result<Baseline, ()>, a: Aggregate, k: Key, t: Tier,
          id: int): Result<Option<Bubble>, ()>
    requires g.Valid() && f.Valid()
  {
    var strength := StrengthOf(a.volumes, f.mode);
    if SampleOf(a, f.mode) == [] then Ok(None)
    else if baseline.Err? || Overflows(baseline.value, strength) then Err(())
    else
      var threshold := Threshold(baseline.value, strength);
      if threshold.None? || strength < threshold.value then Ok(None)
      else
        var size := Size(f.style, f.mode, strength);
        if size.None? || PriceAt(g, k.bucket).Err? then Err(())
        else Ok(Some(Materialized(k, t, f.mode, a, threshold.value, size.value, id)))
  }

  /** What every candidate of one candle is judged by. */
  datatype Context = Context(grid: GridSpec, config: Config, history: seq<seq<Reading>>) {
    predicate Valid() {
      grid.Valid() && config.Valid()
    }
  }

  function Judge(c: Context, rs: seq<Reading>, k: Key, t: Tier, ids: (Key, Tier) -> int): Result<Option<Bubble>, ()>
    requires c.Valid()
  {
    var f := c.config.For(t);
    if f.threshold.Disabled? then Ok(None)
    else
      var a := AggregateFor(rs, k, f.sources);
      if a.Err? then Err(())
      else Verdict(c.grid, f, BaselineFor(c.grid, c.history, f, k.segment), a.value, k, t, ids(k, t))
  }

  /** The first tier that accepts. */
  function Choose(c: Context, rs: seq<Reading>, k: Key, tiers: seq<Tier>,
          ids: (Key, Tier) -> int): Result<Option<Bubble>, ()>
    requires c.Valid()
  {
    if tiers == [] then Ok(None)
    else
      var v := Judge(c, rs, k, tiers[0], ids);
      if v.Err? || v.value.Some? then v else Choose(c, rs, k, tiers[1..], ids)
  }

  /** A tier accepts a candidate when it is on, selects a source there, and the strength, not zero
      for a delta, reaches the threshold. */
  predicate Passes(c: Context, rs: seq<Reading>, k: Key, t: Tier)
    requires c.Valid()
  {
    var f := c.config.For(t);
    var a, b := AggregateFor(rs, k, f.sources), BaselineFor(c.grid, c.history, f, k.segment);
    && !f.threshold.Disabled? && a.Ok? && a.value.sources != {}
    && (f.mode == Delta ==> a.value.volumes.buy != a.value.volumes.sell)
    && b.Ok? && Accepts(b.value, StrengthOf(a.value.volumes, f.mode))
  }

  /** The bubble `b` is what tier `t` makes of the candidate. */
  predicate Stems(c: Context, rs: seq<Reading>, k: Key, t: Tier, b: Bubble)
    requires c.Valid()
  {
    var f := c.config.For(t);
    var a := AggregateFor(rs, k, f.sources);
    && a.Ok? && b.segment == k.segment && b.bucket == k.bucket == b.low == b.high && b.tier == t && b.mode == f.mode
    && b.sources == a.value.sources
    && b.buy == a.value.volumes.buy && b.sell == a.value.volumes.sell
    && b.unknown == a.value.volumes.unknown && b.total == a.value.volumes.total
    && b.direction == DirectionOf(b.buy - b.sell)
    && b.strength == (if b.mode == Volume then b.total else Abs(b.buy - b.sell))
    && b.threshold <= b.strength && b.merged == 1
    && Size(f.style, b.mode, b.strength) == Some(b.size)
  }

  lemma JudgeDecides(c: Context, rs: seq<Reading>, k: Key, t: Tier, ids: (Key, Tier) -> int)
    requires c.Valid() && Judge(c, rs, k, t, ids).Ok?
    ensures Judge(c, rs, k, t, ids).value.Some? <==> Passes(c, rs, k, t)
    ensures Judge(c, rs, k, t, ids).value.Some? ==> Stems(c, rs, k, t, Judge(c, rs, k, t, ids).value.value)
  {
  }

  /** The candidate goes to the first of the tiers that accepts it, and to none when none does. */
  lemma {:induction false} FirstAcceptingTier(c: Context, rs: seq<Reading>, k: Key, tiers: seq<Tier>,
          ids: (Key, Tier) -> int)
    requires c.Valid() && Choose(c, rs, k, tiers, ids).Ok?
    ensures var b := Choose(c, rs, k, tiers, ids).value;
            if b.None? then forall t :: t in tiers ==> !Passes(c, rs, k, t)
            else exists i :: 0 <= i < |tiers| && Passes(c, rs, k, tiers[i]) && Stems(c, rs, k, tiers[i], b.value)
                   && forall j :: 0 <= j < i ==> !Passes(c, rs, k, tiers[j])
  {
    if tiers != [] {
      JudgeDecides(c, rs, k, tiers[0], ids);
      if !Passes(c, rs, k, tiers[0]) {
        var rest := tiers[1..];
        FirstAcceptingTier(c, rs, k, rest, ids);
        var b := Choose(c, rs, k, tiers, ids).value;
        if b.Some? {
          var i :| 0 <= i < |rest| && Passes(c, rs, k, rest[i]) && Stems(c, rs, k, rest[i], b.value)
                   && forall j :: 0 <= j < i ==> !Passes(c, rs, k, rest[j]);
          assert tiers[i + 1] == rest[i];
          assert forall j :: 0 < j <= i ==> tiers[j] == rest[j - 1];
        }
      }
    }
  }

  // ---- All candidates ----

  function Found(c: Context, rs: seq<Reading>, ks: seq<Key>, tiers: seq<Tier>,
          ids: (Key, Tier) -> int): Result<seq<Bubble>, ()>
    requires c.Valid()
  {
    if ks == [] then Ok([])
    else
      var before := Found(c, rs, ks[..|ks| - 1], tiers, ids);
      if before.Err? then Err(())
      else
        var b := Choose(c, rs, ks[|ks| - 1], tiers, ids);
        if b.Err? then Err(())
        else Ok(before.value + if b.value.Some? then [b.value.value] else [])
  }

  predicate IsVolume(f: Field) {
    f == BuyVolume || f == SellVolume || f == UnknownVolume || f == TotalVolume
  }

  predicate Detected(c: Context, rs: seq<Reading>, b: Bubble)
    requires c.Valid()
  {
    Stems(c, rs, Key(b.segment, b.bucket), b.tier, b)
  }

  lemma ChosenIsDetected(c: Context, rs: seq<Reading>, k: Key, tiers: seq<Tier>, ids: (Key, Tier) -> int)
    requires c.Valid() && Choose(c, rs, k, tiers, ids).Ok? && Choose(c, rs, k, tiers, ids).value.Some?
    ensures var b := Choose(c, rs, k, tiers, ids).value.value;
            Detected(c, rs, b) && Key(b.segment, b.bucket) == k && b.tier in tiers && Passes(c, rs, k, b.tier)
  {
    FirstAcceptingTier(c, rs, k, tiers, ids);
  }

  /** A bubble reports no more than was traded at its bucket. */
  lemma BubbleBound(c: Context, rs: seq<Reading>, b: Bubble, f: Field)
    requires c.Valid() && Detected(c, rs, b) && IsVolume(f)
    ensures 0 <= Value(b, f) <= Traded(rs, AtKeys({Key(b.segment, b.bucket)}), f)
  {
    var k, s := Key(b.segment, b.bucket), c.config.For(b.tier).sources;
    AggregateMeaning(rs, k, s, f);
    NarrowerIsLess(rs, Selected(k, s), AtKeys({k}), f);
  }

  function KeySet(ks: seq<Key>): set<Key> {
    set k | k in ks
  }

  lemma SumOfOne(b: Bubble, f: Field)
    ensures SumOf([b], f) == Value(b, f)
  {
    assert [b][..0] == [];
  }

  /** Each candidate is counted at most once, so the bubbles report no more than was traded. */
  lemma {:induction false} FoundBound(c: Context, rs: seq<Reading>, ks: seq<Key>, tiers: seq<Tier>,
          ids: (Key, Tier) -> int, f: Field)
    requires c.Valid() && Found(c, rs, ks, tiers, ids).Ok? && Rising(ks) && IsVolume(f)
    ensures SumOf(Found(c, rs, ks, tiers, ids).value, f) <= Traded(rs, AtKeys(KeySet(ks)), f)
  {
    if ks != [] {
      var init, k := ks[..|ks| - 1], ks[|ks| - 1];
      FoundBound(c, rs, init, tiers, ids, f);
      assert KeySet(ks) == KeySet(init) + {k} by { assert ks == init + [k]; }
      KeysAdd(rs, KeySet(init), k, f);
      var b, before := Choose(c, rs, k, tiers, ids), Found(c, rs, init, tiers, ids).value;
      if b.value.Some? {
        ChosenIsDetected(c, rs, k, tiers, ids);
        BubbleBound(c, rs, b.value.value, f);
        SumOfConcat(before, [b.value.value], f);
        SumOfOne(b.value.value, f);
      } else {
        assert before + [] == before;
      }
    }
  }

  /** The bubbles found are one for each accepted candidate, in the order of the candidates. */
  lemma {:induction false} FoundExactly(c: Context, rs: seq<Reading>, ks: seq<Key>, tiers: seq<Tier>,
          ids: (Key, Tier) -> int)
    requires c.Valid() && Found(c, rs, ks, tiers, ids).Ok? && Rising(ks)
    ensures var bs := Found(c, rs, ks, tiers, ids).value;
            && (forall b :: b in bs ==> Detected(c, rs, b) && Key(b.segment, b.bucket) in ks && b.tier in tiers)
            && (forall i, j :: 0 <= i < j < |bs| ==>
                  Lower(Key(bs[i].segment, bs[i].bucket), Key(bs[j].segment, bs[j].bucket)))
            && (forall k, t :: k in ks && t in tiers && Passes(c, rs, k, t) ==>
                  exists b :: b in bs && Key(b.segment, b.bucket) == k)
  {
    if ks != [] {
      var init, k := ks[..|ks| - 1], ks[|ks| - 1];
      assert ks == init + [k];
      FoundExactly(c, rs, init, tiers, ids);
      var b, before := Choose(c, rs, k, tiers, ids), Found(c, rs, init, tiers, ids).value;
      FirstAcceptingTier(c, rs, k, tiers, ids);
      if b.value.Some? {
        ChosenIsDetected(c, rs, k, tiers, ids);
        var bs := before + [b.value.value];
        assert b.value.value in bs;
        forall x | x in before ensures Lower(Key(x.segment, x.bucket), k) {
          assert Key(x.segment, x.bucket) in init;
        }
      }
    }
  }
}
