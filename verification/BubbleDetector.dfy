/** The detector: its bounded history of finalized candles, and the detection loops with their
    cached thresholds. */
module BubbleDetector {
  import opened Common
  import opened Grid
  import opened BubbleOrder
  import opened BubbleMerge
  import opened BubbleAggregate
  import opened BubbleThreshold
  import opened BubbleDetect
  import opened BubbleOutput

  datatype Candle = Candle(start: int, isFinal: bool, flows: seq<Flow>)

  datatype Refusal = NotFinal | Late

  // ---- The history ----

  datatype Memory = Memory(history: seq<Candle>, last: Option<int>)

  function Refused(m: Memory, c: Candle): Option<Refusal> {
    if !c.isFinal then Some(NotFinal)
    else if m.last.Some? && c.start <= m.last.value then Some(Late)
    else None
  }

  function Latest(candles: seq<Candle>, max: nat): seq<Candle> {
    if |candles| <= max then candles else candles[|candles| - max..]
  }

  function Recorded(m: Memory, c: Candle, max: nat): Memory {
    if Refused(m, c).Some? then m else Memory(Latest(m.history + [c], max), Some(c.start))
  }

  /** The memory after a run of offered candles. */
  function Remembered(offered: seq<Candle>, max: nat): Memory {
    if offered == [] then Memory([], None)
    else Recorded(Remembered(offered[..|offered| - 1], max), offered[|offered| - 1], max)
  }

  /** The candles of a run that are final and newer than every one accepted before. */
  function Accepted(offered: seq<Candle>): seq<Candle> {
    if offered == [] then [] else AcceptedWith(Accepted(offered[..|offered| - 1]), offered[|offered| - 1])
  }

  function AcceptedWith(before: seq<Candle>, c: Candle): seq<Candle> {
    if c.isFinal && (before != [] ==> before[|before| - 1].start < c.start) then before + [c] else before
  }

  predicate Chronological(candles: seq<Candle>) {
    && (forall i, j :: 0 <= i < j < |candles| ==> candles[i].start < candles[j].start)
    && (forall i :: 0 <= i < |candles| ==> candles[i].isFinal)
  }

  lemma {:induction false} AcceptedAreChronological(offered: seq<Candle>)
    ensures Chronological(Accepted(offered))
  {
    if offered != [] {
      AcceptedAreChronological(offered[..|offered| - 1]);
    }
  }

  lemma LatestAreChronological(candles: seq<Candle>, max: nat)
    requires Chronological(candles)
    ensures Chronological(Latest(candles, max)) && |Latest(candles, max)| <= max
  {
  }

  function MemoryOf(accepted: seq<Candle>, max: nat): Memory {
    Memory(Latest(accepted, max), if accepted == [] then None else Some(accepted[|accepted| - 1].start))
  }

  lemma RecordedFollows(a: seq<Candle>, c: Candle, max: nat)
    requires 0 < max
    ensures Recorded(MemoryOf(a, max), c, max) == MemoryOf(AcceptedWith(a, c), max)
  {
    LatestOfMore(a, c, max);
  }

  lemma {:induction false} MemoryFollows(offered: seq<Candle>, max: nat)
    requires 0 < max
    ensures Remembered(offered, max) == MemoryOf(Accepted(offered), max)
  {
    if offered != [] {
      MemoryFollows(offered[..|offered| - 1], max);
      RecordedFollows(Accepted(offered[..|offered| - 1]), offered[|offered| - 1], max);
    }
  }

  /** After any run the history is the latest accepted candles, in order, as many as it may hold. */
  lemma HistoryIsLatest(offered: seq<Candle>, max: nat)
    requires 0 < max
    ensures var m, a := Remembered(offered, max), Accepted(offered);
            && m.history == Latest(a, max)
            && m.last == (if a == [] then None else Some(a[|a| - 1].start))
            && Chronological(m.history) && |m.history| <= max
  {
    MemoryFollows(offered, max);
    AcceptedAreChronological(offered);
    LatestAreChronological(Accepted(offered), max);
  }

  lemma LatestOfMore(candles: seq<Candle>, c: Candle, max: nat)
    requires 0 < max
    ensures Latest(Latest(candles, max) + [c], max) == Latest(candles + [c], max)
  {
  }

  function ReadFlows(g: GridSpec, flows: seq<Flow>): (rs: seq<Reading>)
    requires g.Valid()
    ensures |rs| == |flows| && forall i :: 0 <= i < |rs| ==> rs[i] == Read(g, flows[i])
  {
    if flows == [] then [] else ReadFlows(g, flows[..|flows| - 1]) + [Read(g, flows[|flows| - 1])]
  }

  function ReadHistory(g: GridSpec, candles: seq<Candle>): (hs: seq<seq<Reading>>)
    requires g.Valid()
    ensures |hs| == |candles| && forall i :: 0 <= i < |hs| ==> hs[i] == ReadFlows(g, candles[i].flows)
  {
    if candles == [] then []
    else ReadHistory(g, candles[..|candles| - 1]) + [ReadFlows(g, candles[|candles| - 1].flows)]
  }

  /** Bounding the history is harmless: after any run, a threshold is computed from the same samples
      as with every candle ever accepted, as long as it calibrates on no more than the bound. */
  lemma BoundIsHarmless(g: GridSpec, offered: seq<Candle>, max: nat, count: nat, f: Filter, segment: int)
    requires g.Valid() && 0 < max
    ensures Samples(ReadHistory(g, Remembered(offered, max).history), count, f, segment)
         == Samples(ReadHistory(g, Accepted(offered)), BubbleThreshold.Least(count, max), f, segment)
  {
    MemoryFollows(offered, max);
    LatestSamples(g, Accepted(offered), max, count, f, segment);
  }

  lemma ReadLatest(g: GridSpec, candles: seq<Candle>, kept: nat)
    requires g.Valid() && kept <= |candles|
    ensures ReadHistory(g, candles[|candles| - kept..]) == ReadHistory(g, candles)[|candles| - kept..]
  {
  }

  lemma LatestSamples(g: GridSpec, candles: seq<Candle>, max: nat, count: nat, f: Filter, segment: int)
    requires g.Valid()
    ensures Samples(ReadHistory(g, Latest(candles, max)), count, f, segment)
         == Samples(ReadHistory(g, candles), BubbleThreshold.Least(count, max), f, segment)
  {
    if |candles| > max {
      ReadLatest(g, candles, max);
    }
    CutSamples(ReadHistory(g, candles), ReadHistory(g, Latest(candles, max)), max, count, f, segment);
  }

  lemma CutSamples(all: seq<seq<Reading>>, cut: seq<seq<Reading>>, max: nat, count: nat, f: Filter, segment: int)
    requires cut == if |all| <= max then all else all[|all| - max..]
    ensures Samples(cut, count, f, segment) == Samples(all, BubbleThreshold.Least(count, max), f, segment)
  {
    if |all| <= max {
      AllOfThem(all, count, BubbleThreshold.Least(count, max), f, segment);
    } else {
      OnlyLatestMatter(all, max, count, f, segment);
    }
  }

  lemma {:induction false} AllOfThem(history: seq<seq<Reading>>, n: nat, m: nat, f: Filter, segment: int)
    requires n == m || (|history| <= n && |history| <= m)
    ensures Samples(history, n, f, segment) == Samples(history, m, f, segment)
  {
    if n != m && history != [] {
      AllOfThem(history[..|history| - 1], n - 1, m - 1, f, segment);
    }
  }

  // ---- The object ----

  type Cache = map<(Tier, int), Baseline>

  /** Every cached threshold is the one of its tier and segment. */
  predicate CacheHolds(c: Context, cache: Cache)
    requires c.Valid()
  {
    forall key :: key in cache ==> BaselineFor(c.grid, c.history, c.config.For(key.0), key.1) == Ok(cache[key])
  }

  method LookUp(c: Context, t: Tier, segment: int, cache: Cache) returns (b: Result<Baseline, ()>, after: Cache)
    requires c.Valid() && CacheHolds(c, cache)
    ensures b == BaselineFor(c.grid, c.history, c.config.For(t), segment) && CacheHolds(c, after)
  {
    if (t, segment) in cache {
      return Ok(cache[(t, segment)]), cache;
    }
    b := BaselineFor(c.grid, c.history, c.config.For(t), segment);
    after := if b.Ok? then cache[(t, segment) := b.value] else cache;
  }

  /** One turn of the inner loop. */
  method JudgeCached(c: Context, rs: seq<Reading>, k: Key, t: Tier, cache: Cache, ids: (Key, Tier) -> int)
    returns (v: Result<Option<Bubble>, ()>, after: Cache)
    requires c.Valid() && CacheHolds(c, cache)
    ensures v == Judge(c, rs, k, t, ids) && CacheHolds(c, after)
  {
    var f := c.config.For(t);
    after := cache;
    if f.threshold.Disabled? {
      return Ok(None), after;
    }
    var a := Gather(rs, k, f.sources);
    if a.Err? {
      return Err(()), after;
    }
    if SampleOf(a.value, f.mode) == [] {
      return Ok(None), after;
    }
    var b;
    b, after := LookUp(c, t, k.segment, cache);
    v := Verdict(c.grid, f, b, a.value, k, t, ids(k, t));
  }

  /** The inner loop: tiers in order, leaving at the first that accepts. */
  method ChooseTier(c: Context, rs: seq<Reading>, k: Key, tiers: seq<Tier>, cache: Cache, ids: (Key, Tier) -> int)
    returns (v: Result<Option<Bubble>, ()>, after: Cache)
    requires c.Valid() && CacheHolds(c, cache)
    ensures v == Choose(c, rs, k, tiers, ids) && CacheHolds(c, after)
  {
    v, after := Ok(None), cache;
    var i := 0;
    while i < |tiers|
      invariant i <= |tiers| && v == Ok(None) && CacheHolds(c, after)
      invariant Choose(c, rs, k, tiers, ids) == Choose(c, rs, k, tiers[i..], ids)
    {
      v, after := JudgeCached(c, rs, k, tiers[i], after, ids);
      assert tiers[i..][1..] == tiers[i + 1..];
      if v.Err? || v.value.Some? {
        return;
      }
      i := i + 1;
    }
  }

  lemma {:induction false} FoundFails(c: Context, rs: seq<Reading>, ks: seq<Key>, n: nat, tiers: seq<Tier>,
          ids: (Key, Tier) -> int)
    requires c.Valid() && n <= |ks| && Found(c, rs, ks[..n], tiers, ids).Err?
    ensures Found(c, rs, ks, tiers, ids) == Err(())
  {
    if n < |ks| {
      assert ks[..|ks| - 1][..n] == ks[..n];
      FoundFails(c, rs, ks[..|ks| - 1], n, tiers, ids);
    } else {
      assert ks[..n] == ks;
    }
  }

  /** The bubbles found so far, tier by tier. */
  datatype Rows = Rows(f1: seq<Bubble>, f2: seq<Bubble>, f3: seq<Bubble>)

  function RowsOf(found: seq<Bubble>): Rows {
    Rows(OfTier(found, F1), OfTier(found, F2), OfTier(found, F3))
  }

  function Push(rows: Rows, b: Bubble): Rows {
    match b.tier
    case F1 => rows.(f1 := rows.f1 + [b])
    case F2 => rows.(f2 := rows.f2 + [b])
    case F3 => rows.(f3 := rows.f3 + [b])
  }

  lemma PushFound(found: seq<Bubble>, b: Bubble)
    ensures RowsOf(found + [b]) == Push(RowsOf(found), b)
  {
    assert (found + [b])[..|found|] == found;
    assert forall t :: OfTier(found, t) + [] == OfTier(found, t);
  }

  /** The outer loop over the candidates. */
  method Scan(c: Context, rs: seq<Reading>, ks: seq<Key>, tiers: seq<Tier>, ids: (Key, Tier) -> int)
    returns (r: Result<Rows, ()>)
    requires c.Valid()
    ensures r == var found := Found(c, rs, ks, tiers, ids); if found.Err? then Err(()) else Ok(RowsOf(found.value))
  {
    var rows, cache := Rows([], [], []), map[];
    ghost var found := [];
    for n := 0 to |ks|
      invariant CacheHolds(c, cache) && Found(c, rs, ks[..n], tiers, ids) == Ok(found) && rows == RowsOf(found)
    {
      assert ks[..n + 1][..n] == ks[..n];
      var b;
      b, cache := ChooseTier(c, rs, ks[n], tiers, cache, ids);
      if b.Err? {
        FoundFails(c, rs, ks, n + 1, tiers, ids);
        return Err(());
      }
      if b.value.Some? {
        PushFound(found, b.value.value);
        rows := Push(rows, b.value.value);
        found := found + [b.value.value];
      } else {
        assert found + [] == found;
      }
    }
    assert ks[..|ks|] == ks;
    r := Ok(rows);
  }

  class Detector {
    const grid: GridSpec
    const config: Config
    var history: seq<Candle>
    var last: Option<int>

    function View(): Memory
      reads this
    {
      Memory(history, last)
    }

    predicate Valid() {
      grid.Valid() && config.Valid()
    }

    function Here(): Context
      requires Valid()
      reads this
    {
      Context(grid, config, ReadHistory(grid, history))
    }

    constructor (grid: GridSpec, config: Config)
      requires grid.Valid() && config.Valid()
      ensures Valid() && this.grid == grid && this.config == config
      ensures View() == Remembered([], config.maxHistory)
    {
      this.grid, this.config := grid, config;
      history, last := [], None;
    }

    /** A refused candle changes nothing. */
    method RecordFinalized(candle: Candle) returns (r: Result<(), Refusal>)
      requires Valid()
      modifies this
      ensures View() == Recorded(old(View()), candle, config.maxHistory)
      ensures r == if Refused(old(View()), candle).Some? then Err(Refused(old(View()), candle).value) else Ok(())
      ensures r.Err? ==> View() == old(View())
    {
      if !candle.isFinal {
        return Err(NotFinal);
      }
      if last.Some? && candle.start <= last.value {
        return Err(Late);
      }
      history := history + [candle];
      ghost var all := history;
      while |history| > config.maxHistory
        invariant |history| <= |all| && history == all[|all| - |history|..]
        invariant |history| >= config.maxHistory || history == all
        invariant last == old(last)
      {
        history := history[1..];
      }
      last := Some(candle.start);
      r := Ok(());
    }

    /** Detection reads the history and changes nothing. */
    method Detect(candle: Candle, phase: Phase, ids: (Key, Tier) -> int, hash: seq<Bubble> -> int)
      returns (r: Result<seq<Bubble>, ()>)
      requires Valid()
      ensures r == BubbleOutput.Detect(Here(), ReadFlows(grid, candle.flows), phase, ids, hash)
    {
      var c, rs := Here(), ReadFlows(grid, candle.flows);
      var candidates := Candidates(rs);
      if candidates.Err? {
        return Err(());
      }
      var rows := Scan(c, rs, candidates.value, config.Active(phase), ids);
      if rows.Err? {
        return Err(());
      }
      r := Emit(config, phase, rows.value, hash);
    }
  }

  /** The best of each tier, strictest tier first. */
  function Cut(config: Config, rows: Rows): seq<Bubble> {
    FirstOf(Sort(rows.f3, Strength), config.f3.maxBubbles) + FirstOf(Sort(rows.f2, Strength), config.f2.maxBubbles)
    + FirstOf(Sort(rows.f1, Strength), config.f1.maxBubbles)
  }

  /** Cuts each tier, merges unless that is deferred, and sorts. */
  method Emit(config: Config, phase: Phase, rows: Rows, hash: seq<Bubble> -> int) returns (r: Result<seq<Bubble>, ()>)
    requires config.merge.style.Valid()
    ensures r == Emitted(config, phase, Cut(config, rows), hash)
  {
    var output := Cut(config, rows);
    if config.Merges(phase) {
      var merged := Merge(output, config.merge, hash);
      if merged.Err? {
        return Err(());
      }
      output := merged.value;
    }
    r := Ok(Sort(output, Output));
  }
}
