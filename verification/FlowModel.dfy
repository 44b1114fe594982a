/** The candle-flow accumulator: per-source, per-level tallies of trades, and what they conserve. */
module FlowModel {
  import opened Common
  import opened Decimal
  import opened Grid
  import opened Ordering

  datatype Side = Buy | Sell | Unknown

  /** Volumes by aggressor side, their total, and the number of trades. */
  datatype Tally = Tally(buy: int, sell: int, unknown: int, total: int, count: int)

  const Zero := Tally(0, 0, 0, 0, 0)

  function Plus(a: Tally, b: Tally): Tally {
    Tally(a.buy + b.buy, a.sell + b.sell, a.unknown + b.unknown, a.total + b.total, a.count + b.count)
  }

  /** What one trade contributes. */
  function OneTrade(side: Side, units: int): Tally {
    Tally(if side == Buy then units else 0, if side == Sell then units else 0, if side == Unknown then units else 0,
          units, 1)
  }

  predicate Balanced(t: Tally) {
    0 <= t.buy && 0 <= t.sell && 0 <= t.unknown && t.total == t.buy + t.sell + t.unknown && 0 <= t.count
  }

  // ---- Sums over maps ----

  function Sum(m: map<int, Tally>): Tally
    decreases |m|
  {
    if m.Keys == {} then Zero
    else
      var k := Least(m.Keys);
      assert |m - {k}| < |m| by { assert (m - {k}).Keys == m.Keys - {k}; }
      Plus(m[k], Sum(m - {k}))
  }

  /** Removing another key than the least leaves the least. */
  lemma LeastStays(m: map<int, Tally>, k: int)
    requires k in m && k != Least(m.Keys)
    ensures var least := Least(m.Keys);
      && (m - {k}).Keys != {} && Least((m - {k}).Keys) == least
      && m - {least} - {k} == m - {k} - {least}
      && |m - {least}| < |m|
  {
    var least := Least(m.Keys);
    assert (m - {least}).Keys == m.Keys - {least};
    assert (m - {k}).Keys == m.Keys - {k};
    assert least in (m - {k}).Keys;
  }

  lemma {:induction false} TakeOut(m: map<int, Tally>, k: int)
    requires k in m
    ensures Sum(m) == Plus(m[k], Sum(m - {k}))
    decreases |m|
  {
    var least := Least(m.Keys);
    if k != least {
      LeastStays(m, k);
      TakeOut(m - {least}, k);
    }
  }

  function At(m: map<int, Tally>, k: int): Tally {
    if k in m then m[k] else Zero
  }

  /** Adding to one entry adds to the sum. */
  lemma AddToOne(m: map<int, Tally>, k: int, t: Tally)
    ensures Sum(m[k := Plus(At(m, k), t)]) == Plus(Sum(m), t)
  {
    var m' := m[k := Plus(At(m, k), t)];
    TakeOut(m', k);
    assert m' - {k} == m - {k};
    if k in m {
      TakeOut(m, k);
    } else {
      assert m - {k} == m;
    }
  }

  lemma {:induction false} SumBalanced(m: map<int, Tally>)
    requires forall k :: k in m ==> Balanced(m[k])
    ensures Balanced(Sum(m))
    decreases |m|
  {
    if m.Keys != {} {
      var k := Least(m.Keys);
      assert (m - {k}).Keys == m.Keys - {k};
      SumBalanced(m - {k});
    }
  }

  /** No entry exceeds the sum. */
  lemma EntryAtMostSum(m: map<int, Tally>, k: int)
    requires forall j :: j in m ==> Balanced(m[j])
    ensures At(m, k).buy <= Sum(m).buy && At(m, k).sell <= Sum(m).sell && At(m, k).unknown <= Sum(m).unknown
    ensures At(m, k).total <= Sum(m).total && At(m, k).count <= Sum(m).count
  {
    SumBalanced(m);
    if k in m {
      TakeOut(m, k);
      SumBalanced(m - {k});
    }
  }

  // ---- The accumulator ----

  datatype Level = Level(tally: Tally, first: int, last: int)

  datatype Source = Source(high: Option<int>, low: Option<int>, tally: Tally, levels: map<int, Level>)

  const NoSource := Source(None, None, Zero, map[])

  datatype Config = Config(
    grid: GridSpec, time: Timeframe, instrument: int, maxSources: nat, maxLevels: nat, maxTrades: nat)
  {
    predicate Valid() {
      grid.Valid() && time.Valid() && 0 < maxSources && 0 < maxLevels && 0 < maxTrades <= U64_MAX
    }
  }

  datatype Builder = Builder(
    start: Option<i64>, last: Option<i64>, high: Option<int>, low: Option<int>,
    total: int, count: int, sources: map<int, Source>)

  function Inactive(last: Option<i64>): Builder {
    Builder(None, last, None, None, 0, 0, map[])
  }

  datatype Candle = Candle(
    start: int, end: int, high: Option<int>, low: Option<int>, total: int, count: int, sources: map<int, Source>)

  /** A trade that has been read: its candle, source, bucket and units are known. */
  datatype Trade = Trade(at: i64, candle: i64, source: int, bucket: int, price: int, units: int, side: Side)

  function SourceAt(p: Builder, s: int): Source { if s in p.sources then p.sources[s] else NoSource }
  function LevelTally(s: Source, b: int): Tally { if b in s.levels then s.levels[b].tally else Zero }

  predicate SideFits(t: Tally, side: Side, units: int) {
    match side
    case Buy => t.buy + units <= I128_MAX
    case Sell => t.sell + units <= I128_MAX
    case Unknown => t.unknown + units <= I128_MAX
  }

  predicate TallyFits(t: Tally, side: Side, units: int) {
    t.count + 1 <= U64_MAX && t.total + units <= I128_MAX && SideFits(t, side, units)
  }

  function PreflightAdd(p: Builder, c: Config, t: Trade): Option<AnalyticsError> {
    if p.count >= c.maxTrades then Some(CapacityExceeded)
    else if t.source !in p.sources && |p.sources| >= c.maxSources then Some(CapacityExceeded)
    else if t.source in p.sources && t.bucket !in p.sources[t.source].levels
            && |p.sources[t.source].levels| >= c.maxLevels
    then Some(CapacityExceeded)
    else if p.count + 1 > U64_MAX || p.total + t.units > I128_MAX then Some(ArithmeticOverflow)
    else if t.source in p.sources && !TallyFits(p.sources[t.source].tally, t.side, t.units) then
      Some(ArithmeticOverflow)
    else if t.source in p.sources && t.bucket in p.sources[t.source].levels
            && !TallyFits(p.sources[t.source].levels[t.bucket].tally, t.side, t.units) then Some(ArithmeticOverflow)
    else None
  }

  function SourceWith(s: Source, t: Trade): Source {
    var first := if t.bucket in s.levels then s.levels[t.bucket].first else t.at;
    Source(Some(Larger(s.high, t.price)), Some(Smaller(s.low, t.price)),
           Plus(s.tally, OneTrade(t.side, t.units)),
           s.levels[t.bucket := Level(Plus(LevelTally(s, t.bucket), OneTrade(t.side, t.units)), first, t.at)])
  }

  function Added(p: Builder, t: Trade): Builder {
    p.(total := p.total + t.units, count := p.count + 1,
       high := Some(Larger(p.high, t.price)), low := Some(Smaller(p.low, t.price)),
       sources := p.sources[t.source := SourceWith(SourceAt(p, t.source), t)])
  }

  predicate HasUnpricedLevel(p: Builder) {
    exists s :: s in p.sources && exists b :: b in p.sources[s].levels && b <= 0
  }

  function Snapshot(p: Builder, c: Config): Result<Candle, AnalyticsError> {
    if p.start.None? then Err(CorruptSnapshot)
    else if p.start.value + c.time.candle > I64_MAX then Err(ArithmeticOverflow)
    else if HasUnpricedLevel(p) then Err(NonPositive)
    else Ok(Candle(p.start.value, p.start.value + c.time.candle, p.high, p.low, p.total, p.count, p.sources))
  }

  datatype Input = Input(instrument: int, source: int, at: i64, price: Fixed, quantity: Fixed, side: Side)

  function ReadTrade(c: Config, i: Input): Result<Trade, AnalyticsError>
    requires c.Valid()
  {
    var bucket := PriceBucket(c.grid, i.price);
    if bucket.Err? then Err(bucket.error)
    else
      var exact := PriceAtTick(c.grid, PriceTick(c.grid, i.price).value);
      if exact.Err? then Err(exact.error)
      else
        var units := QuantityUnits(c.grid, i.quantity);
        if units.Err? then Err(units.error)
        else
          var candle := CheckedStart(i.at, c.time.anchor, c.time.candle);
          if candle.Err? then Err(candle.error)
          else Ok(Trade(i.at, candle.value, i.source, bucket.value, exact.value, units.value, i.side))
  }

  type Step = (Builder, Result<Option<Candle>, AnalyticsError>)

  function Late(p: Builder, at: i64): bool {
    p.last.Some? && at < p.last.value
  }

  function IngestTrade(p: Builder, c: Config, t: Trade): Step {
    if p.start.None? then
      var error := PreflightAdd(p, c, t);
      if error.Some? then (p, Err(error.value))
      else (Added(p.(start := Some(t.candle), last := Some(t.at)), t), Ok(None))
    else if t.candle > p.start.value then
      var finished := Snapshot(p, c);
      if finished.Err? then (p, Err(finished.error))
      else
        var error := PreflightAdd(Inactive(None), c, t);
        if error.Some? then (p, Err(error.value))
        else (Added(Inactive(Some(t.at)).(start := Some(t.candle)), t), Ok(Some(finished.value)))
    else if t.candle < p.start.value then (p, Err(LateTrade))
    else
      var error := PreflightAdd(p, c, t);
      if error.Some? then (p, Err(error.value)) else (Added(p, t).(last := Some(t.at)), Ok(None))
  }

  function Ingest(p: Builder, c: Config, i: Input): Step
    requires c.Valid()
  {
    if i.instrument != c.instrument then (p, Err(InstrumentMismatch))
    else if Late(p, i.at) then (p, Err(LateTrade))
    else
      var t := ReadTrade(c, i);
      if t.Err? then (p, Err(t.error)) else IngestTrade(p, c, t.value)
  }

  function AdvanceTo(p: Builder, c: Config, at: i64): Step
    requires c.Valid()
  {
    if Late(p, at) then (p, Err(LateTrade))
    else if p.start.None? then (p.(last := Some(at)), Ok(None))
    else
      var target := CheckedStart(at, c.time.anchor, c.time.candle);
      if target.Err? then (p, Err(target.error))
      else if target.value > p.start.value then
        var finished := Snapshot(p, c);
        if finished.Err? then (p, Err(finished.error)) else (Inactive(Some(at)), Ok(Some(finished.value)))
      else (p.(last := Some(at)), Ok(None))
  }

  function Finish(p: Builder, c: Config): Step {
    if p.start.None? then (p, Ok(None))
    else
      var finished := Snapshot(p, c);
      if finished.Err? then (p, Err(finished.error)) else (Inactive(p.last), Ok(Some(finished.value)))
  }

  // ---- Conservation ----

  function LevelTallies(levels: map<int, Level>): map<int, Tally> {
    map b | b in levels :: levels[b].tally
  }

  function SourceTallies(sources: map<int, Source>): map<int, Tally> {
    map s | s in sources :: sources[s].tally
  }

  /** Every level splits into its sides. */
  predicate LevelsBalanced(levels: map<int, Level>) {
    forall b :: b in levels ==> Balanced(levels[b].tally)
  }

  /** A source's figures are the sums over its levels, each of which splits into its sides. */
  predicate SourceConserves(s: Source) {
    s.tally == Sum(LevelTallies(s.levels)) && LevelsBalanced(s.levels)
  }

  predicate SourcesConserve(sources: map<int, Source>) {
    forall s :: s in sources ==> SourceConserves(sources[s])
  }

  /** The candle's figures are the sums over its sources. */
  predicate CandleSums(total: int, count: int, sources: map<int, Source>) {
    total == Sum(SourceTallies(sources)).total && count == Sum(SourceTallies(sources)).count
  }

  predicate Conserves(total: int, count: int, sources: map<int, Source>) {
    SourcesConserve(sources) && CandleSums(total, count, sources)
  }

  lemma LevelTalliesUpdate(levels: map<int, Level>, b: int, l: Level)
    ensures LevelTallies(levels[b := l]) == LevelTallies(levels)[b := l.tally]
  {
  }

  lemma SourceTalliesUpdate(sources: map<int, Source>, k: int, s: Source)
    ensures SourceTallies(sources[k := s]) == SourceTallies(sources)[k := s.tally]
  {
  }

  lemma LevelsSum(levels: map<int, Level>, b: int, l: Level, one: Tally)
    requires l.tally == Plus(if b in levels then levels[b].tally else Zero, one)
    ensures Sum(LevelTallies(levels[b := l])) == Plus(Sum(LevelTallies(levels)), one)
  {
    var m := LevelTallies(levels);
    LevelTalliesUpdate(levels, b, l);
    assert At(m, b) == if b in levels then levels[b].tally else Zero;
    AddToOne(m, b, one);
  }

  lemma SourcesSum(sources: map<int, Source>, k: int, s: Source, one: Tally)
    requires s.tally == Plus(if k in sources then sources[k].tally else Zero, one)
    ensures Sum(SourceTallies(sources[k := s])) == Plus(Sum(SourceTallies(sources)), one)
  {
    var m := SourceTallies(sources);
    SourceTalliesUpdate(sources, k, s);
    assert At(m, k) == if k in sources then sources[k].tally else Zero;
    AddToOne(m, k, one);
  }

  lemma PlusBalanced(a: Tally, side: Side, units: int)
    requires Balanced(a) && 0 <= units
    ensures Balanced(Plus(a, OneTrade(side, units)))
  {
  }

  lemma SourceWithConserves(s: Source, t: Trade)
    requires SourceConserves(s) && 0 <= t.units
    ensures SourceConserves(SourceWith(s, t))
  {
    LevelsSum(s.levels, t.bucket, SourceWith(s, t).levels[t.bucket], OneTrade(t.side, t.units));
    PlusBalanced(LevelTally(s, t.bucket), t.side, t.units);
  }

  lemma NoSourceConserves()
    ensures SourceConserves(NoSource)
  {
    assert LevelTallies(map[]) == map[];
  }

  lemma SourcesConserveUpdate(sources: map<int, Source>, k: int, s: Source)
    requires SourcesConserve(sources) && SourceConserves(s)
    ensures SourcesConserve(sources[k := s])
  {
  }

  /** Adding a trade keeps all three levels of the books balanced. */
  lemma AddedConserves(p: Builder, t: Trade)
    requires Conserves(p.total, p.count, p.sources) && 0 <= t.units
    ensures var p' := Added(p, t); Conserves(p'.total, p'.count, p'.sources)
  {
    NoSourceConserves();
    var s := SourceAt(p, t.source);
    assert SourceConserves(s);
    SourceWithConserves(s, t);
    SourcesConserveUpdate(p.sources, t.source, SourceWith(s, t));
    SourcesSum(p.sources, t.source, SourceWith(s, t), OneTrade(t.side, t.units));
  }

  lemma InactiveConserves(last: Option<i64>)
    ensures Conserves(Inactive(last).total, Inactive(last).count, Inactive(last).sources)
  {
    assert SourceTallies(map[]) == map[];
  }

  lemma SourceBalanced(s: Source)
    requires SourceConserves(s)
    ensures Balanced(s.tally)
  {
    SumBalanced(LevelTallies(s.levels));
  }

  /** No side, source or level of balanced books exceeds the candle. */
  lemma PartsAtMostCandle(p: Builder, k: int, b: int)
    requires Conserves(p.total, p.count, p.sources) && k in p.sources
    ensures var s := p.sources[k];
            && s.tally.total <= p.total && s.tally.count <= p.count && Balanced(s.tally)
            && LevelTally(s, b).total <= s.tally.total && LevelTally(s, b).count <= s.tally.count
            && Balanced(LevelTally(s, b))
  {
    var m, s := SourceTallies(p.sources), p.sources[k];
    forall j | j in m ensures Balanced(m[j]) { SourceBalanced(p.sources[j]); }
    EntryAtMostSum(m, k);
    SourceBalanced(s);
    LevelAtMostSource(s, b);
  }

  lemma LevelAtMostSource(s: Source, b: int)
    requires SourceConserves(s)
    ensures LevelTally(s, b).total <= s.tally.total && LevelTally(s, b).count <= s.tally.count
    ensures Balanced(LevelTally(s, b))
  {
    EntryAtMostSum(LevelTallies(s.levels), b);
    assert At(LevelTallies(s.levels), b) == LevelTally(s, b);
  }

  predicate Within(part: Tally, total: int, count: int) {
    Balanced(part) && part.total <= total && part.count <= count
  }

  lemma ChecksFollow(p: Builder, c: Config, t: Trade)
    requires c.Valid() && 0 <= t.units && p.total + t.units <= I128_MAX
    requires t.source in p.sources ==>
               && Within(p.sources[t.source].tally, p.total, p.count)
               && Within(LevelTally(p.sources[t.source], t.bucket), p.total, p.count)
    ensures PreflightAdd(p, c, t) != Some(ArithmeticOverflow)
  {
  }

  /** In balanced books the checks on sources and levels never fail on their own: the candle's
      total and trade limit decide. */
  lemma CandleCheckDecides(p: Builder, c: Config, t: Trade)
    requires c.Valid() && Conserves(p.total, p.count, p.sources) && 0 <= t.units
    ensures PreflightAdd(p, c, t) == Some(ArithmeticOverflow) ==> p.total + t.units > I128_MAX
  {
    if p.total + t.units <= I128_MAX {
      if t.source in p.sources { PartsAtMostCandle(p, t.source, t.bucket); }
      ChecksFollow(p, c, t);
    }
  }

  // ---- Incremental equals batch ----

  /** The tally of the trades of one source at one bucket. */
  function TallyOf(ts: seq<Trade>, source: int, bucket: int): Tally {
    if ts == [] then Zero
    else
      var before, t := TallyOf(ts[..|ts| - 1], source, bucket), ts[|ts| - 1];
      if t.source == source && t.bucket == bucket then Plus(before, OneTrade(t.side, t.units)) else before
  }

  function TallyAt(sources: map<int, Source>, source: int, bucket: int): Tally {
    if source in sources then LevelTally(sources[source], bucket) else Zero
  }

  /** Every level holds exactly its trades. */
  ghost predicate HoldsTrades(sources: map<int, Source>, ts: seq<Trade>) {
    forall s, b :: TallyAt(sources, s, b) == TallyOf(ts, s, b)
  }

  lemma AddedHolds(p: Builder, ts: seq<Trade>, t: Trade)
    requires HoldsTrades(p.sources, ts)
    ensures HoldsTrades(Added(p, t).sources, ts + [t])
  {
    assert (ts + [t])[..|ts|] == ts;
    forall s, b ensures TallyAt(Added(p, t).sources, s, b) == TallyOf(ts + [t], s, b) {
      assert TallyAt(p.sources, s, b) == TallyOf(ts, s, b);
    }
  }

  function UnitsOf(ts: seq<Trade>): int {
    if ts == [] then 0 else UnitsOf(ts[..|ts| - 1]) + ts[|ts| - 1].units
  }
}
