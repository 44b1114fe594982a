/** The incremental session profile: what ingesting a trade and advancing event time do to the
    accumulator, and why its statistics are those of the session's trades. */
module ProfileModel {
  import opened Common
  import opened Decimal
  import opened Grid
  import opened Ordering
  import opened ValueArea
  import opened ProfileBatch

  const I32_MIN: int := -0x8000_0000
  const I32_MAX: int := 0x7FFF_FFFF

  datatype Basis = Volume | Tpo

  datatype Config = Config(grid: GridSpec, time: Timeframe, basis: Basis, bps: nat, maxLevels: nat, maxTpoLevels: nat) {
    predicate Valid() {
      grid.Valid() && time.Valid() && 1 <= bps <= 10_000 && 0 < maxTpoLevels <= maxLevels
    }
  }

  datatype Builder = Builder(
    session: Option<i64>, tpoStart: Option<i64>, last: Option<i64>,
    high: Option<int>, low: Option<int>,
    volumes: map<int, int>, counts: map<int, int>, total: int,
    open: set<int>, openHigh: Option<int>, openLow: Option<int>,
    previousHigh: Option<int>, previousLow: Option<int>, rotation: int)

  function Inactive(last: Option<i64>): Builder {
    Builder(None, None, last, None, None, map[], map[], 0, {}, None, None, None, None, 0)
  }

  datatype Profile = Profile(
    start: int, end: int, high: Option<int>, low: Option<int>, total: int,
    volumes: map<int, int>, counts: map<int, int>, tpoCount: int, rotation: int,
    area: Option<(int, int, int)>)

  // ---- The operations, on values ----

  function PreflightAdd(p: Builder, c: Config, bucket: int, units: int, newTpo: bool): Option<AnalyticsError> {
    if bucket !in p.volumes && |p.volumes| >= c.maxLevels then Some(CapacityExceeded)
    else if !(!newTpo && bucket in p.open) && (if newTpo then 0 else |p.open|) >= c.maxTpoLevels then
      Some(CapacityExceeded)
    else if p.total + units > I128_MAX || Get(p.volumes, bucket) + units > I128_MAX then Some(ArithmeticOverflow)
    else None
  }

  function Added(p: Builder, bucket: int, price: int, units: int): Builder {
    p.(total := p.total + units,
       volumes := p.volumes[bucket := Get(p.volumes, bucket) + units],
       high := Some(Larger(p.high, price)), low := Some(Smaller(p.low, price)),
       open := p.open + {bucket},
       openHigh := Some(Larger(p.openHigh, bucket)), openLow := Some(Smaller(p.openLow, bucket)))
  }

  function RotationDelta(p: Builder): int {
    if p.previousHigh.Some? && p.previousLow.Some? && p.openHigh.Some? && p.openLow.Some?
    then Score(p.openHigh.value, p.previousHigh.value) + Score(p.openLow.value, p.previousLow.value)
    else 0
  }

  predicate CloseFits(p: Builder) {
    && (forall b :: b in p.open ==> Get(p.counts, b) + 1 <= U64_MAX)
    && I32_MIN <= p.rotation + RotationDelta(p) <= I32_MAX
  }

  function CountsPlus(counts: map<int, int>, open: set<int>): map<int, int> {
    map b | b in counts.Keys + open :: Get(counts, b) + if b in open then 1 else 0
  }

  /** Ends the current TPO period: every level that traded in it counts once more. */
  function Closed(p: Builder): Builder {
    if p.open == {} then p.(openHigh := None, openLow := None)
    else p.(counts := CountsPlus(p.counts, p.open), rotation := p.rotation + RotationDelta(p),
            previousHigh := p.openHigh, previousLow := p.openLow,
            open := {}, openHigh := None, openLow := None)
  }

  function ActivityAt(volumes: map<int, int>, counts: map<int, int>, basis: Basis, bucket: int): int {
    if basis == Volume then Get(volumes, bucket) else Get(counts, bucket)
  }

  function ActivityList(volumes: map<int, int>, counts: map<int, int>, basis: Basis): seq<int> {
    var keys := Sorted(volumes.Keys);
    seq(|keys|, i requires 0 <= i < |keys| => ActivityAt(volumes, counts, basis, keys[i]))
  }

  /** Point of control, value area low and value area high, as buckets. */
  function AreaFor(volumes: map<int, int>, counts: map<int, int>, basis: Basis, bps: nat)
    : Result<Option<(int, int, int)>, AnalyticsError> {
    var keys, act := Sorted(volumes.Keys), ActivityList(volumes, counts, basis);
    if keys == [] then Ok(None)
    else if !Fits(keys, act, bps) then Err(ArithmeticOverflow)
    else
      var a := AreaOf(keys, act, bps);
      AreaInside(keys, act, bps);
      Ok(Some((keys[a.poc], keys[a.val], keys[a.vah])))
  }

  lemma AreaInside(buckets: seq<int>, act: seq<int>, bps: nat)
    requires |act| == |buckets| && buckets != []
    ensures var a := AreaOf(buckets, act, bps); a.poc < |buckets| && a.val < |buckets| && a.vah < |buckets|
  {
    var poc := Winner(buckets, act, |buckets|);
    ExpandInside(act, Target(Sum(act, 0, |act|), bps), poc, poc);
  }

  lemma {:induction false} ExpandInside(act: seq<int>, target: int, l: nat, u: nat)
    requires l <= u < |act|
    ensures Expand(act, target, l, u).0 < |act| && Expand(act, target, l, u).1 < |act|
    decreases |act| - (u - l)
  {
    if Sum(act, l, u + 1) < target && !(l == 0 && u + 1 == |act|) {
      if Tie(act, l, u) { ExpandInside(act, target, l - 1, u + 1); }
      else if TakesLower(act, l, u) { ExpandInside(act, target, l - 1, u); }
      else { ExpandInside(act, target, l, u + 1); }
    }
  }

  function SumCounts(counts: map<int, int>, keys: seq<int>): int {
    if keys == [] then 0 else SumCounts(counts, keys[..|keys| - 1]) + Get(counts, keys[|keys| - 1])
  }

  /** The finished record. It is refused when its end or a sum overflows, or when a level's
      bucket has no positive price. */
  function Snapshot(p: Builder, c: Config): Result<Profile, AnalyticsError> {
    SnapshotWith(p, c.time.session, AreaFor(p.volumes, p.counts, c.basis, c.bps))
  }

  function SnapshotWith(p: Builder, length: int, area: Result<Option<(int, int, int)>, AnalyticsError>)
    : (r: Result<Profile, AnalyticsError>)
    ensures r.Ok? ==> p.session == Some(r.value.start) && r.value.end == r.value.start + length
    ensures r.Ok? ==> area == Ok(r.value.area) && r.value.volumes == p.volumes && r.value.counts == p.counts
  {
    if p.session.None? then Err(CorruptSnapshot)
    else if p.session.value + length > I64_MAX then Err(ArithmeticOverflow)
    else if area.Err? then Err(area.error)
    else if exists b :: b in p.volumes && b <= 0 then Err(NonPositive)
    else
      var tpoCount := SumCounts(p.counts, Sorted(p.counts.Keys));
      if tpoCount > U64_MAX then Err(ArithmeticOverflow)
      else Ok(Profile(p.session.value, p.session.value + length, p.high, p.low, p.total,
                      p.volumes, p.counts, tpoCount, p.rotation, area.value))
  }

  function Late(p: Builder, at: i64): bool {
    p.last.Some? && at < p.last.value
  }

  /** The trade that `ingest` reads from its arguments, or why it refuses them. */
  function ReadTrade(c: Config, at: i64, price: Fixed, quantity: Fixed): Result<Trade, AnalyticsError>
    requires c.Valid()
  {
    var bucket := PriceBucket(c.grid, price);
    if bucket.Err? then Err(bucket.error)
    else
      var exact := PriceAtTick(c.grid, PriceTick(c.grid, price).value);
      if exact.Err? then Err(exact.error)
      else
        var units := QuantityUnits(c.grid, quantity);
        if units.Err? then Err(units.error)
        else
          var session := CheckedStart(at, c.time.anchor, c.time.session);
          if session.Err? then Err(session.error)
          else
            var tpo := CheckedStart(at, c.time.anchor, c.time.tpo);
            if tpo.Err? then Err(tpo.error)
            else Ok(Trade(at, bucket.value, exact.value, units.value, tpo.value, session.value))
  }

  /** A new session that holds one trade. */
  function StartedWith(t: Trade): Builder
  {
    Added(Inactive(None).(session := Some(t.session), tpoStart := Some(t.tpo), last := Some(t.at)),
          t.bucket, t.price, t.units)
  }

  type Step = (Builder, Result<Option<Profile>, AnalyticsError>)

  /** A trade of a later session, once the record of the current one is made. */
  function RolledOver(p: Builder, c: Config, t: Trade, finished: Result<Profile, AnalyticsError>): (s: Step)
    ensures s.1.Ok? ==> finished.Ok? && s == (StartedWith(t), Ok(Some(finished.value)))
    ensures s.1.Err? ==> s.0 == p
  {
    if finished.Err? then (p, Err(finished.error))
    else
      var error := PreflightAdd(Inactive(None), c, t.bucket, t.units, true);
      if error.Some? then (p, Err(error.value)) else (StartedWith(t), Ok(Some(finished.value)))
  }

  function IngestTrade(p: Builder, c: Config, t: Trade): Step
  {
    if p.session.None? then
      var error := PreflightAdd(p, c, t.bucket, t.units, true);
      if error.Some? then (p, Err(error.value))
      else
        var p' := p.(session := Some(t.session), tpoStart := Some(t.tpo), last := Some(t.at));
        (Added(p', t.bucket, t.price, t.units), Ok(None))
    else if t.session > p.session.value then
      if !CloseFits(p) then (p, Err(ArithmeticOverflow)) else RolledOver(p, c, t, Snapshot(Closed(p), c))
    else if t.session < p.session.value then (p, Err(LateTrade))
    else if p.tpoStart.None? then (p, Err(CorruptSnapshot))
    else if t.tpo < p.tpoStart.value then (p, Err(LateTrade))
    else
      var error := PreflightAdd(p, c, t.bucket, t.units, t.tpo != p.tpoStart.value);
      if error.Some? then (p, Err(error.value))
      else if t.tpo > p.tpoStart.value && !CloseFits(p) then (p, Err(ArithmeticOverflow))
      else
        var ready := if t.tpo > p.tpoStart.value then Closed(p).(tpoStart := Some(t.tpo)) else p;
        (Added(ready, t.bucket, t.price, t.units).(last := Some(t.at)), Ok(None))
  }

  function Ingest(p: Builder, c: Config, at: i64, price: Fixed, quantity: Fixed): Step
    requires c.Valid()
  {
    if Late(p, at) then (p, Err(LateTrade))
    else
      var t := ReadTrade(c, at, price, quantity);
      if t.Err? then (p, Err(t.error)) else IngestTrade(p, c, t.value)
  }

  function AdvanceTo(p: Builder, c: Config, at: i64): Step
    requires c.Valid()
  {
    if Late(p, at) then (p, Err(LateTrade))
    else if p.session.None? then (p.(last := Some(at)), Ok(None))
    else if p.session.value + c.time.session > I64_MAX then (p, Err(ArithmeticOverflow))
    else if at >= p.session.value + c.time.session then
      if !CloseFits(p) then (p, Err(ArithmeticOverflow))
      else
        var finished := Snapshot(Closed(p), c);
        if finished.Err? then (Closed(p), Err(finished.error)) else (Inactive(Some(at)), Ok(Some(finished.value)))
    else
      var tpo := CheckedStart(at, c.time.anchor, c.time.tpo);
      if tpo.Err? then (p, Err(tpo.error))
      else if p.tpoStart.None? then (p, Err(CorruptSnapshot))
      else if tpo.value > p.tpoStart.value then
        if !CloseFits(p) then (p, Err(ArithmeticOverflow))
        else (Closed(p).(tpoStart := Some(tpo.value), last := Some(at)), Ok(None))
      else (p.(last := Some(at)), Ok(None))
  }

  /** Ends the session at once, whatever the time; the clock stays. */
  function Finish(p: Builder, c: Config): Step {
    if p.session.None? then (p, Ok(None))
    else if !CloseFits(p) then (p, Err(ArithmeticOverflow))
    else
      var finished := Snapshot(Closed(p), c);
      if finished.Err? then (Closed(p), Err(finished.error)) else (Inactive(p.last), Ok(Some(finished.value)))
  }

  /** The record that finishing would make, on a copy and with any basis. */
  function LiveSnapshot(p: Builder, c: Config, basis: Basis): Result<Option<Profile>, AnalyticsError> {
    if p.session.None? then Ok(None)
    else if !CloseFits(p) then Err(ArithmeticOverflow)
    else
      var record := Snapshot(Closed(p), c.(basis := basis));
      if record.Err? then Err(record.error) else Ok(Some(record.value))
  }

  // ---- Incremental equals batch ----

  predicate Running(rows: seq<Row>, period: int) {
    rows != [] && rows[|rows| - 1].start == period
  }

  /** The rows of the periods that have ended before `period`. */
  function Ended(rows: seq<Row>, period: int): seq<Row> {
    if Running(rows, period) then rows[..|rows| - 1] else rows
  }

  /** Volume, range and total are those of the trades. */
  predicate HoldsTotals(p: Builder, ts: seq<Trade>) {
    && p.volumes == Volumes(ts) && p.total == Total(ts)
    && p.high.Some? && IsHigh(ts, p.high.value)
    && p.low.Some? && IsLow(ts, p.low.value)
  }

  /** The accumulator has counted these ended periods. */
  predicate HasCounted(p: Builder, counts: map<int, int>, ended: seq<Row>) {
    && p.counts == counts
    && p.rotation == Rotation(ended)
    && p.previousHigh == (if ended == [] then None else Some(ended[|ended| - 1].high))
    && p.previousLow == (if ended == [] then None else Some(ended[|ended| - 1].low))
  }

  /** Its open period is the one that runs at `period`, if any. */
  predicate HasOpen(p: Builder, traded: set<int>, rows: seq<Row>, period: int) {
    && p.open == traded
    && p.openHigh == (if Running(rows, period) then Some(rows[|rows| - 1].high) else None)
    && p.openLow == (if Running(rows, period) then Some(rows[|rows| - 1].low) else None)
  }

  /** Counts and rotation are those of the ended periods. */
  predicate HoldsEnded(p: Builder, ts: seq<Trade>, period: int) {
    HasCounted(p, Counts(ts, {period}), Ended(Rows(ts), period))
  }

  predicate HoldsOpen(p: Builder, ts: seq<Trade>, period: int) {
    HasOpen(p, Traded(ts, period), Rows(ts), period)
  }

  /** The accumulator holds exactly the trades `ts` of its session. */
  predicate Represents(p: Builder, ts: seq<Trade>) {
    && ts != [] && InPeriodOrder(ts)
    && p.session.Some? && p.tpoStart.Some?
    && (forall i :: 0 <= i < |ts| ==> ts[i].tpo <= p.tpoStart.value)
    && HoldsTotals(p, ts)
    && HoldsEnded(p, ts, p.tpoStart.value)
    && HoldsOpen(p, ts, p.tpoStart.value)
  }

  lemma TotalsGrow(p: Builder, ts: seq<Trade>, t: Trade)
    requires ts == [] ==> p.volumes == map[] && p.total == 0 && p.high.None? && p.low.None?
    requires ts != [] ==> HoldsTotals(p, ts)
    ensures HoldsTotals(Added(p, t.bucket, t.price, t.units), ts + [t])
  {
    assert (ts + [t])[..|ts|] == ts;
    OneMoreVolume(ts, t);
    assert ts == [] ==> Volumes(ts) == map[];
    RangeGrows(p.high, p.low, ts, t);
  }

  lemma RangeGrows(high: Option<int>, low: Option<int>, ts: seq<Trade>, t: Trade)
    requires if ts == [] then high.None? && low.None?
             else high.Some? && IsHigh(ts, high.value) && low.Some? && IsLow(ts, low.value)
    ensures IsHigh(ts + [t], Larger(high, t.price)) && IsLow(ts + [t], Smaller(low, t.price))
  {
    var all := ts + [t];
    assert all[|ts|] == t;
    if ts != [] {
      var h :| 0 <= h < |ts| && ts[h].price == high.value;
      var l :| 0 <= l < |ts| && ts[l].price == low.value;
      assert all[h].price == high.value && all[l].price == low.value;
    }
  }

  lemma EndedUnchanged(p: Builder, ts: seq<Trade>, t: Trade)
    requires InPeriodOrder(ts + [t])
    requires HoldsEnded(p, ts, t.tpo)
    ensures HoldsEnded(Added(p, t.bucket, t.price, t.units), ts + [t], t.tpo)
  {
    assert (ts + [t])[..|ts|] == ts;
    OneMoreCount(ts, t, {t.tpo});
    assert Ended(Rows(ts + [t]), t.tpo) == Ended(Rows(ts), t.tpo);
  }

  lemma OpenGrows(p: Builder, ts: seq<Trade>, t: Trade)
    requires HoldsOpen(p, ts, t.tpo)
    ensures HoldsOpen(Added(p, t.bucket, t.price, t.units), ts + [t], t.tpo)
  {
    assert (ts + [t])[..|ts|] == ts;
    OneMoreTraded(ts, t, t.tpo);
  }

  /** Ready for a trade of its running period: it holds `ts`, or nothing yet. */
  predicate Awaits(p: Builder, ts: seq<Trade>, t: Trade) {
    && p.session.Some? && p.tpoStart == Some(t.tpo)
    && (if ts == [] then p.volumes == map[] && p.total == 0 && p.high.None? && p.low.None? else HoldsTotals(p, ts))
    && HoldsEnded(p, ts, t.tpo) && HoldsOpen(p, ts, t.tpo)
  }

  lemma AddToAwaiting(p: Builder, ts: seq<Trade>, t: Trade)
    requires Awaits(p, ts, t) && InPeriodOrder(ts) && forall i :: 0 <= i < |ts| ==> ts[i].tpo <= t.tpo
    ensures Represents(Added(p, t.bucket, t.price, t.units), ts + [t])
  {
    OrderGrows(ts, t);
    TotalsGrow(p, ts, t);
    EndedUnchanged(p, ts, t);
    OpenGrows(p, ts, t);
    RepresentsIf(Added(p, t.bucket, t.price, t.units), ts + [t], t.tpo);
  }

  lemma OrderGrows(ts: seq<Trade>, t: Trade)
    requires InPeriodOrder(ts) && forall i :: 0 <= i < |ts| ==> ts[i].tpo <= t.tpo
    ensures InPeriodOrder(ts + [t]) && forall i :: 0 <= i < |ts + [t]| ==> (ts + [t])[i].tpo <= t.tpo
  {
  }

  lemma RepresentsIf(p: Builder, ts: seq<Trade>, period: i64)
    requires ts != [] && InPeriodOrder(ts) && p.session.Some? && p.tpoStart == Some(period)
    requires forall i :: 0 <= i < |ts| ==> ts[i].tpo <= period
    requires HoldsTotals(p, ts) && HoldsEnded(p, ts, period) && HoldsOpen(p, ts, period)
    ensures Represents(p, ts)
  {
  }

  lemma AddRepresents(p: Builder, ts: seq<Trade>, t: Trade)
    requires Represents(p, ts) && t.tpo == p.tpoStart.value
    ensures Represents(Added(p, t.bucket, t.price, t.units), ts + [t])
  {
    AddToAwaiting(p, ts, t);
  }

  lemma NothingYet(period: int)
    ensures Volumes([]) == map[] && Counts([], {period}) == map[] && Traded([], period) == {}
  {
  }

  lemma InactiveHolds(p: Builder, period: int)
    requires p.counts == map[] && p.rotation == 0 && p.previousHigh.None? && p.previousLow.None?
    requires p.open == {} && p.openHigh.None? && p.openLow.None?
    ensures HoldsEnded(p, [], period) && HoldsOpen(p, [], period)
  {
    NothingYet(period);
    assert Ended([], period) == [] && Rotation([]) == 0;
  }

  lemma StartRepresents(p: Builder, t: Trade)
    requires p.session.Some? && p.tpoStart == Some(t.tpo)
    requires p == Inactive(None).(session := p.session, tpoStart := p.tpoStart, last := p.last)
    ensures Represents(Added(p, t.bucket, t.price, t.units), [t])
  {
    InactiveHolds(p, t.tpo);
    AddToAwaiting(p, [], t);
    assert [] + [t] == [t];
  }

  /** After closing, counts and rotation are those of all periods. */
  predicate HoldsAll(p: Builder, ts: seq<Trade>) {
    HasCounted(p, Counts(ts, {}), Rows(ts)) && p.open == {} && p.openHigh.None? && p.openLow.None?
  }

  lemma CountsCloseAt(ts: seq<Trade>, period: int, b: int)
    ensures var plus, all := CountsPlus(Counts(ts, {period}), Traded(ts, period)), Counts(ts, {});
            (b in plus <==> b in all) && (b in plus ==> plus[b] == all[b])
  {
    CountOnePeriodMore(ts, period, b);
    CountedIffTraded(ts, b, {period});
    CountedIffTraded(ts, b, {});
  }

  lemma CountsClose(ts: seq<Trade>, period: int)
    ensures CountsPlus(Counts(ts, {period}), Traded(ts, period)) == Counts(ts, {})
  {
    var plus, all := CountsPlus(Counts(ts, {period}), Traded(ts, period)), Counts(ts, {});
    forall b ensures (b in plus <==> b in all) && (b in plus ==> plus[b] == all[b]) {
      CountsCloseAt(ts, period, b);
    }
    SameMaps(plus, all);
  }

  lemma NothingOpen(ts: seq<Trade>, period: int)
    requires InPeriodOrder(ts) && ts != []
    ensures Traded(ts, period) == {} <==> !HasRow(Rows(ts), period)
  {
    if Traded(ts, period) != {} { TradedHasRow(ts, period); }
    if HasRow(Rows(ts), period) { RowHasTraded(ts, period); }
  }

  lemma TradedHasRow(ts: seq<Trade>, period: int)
    requires Traded(ts, period) != {}
    ensures HasRow(Rows(ts), period)
  {
    EmptyOrNot(Traded(ts, period));
    var b :| b in Traded(ts, period);
    var i :| 0 <= i < |ts| && ts[i].tpo == period && ts[i].bucket == b;
    RowsCover(ts, i);
  }

  lemma RowHasTraded(ts: seq<Trade>, period: int)
    requires InPeriodOrder(ts) && HasRow(Rows(ts), period)
    ensures Traded(ts, period) != {}
  {
    var k :| 0 <= k < |Rows(ts)| && Rows(ts)[k].start == period;
    RowsMeaning(ts);
    var i :| 0 <= i < |ts| && ts[i].tpo == Rows(ts)[k].start && ts[i].bucket == Rows(ts)[k].high;
    assert ts[i].bucket in Traded(ts, period);
  }

  /** A period that is running is the last row; otherwise it has none. */
  lemma RunningIsLast(ts: seq<Trade>, period: int)
    requires InPeriodOrder(ts) && ts != []
    requires forall i :: 0 <= i < |ts| ==> ts[i].tpo <= period
    ensures Rows(ts) != []
    ensures Traded(ts, period) == {} <==> Rows(ts)[|Rows(ts)| - 1].start != period
  {
    var rows := Rows(ts);
    RowOrder(ts);
    NothingOpen(ts, period);
    if HasRow(rows, period) {
      var k :| 0 <= k < |rows| && rows[k].start == period;
      assert rows[k].start <= rows[|rows| - 1].start;
    }
  }

  lemma CloseCounts(p: Builder, traded: set<int>, rows: seq<Row>, period: int)
    requires HasCounted(p, p.counts, Ended(rows, period)) && HasOpen(p, traded, rows, period)
    requires traded == {} <==> !Running(rows, period)
    ensures HasCounted(Closed(p), CountsPlus(p.counts, traded), rows)
    ensures Closed(p).open == {} && Closed(p).openHigh.None? && Closed(p).openLow.None?
  {
    assert CountsPlus(p.counts, {}) == p.counts;
  }

  lemma CloseHoldsAll(p: Builder, ts: seq<Trade>)
    requires Represents(p, ts)
    ensures HoldsAll(Closed(p), ts)
  {
    var period := p.tpoStart.value;
    RunningIsLast(ts, period);
    CountsClose(ts, period);
    CloseCounts(p, Traded(ts, period), Rows(ts), period);
  }

  lemma SameCountUnlessTraded(ts: seq<Trade>, later: int, b: int)
    requires forall i :: 0 <= i < |ts| ==> ts[i].tpo < later
    ensures CountAt(ts, b, {later}) == CountAt(ts, b, {})
  {
    assert Periods(ts, b) - {later} == Periods(ts, b) - {};
  }

  lemma NotYetTraded(ts: seq<Trade>, later: int)
    requires forall i :: 0 <= i < |ts| ==> ts[i].tpo < later
    ensures Traded(ts, later) == {} && Counts(ts, {later}) == Counts(ts, {})
  {
    forall b ensures CountAt(ts, b, {later}) == CountAt(ts, b, {}) {
      SameCountUnlessTraded(ts, later, b);
    }
  }

  /** Closing and moving on to a later period still represents the same trades. */
  lemma CloseRepresents(p: Builder, ts: seq<Trade>, later: i64)
    requires Represents(p, ts) && p.tpoStart.value < later
    ensures Represents(Closed(p).(tpoStart := Some(later)), ts)
  {
    CloseHoldsAll(p, ts);
    NotYetTraded(ts, later);
    RunningIsLast(ts, later);
    AfterAll(Closed(p), ts, later);
  }

  lemma AfterAll(p: Builder, ts: seq<Trade>, later: i64)
    requires HoldsAll(p, ts) && !Running(Rows(ts), later)
    requires Traded(ts, later) == {} && Counts(ts, {later}) == Counts(ts, {})
    ensures HoldsEnded(p, ts, later) && HoldsOpen(p, ts, later)
  {
  }

  /** The record's derived figures are those of its volumes and counts. */
  predicate HasArea(c: Config, volumes: map<int, int>, counts: map<int, int>, r: Profile) {
    && r.volumes == volumes && r.counts == counts
    && r.tpoCount == SumCounts(counts, Sorted(counts.Keys))
    && AreaFor(volumes, counts, c.basis, c.bps) == Ok(r.area)
  }

  lemma SnapshotFields(q: Builder, c: Config, r: Profile)
    requires Snapshot(q, c) == Ok(r)
    ensures HasArea(c, q.volumes, q.counts, r)
    ensures q.session == Some(r.start) && r.end == r.start + c.time.session
    ensures r.high == q.high && r.low == q.low && r.total == q.total && r.rotation == q.rotation
  {
  }

  /** The finished record of exactly these trades. */
  predicate IsProfileOf(c: Config, ts: seq<Trade>, r: Profile) {
    && HasArea(c, Volumes(ts), Counts(ts, {}), r)
    && r.end == r.start + c.time.session
    && r.total == Total(ts) && r.rotation == Rotation(Rows(ts))
    && r.high.Some? && IsHigh(ts, r.high.value) && r.low.Some? && IsLow(ts, r.low.value)
  }

  lemma SnapshotIsProfile(p: Builder, c: Config, ts: seq<Trade>, r: Profile)
    requires Represents(p, ts) && Snapshot(Closed(p), c) == Ok(r)
    ensures IsProfileOf(c, ts, r) && p.session == Some(r.start)
  {
    CloseHoldsAll(p, ts);
    SnapshotFields(Closed(p), c, r);
  }

  predicate NonNegative(m: map<int, int>) {
    forall k :: k in m ==> 0 <= m[k]
  }

  lemma ActivityIsNonNegative(volumes: map<int, int>, counts: map<int, int>, basis: Basis)
    requires NonNegative(volumes) && NonNegative(counts)
    ensures Activities(ActivityList(volumes, counts, basis))
  {
  }

  /** Between the value area's ends lies its share of all activity. */
  predicate HoldsShare(volumes: map<int, int>, counts: map<int, int>, basis: Basis, bps: nat, val: int, vah: int) {
    var keys, act := Sorted(volumes.Keys), ActivityList(volumes, counts, basis);
    exists i, j :: 0 <= i <= j < |keys| && keys[i] == val && keys[j] == vah
                && Sum(act, i, j + 1) * 10_000 >= Sum(act, 0, |act|) * bps
  }

  lemma AreaMeaning(volumes: map<int, int>, counts: map<int, int>, basis: Basis, bps: nat,
          area: Option<(int, int, int)>)
    requires NonNegative(volumes) && NonNegative(counts) && volumes.Keys != {} && bps <= 10_000
    requires AreaFor(volumes, counts, basis, bps) == Ok(area)
    ensures area.Some?
    ensures var (poc, val, vah) := area.value;
            && val <= poc <= vah && {poc, val, vah} <= volumes.Keys
            && HoldsShare(volumes, counts, basis, bps, val, vah)
  {
    var keys, act := Sorted(volumes.Keys), ActivityList(volumes, counts, basis);
    ActivityIsNonNegative(volumes, counts, basis);
    AreaHoldsShare(keys, act, bps);
    var a := AreaOf(keys, act, bps);
    assert keys[a.poc] in keys && keys[a.val] in keys && keys[a.vah] in keys;
  }

  lemma {:induction false} VolumePositive(ts: seq<Trade>, bucket: int)
    requires forall i :: 0 <= i < |ts| ==> ts[i].units > 0
    ensures VolumeAt(ts, bucket) >= 0
  {
    if ts != [] { VolumePositive(ts[..|ts| - 1], bucket); }
  }

  lemma BatchNonNegative(ts: seq<Trade>)
    requires forall i :: 0 <= i < |ts| ==> ts[i].units > 0
    ensures NonNegative(Volumes(ts)) && NonNegative(Counts(ts, {}))
    ensures ts != [] ==> Volumes(ts).Keys != {}
  {
    forall b | b in Volumes(ts) ensures Volumes(ts)[b] >= 0 { VolumePositive(ts, b); }
    if ts != [] { assert ts[0].bucket in Volumes(ts); }
  }

  /** The point of control and value area are traded buckets, in order, and the levels between
      the ends hold the configured share of all activity. */
  predicate AreaIsSound(c: Config, r: Profile) {
    && r.area.Some?
    && var (poc, val, vah) := r.area.value;
    && val <= poc <= vah && {poc, val, vah} <= r.volumes.Keys
    && HoldsShare(r.volumes, r.counts, c.basis, c.bps, val, vah)
  }

  lemma SoundArea(c: Config, volumes: map<int, int>, counts: map<int, int>, r: Profile)
    requires NonNegative(volumes) && NonNegative(counts) && volumes.Keys != {} && c.bps <= 10_000
    requires HasArea(c, volumes, counts, r)
    ensures AreaIsSound(c, r)
  {
    AreaMeaning(volumes, counts, c.basis, c.bps, r.area);
  }

  /** Every profile of trades with positive quantities has a sound value area. */
  lemma ProfileArea(c: Config, ts: seq<Trade>, r: Profile)
    requires c.Valid() && ts != [] && IsProfileOf(c, ts, r)
    requires forall i :: 0 <= i < |ts| ==> ts[i].units > 0
    ensures AreaIsSound(c, r)
  {
    BatchNonNegative(ts);
    SoundArea(c, Volumes(ts), Counts(ts, {}), r);
  }
}
