/** Exact conversions from decimals to ticks, buckets and quantity units, and event-time periods. */
module Grid {
  import opened Common
  import opened Decimal

  datatype AnalyticsError =
    | BadDecimal | NonPositive | MisalignedPrice | ArithmeticOverflow | LateTrade
    | CapacityExceeded | CorruptSnapshot | InstrumentMismatch

  /** A validated grid: tick and bucket sizes are positive and fit. */
  datatype GridSpec = GridSpec(priceScale: u8, quantityScale: u8, tick: i128, levelsPerBucket: nat) {
    predicate Valid() {
      0 < tick && 0 < levelsPerBucket && tick * levelsPerBucket <= I128_MAX
    }
  }

  function PriceTick(g: GridSpec, price: Fixed): Result<int, AnalyticsError>
    requires g.Valid()
  {
    var r := Rescale(price, g.priceScale);
    if r.Err? then Err(BadDecimal)
    else if r.value.coefficient <= 0 then Err(NonPositive)
    else if r.value.coefficient % g.tick != 0 then Err(MisalignedPrice)
    else Ok(r.value.coefficient / g.tick)
  }

  function PriceBucket(g: GridSpec, price: Fixed): Result<int, AnalyticsError>
    requires g.Valid()
  {
    var t := PriceTick(g, price);
    if t.Err? then t else Ok(t.value / g.levelsPerBucket)
  }

  /** The price of a tick, as a coefficient at the grid's price scale. */
  function PriceAtTick(g: GridSpec, tick: int): Result<int, AnalyticsError> {
    if tick <= 0 then Err(NonPositive)
    else if tick * g.tick > I128_MAX then Err(ArithmeticOverflow)
    else Ok(tick * g.tick)
  }

  function PriceAt(g: GridSpec, bucket: int): Result<int, AnalyticsError>
    requires g.Valid()
  {
    if bucket <= 0 then Err(NonPositive)
    else if bucket * (g.tick * g.levelsPerBucket) > I128_MAX then Err(ArithmeticOverflow)
    else Ok(bucket * (g.tick * g.levelsPerBucket))
  }

  function NonNegativeUnits(g: GridSpec, quantity: Fixed): Result<int, AnalyticsError> {
    var r := Rescale(quantity, g.quantityScale);
    if r.Err? then Err(BadDecimal)
    else if r.value.coefficient < 0 then Err(NonPositive)
    else Ok(r.value.coefficient)
  }

  function QuantityUnits(g: GridSpec, quantity: Fixed): Result<int, AnalyticsError> {
    var r := Rescale(quantity, g.quantityScale);
    if r.Err? then Err(BadDecimal)
    else if r.value.coefficient <= 0 then Err(NonPositive)
    else Ok(r.value.coefficient)
  }

  /** A price the grid accepts comes back from its tick unchanged, and lies in its bucket:
      at or above the bucket's price and below the next one's. */
  lemma TickRoundTrip(g: GridSpec, price: Fixed)
    requires g.Valid() && PriceTick(g, price).Ok?
    ensures var tick, bucket := PriceTick(g, price).value, PriceBucket(g, price).value;
            var coefficient := Rescale(price, g.priceScale).value.coefficient;
            && 0 < tick && 0 <= bucket
            && PriceAtTick(g, tick) == Ok(coefficient)
            && bucket * (g.tick * g.levelsPerBucket) <= coefficient < (bucket + 1) * (g.tick * g.levelsPerBucket)
            && (PriceAt(g, bucket) == Err(NonPositive) <==> tick < g.levelsPerBucket)
            && (tick >= g.levelsPerBucket ==> PriceAt(g, bucket) == Ok(bucket * (g.tick * g.levelsPerBucket)))
  {
    var c := Rescale(price, g.priceScale).value.coefficient;
    QuotientFits(c, g.tick);
    var tick := c / g.tick;
    BucketBounds(tick, g.tick, g.levelsPerBucket);
  }

  /** A bucket that has a price comes back from that price. */
  lemma BucketRoundTrip(g: GridSpec, bucket: int)
    requires g.Valid() && PriceAt(g, bucket).Ok?
    ensures PriceBucket(g, Fixed(PriceAt(g, bucket).value, g.priceScale)) == Ok(bucket)
  {
    var size := g.tick * g.levelsPerBucket;
    MulLess(0, bucket, size);
    Swap(bucket, g.levelsPerBucket, g.tick);
    MulDiv(bucket * g.levelsPerBucket, g.tick);
    MulDiv(bucket, g.levelsPerBucket);
  }

  lemma MulDiv(q: int, d: int)
    requires 0 < d
    ensures (q * d) % d == 0 && (q * d) / d == q
  {
    DivBounds(q * d, d);
    var k := (q * d) / d;
    if k < q { MulLess(k + 1, q, d); }
    if q < k { MulLess(q + 1, k, d); }
  }

  lemma BucketBounds(tick: int, size: int, levels: nat)
    requires 0 < tick && 0 < size && 0 < levels
    ensures var b := tick / levels;
            && 0 <= b && (b == 0 <==> tick < levels)
            && b * (size * levels) <= tick * size < (b + 1) * (size * levels)
  {
    var b := tick / levels;
    DivBounds(tick, levels);
    MulLess(b * levels, tick, size);
    MulLess(tick + 1, (b + 1) * levels, size);
    Swap(b, levels, size);
    Swap(b + 1, levels, size);
  }

  lemma DivBounds(x: int, d: int)
    requires 0 < d
    ensures (x / d) * d <= x < (x / d + 1) * d
    ensures 0 <= x ==> 0 <= x / d && (x / d == 0 <==> x < d)
  {
  }

  lemma Swap(a: int, b: int, c: int)
    ensures (a * b) * c == a * (c * b)
    ensures (a * b) * c == a * (b * c)
  {
  }

  lemma MulLess(a: int, b: int, c: int)
    requires a <= b && 0 < c
    ensures a * c <= b * c
  {
  }

  /** Higher prices never fall into lower buckets. */
  lemma BucketsAreMonotone(g: GridSpec, p: Fixed, q: Fixed)
    requires g.Valid() && PriceTick(g, p).Ok? && PriceTick(g, q).Ok?
    requires Rescale(p, g.priceScale).value.coefficient <= Rescale(q, g.priceScale).value.coefficient
    ensures PriceBucket(g, p).value <= PriceBucket(g, q).value
  {
    TickRoundTrip(g, p);
    TickRoundTrip(g, q);
    var b, c, size := PriceBucket(g, p).value, PriceBucket(g, q).value, g.tick * g.levelsPerBucket;
    if c < b {
      assert size > 0;
      MulLess(c + 1, b, size);
    }
  }

  // ---- Periods ----

  datatype Timeframe = Timeframe(candle: i64, tpo: i64, session: i64, anchor: i64) {
    predicate Valid() {
      && 0 < candle <= session && session % candle == 0
      && 0 < tpo <= session && session % tpo == 0
    }
  }

  /** The start of the period of this length that holds `t`, counted from the anchor. */
  function PeriodStart(t: int, anchor: int, length: int): int
    requires 0 < length
  {
    (t - anchor) / length * length + anchor
  }

  function CheckedStart(t: i64, anchor: i64, length: i64): Result<i64, AnalyticsError>
    requires 0 < length
  {
    var s := PeriodStart(t, anchor, length);
    if I64_MIN <= s <= I64_MAX then Ok(s) else Err(ArithmeticOverflow)
  }

  /** A period holds its times; periods are ordered like times and are their own start. */
  lemma PeriodHolds(t: int, anchor: int, length: int)
    requires 0 < length
    ensures PeriodStart(t, anchor, length) <= t < PeriodStart(t, anchor, length) + length
  {
  }

  lemma PeriodsAreMonotone(t: int, t': int, anchor: int, length: int)
    requires 0 < length && t <= t'
    ensures PeriodStart(t, anchor, length) <= PeriodStart(t', anchor, length)
    ensures PeriodStart(t, anchor, length) == PeriodStart(t', anchor, length)
         || PeriodStart(t, anchor, length) + length <= PeriodStart(t', anchor, length)
  {
    var q, q' := (t - anchor) / length, (t' - anchor) / length;
    PeriodHolds(t, anchor, length);
    PeriodHolds(t', anchor, length);
    if q' < q { MulLess(q' + 1, q, length); }
    if q < q' { MulLess(q + 1, q', length); }
  }

  /** Short periods nest in long ones: no period straddles a session boundary. */
  lemma PeriodsNest(t: int, anchor: int, short: int, long: int)
    requires 0 < short <= long && long % short == 0
    ensures PeriodStart(t, anchor, long) <= PeriodStart(t, anchor, short)
    ensures PeriodStart(t, anchor, short) + short <= PeriodStart(t, anchor, long) + long
  {
    var k, x := long / short, t - anchor;
    var q, s := x / long, x / short;
    DivBounds(x, long);
    DivBounds(x, short);
    Swap(q, k, short);
    Swap(q + 1, k, short);
    UnitsNest(x, s, q * k, (q + 1) * k, short);
  }

  /** A unit that holds a point between two unit boundaries lies between them. */
  lemma UnitsNest(x: int, s: int, low: int, high: int, unit: int)
    requires 0 < unit && s * unit <= x < (s + 1) * unit
    requires low * unit <= x < high * unit
    ensures low * unit <= s * unit && (s + 1) * unit <= high * unit
  {
    if s < low { MulLess(s + 1, low, unit); }
    if high <= s { MulLess(high, s, unit); }
    MulLess(low, s, unit);
    MulLess(s + 1, high, unit);
  }
}
