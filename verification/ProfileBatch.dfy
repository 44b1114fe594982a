/** What a session profile means: every statistic as a function of the list of the session's
    trades, with no running state. */
module ProfileBatch {
  import opened Ordering
  import opened Common

  /** An accepted trade, with the start of its TPO period and of its session. */
  datatype Trade = Trade(at: i64, bucket: int, price: int, units: int, tpo: i64, session: i64)

  function Buckets(ts: seq<Trade>): set<int> {
    set i | 0 <= i < |ts| :: ts[i].bucket
  }

  function VolumeAt(ts: seq<Trade>, bucket: int): int {
    if ts == [] then 0
    else VolumeAt(ts[..|ts| - 1], bucket) + if ts[|ts| - 1].bucket == bucket then ts[|ts| - 1].units else 0
  }

  function Volumes(ts: seq<Trade>): map<int, int> {
    map b | b in Buckets(ts) :: VolumeAt(ts, b)
  }

  function Total(ts: seq<Trade>): int {
    if ts == [] then 0 else Total(ts[..|ts| - 1]) + ts[|ts| - 1].units
  }

  /** The TPO periods in which the bucket traded. */
  function Periods(ts: seq<Trade>, bucket: int): set<int> {
    set i | 0 <= i < |ts| && ts[i].bucket == bucket :: ts[i].tpo
  }

  function CountAt(ts: seq<Trade>, bucket: int, except: set<int>): nat {
    |Periods(ts, bucket) - except|
  }

  /** For each bucket the number of distinct periods, other than `except`, in which it traded. */
  function Counts(ts: seq<Trade>, except: set<int>): map<int, int> {
    map b | b in Buckets(ts) && CountAt(ts, b, except) > 0 :: CountAt(ts, b, except)
  }

  predicate IsHigh(ts: seq<Trade>, x: int) {
    (exists i :: 0 <= i < |ts| && ts[i].price == x) && forall i :: 0 <= i < |ts| ==> ts[i].price <= x
  }

  predicate IsLow(ts: seq<Trade>, x: int) {
    (exists i :: 0 <= i < |ts| && ts[i].price == x) && forall i :: 0 <= i < |ts| ==> x <= ts[i].price
  }

  // ---- Rotation ----

  /** One non-empty period with its highest and lowest traded bucket. */
  datatype Row = Row(start: int, high: int, low: int)

  function Rows(ts: seq<Trade>): seq<Row> {
    if ts == [] then [] else WithTrade(Rows(ts[..|ts| - 1]), ts[|ts| - 1])
  }

  /** Widens the last row if it is the trade's period, or opens a new one. */
  function WithTrade(rows: seq<Row>, t: Trade): seq<Row> {
    if rows != [] && rows[|rows| - 1].start == t.tpo
    then rows[..|rows| - 1] + [Widen(rows[|rows| - 1], t.bucket)]
    else rows + [Row(t.tpo, t.bucket, t.bucket)]
  }

  function Widen(r: Row, bucket: int): Row {
    Row(r.start, if bucket > r.high then bucket else r.high, if bucket < r.low then bucket else r.low)
  }

  function Score(current: int, previous: int): int {
    if current < previous then -1 else if current == previous then 0 else 1
  }

  function Move(previous: Row, current: Row): int {
    Score(current.high, previous.high) + Score(current.low, previous.low)
  }

  /** Signed high and low moves between consecutive non-empty periods. */
  function Rotation(rows: seq<Row>): int {
    if |rows| <= 1 then 0
    else Rotation(rows[..|rows| - 1]) + Move(rows[|rows| - 2], rows[|rows| - 1])
  }

  predicate InPeriodOrder(ts: seq<Trade>) {
    forall i, j :: 0 <= i <= j < |ts| ==> ts[i].tpo <= ts[j].tpo
  }

  /** `r` is a period in which trading happened, with its true extremes. */
  predicate Summarises(ts: seq<Trade>, r: Row) {
    && (exists i :: 0 <= i < |ts| && ts[i].tpo == r.start && ts[i].bucket == r.high)
    && (exists i :: 0 <= i < |ts| && ts[i].tpo == r.start && ts[i].bucket == r.low)
    && (forall i :: 0 <= i < |ts| && ts[i].tpo == r.start ==> r.low <= ts[i].bucket <= r.high)
  }

  lemma SummaryGrows(ts: seq<Trade>, t: Trade, r: Row)
    requires Summarises(ts, r)
    ensures Summarises(ts + [t], if r.start == t.tpo then Widen(r, t.bucket) else r)
  {
    var all := ts + [t];
    var h :| 0 <= h < |ts| && ts[h].tpo == r.start && ts[h].bucket == r.high;
    var l :| 0 <= l < |ts| && ts[l].tpo == r.start && ts[l].bucket == r.low;
    assert all[h] == ts[h] && all[l] == ts[l] && all[|ts|] == t;
  }

  lemma NewSummary(ts: seq<Trade>, t: Trade)
    requires forall i :: 0 <= i < |ts| ==> ts[i].tpo != t.tpo
    ensures Summarises(ts + [t], Row(t.tpo, t.bucket, t.bucket))
  {
    var all := ts + [t];
    assert all[|ts|] == t;
  }

  predicate RowsAscend(rows: seq<Row>) {
    forall i, j :: 0 <= i < j < |rows| ==> rows[i].start < rows[j].start
  }

  predicate HasRow(rows: seq<Row>, period: int) {
    exists k :: 0 <= k < |rows| && rows[k].start == period
  }

  lemma PrefixInOrder(ts: seq<Trade>)
    requires InPeriodOrder(ts) && ts != []
    ensures var init := ts[..|ts| - 1];
            InPeriodOrder(init) && (init != [] ==> init[|init| - 1].tpo <= ts[|ts| - 1].tpo)
  {
  }

  lemma {:induction false} RowOrder(ts: seq<Trade>)
    requires InPeriodOrder(ts)
    ensures RowsAscend(Rows(ts))
    ensures ts != [] ==> Rows(ts) != [] && Rows(ts)[|Rows(ts)| - 1].start == ts[|ts| - 1].tpo
  {
    if ts != [] {
      var n := |ts| - 1;
      PrefixInOrder(ts);
      RowOrder(ts[..n]);
      RowOrderKept(Rows(ts[..n]), ts[n]);
    }
  }

  lemma RowOrderKept(rows: seq<Row>, t: Trade)
    requires RowsAscend(rows) && (rows != [] ==> rows[|rows| - 1].start <= t.tpo)
    ensures RowsAscend(WithTrade(rows, t))
    ensures var now := WithTrade(rows, t); now != [] && now[|now| - 1].start == t.tpo
  {
  }

  /** A trade keeps every summary, and summarises its own period if that is new. */
  lemma SummariesKept(ts: seq<Trade>, t: Trade, rows: seq<Row>, i: nat)
    requires RowsAscend(rows) && i < |WithTrade(rows, t)|
    requires rows != [] ==> rows[|rows| - 1].start <= t.tpo
    requires i < |rows| ==> Summarises(ts, rows[i])
    requires i == |rows| ==> forall k :: 0 <= k < |ts| ==> ts[k].tpo != t.tpo
    ensures Summarises(ts + [t], WithTrade(rows, t)[i])
  {
    if i < |rows| { SummaryGrows(ts, t, rows[i]); } else { NewSummary(ts, t); }
  }

  lemma NewPeriod(ts: seq<Trade>, n: nat, k: nat)
    requires InPeriodOrder(ts) && k < n < |ts| && ts[n - 1].tpo != ts[n].tpo
    ensures ts[k].tpo < ts[n].tpo
  {
    assert ts[k].tpo <= ts[n - 1].tpo <= ts[n].tpo;
  }

  lemma {:induction false} RowsSummarise(ts: seq<Trade>, n: nat, i: nat)
    requires InPeriodOrder(ts) && n <= |ts| && i < |Rows(ts[..n])|
    ensures Summarises(ts[..n], Rows(ts[..n])[i])
    decreases n
  {
    var prior, t := ts[..n - 1], ts[n - 1];
    assert ts[..n][..n - 1] == prior && ts[..n] == prior + [t];
    RowOrder(prior);
    if i < |Rows(prior)| {
      RowsSummarise(ts, n - 1, i);
    } else {
      forall k | 0 <= k < |prior| ensures prior[k].tpo != t.tpo {
        NewPeriod(ts, n - 1, k);
      }
    }
    if n > 1 { assert ts[n - 2].tpo <= t.tpo; }
    SummariesKept(prior, t, Rows(prior), i);
  }

  lemma {:induction false} RowsCover(ts: seq<Trade>, i: nat)
    requires i < |ts|
    ensures HasRow(Rows(ts), ts[i].tpo)
  {
    var n := |ts| - 1;
    var rows, now := Rows(ts[..n]), Rows(ts);
    if i < n {
      RowsCover(ts[..n], i);
      var k :| 0 <= k < |rows| && rows[k].start == ts[..n][i].tpo;
      assert now[k].start == ts[i].tpo;
    } else {
      assert now[|now| - 1].start == ts[i].tpo;
    }
  }

  /** The rows are the periods with trades, in order, each once, with their true extremes. */
  lemma RowsMeaning(ts: seq<Trade>)
    requires InPeriodOrder(ts)
    ensures RowsAscend(Rows(ts))
    ensures forall i :: 0 <= i < |Rows(ts)| ==> Summarises(ts, Rows(ts)[i])
    ensures forall i :: 0 <= i < |ts| ==> HasRow(Rows(ts), ts[i].tpo)
  {
    RowOrder(ts);
    forall i | 0 <= i < |Rows(ts)| ensures Summarises(ts, Rows(ts)[i]) {
      assert ts[..|ts|] == ts;
      RowsSummarise(ts, |ts|, i);
    }
    forall i | 0 <= i < |ts| ensures HasRow(Rows(ts), ts[i].tpo) { RowsCover(ts, i); }
  }

  // ---- One trade more ----

  lemma OneMoreBucket(ts: seq<Trade>, t: Trade)
    ensures Buckets(ts + [t]) == Buckets(ts) + {t.bucket}
  {
    var all := ts + [t];
    assert all[|ts|] == t;
    forall b | b in Buckets(ts) ensures b in Buckets(all) {
      var i :| 0 <= i < |ts| && ts[i].bucket == b;
      assert all[i].bucket == b;
    }
  }

  lemma OneMorePeriod(ts: seq<Trade>, t: Trade, bucket: int)
    ensures Periods(ts + [t], bucket) == Periods(ts, bucket) + if t.bucket == bucket then {t.tpo} else {}
  {
    var all := ts + [t];
    assert all[|ts|] == t;
    forall p | p in Periods(ts, bucket) ensures p in Periods(all, bucket) {
      var i :| 0 <= i < |ts| && ts[i].bucket == bucket && ts[i].tpo == p;
      assert all[i].tpo == p;
    }
  }

  lemma {:induction false} NoVolumeElsewhere(ts: seq<Trade>, bucket: int)
    requires bucket !in Buckets(ts)
    ensures VolumeAt(ts, bucket) == 0
  {
    if ts != [] {
      var n := |ts| - 1;
      assert ts == ts[..n] + [ts[n]];
      OneMoreBucket(ts[..n], ts[n]);
      NoVolumeElsewhere(ts[..n], bucket);
    }
  }

  lemma OneMoreVolume(ts: seq<Trade>, t: Trade)
    ensures Volumes(ts + [t])
         == Volumes(ts)[t.bucket := (if t.bucket in Volumes(ts) then Volumes(ts)[t.bucket] else 0) + t.units]
  {
    assert (ts + [t])[..|ts|] == ts;
    OneMoreBucket(ts, t);
    if t.bucket !in Volumes(ts) { NoVolumeElsewhere(ts, t.bucket); }
  }

  /** A trade in an excluded period changes no count. */
  lemma OneMoreCount(ts: seq<Trade>, t: Trade, except: set<int>)
    requires t.tpo in except
    ensures Counts(ts + [t], except) == Counts(ts, except)
  {
    var more, was := Counts(ts + [t], except), Counts(ts, except);
    forall b ensures (b in more <==> b in was) && (b in was ==> more[b] == was[b]) {
      SameCountAt(ts, t, b, except);
      CountedIffTraded(ts + [t], b, except);
      CountedIffTraded(ts, b, except);
    }
    SameMaps(more, was);
  }

  lemma CountedIffTraded(ts: seq<Trade>, bucket: int, except: set<int>)
    ensures bucket in Counts(ts, except) <==> CountAt(ts, bucket, except) > 0
  {
    if bucket !in Buckets(ts) { NoCountElsewhere(ts, bucket, except); }
  }

  lemma SameCountAt(ts: seq<Trade>, t: Trade, bucket: int, except: set<int>)
    requires t.tpo in except
    ensures CountAt(ts + [t], bucket, except) == CountAt(ts, bucket, except)
  {
    OneMorePeriod(ts, t, bucket);
    assert Periods(ts + [t], bucket) - except == Periods(ts, bucket) - except;
  }

  lemma NoCountElsewhere(ts: seq<Trade>, bucket: int, except: set<int>)
    requires bucket !in Buckets(ts)
    ensures CountAt(ts, bucket, except) == 0
  {
    assert Periods(ts, bucket) == {};
  }

  /** The buckets that traded in one period. */
  function Traded(ts: seq<Trade>, period: int): set<int> {
    set i | 0 <= i < |ts| && ts[i].tpo == period :: ts[i].bucket
  }

  lemma OneMoreTraded(ts: seq<Trade>, t: Trade, period: int)
    ensures Traded(ts + [t], period) == Traded(ts, period) + if t.tpo == period then {t.bucket} else {}
  {
    var all := ts + [t];
    assert all[|ts|] == t;
    forall b | b in Traded(ts, period) ensures b in Traded(all, period) {
      var i :| 0 <= i < |ts| && ts[i].tpo == period && ts[i].bucket == b;
      assert all[i].bucket == b;
    }
  }

  lemma TradedIffPeriod(ts: seq<Trade>, bucket: int, period: int)
    ensures bucket in Traded(ts, period) <==> period in Periods(ts, bucket)
    ensures period in Periods(ts, bucket) ==> bucket in Buckets(ts)
  {
    if bucket in Traded(ts, period) {
      var i :| 0 <= i < |ts| && ts[i].tpo == period && ts[i].bucket == bucket;
      assert ts[i].bucket == bucket;
    }
    if period in Periods(ts, bucket) {
      var i :| 0 <= i < |ts| && ts[i].bucket == bucket && ts[i].tpo == period;
      assert ts[i].tpo == period;
    }
  }

  /** Counting one period more adds one to exactly the buckets that traded in it. */
  lemma CountOnePeriodMore(ts: seq<Trade>, period: int, bucket: int)
    ensures CountAt(ts, bucket, {})
         == CountAt(ts, bucket, {period}) + if bucket in Traded(ts, period) then 1 else 0
  {
    TradedIffPeriod(ts, bucket, period);
    assert Periods(ts, bucket) - {} == Periods(ts, bucket);
    if period in Periods(ts, bucket) {
      assert Periods(ts, bucket) == (Periods(ts, bucket) - {period}) + {period};
    } else {
      assert Periods(ts, bucket) == Periods(ts, bucket) - {period};
    }
  }
}
