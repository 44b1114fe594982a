/** When the record of a session is refused, and why a refused session stays refused. */
module ProfileRefusals {
  import opened Common
  import opened Grid
  import opened Ordering
  import opened ValueArea
  import opened ProfileModel

  // ---- Sums over keys ----

  function Over(m: map<int, int>, keys: set<int>): int {
    if keys == {} then 0 else var k := Least(keys); Get(m, k) + Over(m, keys - {k})
  }

  lemma {:induction false} OverGrows(m: map<int, int>, keys: set<int>, m': map<int, int>, keys': set<int>)
    requires keys <= keys' && (forall k :: k in keys' ==> 0 <= Get(m', k))
    requires (forall k :: k in keys ==> Get(m, k) <= Get(m', k))
    ensures Over(m, keys) <= Over(m', keys')
    decreases keys'
  {
    if keys' != {} {
      var k := Least(keys');
      if k in keys {
        assert Least(keys) == k;
        OverGrows(m, keys - {k}, m', keys' - {k});
      } else {
        OverGrows(m, keys, m', keys' - {k});
      }
    }
  }

  lemma {:induction false} SumTail(act: seq<int>, n: nat)
    requires 0 < n <= |act|
    ensures Sum(act, 0, n) == act[0] + Sum(act[1..], 0, n - 1)
  {
    if n > 1 { SumTail(act, n - 1); }
  }

  lemma {:induction false} SumIsOver(act: seq<int>, m: map<int, int>, keys: set<int>)
    requires |act| == |Sorted(keys)| && forall i :: 0 <= i < |act| ==> act[i] == Get(m, Sorted(keys)[i])
    ensures Sum(act, 0, |act|) == Over(m, keys)
    decreases keys
  {
    if keys != {} {
      var rest := keys - {Least(keys)};
      assert Sorted(keys) == [Least(keys)] + Sorted(rest);
      SumTail(act, |act|);
      SumIsOver(act[1..], m, rest);
    } else {
      assert Sorted(keys) == [];
    }
  }

  lemma {:induction false} CountsTail(counts: map<int, int>, k: int, keys: seq<int>)
    ensures SumCounts(counts, [k] + keys) == Get(counts, k) + SumCounts(counts, keys)
  {
    if keys == [] {
      assert [k] + keys == [k] && [k][..0] == [];
    } else {
      assert ([k] + keys)[..|keys|] == [k] + keys[..|keys| - 1];
      CountsTail(counts, k, keys[..|keys| - 1]);
    }
  }

  lemma {:induction false} CountsAreOver(counts: map<int, int>, keys: set<int>)
    ensures SumCounts(counts, Sorted(keys)) == Over(counts, keys)
    decreases keys
  {
    if keys != {} {
      var rest := keys - {Least(keys)};
      assert Sorted(keys) == [Least(keys)] + Sorted(rest);
      CountsTail(counts, Least(keys), Sorted(rest));
      CountsAreOver(counts, rest);
    }
  }

  // ---- When a record is refused ----

  /** The amounts that the value area shares out. */
  function Amounts(volumes: map<int, int>, counts: map<int, int>, basis: Basis): map<int, int> {
    if basis == Volume then volumes else counts
  }

  function Activity(volumes: map<int, int>, counts: map<int, int>, basis: Basis): int {
    Over(Amounts(volumes, counts, basis), volumes.Keys)
  }

  lemma ActivityIsSum(volumes: map<int, int>, counts: map<int, int>, basis: Basis)
    ensures var act := ActivityList(volumes, counts, basis);
            |act| == |Sorted(volumes.Keys)| && Sum(act, 0, |act|) == Activity(volumes, counts, basis)
  {
    SumIsOver(ActivityList(volumes, counts, basis), Amounts(volumes, counts, basis), volumes.Keys);
  }

  /** A bucket too high for the distance arithmetic. */
  predicate TooHigh(b: int) {
    2 * b > I128_MAX
  }

  predicate SomeTooHigh(keys: set<int>) {
    exists b :: b in keys && TooHigh(b)
  }

  lemma HeightDecides(buckets: seq<int>)
    requires buckets != [] && Ascending(buckets) && forall i :: 0 <= i < |buckets| ==> 0 <= buckets[i]
    ensures (I128_MIN <= MidpointTwice(buckets) <= I128_MAX
             && forall i :: 0 <= i < |buckets| ==> DistanceFits(buckets, i))
       <==> forall i :: 0 <= i < |buckets| ==> !TooHigh(buckets[i])
  {
    var last := buckets[|buckets| - 1];
    assert forall i :: 0 <= i < |buckets| ==> buckets[i] <= last;
    if !TooHigh(last) {
      assert 0 <= MidpointTwice(buckets) <= 2 * last;
    } else {
      assert !DistanceFits(buckets, |buckets| - 1);
    }
  }

  predicate SumOverflows(total: int, bps: nat) {
    total > I128_MAX || total * bps + 9_999 > I128_MAX
  }

  lemma FitsExactly(keys: set<int>, act: seq<int>, bps: nat)
    requires keys != {} && |act| == |Sorted(keys)| && forall k :: k in keys ==> 0 <= k
    ensures Fits(Sorted(keys), act, bps) <==> !SomeTooHigh(keys) && !SumOverflows(Sum(act, 0, |act|), bps)
  {
    var buckets := Sorted(keys);
    assert forall i :: 0 <= i < |buckets| ==> buckets[i] in keys;
    HeightDecides(buckets);
    if SomeTooHigh(keys) {
      var b :| b in keys && TooHigh(b);
      assert b in buckets;
    }
  }

  lemma AreaRefusedExactly(volumes: map<int, int>, counts: map<int, int>, basis: Basis, bps: nat)
    requires forall b :: b in volumes ==> 0 <= b
    ensures AreaFor(volumes, counts, basis, bps).Err?
       <==> volumes.Keys != {} && (SomeTooHigh(volumes.Keys) || SumOverflows(Activity(volumes, counts, basis), bps))
  {
    if volumes.Keys != {} {
      ActivityIsSum(volumes, counts, basis);
      FitsExactly(volumes.Keys, ActivityList(volumes, counts, basis), bps);
    }
  }

  /** What refuses the record of a session: its end, a bucket or a sum overflows, or a level traded
      in the bucket of no positive price. */
  predicate Overflowing(session: int, volumes: map<int, int>, counts: map<int, int>, c: Config) {
    || session + c.time.session > I64_MAX
    || SomeTooHigh(volumes.Keys)
    || (volumes.Keys != {} && SumOverflows(Activity(volumes, counts, c.basis), c.bps))
    || (exists b :: b in volumes.Keys && b <= 0)
    || Over(counts, counts.Keys) > U64_MAX
  }

  /** The accumulator's buckets and amounts are not negative. */
  predicate Tidy(p: Builder) {
    && (forall b :: b in p.volumes ==> 0 <= b && 0 <= p.volumes[b])
    && (forall b :: b in p.counts ==> 0 <= p.counts[b])
    && p.counts.Keys <= p.volumes.Keys && p.open <= p.volumes.Keys
  }

  lemma RecordRefusedExactly(p: Builder, c: Config, area: Result<Option<(int, int, int)>, AnalyticsError>)
    requires p.session.Some?
    ensures SnapshotWith(p, c.time.session, area).Err?
       <==> || p.session.value + c.time.session > I64_MAX
            || area.Err?
            || (exists b :: b in p.volumes.Keys && b <= 0)
            || Over(p.counts, p.counts.Keys) > U64_MAX
  {
    CountsAreOver(p.counts, p.counts.Keys);
  }

  /** Exactly when the record of an active accumulator is refused. */
  lemma RefusedExactly(p: Builder, c: Config)
    requires Tidy(p) && p.session.Some?
    ensures Snapshot(p, c).Err? <==> Overflowing(p.session.value, p.volumes, p.counts, c)
  {
    var area := AreaFor(p.volumes, p.counts, c.basis, c.bps);
    AreaRefusedExactly(p.volumes, p.counts, c.basis, c.bps);
    RecordRefusedExactly(p, c, area);
    assert p.volumes.Keys == {} ==> !SomeTooHigh(p.volumes.Keys);
  }

  // ---- Refused once, refused for good ----

  predicate AtLeast(m: map<int, int>, m': map<int, int>, keys: set<int>) {
    forall b :: b in keys ==> Get(m, b) <= Get(m', b)
  }

  lemma OverflowingGrows(session: int, v: map<int, int>, n: map<int, int>, v': map<int, int>, n': map<int, int>,
          c: Config)
    requires v.Keys <= v'.Keys && n.Keys <= n'.Keys && n.Keys <= v.Keys
    requires AtLeast(v, v', v.Keys) && AtLeast(n, n', v.Keys) && NonNegative(v') && NonNegative(n')
    requires Overflowing(session, v, n, c)
    ensures Overflowing(session, v', n', c)
  {
    OverGrows(Amounts(v, n, c.basis), v.Keys, Amounts(v', n', c.basis), v'.Keys);
    OverGrows(n, n.Keys, n', n'.Keys);
    ScaleMonotone(c.bps, Activity(v, n, c.basis), Activity(v', n', c.basis));
    if SomeTooHigh(v.Keys) {
      var b :| b in v.Keys && TooHigh(b);
      assert b in v'.Keys;
    }
  }

  /** The session is active and its record would be refused. */
  predicate Refuses(p: Builder, c: Config) {
    p.session.Some? && Overflowing(p.session.value, p.volumes, Closed(p).counts, c)
  }

  lemma RefusesExactly(p: Builder, c: Config)
    requires Tidy(p) && p.session.Some?
    ensures Refuses(p, c) <==> Snapshot(Closed(p), c).Err?
  {
    CloseIsTidy(p);
    RefusedExactly(Closed(p), c);
  }

  lemma CloseIsTidy(p: Builder)
    requires Tidy(p)
    ensures Tidy(Closed(p)) && Closed(p).session == p.session && Closed(p).volumes == p.volumes
    ensures Closed(Closed(p)).counts == Closed(p).counts
  {
  }

  lemma AddIsTidy(p: Builder, bucket: int, price: int, units: int)
    requires Tidy(p) && 0 <= bucket && 0 < units
    ensures Tidy(Added(p, bucket, price, units))
  {
  }

  lemma CountsGrow(p: Builder, bucket: int, price: int, units: int)
    requires Tidy(p) && 0 <= bucket && 0 < units
    ensures var n, n' := Closed(p).counts, Closed(Added(p, bucket, price, units)).counts;
            n.Keys <= n'.Keys && n.Keys <= p.volumes.Keys && AtLeast(n, n', p.volumes.Keys) && NonNegative(n')
  {
  }

  /** Closing a period, or only moving the clock, does not help. */
  lemma ClosedRefuses(p: Builder, c: Config, tpo: Option<i64>, last: Option<i64>)
    requires Tidy(p) && Refuses(p, c)
    ensures Refuses(Closed(p).(tpoStart := tpo, last := last), c) && Refuses(p.(last := last), c)
  {
    CloseIsTidy(p);
  }

  /** Nor does another trade. */
  lemma AddedRefuses(p: Builder, c: Config, bucket: int, price: int, units: int, last: Option<i64>)
    requires Tidy(p) && Refuses(p, c) && 0 <= bucket && 0 < units
    ensures Refuses(Added(p, bucket, price, units).(last := last), c)
  {
    var q := Added(p, bucket, price, units);
    AddIsTidy(p, bucket, price, units);
    CountsGrow(p, bucket, price, units);
    OverflowingGrows(p.session.value, p.volumes, Closed(p).counts, q.volumes, Closed(q).counts, c);
  }

  /** A session that trades in the lowest bucket, which has no positive price, can never be
      recorded. */
  lemma LowestBucketRefuses(p: Builder, c: Config)
    requires p.session.Some? && 0 in p.volumes
    ensures Refuses(p, c)
  {
  }
}
