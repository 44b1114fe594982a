/** Small runs of the session profile that reach its exceptional states. */
module ProfileExamples {
  import opened Common
  import opened Decimal
  import opened Grid
  import opened Ordering
  import opened ProfileBatch
  import opened ProfileModel
  import opened ProfileRefusals
  import opened ProfileRuns
  import opened ProfileSessions

  /** Ticks of one, ten to a bucket; sessions of 100 with periods of ten. */
  const Small := Config(GridSpec(0, 0, 1, 10), Timeframe(10, 10, 100, 0), Volume, 7_000, 10, 10)

  /** A trade of one unit in the first period of the first session. */
  function Buy(at: i64, price: i128): Op {
    DoIngest(at, Fixed(price, 0), Fixed(1, 0))
  }

  lemma ReadSmall(at: i64, price: i128)
    requires 0 <= at < 10 && 0 < price
    ensures Small.Valid()
    ensures ReadTrade(Small, at, Fixed(price, 0), Fixed(1, 0)) == Ok(Trade(at, price / 10, price, 1, 0, 0))
  {
    assert PeriodStart(at, 0, 100) == 0 && PeriodStart(at, 0, 10) == 0;
    assert price % 1 == 0 && price / 1 == price;
  }

  /** The accumulator after one such trade. */
  function OneTrade(at: i64, price: i128): Builder {
    Builder(Some(0), Some(0), Some(at), Some(price), Some(price), map[price / 10 := 1], map[], 1,
            {price / 10}, Some(price / 10), Some(price / 10), None, None, 0)
  }

  lemma FirstTrade(last: Option<i64>, at: i64, price: i128)
    requires Small.Valid() && 0 <= at < 10 && 0 < price && (last.Some? ==> last.value <= at)
    ensures Apply(Inactive(last), Small, Buy(at, price)) == (OneTrade(at, price), Ok(None))
  {
    ReadSmall(at, price);
    var t := Trade(at, price / 10, price, 1, 0, 0);
    var p := Inactive(last).(session := Some(0), tpoStart := Some(0), last := Some(at));
    assert map[][price / 10 := 1] == map[price / 10 := 1];
    assert Added(p, t.bucket, t.price, t.units) == OneTrade(at, price);
  }

  lemma OneTradeCloses(at: i64, price: i128)
    requires 0 < price
    ensures CloseFits(OneTrade(at, price)) && Tidy(OneTrade(at, price))
    ensures Closed(OneTrade(at, price)).counts == map[price / 10 := 1]
  {
    assert CountsPlus(map[], {price / 10}) == map[price / 10 := 1];
  }

  lemma OverOne(m: map<int, int>, k: int)
    ensures Over(m, {k}) == Get(m, k)
  {
    assert {k} - {k} == {};
  }

  /** A trade in a full bucket can be recorded. */
  lemma OneTradeIsRecorded(at: i64, price: i128)
    requires 10 <= price <= 1_000
    ensures Snapshot(Closed(OneTrade(at, price)), Small).Ok?
  {
    var p, b := OneTrade(at, price), price / 10;
    OneTradeCloses(at, price);
    OverOne(map[b := 1], b);
    assert map[b := 1].Keys == {b};
    assert !Overflowing(0, map[b := 1], map[b := 1], Small);
    RefusesExactly(p, Small);
  }

  lemma OneCall(ops: seq<Op>, op: Op)
    requires Small.Valid()
    ensures Execute(Small, ops + [op]) == Next(Small, Execute(Small, ops), op)
  {
    assert (ops + [op])[..|ops|] == ops;
  }

  lemma FirstCall(at: i64, price: i128)
    requires Small.Valid() && 0 <= at < 10 && 0 < price
    ensures Execute(Small, [Buy(at, price)]).builder == OneTrade(at, price)
        && Execute(Small, [Buy(at, price)]).emitted == []
  {
    assert [Buy(at, price)][..0] == [];
    FirstTrade(None, at, price);
  }

  // ---- One session returned twice ----

  const Twice := [Buy(5, 15), DoFinish, Buy(6, 15)]

  lemma FinishReturns(p: Builder, c: Config)
    requires p.session.Some? && CloseFits(p) && Snapshot(Closed(p), c).Ok?
    ensures Finish(p, c) == (Inactive(p.last), Ok(Some(Snapshot(Closed(p), c).value)))
    ensures Snapshot(Closed(p), c).value.start == p.session.value
    ensures Snapshot(Closed(p), c).value.end == p.session.value + c.time.session
  {
    SnapshotStart(p, c, Snapshot(Closed(p), c).value);
  }

  lemma OneIsFinished(h: History, at: i64, price: i128)
    requires Small.Valid() && h.builder == OneTrade(at, price) && 10 <= price <= 1_000
    ensures var h' := Next(Small, h, DoFinish);
            && h'.builder == Inactive(Some(at)) && |h'.emitted| == |h.emitted| + 1
            && h'.emitted[..|h.emitted|] == h.emitted
            && h'.emitted[|h.emitted|].0.start == 0 && h'.emitted[|h.emitted|].0.end == 100
  {
    OneTradeIsRecorded(at, price);
    OneTradeCloses(at, price);
    FinishReturns(h.builder, Small);
  }

  lemma FirstFinish()
    requires Small.Valid()
    ensures var h := Execute(Small, [Buy(5, 15), DoFinish]);
            h.builder == Inactive(Some(5)) && |h.emitted| == 1 && h.emitted[0].0.start == 0 && h.emitted[0].0.end == 100
  {
    FirstCall(5, 15);
    OneCall([Buy(5, 15)], DoFinish);
    assert [Buy(5, 15)] + [DoFinish] == [Buy(5, 15), DoFinish];
    OneIsFinished(Execute(Small, [Buy(5, 15)]), 5, 15);
  }

  /** A trade, a finish and another trade of the same session: the session is current again after it
      was returned, and another finish returns it again. */
  lemma FinishedSessionIsResumed()
    ensures Small.Valid() && !NeverResumes(Small, Twice) && !EachOnce(Execute(Small, Twice))
    ensures var h := Execute(Small, Twice + [DoFinish]);
            |h.emitted| == 2 && h.emitted[0].0.start == h.emitted[1].0.start == 0
  {
    ReadSmall(5, 15);
    FirstFinish();
    FirstTrade(Some(5), 6, 15);
    var h := Execute(Small, Twice[..2]);
    assert Twice[..2] == [Buy(5, 15), DoFinish];
    assert Resumes(Small, h, Twice[2]);
    OnceExactly(Small, Twice);
    OneCall(Twice, DoFinish);
    OneIsFinished(Execute(Small, Twice), 6, 15);
  }

  // ---- A half close ----

  lemma LowTradeHalfCloses(p: Builder)
    requires Small.Valid() && p == OneTrade(5, 3)
    ensures Tidy(p) && HalfCloses(p, Small, DoAdvance(100)) && p.open != {}
  {
    OneTradeCloses(5, 3);
    LowestBucketRefuses(p, Small);
  }

  /** A trade at price 3, below the first full bucket, and an advance to the end of the session: the
      advance fails and leaves the period closed. */
  lemma LowPriceHalfCloses()
    ensures Small.Valid()
    ensures var p := Execute(Small, [Buy(5, 3)]).builder;
            && HalfCloses(p, Small, DoAdvance(100)) && p.open != {}
            && Apply(p, Small, DoAdvance(100)).1.Err? && Apply(p, Small, DoAdvance(100)).0 != p
  {
    ReadSmall(5, 3);
    FirstCall(5, 3);
    var p := Execute(Small, [Buy(5, 3)]).builder;
    LowTradeHalfCloses(p);
    HalfCloseFails(p, Small, DoAdvance(100));
  }

  /** What the failed advance leaves: the period is closed, and its level counted once. */
  predicate HalfClosed(q: Builder) {
    && q.session == Some(0) && q.tpoStart == Some(0) && q.last == Some(5)
    && q.open == {} && q.volumes == map[0 := 1] && q.total == 1 && q.counts == map[0 := 1]
  }

  lemma FailedCall(ops: seq<Op>, op: Op, p: Builder)
    requires Small.Valid() && Execute(Small, ops).builder == p && Tidy(p) && HalfCloses(p, Small, op)
    ensures Execute(Small, ops + [op]).builder == Closed(p)
  {
    OneCall(ops, op);
    HalfCloseFails(p, Small, op);
  }

  lemma CloseLow(p: Builder)
    requires p == OneTrade(5, 3)
    ensures HalfClosed(Closed(p))
  {
    OneTradeCloses(5, 3);
  }

  lemma LowCall(ops: seq<Op>, op: Op)
    requires Small.Valid() && Execute(Small, ops).builder == OneTrade(5, 3) && op == DoAdvance(100)
    ensures HalfClosed(Execute(Small, ops + [op]).builder)
  {
    var p := Execute(Small, ops).builder;
    CloseLow(p);
    LowTradeHalfCloses(p);
    FailedCall(ops, op, p);
  }

  lemma LowRun(first: Op, second: Op)
    requires Small.Valid() && first == Buy(5, 3) && second == DoAdvance(100)
    ensures HalfClosed(Execute(Small, [first] + [second]).builder)
  {
    FirstCall(5, 3);
    LowCall([first], second);
  }

  lemma SecondIsAccepted(q: Builder, t: Trade)
    requires HalfClosed(q) && t == Trade(6, 0, 3, 1, 0, 0)
    ensures IngestTrade(q, Small, t).1 == Ok(None)
  {
    assert q.volumes.Keys == {0} && |q.volumes| == 1;
    assert PreflightAdd(q, Small, 0, 1, false) == None;
  }

  lemma SecondIsCounted(q: Builder, op: Op)
    requires Small.Valid() && HalfClosed(q) && op == Buy(6, 3)
    ensures var (p, r) := Apply(q, Small, op); r == Ok(None) && Get(Closed(p).counts, 0) == 2
  {
    ReadSmall(6, 3);
    var t := Trade(6, 0, 3, 1, 0, 0);
    SecondIsAccepted(q, t);
    SameSession(q, Small, t);
    AddThenClose(q, t);
  }

  lemma CountedCall(ops: seq<Op>, op: Op)
    requires Small.Valid() && HalfClosed(Execute(Small, ops).builder) && op == Buy(6, 3)
    ensures Get(Closed(Execute(Small, ops + [op]).builder).counts, 0) == 2
  {
    SecondIsCounted(Execute(Small, ops).builder, op);
    OneCall(ops, op);
  }

  /** Another trade at price 3 in the same period is then counted a second time for it. */
  lemma LowPriceCountsTwice()
    ensures Small.Valid()
    ensures Get(Closed(Execute(Small, [Buy(5, 3)] + [DoAdvance(100)] + [Buy(6, 3)]).builder).counts, 0) == 2
  {
    ReadSmall(5, 3);
    LowRun(Buy(5, 3), DoAdvance(100));
    CountedCall([Buy(5, 3)] + [DoAdvance(100)], Buy(6, 3));
  }
}
