/** A small run of the candle flow that reaches its exceptional state. */
module FlowExamples {
  import opened Common
  import opened Decimal
  import opened Grid
  import opened FlowModel
  import opened FlowRuns

  /** Ticks of one, ten to a bucket; candles of ten. */
  const Small := Config(GridSpec(0, 0, 1, 10), Timeframe(10, 10, 100, 0), 0, 10, 10, 10)

  /** One unit bought. */
  function Bought(at: i64, price: i128): Input {
    Input(0, 0, at, Fixed(price, 0), Fixed(1, 0), Buy)
  }

  lemma ReadSmall(at: i64, price: i128)
    requires 0 <= at < 10 && 0 < price
    ensures Small.Valid()
    ensures ReadTrade(Small, Bought(at, price)) == Ok(Trade(at, 0, 0, price / 10, price, 1, Buy))
  {
    assert PeriodStart(at, 0, 10) == 0;
    assert price % 1 == 0 && price / 1 == price;
  }

  lemma FirstTrade(c: Config, i: Input, t: Trade)
    requires c.Valid() && i.instrument == c.instrument && ReadTrade(c, i) == Ok(t) && t.units <= I128_MAX
    ensures Apply(Inactive(None), c, DoIngest(i))
         == (Added(Inactive(None).(start := Some(t.candle), last := Some(t.at)), t), Ok(None))
  {
  }

  lemma LowLevel(p: Builder, t: Trade)
    requires t.bucket <= 0 && p.start.Some?
    ensures Refuses(Added(p, t), Small)
  {
    assert t.source in Added(p, t).sources && t.bucket in Added(p, t).sources[t.source].levels;
  }

  /** A trade below the first full bucket is accepted, its candle is refused, and however the run goes on
      no candle is returned. */
  lemma LowTradeIsFatal(at: i64, price: i128, first: seq<Op>, more: seq<Op>)
    requires 0 <= at < 10 && 0 < price < 10 && first == [DoIngest(Bought(at, price))]
    ensures Small.Valid() && |Execute(Small, first).current| == 1
    ensures Refuses(Execute(Small, first).builder, Small) && Execute(Small, first + more).emitted == []
  {
    var t := Trade(at, 0, 0, price / 10, price, 1, Buy);
    ReadSmall(at, price);
    FirstTrade(Small, Bought(at, price), t);
    LowLevel(Inactive(None).(start := Some(0), last := Some(at)), t);
    assert first[..0] == [];
    NothingFollowsRefusal(Small, first, more);
  }
}
