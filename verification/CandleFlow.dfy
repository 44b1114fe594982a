/** The candle-flow accumulator as the object whose nested tallies change in place. */
module CandleFlow {
  import opened Common
  import opened Grid
  import opened FlowModel

  class FlowBuilder {
    const config: Config
    var state: Builder

    constructor (config: Config)
      requires config.Valid()
      ensures this.config == config && state == Inactive(None)
    {
      this.config, state := config, Inactive(None);
    }

    /** Adds a trade with checked sums at the candle, the source and the level. A trade that passed
        the preflight never fails here. */
    method ApplyAdd(t: Trade) returns (r: Result<(), AnalyticsError>)
      requires config.Valid() && PreflightAdd(state, config, t).None? && 0 < t.units <= I128_MAX
      modifies this
      ensures r == Ok(()) && state == Added(old(state), t)
    {
      if state.count + 1 > U64_MAX || state.total + t.units > I128_MAX {
        return Err(ArithmeticOverflow);
      }
      state := state.(count := state.count + 1, total := state.total + t.units);
      state := state.(high := Some(Larger(state.high, t.price)), low := Some(Smaller(state.low, t.price)));
      var source := SourceAt(state, t.source);
      if !TallyFits(source.tally, t.side, t.units) {
        return Err(ArithmeticOverflow);
      }
      source := source.(tally := Plus(source.tally, OneTrade(t.side, t.units)));
      source := source.(high := Some(Larger(source.high, t.price)), low := Some(Smaller(source.low, t.price)));
      var level := if t.bucket in source.levels then source.levels[t.bucket] else Level(Zero, t.at, t.at);
      if !TallyFits(level.tally, t.side, t.units) {
        return Err(ArithmeticOverflow);
      }
      level := level.(tally := Plus(level.tally, OneTrade(t.side, t.units)), last := t.at);
      source := source.(levels := source.levels[t.bucket := level]);
      state := state.(sources := state.sources[t.source := source]);
      r := Ok(());
    }

    method TakeSnapshot() returns (r: Result<Candle, AnalyticsError>)
      ensures r == Snapshot(state, config)
    {
      if state.start.None? {
        return Err(CorruptSnapshot);
      }
      if state.start.value + config.time.candle > I64_MAX {
        return Err(ArithmeticOverflow);
      }
      if HasUnpricedLevel(state) {
        return Err(NonPositive);
      }
      r := Ok(Candle(state.start.value, state.start.value + config.time.candle, state.high, state.low,
                     state.total, state.count, state.sources));
    }

    method Ingest(i: Input) returns (r: Result<Option<Candle>, AnalyticsError>)
      requires config.Valid()
      modifies this
      ensures (state, r) == FlowModel.Ingest(old(state), config, i)
    {
      if i.instrument != config.instrument {
        return Err(InstrumentMismatch);
      }
      if state.last.Some? && i.at < state.last.value {
        return Err(LateTrade);
      }
      var t := ReadTrade(config, i);
      if t.Err? {
        return Err(t.error);
      }
      r := IngestRead(t.value);
    }

    method IngestRead(t: Trade) returns (r: Result<Option<Candle>, AnalyticsError>)
      requires config.Valid() && 0 < t.units <= I128_MAX
      modifies this
      ensures (state, r) == IngestTrade(old(state), config, t)
    {
      if state.start.Some? && t.candle < state.start.value {
        return Err(LateTrade);
      }
      if state.start.Some? && t.candle > state.start.value {
        var finished := TakeSnapshot();
        if finished.Err? {
          return Err(finished.error);
        }
        var error := PreflightAdd(Inactive(None), config, t);
        if error.Some? {
          return Err(error.value);
        }
        state := Inactive(Some(t.at)).(start := Some(t.candle));
        var _ := ApplyAdd(t);
        return Ok(Some(finished.value));
      }
      var error := PreflightAdd(state, config, t);
      if error.Some? {
        return Err(error.value);
      }
      state := state.(start := Some(t.candle));
      var _ := ApplyAdd(t);
      state := state.(last := Some(t.at));
      r := Ok(None);
    }

    method AdvanceTo(at: i64) returns (r: Result<Option<Candle>, AnalyticsError>)
      requires config.Valid()
      modifies this
      ensures (state, r) == FlowModel.AdvanceTo(old(state), config, at)
    {
      if state.last.Some? && at < state.last.value {
        return Err(LateTrade);
      }
      if state.start.None? {
        state := state.(last := Some(at));
        return Ok(None);
      }
      var target := CheckedStart(at, config.time.anchor, config.time.candle);
      if target.Err? {
        return Err(target.error);
      }
      if target.value <= state.start.value {
        state := state.(last := Some(at));
        return Ok(None);
      }
      var finished := TakeSnapshot();
      if finished.Err? {
        return Err(finished.error);
      }
      state := Inactive(Some(at));
      r := Ok(Some(finished.value));
    }

    method Finish() returns (r: Result<Option<Candle>, AnalyticsError>)
      requires config.Valid()
      modifies this
      ensures (state, r) == FlowModel.Finish(old(state), config)
    {
      if state.start.None? {
        return Ok(None);
      }
      var finished := TakeSnapshot();
      if finished.Err? {
        return Err(finished.error);
      }
      state := Inactive(state.last);
      r := Ok(Some(finished.value));
    }
  }
}
