/** Whole runs of the candle-flow accumulator: what the live candle and every returned one hold. */
module FlowRuns {
  import opened Common
  import opened FlowModel

  datatype Op = DoIngest(input: Input) | DoAdvance(at: i64) | DoFinish

  function Apply(p: Builder, c: Config, op: Op): Step
    requires c.Valid()
  {
    match op
    case DoIngest(i) => Ingest(p, c, i)
    case DoAdvance(at) => AdvanceTo(p, c, at)
    case DoFinish => Finish(p, c)
  }

  /** A run: the accumulator, the candles it returned with the trades accepted for each, and the
      trades accepted since. */
  datatype History = History(builder: Builder, emitted: seq<(Candle, seq<Trade>)>, current: seq<Trade>)

  function Next(c: Config, h: History, op: Op): History
    requires c.Valid()
  {
    var (p, r) := Apply(h.builder, c, op);
    if r.Err? then h.(builder := p)
    else
      var accepted := if op.DoIngest? then [ReadTrade(c, op.input).value] else [];
      if r.value.None? then History(p, h.emitted, h.current + accepted)
      else History(p, h.emitted + [(r.value.value, h.current)], accepted)
  }

  function Execute(c: Config, ops: seq<Op>): History
    requires c.Valid()
  {
    if ops == [] then History(Inactive(None), [], []) else Next(c, Execute(c, ops[..|ops| - 1]), ops[|ops| - 1])
  }

  /** A failed call changes nothing: preflight comes before every change. */
  lemma FailuresChangeNothing(p: Builder, c: Config, op: Op)
    requires c.Valid() && Apply(p, c, op).1.Err?
    ensures Apply(p, c, op).0 == p
  {
  }

  /** A candle's figures balance, it holds exactly these trades, and they are all its own. */
  ghost predicate IsCandleOf(start: int, total: int, count: int, sources: map<int, Source>, ts: seq<Trade>) {
    && Conserves(total, count, sources)
    && HoldsTrades(sources, ts)
    && total == UnitsOf(ts) && count == |ts|
    && (forall i :: 0 <= i < |ts| ==> ts[i].candle == start && ts[i].units > 0)
  }

  ghost predicate CurrentIsExact(h: History) {
    var p := h.builder;
    if p.start.None? then p == Inactive(p.last) && h.current == []
    else IsCandleOf(p.start.value, p.total, p.count, p.sources, h.current)
  }

  ghost predicate EmittedIsExact(e: (Candle, seq<Trade>)) {
    IsCandleOf(e.0.start, e.0.total, e.0.count, e.0.sources, e.1)
  }

  lemma ReadTradeUnits(c: Config, i: Input)
    requires c.Valid() && ReadTrade(c, i).Ok?
    ensures ReadTrade(c, i).value.units > 0
  {
  }

  lemma AddedIsCandle(p: Builder, ts: seq<Trade>, t: Trade)
    requires p.start == Some(t.candle) && IsCandleOf(t.candle, p.total, p.count, p.sources, ts) && t.units > 0
    ensures var p' := Added(p, t); IsCandleOf(t.candle, p'.total, p'.count, p'.sources, ts + [t])
  {
    AddedConserves(p, t);
    AddedHolds(p, ts, t);
    assert (ts + [t])[..|ts|] == ts;
  }

  lemma EmptyIsCandle(start: int)
    ensures IsCandleOf(start, 0, 0, map[], [])
  {
    InactiveConserves(None);
    assert forall s, b :: TallyAt(map[], s, b) == TallyOf([], s, b);
  }

  /** How a trade is added: to the candle it belongs to, which may be a new one. */
  lemma TradeStep(c: Config, p: Builder, t: Trade)
    requires IngestTrade(p, c, t).1.Ok?
    ensures var (p', r) := IngestTrade(p, c, t);
            if r.value.Some?
            then Snapshot(p, c) == Ok(r.value.value) && p' == Added(Inactive(Some(t.at)).(start := Some(t.candle)), t)
            else
              && p' == Added(p.(start := Some(t.candle), last := Some(t.at)), t)
              && (p.start.Some? ==> p.start == Some(t.candle))
  {
  }

  lemma IngestExact(c: Config, h: History, i: Input)
    requires c.Valid() && CurrentIsExact(h) && Ingest(h.builder, c, i).1.Ok?
    ensures CurrentIsExact(Next(c, h, DoIngest(i)))
  {
    var p, t := h.builder, ReadTrade(c, i).value;
    ReadTradeUnits(c, i);
    TradeStep(c, p, t);
    if IngestTrade(p, c, t).1.value.Some? {
      EmptyIsCandle(t.candle);
      assert [] + [t] == [t];
      AddedIsCandle(Inactive(Some(t.at)).(start := Some(t.candle)), [], t);
    } else {
      if p.start.None? { EmptyIsCandle(t.candle); }
      AddedIsCandle(p.(start := Some(t.candle), last := Some(t.at)), h.current, t);
    }
  }

  lemma CurrentKept(c: Config, h: History, op: Op)
    requires c.Valid() && CurrentIsExact(h)
    ensures CurrentIsExact(Next(c, h, op))
  {
    if Apply(h.builder, c, op).1.Err? {
      FailuresChangeNothing(h.builder, c, op);
    } else if op.DoIngest? {
      IngestExact(c, h, op.input);
    } else {
      assert h.current + [] == h.current;
    }
  }

  lemma ReturnedIsSnapshot(p: Builder, c: Config, op: Op)
    requires c.Valid() && Apply(p, c, op).1.Ok? && Apply(p, c, op).1.value.Some?
    ensures Snapshot(p, c) == Ok(Apply(p, c, op).1.value.value)
  {
  }

  /** In every run the live candle and every returned one balance at all three levels and hold
      exactly the trades accepted for them. */
  lemma {:induction false} RunsConserve(c: Config, ops: seq<Op>)
    requires c.Valid()
    ensures CurrentIsExact(Execute(c, ops))
    ensures forall i :: 0 <= i < |Execute(c, ops).emitted| ==> EmittedIsExact(Execute(c, ops).emitted[i])
  {
    if ops != [] {
      var h, op := Execute(c, ops[..|ops| - 1]), ops[|ops| - 1];
      RunsConserve(c, ops[..|ops| - 1]);
      CurrentKept(c, h, op);
      var r := Apply(h.builder, c, op).1;
      if r.Ok? && r.value.Some? {
        ReturnedIsSnapshot(h.builder, c, op);
        assert EmittedIsExact((r.value.value, h.current));
      }
    }
  }

  function EmittedTotal(es: seq<(Candle, seq<Trade>)>): int {
    if es == [] then 0 else EmittedTotal(es[..|es| - 1]) + es[|es| - 1].0.total
  }

  /** The accepted trades, in order. */
  function Accepted(c: Config, ops: seq<Op>): seq<Trade>
    requires c.Valid()
  {
    if ops == [] then []
    else
      var prior, op := ops[..|ops| - 1], ops[|ops| - 1];
      if op.DoIngest? && Apply(Execute(c, prior).builder, c, op).1.Ok?
      then Accepted(c, prior) + [ReadTrade(c, op.input).value] else Accepted(c, prior)
  }

  /** Nothing is lost between candles: the returned totals and the live total are the sum of all
      accepted quantities. */
  lemma {:induction false} TotalsConserve(c: Config, ops: seq<Op>)
    requires c.Valid()
    ensures EmittedTotal(Execute(c, ops).emitted) + Execute(c, ops).builder.total == UnitsOf(Accepted(c, ops))
  {
    if ops != [] {
      var prior, op := ops[..|ops| - 1], ops[|ops| - 1];
      var h := Execute(c, prior);
      TotalsConserve(c, prior);
      TotalStep(c, h, op);
      var all := Accepted(c, prior);
      if op.DoIngest? && Apply(h.builder, c, op).1.Ok? {
        var t := ReadTrade(c, op.input).value;
        assert (all + [t])[..|all|] == all;
      }
    }
  }

  lemma TotalStep(c: Config, h: History, op: Op)
    requires c.Valid()
    ensures var h' := Next(c, h, op);
            EmittedTotal(h'.emitted) + h'.builder.total == EmittedTotal(h.emitted) + h.builder.total
              + if op.DoIngest? && Apply(h.builder, c, op).1.Ok? then ReadTrade(c, op.input).value.units else 0
  {
    var (p, r) := Apply(h.builder, c, op);
    if r.Err? {
      FailuresChangeNothing(h.builder, c, op);
    } else {
      if op.DoIngest? { TradeStep(c, h.builder, ReadTrade(c, op.input).value); }
      if r.value.Some? {
        ReturnedIsSnapshot(h.builder, c, op);
        assert (h.emitted + [(r.value.value, h.current)])[..|h.emitted|] == h.emitted;
      }
    }
  }

  // ---- A candle that cannot be recorded ----

  /** The candle is active, and its end overflows or a trade was in the bucket of no positive price. */
  predicate Refuses(p: Builder, c: Config) {
    p.start.Some? && (p.start.value + c.time.candle > I64_MAX || HasUnpricedLevel(p))
  }

  predicate SomeLow(ts: seq<Trade>) {
    exists i :: 0 <= i < |ts| && ts[i].bucket <= 0
  }

  lemma AddedLow(p: Builder, t: Trade, start: Option<i64>, last: Option<i64>)
    ensures HasUnpricedLevel(Added(p.(start := start, last := last), t)) <==> HasUnpricedLevel(p) || t.bucket <= 0
  {
    var p' := Added(p.(start := start, last := last), t);
    if HasUnpricedLevel(p) {
      var s :| s in p.sources && exists b :: b in p.sources[s].levels && b <= 0;
      var b :| b in p.sources[s].levels && b <= 0;
      assert s in p'.sources && b in p'.sources[s].levels;
    }
    if t.bucket <= 0 { assert t.source in p'.sources && t.bucket in p'.sources[t.source].levels; }
    if HasUnpricedLevel(p') {
      var s :| s in p'.sources && exists b :: b in p'.sources[s].levels && b <= 0;
      var b :| b in p'.sources[s].levels && b <= 0;
      assert (s == t.source && b == t.bucket) || (s in p.sources && b in p.sources[s].levels);
    }
  }

  lemma OneMoreLow(ts: seq<Trade>, t: Trade)
    ensures SomeLow(ts + [t]) <==> SomeLow(ts) || t.bucket <= 0
  {
    if SomeLow(ts) {
      var i :| 0 <= i < |ts| && ts[i].bucket <= 0;
      assert (ts + [t])[i] == ts[i];
    }
    assert (ts + [t])[|ts|] == t;
  }

  /** Exactly the low trades of the current candle leave an unpriced level. */
  predicate LowIsKnown(h: History) {
    HasUnpricedLevel(h.builder) <==> SomeLow(h.current)
  }

  lemma LowKept(c: Config, h: History, op: Op)
    requires c.Valid() && LowIsKnown(h) && CurrentIsExact(h)
    ensures LowIsKnown(Next(c, h, op))
  {
    var p := h.builder;
    if Apply(p, c, op).1.Err? {
      FailuresChangeNothing(p, c, op);
    } else if op.DoIngest? {
      var t := ReadTrade(c, op.input).value;
      TradeStep(c, p, t);
      OneMoreLow(h.current, t);
      OneMoreLow([], t);
      assert [] + [t] == [t];
      AddedLow(p, t, Some(t.candle), Some(t.at));
      AddedLow(Inactive(None), t, Some(t.candle), Some(t.at));
    } else {
      assert h.current + [] == h.current;
    }
  }

  lemma {:induction false} RunsKnowLow(c: Config, ops: seq<Op>)
    requires c.Valid()
    ensures LowIsKnown(Execute(c, ops))
  {
    if ops != [] {
      RunsKnowLow(c, ops[..|ops| - 1]);
      RunsConserve(c, ops[..|ops| - 1]);
      LowKept(c, Execute(c, ops[..|ops| - 1]), ops[|ops| - 1]);
    }
  }

  /** In every run the current candle can be recorded exactly when its end fits the clock and no trade
      accepted for it lies below the first full bucket. */
  lemma RecordableExactly(c: Config, ops: seq<Op>)
    requires c.Valid() && Execute(c, ops).builder.start.Some?
    ensures var h := Execute(c, ops);
            Snapshot(h.builder, c).Err? <==> h.builder.start.value + c.time.candle > I64_MAX || SomeLow(h.current)
  {
    RunsKnowLow(c, ops);
  }

  /** A candle that cannot be recorded stays current, and no candle is returned any more. */
  lemma RefusedForever(c: Config, h: History, op: Op)
    requires c.Valid() && Refuses(h.builder, c)
    ensures var h' := Next(c, h, op);
            h'.builder.start == h.builder.start && Refuses(h'.builder, c) && h'.emitted == h.emitted
  {
    var p := h.builder;
    if Apply(p, c, op).1.Err? {
      FailuresChangeNothing(p, c, op);
    } else if op.DoIngest? {
      var t := ReadTrade(c, op.input).value;
      TradeStep(c, p, t);
      AddedLow(p, t, Some(t.candle), Some(t.at));
    }
  }

  /** However a run goes on after a low trade, it returns no further candle. */
  lemma {:induction false} NothingFollowsRefusal(c: Config, ops: seq<Op>, more: seq<Op>)
    requires c.Valid() && Refuses(Execute(c, ops).builder, c)
    ensures Execute(c, ops + more).emitted == Execute(c, ops).emitted && Refuses(Execute(c, ops + more).builder, c)
    decreases |more|
  {
    if more == [] {
      assert ops + more == ops;
    } else {
      var before, last := ops + more[..|more| - 1], more[|more| - 1];
      NothingFollowsRefusal(c, ops, more[..|more| - 1]);
      RefusedForever(c, Execute(c, before), last);
      assert (ops + more)[..|ops + more| - 1] == before && (ops + more)[|ops + more| - 1] == last;
    }
  }
}
