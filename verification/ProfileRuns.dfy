/** Whole runs of the session profile: which trades each returned profile is made of. */
module ProfileRuns {
  import opened Common
  import opened Decimal
  import opened Grid
  import opened ProfileBatch
  import opened ProfileModel
  import opened ProfileRefusals

  datatype Op = DoIngest(at: i64, price: Fixed, quantity: Fixed) | DoAdvance(at: i64) | DoFinish

  /** The accumulator, the profiles it returned with the trades accepted for each, and the trades
      accepted since. */
  datatype History = History(builder: Builder, emitted: seq<(Profile, seq<Trade>)>, current: seq<Trade>)

  function Apply(p: Builder, c: Config, op: Op): ProfileModel.Step
    requires c.Valid()
  {
    match op
    case DoIngest(at, price, quantity) => Ingest(p, c, at, price, quantity)
    case DoAdvance(at) => AdvanceTo(p, c, at)
    case DoFinish => Finish(p, c)
  }

  /** The trades that a successful call accepts. */
  function TradesOf(c: Config, op: Op): seq<Trade>
    requires c.Valid()
  {
    if op.DoIngest? && ReadTrade(c, op.at, op.price, op.quantity).Ok?
    then [ReadTrade(c, op.at, op.price, op.quantity).value] else []
  }

  function Next(c: Config, h: History, op: Op): History
    requires c.Valid()
  {
    var (p, r) := Apply(h.builder, c, op);
    if r.Err? then h.(builder := p)
    else if r.value.None? then History(p, h.emitted, h.current + TradesOf(c, op))
    else History(p, h.emitted + [(r.value.value, h.current)], TradesOf(c, op))
  }

  function Execute(c: Config, ops: seq<Op>): History
    requires c.Valid()
  {
    if ops == [] then History(Inactive(None), [], []) else Next(c, Execute(c, ops[..|ops| - 1]), ops[|ops| - 1])
  }

  // ---- When a failed call changes something ----

  /** The call ends the session: a finish, or an advance that reaches its end. */
  predicate Ends(p: Builder, c: Config, op: Op) {
    && p.session.Some?
    && match op
       case DoIngest(_, _, _) => false
       case DoAdvance(at) => !Late(p, at) && p.session.value + c.time.session <= at
       case DoFinish => true
  }

  /** The session ends and its TPO can be closed, but its record is refused. */
  predicate HalfCloses(p: Builder, c: Config, op: Op) {
    Ends(p, c, op) && CloseFits(p) && Refuses(p, c)
  }

  lemma FailureLeaves(p: Builder, c: Config, op: Op)
    requires c.Valid() && Tidy(p) && Apply(p, c, op).1.Err?
    ensures Apply(p, c, op).0 == if HalfCloses(p, c, op) then Closed(p) else p
  {
    if p.session.Some? { RefusesExactly(p, c); }
    match op
    case DoIngest(_, _, _) => IngestLeaves(p, c, op);
    case DoAdvance(at) => AdvanceLeaves(p, c, at);
    case DoFinish => FinishLeaves(p, c);
  }

  lemma IngestLeaves(p: Builder, c: Config, op: Op)
    requires c.Valid() && op.DoIngest? && Apply(p, c, op).1.Err?
    ensures Apply(p, c, op).0 == p
  {
  }

  lemma AdvanceLeaves(p: Builder, c: Config, at: i64)
    requires c.Valid() && AdvanceTo(p, c, at).1.Err?
    ensures AdvanceTo(p, c, at).0
         == if Ends(p, c, DoAdvance(at)) && CloseFits(p) && Snapshot(Closed(p), c).Err? then Closed(p) else p
  {
  }

  lemma FinishLeaves(p: Builder, c: Config)
    requires Finish(p, c).1.Err?
    ensures Finish(p, c).0 == if CloseFits(p) && Snapshot(Closed(p), c).Err? then Closed(p) else p
  {
  }

  lemma HalfCloseFails(p: Builder, c: Config, op: Op)
    requires c.Valid() && Tidy(p) && HalfCloses(p, c, op)
    ensures Apply(p, c, op).1.Err? && Apply(p, c, op).0 == Closed(p) && (p.open != {} ==> Closed(p) != p)
  {
    RefusesExactly(p, c);
    if op.DoAdvance? { AdvanceEnds(p, c, op.at); }
  }

  lemma AdvanceEnds(p: Builder, c: Config, at: i64)
    requires c.Valid() && Ends(p, c, DoAdvance(at)) && CloseFits(p) && Snapshot(Closed(p), c).Err?
    ensures AdvanceTo(p, c, at).1.Err? && AdvanceTo(p, c, at).0 == Closed(p)
  {
  }

  /** A failed call changes nothing, unless it ends a session that has an open period and whose
      record is refused. */
  lemma FailuresChangeNothing(p: Builder, c: Config, op: Op)
    requires c.Valid() && Tidy(p) && Apply(p, c, op).1.Err?
    requires p.open == {} ==> p.openHigh.None? && p.openLow.None?
    ensures Apply(p, c, op).0 == p <==> !(HalfCloses(p, c, op) && p.open != {})
  {
    FailureLeaves(p, c, op);
  }

  /** What a half close costs: when a level that traded in the open period trades in it again, it is
      counted twice for that one period. */
  lemma HalfClosedCountsTwice(p: Builder, c: Config, ts: seq<Trade>, op: Op, again: Op)
    requires c.Valid() && Tidy(p) && Represents(p, ts) && HalfCloses(p, c, op)
    requires again.DoIngest? && Apply(Apply(p, c, op).0, c, again).1.Ok?
    requires var t := ReadTrade(c, again.at, again.price, again.quantity).value;
             p.session == Some(t.session) && p.tpoStart == Some(t.tpo) && t.bucket in p.open
    ensures var t := ReadTrade(c, again.at, again.price, again.quantity).value;
            var p' := Apply(Apply(p, c, op).0, c, again).0;
            Get(Closed(p').counts, t.bucket) == Get(Counts(ts + [t], {}), t.bucket) + 1
  {
    var t := ReadTrade(c, again.at, again.price, again.quantity).value;
    HalfCloseFails(p, c, op);
    SameSession(Closed(p), c, t);
    CloseHoldsAll(p, ts);
    SameCountAgain(ts, t);
    CountedIffTraded(ts, t.bucket, {});
    CountedIffTraded(ts + [t], t.bucket, {});
    AddThenClose(Closed(p), t);
  }

  lemma SameSession(p: Builder, c: Config, t: Trade)
    requires p.session == Some(t.session) && p.tpoStart == Some(t.tpo) && IngestTrade(p, c, t).1.Ok?
    ensures IngestTrade(p, c, t).0 == Added(p, t.bucket, t.price, t.units).(last := Some(t.at))
  {
  }

  lemma SameCountAgain(ts: seq<Trade>, t: Trade)
    requires t.bucket in Traded(ts, t.tpo)
    ensures CountAt(ts + [t], t.bucket, {}) == CountAt(ts, t.bucket, {}) > 0
  {
    OneMorePeriod(ts, t, t.bucket);
    TradedIffPeriod(ts, t.bucket, t.tpo);
    assert Periods(ts + [t], t.bucket) - {} == Periods(ts, t.bucket) - {};
    assert t.tpo in Periods(ts, t.bucket) - {};
  }

  lemma AddThenClose(q: Builder, t: Trade)
    ensures Get(Closed(Added(q, t.bucket, t.price, t.units).(last := Some(t.at))).counts, t.bucket)
         == Get(q.counts, t.bucket) + 1
  {
    assert t.bucket in Added(q, t.bucket, t.price, t.units).open;
  }

  /** No call of the run half closes. */
  predicate Clean(c: Config, ops: seq<Op>)
    requires c.Valid()
  {
    ops != [] ==>
      && Clean(c, ops[..|ops| - 1])
      && !HalfCloses(Execute(c, ops[..|ops| - 1]).builder, c, ops[|ops| - 1])
  }

  // ---- The kinds of step ----

  /** A trade that has been read, and was not late. */
  predicate Timely(c: Config, h: History, t: Trade)
    requires c.Valid()
  {
    && 0 <= t.bucket && 0 < t.units
    && t.session == PeriodStart(t.at, c.time.anchor, c.time.session)
    && (h.builder.last.Some? ==> h.builder.last.value <= t.at)
  }

  /** The first trade after idle time. */
  predicate Starts(h: History, h': History, t: Trade) {
    && h.builder.session.None?
    && h' == History(Added(h.builder.(session := Some(t.session), tpoStart := Some(t.tpo), last := Some(t.at)),
                           t.bucket, t.price, t.units),
                     h.emitted, h.current + [t])
  }

  /** A trade of a later session: the current one is returned and the trade starts the next. */
  predicate RollsOver(c: Config, h: History, h': History, t: Trade, r: Profile) {
    && h.builder.session.Some? && h.builder.session.value < t.session
    && Snapshot(Closed(h.builder), c) == Ok(r)
    && h' == History(StartedWith(t), h.emitted + [(r, h.current)], [t])
  }

  /** The accumulator ready for a trade in `period`. */
  function ReadyFor(p: Builder, period: i64): Builder
    requires p.tpoStart.Some?
  {
    if period > p.tpoStart.value then Closed(p).(tpoStart := Some(period)) else p
  }

  function AfterTrade(p: Builder, t: Trade): Builder
    requires p.tpoStart.Some?
  {
    Added(ReadyFor(p, t.tpo), t.bucket, t.price, t.units).(last := Some(t.at))
  }

  function AfterMove(p: Builder, period: i64, at: i64): Builder
    requires p.tpoStart.Some?
  {
    ReadyFor(p, period).(last := Some(at))
  }

  /** A trade of the current session, in its current or a later period. */
  predicate Continues(h: History, h': History, t: Trade) {
    && h.builder.session == Some(t.session) && h.builder.tpoStart.Some? && h.builder.tpoStart.value <= t.tpo
    && h' == History(AfterTrade(h.builder, t), h.emitted, h.current + [t])
  }

  /** The session is returned, and the clock is left at `last`. */
  predicate Finishes(c: Config, h: History, h': History, r: Profile, last: Option<i64>) {
    && h.builder.session.Some?
    && Snapshot(Closed(h.builder), c) == Ok(r)
    && h' == History(Inactive(last), h.emitted + [(r, h.current)], [])
  }

  /** Event time moves on while idle, or within the session, to `period`. */
  predicate Moves(h: History, h': History, at: i64, period: i64) {
    && (h.builder.last.Some? ==> h.builder.last.value <= at)
    && h' == h.(builder := h'.builder)
    && if h.builder.session.None? then h'.builder == h.builder.(last := Some(at))
       else h.builder.tpoStart.Some? && h'.builder == AfterMove(h.builder, period, at)
  }

  /** The history after a trade that has been read and is not late. */
  function WithTrade(c: Config, h: History, t: Trade): History {
    var (p, r) := IngestTrade(h.builder, c, t);
    if r.Err? then h
    else if r.value.None? then History(p, h.emitted, h.current + [t])
    else History(p, h.emitted + [(r.value.value, h.current)], [t])
  }

  lemma StartKind(c: Config, h: History, t: Trade)
    requires IngestTrade(h.builder, c, t).1.Ok? && h.builder.session.None?
    ensures Starts(h, WithTrade(c, h, t), t)
  {
  }

  lemma RolloverKind(c: Config, h: History, t: Trade)
    requires IngestTrade(h.builder, c, t).1.Ok? && h.builder.session.Some? && h.builder.session.value < t.session
    ensures Snapshot(Closed(h.builder), c).Ok?
    ensures RollsOver(c, h, WithTrade(c, h, t), t, Snapshot(Closed(h.builder), c).value)
  {
    assert IngestTrade(h.builder, c, t) == RolledOver(h.builder, c, t, Snapshot(Closed(h.builder), c));
  }

  lemma SameSessionKind(c: Config, h: History, t: Trade)
    requires IngestTrade(h.builder, c, t).1.Ok? && h.builder.session.Some? && t.session <= h.builder.session.value
    ensures Continues(h, WithTrade(c, h, t), t)
  {
  }

  lemma TradeKinds(c: Config, h: History, t: Trade) returns (rs: seq<Profile>)
    requires IngestTrade(h.builder, c, t).1.Ok?
    ensures var h' := WithTrade(c, h, t);
            if rs == [] then Starts(h, h', t) || Continues(h, h', t) else RollsOver(c, h, h', t, rs[0])
  {
    rs := [];
    if h.builder.session.None? {
      StartKind(c, h, t);
    } else if t.session <= h.builder.session.value {
      SameSessionKind(c, h, t);
    } else {
      RolloverKind(c, h, t);
      rs := [Snapshot(Closed(h.builder), c).value];
    }
  }

  lemma ReadTradeIs(c: Config, at: i64, price: Fixed, quantity: Fixed)
    requires c.Valid() && ReadTrade(c, at, price, quantity).Ok?
    ensures var t := ReadTrade(c, at, price, quantity).value;
            && t.at == at && 0 <= t.bucket && 0 < t.units
            && t.session == PeriodStart(at, c.time.anchor, c.time.session)
  {
    TickRoundTrip(c.grid, price);
  }

  lemma ReadIsTimely(c: Config, h: History, op: Op)
    requires c.Valid() && op.DoIngest? && Apply(h.builder, c, op).1.Ok?
    ensures TradesOf(c, op) != [] && Timely(c, h, TradesOf(c, op)[0]) && TradesOf(c, op)[0].at == op.at
    ensures Apply(h.builder, c, op) == IngestTrade(h.builder, c, TradesOf(c, op)[0])
  {
    ReadTradeIs(c, op.at, op.price, op.quantity);
  }

  /** Every accepted trade is one of these steps; `rs` is what it returns. */
  lemma IngestKinds(c: Config, h: History, op: Op) returns (t: Trade, rs: seq<Profile>)
    requires c.Valid() && op.DoIngest? && Apply(h.builder, c, op).1.Ok?
    ensures TradesOf(c, op) == [t] && t.at == op.at && Timely(c, h, t)
    ensures var h' := Next(c, h, op);
            if rs == [] then Starts(h, h', t) || Continues(h, h', t) else RollsOver(c, h, h', t, rs[0])
  {
    ReadIsTimely(c, h, op);
    t := TradesOf(c, op)[0];
    assert Next(c, h, op) == WithTrade(c, h, t);
    rs := TradeKinds(c, h, t);
  }

  /** So is every other accepted call; a finish while idle does nothing. */
  lemma OtherKinds(c: Config, h: History, op: Op) returns (rs: seq<Profile>, period: i64)
    requires c.Valid() && !op.DoIngest? && Apply(h.builder, c, op).1.Ok?
    ensures var h' := Next(c, h, op);
            if rs != []
            then Ends(h.builder, c, op)
                 && Finishes(c, h, h', rs[0], if op.DoAdvance? then Some(op.at) else h.builder.last)
            else if op.DoAdvance? then Moves(h, h', op.at, period) else h' == h && h.builder.session.None?
  {
    var p := h.builder;
    rs, period := [], 0;
    assert h.current + [] == h.current;
    if p.session.Some? {
      if Ends(p, c, op) {
        rs := [Snapshot(Closed(p), c).value];
      } else {
        period := CheckedStart(op.at, c.time.anchor, c.time.tpo).value;
      }
    }
  }

  // ---- Whose trades the accumulator holds ----

  /** The trades are all of this session, were read from the grid, and are not after the clock. */
  predicate Belong(c: Config, ts: seq<Trade>, session: int, last: Option<i64>)
    requires c.Valid()
  {
    forall i :: 0 <= i < |ts| ==>
      && 0 <= ts[i].bucket && 0 < ts[i].units && ts[i].session == session
      && session == PeriodStart(ts[i].at, c.time.anchor, c.time.session)
      && last.Some? && ts[i].at <= last.value
  }

  lemma BelongLater(c: Config, ts: seq<Trade>, session: int, last: Option<i64>, later: Option<i64>)
    requires c.Valid() && Belong(c, ts, session, last)
    requires last.Some? ==> later.Some? && last.value <= later.value
    ensures Belong(c, ts, session, later)
  {
  }

  /** What every call keeps of the current trades and of the returned ones. */
  predicate Owned(c: Config, h: History)
    requires c.Valid()
  {
    && (h.builder.session.None? ==> h.current == [])
    && (h.builder.session.Some? ==> h.current != [] && Belong(c, h.current, h.builder.session.value, h.builder.last))
    && forall i :: 0 <= i < |h.emitted| ==>
         h.emitted[i].1 != [] && Belong(c, h.emitted[i].1, h.emitted[i].0.start, h.builder.last)
  }

  /** The clock never goes back. */
  lemma ClockMoves(c: Config, h: History, op: Op)
    requires c.Valid() && Tidy(h.builder)
    ensures var last, later := h.builder.last, Next(c, h, op).builder.last;
            last.Some? ==> later.Some? && last.value <= later.value
  {
    if Apply(h.builder, c, op).1.Err? {
      FailureLeaves(h.builder, c, op);
    } else if op.DoIngest? {
      var _, _ := IngestKinds(c, h, op);
    } else {
      var _, _ := OtherKinds(c, h, op);
    }
  }

  /** A step of the kinds above, seen from the trades: they stay, one is added, or all are returned. */
  lemma OwnedStep(c: Config, h: History, h': History, rs: seq<Profile>, ts: seq<Trade>)
    requires c.Valid() && Owned(c, h)
    requires h.builder.last.Some? ==> h'.builder.last.Some? && h.builder.last.value <= h'.builder.last.value
    requires rs == [] ==> h'.emitted == h.emitted && h'.current == h.current + ts
    requires rs == [] && h.builder.session.Some? ==> h'.builder.session == h.builder.session
    requires rs != [] ==> h.builder.session == Some(rs[0].start)
    requires rs != [] ==> h'.emitted == h.emitted + [(rs[0], h.current)] && h'.current == ts
    requires h'.builder.session.None? ==> h'.current == []
    requires h'.builder.session.Some? ==> h'.current != [] && Belong(c, ts, h'.builder.session.value, h'.builder.last)
    ensures Owned(c, h')
  {
    forall i | 0 <= i < |h'.emitted|
      ensures h'.emitted[i].1 != [] && Belong(c, h'.emitted[i].1, h'.emitted[i].0.start, h'.builder.last)
    {
      if i < |h.emitted| {
        BelongLater(c, h.emitted[i].1, h.emitted[i].0.start, h.builder.last, h'.builder.last);
      } else {
        BelongLater(c, h.current, rs[0].start, h.builder.last, h'.builder.last);
      }
    }
    if rs == [] && h.builder.session.Some? {
      BelongLater(c, h.current, h.builder.session.value, h.builder.last, h'.builder.last);
    }
  }

  lemma SnapshotStart(p: Builder, c: Config, r: Profile)
    requires Snapshot(Closed(p), c) == Ok(r)
    ensures p.session == Some(r.start) && r.end == r.start + c.time.session
  {
  }

  lemma OwnedAfterTrade(c: Config, h: History, h': History, t: Trade)
    requires c.Valid() && Owned(c, h) && Timely(c, h, t) && (Starts(h, h', t) || Continues(h, h', t))
    ensures Owned(c, h')
  {
    OwnedStep(c, h, h', [], [t]);
  }

  lemma OwnedAfterRollover(c: Config, h: History, h': History, t: Trade, r: Profile)
    requires c.Valid() && Owned(c, h) && Timely(c, h, t) && RollsOver(c, h, h', t, r)
    ensures Owned(c, h')
  {
    SnapshotStart(h.builder, c, r);
    OwnedStep(c, h, h', [r], [t]);
  }

  lemma OwnedAfterFinish(c: Config, h: History, h': History, r: Profile, last: Option<i64>)
    requires c.Valid() && Owned(c, h) && Finishes(c, h, h', r, last)
    requires h.builder.last.Some? ==> last.Some? && h.builder.last.value <= last.value
    ensures Owned(c, h')
  {
    SnapshotStart(h.builder, c, r);
    OwnedStep(c, h, h', [r], []);
  }

  lemma OwnedAfterMove(c: Config, h: History, h': History)
    requires c.Valid() && Owned(c, h)
    requires h' == h.(builder := h'.builder) && h'.builder.session == h.builder.session
    requires h.builder.last.Some? ==> h'.builder.last.Some? && h.builder.last.value <= h'.builder.last.value
    ensures Owned(c, h')
  {
    assert h.current + [] == h.current;
    OwnedStep(c, h, h', [], []);
  }

  lemma OwnedKept(c: Config, h: History, op: Op)
    requires c.Valid() && Tidy(h.builder) && Owned(c, h)
    ensures Owned(c, Next(c, h, op))
  {
    var h' := Next(c, h, op);
    ClockMoves(c, h, op);
    if Apply(h.builder, c, op).1.Err? {
      FailureLeaves(h.builder, c, op);
      OwnedAfterMove(c, h, h');
    } else if op.DoIngest? {
      var t, rs := IngestKinds(c, h, op);
      if rs == [] { OwnedAfterTrade(c, h, h', t); } else { OwnedAfterRollover(c, h, h', t, rs[0]); }
    } else {
      var rs, _ := OtherKinds(c, h, op);
      if rs == [] { OwnedAfterMove(c, h, h'); }
      else { OwnedAfterFinish(c, h, h', rs[0], if op.DoAdvance? then Some(op.at) else h.builder.last); }
    }
  }

  // ---- A session that cannot be recorded ----

  lemma ReadyIsTidy(p: Builder, period: i64)
    requires Tidy(p) && p.tpoStart.Some?
    ensures Tidy(ReadyFor(p, period))
  {
    CloseIsTidy(p);
  }

  lemma ReadyRefuses(p: Builder, c: Config, period: i64, last: Option<i64>)
    requires Tidy(p) && Refuses(p, c) && p.tpoStart.Some?
    ensures Refuses(ReadyFor(p, period), c) && Refuses(ReadyFor(p, period).(last := last), c)
  {
    ClosedRefuses(p, c, Some(period), p.last);
    ClosedRefuses(p, c, Some(period), last);
  }

  lemma TradeIsTidy(h: History, h': History, t: Trade)
    requires Tidy(h.builder) && 0 <= t.bucket && 0 < t.units && (Starts(h, h', t) || Continues(h, h', t))
    ensures Tidy(h'.builder)
  {
    if Starts(h, h', t) {
      AddIsTidy(h.builder.(session := Some(t.session), tpoStart := Some(t.tpo), last := Some(t.at)),
                t.bucket, t.price, t.units);
    } else {
      ReadyIsTidy(h.builder, t.tpo);
      AddIsTidy(ReadyFor(h.builder, t.tpo), t.bucket, t.price, t.units);
    }
  }

  lemma StartedIsTidy(t: Trade)
    requires 0 <= t.bucket && 0 < t.units
    ensures Tidy(StartedWith(t))
  {
    AddIsTidy(Inactive(None).(session := Some(t.session), tpoStart := Some(t.tpo), last := Some(t.at)),
              t.bucket, t.price, t.units);
  }

  lemma MoveIsTidy(h: History, h': History, at: i64, period: i64)
    requires Tidy(h.builder) && Moves(h, h', at, period)
    ensures Tidy(h'.builder)
  {
    if h.builder.session.Some? { ReadyIsTidy(h.builder, period); }
  }

  lemma FailureIsTidy(c: Config, h: History, op: Op)
    requires c.Valid() && Tidy(h.builder) && Apply(h.builder, c, op).1.Err?
    ensures Tidy(Next(c, h, op).builder)
    ensures Refuses(h.builder, c) ==> Refuses(Next(c, h, op).builder, c)
    ensures Next(c, h, op).builder.session == h.builder.session
  {
    var p := h.builder;
    FailureLeaves(p, c, op);
    CloseIsTidy(p);
    if Refuses(p, c) { ClosedRefuses(p, c, p.tpoStart, p.last); }
  }

  lemma TidyKept(c: Config, h: History, op: Op)
    requires c.Valid() && Tidy(h.builder)
    ensures Tidy(Next(c, h, op).builder)
  {
    var h' := Next(c, h, op);
    if Apply(h.builder, c, op).1.Err? {
      FailureIsTidy(c, h, op);
    } else if op.DoIngest? {
      var t, rs := IngestKinds(c, h, op);
      if rs == [] { TradeIsTidy(h, h', t); } else { StartedIsTidy(t); }
    } else {
      var rs, period := OtherKinds(c, h, op);
      if rs == [] && op.DoAdvance? { MoveIsTidy(h, h', op.at, period); }
    }
  }

  lemma TradeRefuses(c: Config, h: History, h': History, t: Trade)
    requires Tidy(h.builder) && 0 <= t.bucket && 0 < t.units && Continues(h, h', t) && Refuses(h.builder, c)
    ensures Refuses(h'.builder, c)
  {
    ReadyIsTidy(h.builder, t.tpo);
    ReadyRefuses(h.builder, c, t.tpo, h.builder.last);
    AddedRefuses(ReadyFor(h.builder, t.tpo), c, t.bucket, t.price, t.units, Some(t.at));
  }

  /** A session whose record is refused once is refused for good: whatever is called afterwards, it
      stays the current session and no profile is ever returned again. */
  lemma RefusedForever(c: Config, h: History, op: Op)
    requires c.Valid() && Tidy(h.builder) && Refuses(h.builder, c)
    ensures var h' := Next(c, h, op);
            h'.builder.session == h.builder.session && Refuses(h'.builder, c) && h'.emitted == h.emitted
  {
    var h' := Next(c, h, op);
    RefusesExactly(h.builder, c);
    if Apply(h.builder, c, op).1.Err? {
      FailureIsTidy(c, h, op);
    } else if op.DoIngest? {
      var t, rs := IngestKinds(c, h, op);
      TradeRefuses(c, h, h', t);
    } else {
      var rs, period := OtherKinds(c, h, op);
      ReadyRefuses(h.builder, c, period, Some(op.at));
    }
  }

  // ---- Which trades the accumulator and its profiles are made of ----

  predicate CurrentIsExact(h: History) {
    && (h.builder.session.None? ==> h.builder == Inactive(h.builder.last) && h.current == [])
    && (h.builder.session.Some? ==> Represents(h.builder, h.current))
  }

  lemma ExactWhenActive(h: History, p: Builder, ts: seq<Trade>)
    requires h.builder == p && h.current == ts && p.session.Some? && Represents(p, ts)
    ensures CurrentIsExact(h)
  {
  }

  lemma CurrentAfterStart(h: History, h': History, t: Trade)
    requires CurrentIsExact(h) && Starts(h, h', t)
    ensures CurrentIsExact(h')
  {
    assert [] + [t] == [t];
    StartRepresents(h.builder.(session := Some(t.session), tpoStart := Some(t.tpo), last := Some(t.at)), t);
  }

  lemma CurrentAfterRollover(c: Config, h: History, h': History, t: Trade, r: Profile)
    requires RollsOver(c, h, h', t, r)
    ensures CurrentIsExact(h')
  {
    StartRepresents(Inactive(None).(session := Some(t.session), tpoStart := Some(t.tpo), last := Some(t.at)), t);
  }

  lemma ReadyRepresents(p: Builder, ts: seq<Trade>, period: i64)
    requires Represents(p, ts)
    ensures Represents(ReadyFor(p, period), ts)
  {
    if period > p.tpoStart.value { CloseRepresents(p, ts, period); }
  }

  lemma LastIsIrrelevant(p: Builder, ts: seq<Trade>, last: Option<i64>)
    requires Represents(p, ts)
    ensures Represents(p.(last := last), ts)
  {
  }

  lemma AddedRepresents(ready: Builder, ts: seq<Trade>, t: Trade, q: Builder)
    requires Represents(ready, ts) && ready.tpoStart.value == t.tpo
    requires q == Added(ready, t.bucket, t.price, t.units).(last := Some(t.at))
    ensures Represents(q, ts + [t]) && q.session == ready.session
  {
    AddRepresents(ready, ts, t);
    LastIsIrrelevant(Added(ready, t.bucket, t.price, t.units), ts + [t], Some(t.at));
  }

  lemma ReadyPeriod(p: Builder, period: i64)
    requires p.tpoStart.Some? && p.tpoStart.value <= period
    ensures ReadyFor(p, period).tpoStart == Some(period) && ReadyFor(p, period).session == p.session
  {
  }

  lemma TradeRepresents(p: Builder, ts: seq<Trade>, t: Trade)
    requires Represents(p, ts) && p.tpoStart.value <= t.tpo
    ensures Represents(AfterTrade(p, t), ts + [t]) && AfterTrade(p, t).session == p.session
  {
    var ready := ReadyFor(p, t.tpo);
    ReadyRepresents(p, ts, t.tpo);
    ReadyPeriod(p, t.tpo);
    AddedRepresents(ready, ts, t, AfterTrade(p, t));
  }

  lemma CurrentAfterTrade(h: History, h': History, t: Trade)
    requires CurrentIsExact(h) && Continues(h, h', t)
    ensures CurrentIsExact(h')
  {
    TradeRepresents(h.builder, h.current, t);
    ExactWhenActive(h', AfterTrade(h.builder, t), h.current + [t]);
  }

  lemma MovedRepresents(p: Builder, ts: seq<Trade>, period: i64, at: i64)
    requires Represents(p, ts)
    ensures Represents(AfterMove(p, period, at), ts) && AfterMove(p, period, at).session == p.session
  {
    ReadyRepresents(p, ts, period);
    LastIsIrrelevant(ReadyFor(p, period), ts, Some(at));
  }

  lemma CurrentAfterMove(h: History, h': History, at: i64, period: i64)
    requires CurrentIsExact(h) && Moves(h, h', at, period)
    ensures CurrentIsExact(h')
  {
    if h.builder.session.Some? {
      MovedRepresents(h.builder, h.current, period, at);
      ExactWhenActive(h', AfterMove(h.builder, period, at), h.current);
    }
  }

  lemma CurrentKept(c: Config, h: History, op: Op)
    requires c.Valid() && Tidy(h.builder) && CurrentIsExact(h) && !HalfCloses(h.builder, c, op)
    ensures CurrentIsExact(Next(c, h, op))
  {
    var h' := Next(c, h, op);
    if Apply(h.builder, c, op).1.Err? {
      FailureLeaves(h.builder, c, op);
    } else if op.DoIngest? {
      var t, rs := IngestKinds(c, h, op);
      if rs != [] { CurrentAfterRollover(c, h, h', t, rs[0]); }
      else if h.builder.session.None? { CurrentAfterStart(h, h', t); }
      else { CurrentAfterTrade(h, h', t); }
    } else {
      var rs, period := OtherKinds(c, h, op);
      if rs == [] && op.DoAdvance? { CurrentAfterMove(h, h', op.at, period); }
    }
  }

  /** What every call keeps: unless the current session can no longer be recorded, the accumulator
      holds exactly its trades. */
  predicate Settled(c: Config, h: History)
    requires c.Valid()
  {
    Tidy(h.builder) && Owned(c, h) && (Refuses(h.builder, c) || CurrentIsExact(h))
  }

  lemma SettledKept(c: Config, h: History, op: Op)
    requires c.Valid() && Settled(c, h)
    ensures Settled(c, Next(c, h, op))
  {
    TidyKept(c, h, op);
    OwnedKept(c, h, op);
    if Refuses(h.builder, c) { RefusedForever(c, h, op); } else { CurrentKept(c, h, op); }
  }

  lemma {:induction false} RunsAreSettled(c: Config, ops: seq<Op>)
    requires c.Valid()
    ensures Settled(c, Execute(c, ops))
  {
    if ops != [] {
      RunsAreSettled(c, ops[..|ops| - 1]);
      SettledKept(c, Execute(c, ops[..|ops| - 1]), ops[|ops| - 1]);
    }
  }

  /** In every clean run the accumulator holds exactly the trades of its session. */
  lemma {:induction false} CurrentSessionIsExact(c: Config, ops: seq<Op>)
    requires c.Valid() && Clean(c, ops)
    ensures CurrentIsExact(Execute(c, ops))
  {
    if ops != [] {
      var prior := ops[..|ops| - 1];
      RunsAreSettled(c, prior);
      CurrentSessionIsExact(c, prior);
      CurrentKept(c, Execute(c, prior), ops[|ops| - 1]);
    }
  }

  /** However a run goes on after its session was refused, it returns no further profile. */
  lemma {:induction false} NothingFollowsRefusal(c: Config, ops: seq<Op>, more: seq<Op>)
    requires c.Valid() && Refuses(Execute(c, ops).builder, c)
    ensures var h, h' := Execute(c, ops), Execute(c, ops + more);
            h'.emitted == h.emitted && h'.builder.session == h.builder.session && Refuses(h'.builder, c)
    decreases |more|
  {
    if more == [] {
      assert ops + more == ops;
    } else {
      var before := ops + more[..|more| - 1];
      NothingFollowsRefusal(c, ops, more[..|more| - 1]);
      RunsAreSettled(c, before);
      RefusedForever(c, Execute(c, before), more[|more| - 1]);
      assert (ops + more)[..|ops + more| - 1] == before && (ops + more)[|ops + more| - 1] == more[|more| - 1];
    }
  }

  /** An accepted trade below the first full bucket has this effect. */
  lemma LowPriceIsFatal(c: Config, h: History, op: Op)
    requires c.Valid() && op.DoIngest? && Apply(h.builder, c, op).1.Ok?
    requires ReadTrade(c, op.at, op.price, op.quantity).value.bucket == 0
    ensures Refuses(Next(c, h, op).builder, c)
  {
    var t, rs := IngestKinds(c, h, op);
    LowestBucketRefuses(Next(c, h, op).builder, c);
  }

  /** A returned profile is that of the current trades. */
  lemma ReturnedIsProfile(c: Config, h: History, r: Profile)
    requires c.Valid() && Settled(c, h) && h.builder.session.Some? && Snapshot(Closed(h.builder), c) == Ok(r)
    ensures IsProfileOf(c, h.current, r) && h.builder.session == Some(r.start)
  {
    RefusesExactly(h.builder, c);
    SnapshotIsProfile(h.builder, c, h.current, r);
  }

  /** What a call returns is the record of the session that was current. */
  lemma ReturnedIsRecord(c: Config, h: History, op: Op) returns (r: Profile)
    requires c.Valid() && Next(c, h, op).emitted != h.emitted
    ensures h.builder.session.Some? && Snapshot(Closed(h.builder), c) == Ok(r)
    ensures Next(c, h, op).emitted == h.emitted + [(r, h.current)]
  {
    if op.DoIngest? {
      var _, rs := IngestKinds(c, h, op);
      r := rs[0];
    } else {
      var rs, _ := OtherKinds(c, h, op);
      r := rs[0];
    }
  }

  /** The returned profile is that of exactly its trades. */
  predicate Exactly(c: Config, e: (Profile, seq<Trade>)) {
    IsProfileOf(c, e.1, e.0)
  }

  lemma {:induction false} EachIsExact(c: Config, ops: seq<Op>, i: nat)
    requires c.Valid() && i < |Execute(c, ops).emitted|
    ensures Exactly(c, Execute(c, ops).emitted[i])
  {
    var prior, op := ops[..|ops| - 1], ops[|ops| - 1];
    var h := Execute(c, prior);
    if i < |h.emitted| {
      EachIsExact(c, prior, i);
      if Next(c, h, op).emitted != h.emitted { var _ := ReturnedIsRecord(c, h, op); }
    } else {
      RunsAreSettled(c, prior);
      var r := ReturnedIsRecord(c, h, op);
      ReturnedIsProfile(c, h, r);
    }
  }

  /** In every run, with all its failed calls, each returned profile is that of exactly the trades
      accepted since the one before it, and those are all of its session. */
  lemma ProfilesAreExact(c: Config, ops: seq<Op>, i: nat)
    requires c.Valid() && i < |Execute(c, ops).emitted|
    ensures var (r, ts) := Execute(c, ops).emitted[i];
            IsProfileOf(c, ts, r) && ts != [] && Belong(c, ts, r.start, Execute(c, ops).builder.last)
  {
    RunsAreSettled(c, ops);
    EachIsExact(c, ops, i);
  }

  /** The accepted trades of a run, in order. */
  function Accepted(c: Config, ops: seq<Op>): seq<Trade>
    requires c.Valid()
  {
    if ops == [] then []
    else
      var prior, op := ops[..|ops| - 1], ops[|ops| - 1];
      Accepted(c, prior) + if Apply(Execute(c, prior).builder, c, op).1.Ok? then TradesOf(c, op) else []
  }

  function AllOf(emitted: seq<(Profile, seq<Trade>)>): seq<Trade> {
    if emitted == [] then [] else AllOf(emitted[..|emitted| - 1]) + emitted[|emitted| - 1].1
  }

  /** No accepted trade is lost or counted twice: the returned profiles and the current session share
      out the accepted trades, in order. */
  lemma {:induction false} TradesAreShared(c: Config, ops: seq<Op>)
    requires c.Valid()
    ensures AllOf(Execute(c, ops).emitted) + Execute(c, ops).current == Accepted(c, ops)
  {
    if ops != [] {
      var prior, op := ops[..|ops| - 1], ops[|ops| - 1];
      var h := Execute(c, prior);
      TradesAreShared(c, prior);
      var r := Apply(h.builder, c, op).1;
      if r.Ok? && r.value.Some? {
        assert (h.emitted + [(r.value.value, h.current)])[..|h.emitted|] == h.emitted;
      }
    }
  }
}
