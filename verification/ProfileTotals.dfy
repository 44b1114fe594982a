/** What profiles hold in sum: over every run, the returned profiles and the accumulator together hold
    each accepted trade once, in all and at every level. */
module ProfileTotals {
  import opened Common
  import opened ProfileBatch
  import opened ProfileModel
  import opened ProfileRefusals
  import opened ProfileRuns

  /** All volume, or that of one level. */
  datatype Part = Whole | Level(bucket: int)

  function UnitsIn(t: Trade, part: Part): int {
    if part.Whole? || t.bucket == part.bucket then t.units else 0
  }

  function Traded(ts: seq<Trade>, part: Part): int {
    if ts == [] then 0 else Traded(ts[..|ts| - 1], part) + UnitsIn(ts[|ts| - 1], part)
  }

  function HeldBy(p: Builder, part: Part): int {
    if part.Whole? then p.total else Get(p.volumes, part.bucket)
  }

  function RecordedBy(r: Profile, part: Part): int {
    if part.Whole? then r.total else Get(r.volumes, part.bucket)
  }

  /** The sum over all returned profiles. */
  function Returned(emitted: seq<(Profile, seq<Trade>)>, part: Part): int {
    if emitted == [] then 0 else Returned(emitted[..|emitted| - 1], part) + RecordedBy(emitted[|emitted| - 1].0, part)
  }

  lemma ReturnedMore(emitted: seq<(Profile, seq<Trade>)>, e: (Profile, seq<Trade>), part: Part)
    ensures Returned(emitted + [e], part) == Returned(emitted, part) + RecordedBy(e.0, part)
  {
    assert (emitted + [e])[..|emitted|] == emitted;
  }

  lemma TradedMore(ts: seq<Trade>, t: Trade, part: Part)
    ensures Traded(ts + [t], part) == Traded(ts, part) + UnitsIn(t, part)
  {
    assert (ts + [t])[..|ts|] == ts;
  }

  lemma AddedHolds(p: Builder, t: Trade, part: Part)
    ensures HeldBy(Added(p, t.bucket, t.price, t.units), part) == HeldBy(p, part) + UnitsIn(t, part)
  {
  }

  lemma ClosedHolds(p: Builder, part: Part)
    ensures HeldBy(Closed(p), part) == HeldBy(p, part)
  {
  }

  lemma RecordHolds(p: Builder, c: Config, r: Profile, part: Part)
    requires Snapshot(Closed(p), c) == Ok(r)
    ensures RecordedBy(r, part) == HeldBy(p, part)
  {
    SnapshotFields(Closed(p), c, r);
    ClosedHolds(p, part);
  }

  /** What is held after a call, in the accumulator and in what it returned. */
  function Held(h: History, part: Part): int {
    Returned(h.emitted, part) + HeldBy(h.builder, part)
  }

  lemma TradeHeld(c: Config, h: History, op: Op, part: Part)
    requires c.Valid() && op.DoIngest? && Apply(h.builder, c, op).1.Ok?
    ensures TradesOf(c, op) != [] && Held(Next(c, h, op), part) == Held(h, part) + UnitsIn(TradesOf(c, op)[0], part)
  {
    var t, rs := IngestKinds(c, h, op);
    var p := h.builder;
    if rs != [] {
      ReturnedMore(h.emitted, (rs[0], h.current), part);
      RecordHolds(p, c, rs[0], part);
      StartedHolds(t, part);
    } else if p.session.None? {
      AddedHolds(p.(session := Some(t.session), tpoStart := Some(t.tpo), last := Some(t.at)), t, part);
    } else {
      AddedHolds(ReadyFor(p, t.tpo), t, part);
      ClosedHolds(p, part);
    }
  }

  lemma StartedHolds(t: Trade, part: Part)
    ensures HeldBy(StartedWith(t), part) == UnitsIn(t, part)
  {
    AddedHolds(Inactive(None).(session := Some(t.session), tpoStart := Some(t.tpo), last := Some(t.at)), t, part);
  }

  lemma OtherHeld(c: Config, h: History, op: Op, part: Part)
    requires c.Valid() && !op.DoIngest? && Apply(h.builder, c, op).1.Ok?
    ensures Held(Next(c, h, op), part) == Held(h, part)
  {
    var rs, period := OtherKinds(c, h, op);
    if rs != [] {
      ReturnedMore(h.emitted, (rs[0], h.current), part);
      RecordHolds(h.builder, c, rs[0], part);
    } else {
      ClosedHolds(h.builder, part);
    }
  }

  lemma FailureHeld(c: Config, h: History, op: Op, part: Part)
    requires c.Valid() && Tidy(h.builder) && Apply(h.builder, c, op).1.Err?
    ensures Held(Next(c, h, op), part) == Held(h, part)
  {
    FailureLeaves(h.builder, c, op);
    ClosedHolds(h.builder, part);
  }

  /** In every run, with all its failed calls and half closes, the returned profiles and the accumulator
      hold together exactly the volume of the accepted trades, in all and at every level. */
  lemma {:induction false} VolumesConserve(c: Config, ops: seq<Op>, part: Part)
    requires c.Valid()
    ensures Returned(Execute(c, ops).emitted, part) + HeldBy(Execute(c, ops).builder, part)
         == Traded(Accepted(c, ops), part)
  {
    if ops != [] {
      var prior, op := ops[..|ops| - 1], ops[|ops| - 1];
      var h := Execute(c, prior);
      VolumesConserve(c, prior, part);
      RunsAreSettled(c, prior);
      if Apply(h.builder, c, op).1.Err? {
        FailureHeld(c, h, op, part);
        assert Accepted(c, prior) + [] == Accepted(c, prior);
      } else if op.DoIngest? {
        TradeHeld(c, h, op, part);
        TradedMore(Accepted(c, prior), TradesOf(c, op)[0], part);
      } else {
        OtherHeld(c, h, op, part);
        assert Accepted(c, prior) + [] == Accepted(c, prior);
      }
    }
  }
}
