/** The session profile accumulator as the object whose maps, sets and counters change in place. */
module SessionProfile {
  import opened Common
  import opened Decimal
  import opened Grid
  import opened Ordering
  import V = ValueArea
  import opened ProfileBatch
  import opened ProfileModel

  class ProfileBuilder {
    const config: Config
    var state: Builder

    predicate Valid()
      reads this
    {
      config.Valid() && NonNegative(state.volumes) && NonNegative(state.counts)
    }

    constructor (config: Config)
      requires config.Valid()
      ensures Valid() && state == Inactive(None) && this.config == config
    {
      this.config, state := config, Inactive(None);
    }

    /** A copy that can be closed without touching the original. */
    constructor Clone(other: ProfileBuilder)
      requires other.Valid()
      ensures Valid() && state == other.state && config == other.config
    {
      config, state := other.config, other.state;
    }

    method ApplyAdd(bucket: int, price: int, units: int)
      requires Valid() && 0 <= units
      modifies this
      ensures Valid() && state == Added(old(state), bucket, price, units)
    {
      state := state.(total := state.total + units);
      state := state.(volumes := state.volumes[bucket := Get(state.volumes, bucket) + units]);
      state := state.(high := Some(Larger(state.high, price)), low := Some(Smaller(state.low, price)));
      state := state.(open := state.open + {bucket});
      state := state.(openHigh := Some(Larger(state.openHigh, bucket)),
                      openLow := Some(Smaller(state.openLow, bucket)));
    }

    method PreflightClose() returns (ok: bool)
      ensures ok <==> CloseFits(state)
    {
      var todo := state.open;
      while todo != {}
        invariant todo <= state.open
        invariant forall b :: b in state.open - todo ==> Get(state.counts, b) + 1 <= U64_MAX
        decreases todo
      {
        var b := Least(todo);
        if Get(state.counts, b) + 1 > U64_MAX {
          return false;
        }
        todo := todo - {b};
      }
      ok := I32_MIN <= state.rotation + RotationDelta(state) <= I32_MAX;
    }

    /** Counts every level of the open period once and moves its range to the previous one. */
    method ApplyClose()
      requires Valid()
      modifies this
      ensures Valid() && state == Closed(old(state))
    {
      if state.open == {} {
        state := state.(openHigh := None, openLow := None);
        return;
      }
      CountOpenLevels();
      state := state.(rotation := state.rotation + RotationDelta(state));
      state := state.(previousHigh := state.openHigh, previousLow := state.openLow);
      state := state.(open := {}, openHigh := None, openLow := None);
    }

    method CountOpenLevels()
      requires Valid()
      modifies this
      ensures Valid() && state == old(state).(counts := CountsPlus(old(state.counts), old(state.open)))
    {
      var done, todo := {}, state.open;
      assert CountsPlus(state.counts, {}) == state.counts;
      while todo != {}
        invariant done !! todo && done + todo == old(state.open)
        invariant state == old(state).(counts := CountsPlus(old(state.counts), done)) && NonNegative(state.counts)
        decreases todo
      {
        var b := Least(todo);
        CountOne(old(state.counts), done, b);
        state := state.(counts := state.counts[b := Get(state.counts, b) + 1]);
        done, todo := done + {b}, todo - {b};
      }
      assert done == old(state.open);
    }

    method FindArea(basis: Basis) returns (r: Result<Option<(int, int, int)>, AnalyticsError>)
      requires Valid()
      ensures r == AreaFor(state.volumes, state.counts, basis, config.bps)
    {
      var keys := Sorted(state.volumes.Keys);
      if keys == [] {
        return Ok(None);
      }
      var act := ActivityList(state.volumes, state.counts, basis);
      ActivityIsNonNegative(state.volumes, state.counts, basis);
      var area := V.Compute(keys, act, config.bps);
      if area.Err? {
        return Err(ArithmeticOverflow);
      }
      AreaInside(keys, act, config.bps);
      r := Ok(Some((keys[area.value.poc], keys[area.value.val], keys[area.value.vah])));
    }

    method TakeSnapshot(basis: Basis) returns (r: Result<Profile, AnalyticsError>)
      requires Valid()
      ensures r == Snapshot(state, config.(basis := basis))
    {
      var area := FindArea(basis);
      r := TakeSnapshotWith(area);
    }

    method TakeSnapshotWith(area: Result<Option<(int, int, int)>, AnalyticsError>)
      returns (r: Result<Profile, AnalyticsError>)
      ensures r == SnapshotWith(state, config.time.session, area)
    {
      if state.session.None? {
        return Err(CorruptSnapshot);
      }
      if state.session.value + config.time.session > I64_MAX {
        return Err(ArithmeticOverflow);
      }
      if area.Err? {
        return Err(area.error);
      }
      if exists b :: b in state.volumes && b <= 0 {
        return Err(NonPositive);
      }
      var tpoCount := SumCounts(state.counts, Sorted(state.counts.Keys));
      if tpoCount > U64_MAX {
        return Err(ArithmeticOverflow);
      }
      r := Ok(Profile(state.session.value, state.session.value + config.time.session,
                      state.high, state.low, state.total,
                      state.volumes, state.counts, tpoCount, state.rotation, area.value));
    }

    /** Finishes the current session on a copy. */
    method FinalizedClone() returns (r: Result<Profile, AnalyticsError>)
      requires Valid()
      ensures r == if CloseFits(state) then Snapshot(Closed(state), config) else Err(ArithmeticOverflow)
    {
      var copy := new ProfileBuilder.Clone(this);
      var fits := copy.PreflightClose();
      if !fits {
        return Err(ArithmeticOverflow);
      }
      copy.ApplyClose();
      r := copy.TakeSnapshot(config.basis);
      assert config.(basis := config.basis) == config;
    }

    method ClearActive()
      requires Valid()
      modifies this
      ensures Valid() && state == Inactive(old(state.last))
    {
      state := Inactive(state.last);
    }

    method Ingest(at: i64, price: Fixed, quantity: Fixed) returns (r: Result<Option<Profile>, AnalyticsError>)
      requires Valid()
      modifies this
      ensures Valid()
      ensures (state, r) == ProfileModel.Ingest(old(state), config, at, price, quantity)
    {
      if state.last.Some? && at < state.last.value {
        return Err(LateTrade);
      }
      var read := ReadTrade(config, at, price, quantity);
      if read.Err? {
        return Err(read.error);
      }
      r := IngestRead(read.value);
    }

    method IngestRead(t: Trade) returns (r: Result<Option<Profile>, AnalyticsError>)
      requires Valid() && 0 < t.units
      modifies this
      ensures Valid()
      ensures (state, r) == IngestTrade(old(state), config, t)
    {
      if state.session.None? {
        var error := PreflightAdd(state, config, t.bucket, t.units, true);
        if error.Some? {
          return Err(error.value);
        }
        state := state.(session := Some(t.session), tpoStart := Some(t.tpo), last := Some(t.at));
        ApplyAdd(t.bucket, t.price, t.units);
        return Ok(None);
      }
      if t.session > state.session.value {
        var finished := FinalizedClone();
        if finished.Err? {
          return Err(finished.error);
        }
        var error := PreflightAdd(Inactive(None), config, t.bucket, t.units, true);
        if error.Some? {
          return Err(error.value);
        }
        ClearActive();
        state := state.(session := Some(t.session), tpoStart := Some(t.tpo), last := Some(t.at));
        ApplyAdd(t.bucket, t.price, t.units);
        return Ok(Some(finished.value));
      }
      if t.session < state.session.value {
        return Err(LateTrade);
      }
      r := IngestSameSession(t);
    }

    method IngestSameSession(t: Trade) returns (r: Result<Option<Profile>, AnalyticsError>)
      requires Valid() && 0 < t.units && state.session == Some(t.session)
      modifies this
      ensures Valid()
      ensures (state, r) == IngestTrade(old(state), config, t)
    {
      if state.tpoStart.None? {
        return Err(CorruptSnapshot);
      }
      if t.tpo < state.tpoStart.value {
        return Err(LateTrade);
      }
      var error := PreflightAdd(state, config, t.bucket, t.units, t.tpo != state.tpoStart.value);
      if error.Some? {
        return Err(error.value);
      }
      if t.tpo > state.tpoStart.value {
        var fits := PreflightClose();
        if !fits {
          return Err(ArithmeticOverflow);
        }
        ApplyClose();
        state := state.(tpoStart := Some(t.tpo));
      }
      ApplyAdd(t.bucket, t.price, t.units);
      state := state.(last := Some(t.at));
      r := Ok(None);
    }

    method AdvanceTo(at: i64) returns (r: Result<Option<Profile>, AnalyticsError>)
      requires Valid()
      modifies this
      ensures Valid()
      ensures (state, r) == ProfileModel.AdvanceTo(old(state), config, at)
    {
      if state.last.Some? && at < state.last.value {
        return Err(LateTrade);
      }
      if state.session.None? {
        state := state.(last := Some(at));
        return Ok(None);
      }
      if state.session.value + config.time.session > I64_MAX {
        return Err(ArithmeticOverflow);
      }
      if at >= state.session.value + config.time.session {
        var fits := PreflightClose();
        if !fits {
          return Err(ArithmeticOverflow);
        }
        ApplyClose();
        var finished := TakeSnapshot(config.basis);
        assert config.(basis := config.basis) == config;
        if finished.Err? {
          return Err(finished.error);
        }
        ClearActive();
        state := state.(last := Some(at));
        return Ok(Some(finished.value));
      }
      var tpo := CheckedStart(at, config.time.anchor, config.time.tpo);
      if tpo.Err? {
        return Err(tpo.error);
      }
      if state.tpoStart.None? {
        return Err(CorruptSnapshot);
      }
      if tpo.value > state.tpoStart.value {
        var fits := PreflightClose();
        if !fits {
          return Err(ArithmeticOverflow);
        }
        ApplyClose();
        state := state.(tpoStart := Some(tpo.value));
      }
      state := state.(last := Some(at));
      r := Ok(None);
    }

    method Finish() returns (r: Result<Option<Profile>, AnalyticsError>)
      requires Valid()
      modifies this
      ensures Valid()
      ensures (state, r) == ProfileModel.Finish(old(state), config)
    {
      if state.session.None? {
        return Ok(None);
      }
      var fits := PreflightClose();
      if !fits {
        return Err(ArithmeticOverflow);
      }
      ApplyClose();
      var finished := TakeSnapshot(config.basis);
      assert config.(basis := config.basis) == config;
      if finished.Err? {
        return Err(finished.error);
      }
      ClearActive();
      r := Ok(Some(finished.value));
    }

    /** The record of the current session, on a copy. */
    method LiveSnapshot(basis: Basis) returns (r: Result<Option<Profile>, AnalyticsError>)
      requires Valid()
      ensures r == ProfileModel.LiveSnapshot(state, config, basis)
    {
      if state.session.None? {
        return Ok(None);
      }
      var copy := new ProfileBuilder.Clone(this);
      var fits := copy.PreflightClose();
      if !fits {
        return Err(ArithmeticOverflow);
      }
      copy.ApplyClose();
      var record := copy.TakeSnapshot(basis);
      r := if record.Err? then Err(record.error) else Ok(Some(record.value));
    }
  }

  lemma CountOne(counts: map<int, int>, done: set<int>, b: int)
    requires b !in done
    ensures CountsPlus(counts, done + {b}) == CountsPlus(counts, done)[b := Get(CountsPlus(counts, done), b) + 1]
  {
  }
}
