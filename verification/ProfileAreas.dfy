/** The value areas of returned profiles: sound always, and smallest when activity falls away. */
module ProfileAreas {
  import opened Common
  import opened Ordering
  import opened ValueArea
  import opened ProfileBatch
  import opened ProfileModel
  import opened ProfileRuns

  /** The activity of the traded levels, in ascending order of price. */
  function Levels(c: Config, r: Profile): seq<int> {
    ActivityList(r.volumes, r.counts, c.basis)
  }

  lemma {:induction false} TradedHasVolume(ts: seq<Trade>, b: int)
    requires (forall i :: 0 <= i < |ts| ==> ts[i].units > 0) && b in Buckets(ts)
    ensures VolumeAt(ts, b) > 0
  {
    var n := |ts| - 1;
    if ts[n].bucket == b {
      VolumePositive(ts[..n], b);
    } else {
      var i :| 0 <= i < |ts| && ts[i].bucket == b;
      assert ts[..n][i].bucket == b;
      TradedHasVolume(ts[..n], b);
    }
  }

  lemma TradedHasPeriod(ts: seq<Trade>, b: int)
    requires b in Buckets(ts)
    ensures CountAt(ts, b, {}) > 0
  {
    var i :| 0 <= i < |ts| && ts[i].bucket == b;
    assert ts[i].tpo in Periods(ts, b) - {};
  }

  lemma ActiveList(volumes: map<int, int>, counts: map<int, int>, basis: Basis)
    requires forall b :: b in volumes ==> volumes[b] > 0 && Get(counts, b) > 0
    ensures var act := ActivityList(volumes, counts, basis); forall i :: 0 <= i < |act| ==> act[i] > 0
  {
    assert forall i :: 0 <= i < |Sorted(volumes.Keys)| ==> Sorted(volumes.Keys)[i] in volumes;
  }

  /** Every level of a profile is active, by volume and by time. */
  lemma LevelsAreActive(c: Config, ts: seq<Trade>, r: Profile)
    requires IsProfileOf(c, ts, r) && forall i :: 0 <= i < |ts| ==> ts[i].units > 0
    ensures forall i :: 0 <= i < |Levels(c, r)| ==> Levels(c, r)[i] > 0
  {
    forall b | b in r.volumes ensures r.volumes[b] > 0 && Get(r.counts, b) > 0 {
      TradedHasVolume(ts, b);
      TradedHasPeriod(ts, b);
    }
    ActiveList(r.volumes, r.counts, c.basis);
  }

  lemma {:induction false} ActiveSum(act: seq<int>, n: nat)
    requires 0 < n <= |act| && forall i :: 0 <= i < |act| ==> act[i] > 0
    ensures Sum(act, 0, n) > 0
  {
    if n > 1 { ActiveSum(act, n - 1); }
  }

  /** In every run, point of control and value area of each returned profile are traded buckets, in
      order, and the levels between hold the configured share. */
  lemma ReturnedAreaIsSound(c: Config, ops: seq<Op>, i: nat)
    requires c.Valid() && i < |Execute(c, ops).emitted|
    ensures AreaIsSound(c, Execute(c, ops).emitted[i].0)
  {
    ProfilesAreExact(c, ops, i);
    ProfileArea(c, Execute(c, ops).emitted[i].1, Execute(c, ops).emitted[i].0);
  }

  lemma AreaIsComputed(c: Config, ts: seq<Trade>, r: Profile)
    requires c.Valid() && ts != [] && IsProfileOf(c, ts, r) && forall i :: 0 <= i < |ts| ==> ts[i].units > 0
    ensures var keys, act := Sorted(r.volumes.Keys), Levels(c, r);
            && keys != [] && |act| == |keys| && Activities(act) && Sum(act, 0, |act|) > 0
            && var a := AreaOf(keys, act, c.bps);
               a.poc < |keys| && a.val < |keys| && a.vah < |keys|
               && r.area == Some((keys[a.poc], keys[a.val], keys[a.vah]))
  {
    FirstIsTraded(ts);
    assert ts[0].bucket in Sorted(r.volumes.Keys);
    LevelsAreActive(c, ts, r);
    ActiveSum(Levels(c, r), |Levels(c, r)|);
    AreaIs(r.volumes, r.counts, c.basis, c.bps, r.area);
  }

  lemma FirstIsTraded(ts: seq<Trade>)
    requires ts != []
    ensures ts[0].bucket in Volumes(ts).Keys
  {
  }

  lemma AreaIs(volumes: map<int, int>, counts: map<int, int>, basis: Basis, bps: nat, area: Option<(int, int, int)>)
    requires Sorted(volumes.Keys) != [] && AreaFor(volumes, counts, basis, bps) == Ok(area)
    ensures var keys, act := Sorted(volumes.Keys), ActivityList(volumes, counts, basis);
            && |act| == |keys|
            && var a := AreaOf(keys, act, bps);
               && a.poc < |keys| && a.val < |keys| && a.vah < |keys|
               && area == Some((keys[a.poc], keys[a.val], keys[a.vah]))
  {
    AreaInside(Sorted(volumes.Keys), ActivityList(volumes, counts, basis), bps);
  }

  /** In every run, when the activity of a returned profile falls away from its point of control on both
      sides, no smaller set `s` of its levels, contiguous or not, holds the share of its value area. */
  lemma ReturnedAreaIsSmallest(c: Config, ops: seq<Op>, i: nat, s: set<nat>)
    requires c.Valid() && i < |Execute(c, ops).emitted|
    requires var r := Execute(c, ops).emitted[i].0;
             var keys, act := Sorted(r.volumes.Keys), Levels(c, r);
             && keys != [] && |act| == |keys| && (forall k :: k in s ==> k < |act|)
             && AreaOf(keys, act, c.bps).poc < |act| && FallsAwayFrom(act, AreaOf(keys, act, c.bps).poc)
             && SumOver(act, s, |act|) * 10_000 >= Sum(act, 0, |act|) * c.bps
    ensures var r := Execute(c, ops).emitted[i].0;
            var keys := Sorted(r.volumes.Keys);
            var a := AreaOf(keys, Levels(c, r), c.bps);
            && a.poc < |keys| && a.val < |keys| && a.vah < |keys|
            && r.area == Some((keys[a.poc], keys[a.val], keys[a.vah]))
            && |s| >= a.vah + 1 - a.val
  {
    var (r, ts) := Execute(c, ops).emitted[i];
    ProfilesAreExact(c, ops, i);
    AreaIsComputed(c, ts, r);
    AreaIsSmallest(Sorted(r.volumes.Keys), Levels(c, r), c.bps, s);
  }

  // ---- Live snapshots ----

  lemma SnapshotWithBasis(p: Builder, c: Config, basis: Basis, ts: seq<Trade>, r: Profile)
    requires Represents(p, ts) && LiveSnapshot(p, c, basis) == Ok(Some(r))
    ensures IsProfileOf(c.(basis := basis), ts, r)
  {
    LiveIsRecord(p, c, basis, c.(basis := basis), r);
    SnapshotIsProfile(p, c.(basis := basis), ts, r);
  }

  lemma LiveIsRecord(p: Builder, c: Config, basis: Basis, c': Config, r: Profile)
    requires LiveSnapshot(p, c, basis) == Ok(Some(r)) && c' == c.(basis := basis)
    requires p.session.Some?
    ensures Snapshot(Closed(p), c') == Ok(r)
  {
  }

  /** In every run a live snapshot with the configured basis is the profile of the current trades, and
      in a clean run so is one with any basis. */
  lemma LiveIsExact(c: Config, ops: seq<Op>, basis: Basis, r: Profile)
    requires c.Valid() && LiveSnapshot(Execute(c, ops).builder, c, basis) == Ok(Some(r))
    requires basis == c.basis || Clean(c, ops)
    ensures IsProfileOf(c.(basis := basis), Execute(c, ops).current, r)
  {
    var h := Execute(c, ops);
    if basis == c.basis {
      assert c.(basis := basis) == c;
      RunsAreSettled(c, ops);
      ReturnedIsProfile(c, h, r);
    } else {
      CurrentSessionIsExact(c, ops);
      SnapshotWithBasis(h.builder, c, basis, h.current, r);
    }
  }
}
