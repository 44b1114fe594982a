/** Whole runs of a synchronizer: what a book that is live and valid holds, in terms of
    the calls that were made and nothing else. */
module SyncRuns {
  import opened Common
  import opened Decimal
  import opened BookSides
  import opened BookModel
  import opened OrderBook
  import opened BookSync

  datatype Op =
    | DoResync | DoInvalidate | DoRequest | DoGap
    | DoBuffer(delta: Delta) | DoSnapshot(snap: Snapshot) | DoLive(delta: Delta)

  function Apply(s: Sync, op: Op): Sync {
    match op
    case DoResync => BeginResync(s)
    case DoInvalidate => Invalidate(s)
    case DoRequest => RequestSnapshot(s)
    case DoGap => NoteGap(s)
    case DoBuffer(d) => BufferDelta(s, d).0
    case DoSnapshot(snap) => ApplySnapshotAndDrain(s, snap).0
    case DoLive(d) => OnLiveDelta(s, d).0
  }

  /** A run over a new synchronizer; failed calls are part of a run. */
  function Execute(start: Book, limits: Limits, ops: seq<Op>): Sync {
    if ops == [] then Sync(Idle, start, limits, EmptyBuffer, None)
    else Apply(Execute(start, limits, ops[..|ops| - 1]), ops[|ops| - 1])
  }

  /** One accepted change after another. */
  function Replay(b: Book, ds: seq<Delta>): Option<Book>
    decreases |ds|
  {
    if ds == [] then Some(b)
    else
      var (b', error) := Changed(b, ds[0].change);
      if error.Some? then None else Replay(b', ds[1..])
  }

  lemma {:induction false} ReplayOneMore(b: Book, ds: seq<Delta>, d: Delta)
    requires Replay(b, ds).Some?
    ensures var b' := Replay(b, ds).value;
            Replay(b, ds + [d]) == if Changed(b', d.change).1.Some? then None else Some(Changed(b', d.change).0)
    decreases |ds|
  {
    if ds == [] {
      assert (ds + [d])[1..] == [];
    } else {
      assert (ds + [d])[1..] == ds[1..] + [d];
      ReplayOneMore(Changed(b, ds[0].change).0, ds[1..], d);
    }
  }

  /** Buffered before the snapshot at `k`, or delivered live after it. */
  predicate Delivered(ops: seq<Op>, k: nat, d: Delta)
    requires k < |ops|
  {
    DoBuffer(d) in ops[..k] || DoLive(d) in ops[k + 1..]
  }

  /** `k` is the last snapshot call, and `ds` has one delivered delta for each sequence after
      the snapshot's, without a hole. */
  predicate Chain(ops: seq<Op>, k: nat, ds: seq<Delta>) {
    && k < |ops| && ops[k].DoSnapshot?
    && (forall j :: k < j < |ops| ==> !ops[j].DoSnapshot?)
    && (forall i :: 0 <= i < |ds| ==> ds[i].sequence == ops[k].snap.sequence + 1 + i)
    && (forall i :: 0 <= i < |ds| ==> Delivered(ops, k, ds[i]))
  }

  /** The book is the snapshot plus `ds`, each accepted, and stands at the last of them. */
  predicate Holds(start: Book, snap: Snapshot, ds: seq<Delta>, s: Sync) {
    var base := Replaced(start, snap.bids, snap.asks, Some(snap.sequence));
    && base.Ok?
    && Replay(base.value, ds).Some?
    && s.book == Replay(base.value, ds).value.(sequence := Some(snap.sequence + |ds|))
    && s.expected == Some(snap.sequence + |ds| + 1)
  }

  lemma DeliveredStays(ops: seq<Op>, op: Op, k: nat, d: Delta)
    requires k < |ops|
    ensures Delivered(ops, k, d) || op == DoLive(d) ==> Delivered(ops + [op], k, d)
  {
    assert (ops + [op])[..k] == ops[..k];
    assert (ops + [op])[k + 1..] == ops[k + 1..] + [op];
  }

  lemma ChainStays(ops: seq<Op>, op: Op, k: nat, ds: seq<Delta>)
    requires Chain(ops, k, ds) && !op.DoSnapshot?
    ensures Chain(ops + [op], k, ds)
  {
    forall i | 0 <= i < |ds| ensures Delivered(ops + [op], k, ds[i]) {
      DeliveredStays(ops, op, k, ds[i]);
    }
  }

  lemma ChainGrows(ops: seq<Op>, d: Delta, k: nat, ds: seq<Delta>)
    requires Chain(ops, k, ds) && d.sequence == ops[k].snap.sequence + 1 + |ds|
    ensures Chain(ops + [DoLive(d)], k, ds + [d])
  {
    forall i | 0 <= i < |ds + [d]| ensures Delivered(ops + [DoLive(d)], k, (ds + [d])[i]) {
      DeliveredStays(ops, DoLive(d), k, (ds + [d])[i]);
    }
  }

  lemma HoldsOneMore(start: Book, snap: Snapshot, ds: seq<Delta>, s: Sync, d: Delta)
    requires Holds(start, snap, ds, s)
    requires s.state == Live && s.expected == Some(d.sequence)
    requires Changed(s.book, d.change).1.None?
    ensures Holds(start, snap, ds + [d], OnLiveDelta(s, d).0)
  {
    var base := Replaced(start, snap.bids, snap.asks, Some(snap.sequence)).value;
    ReplayOneMore(base, ds, d);
    ChangeIgnoresSequence(Replay(base, ds).value, s.book.sequence, d.change);
  }

  /** What every call keeps, whatever it returns. */
  predicate Sound(start: Book, limits: Limits, s: Sync) {
    && s.limits == limits && s.book.scales == start.scales && s.book.depth == start.depth
    && Sane(s.book)
    && BufferOk(s.buffer, limits)
    && (s.state == Live ==> s.expected.Some? && s.book.sequence.Some? && s.expected.value == s.book.sequence.value + 1)
  }

  predicate BufferedAll(ops: seq<Op>, b: Buffer) {
    forall d :: d in b.deltas ==> DoBuffer(d) in ops
  }

  lemma {:induction false} DrainedShape(b: Book, last: nat, ds: seq<Delta>) returns (es: seq<Delta>)
    requires Sane(b)
    ensures var (b', stop) := Drained(b, last, ds);
            && Sane(b') && b'.scales == b.scales && b'.depth == b.depth
            && (stop.Done? ==>
                  && stop.last == last + |es|
                  && Replay(b, es) == Some(b')
                  && (forall i :: 0 <= i < |es| ==> es[i].sequence == last + 1 + i && es[i] in ds))
    decreases |ds|
  {
    es := [];
    if ds != [] {
      var d := ds[0];
      if d.sequence <= last {
        es := DrainedShape(b, last, ds[1..]);
      } else if d.sequence == last + 1 {
        ChangedSane(b, d.change);
        if Changed(b, d.change).1.None? {
          var tail := DrainedShape(Changed(b, d.change).0, d.sequence, ds[1..]);
          es := [d] + tail;
          assert es[1..] == tail;
        }
      }
    }
  }

  lemma {:induction false} NewerAreBuffered(ds: seq<Delta>, sequence: nat)
    ensures forall d :: d in Newer(ds, sequence) ==> d in ds
  {
    if ds != [] { NewerAreBuffered(ds[1..], sequence); }
  }

  lemma ReplacedIgnoresLevels(a: Book, b: Book, snap: Snapshot)
    requires a.scales == b.scales && a.depth == b.depth
    ensures Replaced(a, snap.bids, snap.asks, Some(snap.sequence))
         == Replaced(b, snap.bids, snap.asks, Some(snap.sequence))
  {
  }

  lemma {:induction false} ReplayStaysValid(b: Book, ds: seq<Delta>)
    requires b.validity == Valid && Replay(b, ds).Some?
    ensures Replay(b, ds).value.validity == Valid
    decreases |ds|
  {
    if ds != [] { ReplayStaysValid(Changed(b, ds[0].change).0, ds[1..]); }
  }

  lemma SnapshotSound(start: Book, limits: Limits, s: Sync, snap: Snapshot)
    requires Sound(start, limits, s)
    ensures Sound(start, limits, ApplySnapshotAndDrain(s, snap).0)
  {
    var replaced := Replaced(s.book, snap.bids, snap.asks, Some(snap.sequence));
    if replaced.Ok? {
      ReplacedSane(s.book, snap.bids, snap.asks, Some(snap.sequence));
      var es := DrainedShape(replaced.value, snap.sequence, Newer(s.buffer.deltas, snap.sequence));
      if Drained(replaced.value, snap.sequence, Newer(s.buffer.deltas, snap.sequence)).1.Done? {
        ReplayStaysValid(replaced.value, es);
      }
    }
  }

  lemma ApplySound(start: Book, limits: Limits, s: Sync, op: Op)
    requires Sound(start, limits, s)
    ensures Sound(start, limits, Apply(s, op))
  {
    match op
    case DoSnapshot(snap) => SnapshotSound(start, limits, s, snap);
    case DoLive(d) => ChangedSane(s.book, d.change);
    case DoBuffer(d) => BufferingKeepsAggregates(s, d);
    case _ =>
  }

  /** After every run a valid book is uncrossed, positive and within its depth, the buffer is
      within its limits with true aggregates, and a live book stands just before what it expects. */
  lemma {:induction false} RunsAreSound(start: Book, limits: Limits, ops: seq<Op>)
    requires Sane(start)
    ensures Sound(start, limits, Execute(start, limits, ops))
    ensures BufferedAll(ops, Execute(start, limits, ops).buffer)
  {
    if ops != [] {
      var n := |ops| - 1;
      RunsAreSound(start, limits, ops[..n]);
      ApplySound(start, limits, Execute(start, limits, ops[..n]), ops[n]);
    }
  }

  /** An accepted snapshot call explains the book it leaves. */
  lemma SnapshotHolds(start: Book, ops: seq<Op>, s: Sync, snap: Snapshot) returns (ds: seq<Delta>)
    requires s.book.scales == start.scales && s.book.depth == start.depth
    requires BufferedAll(ops, s.buffer)
    requires ApplySnapshotAndDrain(s, snap).1.None?
    ensures Chain(ops + [DoSnapshot(snap)], |ops|, ds)
    ensures Holds(start, snap, ds, ApplySnapshotAndDrain(s, snap).0)
  {
    var base := Replaced(s.book, snap.bids, snap.asks, Some(snap.sequence)).value;
    ReplacedIgnoresLevels(s.book, start, snap);
    ReplacedSane(s.book, snap.bids, snap.asks, Some(snap.sequence));
    ds := DrainedShape(base, snap.sequence, Newer(s.buffer.deltas, snap.sequence));
    ReplayStaysValid(base, ds);
    var (b, stop) := Drained(base, snap.sequence, Newer(s.buffer.deltas, snap.sequence));
    SnapshotLeaves(s, snap, base, b, stop.last);
    HoldsAt(start, snap, ds, ApplySnapshotAndDrain(s, snap).0, base, b, stop.last);
    NewerAreBuffered(s.buffer.deltas, snap.sequence);
    BufferedChain(ops, s.buffer, snap, ds);
  }

  lemma HoldsAt(start: Book, snap: Snapshot, ds: seq<Delta>, s: Sync, base: Book, b: Book, last: nat)
    requires Replaced(start, snap.bids, snap.asks, Some(snap.sequence)) == Ok(base)
    requires Replay(base, ds) == Some(b) && last == snap.sequence + |ds|
    requires s.book == b.(sequence := Some(last)) && s.expected == Some(last + 1)
    ensures Holds(start, snap, ds, s)
  {
  }

  lemma SnapshotLeaves(s: Sync, snap: Snapshot, base: Book, b: Book, last: nat)
    requires Replaced(s.book, snap.bids, snap.asks, Some(snap.sequence)) == Ok(base) && b.validity == Valid
    requires Drained(base, snap.sequence, Newer(s.buffer.deltas, snap.sequence)) == (b, Done(last))
    ensures ApplySnapshotAndDrain(s, snap).0.book == b.(sequence := Some(last))
    ensures ApplySnapshotAndDrain(s, snap).0.expected == Some(last + 1)
  {
  }

  lemma BufferedChain(ops: seq<Op>, buffer: Buffer, snap: Snapshot, ds: seq<Delta>)
    requires BufferedAll(ops, buffer)
    requires forall i :: 0 <= i < |ds| ==> ds[i].sequence == snap.sequence + 1 + i && ds[i] in buffer.deltas
    ensures Chain(ops + [DoSnapshot(snap)], |ops|, ds)
  {
    assert (ops + [DoSnapshot(snap)])[..|ops|] == ops;
  }

  /** Except for an accepted snapshot or an accepted live delta, a call after which the
      synchronizer is live found it live and left book and expectation alone. */
  lemma OtherwiseUnchanged(s: Sync, op: Op)
    requires Apply(s, op).state == Live && Apply(s, op).book.validity == Valid
    requires op.DoSnapshot? ==> ApplySnapshotAndDrain(s, op.snap).1.Some?
    requires op.DoLive? && s.expected == Some(op.delta.sequence) ==> Changed(s.book, op.delta.change).1.Some?
    requires s.state == Live ==> s.expected.Some?
    ensures !op.DoSnapshot?
    ensures s.state == Live && Apply(s, op).book == s.book && Apply(s, op).expected == s.expected
  {
  }

  predicate Explained(start: Book, limits: Limits, ops: seq<Op>, k: nat, ds: seq<Delta>) {
    Chain(ops, k, ds) && Holds(start, ops[k].snap, ds, Execute(start, limits, ops))
  }

  lemma ExplainedBySnapshot(start: Book, limits: Limits, ops: seq<Op>, snap: Snapshot) returns (ds: seq<Delta>)
    requires Sane(start) && ApplySnapshotAndDrain(Execute(start, limits, ops), snap).1.None?
    ensures Explained(start, limits, ops + [DoSnapshot(snap)], |ops|, ds)
  {
    RunsAreSound(start, limits, ops);
    assert (ops + [DoSnapshot(snap)])[..|ops|] == ops;
    ds := SnapshotHolds(start, ops, Execute(start, limits, ops), snap);
  }

  lemma ExplainedByDelta(start: Book, limits: Limits, ops: seq<Op>, d: Delta, k: nat, ds: seq<Delta>)
    requires Explained(start, limits, ops, k, ds)
    requires var s := Execute(start, limits, ops);
             s.state == Live && s.expected == Some(d.sequence) && Changed(s.book, d.change).1.None?
    ensures Explained(start, limits, ops + [DoLive(d)], k, ds + [d])
  {
    assert (ops + [DoLive(d)])[..|ops|] == ops;
    ChainGrows(ops, d, k, ds);
    HoldsOneMore(start, ops[k].snap, ds, Execute(start, limits, ops), d);
  }

  lemma ExplainedStill(start: Book, limits: Limits, ops: seq<Op>, op: Op, k: nat, ds: seq<Delta>)
    requires Explained(start, limits, ops, k, ds) && !op.DoSnapshot?
    requires var s := Execute(start, limits, ops); Apply(s, op).book == s.book && Apply(s, op).expected == s.expected
    ensures Explained(start, limits, ops + [op], k, ds)
  {
    ExecuteMore(start, limits, ops, op);
    ChainStays(ops, op, k, ds);
    HoldsSame(start, ops[k].snap, ds, Execute(start, limits, ops), Execute(start, limits, ops + [op]));
  }

  lemma ExecuteMore(start: Book, limits: Limits, ops: seq<Op>, op: Op)
    ensures Execute(start, limits, ops + [op]) == Apply(Execute(start, limits, ops), op)
  {
    assert (ops + [op])[..|ops|] == ops;
  }

  lemma HoldsSame(start: Book, snap: Snapshot, ds: seq<Delta>, s: Sync, s': Sync)
    requires Holds(start, snap, ds, s) && s'.book == s.book && s'.expected == s.expected
    ensures Holds(start, snap, ds, s')
  {
  }

  /** A book that is live and valid after a run is the last snapshot of the run plus exactly one
      delivered, accepted delta for each sequence up to its own, with the next one expected. */
  lemma {:induction false} LiveBookIsExplained(start: Book, limits: Limits, ops: seq<Op>)
    returns (k: nat, ds: seq<Delta>)
    requires Sane(start)
    requires Execute(start, limits, ops).state == Live && Execute(start, limits, ops).book.validity == Valid
    ensures Explained(start, limits, ops, k, ds)
  {
    var prior, op := ops[..|ops| - 1], ops[|ops| - 1];
    var s := Execute(start, limits, prior);
    RunsAreSound(start, limits, prior);
    assert prior + [op] == ops;
    if op.DoSnapshot? && ApplySnapshotAndDrain(s, op.snap).1.None? {
      k := |prior|;
      ds := ExplainedBySnapshot(start, limits, prior, op.snap);
    } else if op.DoLive? && s.state == Live && s.expected == Some(op.delta.sequence)
        && Changed(s.book, op.delta.change).1.None? {
      k, ds := LiveBookIsExplained(start, limits, prior);
      ExplainedByDelta(start, limits, prior, op.delta, k, ds);
      ds := ds + [op.delta];
    } else {
      OtherwiseUnchanged(s, op);
      k, ds := LiveBookIsExplained(start, limits, prior);
      ExplainedStill(start, limits, prior, op, k, ds);
    }
  }

  // ---- Live with a book that is not valid ----

  /** A live book, valid until now, is delivered the expected delta and that reaches the other side. */
  predicate Crosses(s: Sync, op: Op) {
    && s.state == Live && s.book.validity == Valid
    && op.DoLive? && s.expected == Some(op.delta.sequence) && Reaches(s.book, op.delta.change)
  }

  /** A delta that is not beyond the expected one, or one that the buffer holds. */
  predicate Quiet(s: Sync, op: Op) {
    || (op.DoLive? && s.expected.Some? && op.delta.sequence <= s.expected.value)
    || (op.DoBuffer? && !Overflows(s, op.delta))
  }

  predicate LiveInvalid(s: Sync) {
    s.state == Live && s.book.validity != Valid
  }

  /** Exactly which call leaves a live synchronizer over a book that is not valid: one that crosses,
      or after that one that is quiet. */
  lemma LiveInvalidStep(start: Book, limits: Limits, s: Sync, op: Op)
    requires Sound(start, limits, s)
    ensures LiveInvalid(Apply(s, op)) <==> Crosses(s, op) || (LiveInvalid(s) && Quiet(s, op))
  {
    if op.DoLive? && s.book.validity == Valid { CrossesExactly(s.book, op.delta.change); }
  }

  /** A live delta crossed at some point of the run, and since then every call was quiet. */
  predicate CrossedSince(start: Book, limits: Limits, ops: seq<Op>) {
    exists j :: 0 <= j < |ops| && CrossedAt(start, limits, ops, j)
  }

  predicate QuietAt(start: Book, limits: Limits, ops: seq<Op>, k: nat)
    requires k < |ops|
  {
    Quiet(Execute(start, limits, ops[..k]), ops[k])
  }

  predicate CrossedAt(start: Book, limits: Limits, ops: seq<Op>, j: nat)
    requires j < |ops|
  {
    && Crosses(Execute(start, limits, ops[..j]), ops[j])
    && forall k :: j < k < |ops| ==> QuietAt(start, limits, ops, k)
  }

  lemma QuietEarlier(start: Book, limits: Limits, ops: seq<Op>, n: nat, k: nat)
    requires k < n <= |ops|
    ensures QuietAt(start, limits, ops[..n], k) <==> QuietAt(start, limits, ops, k)
  {
    assert ops[..n][..k] == ops[..k];
  }

  lemma CrossedEarlier(start: Book, limits: Limits, ops: seq<Op>, j: nat)
    requires j < |ops| - 1
    ensures var n := |ops| - 1;
            (CrossedAt(start, limits, ops, j)
             <==> CrossedAt(start, limits, ops[..n], j) && QuietAt(start, limits, ops, n))
  {
    var n := |ops| - 1;
    assert ops[..n][..j] == ops[..j];
    forall k | j < k < n ensures QuietAt(start, limits, ops[..n], k) <==> QuietAt(start, limits, ops, k) {
      QuietEarlier(start, limits, ops, n, k);
    }
  }

  lemma CrossedStep(start: Book, limits: Limits, ops: seq<Op>)
    requires ops != []
    ensures var n := |ops| - 1;
            var s := Execute(start, limits, ops[..n]);
            (CrossedSince(start, limits, ops)
             <==> Crosses(s, ops[n]) || (CrossedSince(start, limits, ops[..n]) && Quiet(s, ops[n])))
  {
    var n := |ops| - 1;
    if CrossedSince(start, limits, ops) {
      var j :| 0 <= j < |ops| && CrossedAt(start, limits, ops, j);
      if j < n { CrossedEarlier(start, limits, ops, j); }
    }
    if Crosses(Execute(start, limits, ops[..n]), ops[n]) {
      assert CrossedAt(start, limits, ops, n);
    } else if CrossedSince(start, limits, ops[..n]) && Quiet(Execute(start, limits, ops[..n]), ops[n]) {
      var j :| 0 <= j < n && CrossedAt(start, limits, ops[..n], j);
      CrossedEarlier(start, limits, ops, j);
    }
  }

  /** After every run: live over a book that is not valid, exactly when a live delta crossed and every
      call since was quiet. */
  lemma {:induction false} LiveInvalidExactly(start: Book, limits: Limits, ops: seq<Op>)
    requires Sane(start)
    ensures LiveInvalid(Execute(start, limits, ops)) <==> CrossedSince(start, limits, ops)
  {
    if ops != [] {
      var n := |ops| - 1;
      RunsAreSound(start, limits, ops[..n]);
      LiveInvalidStep(start, limits, Execute(start, limits, ops[..n]), ops[n]);
      LiveInvalidExactly(start, limits, ops[..n]);
      CrossedStep(start, limits, ops);
    }
  }

  /** From the crossing on no live delta changes the book, and only a duplicate is not an error. */
  lemma CrossedWhileLive(start: Book, limits: Limits, s: Sync, d: Delta, next: Delta)
    requires Sound(start, limits, s) && Crosses(s, DoLive(d))
    ensures var s' := OnLiveDelta(s, d).0;
            && LiveInvalid(s') && s'.expected == s.expected
            && OnLiveDelta(s', next).0.book.(validity := Validity.Invalid) == s'.book
            && OnLiveDelta(s', next).0.book.validity == Validity.Invalid
            && (OnLiveDelta(s', next).1.None? <==> next.sequence < d.sequence)
  {
    CrossesExactly(s.book, d.change);
  }

  // ---- A run that gets there ----

  const EmptyBook := Book(Scales(0, 0), None, NoLevels, Synchronizing, None)
  const OneOne := Snapshot([(Fixed(100, 0), Fixed(1, 0))], [(Fixed(101, 0), Fixed(1, 0))], 5)
  const CrossingBid := Delta(6, 1, 0, Change(Bid, Upsert, Fixed(101, 0), Some(Fixed(1, 0))))

  lemma OneRow(l: Levels, side: Side, row: Row)
    requires row.0.scale == 0 && row.1.scale == 0 && row.1.coefficient > 0
    ensures InsertAll(l, side, [row], Scales(0, 0))
         == Ok(Mutate(l, Mutation(side, row.0.coefficient, Some(row.1.coefficient))))
  {
    assert [row][..0] == [] && InsertAll(l, side, [], Scales(0, 0)) == Ok(l);
  }

  const OneOneBook := Book(Scales(0, 0), None, Levels(map[100 := 1], map[101 := 1]), Valid, Some(5))

  lemma OneOneIsReplaced()
    ensures Replaced(EmptyBook, OneOne.bids, OneOne.asks, Some(5)) == Ok(OneOneBook)
  {
    OneRow(NoLevels, Bid, OneOne.bids[0]);
    var withBid := Levels(map[100 := 1], map[]);
    OneRow(withBid, Ask, OneOne.asks[0]);
    assert Mutate(NoLevels, Mutation(Bid, 100, Some(1))) == withBid;
    assert Mutate(withBid, Mutation(Ask, 101, Some(1))) == OneOneBook.levels;
    assert Uncrossed(OneOneBook.levels);
  }

  lemma OneOneIsAccepted(limits: Limits)
    ensures var s := Apply(Sync(Idle, EmptyBook, limits, EmptyBuffer, None), DoSnapshot(OneOne));
            s.state == Live && s.expected == Some(6) && s.book == OneOneBook
  {
    OneOneIsReplaced();
    assert Newer([], 5) == [];
  }

  /** A snapshot with a bid at 100 and an ask at 101, then the next delta with a bid at 101. */
  lemma ACrossedRun(limits: Limits)
    ensures LiveInvalid(Execute(EmptyBook, limits, [DoSnapshot(OneOne), DoLive(CrossingBid)]))
  {
    var ops := [DoSnapshot(OneOne), DoLive(CrossingBid)];
    OneOneIsAccepted(limits);
    assert ops[..1] == [DoSnapshot(OneOne)] && ops[..1][..0] == [];
    assert Execute(EmptyBook, limits, []) == Sync(Idle, EmptyBook, limits, EmptyBuffer, None);
    var s := Execute(EmptyBook, limits, ops[..1]);
    assert 101 in s.book.levels.Of(Other(Bid)) && Meets(Bid, 101, 101);
    assert CrossedAt(EmptyBook, limits, ops, 1);
    LiveInvalidExactly(EmptyBook, limits, ops);
  }
}
