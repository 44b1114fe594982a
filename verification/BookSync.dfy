/** The synchronization protocol above one book: buffered deltas, snapshot and drain,
    live deltas with gap detection. */
module BookSync {
  import opened Common
  import opened BookModel
  import opened OrderBook

  datatype SyncState =
    | Idle | BufferingDeltas | SnapshotRequested | SnapshotReceived | ApplyingBufferedDeltas
    | Live | GapDetected | Stopped | Resynchronizing

  datatype Limits = Limits(maxMessages: nat, maxBytes: nat, maxSpan: nat)

  datatype Delta = Delta(sequence: nat, bytes: nat, receivedAt: nat, change: Change)

  datatype Buffer = Buffer(deltas: seq<Delta>, bytes: nat, first: Option<nat>, last: Option<nat>)

  const EmptyBuffer := Buffer([], 0, None, None)

  datatype Sync = Sync(state: SyncState, book: Book, limits: Limits, buffer: Buffer, expected: Option<nat>)

  datatype Snapshot = Snapshot(bids: seq<Row>, asks: seq<Row>, sequence: nat)

  const Desynchronized := NotValid(Validity.Invalid)

  // ---- The operations, on values ----

  function BeginResync(s: Sync): Sync {
    var book := s.book.(validity := Synchronizing, levels := NoLevels, sequence := None);
    Sync(Resynchronizing, book, s.limits, EmptyBuffer, None)
  }

  function Invalidate(s: Sync): Sync {
    s.(state := Stopped, book := s.book.(validity := Validity.Invalid), buffer := EmptyBuffer)
  }

  function RequestSnapshot(s: Sync): Sync {
    s.(state := SnapshotRequested, book := s.book.(validity := Synchronizing))
  }

  function NoteGap(s: Sync): Sync {
    s.(state := GapDetected, book := s.book.(validity := Validity.Invalid), buffer := EmptyBuffer)
  }

  predicate Overflows(s: Sync, d: Delta) {
    var (low, high) := (Smaller(s.buffer.first, d.receivedAt), Larger(s.buffer.last, d.receivedAt));
    || |s.buffer.deltas| >= s.limits.maxMessages
    || s.buffer.bytes + d.bytes > s.limits.maxBytes
    || (if high < low then 0 else high - low) > s.limits.maxSpan
  }

  function BufferDelta(s: Sync, d: Delta): (Sync, Option<BookError>) {
    if Overflows(s, d) then (Invalidate(s), Some(Desynchronized))
    else
      var b := Buffer(s.buffer.deltas + [d], s.buffer.bytes + d.bytes,
                      Some(Smaller(s.buffer.first, d.receivedAt)), Some(Larger(s.buffer.last, d.receivedAt)));
      var state := if s.state == Idle || s.state == SnapshotRequested then BufferingDeltas else s.state;
      (s.(buffer := b, state := state), None)
  }

  /** How draining ends: with a last sequence, at a gap, or with a change the book refused. */
  datatype Stop = Done(last: nat) | Gap | Refused(error: BookError)

  function Drained(b: Book, last: nat, ds: seq<Delta>): (Book, Stop)
    decreases |ds|
  {
    if ds == [] then (b, Done(last))
    else if ds[0].sequence <= last then Drained(b, last, ds[1..])
    else if ds[0].sequence != last + 1 then (b, Gap)
    else
      var (b', error) := Changed(b, ds[0].change);
      if error.Some? then (b', Refused(error.value)) else Drained(b', ds[0].sequence, ds[1..])
  }

  /** The buffered deltas that the snapshot does not cover. */
  function Newer(ds: seq<Delta>, sequence: nat): seq<Delta> {
    if ds == [] then []
    else if ds[0].sequence > sequence then [ds[0]] + Newer(ds[1..], sequence)
    else Newer(ds[1..], sequence)
  }

  function ApplySnapshotAndDrain(s: Sync, snap: Snapshot): (Sync, Option<BookError>) {
    var replaced := Replaced(s.book, snap.bids, snap.asks, Some(snap.sequence));
    if replaced.Err? then (s.(state := SnapshotReceived), Some(replaced.error))
    else
      var (b, stop) := Drained(replaced.value, snap.sequence, Newer(s.buffer.deltas, snap.sequence));
      var s' := s.(state := ApplyingBufferedDeltas, book := b, buffer := EmptyBuffer);
      match stop
      case Gap => (NoteGap(s'), Some(Desynchronized))
      case Refused(error) => (s', Some(error))
      case Done(last) =>
        (s'.(state := Live, expected := Some(last + 1), book := b.(sequence := Some(last), validity := Valid)), None)
  }

  function OnLiveDelta(s: Sync, d: Delta): (Sync, Option<BookError>) {
    if s.state != Live then (s, Some(NotValid(s.book.validity)))
    else
      var expected := if s.expected.Some? then s.expected.value else d.sequence;
      if d.sequence < expected then (s, None)
      else if d.sequence > expected then (NoteGap(s), Some(Desynchronized))
      else
        var (b, error) := Changed(s.book, d.change);
        if error.Some? then (s.(book := b), error)
        else (s.(book := b.(sequence := Some(d.sequence)), expected := Some(d.sequence + 1)), None)
  }

  // ---- Draining a buffer refines delivering it live ----

  /** Live delivery of `ds` up to the first error, if any. */
  function Deliver(s: Sync, ds: seq<Delta>): (Sync, Option<BookError>)
    decreases |ds|
  {
    if ds == [] then (s, None)
    else
      var (s', error) := OnLiveDelta(s, ds[0]);
      if error.Some? then (s', error) else Deliver(s', ds[1..])
  }

  /** The filter is redundant: what it drops, the loop would skip. */
  lemma {:induction false} NewerIsRedundant(b: Book, sequence: nat, last: nat, ds: seq<Delta>)
    requires sequence <= last
    ensures Drained(b, last, Newer(ds, sequence)) == Drained(b, last, ds)
    decreases |ds|
  {
    if ds != [] {
      var d := ds[0];
      if d.sequence > sequence {
        assert Newer(ds, sequence)[1..] == Newer(ds[1..], sequence);
        if d.sequence <= last {
          NewerIsRedundant(b, sequence, last, ds[1..]);
        } else if d.sequence == last + 1 {
          NewerIsRedundant(Changed(b, d.change).0, sequence, d.sequence, ds[1..]);
        }
      } else {
        NewerIsRedundant(b, sequence, last, ds[1..]);
      }
    }
  }

  /** A live synchronizer whose book is `b`, taken to stand at `last`. */
  function LiveAt(s: Sync, b: Book, last: nat): Sync {
    s.(state := Live, buffer := EmptyBuffer, book := b.(sequence := Some(last)), expected := Some(last + 1))
  }

  lemma ChangeIgnoresSequence(b: Book, q: Option<nat>, c: Change)
    ensures Changed(b.(sequence := q), c) == (Changed(b, c).0.(sequence := q), Changed(b, c).1)
  {
  }

  lemma {:induction false} DrainedIsDelivered(s: Sync, b: Book, last: nat, ds: seq<Delta>)
    requires b.validity == Valid
    ensures var (b', stop) := Drained(b, last, ds);
            var (live, error) := Deliver(LiveAt(s, b, last), ds);
            && live.book.levels == b'.levels
            && match stop
               case Done(last') => error.None? && b'.validity == Valid && live == LiveAt(s, b', last')
               case Gap => error == Some(Desynchronized) && live.state == GapDetected
               case Refused(e) => error == Some(e) && live.state == Live && live.book.validity == b'.validity
    decreases |ds|
  {
    if ds != [] {
      var d := ds[0];
      if d.sequence <= last {
        DrainedIsDelivered(s, b, last, ds[1..]);
      } else if d.sequence == last + 1 {
        ChangeIgnoresSequence(b, Some(last), d.change);
        if Changed(b, d.change).1.None? {
          DrainedIsDelivered(s, Changed(b, d.change).0, d.sequence, ds[1..]);
        }
      }
    }
  }

  /** Buffer-then-drain refines live delivery. With an accepted snapshot, draining a buffer
      succeeds exactly when draining an empty one and delivering the buffer live does, and
      then the two synchronizers are equal; otherwise both stop with the same first error
      and the same levels. */
  lemma DrainRefinesLive(s: Sync, snap: Snapshot)
    requires Replaced(s.book, snap.bids, snap.asks, Some(snap.sequence)).Ok?
    ensures var (drained, error) := ApplySnapshotAndDrain(s, snap);
            var (empty, accepted) := ApplySnapshotAndDrain(s.(buffer := EmptyBuffer), snap);
            var (live, error') := Deliver(empty, s.buffer.deltas);
            && accepted.None?
            && error == error'
            && drained.book.levels == live.book.levels
            && (error.None? ==> drained == live)
            && (drained.state == GapDetected <==> live.state == GapDetected)
  {
    var b := Replaced(s.book, snap.bids, snap.asks, Some(snap.sequence)).value;
    NewerIsRedundant(b, snap.sequence, snap.sequence, s.buffer.deltas);
    DrainedIsDelivered(s, b, snap.sequence, s.buffer.deltas);
    assert ApplySnapshotAndDrain(s.(buffer := EmptyBuffer), snap).0 == LiveAt(s, b, snap.sequence);
  }

  // ---- The buffer's running aggregates ----

  function TotalBytes(ds: seq<Delta>): nat {
    if ds == [] then 0 else TotalBytes(ds[..|ds| - 1]) + ds[|ds| - 1].bytes
  }

  /** Some delta was received at `t`, and none before it (or after it, for the last). */
  predicate IsFirst(ds: seq<Delta>, t: nat) {
    (exists i :: 0 <= i < |ds| && ds[i].receivedAt == t) && forall i :: 0 <= i < |ds| ==> t <= ds[i].receivedAt
  }

  predicate IsLast(ds: seq<Delta>, t: nat) {
    (exists i :: 0 <= i < |ds| && ds[i].receivedAt == t) && forall i :: 0 <= i < |ds| ==> ds[i].receivedAt <= t
  }

  /** The aggregates are those of the buffered deltas, and no limit is exceeded. */
  predicate BufferOk(b: Buffer, limits: Limits) {
    && b.bytes == TotalBytes(b.deltas)
    && (b.first.None? <==> b.deltas == []) && (b.last.None? <==> b.deltas == [])
    && (b.deltas != [] ==>
          && IsFirst(b.deltas, b.first.value) && IsLast(b.deltas, b.last.value)
          && |b.deltas| <= limits.maxMessages && b.bytes <= limits.maxBytes)
    && forall i, j :: 0 <= i < |b.deltas| && 0 <= j < |b.deltas| ==>
         b.deltas[j].receivedAt - b.deltas[i].receivedAt <= limits.maxSpan
  }

  lemma BufferingKeepsAggregates(s: Sync, d: Delta)
    requires BufferOk(s.buffer, s.limits)
    ensures BufferOk(BufferDelta(s, d).0.buffer, s.limits)
  {
    if !Overflows(s, d) {
      var ds, ds' := s.buffer.deltas, s.buffer.deltas + [d];
      assert ds'[..|ds|] == ds;
      var low, high := Smaller(s.buffer.first, d.receivedAt), Larger(s.buffer.last, d.receivedAt);
      assert IsFirst(ds', low) by {
        if low == d.receivedAt {
          assert ds'[|ds|].receivedAt == low;
        } else {
          var i :| 0 <= i < |ds| && ds[i].receivedAt == low;
          assert ds'[i].receivedAt == low;
        }
      }
      assert IsLast(ds', high) by {
        if high == d.receivedAt {
          assert ds'[|ds|].receivedAt == high;
        } else {
          var i :| 0 <= i < |ds| && ds[i].receivedAt == high;
          assert ds'[i].receivedAt == high;
        }
      }
    }
  }
}
