/** The synchronizer as the object that owns the protocol state and the book. */
module BookSynchronizer {
  import opened Common
  import opened BookModel
  import opened OrderBook
  import opened BookSync

  class Synchronizer {
    const book: L2Book
    const limits: Limits
    var state: SyncState
    var deltas: seq<Delta>
    var bytes: nat
    var first: Option<nat>
    var last: Option<nat>
    var expected: Option<nat>

    function View(): Sync
      reads this, book
    {
      Sync(state, book.View(), limits, Buffer(deltas, bytes, first, last), expected)
    }

    constructor (book: L2Book, limits: Limits)
      ensures this.book == book
      ensures View() == Sync(Idle, book.View(), limits, EmptyBuffer, None)
    {
      this.book, this.limits := book, limits;
      state, expected := Idle, None;
      deltas, bytes, first, last := [], 0, None, None;
    }

    method BeginResync()
      modifies this, book
      ensures View() == BookSync.BeginResync(old(View()))
    {
      state := Resynchronizing;
      book.validity := Synchronizing;
      book.Clear();
      deltas, bytes, first, last := [], 0, None, None;
      expected := None;
    }

    method Invalidate()
      modifies this, book
      ensures View() == BookSync.Invalidate(old(View()))
    {
      state := Stopped;
      book.validity := Validity.Invalid;
      deltas, bytes, first, last := [], 0, None, None;
    }

    method RequestSnapshot()
      modifies this, book
      ensures View() == BookSync.RequestSnapshot(old(View()))
    {
      state := SnapshotRequested;
      book.validity := Synchronizing;
    }

    method NoteGap()
      modifies this, book
      ensures View() == BookSync.NoteGap(old(View()))
    {
      state := GapDetected;
      book.validity := Validity.Invalid;
      deltas, bytes, first, last := [], 0, None, None;
    }

    method BufferDelta(d: Delta) returns (r: Result<(), BookError>)
      modifies this, book
      ensures View() == BookSync.BufferDelta(old(View()), d).0
      ensures r == match BookSync.BufferDelta(old(View()), d).1 case None => Ok(()) case Some(e) => Err(e)
    {
      var low, high := Smaller(first, d.receivedAt), Larger(last, d.receivedAt);
      var span := if high < low then 0 else high - low;
      if |deltas| >= limits.maxMessages || bytes + d.bytes > limits.maxBytes || span > limits.maxSpan {
        Invalidate();
        return Err(Desynchronized);
      }
      bytes := bytes + d.bytes;
      first, last := Some(low), Some(high);
      deltas := deltas + [d];
      if state == Idle || state == SnapshotRequested {
        state := BufferingDeltas;
      }
      r := Ok(());
    }

    method ApplySnapshotAndDrain(snap: Snapshot) returns (r: Result<(), BookError>)
      modifies this, book
      ensures View() == BookSync.ApplySnapshotAndDrain(old(View()), snap).0
      ensures r == match BookSync.ApplySnapshotAndDrain(old(View()), snap).1 case None => Ok(()) case Some(e) => Err(e)
    {
      state := SnapshotReceived;
      r := book.ApplySnapshot(snap.bids, snap.asks, Some(snap.sequence));
      if r.Err? {
        return;
      }
      state := ApplyingBufferedDeltas;
      var pending := Newer(deltas, snap.sequence);
      deltas, bytes, first, last := [], 0, None, None;
      var stop := DrainPending(snap.sequence, pending);
      match stop {
        case Gap =>
          NoteGap();
          return Err(Desynchronized);
        case Refused(e) =>
          return Err(e);
        case Done(applied) =>
          expected := Some(applied + 1);
          book.sequence := Some(applied);
          book.validity := Valid;
          state := Live;
          return Ok(());
      }
    }

    /** The loop over the buffered deltas that the snapshot does not cover. */
    method DrainPending(sequence: nat, pending: seq<Delta>) returns (stop: Stop)
      modifies book
      ensures (book.View(), stop) == Drained(old(book.View()), sequence, pending)
    {
      var applied := sequence;
      for i := 0 to |pending|
        invariant Drained(book.View(), applied, pending[i..]) == Drained(old(book.View()), sequence, pending)
      {
        var d := pending[i];
        assert pending[i..][1..] == pending[i + 1..];
        if d.sequence > applied {
          if d.sequence != applied + 1 {
            return Gap;
          }
          var r := book.ApplyChange(d.change);
          if r.Err? {
            return Refused(r.error);
          }
          applied := d.sequence;
        }
      }
      stop := Done(applied);
    }

    method OnLiveDelta(d: Delta) returns (r: Result<(), BookError>)
      modifies this, book
      ensures View() == BookSync.OnLiveDelta(old(View()), d).0
      ensures r == match BookSync.OnLiveDelta(old(View()), d).1 case None => Ok(()) case Some(e) => Err(e)
    {
      if state != Live {
        return Err(NotValid(book.validity));
      }
      var wanted := if expected.Some? then expected.value else d.sequence;
      if d.sequence < wanted {
        return Ok(());
      }
      if d.sequence > wanted {
        NoteGap();
        return Err(Desynchronized);
      }
      r := book.ApplyChange(d.change);
      if r.Err? {
        return;
      }
      expected := Some(d.sequence + 1);
      book.sequence := Some(d.sequence);
    }
  }
}
