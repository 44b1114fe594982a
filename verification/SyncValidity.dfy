/** What a valid book holds after any run, live or not, and exactly when its sequence is that of the
    last delta it holds. */
module SyncValidity {
  import opened Common
  import opened Decimal
  import opened BookSides
  import opened BookModel
  import opened OrderBook
  import opened BookSync
  import opened SyncRuns

  // ---- One drain ----

  /** The deltas that a drain applies before it ends or stops. */
  function Applied(b: Book, last: nat, ds: seq<Delta>): seq<Delta>
    decreases |ds|
  {
    if ds == [] then []
    else if ds[0].sequence <= last then Applied(b, last, ds[1..])
    else if ds[0].sequence != last + 1 then []
    else
      var (b', error) := Changed(b, ds[0].change);
      if error.Some? then [] else [ds[0]] + Applied(b', ds[0].sequence, ds[1..])
  }

  lemma RefusalKeepsValid(b: Book, c: Change)
    requires Changed(b, c).1.Some? && Changed(b, c).0.validity == Valid
    ensures Changed(b, c).0 == b
  {
  }

  lemma ReplayFirst(b: Book, d: Delta, ds: seq<Delta>)
    requires Changed(b, d.change).1.None?
    ensures Replay(b, [d] + ds) == Replay(Changed(b, d.change).0, ds)
  {
    assert ([d] + ds)[1..] == ds;
  }

  /** They are the consecutive ones, and a book that is still valid is the one they lead to. */
  lemma {:induction false} AppliedMeaning(b: Book, last: nat, ds: seq<Delta>)
    ensures var es := Applied(b, last, ds);
            && (forall i :: 0 <= i < |es| ==> es[i].sequence == last + 1 + i && es[i] in ds)
            && Replay(b, es).Some?
            && (Drained(b, last, ds).1.Done? ==> Drained(b, last, ds).1.last == last + |es|)
            && (Drained(b, last, ds).0.validity == Valid ==> Replay(b, es) == Some(Drained(b, last, ds).0))
    decreases |ds|
  {
    if ds != [] {
      var d := ds[0];
      if d.sequence <= last {
        AppliedMeaning(b, last, ds[1..]);
      } else if d.sequence == last + 1 {
        if Changed(b, d.change).1.None? {
          var b' := Changed(b, d.change).0;
          AppliedMeaning(b', d.sequence, ds[1..]);
          ReplayFirst(b, d, Applied(b', d.sequence, ds[1..]));
        } else if Changed(b, d.change).0.validity == Valid {
          RefusalKeepsValid(b, d.change);
        }
      }
    }
  }

  // ---- Which snapshot a book comes from ----

  function Base(b: Book, snap: Snapshot): Result<Book, BookError> {
    Replaced(b, snap.bids, snap.asks, Some(snap.sequence))
  }

  /** The call replaces the book by its snapshot, whatever becomes of the drain. */
  predicate Replaces(s: Sync, op: Op) {
    op.DoSnapshot? && Base(s.book, op.snap).Ok?
  }

  /** The drain stops at a delta that the book refuses, after it applied another. */
  predicate StopsLate(s: Sync, snap: Snapshot) {
    && Base(s.book, snap).Ok?
    && var newer := Newer(s.buffer.deltas, snap.sequence);
       Drained(Base(s.book, snap).value, snap.sequence, newer).1.Refused?
       && Applied(Base(s.book, snap).value, snap.sequence, newer) != []
  }

  predicate ReplacesAt(start: Book, limits: Limits, ops: seq<Op>, k: nat)
    requires k < |ops|
  {
    Replaces(Execute(start, limits, ops[..k]), ops[k])
  }

  /** Call `k` is the last that replaced the book. */
  predicate LastReplacement(start: Book, limits: Limits, ops: seq<Op>, k: nat) {
    k < |ops| && ReplacesAt(start, limits, ops, k) && forall j :: k < j < |ops| ==> !ReplacesAt(start, limits, ops, j)
  }

  /** The levels are those of the snapshot plus `ds`, one delivered delta for each sequence. */
  predicate Follows(start: Book, ops: seq<Op>, k: nat, ds: seq<Delta>, b: Book)
    requires k < |ops| && ops[k].DoSnapshot?
  {
    var snap := ops[k].snap;
    && Base(start, snap).Ok? && Replay(Base(start, snap).value, ds).Some?
    && b == Replay(Base(start, snap).value, ds).value.(sequence := b.sequence)
    && (forall i :: 0 <= i < |ds| ==> ds[i].sequence == snap.sequence + 1 + i)
    && (forall i :: 0 <= i < |ds| ==> Delivered(ops, k, ds[i]))
  }

  /** The sequence of the book: that of its last delta, or, after a drain that stopped late, still that
      of the snapshot. */
  predicate StandsAt(s: Sync, snap: Snapshot, ds: seq<Delta>, late: bool) {
    if late then ds != [] && s.state != Live && s.book.sequence == Some(snap.sequence)
    else s.book.sequence == Some(snap.sequence + |ds|)
  }

  // ---- The steps ----

  /** What a call that replaces the book leaves, if that is valid. */
  lemma ReplacementLeaves(s: Sync, snap: Snapshot, base: Book, newer: seq<Delta>, ds: seq<Delta>)
    requires Base(s.book, snap) == Ok(base) && Apply(s, DoSnapshot(snap)).book.validity == Valid
    requires newer == Newer(s.buffer.deltas, snap.sequence) && ds == Applied(base, snap.sequence, newer)
    ensures var s' := Apply(s, DoSnapshot(snap));
            && Replay(base, ds).Some? && s'.book == Replay(base, ds).value.(sequence := s'.book.sequence)
            && StandsAt(s', snap, ds, StopsLate(s, snap))
  {
    AppliedMeaning(base, snap.sequence, newer);
    DrainedSequence(base, snap.sequence, newer);
    if Drained(base, snap.sequence, newer).1.Done? { DrainedDone(base, snap.sequence, newer); }
  }

  lemma ReplacementFollows(start: Book, ops: seq<Op>, s: Sync, snap: Snapshot, ds: seq<Delta>)
    requires s.book.scales == start.scales && s.book.depth == start.depth && BufferedAll(ops, s.buffer)
    requires Base(s.book, snap).Ok? && Apply(s, DoSnapshot(snap)).book.validity == Valid
    requires ds == Applied(Base(s.book, snap).value, snap.sequence, Newer(s.buffer.deltas, snap.sequence))
    ensures Follows(start, ops + [DoSnapshot(snap)], |ops|, ds, Apply(s, DoSnapshot(snap)).book)
    ensures StandsAt(Apply(s, DoSnapshot(snap)), snap, ds, StopsLate(s, snap))
  {
    var base, newer := Base(s.book, snap).value, Newer(s.buffer.deltas, snap.sequence);
    ReplacementLeaves(s, snap, base, newer, ds);
    ReplacedIgnoresLevels(s.book, start, snap);
    AppliedMeaning(base, snap.sequence, newer);
    NewerAreBuffered(s.buffer.deltas, snap.sequence);
    BufferedChain(ops, s.buffer, snap, ds);
  }

  lemma {:induction false} DrainedSequence(b: Book, last: nat, ds: seq<Delta>)
    ensures Drained(b, last, ds).0.sequence == b.sequence
    decreases |ds|
  {
    if ds != [] {
      if ds[0].sequence <= last {
        DrainedSequence(b, last, ds[1..]);
      } else if ds[0].sequence == last + 1 && Changed(b, ds[0].change).1.None? {
        DrainedSequence(Changed(b, ds[0].change).0, ds[0].sequence, ds[1..]);
      }
    }
  }

  lemma {:induction false} DrainedDone(b: Book, last: nat, ds: seq<Delta>)
    requires b.validity == Valid && Drained(b, last, ds).1.Done?
    ensures Drained(b, last, ds).0.validity == Valid
    decreases |ds|
  {
    if ds != [] {
      if ds[0].sequence <= last {
        DrainedDone(b, last, ds[1..]);
      } else if ds[0].sequence == last + 1 && Changed(b, ds[0].change).1.None? {
        DrainedDone(Changed(b, ds[0].change).0, ds[0].sequence, ds[1..]);
      }
    }
  }

  /** A live delta that the book accepts. */
  predicate Takes(s: Sync, op: Op) {
    && op.DoLive? && s.state == Live && s.expected == Some(op.delta.sequence)
    && Changed(s.book, op.delta.change).1.None?
  }

  /** Any other call that leaves the book valid found it so and left it alone. */
  lemma OtherwiseKept(s: Sync, op: Op)
    requires Apply(s, op).book.validity == Valid && !Replaces(s, op) && !Takes(s, op)
    requires s.state == Live ==> s.expected.Some?
    ensures Apply(s, op).book == s.book && (Apply(s, op).state == Live ==> s.state == Live)
  {
    if op.DoLive? && s.state == Live && s.expected == Some(op.delta.sequence) {
      RefusalKeepsValid(s.book, op.delta.change);
    }
  }

  /** A live book stands at its last delta, and then at the one it takes. */
  lemma TakesStands(start: Book, limits: Limits, s: Sync, d: Delta, snap: Snapshot, ds: seq<Delta>, late: bool)
    requires Sound(start, limits, s) && Takes(s, DoLive(d)) && StandsAt(s, snap, ds, late)
    ensures d.sequence == snap.sequence + 1 + |ds|
    ensures StandsAt(Apply(s, DoLive(d)), snap, ds + [d], late)
  {
  }

  lemma TakesFollows(start: Book, ops: seq<Op>, k: nat, ds: seq<Delta>, s: Sync, d: Delta)
    requires k < |ops| && ops[k].DoSnapshot? && Follows(start, ops, k, ds, s.book) && Takes(s, DoLive(d))
    requires d.sequence == ops[k].snap.sequence + 1 + |ds|
    ensures Follows(start, ops + [DoLive(d)], k, ds + [d], Apply(s, DoLive(d)).book)
  {
    var base := Base(start, ops[k].snap).value;
    ReplayOneMore(base, ds, d);
    ChangeIgnoresSequence(Replay(base, ds).value, s.book.sequence, d.change);
    forall i | 0 <= i < |ds + [d]| ensures Delivered(ops + [DoLive(d)], k, (ds + [d])[i]) {
      DeliveredStays(ops, DoLive(d), k, (ds + [d])[i]);
    }
  }

  lemma FollowsStays(start: Book, ops: seq<Op>, op: Op, k: nat, ds: seq<Delta>, b: Book)
    requires k < |ops| && ops[k].DoSnapshot? && Follows(start, ops, k, ds, b)
    ensures Follows(start, ops + [op], k, ds, b)
  {
    forall i | 0 <= i < |ds| ensures Delivered(ops + [op], k, ds[i]) { DeliveredStays(ops, op, k, ds[i]); }
  }

  lemma ReplacementStays(start: Book, limits: Limits, ops: seq<Op>, op: Op, k: nat)
    requires !Replaces(Execute(start, limits, ops), op)
    ensures LastReplacement(start, limits, ops, k) ==> LastReplacement(start, limits, ops + [op], k)
    ensures (forall j :: 0 <= j < |ops| ==> !ReplacesAt(start, limits, ops, j))
        ==> forall j :: 0 <= j < |ops + [op]| ==> !ReplacesAt(start, limits, ops + [op], j)
  {
    forall j | 0 <= j < |ops| ensures ReplacesAt(start, limits, ops + [op], j) <==> ReplacesAt(start, limits, ops, j) {
      assert (ops + [op])[..j] == ops[..j];
    }
    assert (ops + [op])[..|ops|] == ops;
  }

  // ---- Whole runs ----

  /** Where a valid book comes from: nothing replaced the book that the run began with, or it follows
      from the last snapshot that replaced it. */
  predicate ComesFrom(start: Book, limits: Limits, ops: seq<Op>, k: nat, ds: seq<Delta>) {
    var s := Execute(start, limits, ops);
    if k >= |ops| then
      && s.book == start && s.state != Live
      && forall j :: 0 <= j < |ops| ==> !ReplacesAt(start, limits, ops, j)
    else
      && LastReplacement(start, limits, ops, k) && Follows(start, ops, k, ds, s.book)
      && StandsAt(s, ops[k].snap, ds, StopsLate(Execute(start, limits, ops[..k]), ops[k].snap))
  }

  lemma AtReplacement(start: Book, limits: Limits, ops: seq<Op>, op: Op) returns (ds: seq<Delta>)
    requires Sane(start) && Replaces(Execute(start, limits, ops), op)
    requires Execute(start, limits, ops + [op]).book.validity == Valid
    ensures ComesFrom(start, limits, ops + [op], |ops|, ds)
  {
    var s := Execute(start, limits, ops);
    assert (ops + [op])[..|ops|] == ops;
    RunsAreSound(start, limits, ops);
    ds := Applied(Base(s.book, op.snap).value, op.snap.sequence, Newer(s.buffer.deltas, op.snap.sequence));
    ReplacementFollows(start, ops, s, op.snap, ds);
  }

  lemma AtTaken(start: Book, limits: Limits, ops: seq<Op>, op: Op, k: nat, ds: seq<Delta>)
    requires Sound(start, limits, Execute(start, limits, ops)) && ComesFrom(start, limits, ops, k, ds)
    requires k < |ops| && Takes(Execute(start, limits, ops), op)
    ensures ComesFrom(start, limits, ops + [op], k, ds + [op.delta])
  {
    var s, snap := Execute(start, limits, ops), ops[k].snap;
    assert (ops + [op])[..|ops|] == ops && (ops + [op])[..k] == ops[..k];
    ReplacementStays(start, limits, ops, op, k);
    TakesStands(start, limits, s, op.delta, snap, ds, StopsLate(Execute(start, limits, ops[..k]), snap));
    TakesFollows(start, ops, k, ds, s, op.delta);
  }

  lemma AtOther(start: Book, limits: Limits, ops: seq<Op>, op: Op, k: nat, ds: seq<Delta>)
    requires Sound(start, limits, Execute(start, limits, ops)) && ComesFrom(start, limits, ops, k, ds)
    requires k <= |ops| && Execute(start, limits, ops + [op]).book.validity == Valid
    requires !Replaces(Execute(start, limits, ops), op) && !Takes(Execute(start, limits, ops), op)
    ensures ComesFrom(start, limits, ops + [op], if k < |ops| then k else k + 1, ds)
  {
    assert (ops + [op])[..|ops|] == ops;
    ReplacementStays(start, limits, ops, op, k);
    OtherwiseKept(Execute(start, limits, ops), op);
    if k < |ops| {
      assert (ops + [op])[..k] == ops[..k];
      FollowsStays(start, ops, op, k, ds, Execute(start, limits, ops).book);
    }
  }

  lemma ValidBefore(s: Sync, op: Op)
    requires Apply(s, op).book.validity == Valid && !Replaces(s, op)
    requires s.state == Live ==> s.expected.Some?
    ensures s.book.validity == Valid
  {
    if !Takes(s, op) { OtherwiseKept(s, op); }
  }

  lemma {:induction false} ValidBookComesFrom(start: Book, limits: Limits, ops: seq<Op>)
    returns (k: nat, ds: seq<Delta>)
    requires Sane(start) && Execute(start, limits, ops).book.validity == Valid
    ensures k <= |ops| && ComesFrom(start, limits, ops, k, ds)
  {
    if ops == [] {
      k, ds := 0, [];
    } else {
      var prior, op := ops[..|ops| - 1], ops[|ops| - 1];
      assert prior + [op] == ops;
      var s := Execute(start, limits, prior);
      RunsAreSound(start, limits, prior);
      if Replaces(s, op) {
        k := |prior|;
        ds := AtReplacement(start, limits, prior, op);
      } else {
        ValidBefore(s, op);
        k, ds := ValidBookComesFrom(start, limits, prior);
        if Takes(s, op) {
          AtTaken(start, limits, prior, op, k, ds);
          ds := ds + [op.delta];
        } else {
          AtOther(start, limits, prior, op, k, ds);
          k := if k < |prior| then k else k + 1;
        }
      }
    }
  }

  /** After every run a valid book, live or not, is the last snapshot that replaced it plus one delivered,
      accepted delta for each sequence after it, and its own sequence is that of the last of them if and
      only if the drain of that snapshot did not stop late. Without a snapshot it is the first book. */
  lemma ValidBookExactly(start: Book, limits: Limits, ops: seq<Op>) returns (k: nat, ds: seq<Delta>)
    requires Sane(start) && Execute(start, limits, ops).book.validity == Valid
    ensures k < |ops| ==>
              && LastReplacement(start, limits, ops, k) && Follows(start, ops, k, ds, Execute(start, limits, ops).book)
              && (Execute(start, limits, ops).book.sequence == Some(ops[k].snap.sequence + |ds|)
                  <==> !StopsLate(Execute(start, limits, ops[..k]), ops[k].snap))
    ensures k >= |ops| ==> Execute(start, limits, ops).book == start
                           && forall j :: 0 <= j < |ops| ==> !ReplacesAt(start, limits, ops, j)
  {
    k, ds := ValidBookComesFrom(start, limits, ops);
  }

  // ---- A drain that stops late ----

  const Bid99 := Delta(6, 1, 0, Change(Bid, Upsert, Fixed(99, 0), Some(Fixed(1, 0))))
  const NoQuantity := Delta(7, 1, 0, Change(Bid, Upsert, Fixed(98, 0), None))

  lemma TwoBuffered(limits: Limits)
    requires limits.maxMessages >= 2 && limits.maxBytes >= 2
    ensures var s := Execute(EmptyBook, limits, [DoBuffer(Bid99), DoBuffer(NoQuantity)]);
            s.book == EmptyBook && s.buffer.deltas == [Bid99, NoQuantity]
  {
    var ops := [DoBuffer(Bid99), DoBuffer(NoQuantity)];
    assert ops[..1] == [DoBuffer(Bid99)] && ops[..1][..0] == [];
    assert Execute(EmptyBook, limits, []) == Sync(Idle, EmptyBook, limits, EmptyBuffer, None);
    assert Execute(EmptyBook, limits, ops[..1]).buffer == Buffer([Bid99], 1, Some(0), Some(0));
  }

  lemma BothAreNewer()
    ensures Newer([Bid99, NoQuantity], 5) == [Bid99, NoQuantity]
  {
    assert [Bid99, NoQuantity][1..] == [NoQuantity] && [NoQuantity][1..] == [];
    assert Newer([NoQuantity], 5) == [NoQuantity];
  }

  function WithBid99(): Book {
    OneOneBook.(levels := Levels(map[100 := 1, 99 := 1], map[101 := 1]))
  }

  lemma BidIsAccepted()
    ensures Changed(OneOneBook, Bid99.change) == (WithBid99(), None)
  {
    var l := OneOneBook.levels;
    var x := Mutation(Bid, 99, Some(1));
    assert Prepare(Bid99.change, Scales(0, 0)) == Ok([x]);
    assert [x][..0] == [] && MutateAll(l, []) == l;
    assert MutateAll(l, [x]) == Mutate(l, x);
    assert Mutate(l, x) == WithBid99().levels;
    assert Uncrossed(WithBid99().levels);
  }

  lemma DrainStops()
    ensures Drained(OneOneBook, 5, [Bid99, NoQuantity]) == (WithBid99(), Refused(InvalidDelete))
    ensures Applied(OneOneBook, 5, [Bid99, NoQuantity]) != []
  {
    BidIsAccepted();
    assert [Bid99, NoQuantity][1..] == [NoQuantity];
    assert Changed(WithBid99(), NoQuantity.change) == (WithBid99(), Some(InvalidDelete));
    assert Drained(WithBid99(), 6, [NoQuantity]) == (WithBid99(), Refused(InvalidDelete));
  }

  lemma SnapshotStops(s: Sync)
    requires s.book == EmptyBook && s.buffer.deltas == [Bid99, NoQuantity]
    ensures StopsLate(s, OneOne) && Apply(s, DoSnapshot(OneOne)).book == WithBid99()
  {
    OneOneIsReplaced();
    BothAreNewer();
    DrainStops();
  }

  /** A buffered bid, a buffered delta without a quantity, and a snapshot: the call fails and leaves a
      valid book of sequence 5 that holds the bid of sequence 6. */
  lemma ABookPastItsSequence(limits: Limits, ops: seq<Op>)
    requires limits.maxMessages >= 2 && limits.maxBytes >= 2
    requires ops == [DoBuffer(Bid99), DoBuffer(NoQuantity)]
    ensures StopsLate(Execute(EmptyBook, limits, ops), OneOne)
    ensures var b := Execute(EmptyBook, limits, ops + [DoSnapshot(OneOne)]).book;
            b.validity == Valid && b.sequence == Some(5) && 99 in b.levels.bids
  {
    TwoBuffered(limits);
    assert (ops + [DoSnapshot(OneOne)])[..2] == ops;
    SnapshotStops(Execute(EmptyBook, limits, ops));
  }
}
