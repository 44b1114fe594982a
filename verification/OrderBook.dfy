/** The L2 book: one object owning both sides, with snapshot, single-change and
    transactional message updates. */
module OrderBook {
  import opened Common
  import opened Decimal
  import opened Ordering
  import opened BookSides
  import opened BookModel

  datatype Book = Book(scales: Scales, depth: Option<nat>, levels: Levels, validity: Validity, sequence: Option<nat>)

  type Row = (Fixed, Fixed)

  /** What a book that claims to be valid promises. */
  predicate Sane(b: Book) {
    b.validity == Valid ==>
      && Uncrossed(b.levels)
      && PositiveAll(b.levels)
      && (b.depth.Some? ==> |b.levels.bids| <= b.depth.value && |b.levels.asks| <= b.depth.value)
  }

  // ---- What the operations compute, on values ----

  function Insert(l: Levels, side: Side, row: Row, scales: Scales): Result<Levels, BookError> {
    if row.1.coefficient <= 0 then Err(NonPositiveQuantity)
    else
      var pk := Key(row.0, scales.price);
      if pk.Err? then Err(pk.error)
      else
        var qk := Key(row.1, scales.quantity);
        if qk.Err? then Err(qk.error) else Ok(Mutate(l, Mutation(side, pk.value, Some(qk.value))))
  }

  function InsertAll(l: Levels, side: Side, rows: seq<Row>, scales: Scales): Result<Levels, BookError> {
    if rows == [] then Ok(l)
    else
      var before := InsertAll(l, side, rows[..|rows| - 1], scales);
      if before.Err? then before else Insert(before.value, side, rows[|rows| - 1], scales)
  }

  /** A snapshot replaces the whole book, or is refused and changes nothing. */
  function Replaced(b: Book, bids: seq<Row>, asks: seq<Row>, sequence: Option<nat>): Result<Book, BookError> {
    var withBids := InsertAll(NoLevels, Bid, bids, b.scales);
    if withBids.Err? then Err(withBids.error)
    else
      var withAsks := InsertAll(withBids.value, Ask, asks, b.scales);
      if withAsks.Err? then Err(withAsks.error)
      else
        var cut := Cut(withAsks.value, b.depth);
        if !Uncrossed(cut) then Err(Crossed)
        else Ok(Book(b.scales, b.depth, cut, Valid, sequence))
  }

  predicate Sets(c: Change) {
    c.operation == Upsert && c.quantity.Some? && c.quantity.value.coefficient != 0
  }

  /** One change. A crossing change stays in the levels but costs the book its validity. */
  function Changed(b: Book, c: Change): (Book, Option<BookError>) {
    if b.validity != Valid then (b, Some(NotValid(b.validity)))
    else
      var p := Prepare(c, b.scales);
      if p.Err? then (b, Some(p.error))
      else
        var l := MutateAll(b.levels, p.value);
        if !Sets(c) then (b.(levels := l), None)
        else
          var cut := Cut(l, b.depth);
          if Uncrossed(cut) then (b.(levels := cut), None)
          else (b.(levels := cut, validity := Invalid), Some(Crossed))
  }

  /** One message: all its changes or none. Only the final book is tested for crossing. */
  function ChangedAtomically(b: Book, cs: seq<Change>): (Book, Option<BookError>) {
    if b.validity != Valid then (b, Some(NotValid(b.validity)))
    else
      var p := PrepareAll(cs, b.scales);
      if p.Err? then (b, Some(p.error))
      else
        var l := MutateAll(b.levels, p.value);
        if Uncrossed(l) then (b.(levels := Cut(l, b.depth)), None) else (b, Some(Crossed))
  }

  // ---- What they keep ----

  lemma CutSane(l: Levels, depth: Option<nat>)
    requires PositiveAll(l)
    ensures var cut := Cut(l, depth);
            && PositiveAll(cut)
            && (depth.Some? ==> |cut.bids| <= depth.value && |cut.asks| <= depth.value)
            && (Uncrossed(l) ==> Uncrossed(cut))
  {
    var cut := Cut(l, depth);
    forall side, p | p in cut.Of(side) ensures cut.Of(side)[p] > 0 {
      assert p in l.Of(side) && l.Of(side)[p] == cut.Of(side)[p];
    }
    if depth.Some? {
      CutSize(Bid, l.bids, depth.value);
      CutSize(Ask, l.asks, depth.value);
    }
  }

  lemma {:induction false} InsertedPositive(l: Levels, side: Side, rows: seq<Row>, scales: Scales)
    requires PositiveAll(l) && InsertAll(l, side, rows, scales).Ok?
    ensures PositiveAll(InsertAll(l, side, rows, scales).value)
  {
    if rows != [] {
      var row := rows[|rows| - 1];
      var before := InsertAll(l, side, rows[..|rows| - 1], scales).value;
      InsertedPositive(l, side, rows[..|rows| - 1], scales);
      RescaleIsExact(row.1, scales.quantity);
      var x := Mutation(side, Key(row.0, scales.price).value, Some(Key(row.1, scales.quantity).value));
      assert MutateAll(before, []) == before;
      assert MutateAll(before, [x]) == Mutate(before, x);
      BatchStaysPositive(before, [x]);
    }
  }

  lemma ReplacedSane(b: Book, bids: seq<Row>, asks: seq<Row>, sequence: Option<nat>)
    requires Replaced(b, bids, asks, sequence).Ok?
    ensures Sane(Replaced(b, bids, asks, sequence).value)
  {
    InsertedPositive(NoLevels, Bid, bids, b.scales);
    var withBids := InsertAll(NoLevels, Bid, bids, b.scales).value;
    InsertedPositive(withBids, Ask, asks, b.scales);
    CutSane(InsertAll(withBids, Ask, asks, b.scales).value, b.depth);
  }

  lemma {:induction false} RemovalShrinks(l: Levels, xs: seq<Mutation>)
    requires forall x :: x in xs ==> x.quantity.None?
    ensures MutateAll(l, xs).bids.Keys <= l.bids.Keys && MutateAll(l, xs).asks.Keys <= l.asks.Keys
  {
    if xs != [] {
      assert xs[|xs| - 1] in xs;
      RemovalShrinks(l, xs[..|xs| - 1]);
    }
  }

  /** A single change keeps every promise of a valid book, whatever it returns. */
  lemma ChangedSane(b: Book, c: Change)
    requires Sane(b)
    ensures Sane(Changed(b, c).0)
  {
    var p := Prepare(c, b.scales);
    if b.validity == Valid && p.Ok? {
      PreparedPositive(c, b.scales);
      BatchStaysPositive(b.levels, p.value);
      var l := MutateAll(b.levels, p.value);
      if Sets(c) {
        CutSane(l, b.depth);
      } else {
        RemovalShrinks(b.levels, p.value);
        SubsetSize(l.bids.Keys, b.levels.bids.Keys);
        SubsetSize(l.asks.Keys, b.levels.asks.Keys);
      }
    }
  }

  lemma ChangedAtomicallySane(b: Book, cs: seq<Change>)
    requires Sane(b)
    ensures Sane(ChangedAtomically(b, cs).0)
  {
    var p := PrepareAll(cs, b.scales);
    if b.validity == Valid && p.Ok? {
      PreparedAllPositive(cs, b.scales);
      BatchStaysPositive(b.levels, p.value);
      CutSane(MutateAll(b.levels, p.value), b.depth);
    }
  }

  // ---- What one message means ----

  /** An accepted message leaves each level that survives the depth cut at its last mutation,
      or else as it was; a refused one leaves the whole book as it was. */
  lemma MessageMeaning(b: Book, cs: seq<Change>)
    ensures var (b', error) := ChangedAtomically(b, cs);
            && (error.Some? ==> b' == b)
            && (error.None? ==>
                  && PrepareAll(cs, b.scales).Ok?
                  && b' == b.(levels := b'.levels)
                  && exists full ::
                       && b'.levels == Cut(full, b.depth)
                       && Uncrossed(full)
                       && forall side, p :: Lookup(full, side, p)
                            == match LastOn(PrepareAll(cs, b.scales).value, side, p)
                               case None => Lookup(b.levels, side, p)
                               case Some(q) => q)
  {
    var (b', error) := ChangedAtomically(b, cs);
    if error.None? {
      var xs := PrepareAll(cs, b.scales).value;
      var full := MutateAll(b.levels, xs);
      forall side, p
        ensures Lookup(full, side, p)
             == match LastOn(xs, side, p) case None => Lookup(b.levels, side, p) case Some(q) => q
      {
        BatchLookup(b.levels, xs, side, p);
      }
    }
  }

  /** Messages whose changes agree on every level's last mutation have the same effect. */
  lemma MessagesAlike(b: Book, cs: seq<Change>, ds: seq<Change>)
    requires PrepareAll(cs, b.scales).Ok? && PrepareAll(ds, b.scales).Ok?
    requires forall side, p ::
               LastOn(PrepareAll(cs, b.scales).value, side, p) == LastOn(PrepareAll(ds, b.scales).value, side, p)
    ensures ChangedAtomically(b, cs) == ChangedAtomically(b, ds)
  {
    SameLastMutations(b.levels, PrepareAll(cs, b.scales).value, PrepareAll(ds, b.scales).value);
  }

  lemma PreparedAlone(c: Change, scales: Scales)
    ensures PrepareAll([c], scales) == Prepare(c, scales)
  {
    assert [c][..0] == [];
    assert PrepareAll([], scales) == Ok([]);
    var p := Prepare(c, scales);
    if p.Ok? { assert [] + p.value == p.value; }
  }

  /** What a removal leaves fits the depth already. */
  lemma RemovalFits(b: Book, c: Change)
    requires Sane(b) && b.validity == Valid && Prepare(c, b.scales).Ok? && !Sets(c)
    ensures var l := MutateAll(b.levels, Prepare(c, b.scales).value); Cut(l, b.depth) == l && Uncrossed(l)
  {
    var xs := Prepare(c, b.scales).value;
    var l := MutateAll(b.levels, xs);
    RemovalShrinks(b.levels, xs);
    SubsetSize(l.bids.Keys, b.levels.bids.Keys);
    SubsetSize(l.asks.Keys, b.levels.asks.Keys);
    if b.depth.Some? {
      CutFits(Bid, l.bids, b.depth.value);
      CutFits(Ask, l.asks, b.depth.value);
    }
  }

  lemma SetCrosses(b: Book, c: Change)
    requires Sane(b) && b.validity == Valid && Prepare(c, b.scales).Ok? && Sets(c)
    ensures var l := MutateAll(b.levels, Prepare(c, b.scales).value); Uncrossed(Cut(l, b.depth)) <==> Uncrossed(l)
  {
    var xs := Prepare(c, b.scales).value;
    if b.depth == Some(0) {
      assert b.levels == NoLevels;
      assert MutateAll(b.levels, []) == b.levels && xs[..0] == [];
      assert Uncrossed(Mutate(b.levels, xs[0]));
    } else {
      CutKeepsCrossing(MutateAll(b.levels, xs), b.depth);
    }
  }

  /** A bid at `p` reaches an ask at `q`, or the other way round. */
  predicate Meets(side: Side, p: int, q: int) {
    if side == Bid then p >= q else p <= q
  }

  /** The change sets a level, at a price and with a quantity that the book can hold, which reaches a
      level of the other side. */
  predicate Reaches(b: Book, c: Change) {
    var price := Key(c.price, b.scales.price);
    && Sets(c) && c.quantity.value.coefficient > 0
    && price.Ok? && Key(c.quantity.value, b.scales.quantity).Ok?
    && exists q :: q in b.levels.Of(Other(c.side)) && Meets(c.side, price.value, q)
  }

  lemma SetLevelCrosses(l: Levels, x: Mutation)
    requires Uncrossed(l) && x.quantity.Some?
    ensures Uncrossed(Mutate(l, x)) <==> !exists q :: q in l.Of(Other(x.side)) && Meets(x.side, x.price, q)
  {
    var l' := Mutate(l, x);
    if exists q :: q in l.Of(Other(x.side)) && Meets(x.side, x.price, q) {
      var q :| q in l.Of(Other(x.side)) && Meets(x.side, x.price, q);
      assert x.price in l'.Of(x.side) && q in l'.Of(Other(x.side));
    }
  }

  /** A change costs a valid book its validity exactly when it reaches the other side. */
  lemma CrossesExactly(b: Book, c: Change)
    requires Sane(b) && b.validity == Valid
    ensures Changed(b, c).1 == Some(Crossed) <==> Reaches(b, c)
    ensures Changed(b, c).0.validity != Valid <==> Reaches(b, c)
  {
    if Sets(c) && Prepare(c, b.scales).Ok? {
      var x := Prepare(c, b.scales).value[0];
      SetCrosses(b, c);
      SetLevelCrosses(b.levels, x);
      assert [x][..0] == [] && MutateAll(b.levels, []) == b.levels;
      assert MutateAll(b.levels, [x]) == Mutate(b.levels, x);
    }
  }

  /** A message of one change is accepted exactly when the single-change call accepts it, and
      then does the same; refused, it keeps the validity that the single call gives up. */
  lemma MessageOfOne(b: Book, c: Change)
    requires Sane(b)
    ensures ChangedAtomically(b, [c]).1 == Changed(b, c).1
    ensures Changed(b, c).1.None? ==> ChangedAtomically(b, [c]).0 == Changed(b, c).0
  {
    PreparedAlone(c, b.scales);
    if b.validity == Valid && Prepare(c, b.scales).Ok? {
      if Sets(c) { SetCrosses(b, c); } else { RemovalFits(b, c); }
    }
  }

  // ---- The object ----

  class L2Book {
    const scales: Scales
    const depth: Option<nat>
    var bids: map<int, int>
    var asks: map<int, int>
    var validity: Validity
    var sequence: Option<nat>

    function View(): Book
      reads this
    {
      Book(scales, depth, Levels(bids, asks), validity, sequence)
    }

    constructor (scales: Scales, depth: Option<nat>)
      ensures View() == Book(scales, depth, NoLevels, Synchronizing, None)
    {
      this.scales, this.depth := scales, depth;
      bids, asks := map[], map[];
      validity, sequence := Synchronizing, None;
    }

    method Clear()
      modifies this
      ensures View() == old(View()).(levels := NoLevels, sequence := None)
    {
      bids, asks, sequence := map[], map[], None;
    }

    method Put(x: Mutation)
      modifies `bids, `asks
      ensures Levels(bids, asks) == Mutate(old(Levels(bids, asks)), x)
    {
      if x.side == Bid {
        bids := if x.quantity.Some? then bids[x.price := x.quantity.value] else bids - {x.price};
      } else {
        asks := if x.quantity.Some? then asks[x.price := x.quantity.value] else asks - {x.price};
      }
    }

    method UpsertLevel(side: Side, price: Fixed, quantity: Fixed) returns (r: Result<(), BookError>)
      modifies `bids, `asks
      ensures match Insert(old(Levels(bids, asks)), side, (price, quantity), scales)
              case Ok(l) => r == Ok(()) && Levels(bids, asks) == l
              case Err(e) => r == Err(e) && Levels(bids, asks) == old(Levels(bids, asks))
    {
      if quantity.coefficient <= 0 {
        return Err(NonPositiveQuantity);
      }
      var pk := Key(price, scales.price);
      if pk.Err? {
        return Err(pk.error);
      }
      var qk := Key(quantity, scales.quantity);
      if qk.Err? {
        return Err(qk.error);
      }
      Put(Mutation(side, pk.value, Some(qk.value)));
      r := Ok(());
    }

    method DeleteLevel(side: Side, price: Fixed)
      modifies `bids, `asks
      ensures Levels(bids, asks) == MutateAll(old(Levels(bids, asks)), Removal(side, price, scales))
    {
      var pk := Key(price, scales.price);
      if pk.Ok? {
        ghost var x := Mutation(side, pk.value, None);
        assert [x][..0] == [];
        Put(Mutation(side, pk.value, None));
      }
    }

    /** Drops the worst levels of each side until it fits the depth. */
    method TrimDepth()
      modifies `bids, `asks
      ensures Levels(bids, asks) == Cut(old(Levels(bids, asks)), depth)
    {
      if depth.None? {
        return;
      }
      while |bids| > depth.value
        invariant BestOf(Bid, bids, depth.value) == BestOf(Bid, old(bids), depth.value)
        invariant asks == old(asks)
        decreases |bids|
      {
        var worst := Extreme(Ask, bids.Keys);
        DropWorst(Bid, bids, depth.value, worst);
        bids := bids - {worst};
      }
      CutFits(Bid, bids, depth.value);
      while |asks| > depth.value
        invariant BestOf(Ask, asks, depth.value) == BestOf(Ask, old(asks), depth.value)
        invariant bids == BestOf(Bid, old(bids), depth.value)
        decreases |asks|
      {
        var worst := Extreme(Bid, asks.Keys);
        DropWorst(Ask, asks, depth.value, worst);
        asks := asks - {worst};
      }
      CutFits(Ask, asks, depth.value);
    }

    method CheckNotCrossed() returns (r: Result<(), BookError>)
      ensures r == if Uncrossed(Levels(bids, asks)) then Ok(()) else Err(Crossed)
    {
      BestDecidesCrossing(Levels(bids, asks));
      if bids.Keys == {} || asks.Keys == {} {
        return Ok(());
      }
      if Extreme(Bid, bids.Keys) >= Extreme(Ask, asks.Keys) {
        return Err(Crossed);
      }
      r := Ok(());
    }

    /** The best `limit` levels of each side, best first, while the book is valid. */
    method SnapshotLevelsBounded(limit: nat) returns (r: Option<(seq<(int, int)>, seq<(int, int)>)>)
      ensures r.None? <==> validity != Valid
      ensures r.Some? ==> Ranked(Bid, bids, limit, r.value.0) && Ranked(Ask, asks, limit, r.value.1)
    {
      if validity != Valid {
        return None;
      }
      BestFirstRanks(Bid, bids, limit);
      BestFirstRanks(Ask, asks, limit);
      r := Some((BestFirst(Bid, bids, limit), BestFirst(Ask, asks, limit)));
    }

    method ApplySnapshot(newBids: seq<Row>, newAsks: seq<Row>, newSequence: Option<nat>)
      returns (r: Result<(), BookError>)
      modifies this
      ensures match Replaced(old(View()), newBids, newAsks, newSequence)
              case Ok(b) => r == Ok(()) && View() == b
              case Err(e) => r == Err(e) && View() == old(View())
    {
      var next := new L2Book(scales, depth);
      r := next.UpsertAll(Bid, newBids);
      if r.Err? {
        return;
      }
      r := next.UpsertAll(Ask, newAsks);
      if r.Err? {
        return;
      }
      next.TrimDepth();
      r := next.CheckNotCrossed();
      if r.Err? {
        return;
      }
      bids, asks, validity, sequence := next.bids, next.asks, Valid, newSequence;
    }

    /** The snapshot's insertion loop over one side. */
    method UpsertAll(side: Side, rows: seq<Row>) returns (r: Result<(), BookError>)
      modifies `bids, `asks
      ensures match InsertAll(old(Levels(bids, asks)), side, rows, scales)
              case Ok(l) => r == Ok(()) && Levels(bids, asks) == l
              case Err(e) => r == Err(e)
    {
      ghost var start := Levels(bids, asks);
      for i := 0 to |rows|
        invariant InsertAll(start, side, rows[..i], scales) == Ok(Levels(bids, asks))
      {
        assert rows[..i + 1][..i] == rows[..i];
        r := UpsertLevel(side, rows[i].0, rows[i].1);
        if r.Err? {
          InsertFails(start, side, rows, i + 1, scales);
          return;
        }
      }
      assert rows[..|rows|] == rows;
      r := Ok(());
    }

    method ApplyChange(c: Change) returns (r: Result<(), BookError>)
      modifies this
      ensures View() == Changed(old(View()), c).0
      ensures r == match Changed(old(View()), c).1 case None => Ok(()) case Some(e) => Err(e)
    {
      if validity != Valid {
        return Err(NotValid(validity));
      }
      if c.operation == Delete {
        DeleteLevel(c.side, c.price);
        return Ok(());
      }
      if c.quantity.None? {
        return Err(InvalidDelete);
      }
      if c.quantity.value.coefficient == 0 {
        DeleteLevel(c.side, c.price);
        return Ok(());
      }
      ghost var before := View();
      r := UpsertLevel(c.side, c.price, c.quantity.value);
      if r.Err? {
        return;
      }
      assert Levels(bids, asks) == MutateAll(before.levels, Prepare(c, scales).value) by {
        var x := Prepare(c, scales).value[0];
        assert [x][..0] == [];
        assert MutateAll(before.levels, [x]) == Mutate(MutateAll(before.levels, []), x);
      }
      TrimDepth();
      r := CheckNotCrossed();
      if r.Err? {
        validity := Invalid;
      }
    }

    /** Applies a message in place, recording each touched level once, and undoes it if the
        result is crossed. */
    method ApplyChangesAtomic(changes: seq<Change>) returns (r: Result<(), BookError>)
      modifies this
      ensures View() == ChangedAtomically(old(View()), changes).0
      ensures r == match ChangedAtomically(old(View()), changes).1 case None => Ok(()) case Some(e) => Err(e)
    {
      if validity != Valid {
        return Err(NotValid(validity));
      }
      var prepared := PrepareChanges(changes);
      if prepared.Err? {
        return Err(prepared.error);
      }
      ghost var original := Levels(bids, asks);
      var undo := ApplyRecorded(prepared.value);
      r := CheckNotCrossed();
      if r.Err? {
        UndoRestores(original, Levels(bids, asks), undo);
        PutAll(undo);
        return;
      }
      TrimDepth();
    }

    method PrepareChanges(changes: seq<Change>) returns (r: Result<seq<Mutation>, BookError>)
      ensures r == PrepareAll(changes, scales)
    {
      var prepared := [];
      for i := 0 to |changes|
        invariant PrepareAll(changes[..i], scales) == Ok(prepared)
      {
        assert changes[..i + 1][..i] == changes[..i];
        var x := Prepare(changes[i], scales);
        if x.Err? {
          PrepareFails(changes, i + 1, scales);
          return Err(x.error);
        }
        prepared := prepared + x.value;
      }
      assert changes[..|changes|] == changes;
      r := Ok(prepared);
    }

    method ApplyRecorded(xs: seq<Mutation>) returns (undo: seq<Mutation>)
      modifies `bids, `asks
      ensures Levels(bids, asks) == MutateAll(old(Levels(bids, asks)), xs)
      ensures Undoes(old(Levels(bids, asks)), Levels(bids, asks), undo)
    {
      undo := [];
      var recorded: set<(Side, int)> := {};
      ghost var original := Levels(bids, asks);
      for i := 0 to |xs|
        invariant Levels(bids, asks) == MutateAll(original, xs[..i])
        invariant forall j :: 0 <= j < |undo| ==> undo[j].quantity == Lookup(original, undo[j].side, undo[j].price)
        invariant forall side, p :: (side, p) in recorded <==> LastOn(undo, side, p).Some?
        invariant forall side, p :: (side, p) !in recorded ==>
            Lookup(Levels(bids, asks), side, p) == Lookup(original, side, p)
      {
        var x := xs[i];
        if (x.side, x.price) !in recorded {
          recorded := recorded + {(x.side, x.price)};
          var previous := Mutation(x.side, x.price, Lookup(Levels(bids, asks), x.side, x.price));
          assert (undo + [previous])[..|undo|] == undo;
          undo := undo + [previous];
        }
        assert xs[..i + 1][..i] == xs[..i];
        Put(x);
      }
      assert xs[..|xs|] == xs;
    }

    method PutAll(xs: seq<Mutation>)
      modifies `bids, `asks
      ensures Levels(bids, asks) == MutateAll(old(Levels(bids, asks)), xs)
    {
      ghost var original := Levels(bids, asks);
      for i := 0 to |xs|
        invariant Levels(bids, asks) == MutateAll(original, xs[..i])
      {
        assert xs[..i + 1][..i] == xs[..i];
        Put(xs[i]);
      }
      assert xs[..|xs|] == xs;
    }
  }

  lemma {:induction false} InsertFails(l: Levels, side: Side, rows: seq<Row>, n: nat, scales: Scales)
    requires n <= |rows| && InsertAll(l, side, rows[..n], scales).Err?
    ensures InsertAll(l, side, rows, scales) == InsertAll(l, side, rows[..n], scales)
    decreases |rows|
  {
    if n == |rows| {
      assert rows[..n] == rows;
    } else {
      assert rows[..|rows| - 1][..n] == rows[..n];
      InsertFails(l, side, rows[..|rows| - 1], n, scales);
    }
  }

  lemma {:induction false} PrepareFails(cs: seq<Change>, n: nat, scales: Scales)
    requires n <= |cs| && PrepareAll(cs[..n], scales).Err?
    ensures PrepareAll(cs, scales) == PrepareAll(cs[..n], scales)
    decreases |cs|
  {
    if n == |cs| {
      assert cs[..n] == cs;
    } else {
      assert cs[..|cs| - 1][..n] == cs[..n];
      PrepareFails(cs[..|cs| - 1], n, scales);
    }
  }
}
