/** The two sides of an L2 book as values: levels, depth cut, crossing, and what one wire
    message does to them. */
module BookModel {
  import opened Common
  import opened Decimal
  import opened Ordering
  import opened BookSides

  datatype Validity = Valid | Synchronizing | Invalid
  datatype BookError = NotValid(validity: Validity) | NonPositiveQuantity | Crossed | InvalidDelete | ScaleMismatch
  datatype Operation = Upsert | Delete
  datatype Change = Change(side: Side, operation: Operation, price: Fixed, quantity: Option<Fixed>)

  /** Quantity by price coefficient, one map a side. */
  datatype Levels = Levels(bids: map<int, int>, asks: map<int, int>) {
    function Of(side: Side): map<int, int> {
      if side == Bid then bids else asks
    }

    function With(side: Side, m: map<int, int>): Levels {
      if side == Bid then this.(bids := m) else this.(asks := m)
    }
  }

  const NoLevels := Levels(map[], map[])

  function Lookup(l: Levels, side: Side, price: int): Option<int> {
    if price in l.Of(side) then Some(l.Of(side)[price]) else None
  }

  lemma SameLookups(l: Levels, l': Levels)
    requires forall side, p :: Lookup(l, side, p) == Lookup(l', side, p)
    ensures l == l'
  {
    forall p ensures (p in l.bids <==> p in l'.bids) && (p in l.bids ==> l.bids[p] == l'.bids[p]) {
      assert Lookup(l, Bid, p) == Lookup(l', Bid, p);
    }
    forall p ensures (p in l.asks <==> p in l'.asks) && (p in l.asks ==> l.asks[p] == l'.asks[p]) {
      assert Lookup(l, Ask, p) == Lookup(l', Ask, p);
    }
    assert l.bids == l'.bids && l.asks == l'.asks;
  }

  // ---- Best level, crossing and depth ----

  /** Every bid is below every ask. */
  predicate Uncrossed(l: Levels) {
    forall b, a :: b in l.bids && a in l.asks ==> b < a
  }

  /** What the source tests: the best bid against the best ask. */
  predicate BestUncrossed(l: Levels) {
    l.bids.Keys == {} || l.asks.Keys == {} || Extreme(Bid, l.bids.Keys) < Extreme(Ask, l.asks.Keys)
  }

  /** Comparing the two best prices decides crossing for all pairs of levels. */
  lemma BestDecidesCrossing(l: Levels)
    ensures BestUncrossed(l) <==> Uncrossed(l)
  {
    if l.bids.Keys != {} && l.asks.Keys != {} {
      var b, a := Extreme(Bid, l.bids.Keys), Extreme(Ask, l.asks.Keys);
      assert b in l.bids && a in l.asks;
    }
  }

  /** The prices of `keys` that are better than `p`. */
  function Betters(side: Side, keys: set<int>, p: int): set<int> {
    set j | j in keys && Better(side, j, p)
  }

  /** The levels with fewer than `depth` better ones: the best `depth` of the side. */
  function BestOf(side: Side, m: map<int, int>, depth: nat): map<int, int> {
    map p | p in m && |Betters(side, m.Keys, p)| < depth :: m[p]
  }

  function Cut(l: Levels, depth: Option<nat>): Levels {
    if depth.None? then l else Levels(BestOf(Bid, l.bids, depth.value), BestOf(Ask, l.asks, depth.value))
  }

  /** A side within its depth is left whole. */
  lemma CutFits(side: Side, m: map<int, int>, depth: nat)
    requires |m| <= depth
    ensures BestOf(side, m, depth) == m
  {
    forall p | p in m ensures |Betters(side, m.Keys, p)| < depth {
      assert p !in Betters(side, m.Keys, p);
      SubsetSize(Betters(side, m.Keys, p), m.Keys);
    }
  }

  /** Dropping the worst level of an overfull side does not change its best `depth`. */
  lemma DropWorst(side: Side, m: map<int, int>, depth: nat, worst: int)
    requires |m| > depth && worst in m
    requires forall j :: j in m && j != worst ==> Better(side, j, worst)
    ensures BestOf(side, m - {worst}, depth) == BestOf(side, m, depth)
    ensures |m - {worst}| == |m| - 1
  {
    var rest := m - {worst};
    assert rest.Keys == m.Keys - {worst};
    assert Betters(side, m.Keys, worst) == rest.Keys;
    forall p | p in rest ensures Betters(side, rest.Keys, p) == Betters(side, m.Keys, p) {
      assert Better(side, p, worst);
    }
  }

  /** The cut keeps at most `depth` levels, the better ones, with their quantities. */
  lemma {:induction false} CutSize(side: Side, m: map<int, int>, depth: nat)
    ensures |BestOf(side, m, depth)| <= depth
    ensures |m| >= depth ==> |BestOf(side, m, depth)| == depth
    decreases |m|
  {
    if |m| <= depth {
      CutFits(side, m, depth);
    } else {
      var worst := Extreme(Other(side), m.Keys);
      DropWorst(side, m, depth, worst);
      CutSize(side, m - {worst}, depth);
    }
  }

  /** Unless the depth is zero the best level survives the cut, so cutting cannot hide a cross. */
  lemma CutKeepsCrossing(l: Levels, depth: Option<nat>)
    requires depth != Some(0)
    ensures Uncrossed(Cut(l, depth)) <==> Uncrossed(l)
  {
    if depth.Some? && !Uncrossed(l) {
      var b, a := Extreme(Bid, l.bids.Keys), Extreme(Ask, l.asks.Keys);
      assert Betters(Bid, l.bids.Keys, b) == {};
      assert Betters(Ask, l.asks.Keys, a) == {};
      assert b in Cut(l, depth).bids && a in Cut(l, depth).asks;
      BestDecidesCrossing(l);
    }
  }

  /** A side's ordered map read from its best end, at most `limit` levels. */
  function BestFirst(side: Side, m: map<int, int>, limit: nat): seq<(int, int)>
    decreases limit
  {
    if limit == 0 || m.Keys == {} then []
    else
      var best := Extreme(side, m.Keys);
      [(best, m[best])] + BestFirst(side, m - {best}, limit - 1)
  }

  /** Row `i` is the level with exactly `i` better ones, and `limit` or all levels are listed. */
  predicate Ranked(side: Side, m: map<int, int>, limit: nat, rows: seq<(int, int)>) {
    && |rows| == (if |m| < limit then |m| else limit)
    && (forall i :: 0 <= i < |rows| ==>
          rows[i].0 in m && rows[i].1 == m[rows[i].0] && |Betters(side, m.Keys, rows[i].0)| == i)
  }

  lemma OneMoreBetter(side: Side, keys: set<int>, best: int, p: int)
    requires best in keys && p in keys && p != best && Better(side, best, p)
    ensures |Betters(side, keys, p)| == |Betters(side, keys - {best}, p)| + 1
  {
    assert Betters(side, keys, p) == Betters(side, keys - {best}, p) + {best};
  }

  lemma {:induction false} BestFirstRanks(side: Side, m: map<int, int>, limit: nat)
    ensures Ranked(side, m, limit, BestFirst(side, m, limit))
    decreases limit
  {
    if limit != 0 && m.Keys != {} {
      var best := Extreme(side, m.Keys);
      var rest, tail := m - {best}, BestFirst(side, m - {best}, limit - 1);
      assert rest.Keys == m.Keys - {best};
      BestFirstRanks(side, rest, limit - 1);
      assert Betters(side, m.Keys, best) == {};
      assert |m.Keys| == |rest.Keys| + 1;
      forall i | 0 <= i < |tail|
        ensures tail[i].0 in m && tail[i].1 == m[tail[i].0] && |Betters(side, m.Keys, tail[i].0)| == i + 1
      {
        OneMoreBetter(side, m.Keys, best, tail[i].0);
      }
    }
  }

  // ---- Mutations ----

  /** A level set to a quantity, or removed. */
  datatype Mutation = Mutation(side: Side, price: int, quantity: Option<int>)

  function Mutate(l: Levels, x: Mutation): Levels {
    l.With(x.side, if x.quantity.Some? then l.Of(x.side)[x.price := x.quantity.value] else l.Of(x.side) - {x.price})
  }

  function MutateAll(l: Levels, xs: seq<Mutation>): Levels {
    if xs == [] then l else Mutate(MutateAll(l, xs[..|xs| - 1]), xs[|xs| - 1])
  }

  /** The last word of a batch on one level: nothing, a removal, or a quantity. */
  function LastOn(xs: seq<Mutation>, side: Side, price: int): Option<Option<int>> {
    if xs == [] then None
    else
      var x := xs[|xs| - 1];
      if x.side == side && x.price == price then Some(x.quantity) else LastOn(xs[..|xs| - 1], side, price)
  }

  /** A batch leaves every level at its last mutation, or as it was. */
  lemma {:induction false} BatchLookup(l: Levels, xs: seq<Mutation>, side: Side, price: int)
    ensures Lookup(MutateAll(l, xs), side, price)
         == match LastOn(xs, side, price) case None => Lookup(l, side, price) case Some(q) => q
  {
    if xs != [] {
      BatchLookup(l, xs[..|xs| - 1], side, price);
    }
  }

  /** Batches that agree on every level's last mutation are the same batch. */
  lemma SameLastMutations(l: Levels, xs: seq<Mutation>, ys: seq<Mutation>)
    requires forall side, p :: LastOn(xs, side, p) == LastOn(ys, side, p)
    ensures MutateAll(l, xs) == MutateAll(l, ys)
  {
    forall side, p ensures Lookup(MutateAll(l, xs), side, p) == Lookup(MutateAll(l, ys), side, p) {
      BatchLookup(l, xs, side, p);
      BatchLookup(l, ys, side, p);
    }
    SameLookups(MutateAll(l, xs), MutateAll(l, ys));
  }

  /** `undo` holds the original of every level on which `current` differs from `original`. */
  ghost predicate Undoes(original: Levels, current: Levels, undo: seq<Mutation>) {
    && (forall i :: 0 <= i < |undo| ==> undo[i].quantity == Lookup(original, undo[i].side, undo[i].price))
    && (forall side, p :: Lookup(current, side, p) != Lookup(original, side, p) ==> LastOn(undo, side, p).Some?)
  }

  lemma {:induction false} LastOnIsRecorded(xs: seq<Mutation>, side: Side, price: int) returns (i: nat)
    requires LastOn(xs, side, price).Some?
    ensures i < |xs| && xs[i] == Mutation(side, price, LastOn(xs, side, price).value)
  {
    var n := |xs| - 1;
    if xs[n].side == side && xs[n].price == price {
      i := n;
    } else {
      i := LastOnIsRecorded(xs[..n], side, price);
    }
  }

  /** Replaying the undo log restores the original exactly. */
  lemma UndoRestores(original: Levels, current: Levels, undo: seq<Mutation>)
    requires Undoes(original, current, undo)
    ensures MutateAll(current, undo) == original
  {
    forall side, p ensures Lookup(MutateAll(current, undo), side, p) == Lookup(original, side, p) {
      BatchLookup(current, undo, side, p);
      if LastOn(undo, side, p).Some? {
        var i := LastOnIsRecorded(undo, side, p);
      }
    }
    SameLookups(MutateAll(current, undo), original);
  }

  // ---- Normalising changes ----

  datatype Scales = Scales(price: u8, quantity: u8)

  function Key(f: Fixed, scale: u8): Result<int, BookError> {
    var r := Rescale(f, scale);
    if r.Ok? then Ok(r.value.coefficient) else Err(ScaleMismatch)
  }

  /** A removal; at a price that does not fit the scale there is no such level. */
  function Removal(side: Side, price: Fixed, scales: Scales): seq<Mutation> {
    var k := Key(price, scales.price);
    if k.Ok? then [Mutation(side, k.value, None)] else []
  }

  /** What one change does to the levels: at most one mutation, or an error. */
  function Prepare(c: Change, scales: Scales): Result<seq<Mutation>, BookError> {
    if c.operation == Delete then Ok(Removal(c.side, c.price, scales))
    else if c.quantity.None? then Err(InvalidDelete)
    else
      var q := c.quantity.value;
      if q.coefficient == 0 then Ok(Removal(c.side, c.price, scales))
      else if q.coefficient < 0 then Err(NonPositiveQuantity)
      else
        var pk := Key(c.price, scales.price);
        if pk.Err? then Err(pk.error)
        else
          var qk := Key(q, scales.quantity);
          if qk.Err? then Err(qk.error) else Ok([Mutation(c.side, pk.value, Some(qk.value))])
  }

  /** A message's mutations in order, or the error of its first bad change. */
  function PrepareAll(cs: seq<Change>, scales: Scales): Result<seq<Mutation>, BookError> {
    if cs == [] then Ok([])
    else
      var before := PrepareAll(cs[..|cs| - 1], scales);
      if before.Err? then before
      else
        var last := Prepare(cs[|cs| - 1], scales);
        if last.Err? then Err(last.error) else Ok(before.value + last.value)
  }

  predicate PositiveAll(l: Levels) {
    forall side, p :: p in l.Of(side) ==> l.Of(side)[p] > 0
  }

  lemma PreparedPositive(c: Change, scales: Scales)
    requires Prepare(c, scales).Ok?
    ensures |Prepare(c, scales).value| <= 1
    ensures forall x :: x in Prepare(c, scales).value ==> (x.quantity.Some? ==> x.quantity.value > 0)
  {
    if c.quantity.Some? { RescaleIsExact(c.quantity.value, scales.quantity); }
  }

  lemma {:induction false} PreparedAllPositive(cs: seq<Change>, scales: Scales)
    requires PrepareAll(cs, scales).Ok?
    ensures forall x :: x in PrepareAll(cs, scales).value ==> (x.quantity.Some? ==> x.quantity.value > 0)
  {
    if cs != [] {
      PreparedAllPositive(cs[..|cs| - 1], scales);
      PreparedPositive(cs[|cs| - 1], scales);
    }
  }

  lemma {:induction false} BatchStaysPositive(l: Levels, xs: seq<Mutation>)
    requires PositiveAll(l)
    requires forall x :: x in xs ==> (x.quantity.Some? ==> x.quantity.value > 0)
    ensures PositiveAll(MutateAll(l, xs))
  {
    if xs != [] {
      var before, x := MutateAll(l, xs[..|xs| - 1]), xs[|xs| - 1];
      assert x in xs;
      BatchStaysPositive(l, xs[..|xs| - 1]);
      forall side, p | p in Mutate(before, x).Of(side) ensures Mutate(before, x).Of(side)[p] > 0 {
        assert p in before.Of(side) ==> before.Of(side)[p] > 0;
      }
    }
  }
}
