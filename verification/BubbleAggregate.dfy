/** What a candle shows at one price bucket of one market segment: the candidates for bubbles and
    the volumes that a source selector gathers there. */
module BubbleAggregate {
  import opened Common
  import opened Decimal
  import opened Grid
  import opened BubbleMerge

  /** One price level of one source of a candle. */
  datatype Flow = Flow(venue: int, segment: int, price: Fixed, buy: Fixed, sell: Fixed, unknown: Fixed, total: Fixed)

  datatype Volumes = Volumes(buy: nat, sell: nat, unknown: nat, total: nat)

  /** The level on the grid: nothing where the grid cannot represent it. */
  datatype Reading = Reading(venue: int, segment: int, bucket: Option<int>, volumes: Option<Volumes>)

  function ReadVolumes(g: GridSpec, f: Flow): Option<Volumes> {
    var buy, sell, unknown, total :=
      NonNegativeUnits(g, f.buy), NonNegativeUnits(g, f.sell), NonNegativeUnits(g, f.unknown),
      QuantityUnits(g, f.total);
    if buy.Ok? && sell.Ok? && unknown.Ok? && total.Ok?
    then Some(Volumes(buy.value, sell.value, unknown.value, total.value))
    else None
  }

  function Read(g: GridSpec, f: Flow): Reading
    requires g.Valid()
  {
    var bucket := PriceBucket(g, f.price);
    Reading(f.venue, f.segment, if bucket.Ok? then Some(bucket.value) else None, ReadVolumes(g, f))
  }

  datatype Key = Key(segment: int, bucket: int)

  // ---- Candidates ----

  predicate Lower(a: Key, b: Key) {
    a.segment < b.segment || (a.segment == b.segment && a.bucket < b.bucket)
  }

  predicate Rising(ks: seq<Key>) {
    forall i, j :: 0 <= i < j < |ks| ==> Lower(ks[i], ks[j])
  }

  /** Insertion into an ordered set. */
  function WithKey(ks: seq<Key>, k: Key): seq<Key> {
    if ks == [] then [k]
    else
      var last := ks[|ks| - 1];
      if k == last then ks else if Lower(last, k) then ks + [k] else WithKey(ks[..|ks| - 1], k) + [last]
  }

  /** Every bucket that traded, in order; fails when a price is off the grid. */
  function Candidates(rs: seq<Reading>): Result<seq<Key>, ()> {
    if rs == [] then Ok([])
    else
      var r, ks := rs[|rs| - 1], Candidates(rs[..|rs| - 1]);
      if ks.Err? || r.bucket.None? then Err(()) else Ok(WithKey(ks.value, Key(r.segment, r.bucket.value)))
  }

  lemma {:induction false} WithKeyInserts(ks: seq<Key>, k: Key)
    requires Rising(ks)
    ensures Rising(WithKey(ks, k))
    ensures forall x :: x in WithKey(ks, k) <==> x in ks || x == k
  {
    if ks != [] {
      var init, last := ks[..|ks| - 1], ks[|ks| - 1];
      assert ks == init + [last];
      if k != last && !Lower(last, k) {
        WithKeyInserts(init, k);
        var inner := WithKey(init, k);
        forall i | 0 <= i < |inner| ensures Lower(inner[i], last) {
          assert inner[i] in inner;
        }
      }
    }
  }

  predicate At(r: Reading, k: Key) {
    r.segment == k.segment && r.bucket == Some(k.bucket)
  }

  /** The candidates are the buckets of the readings, each once. */
  lemma {:induction false} CandidatesAreBuckets(rs: seq<Reading>)
    ensures Candidates(rs).Ok? <==> forall r :: r in rs ==> r.bucket.Some?
    ensures Candidates(rs).Ok? ==> Rising(Candidates(rs).value)
    ensures Candidates(rs).Ok? ==> forall k :: k in Candidates(rs).value <==> exists r :: r in rs && At(r, k)
  {
    if rs != [] {
      var init, r := rs[..|rs| - 1], rs[|rs| - 1];
      assert rs == init + [r];
      CandidatesAreBuckets(init);
      if Candidates(rs).Ok? {
        WithKeyInserts(Candidates(init).value, Key(r.segment, r.bucket.value));
        forall k ensures k in Candidates(rs).value <==> exists x :: x in rs && At(x, k) {
          if k in Candidates(rs).value {
            if k in Candidates(init).value {
              var x :| x in init && At(x, k);
              assert x in rs;
            } else {
              assert r in rs && At(r, k);
            }
          }
          if exists x :: x in rs && At(x, k) {
            var x :| x in rs && At(x, k);
            assert x in init || x == r;
          }
        }
      }
    }
  }

  // ---- Aggregates ----

  datatype Selector = Selector(venues: set<int>, segments: set<int>) {
    predicate Matches(r: Reading) {
      (venues == {} || r.venue in venues) && (segments == {} || r.segment in segments)
    }
  }

  datatype Aggregate = Aggregate(sources: set<int>, volumes: Volumes)

  const Nothing := Aggregate({}, Volumes(0, 0, 0, 0))

  function Sum(a: Volumes, b: Volumes): Volumes {
    Volumes(a.buy + b.buy, a.sell + b.sell, a.unknown + b.unknown, a.total + b.total)
  }

  predicate Fits(v: Volumes) {
    v.buy <= I128_MAX && v.sell <= I128_MAX && v.unknown <= I128_MAX && v.total <= I128_MAX
  }

  function With(a: Aggregate, r: Reading): Result<Aggregate, ()> {
    if r.volumes.None? || !Fits(Sum(a.volumes, r.volumes.value)) then Err(())
    else Ok(Aggregate(a.sources + {r.venue}, Sum(a.volumes, r.volumes.value)))
  }

  /** The aggregate with one more reading: left out unless it is of the key's segment, selected and
      at the key's bucket. */
  function Considering(a: Aggregate, r: Reading, k: Key, s: Selector): Result<Aggregate, ()> {
    if r.segment != k.segment || !s.Matches(r) then Ok(a)
    else if r.bucket.None? then Err(())
    else if r.bucket.value != k.bucket then Ok(a)
    else With(a, r)
  }

  function AggregateFor(rs: seq<Reading>, k: Key, s: Selector): Result<Aggregate, ()> {
    if rs == [] then Ok(Nothing)
    else
      var a := AggregateFor(rs[..|rs| - 1], k, s);
      if a.Err? then Err(()) else Considering(a.value, rs[|rs| - 1], k, s)
  }

  /** The loop over the levels. */
  method Gather(rs: seq<Reading>, k: Key, s: Selector) returns (a: Result<Aggregate, ()>)
    ensures a == AggregateFor(rs, k, s)
  {
    a := Ok(Nothing);
    for n := 0 to |rs|
      invariant a.Ok? && a == AggregateFor(rs[..n], k, s)
    {
      assert rs[..n + 1][..n] == rs[..n];
      a := Considering(a.value, rs[n], k, s);
      if a.Err? {
        FailureSpreads(rs, n + 1, k, s);
        return;
      }
    }
    assert rs[..|rs|] == rs;
  }

  lemma {:induction false} FailureSpreads(rs: seq<Reading>, n: nat, k: Key, s: Selector)
    requires n <= |rs| && AggregateFor(rs[..n], k, s).Err?
    ensures AggregateFor(rs, k, s) == Err(())
  {
    if n < |rs| {
      assert rs[..|rs| - 1][..n] == rs[..n];
      FailureSpreads(rs[..|rs| - 1], n, k, s);
    } else {
      assert rs[..n] == rs;
    }
  }

  // ---- Sums over readings ----

  function Part(v: Volumes, f: Field): nat {
    match f
    case BuyVolume => v.buy
    case SellVolume => v.sell
    case UnknownVolume => v.unknown
    case TotalVolume => v.total
    case _ => 0
  }

  function Units(r: Reading, f: Field): nat {
    if r.volumes.Some? then Part(r.volumes.value, f) else 0
  }

  /** Which readings a sum runs over: all, those at one of some keys, or those a selector takes at a
      key. */
  datatype Scope = Everywhere | AtKeys(keys: set<Key>) | Selected(key: Key, selector: Selector)

  predicate Covers(scope: Scope, r: Reading) {
    match scope
    case Everywhere => true
    case AtKeys(keys) => r.bucket.Some? && Key(r.segment, r.bucket.value) in keys
    case Selected(k, s) => At(r, k) && s.Matches(r)
  }

  function Traded(rs: seq<Reading>, scope: Scope, f: Field): nat {
    if rs == [] then 0
    else Traded(rs[..|rs| - 1], scope, f) + if Covers(scope, rs[|rs| - 1]) then Units(rs[|rs| - 1], f) else 0
  }

  /** An aggregate holds exactly the volumes of the selected readings, and the venues of them. */
  lemma {:induction false} AggregateMeaning(rs: seq<Reading>, k: Key, s: Selector, f: Field)
    requires AggregateFor(rs, k, s).Ok?
    ensures var a := AggregateFor(rs, k, s).value;
            Part(a.volumes, f) == Traded(rs, Selected(k, s), f) && Fits(a.volumes)
  {
    if rs != [] {
      AggregateMeaning(rs[..|rs| - 1], k, s, f);
    }
  }

  lemma {:induction false} AggregateVenues(rs: seq<Reading>, k: Key, s: Selector, venue: int)
    requires AggregateFor(rs, k, s).Ok?
    ensures venue in AggregateFor(rs, k, s).value.sources
       <==> exists r :: r in rs && At(r, k) && s.Matches(r) && r.venue == venue
  {
    if rs != [] {
      var init, last := rs[..|rs| - 1], rs[|rs| - 1];
      assert rs == init + [last];
      AggregateVenues(init, k, s, venue);
      assert forall r :: r in rs <==> r in init || r == last;
    }
  }

  lemma {:induction false} NarrowerIsLess(rs: seq<Reading>, inner: Scope, outer: Scope, f: Field)
    requires forall r :: r in rs && Covers(inner, r) ==> Covers(outer, r)
    ensures Traded(rs, inner, f) <= Traded(rs, outer, f)
  {
    if rs != [] {
      assert rs[|rs| - 1] in rs;
      NarrowerIsLess(rs[..|rs| - 1], inner, outer, f);
    }
  }

  /** Different keys take different readings. */
  lemma {:induction false} KeysAdd(rs: seq<Reading>, keys: set<Key>, k: Key, f: Field)
    requires k !in keys
    ensures Traded(rs, AtKeys(keys + {k}), f) == Traded(rs, AtKeys(keys), f) + Traded(rs, AtKeys({k}), f)
  {
    if rs != [] {
      KeysAdd(rs[..|rs| - 1], keys, k, f);
    }
  }

  predicate Balances(r: Reading) {
    r.volumes.Some? ==> r.volumes.value.total == r.volumes.value.buy + r.volumes.value.sell + r.volumes.value.unknown
  }

  lemma {:induction false} AggregateBalances(rs: seq<Reading>, k: Key, s: Selector)
    requires AggregateFor(rs, k, s).Ok? && forall r :: r in rs ==> Balances(r)
    ensures var v := AggregateFor(rs, k, s).value.volumes; v.total == v.buy + v.sell + v.unknown
  {
    if rs != [] {
      assert Balances(rs[|rs| - 1]);
      AggregateBalances(rs[..|rs| - 1], k, s);
    }
  }
}
