/** Order-flow bubbles and the orders in which lists of them are sorted. */
module BubbleOrder {
  import Sorting

  datatype Mode = Volume | Delta
  datatype Tier = F1 | F2 | F3
  datatype Direction = Sell | Neutral | Buy

  function Priority(t: Tier): int {
    match t case F1 => 1 case F2 => 2 case F3 => 3
  }

  function Rank(d: Direction): int {
    match d case Sell => 0 case Neutral => 1 case Buy => 2
  }

  /** `bucket` stands for the anchor price, which is the price of a bucket. */
  datatype Bubble = Bubble(
    id: int, segment: int, direction: Direction, bucket: int, low: int, high: int,
    tier: Tier, mode: Mode, sources: set<int>,
    buy: int, sell: int, unknown: int, total: int, strength: int, threshold: int, size: nat, merged: nat)

  /** Place brings together what may merge, strength ranks the bubbles of one tier, and tier is the
      order of the output. */
  datatype Order = Place | Strength | Output

  predicate Before(a: Bubble, b: Bubble, o: Order) {
    match o
    case Place =>
      if a.segment != b.segment then a.segment < b.segment
      else if a.direction != b.direction then Rank(a.direction) < Rank(b.direction)
      else if a.bucket != b.bucket then a.bucket < b.bucket
      else if a.tier != b.tier then Priority(a.tier) > Priority(b.tier)
      else a.id <= b.id
    case Strength =>
      if a.strength != b.strength then a.strength > b.strength
      else if a.bucket != b.bucket then a.bucket < b.bucket
      else a.id <= b.id
    case Output =>
      if a.tier != b.tier then Priority(a.tier) > Priority(b.tier)
      else if a.strength != b.strength then a.strength > b.strength
      else if a.segment != b.segment then a.segment < b.segment
      else if a.bucket != b.bucket then a.bucket < b.bucket
      else a.id <= b.id
  }

  predicate Ordered(bs: seq<Bubble>, o: Order) {
    forall i, j :: 0 <= i <= j < |bs| ==> Before(bs[i], bs[j], o)
  }

  function By(o: Order): (Bubble, Bubble) -> bool {
    (a, b) => Before(a, b, o)
  }

  /** A stable sort. */
  function Sort(bs: seq<Bubble>, o: Order): seq<Bubble> {
    Sorting.Sort(bs, By(o))
  }

  lemma BeforeIsOrder(o: Order)
    ensures Sorting.TotalOrder(By(o))
  {
    assert forall a, b :: By(o)(a, b) == Before(a, b, o);
  }

  lemma SortSorts(bs: seq<Bubble>, o: Order)
    ensures Ordered(Sort(bs, o), o) && multiset(Sort(bs, o)) == multiset(bs)
    ensures |Sort(bs, o)| == |bs|
    ensures forall b :: b in Sort(bs, o) <==> b in bs
  {
    BeforeIsOrder(o);
    Sorting.SortSorts(bs, By(o));
    var sorted := Sort(bs, o);
    forall i, j | 0 <= i <= j < |sorted| ensures Before(sorted[i], sorted[j], o) {
      assert By(o)(sorted[i], sorted[j]);
    }
  }
}
