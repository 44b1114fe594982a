/** The order of prices on each side of a book. */
module BookSides {
  import opened Ordering

  datatype Side = Bid | Ask

  function Other(side: Side): Side {
    if side == Bid then Ask else Bid
  }

  predicate Better(side: Side, p: int, q: int) {
    if side == Bid then p > q else p < q
  }

  /** The end of a side's ordered map that holds its best price. */
  function Extreme(side: Side, keys: set<int>): (k: int)
    requires keys != {}
    ensures k in keys && forall j :: j in keys && j != k ==> Better(side, k, j)
  {
    if side == Bid then Greatest(keys) else Least(keys)
  }
}
