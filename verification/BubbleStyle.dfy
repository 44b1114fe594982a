/** How large a bubble is drawn: its strength against a cap, scaled to a range of sizes. */
module BubbleStyle {
  import opened Common
  import opened BubbleOrder
  import opened BubbleThreshold

  /** The caps are in grid units; nothing stands for a cap that the grid cannot represent. */
  datatype Style = Style(volumeCap: Option<nat>, deltaCap: Option<nat>, minSize: nat, maxSize: nat) {
    predicate Valid() {
      0 < minSize <= maxSize <= 65_535
    }
  }

  function AtLeastOne(cap: nat): (c: nat)
    ensures c >= 1
  {
    if cap == 0 then 1 else cap
  }

  function Product(a: nat, b: nat): nat {
    a * b
  }

  function Quotient(a: nat, d: nat): nat
    requires 0 < d
  {
    a / d
  }

  function CapFor(s: Style, mode: Mode): Option<nat> {
    if mode == Volume then s.volumeCap else s.deltaCap
  }

  /** The size; nothing when the cap is not on the grid or the product overflows. */
  function Size(s: Style, mode: Mode, strength: nat): Option<nat>
    requires s.Valid()
  {
    if CapFor(s, mode).None? then None
    else
      var cap := AtLeastOne(CapFor(s, mode).value);
      var scaled := Product(Least(strength, cap), s.maxSize - s.minSize);
      if scaled > U128_MAX then None else Some(s.minSize + Quotient(scaled, cap))
  }

  lemma ProductGrows(a: nat, b: nat, k: nat)
    requires a <= b
    ensures Product(a, k) <= Product(b, k)
  {
  }

  /** The quotient is the largest factor that fits. */
  lemma QuotientIsLargest(a: nat, d: nat, q: nat)
    requires 0 < d
    ensures q <= Quotient(a, d) <==> Product(q, d) <= a
  {
    var r := Quotient(a, d);
    assert Product(r, d) <= a < Product(r, d) + d;
    if q <= r {
      ProductGrows(q, r, d);
    } else {
      ProductGrows(r + 1, q, d);
      assert Product(r + 1, d) == Product(r, d) + d;
    }
  }

  lemma QuotientGrows(a: nat, b: nat, d: nat)
    requires a <= b && 0 < d
    ensures Quotient(a, d) <= Quotient(b, d)
  {
    QuotientIsLargest(a, d, Quotient(a, d));
    QuotientIsLargest(b, d, Quotient(a, d));
  }

  lemma QuotientCancels(d: nat, k: nat)
    requires 0 < d
    ensures Quotient(Product(d, k), d) == k
  {
    assert Product(d, k) == Product(k, d);
    assert Product(k + 1, d) == Product(k, d) + d;
    QuotientIsLargest(Product(d, k), d, k);
    QuotientIsLargest(Product(d, k), d, k + 1);
  }

  /** A share of the range grows with its numerator and is all of it at the cap. */
  lemma ShareGrows(x: nat, y: nat, cap: nat, range: nat)
    requires x <= y <= cap && 0 < cap
    ensures Product(x, range) <= Product(y, range)
    ensures Quotient(Product(x, range), cap) <= Quotient(Product(y, range), cap) <= range
    ensures Quotient(Product(cap, range), cap) == range
  {
    ProductGrows(x, y, range);
    ProductGrows(y, cap, range);
    QuotientGrows(Product(x, range), Product(y, range), cap);
    QuotientGrows(Product(y, range), Product(cap, range), cap);
    QuotientCancels(cap, range);
  }

  /** A size lies in the range of the style, a stronger bubble is not smaller, and from the cap on
      all are the largest. */
  lemma SizeScales(s: Style, mode: Mode, weaker: nat, stronger: nat)
    requires s.Valid() && weaker <= stronger && Size(s, mode, stronger).Some?
    ensures Size(s, mode, weaker).Some?
    ensures s.minSize <= Size(s, mode, weaker).value <= Size(s, mode, stronger).value <= s.maxSize
    ensures 0 < CapFor(s, mode).value <= stronger ==> Size(s, mode, stronger).value == s.maxSize
  {
    var cap := AtLeastOne(CapFor(s, mode).value);
    ShareGrows(Least(weaker, cap), Least(stronger, cap), cap, s.maxSize - s.minSize);
  }

  /** It always exists when the cap is a quantity of the grid that leaves room for the range. */
  lemma SizeExists(s: Style, mode: Mode, strength: nat)
    requires s.Valid() && CapFor(s, mode).Some? && 0 < CapFor(s, mode).value <= U128_MAX / 65_535
    ensures Size(s, mode, strength).Some?
  {
    var cap, range := CapFor(s, mode).value, s.maxSize - s.minSize;
    ProductGrows(Least(strength, cap), cap, range);
    ProductGrows(range, 65_535, cap);
    assert Product(cap, range) == Product(range, cap);
  }
}
