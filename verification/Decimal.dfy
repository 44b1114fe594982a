/** Exact decimals and the exact-only rescaling that every price and quantity passes through. */
module Decimal {
  import opened Common

  /** The value is coefficient * 10^-scale. */
  datatype Fixed = Fixed(coefficient: i128, scale: u8)

  datatype FixedError = Overflow | InexactRescale

  function Pow10(n: nat): (p: nat)
    ensures p > 0
  {
    if n == 0 then 1 else 10 * Pow10(n - 1)
  }

  function CheckedPow10(n: nat): Result<i128, FixedError> {
    if Pow10(n) <= I128_MAX then Ok(Pow10(n)) else Err(Overflow)
  }

  /** Division truncates in the source; on the exact branch it agrees with `/`. */
  function Rescale(f: Fixed, scale: u8): Result<Fixed, FixedError> {
    if scale == f.scale then Ok(f)
    else if scale > f.scale then
      var factor := CheckedPow10(scale - f.scale);
      if factor.Err? then Err(factor.error)
      else if I128_MIN <= f.coefficient * factor.value <= I128_MAX
      then Ok(Fixed(f.coefficient * factor.value, scale))
      else Err(Overflow)
    else
      var divisor := CheckedPow10(f.scale - scale);
      if divisor.Err? then Err(divisor.error)
      else if f.coefficient % divisor.value == 0
      then QuotientFits(f.coefficient, divisor.value); Ok(Fixed(f.coefficient / divisor.value, scale))
      else Err(InexactRescale)
  }

  lemma QuotientFits(x: i128, d: int)
    requires d > 0 && x % d == 0
    ensures I128_MIN <= x / d <= I128_MAX
    ensures x > 0 <==> x / d > 0
    ensures x == (x / d) * d
  {
    var q := x / d;
    assert x == q * d;
    if q >= 1 { MulGrows(q, d); }
    if q <= -1 { MulGrows(-q, d); }
  }

  lemma MulGrows(q: int, d: int)
    requires q >= 1 && d >= 1
    ensures q * d >= q
  {
  }

  lemma {:induction false} Pow10Splits(m: nat, n: nat)
    ensures Pow10(m + n) == Pow10(m) * Pow10(n)
  {
    if m != 0 {
      Pow10Splits(m - 1, n);
      assert Pow10(m + n) == 10 * Pow10(m - 1 + n);
    }
  }

  /** Rescaling never rounds: it keeps the value and the sign, and when it refuses for
      inexactness no coefficient at the new scale has the value. */
  lemma RescaleIsExact(f: Fixed, scale: u8)
    ensures Rescale(f, scale).Ok? ==>
              var g := Rescale(f, scale).value;
              && g.scale == scale
              && g.coefficient * Pow10(f.scale) == f.coefficient * Pow10(scale)
              && (g.coefficient > 0 <==> f.coefficient > 0)
    ensures Rescale(f, scale) == Err(InexactRescale) ==>
              forall c: int :: c * Pow10(f.scale) != f.coefficient * Pow10(scale)
  {
    if scale > f.scale {
      ScaleUp(f.coefficient, f.scale, scale);
    } else if scale < f.scale && Pow10(f.scale - scale) <= I128_MAX {
      ScaleDown(f.coefficient, f.scale, scale);
    }
  }

  lemma ScaleUp(x: int, from: nat, to: nat)
    requires from <= to
    ensures x * Pow10(to - from) * Pow10(from) == x * Pow10(to)
    ensures x * Pow10(to - from) > 0 <==> x > 0
  {
    Pow10Splits(to - from, from);
    Reassociate(x, Pow10(to - from), Pow10(from));
    SignOfProduct(x, Pow10(to - from));
  }

  lemma ScaleDown(x: i128, from: nat, to: nat)
    requires to <= from
    ensures var p := Pow10(from - to);
            if x % p == 0 then (x / p) * Pow10(from) == x * Pow10(to) && (x / p > 0 <==> x > 0)
            else forall c: int :: c * Pow10(from) != x * Pow10(to)
  {
    var p := Pow10(from - to);
    Pow10Splits(from - to, to);
    if x % p == 0 {
      QuotientFits(x, p);
      Reassociate(x / p, p, Pow10(to));
    } else {
      forall c: int ensures c * Pow10(from) != x * Pow10(to) {
        if c * Pow10(from) == x * Pow10(to) {
          Reassociate(c, p, Pow10(to));
          Cancel(c * p, x, Pow10(to));
          MultipleHasNoRemainder(c, p);
        }
      }
    }
  }

  lemma Reassociate(a: int, b: int, c: int)
    ensures a * b * c == a * (b * c)
  {
  }

  lemma SignOfProduct(a: int, p: int)
    requires p > 0
    ensures a * p > 0 <==> a > 0
  {
    if a > 0 { MulGrows(a, p); }
    if a < 0 { MulGrows(-a, p); }
  }

  lemma Cancel(a: int, b: int, p: int)
    requires p > 0 && a * p == b * p
    ensures a == b
  {
    if a > b { SignOfProduct(a - b, p); }
    if a < b { SignOfProduct(b - a, p); }
  }

  lemma MultipleHasNoRemainder(c: int, p: int)
    requires p > 0
    ensures (c * p) % p == 0
  {
    var q, r := (c * p) / p, (c * p) % p;
    assert c * p == q * p + r;
    assert (c - q) * p == r;
    if c - q >= 1 { MulGrows(c - q, p); }
    if c - q <= -1 { MulGrows(q - c, p); }
  }
}
