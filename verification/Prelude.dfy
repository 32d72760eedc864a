/** Small value types and arithmetic shared by every component. */
module Prelude {

  const U32_MAX: nat := 0xFFFF_FFFF

  const U64_MAX: nat := 0xFFFF_FFFF_FFFF_FFFF

  datatype Option<+T> = None | Some(value: T)

  datatype Result<+T, +E> = Ok(value: T) | Err(error: E)

  /** Saturating subtraction, as Rust's `saturating_sub` and `saturating_duration_since`. */
  function SatSub(a: nat, b: nat): nat {
    if a < b then 0 else a - b
  }

  lemma MulAtLeast(d: nat, k: int)
    requires k >= 1
    ensures d * k >= d
  {
    assert d * k == d + d * (k - 1);
  }

  /** Quotient and remainder are the only pair that rebuilds a number. */
  lemma DivModUnique(x: nat, d: nat, q: nat, r: nat)
    requires x == d * q + r && r < d
    ensures x / d == q && x % d == r
  {
    var p, s := x / d, x % d;
    assert x == d * p + s;
    assert d * (p - q) == d * p - d * q && d * (q - p) == d * q - d * p;
    if p > q {
      MulAtLeast(d, p - q);
    } else if p < q {
      MulAtLeast(d, q - p);
    }
  }

  lemma DivSmaller(n: nat, d: nat)
    requires n >= 1 && d >= 2
    ensures n / d < n && n == d * (n / d) + n % d
  {
    var q := n / d;
    assert n == d * q + n % d;
    assert d * q == 2 * q + (d - 2) * q && (d - 2) * q >= 0;
  }
}
