/**
  Definitions that every part of the model shares.
 */
module Common {

  datatype Option<+T> = None | Some(value: T)

  const SIZE_MAX: nat := 0xFFFF_FFFF_FFFF_FFFF
  const UINT32_MAX: nat := 0xFFFF_FFFF

  lemma MultiplyGrows(a: nat, b: nat, n: nat)
    requires a <= b
    ensures a * n <= b * n
  {
  }

  // Quotient and remainder are unique.
  lemma Remainder(x: nat, a: nat, q: nat, r: nat)
    requires a > 0 && r < a && x == q * a + r
    ensures x % a == r
  {
    var p := x / a;
    if p < q {
      MultiplyGrows(p + 1, q, a);
    } else if q < p {
      MultiplyGrows(q + 1, p, a);
    }
  }
}
