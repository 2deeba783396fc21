/** Integer widths, and the little non-linear arithmetic the model needs. */
module Arith {

  const TWO31: int := 0x8000_0000
  const TWO32: int := 0x1_0000_0000
  const TWO63: int := 0x8000_0000_0000_0000
  const TWO64: int := 0x1_0000_0000_0000_0000

  predicate IsInt32(v: int) {
    -TWO31 <= v < TWO31
  }

  predicate IsInt64(v: int) {
    -TWO63 <= v < TWO63
  }

  lemma MulLe(a: int, b: int, w: nat)
    requires a <= b
    ensures a * w <= b * w
  {
  }

  function Min(a: int, b: int): int {
    if a <= b then a else b
  }

  /** Quotient and remainder are unique. */
  lemma Quotient(x: nat, q: nat, r: nat, w: nat)
    requires w > 0 && x == q * w + r && r < w
    ensures x / w == q && x % w == r
  {
    var q' := x / w;
    assert x == q' * w + x % w;
    MulLe(Min(q + 1, q'), q', w);
    MulLe(Min(q' + 1, q), q, w);
    assert (q + 1) * w == q * w + w && (q' + 1) * w == q' * w + w;
  }

  /** The same with the factors the other way round. */
  lemma {:induction false} Digit(x: nat, low: nat, p: nat, high: nat)
    requires x == low + p * high && low < p
    ensures x / p == high && x % p == low
  {
    assert p * high == high * p;
    Quotient(x, high, low, p);
  }

  lemma {:induction false} ConcatAssoc<T>(x: seq<T>, y: seq<T>, z: seq<T>)
    ensures (x + y) + z == x + (y + z)
  {
  }
}
