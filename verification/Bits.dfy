/** Bit-packed bitmaps (storage/codec.go, exec/scratch.go): one bit a row, eight rows a
    byte, lowest bit first. */
module Bits {

  /** A byte as its eight bits, lowest first. */
  type Byte = b: seq<bool> | |b| == 8 witness [false, false, false, false, false, false, false, false]

  const ZERO: Byte := [false, false, false, false, false, false, false, false]  // 0x00
  const ONES: Byte := [true, true, true, true, true, true, true, true]          // 0xFF

  /** Bit k: b >> k & 1 != 0. */
  function Bit(b: Byte, k: nat): bool
    requires k < 8
  {
    b[k]
  }

  /** The bitwise operators. */
  function AndB(a: Byte, b: Byte): Byte {
    seq(8, k requires 0 <= k < 8 => a[k] && b[k])
  }

  function OrB(a: Byte, b: Byte): Byte {
    seq(8, k requires 0 <= k < 8 => a[k] || b[k])
  }

  function NotB(a: Byte): Byte {
    seq(8, k requires 0 <= k < 8 => !a[k])
  }

  /** 1 << k. */
  function Mask(k: nat): Byte {
    seq(8, j => j == k)
  }

  /** The lowest n bits: 1 << n - 1. */
  function Low(n: nat): Byte {
    seq(8, j => j < n)
  }

  /** Setting or clearing one bit: b |= 1 << k, or b &^= 1 << k. */
  function Put(b: Byte, k: nat, v: bool): Byte
    requires k < 8
  {
    if v then OrB(b, Mask(k)) else AndB(b, NotB(Mask(k)))
  }

  lemma {:induction false} BitPut(b: Byte, k: nat, v: bool)
    requires k < 8
    ensures Put(b, k, v) == b[k := v]
  {
  }

  // ---- Bitmaps ----------------------------------------------------------------------------

  function Size(n: nat): nat {
    (n + 7) / 8
  }

  /** Row i's bit; past the end there is none. */
  function At(bm: seq<Byte>, i: nat): bool {
    i / 8 < |bm| && Bit(bm[i / 8], i % 8)
  }

  function Set(bm: seq<Byte>, i: nat, v: bool): seq<Byte>
    requires i / 8 < |bm|
  {
    bm[i / 8 := Put(bm[i / 8], i % 8, v)]
  }

  lemma {:induction false} AtSet(bm: seq<Byte>, i: nat, v: bool, j: nat)
    requires i / 8 < |bm|
    ensures At(Set(bm, i, v), j) <==> if j == i then v else At(bm, j)
  {
    if j / 8 == i / 8 {
      BitPut(bm[i / 8], i % 8, v);
      SameIndex(i, j);
    }
  }

  lemma {:induction false} SameIndex(i: nat, j: nat)
    requires i / 8 == j / 8
    ensures i % 8 == j % 8 <==> i == j
  {
  }

  lemma {:induction false} InSize(i: nat, n: nat)
    requires i < n
    ensures i / 8 < Size(n)
  {
  }

  /** Zeroed bytes. */
  function Zeros(size: nat): seq<Byte> {
    seq(size, _ => ZERO)
  }

  lemma {:induction false} AtZeros(size: nat, i: nat)
    ensures !At(Zeros(size), i)
  {
  }

  /** FullBitmap: rows below n set, the trailing bits of the last byte clear. */
  function Full(n: nat): (bm: seq<Byte>)
    ensures |bm| == Size(n)
  {
    if n % 8 == 0 then seq(n / 8, _ => ONES) else seq(n / 8, _ => ONES) + [Low(n % 8)]
  }

  lemma {:induction false} AtFull(n: nat, i: nat)
    ensures At(Full(n), i) <==> i < n
  {
  }
}
