/** Literals broadcast to a vector, with the buffer kept from batch to batch
    (exec/expr.go, exec/scratch.go). */
module LiteralCaches {
  import opened Bits

  /** A byte with all its rows valid but the last ones of the batch. */
  function FullByte(n: nat, i: nat): Byte {
    if i < n / 8 then ONES else Low(n % 8)
  }

  lemma {:induction false} FullBytes(n: nat, i: nat)
    requires i < Size(n)
    ensures Full(n)[i] == FullByte(n, i)
  {
  }

  /** setAllValid: rows [0, n) valid, trailing bits of the last byte clear. */
  method SetAllValid(bm: array<Byte>, n: nat)
    requires Size(n) <= bm.Length
    modifies bm
    ensures bm[..Size(n)] == Full(n)
  {
    var size := Size(n);
    for i := 0 to size
      invariant forall j :: 0 <= j < i ==> bm[j] == ONES
    {
      bm[i] := ONES;
    }
    if n % 8 != 0 && size > 0 {
      bm[size - 1] := Low(n % 8);
    }
    forall i | 0 <= i < size ensures bm[i] == Full(n)[i] {
      FullBytes(n, i);
    }
  }

  /** A validity bitmap kept between batches. */
  class BitmapSlot {
    var bm: array<Byte>

    constructor ()
      ensures fresh(bm)
    {
      bm := new Byte[0];
    }

    /** acquireValidBitmap: reproduces a full bitmap exactly. */
    method Acquire(n: nat)
      modifies this, bm
      ensures (bm == old(bm) || fresh(bm)) && Size(n) <= bm.Length && bm[..Size(n)] == Full(n)
    {
      if bm.Length < Size(n) {
        bm := new Byte[Size(n)](_ => ZERO);
      }
      SetAllValid(bm, n);
    }
  }

  /** A literal of a type with one array element a row: INT64, FLOAT64, DATE, or the
      code of a STRING. */
  class ValueLiteral<T(0)> {
    const v: T
    const slot: BitmapSlot
    var cache: array<T>
    var filled: nat

    ghost predicate Valid()
      reads this, cache, slot
    {
      && (cache as object) != slot.bm && filled <= cache.Length
      && forall i :: 0 <= i < filled ==> cache[i] == v
    }

    method Fill(n: nat)
      requires n <= cache.Length && forall i :: 0 <= i < filled ==> i < cache.Length ==> cache[i] == v
      modifies cache
      ensures forall i :: 0 <= i < n || 0 <= i < filled ==> i < cache.Length ==> cache[i] == v
    {
      for i := filled to if filled > n then filled else n
        invariant forall j :: 0 <= j < i ==> j < cache.Length ==> cache[j] == v
      {
        cache[i] := v;
      }
    }

    constructor (v: T)
      ensures Valid() && this.v == v && fresh(cache) && fresh(slot) && fresh(slot.bm)
    {
      this.v, filled := v, 0;
      slot := new BitmapSlot();
      cache := new T[0];
    }

    /** For every sequence of batch lengths: the cached vector is a fresh broadcast. */
    method Eval(n: nat)
      requires Valid()
      modifies this, cache, slot, slot.bm
      ensures Valid() && (cache == old(cache) || fresh(cache)) && (slot.bm == old(slot.bm) || fresh(slot.bm))
      ensures n <= cache.Length && cache[..n] == seq(n, _ => v)
      ensures Size(n) <= slot.bm.Length && slot.bm[..Size(n)] == Full(n)
    {
      if cache.Length < n {
        cache, filled := new T[n], 0;
      }
      Fill(n);
      slot.Acquire(n);
      if n > filled {
        filled := n;
      }
    }
  }

  /** The bits of a broadcast BOOL literal. */
  function Broadcast(v: bool, n: nat): (bm: seq<Byte>)
    ensures |bm| == Size(n)
  {
    if v then Full(n) else Zeros(Size(n))
  }

  lemma {:induction false} AtBroadcast(v: bool, n: nat, i: nat)
    ensures At(Broadcast(v, n), i) <==> v && i < n
  {
    AtFull(n, i);
    AtZeros(Size(n), i);
  }

  /** Bitmaps that agree on every bit of their bytes are equal. */
  lemma {:induction false} SameBitmap(a: seq<Byte>, b: seq<Byte>)
    requires |a| == |b| && forall i :: 0 <= i < 8 * |a| ==> (At(a, i) <==> At(b, i))
    ensures a == b
  {
    forall i | 0 <= i < |a| ensures a[i] == b[i] {
      forall k | 0 <= k < 8 ensures a[i][k] == b[i][k] {
        RowOf(i, k);
        assert At(a, 8 * i + k) <==> At(b, 8 * i + k);
      }
    }
  }

  lemma {:induction false} RowOf(i: nat, k: nat)
    requires k < 8
    ensures (8 * i + k) / 8 == i && (8 * i + k) % 8 == k
  {
  }

  /** Masking the last byte clears exactly the bits past row n. */
  lemma {:induction false} MaskTail(bm: seq<Byte>, n: nat, i: nat)
    requires |bm| == Size(n) && n % 8 != 0
    ensures var last := Size(n) - 1;
      At(bm[last := AndB(bm[last], Low(n % 8))], i) <==> At(bm, i) && i < n
  {
    var last := Size(n) - 1;
  }

  class BoolLiteral {
    const v: bool
    const slot: BitmapSlot
    var bits: array<Byte>
    var filled: nat

    ghost predicate Valid()
      reads this, bits, slot
    {
      bits != slot.bm && Size(filled) <= bits.Length && forall i :: 0 <= i < filled ==> (At(bits[..], i) <==> v)
    }

    constructor (v: bool)
      ensures Valid() && this.v == v && fresh(bits) && fresh(slot) && fresh(slot.bm)
    {
      this.v, filled := v, 0;
      slot := new BitmapSlot();
      bits := new Byte[0];
    }

    method Fill(n: nat)
      requires Size(n) <= bits.Length && Valid()
      modifies bits
      ensures forall i :: 0 <= i < n ==> (At(bits[..], i) <==> v)
    {
      var i := filled;
      while i < n
        invariant forall j :: 0 <= j < i ==> (At(bits[..], j) <==> v)
      {
        ghost var before := bits[..];
        InSize(i, n);
        bits[i / 8] := Put(bits[i / 8], i % 8, v);
        assert bits[..] == Set(before, i, v);
        forall j | 0 <= j <= i ensures At(bits[..], j) <==> v {
          AtSet(before, i, v, j);
        }
        i := i + 1;
      }
    }

    /** The bits and the validity are byte-identical to a fresh broadcast, trailing bits
        included, however lengths grow and shrink. */
    method Eval(n: nat)
      requires Valid()
      modifies this, bits, slot, slot.bm
      ensures Valid() && (bits == old(bits) || fresh(bits)) && (slot.bm == old(slot.bm) || fresh(slot.bm))
      ensures Size(n) <= bits.Length && bits[..Size(n)] == Broadcast(v, n)
      ensures Size(n) <= slot.bm.Length && slot.bm[..Size(n)] == Full(n)
    {
      if bits.Length < Size(n) {
        bits, filled := new Byte[Size(n)](_ => ZERO), 0;
      }
      Fill(n);
      MaskLast(n);
      slot.Acquire(n);
      filled := n;
      ValidAfter(bits[..], n);
    }

    method MaskLast(n: nat)
      requires Size(n) <= bits.Length && forall i :: 0 <= i < n ==> (At(bits[..], i) <==> v)
      modifies bits
      ensures bits[..Size(n)] == Broadcast(v, n)
    {
      ghost var before := bits[..Size(n)];
      if n % 8 != 0 {
        var last := Size(n) - 1;
        bits[last] := AndB(bits[last], Low(n % 8));
        assert bits[..Size(n)] == before[last := AndB(before[last], Low(n % 8))];
      }
      forall i | 0 <= i < 8 * Size(n) ensures At(bits[..Size(n)], i) <==> At(Broadcast(v, n), i) {
        AtBroadcast(v, n, i);
        assert i < n ==> (At(before, i) <==> At(old(bits[..]), i));
        if n % 8 != 0 {
          MaskTail(before, n, i);
        }
      }
      SameBitmap(bits[..Size(n)], Broadcast(v, n));
    }

    lemma {:induction false} ValidAfter(bm: seq<Byte>, n: nat)
      requires Size(n) <= |bm| && bm[..Size(n)] == Broadcast(v, n)
      ensures forall i :: 0 <= i < n ==> (At(bm, i) <==> v)
    {
      forall i | 0 <= i < n ensures At(bm, i) <==> v {
        InSize(i, n);
        AtBroadcast(v, n, i);
        assert At(bm, i) <==> At(bm[..Size(n)], i);
      }
    }
  }
}
