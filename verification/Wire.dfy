/** Fixed-width little-endian fields read from the front of a buffer
    (internal/encoding), and repeated records. */
module Wire {
  import opened Arith
  import opened Options
  import opened RowKeys

  const WORD: nat := 4     // bytes of a uint32

  type Uint32 = n: int | 0 <= n < TWO32

  /** The number in the first k bytes. */
  function FromLE(b: Bytes, k: nat): int
    requires k <= |b|
  {
    if k == 0 then 0 else b[0] + 256 * FromLE(b[1..], k - 1)
  }

  lemma {:induction false} FromLEPut(n: nat, k: nat, rest: Bytes)
    requires n < Pow256(k)
    ensures FromLE(LE(n, k) + rest, k) == n
  {
    if k > 0 {
      FromLEPut(n / 256, k - 1, rest);
      assert (LE(n, k) + rest)[1..] == LE(n / 256, k - 1) + rest;
    }
  }

  lemma {:induction false} FromLEPrefix(b: Bytes, k: nat)
    requires k <= |b|
    ensures FromLE(b[..k], k) == FromLE(b, k)
  {
    if k > 0 {
      FromLEPrefix(b[1..], k - 1);
      assert b[..k][1..] == b[1..][..k - 1];
    }
  }

  /** Every element is a byte. */
  ghost predicate Octets(b: Bytes) {
    forall i :: 0 <= i < |b| ==> 0 <= b[i] < 256
  }

  lemma {:induction false} LowByte(low: int, high: nat)
    requires 0 <= low < 256
    ensures (low + 256 * high) % 256 == low && (low + 256 * high) / 256 == high
  {
  }

  /** The bytes of a number are the only ones read as it. */
  lemma {:induction false} FromLEBytes(b: Bytes, k: nat)
    requires Octets(b) && k == |b|
    ensures 0 <= FromLE(b, k) < Pow256(k) && LE(FromLE(b, k), k) == b
  {
    if k > 0 {
      FromLEBytes(b[1..], k - 1);
      var high := FromLE(b[1..], k - 1);
      LowByte(b[0], high);
      assert b == [b[0]] + b[1..];
    }
  }

  lemma {:induction false} FieldBytes(b: Bytes, k: nat)
    requires Octets(b) && k <= |b|
    ensures 0 <= FromLE(b, k) < Pow256(k) && b[..k] == LE(FromLE(b, k), k)
  {
    FromLEPrefix(b, k);
    FromLEBytes(b[..k], k);
  }

  /** A k-byte field and what follows it. */
  function Take(b: Bytes, k: nat): Option<(int, Bytes)> {
    if |b| < k then None else Some((FromLE(b, k), b[k..]))
  }

  lemma {:induction false} TakePut(n: nat, k: nat, rest: Bytes)
    requires n < Pow256(k)
    ensures Take(LE(n, k) + rest, k) == Some((n, rest))
  {
    FromLEPut(n, k, rest);
    assert (LE(n, k) + rest)[k..] == rest;
  }

  lemma {:induction false} Uint32Fits(n: Uint32)
    ensures n < Pow256(WORD)
  {
    Pow256Values();
  }

  /** A 64-bit pattern read as a signed value. */
  function Signed(u: int): int {
    if u >= TWO63 then u - TWO64 else u
  }

  lemma {:induction false} SignedUnsigned(v: int)
    requires IsInt64(v)
    ensures 0 <= Unsigned(v) < TWO64 && Signed(Unsigned(v)) == v
  {
  }

  /** The checksum of a payload: any function to four bytes. */
  type Checksum = Bytes -> Uint32

  function AppendChecksum(b: Bytes, crc: Checksum): Bytes {
    b + LE(crc(b), WORD)
  }

  function VerifyTrailing(b: Bytes, crc: Checksum): Option<Bytes> {
    if |b| < 4 then None
    else
      var payload := b[..|b| - 4];
      if FromLE(b[|b| - 4..], WORD) != crc(payload) then None else Some(payload)
  }

  lemma {:induction false} VerifyAppended(b: Bytes, crc: Checksum)
    ensures VerifyTrailing(AppendChecksum(b, crc), crc) == Some(b)
  {
    var whole := AppendChecksum(b, crc);
    assert whole[..|whole| - 4] == b && whole[|whole| - 4..] == LE(crc(b), WORD) + [];
    Uint32Fits(crc(b));
    FromLEPut(crc(b), WORD, []);
  }

  /** The last four bytes are the checksum of what is before them. */
  ghost predicate Sealed(b: Bytes, crc: Checksum) {
    |b| >= 4 && b[|b| - 4..] == LE(crc(b[..|b| - 4]), 4)
  }

  /** Verification accepts exactly the sealed buffers, and returns what was sealed. */
  lemma {:induction false} VerifyExactly(b: Bytes, crc: Checksum)
    requires Octets(b)
    ensures VerifyTrailing(b, crc).Some? <==> Sealed(b, crc)
    ensures VerifyTrailing(b, crc).Some? ==> b == AppendChecksum(VerifyTrailing(b, crc).value, crc)
  {
    if |b| >= 4 {
      var payload, tail := b[..|b| - 4], b[|b| - 4..];
      assert b == payload + tail && tail + [] == tail;
      FromLEBytes(tail, 4);
      Uint32Fits(crc(payload));
      FromLEPut(crc(payload), 4, []);
      assert LE(crc(payload), 4) + [] == LE(crc(payload), 4);
    }
  }

  /** n records, one after the other. */
  function Repeat<T>(p: Bytes -> Option<(T, Bytes)>, n: nat, b: Bytes): Option<(seq<T>, Bytes)> {
    if n == 0 then Some(([], b))
    else
      var first := p(b);
      if first.None? then None
      else
        var more := Repeat(p, n - 1, first.value.1);
        if more.None? then None else Some(([first.value.0] + more.value.0, more.value.1))
  }

  function Puts<T>(put: T -> Bytes, xs: seq<T>): Bytes {
    if xs == [] then [] else put(xs[0]) + Puts(put, xs[1..])
  }

  /** A reader that inverts a writer record by record inverts it on sequences. */
  lemma {:induction false} RepeatPuts<T>(p: Bytes -> Option<(T, Bytes)>, put: T -> Bytes, xs: seq<T>, rest: Bytes)
    requires forall i, more :: 0 <= i < |xs| ==> p(put(xs[i]) + more) == Some((xs[i], more))
    ensures Repeat(p, |xs|, Puts(put, xs) + rest) == Some((xs, rest))
  {
    if xs != [] {
      var after := Puts(put, xs[1..]) + rest;
      assert Puts(put, xs) + rest == put(xs[0]) + after;
      forall i, more | 0 <= i < |xs[1..]| ensures p(put(xs[1..][i]) + more) == Some((xs[1..][i], more)) {
        assert xs[1..][i] == xs[i + 1];
      }
      RepeatPuts(p, put, xs[1..], rest);
      assert [xs[0]] + xs[1..] == xs;
    } else {
      assert Puts(put, xs) + rest == rest;
    }
  }

  /** The reading loop: records appended until n are read or one fails. */
  method ReadRecords<T>(p: Bytes -> Option<(T, Bytes)>, n: nat, b: Bytes) returns (r: Option<(seq<T>, Bytes)>)
    ensures r == Repeat(p, n, b)
  {
    var out, rest := [], b;
    assert Repeat(p, n, b).Some? ==> [] + Repeat(p, n, b).value.0 == Repeat(p, n, b).value.0;
    for i := 0 to n
      invariant var more := Repeat(p, n - i, rest);
        Repeat(p, n, b) == if more.None? then None else Some((out + more.value.0, more.value.1))
    {
      var next := p(rest);
      if next.None? {
        return None;
      }
      ghost var more := Repeat(p, n - i - 1, next.value.1);
      assert more.Some? ==> out + ([next.value.0] + more.value.0) == (out + [next.value.0]) + more.value.0;
      out, rest := out + [next.value.0], next.value.1;
    }
    assert out + [] == out;
    return Some((out, rest));
  }
}
