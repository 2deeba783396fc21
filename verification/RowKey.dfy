/** The composite key encoding shared by hash aggregation and Distinct
    (exec/aggregate.go, exec/agg_intkey.go, exec/distinct.go). */
module RowKeys {
  import opened Arith
  import opened Batches
  import opened Seqs

  type Bytes = seq<int>

  /** Little-endian bytes of a number. */
  function LE(n: nat, k: nat): (b: Bytes)
    ensures |b| == k
  {
    if k == 0 then [] else [n % 256] + LE(n / 256, k - 1)
  }

  function Pow256(k: nat): nat {
    if k == 0 then 1 else 256 * Pow256(k - 1)
  }

  lemma {:induction false} LEInjective(m: nat, n: nat, k: nat)
    requires m < Pow256(k) && n < Pow256(k) && LE(m, k) == LE(n, k)
    ensures m == n
  {
    if k > 0 {
      assert LE(m, k)[0] == LE(n, k)[0] && LE(m, k)[1..] == LE(n, k)[1..];
      LEInjective(m / 256, n / 256, k - 1);
    }
  }

  /** The 64-bit pattern of a signed value. */
  function Unsigned(bits: int): nat {
    bits % TWO64
  }

  function CharCodes(s: string): Bytes {
    seq(|s|, i requires 0 <= i < |s| => s[i] as int)
  }

  lemma {:induction false} CharCodesInjective(s: string, t: string)
    requires CharCodes(s) == CharCodes(t)
    ensures s == t
  {
    assert |s| == |t|;
    forall i | 0 <= i < |s| ensures s[i] == t[i] {
      assert CharCodes(s)[i] == CharCodes(t)[i];
    }
  }

  /** What a column can hold: int64 images, and strings a uint32 length describes. */
  predicate Storable(c: Cell) {
    match c
    case Null => true
    case Num(bits) => IsInt64(bits)
    case Text(s) => |s| < TWO32
  }

  function EncodeText(s: string): (b: Bytes)
    ensures |b| == |s| + 6
  {
    [0x02] + LE(|s|, 4) + CharCodes(s) + [0xFF]
  }

  function EncodeCell(c: Cell): (b: Bytes)
    ensures |b| > 0
  {
    match c
    case Null => [0x00, 0xFF]
    case Num(bits) => [0x01] + LE(Unsigned(bits), 8) + [0xFF]
    case Text(s) => EncodeText(s)
  }

  ghost predicate AllStorable(row: seq<Cell>) {
    forall i :: 0 <= i < |row| ==> Storable(row[i])
  }

  ghost predicate RowsStorable(rows: seq<seq<Cell>>) {
    forall i :: 0 <= i < |rows| ==> AllStorable(rows[i])
  }

  /** The cells' encodings. */
  function Pieces(row: seq<Cell>): (ps: seq<Bytes>)
    ensures |ps| == |row|
  {
    seq(|row|, i requires 0 <= i < |row| => EncodeCell(row[i]))
  }

  /** The key of a row: its cells' encodings one after the other. */
  function Encode(row: seq<Cell>): Bytes {
    Flat(Pieces(row))
  }

  lemma {:induction false} Pow256Values()
    ensures Pow256(4) == TWO32 && Pow256(8) == TWO64
  {
    assert Pow256(1) == 256 && Pow256(2) == 0x1_0000 && Pow256(3) == 0x100_0000;
    assert Pow256(5) == 0x100_0000_0000 && Pow256(6) == 0x1_0000_0000_0000 && Pow256(7) == 0x100_0000_0000_0000;
  }

  lemma {:induction false} NumPrefix(m: int, n: int, x: Bytes, y: Bytes)
    requires Storable(Num(m)) && Storable(Num(n)) && EncodeCell(Num(m)) + x == EncodeCell(Num(n)) + y
    ensures m == n && x == y
  {
    var a, b := EncodeCell(Num(m)) + x, EncodeCell(Num(n)) + y;
    assert a[1..9] == LE(Unsigned(m), 8) && b[1..9] == LE(Unsigned(n), 8);
    assert a[10..] == x && b[10..] == y;
    NumInjective(m, n);
  }

  lemma {:induction false} NumInjective(m: int, n: int)
    requires IsInt64(m) && IsInt64(n) && LE(Unsigned(m), 8) == LE(Unsigned(n), 8)
    ensures m == n
  {
    Pow256Values();
    LEInjective(Unsigned(m), Unsigned(n), 8);
    assert Unsigned(m) == if m < 0 then m + TWO64 else m;
    assert Unsigned(n) == if n < 0 then n + TWO64 else n;
  }

  lemma {:induction false} TextPrefix(s: string, t: string, x: Bytes, y: Bytes)
    requires |s| < TWO32 && |t| < TWO32 && EncodeText(s) + x == EncodeText(t) + y
    ensures s == t && x == y
  {
    var a, b := EncodeText(s) + x, EncodeText(t) + y;
    assert a[1..5] == LE(|s|, 4) && b[1..5] == LE(|t|, 4);
    Pow256Values();
    LEInjective(|s|, |t|, 4);
    assert a[5..5 + |s|] == CharCodes(s) && b[5..5 + |t|] == CharCodes(t);
    CharCodesInjective(s, t);
    assert a[|s| + 6..] == x && b[|t| + 6..] == y;
  }

  /** No cell's encoding is a proper prefix of another's. */
  lemma {:induction false} CellPrefix(c: Cell, d: Cell, x: Bytes, y: Bytes)
    requires Storable(c) && Storable(d) && EncodeCell(c) + x == EncodeCell(d) + y
    ensures c == d && x == y
  {
    assert (EncodeCell(c) + x)[0] == EncodeCell(c)[0] && (EncodeCell(d) + y)[0] == EncodeCell(d)[0];
    match c
    case Null =>
      assert x == (EncodeCell(c) + x)[2..] && y == (EncodeCell(d) + y)[2..];
    case Num(m) => NumPrefix(m, d.bits, x, y);
    case Text(s) => TextPrefix(s, d.s, x, y);
  }

  // ---- Concatenated pieces ------------------------------------------------------------------

  ghost predicate NonEmpty(ps: seq<Bytes>) {
    forall i :: 0 <= i < |ps| ==> ps[i] != []
  }

  /** No piece of one list is a proper prefix of a piece of the other. */
  ghost predicate PrefixFree(ps: seq<Bytes>, qs: seq<Bytes>) {
    forall i, j :: 0 <= i < |ps| && 0 <= j < |qs| && (ps[i] <= qs[j] || qs[j] <= ps[i]) ==> ps[i] == qs[j]
  }

  lemma {:induction false} FlatHead(ps: seq<Bytes>)
    requires ps != []
    ensures Flat(ps) == ps[0] + Flat(ps[1..])
  {
    assert ps == [ps[0]] + ps[1..];
    FlatConcat([ps[0]], ps[1..]);
    FlatOne(ps[0]);
  }

  lemma {:induction false} SameStart(p: Bytes, q: Bytes, x: Bytes, y: Bytes)
    requires p + x == q + y
    ensures (p <= q || q <= p) && (p == q ==> x == y)
  {
    var all := p + x;
    assert all[..|p|] == p && all[..|q|] == q && all[|p|..] == x && all[|q|..] == y;
    if |p| <= |q| {
      assert q[..|p|] == p;
    } else {
      assert p[..|q|] == q;
    }
  }

  /** Nonempty prefix-free pieces are determined by their concatenation. */
  lemma {:induction false} UniquePieces(ps: seq<Bytes>, qs: seq<Bytes>)
    requires NonEmpty(ps) && NonEmpty(qs) && PrefixFree(ps, qs) && Flat(ps) == Flat(qs)
    ensures ps == qs
  {
    if ps != [] {
      FlatHead(ps);
    }
    if qs != [] {
      FlatHead(qs);
    }
    if ps != [] && qs != [] {
      SameStart(ps[0], qs[0], Flat(ps[1..]), Flat(qs[1..]));
      UniquePieces(ps[1..], qs[1..]);
      assert ps == [ps[0]] + ps[1..] && qs == [qs[0]] + qs[1..];
    }
  }

  lemma {:induction false} CellsApart(c: Cell, d: Cell)
    requires Storable(c) && Storable(d) && EncodeCell(c) <= EncodeCell(d)
    ensures c == d
  {
    var p, q := EncodeCell(c), EncodeCell(d);
    assert p + q[|p|..] == q + [];
    CellPrefix(c, d, q[|p|..], []);
  }

  lemma {:induction false} PiecesApart(row: seq<Cell>, row': seq<Cell>)
    requires AllStorable(row) && AllStorable(row')
    ensures NonEmpty(Pieces(row)) && NonEmpty(Pieces(row')) && PrefixFree(Pieces(row), Pieces(row'))
  {
    var ps, qs := Pieces(row), Pieces(row');
    forall i, j | 0 <= i < |ps| && 0 <= j < |qs| && (ps[i] <= qs[j] || qs[j] <= ps[i]) ensures ps[i] == qs[j] {
      if ps[i] <= qs[j] {
        CellsApart(row[i], row'[j]);
      } else {
        CellsApart(row'[j], row[i]);
      }
    }
  }

  /** The encoding is uniquely decodable, for any mix and any number of columns. */
  lemma {:induction false} EncodeInjective(row: seq<Cell>, row': seq<Cell>)
    requires AllStorable(row) && AllStorable(row') && Encode(row) == Encode(row')
    ensures row == row'
  {
    PiecesApart(row, row');
    UniquePieces(Pieces(row), Pieces(row'));
    forall i | 0 <= i < |row| ensures row[i] == row'[i] {
      assert Pieces(row)[i] == Pieces(row')[i];
      CellsApart(row[i], row'[i]);
    }
  }

  lemma {:induction false} EncodeSnoc(row: seq<Cell>, c: Cell)
    ensures Encode(row + [c]) == Encode(row) + EncodeCell(c)
  {
    var ps := Pieces(row);
    assert Pieces(row + [c]) == ps + [EncodeCell(c)];
    FlatConcat(ps, [EncodeCell(c)]);
    FlatOne(EncodeCell(c));
  }

  /** Only the empty row has the empty key. */
  lemma {:induction false} EncodeEmpty(row: seq<Cell>)
    ensures Encode(row) == [] ==> row == []
  {
    if row != [] {
      FlatHead(Pieces(row));
    }
  }

  /** buildKey: appends each column's encoding to one buffer. */
  method BuildKey(row: seq<Cell>) returns (buf: Bytes)
    ensures buf == Encode(row)
  {
    buf := [];
    for i := 0 to |row|
      invariant buf == Encode(row[..i])
    {
      EncodeSnoc(row[..i], row[i]);
      assert row[..i + 1] == row[..i] + [row[i]];
      var piece := [];
      match row[i] {
        case Null => piece := [0x00, 0xFF];
        case Num(bits) => piece := [0x01] + LE(Unsigned(bits), 8) + [0xFF];
        case Text(s) => piece := [0x02] + LE(|s|, 4) + CharCodes(s) + [0xFF];
      }
      assert piece == EncodeCell(row[i]);
      buf := buf + piece;
    }
    assert row[..|row|] == row;
  }
}
