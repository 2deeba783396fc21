/** Writing a column as blocks and reading it back through the window
    (storage/writer.go, storage/rowgroup.go, exec/scan.go). */
module ColumnStores {
  import opened Arith
  import opened Options
  import opened Seqs
  import opened RowKeys
  import opened Scans
  import opened Wire
  import opened Bits
  import opened Codecs
  import opened ColumnWindows

  // ---- Bitmaps in a file -----------------------------------------------------------------

  /** A byte's number, lowest bit first. */
  function Number(bits: seq<bool>): nat {
    if bits == [] then 0 else (if bits[0] then 1 else 0) + 2 * Number(bits[1..])
  }

  function BitsOf(n: nat, k: nat): (bits: seq<bool>)
    ensures |bits| == k
  {
    if k == 0 then [] else [n % 2 == 1] + BitsOf(n / 2, k - 1)
  }

  lemma {:induction false} BitsOfNumber(bits: seq<bool>)
    ensures BitsOf(Number(bits), |bits|) == bits
  {
    if bits != [] {
      BitsOfNumber(bits[1..]);
      assert Number(bits) / 2 == Number(bits[1..]);
      assert bits == [bits[0]] + bits[1..];
    }
  }

  function PutBitmap(bm: seq<Byte>): (b: Bytes)
    ensures |b| == |bm|
  {
    seq(|bm|, i requires 0 <= i < |bm| => Number(bm[i]))
  }

  function GetBitmap(b: Bytes): (bm: seq<Byte>)
    ensures |bm| == |b|
  {
    seq(|b|, i requires 0 <= i < |b| => if b[i] < 0 then ZERO else BitsOf(b[i], 8))
  }

  lemma {:induction false} BitmapRoundTrip(bm: seq<Byte>)
    ensures GetBitmap(PutBitmap(bm)) == bm
  {
    forall i | 0 <= i < |bm| ensures GetBitmap(PutBitmap(bm))[i] == bm[i] {
      BitsOfNumber(bm[i]);
    }
  }

  /** The rows [start, start + rows) of a bitmap as one of their own. */
  method SubBitmap(bm: seq<Byte>, start: nat, rows: nat) returns (sub: seq<Byte>)
    ensures |sub| == Size(rows) && forall i :: 0 <= i < rows ==> (At(sub, i) <==> At(bm, start + i))
  {
    sub := Zeros(Size(rows));
    forall i: nat ensures !At(sub, i) {
      AtZeros(Size(rows), i);
    }
    for i := 0 to rows
      invariant |sub| == Size(rows) && forall j: nat :: At(sub, j) <==> j < i && At(bm, start + j)
    {
      if At(bm, start + i) {
        InSize(i, rows);
        forall j: nat ensures At(Set(sub, i, true), j) <==> j == i || At(sub, j) {
          AtSet(sub, i, true, j);
        }
        sub := Set(sub, i, true);
      }
    }
  }

  // ---- Blocks of a column -------------------------------------------------------------------

  /** What the rows of a column hold. */
  function CellsOf<T>(bm: seq<Byte>, values: seq<T>): (cells: seq<Option<T>>)
    ensures |cells| == |values|
  {
    seq(|values|, i requires 0 <= i < |values| => if At(bm, i) then Some(values[i]) else None)
  }

  lemma {:induction false} CellsOfPart<T>(bm: seq<Byte>, values: seq<T>, start: nat, end: nat, sub: seq<Byte>)
    requires start <= end <= |values| && forall i :: 0 <= i < end - start ==> (At(sub, i) <==> At(bm, start + i))
    ensures CellsOf(sub, values[start..end]) == CellsOf(bm, values)[start..end]
  {
  }

  /** All blocks so far are full, so one more makes a section. */
  ghost predicate FullSection(kind: Kind, crc: Checksum, blocks: seq<Written>) {
    SectionOk(kind, crc, blocks) && forall i :: 0 <= i < |blocks| ==> blocks[i].rows == BLOCK_ROWS
  }

  lemma {:induction false} AddBlock(kind: Kind, crc: Checksum, blocks: seq<Written>, b: Written)
    requires FullSection(kind, crc, blocks) && BlockOk(kind, crc, b)
    ensures SectionOk(kind, crc, blocks + [b]) && RowsOf(blocks + [b]) == RowsOf(blocks) + b.rows
    ensures b.rows == BLOCK_ROWS ==> FullSection(kind, crc, blocks + [b])
  {
    assert (blocks + [b])[..|blocks|] == blocks;
  }

  /** Each block holds its part of the column. */
  ghost predicate Holds<T(!new)>(holds: (Written, seq<T>) -> bool, blocks: seq<Written>, parts: seq<seq<T>>) {
    |parts| == |blocks| && forall k :: 0 <= k < |blocks| ==> holds(blocks[k], parts[k])
  }

  /** A section under way: the first `start` cells are in full blocks. */
  ghost predicate Under<T(!new)>(kind: Kind, crc: Checksum, holds: (Written, seq<T>) -> bool, blocks: seq<Written>,
      parts: seq<seq<T>>,
                                 cells: seq<T>, start: nat) {
    && start <= |cells| && SectionOk(kind, crc, blocks) && (start < |cells| ==> FullSection(kind, crc, blocks))
    && RowsOf(blocks) == start && Holds(holds, blocks, parts) && Flat(parts) == cells[..start]
  }

  lemma {:induction false} NextBlock<T(!new)>(kind: Kind, crc: Checksum, holds: (Written, seq<T>) -> bool,
      blocks: seq<Written>,
                                              parts: seq<seq<T>>, cells: seq<T>, start: nat, end: nat, b: Written)
    requires Under(kind, crc, holds, blocks, parts, cells, start) && start < end <= |cells|
    requires end == |cells| || end == start + BLOCK_ROWS
    requires BlockOk(kind, crc, b) && b.rows == end - start && holds(b, cells[start..end])
    ensures Under(kind, crc, holds, blocks + [b], parts + [cells[start..end]], cells, end)
  {
    AddBlock(kind, crc, blocks, b);
    HoldsMore(holds, blocks, parts, b, cells[start..end]);
    FlatMore(parts, cells, start, end);
  }

  lemma {:induction false} HoldsMore<T(!new)>(holds: (Written, seq<T>) -> bool, blocks: seq<Written>,
      parts: seq<seq<T>>, b: Written, part: seq<T>)
    requires Holds(holds, blocks, parts) && holds(b, part)
    ensures Holds(holds, blocks + [b], parts + [part])
  {
  }

  lemma {:induction false} FlatMore<T>(parts: seq<seq<T>>, cells: seq<T>, start: nat, end: nat)
    requires start <= end <= |cells| && Flat(parts) == cells[..start]
    ensures Flat(parts + [cells[start..end]]) == cells[..end]
  {
    FlatConcat(parts, [cells[start..end]]);
    FlatOne(cells[start..end]);
    assert cells[..start] + cells[start..end] == cells[..end];
  }

  // ---- INT64 ----------------------------------------------------------------------------------

  function PutInt64(v: int): (b: Bytes)
    ensures |b| == 8
  {
    LE(Unsigned(v), 8)
  }

  function ParseInt64(b: Bytes): Option<(int, Bytes)> {
    match Take(b, 8)
    case None => None
    case Some((u, rest)) => Some((Signed(u), rest))
  }

  lemma {:induction false} Int64Reads(v: int, rest: Bytes)
    requires IsInt64(v)
    ensures ParseInt64(PutInt64(v) + rest) == Some((v, rest))
  {
    Pow256Values();
    SignedUnsigned(v);
    TakePut(Unsigned(v), 8, rest);
  }

  lemma {:induction false} ValuesLength(values: seq<int>)
    ensures |Puts(PutInt64, values)| == 8 * |values|
  {
    if values != [] {
      ValuesLength(values[1..]);
    }
  }

  lemma {:induction false} ValuesRead(values: seq<int>)
    requires forall i :: 0 <= i < |values| ==> IsInt64(values[i])
    ensures Repeat(ParseInt64, |values|, Puts(PutInt64, values)) == Some((values, []))
  {
    forall i, more | 0 <= i < |values| ensures ParseInt64(PutInt64(values[i]) + more) == Some((values[i], more)) {
      Int64Reads(values[i], more);
    }
    RepeatPuts(ParseInt64, PutInt64, values, []);
    assert Puts(PutInt64, values) + [] == Puts(PutInt64, values);
  }

  /** What a reader makes of an INT64 block. */
  function Int64Cells(out: Outcome): Option<seq<Option<int>>> {
    if !out.Got? then None
    else
      match Repeat(ParseInt64, out.rows, out.payload)
      case None => None
      case Some((values, _)) => Some(CellsOf(GetBitmap(out.bitmap), values))
  }

  predicate HoldsInt64(b: Written, cells: seq<Option<int>>) {
    Int64Cells(Contents(Fixed(8), b)) == Some(cells)
  }

  function Int64Bytes(sub: seq<Byte>, values: seq<int>): Bytes
    requires |sub| <= NULL_BITMAP_BYTES
  {
    PutBitmap(sub) + seq(NULL_BITMAP_BYTES - |sub|, _ => 0) + Puts(PutInt64, values)
  }

  /** A block of the writer is well formed and holds its rows. */
  lemma {:induction false} Int64Block(sub: seq<Byte>, values: seq<int>, crc: Checksum)
    requires 0 < |values| <= BLOCK_ROWS && |sub| == Size(|values|)
    requires forall i :: 0 <= i < |values| ==>
      IsInt64(values[i])
    ensures |sub| <= NULL_BITMAP_BYTES
    ensures var b := Written(AppendChecksum(Int64Bytes(sub, values), crc), |values|);
      BlockOk(Fixed(8), crc, b) && HoldsInt64(b, CellsOf(sub, values))
  {
    var body := Int64Bytes(sub, values);
    var raw := AppendChecksum(body, crc);
    ValuesLength(values);
    ValuesRead(values);
    BitmapRoundTrip(sub);
    assert raw[..|raw| - 4] == body;
    assert raw[..|sub|] == PutBitmap(sub);
    assert raw[NULL_BITMAP_BYTES..|raw| - 4] == Puts(PutInt64, values);
  }

  /** writeInt64Blocks: one checksummed block for each 1024 rows. */
  method WriteInt64Blocks(bm: seq<Byte>, values: seq<int>, crc: Checksum)
    returns (blocks: seq<Written>, ghost parts: seq<seq<Option<int>>>)
    requires forall i :: 0 <= i < |values| ==> IsInt64(values[i])
    ensures SectionOk(Fixed(8), crc, blocks) && RowsOf(blocks) == |values|
    ensures Holds(HoldsInt64, blocks, parts) && Flat(parts) == CellsOf(bm, values)
  {
    ghost var cells := CellsOf(bm, values);
    blocks, parts := [], [];
    var start := 0;
    while start < |values|
      invariant Under(Fixed(8), crc, HoldsInt64, blocks, parts, cells, start)
    {
      var end := if start + BLOCK_ROWS > |values| then |values| else start + BLOCK_ROWS;
      var sub := SubBitmap(bm, start, end - start);
      var vals := values[start..end];
      Int64Block(sub, vals, crc);
      CellsOfPart(bm, values, start, end, sub);
      var b := Written(AppendChecksum(Int64Bytes(sub, vals), crc), end - start);
      NextBlock(Fixed(8), crc, HoldsInt64, blocks, parts, cells, start, end, b);
      blocks, parts, start := blocks + [b], parts + [cells[start..end]], end;
    }
    assert cells[..start] == cells;
  }

  /** The reading side: each block's rows, one block after the other. */
  method DecodeInt64Blocks(outs: seq<Outcome>, ghost blocks: seq<Written>, ghost parts: seq<seq<Option<int>>>)
    returns (cells: seq<Option<int>>)
    requires |outs| == |blocks| && ReadBack(Fixed(8), blocks, outs) && Holds(HoldsInt64, blocks, parts)
    ensures cells == Flat(parts)
  {
    cells := [];
    for k := 0 to |outs|
      invariant cells == Flat(parts[..k])
    {
      assert HoldsInt64(blocks[k], parts[k]) && parts[..k + 1][..k] == parts[..k];
      var part := Int64Cells(outs[k]);
      cells := cells + part.value;
    }
    assert parts[..|parts|] == parts;
  }

  /** A written section read back from its file. */
  method ReadColumn(kind: Kind, crc: Checksum, prefix: Bytes, blocks: seq<Written>, suffix: Bytes, rows: nat,
                    maxPrefetch: nat)
    returns (outs: seq<Outcome>)
    requires SectionOk(kind, crc, blocks) && RowsOf(blocks) == rows
    ensures |outs| == |blocks| && ReadBack(kind, blocks, outs)
  {
    SectionReadable(kind, crc, prefix, blocks, suffix);
    var data := Flat(Raws(blocks));
    outs := ReadSection(kind, crc, prefix + data + suffix, |prefix|, |prefix| + |data|, rows, maxPrefetch,
                        SectionOf(prefix, blocks, suffix), blocks);
  }

  /** Every row of an INT64 column, value or NULL, is what was written: for any row count,
      any surrounding bytes and any prefetch cap. */
  method Int64RoundTrip(bm: seq<Byte>, values: seq<int>, crc: Checksum, prefix: Bytes, suffix: Bytes, maxPrefetch: nat)
    returns (cells: seq<Option<int>>)
    requires forall i :: 0 <= i < |values| ==> IsInt64(values[i])
    ensures cells == CellsOf(bm, values)
  {
    var blocks, parts := WriteInt64Blocks(bm, values, crc);
    var outs := ReadColumn(Fixed(8), crc, prefix, blocks, suffix, |values|, maxPrefetch);
    cells := DecodeInt64Blocks(outs, blocks, parts);
  }

  // ---- BOOL ------------------------------------------------------------------------------------

  ghost predicate EncodedAs(b: Written, flags: seq<Flag>, runs: seq<Run>, crc: Checksum) {
    RunsOk(runs) && Expand(runs) == flags && |flags| < TWO32 && b.raw == AppendChecksum(RunBytes(runs), crc)
  }

  ghost function HoldsBool(crc: Checksum): (Written, seq<Flag>) -> bool {
    (b, flags) => exists runs :: EncodedAs(b, flags, runs, crc)
  }

  lemma {:induction false} RunsLength(runs: seq<Run>)
    ensures |Puts(PutRun, runs)| == 5 * |runs|
  {
    if runs != [] {
      RunsLength(runs[1..]);
    }
  }

  /** An encoded block says its own size, and has at most a run for each row. */
  lemma {:induction false} BoolBlock(flags: seq<Flag>, runs: seq<Run>, crc: Checksum)
    requires 0 < |flags| <= BLOCK_ROWS && RunsOk(runs) && Expand(runs) == flags && |runs| <= |flags|
    ensures BlockOk(Runs, crc, Written(AppendChecksum(RunBytes(runs), crc), |flags|))
  {
    var raw := AppendChecksum(RunBytes(runs), crc);
    RunsLength(runs);
    Uint32Fits(|runs|);
    FromLEPut(|runs|, WORD, Puts(PutRun, runs) + LE(crc(RunBytes(runs)), WORD));
    assert raw == LE(|runs|, WORD) + (Puts(PutRun, runs) + LE(crc(RunBytes(runs)), WORD));
  }

  /** writeBoolBlocks: one run-length block for each 1024 rows. */
  method WriteBoolBlocks(flags: seq<Flag>, crc: Checksum) returns (blocks: seq<Written>, ghost parts: seq<seq<Flag>>)
    ensures SectionOk(Runs, crc, blocks) && RowsOf(blocks) == |flags|
    ensures Holds(HoldsBool(crc), blocks, parts) && Flat(parts) == flags
  {
    blocks, parts := [], [];
    var start := 0;
    while start < |flags|
      invariant Under(Runs, crc, HoldsBool(crc), blocks, parts, flags, start)
    {
      var end := if start + BLOCK_ROWS > |flags| then |flags| else start + BLOCK_ROWS;
      var part := flags[start..end];
      var raw, runs := EncodeRLEBool(part, crc);
      var b := Written(raw, end - start);
      BoolBlock(part, runs, crc);
      assert EncodedAs(b, part, runs, crc);
      NextBlock(Runs, crc, HoldsBool(crc), blocks, parts, flags, start, end, b);
      blocks, parts, start := blocks + [b], parts + [part], end;
    }
    assert flags[..start] == flags;
  }

  method DecodeBoolBlocks(outs: seq<Outcome>, crc: Checksum, ghost blocks: seq<Written>, ghost parts: seq<seq<Flag>>)
    returns (flags: seq<Flag>)
    requires |outs| == |blocks| && ReadBack(Runs, blocks, outs) && Holds(HoldsBool(crc), blocks, parts)
    ensures flags == Flat(parts)
  {
    flags := [];
    for k := 0 to |outs|
      invariant flags == Flat(parts[..k])
    {
      assert HoldsBool(crc)(blocks[k], parts[k]) && parts[..k + 1][..k] == parts[..k];
      ghost var runs :| EncodedAs(blocks[k], parts[k], runs, crc);
      var part := DecodeRLEBool(outs[k].payload, crc);
      assert RunsOk(runs) && |Expand(runs)| < TWO32 && outs[k].payload == AppendChecksum(RunBytes(runs), crc);
      flags := flags + part.value;
    }
    assert parts[..|parts|] == parts;
  }

  /** The same for a BOOL column. */
  method BoolRoundTrip(flags: seq<Flag>, crc: Checksum, prefix: Bytes, suffix: Bytes, maxPrefetch: nat)
    returns (back: seq<Flag>)
    ensures back == flags
  {
    var blocks, parts := WriteBoolBlocks(flags, crc);
    var outs := ReadColumn(Runs, crc, prefix, blocks, suffix, |flags|, maxPrefetch);
    back := DecodeBoolBlocks(outs, crc, blocks, parts);
  }
}
