/** Reading a column section through a coarse window (storage/rowgroup.go): blocks are
    served from a buffered range of the file instead of one read each. */
module ColumnWindows {
  import opened Options
  import opened Seqs
  import opened RowKeys
  import opened Scans
  import opened Wire

  const NULL_BITMAP_BYTES: nat := 128

  datatype Kind = Fixed(valueSize: nat) | Runs

  datatype Outcome = Eof | Failed | Got(bitmap: Bytes, payload: Bytes, rows: nat)

  /** What a read leaves behind: its outcome and the reader's new position. */
  datatype Step = Step(outcome: Outcome, pos: nat, rowsDone: nat)

  function BlockSize(kind: Kind, rows: nat): nat
    requires kind.Fixed?
  {
    NULL_BITMAP_BYTES + rows * kind.valueSize + 4
  }

  // ---- Reading the file block by block ------------------------------------------------------

  /** n bytes of the section at off, or nothing when they reach past its data. */
  function ReadDirect(file: Bytes, lo: nat, end: nat, off: nat, n: nat): Option<Bytes>
    requires end <= |file|
  {
    if off < lo || off + n > end then None else Some(file[off..off + n])
  }

  /** A fixed-width block without its checksum, which must match. */
  function Checked(crc: Checksum, buf: Bytes, rows: nat): Outcome
    requires |buf| >= NULL_BITMAP_BYTES + 4 && rows <= BLOCK_ROWS
  {
    match VerifyTrailing(buf, crc)
    case None => Failed
    case Some(body) => Got(body[..(rows + 7) / 8], body[NULL_BITMAP_BYTES..], rows)
  }

  /** A block whose last four bytes are not its checksum is refused, any other returned. */
  lemma {:induction false} CheckedExactly(crc: Checksum, buf: Bytes, rows: nat)
    requires |buf| >= NULL_BITMAP_BYTES + 4 && rows <= BLOCK_ROWS && Octets(buf)
    ensures Checked(crc, buf, rows) ==
      if Sealed(buf, crc) then Got(buf[..(rows + 7) / 8], buf[128..|buf| - 4], rows) else Failed
  {
    VerifyExactly(buf, crc);
  }

  function DirectFixed(kind: Kind, crc: Checksum, file: Bytes, lo: nat, end: nat, pos: nat, rows: nat): (Outcome, nat)
    requires kind.Fixed? && end <= |file| && rows <= BLOCK_ROWS
  {
    var buf := ReadDirect(file, lo, end, pos, BlockSize(kind, rows));
    if buf.None? then (Failed, pos) else (Checked(crc, buf.value, rows), pos + BlockSize(kind, rows))
  }

  /** A run-length block says its own size: a run count, five bytes a run, a checksum. */
  function DirectRuns(file: Bytes, lo: nat, end: nat, pos: nat, rows: nat): (Outcome, nat)
    requires end <= |file|
  {
    var header := ReadDirect(file, lo, end, pos, 4);
    if header.None? then (Failed, pos)
    else
      var runs := FromLE(header.value, WORD);
      if runs < 0 || runs > rows then (Failed, pos)
      else
        var buf := ReadDirect(file, lo, end, pos, 4 + runs * 5 + 4);
        if buf.None? then (Failed, pos) else (Got([], buf.value, rows), pos + 4 + runs * 5 + 4)
  }

  /** The next block, read straight from the file; a block counts as done even when it
      fails, so that every caller reaches the end. */
  function DirectNext(kind: Kind, crc: Checksum, file: Bytes, lo: nat, end: nat, total: nat, pos: nat,
      rowsDone: nat): Step
    requires end <= |file|
  {
    if rowsDone >= total then Step(Eof, pos, rowsDone)
    else
      var rows := if total - rowsDone > BLOCK_ROWS then BLOCK_ROWS else total - rowsDone;
      var r :=
        if kind.Runs? then DirectRuns(file, lo, end, pos, rows)
        else DirectFixed(kind, crc, file, lo, end, pos, rows);
      Step(r.0, r.1, rowsDone + rows)
  }

  // ---- Reading through the window --------------------------------------------------------------

  lemma {:induction false} SliceOfSlice(file: Bytes, start: nat, len: nat, at: nat, n: nat)
    requires start + len <= |file| && at + n <= len
    ensures file[start..start + len][at..at + n] == file[start + at..start + at + n]
  {
    var part := file[start..start + len];
    var a, b := part[at..at + n], file[start + at..start + at + n];
    forall i | 0 <= i < n ensures a[i] == b[i] {
      assert a[i] == part[at + i];
    }
  }

  class ColumnReader {
    const file: Bytes
    const kind: Kind
    const crc: Checksum
    const lo: nat              // where the section starts
    const end: nat             // where its block data ends
    const total: nat
    const maxPrefetch: nat
    var pos: nat
    var rowsDone: nat
    var win: Option<Bytes>     // the buffered range [winStart, winStart + |win|)
    var winStart: nat

    ghost predicate Valid()
      reads this
    {
      && end <= |file|
      && (win.Some? ==> winStart + |win.value| <= |file| && win.value == file[winStart..winStart + |win.value|])
    }

    constructor (file: Bytes, kind: Kind, crc: Checksum, lo: nat, end: nat, total: nat, maxPrefetch: nat)
      requires end <= |file|
      ensures Valid() && this.file == file && this.kind == kind && this.crc == crc
      ensures this.lo == lo && this.end == end && this.total == total
      ensures pos == lo && rowsDone == 0
    {
      this.file, this.kind, this.crc, this.lo, this.end, this.total, this.maxPrefetch := file, kind, crc, lo, end,
          total, maxPrefetch;
      pos, rowsDone, win, winStart := lo, 0, None, 0;
    }

    /** n bytes of the section at off: from the window, or after refilling it from off. */
    method Window(off: nat, n: nat) returns (buf: Option<Bytes>)
      requires Valid()
      modifies this`win, this`winStart
      ensures Valid() && buf == ReadDirect(file, lo, end, off, n)
    {
      if off < lo || off + n > end {
        return None;
      }
      if win.Some? && off >= winStart && off - winStart + n <= |win.value| {
        var at := off - winStart;
        SliceOfSlice(file, winStart, |win.value|, at, n);
        return Some(win.value[at..at + n]);
      }
      var want := end - off;
      want := if want > maxPrefetch then maxPrefetch else want;
      want := if want < n then n else want;
      win, winStart := Some(file[off..off + want]), off;
      assert win.value[..n] == file[off..off + n];
      return Some(win.value[..n]);
    }

    method NextFixedBlock(rows: nat) returns (out: Outcome)
      requires Valid() && kind.Fixed? && rows <= BLOCK_ROWS
      modifies this`win, this`winStart, this`pos
      ensures Valid() && (out, pos) == DirectFixed(kind, crc, file, lo, end, old(pos), rows)
    {
      var buf := Window(pos, BlockSize(kind, rows));
      if buf.None? {
        return Failed;
      }
      pos := pos + BlockSize(kind, rows);
      return Checked(crc, buf.value, rows);
    }

    /** Both reads of a run-length block come out of the same window. */
    method NextRunsBlock(rows: nat) returns (out: Outcome)
      requires Valid()
      modifies this`win, this`winStart, this`pos
      ensures Valid() && (out, pos) == DirectRuns(file, lo, end, old(pos), rows)
    {
      var header := Window(pos, 4);
      if header.None? {
        return Failed;
      }
      var runs := FromLE(header.value, WORD);
      if runs < 0 || runs > rows {
        return Failed;
      }
      var size := 4 + runs * 5 + 4;
      var buf := Window(pos, size);
      if buf.None? {
        return Failed;
      }
      pos := pos + size;
      return Got([], buf.value, rows);
    }

    /** Whatever the prefetch cap, a block read is the block read straight from the file. */
    method NextBlock() returns (out: Outcome)
      requires Valid()
      modifies this
      ensures Valid()
      ensures Step(out, pos, rowsDone) == DirectNext(kind, crc, file, lo, end, total, old(pos), old(rowsDone))
    {
      if rowsDone >= total {
        return Eof;
      }
      var rows := if total - rowsDone > BLOCK_ROWS then BLOCK_ROWS else total - rowsDone;
      rowsDone := rowsDone + rows;
      if kind.Runs? {
        out := NextRunsBlock(rows);
      } else {
        out := NextFixedBlock(rows);
      }
    }

    /** Hands the window back; the next read fills a new one. */
    method Close()
      requires Valid()
      modifies this`win, this`winStart
      ensures Valid() && win.None?
    {
      win, winStart := None, 0;
    }
  }

  // ---- Sections as written ------------------------------------------------------------------------

  /** One written block: what the writer appends for `rows` rows. */
  datatype Written = Written(raw: Bytes, rows: nat)

  /** A block in the format of its column, with its checksum. */
  ghost predicate BlockOk(kind: Kind, crc: Checksum, b: Written) {
    && 0 < b.rows <= BLOCK_ROWS
    && match kind
       case Fixed(_) => |b.raw| == BlockSize(kind, b.rows) && b.raw == AppendChecksum(b.raw[..|b.raw| - 4], crc)
       case Runs => |b.raw| >= 4 && 0 <= FromLE(b.raw, WORD) <= b.rows && |b.raw| == 4 + FromLE(b.raw, WORD) * 5 + 4
  }

  /** What a reader should get for a written block. */
  function Contents(kind: Kind, b: Written): Outcome {
    if kind.Runs? then Got([], b.raw, b.rows)
    else if |b.raw| < NULL_BITMAP_BYTES + 4 || b.rows > BLOCK_ROWS then Failed
    else Got(b.raw[..(b.rows + 7) / 8], b.raw[NULL_BITMAP_BYTES..|b.raw| - 4], b.rows)
  }

  /** All blocks are full but the last. */
  ghost predicate SectionOk(kind: Kind, crc: Checksum, blocks: seq<Written>) {
    && (forall i :: 0 <= i < |blocks| ==> BlockOk(kind, crc, blocks[i]))
    && forall i :: 0 <= i < |blocks| - 1 ==> blocks[i].rows == BLOCK_ROWS
  }

  function Raws(blocks: seq<Written>): seq<Bytes> {
    seq(|blocks|, i requires 0 <= i < |blocks| => blocks[i].raw)
  }

  function RowsOf(blocks: seq<Written>): nat {
    if blocks == [] then 0 else RowsOf(blocks[..|blocks| - 1]) + blocks[|blocks| - 1].rows
  }

  /** Where block k sits in the file. */
  lemma {:induction false} BlockAt(prefix: Bytes, blocks: seq<Written>, suffix: Bytes, k: nat)
    requires k < |blocks|
    ensures var file := prefix + Flat(Raws(blocks)) + suffix;
      var off := |prefix| + |Flat(Raws(blocks[..k]))|;
      && off + |blocks[k].raw| == |prefix| + |Flat(Raws(blocks[..k + 1]))| <= |prefix| + |Flat(Raws(blocks))|
      && file[off..off + |blocks[k].raw|] == blocks[k].raw
  {
    var a, b, c := Raws(blocks[..k]), blocks[k].raw, Raws(blocks[k + 1..]);
    assert Raws(blocks) == a + [b] + c && Raws(blocks[..k + 1]) == a + [b];
    FlatConcat(a + [b], c);
    FlatConcat(a, [b]);
    FlatOne(b);
  }

  lemma {:induction false} RowsBefore(kind: Kind, crc: Checksum, blocks: seq<Written>, k: nat)
    requires SectionOk(kind, crc, blocks) && k < |blocks|
    ensures var done, total := RowsOf(blocks[..k]), RowsOf(blocks);
      && done < total && RowsOf(blocks[..k + 1]) == done + blocks[k].rows
      && blocks[k].rows == if total - done > BLOCK_ROWS then BLOCK_ROWS else total - done
  {
    assert blocks[..k + 1][..k] == blocks[..k];
    RowsAfter(kind, crc, blocks, k);
  }

  /** The rows from block k on: one full block each, and the last one. */
  lemma {:induction false} RowsAfter(kind: Kind, crc: Checksum, blocks: seq<Written>, k: nat)
    requires SectionOk(kind, crc, blocks) && k < |blocks|
    ensures RowsOf(blocks) == RowsOf(blocks[..k]) + blocks[k].rows + RowsFrom(blocks, k + 1)
    ensures k + 1 == |blocks| <==> RowsFrom(blocks, k + 1) == 0
    decreases |blocks| - k
  {
    assert BlockOk(kind, crc, blocks[k]);
    assert blocks[..k + 1][..k] == blocks[..k];
    if k + 1 == |blocks| {
      assert blocks[..k + 1] == blocks;
    } else {
      assert BlockOk(kind, crc, blocks[k + 1]);
      RowsAfter(kind, crc, blocks, k + 1);
    }
  }

  function RowsFrom(blocks: seq<Written>, k: nat): nat
    decreases |blocks| - k
  {
    if k >= |blocks| then 0 else blocks[k].rows + RowsFrom(blocks, k + 1)
  }

  lemma {:induction false} CheckedBlock(crc: Checksum, raw: Bytes, rows: nat)
    requires |raw| >= NULL_BITMAP_BYTES + 4 && rows <= BLOCK_ROWS && raw == AppendChecksum(raw[..|raw| - 4], crc)
    ensures Checked(crc, raw, rows) == Got(raw[..(rows + 7) / 8], raw[NULL_BITMAP_BYTES..|raw| - 4], rows)
  {
    var body := raw[..|raw| - 4];
    VerifyAppended(body, crc);
    assert body[..(rows + 7) / 8] == raw[..(rows + 7) / 8];
    assert body[NULL_BITMAP_BYTES..] == raw[NULL_BITMAP_BYTES..|raw| - 4];
  }

  lemma {:induction false} FixedAt(kind: Kind, crc: Checksum, file: Bytes, lo: nat, end: nat, off: nat, b: Written)
    requires kind.Fixed? && BlockOk(kind, crc, b) && lo <= off
    requires off + |b.raw| <= end <= |file| && file[off..off + |b.raw|] == b.raw
    ensures DirectFixed(kind, crc, file, lo, end, off, b.rows) == (Contents(kind, b), off + |b.raw|)
  {
    CheckedBlock(crc, b.raw, b.rows);
  }

  lemma {:induction false} RunsAt(crc: Checksum, file: Bytes, lo: nat, end: nat, off: nat, b: Written)
    requires BlockOk(Runs, crc, b) && lo <= off && off + |b.raw| <= end <= |file| && file[off..off + |b.raw|] == b.raw
    ensures DirectRuns(file, lo, end, off, b.rows) == (Contents(Runs, b), off + |b.raw|)
  {
    var header := file[off..off + 4];
    assert header == b.raw[..4];
    FromLEPrefix(b.raw, WORD);
  }

  lemma {:induction false} BlockRead(kind: Kind, crc: Checksum, file: Bytes, lo: nat, end: nat, total: nat,
                                     off: nat, done: nat, b: Written)
    requires BlockOk(kind, crc, b) && lo <= off && off + |b.raw| <= end <= |file| && file[off..off + |b.raw|] == b.raw
    requires done < total && b.rows == if total - done > BLOCK_ROWS then BLOCK_ROWS else total - done
    ensures DirectNext(kind, crc, file, lo, end, total, off, done) ==
      Step(Contents(kind, b), off + |b.raw|, done + b.rows)
  {
    if kind.Runs? {
      RunsAt(crc, file, lo, end, off, b);
    } else {
      FixedAt(kind, crc, file, lo, end, off, b);
    }
  }

  /** A section in its file: its range, its row count, and for each block where it starts
      and how many rows come before it. */
  datatype Section = Section(file: Bytes, lo: nat, end: nat, total: nat, places: seq<nat>, dones: seq<nat>)

  ghost function SectionOf(prefix: Bytes, blocks: seq<Written>, suffix: Bytes): (s: Section)
    ensures |s.places| == |s.dones| == |blocks| + 1
  {
    var end := |prefix| + |Flat(Raws(blocks))|;
    Section(prefix + Flat(Raws(blocks)) + suffix, |prefix|, end, RowsOf(blocks),
            seq(|blocks| + 1, k requires 0 <= k <= |blocks| => |prefix| + |Flat(Raws(blocks[..k]))|),
            seq(|blocks| + 1, k requires 0 <= k <= |blocks| => RowsOf(blocks[..k])))
  }

  /** Reading at block k's place yields block k and moves on to the next. */
  ghost predicate ReadsAt(s: Section, kind: Kind, crc: Checksum, blocks: seq<Written>, k: nat)
    requires k < |blocks| < |s.places| && |blocks| < |s.dones|
  {
    var ok := s.end <= |s.file| && s.dones[k] < s.total &&
      DirectNext(kind, crc, s.file, s.lo, s.end, s.total, s.places[k], s.dones[k]) ==
      Step(Contents(kind, blocks[k]), s.places[k + 1], s.dones[k + 1]);
    ok
  }

  ghost predicate Readable(s: Section, kind: Kind, crc: Checksum, blocks: seq<Written>) {
    && |s.places| == |s.dones| == |blocks| + 1 && s.end <= |s.file|
    && s.places[0] == s.lo && s.dones[0] == 0 && s.dones[|blocks|] == s.total
    && forall k :: 0 <= k < |blocks| ==> ReadsAt(s, kind, crc, blocks, k)
  }

  lemma {:induction false} BlockReadAt(s: Section, kind: Kind, crc: Checksum, blocks: seq<Written>, k: nat)
    requires k < |blocks| < |s.places| && |blocks| < |s.dones| && BlockOk(kind, crc, blocks[k])
    requires s.lo <= s.places[k] && s.places[k + 1] == s.places[k] + |blocks[k].raw| <= s.end <= |s.file|
    requires s.file[s.places[k]..s.places[k + 1]] == blocks[k].raw
    requires s.dones[k] < s.total && s.dones[k + 1] == s.dones[k] + blocks[k].rows
    requires blocks[k].rows == if s.total - s.dones[k] > BLOCK_ROWS then BLOCK_ROWS else s.total - s.dones[k]
    ensures ReadsAt(s, kind, crc, blocks, k)
  {
    BlockRead(kind, crc, s.file, s.lo, s.end, s.total, s.places[k], s.dones[k], blocks[k]);
  }

  lemma {:induction false} BytesAt(prefix: Bytes, blocks: seq<Written>, suffix: Bytes, k: nat)
    requires k < |blocks|
    ensures var s := SectionOf(prefix, blocks, suffix);
      && s.lo <= s.places[k] && s.places[k + 1] == s.places[k] + |blocks[k].raw| <= s.end <= |s.file|
      && s.file[s.places[k]..s.places[k + 1]] == blocks[k].raw
  {
    BlockAt(prefix, blocks, suffix, k);
  }

  lemma {:induction false} RowsAt(kind: Kind, crc: Checksum, prefix: Bytes, blocks: seq<Written>, suffix: Bytes, k: nat)
    requires SectionOk(kind, crc, blocks) && k < |blocks|
    ensures var s := SectionOf(prefix, blocks, suffix);
      && s.dones[k] < s.total && s.dones[k + 1] == s.dones[k] + blocks[k].rows
      && blocks[k].rows == if s.total - s.dones[k] > BLOCK_ROWS then BLOCK_ROWS else s.total - s.dones[k]
  {
    RowsBefore(kind, crc, blocks, k);
  }

  lemma {:induction false} ReadsBlock(kind: Kind, crc: Checksum, prefix: Bytes, blocks: seq<Written>, suffix: Bytes,
                                      k: nat)
    requires SectionOk(kind, crc, blocks) && k < |blocks|
    ensures ReadsAt(SectionOf(prefix, blocks, suffix), kind, crc, blocks, k)
  {
    BytesAt(prefix, blocks, suffix, k);
    RowsAt(kind, crc, prefix, blocks, suffix, k);
    BlockReadAt(SectionOf(prefix, blocks, suffix), kind, crc, blocks, k);
  }

  lemma {:induction false} SectionReadable(kind: Kind, crc: Checksum, prefix: Bytes, blocks: seq<Written>,
                                           suffix: Bytes)
    requires SectionOk(kind, crc, blocks)
    ensures Readable(SectionOf(prefix, blocks, suffix), kind, crc, blocks)
  {
    assert Raws(blocks[..0]) == [] && blocks[..|blocks|] == blocks;
    forall k | 0 <= k < |blocks| ensures ReadsAt(SectionOf(prefix, blocks, suffix), kind, crc, blocks, k) {
      ReadsBlock(kind, crc, prefix, blocks, suffix, k);
    }
  }

  ghost predicate ReadBack(kind: Kind, blocks: seq<Written>, outs: seq<Outcome>) {
    |outs| <= |blocks| && forall i :: 0 <= i < |outs| ==> outs[i] == Contents(kind, blocks[i])
  }

  /** A reader after k blocks of a section. */
  ghost predicate Reached(r: ColumnReader, kind: Kind, crc: Checksum, s: Section, k: nat)
    requires k < |s.places| == |s.dones|
    reads r
  {
    var at := r.Valid() && r.kind == kind && r.crc == crc && r.file == s.file && r.lo == s.lo && r.end == s.end &&
      r.total == s.total && r.pos == s.places[k] && r.rowsDone == s.dones[k];
    at
  }

  method ReadOn(r: ColumnReader, ghost kind: Kind, ghost crc: Checksum, ghost s: Section,
                ghost blocks: seq<Written>, ghost k: nat)
    returns (out: Outcome)
    requires k < |blocks| && |s.places| == |s.dones| == |blocks| + 1
    requires ReadsAt(s, kind, crc, blocks, k) && Reached(r, kind, crc, s, k)
    modifies r
    ensures Reached(r, kind, crc, s, k + 1) && out == Contents(kind, blocks[k])
  {
    out := r.NextBlock();
  }

  /** Rows remain exactly while blocks do. */
  lemma {:induction false} MoreBlocks(s: Section, kind: Kind, crc: Checksum, blocks: seq<Written>, k: nat)
    requires Readable(s, kind, crc, blocks) && k <= |blocks|
    ensures s.dones[k] < s.total <==> k < |blocks|
    ensures k < |blocks| ==> ReadsAt(s, kind, crc, blocks, k)
  {
    if k < |blocks| {
      assert ReadsAt(s, kind, crc, blocks, k);
    }
  }

  /** A written section read to its end, whatever the prefetch cap: every block as it was
      written, in order. */
  method ReadSection(kind: Kind, crc: Checksum, file: Bytes, lo: nat, end: nat, total: nat, maxPrefetch: nat,
                     ghost s: Section, ghost blocks: seq<Written>)
    returns (outs: seq<Outcome>)
    requires Readable(s, kind, crc, blocks) && s.file == file && s.lo == lo && s.end == end && s.total == total
    ensures |outs| == |blocks| && ReadBack(kind, blocks, outs)
  {
    var r := new ColumnReader(file, kind, crc, lo, end, total, maxPrefetch);
    outs := [];
    while r.rowsDone < r.total
      invariant fresh(r) && |outs| <= |blocks| && Reached(r, kind, crc, s, |outs|) && ReadBack(kind, blocks, outs)
      decreases |blocks| - |outs|
    {
      MoreBlocks(s, kind, crc, blocks, |outs|);
      var out := ReadOn(r, kind, crc, s, blocks, |outs|);
      outs := outs + [out];
    }
    MoreBlocks(s, kind, crc, blocks, |outs|);
  }
}
