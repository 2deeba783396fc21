/** The file footer (storage/writer.go, storage/reader.go): schema and row-group
    directories, with a checksum, a length and a magic number behind them. */
module Footers {
  import opened Arith
  import opened Options
  import opened RowKeys
  import opened Wire

  const MAGIC: Bytes := [0x56, 0x58, 0x51, 0x31]
  const TRAILER_SIZE: nat := 16
  const COL_META_SIZE: nat := 57

  datatype Field = Field(name: Bytes, dataType: int, encoding: int, nullable: bool)

  datatype Stats = Stats(nullCount: int, sum: int, min: int, max: int, hasMinMax: bool)

  datatype Column = Column(offset: int, length: int, stats: Stats, dictOffset: int, dictLength: int)

  datatype RowGroup = RowGroup(fileOffset: int, numRows: int, columns: seq<Column>)

  datatype Meta = Meta(fields: seq<Field>, groups: seq<RowGroup>)

  // ---- Writing ----------------------------------------------------------------------------

  function Put(v: int, k: nat): Bytes {
    LE(v % Pow256At(k), k)
  }

  function Pow256At(k: nat): (p: nat)
    ensures p > 0
  {
    Pow256Positive(k);
    Pow256(k)
  }

  lemma {:induction false} Pow256Positive(k: nat)
    ensures Pow256(k) > 0
  {
    if k > 0 {
      Pow256Positive(k - 1);
    }
  }

  function PutField(f: Field): Bytes {
    Put(|f.name|, 2) + f.name + [f.dataType, f.encoding, if f.nullable then 1 else 0]
  }

  function PutColumn(c: Column): Bytes {
    Put(c.offset, 8) + Put(c.length, 8) + Put(c.stats.nullCount, 8) + Put(c.stats.sum, 8) + Put(c.stats.min, 8) +
        Put(c.stats.max, 8) +
    [if c.stats.hasMinMax then 1 else 0] + Put(c.dictOffset, WORD) + Put(c.dictLength, WORD)
  }

  function PutGroup(g: RowGroup): Bytes {
    Put(g.fileOffset, 8) + Put(g.numRows, WORD) + Puts(PutColumn, g.columns)
  }

  function Body(m: Meta): Bytes {
    Put(|m.fields|, WORD) + Puts(PutField, m.fields) + Put(|m.groups|, WORD) + Puts(PutGroup, m.groups)
  }

  /** marshalFooter: the body, then checksum, length and magic. */
  function MarshalFooter(m: Meta, crc: Checksum): Bytes {
    Body(m) + (Put(crc(Body(m)), WORD) + Put(|Body(m)|, 8) + MAGIC)
  }

  // ---- Reading -----------------------------------------------------------------------------

  /** flags & 1 != 0. */
  function LowBit(flags: int): bool {
    flags % 2 == 1
  }

  function ParseField(b: Bytes): Option<(Field, Bytes)> {
    var len := Take(b, 2);
    if len.None? || len.value.0 < 0 then None
    else
      var (n, rest) := len.value;
      if |rest| < n + 3 then None
      else Some((Field(rest[..n], rest[n], rest[n + 1], LowBit(rest[n + 2])), rest[n + 3..]))
  }

  function ParseColumn(b: Bytes): Option<(Column, Bytes)> {
    if |b| < COL_META_SIZE then None
    else
      Some((Column(Signed(FromLE(b, 8)), Signed(FromLE(b[8..], 8)),
                   Stats(Signed(FromLE(b[16..], 8)), Signed(FromLE(b[24..], 8)), FromLE(b[32..], 8),
                       FromLE(b[40..], 8), b[48] != 0),
                   FromLE(b[49..], WORD), FromLE(b[53..], WORD)),
            b[57..]))
  }

  function ParseGroup(numCols: nat, b: Bytes): Option<(RowGroup, Bytes)> {
    if |b| < 12 then None
    else
      var cols := Repeat(ParseColumn, numCols, b[12..]);
      if cols.None? then None
      else Some((RowGroup(Signed(FromLE(b, 8)), FromLE(b[8..], WORD), cols.value.0), cols.value.1))
  }

  function GroupParser(numCols: nat): Bytes -> Option<(RowGroup, Bytes)> {
    b => ParseGroup(numCols, b)
  }

  /** parseFooter: the schema, then as many row groups of as many columns. */
  function ParseFooter(body: Bytes): Option<Meta> {
    var numCols := Take(body, WORD);
    if numCols.None? || numCols.value.0 < 0 then None
    else
      var fields := Repeat(ParseField, numCols.value.0, numCols.value.1);
      if fields.None? then None
      else
        var numRGs := Take(fields.value.1, WORD);
        if numRGs.None? || numRGs.value.0 < 0 then None
        else
          var n: nat := numCols.value.0;
          var groups := Repeat(GroupParser(n), numRGs.value.0, numRGs.value.1);
          if groups.None? then None else Some(Meta(fields.value.0, groups.value.0))
  }

  /** readFooter: from the end of a file of `size` bytes backwards. */
  function ReadFooter(file: Bytes, crc: Checksum): Option<Meta> {
    var size := |file|;
    if size < TRAILER_SIZE + |MAGIC| then None
    else
      var trailer := file[size - TRAILER_SIZE..];
      if trailer[12..] != MAGIC then None
      else
        var len := Signed(FromLE(trailer[4..], 8));
        if len < 0 || len > size - TRAILER_SIZE - |MAGIC| then None
        else
          var body := file[size - TRAILER_SIZE - len..size - TRAILER_SIZE];
          if crc(body) != FromLE(trailer, WORD) then None else ParseFooter(body)
  }

  // ---- Round trip ------------------------------------------------------------------------------

  predicate IsByte(n: int) {
    0 <= n < 256
  }

  /** What the fields' widths can hold. */
  predicate FieldFits(f: Field) {
    |f.name| < 0x1_0000 && IsByte(f.dataType) && IsByte(f.encoding)
  }

  predicate ColumnFits(c: Column) {
    && IsInt64(c.offset) && IsInt64(c.length) && IsInt64(c.stats.nullCount) && IsInt64(c.stats.sum)
    && 0 <= c.stats.min < TWO64 && 0 <= c.stats.max < TWO64 && 0 <= c.dictOffset < TWO32 && 0 <= c.dictLength < TWO32
  }

  ghost predicate GroupFits(g: RowGroup, numCols: nat) {
    && IsInt64(g.fileOffset) && 0 <= g.numRows < TWO32 && |g.columns| == numCols
    && forall i :: 0 <= i < |g.columns| ==> ColumnFits(g.columns[i])
  }

  ghost predicate Fits(m: Meta) {
    && |m.fields| < TWO32 && |m.groups| < TWO32 && |Body(m)| < TWO63
    && (forall i :: 0 <= i < |m.fields| ==> FieldFits(m.fields[i]))
    && forall i :: 0 <= i < |m.groups| ==> GroupFits(m.groups[i], |m.fields|)
  }

  /** A field that fits reads back, signed or not. */
  lemma {:induction false} PutReads(v: int, k: nat, rest: Bytes)
    requires k == 2 || k == 4 || k == 8
    ensures |Put(v, k)| == k && (Put(v, k) + rest)[k..] == rest
    ensures k == 2 && 0 <= v < 0x1_0000 ==> FromLE(Put(v, k) + rest, k) == v
    ensures k == 4 && 0 <= v < TWO32 ==> FromLE(Put(v, k) + rest, k) == v
    ensures k == 8 && 0 <= v < TWO64 ==> FromLE(Put(v, k) + rest, k) == v
    ensures k == 8 && IsInt64(v) ==> Signed(FromLE(Put(v, k) + rest, k)) == v
  {
    Pow256Values();
    assert Pow256(1) == 256 && Pow256(2) == 0x1_0000;
    FromLEPut(v % Pow256At(k), k, rest);
    if IsInt64(v) {
      SignedUnsigned(v);
    }
  }

  lemma {:induction false} FieldReads(f: Field, rest: Bytes)
    requires FieldFits(f)
    ensures ParseField(PutField(f) + rest) == Some((f, rest))
  {
    var flags := [f.dataType, f.encoding, if f.nullable then 1 else 0];
    var tail := f.name + flags + rest;
    assert PutField(f) + rest == Put(|f.name|, 2) + tail;
    PutReads(|f.name|, 2, tail);
    var n := |f.name|;
    assert tail[..n] == f.name && tail[n] == f.dataType && tail[n + 1] == f.encoding && tail[n + 2] == flags[2] &&
        tail[n + 3..] == rest;
  }

  lemma {:induction false} Drop(b: Bytes, i: nat, k: nat)
    requires i + k <= |b|
    ensures b[i..][k..] == b[i + k..]
  {
  }

  /** The bytes of a column's metadata as nested prefixes. */
  function ColumnTail(c: Column, rest: Bytes): Bytes {
    Put(c.dictOffset, WORD) + (Put(c.dictLength, WORD) + rest)
  }

  function ColumnStats(c: Column, rest: Bytes): Bytes {
    Put(c.stats.min, 8) + (Put(c.stats.max, 8) + ([if c.stats.hasMinMax then 1 else 0] + ColumnTail(c, rest)))
  }

  function ColumnNested(c: Column, rest: Bytes): Bytes {
    Put(c.offset, 8) + (Put(c.length, 8) + (Put(c.stats.nullCount, 8) + (Put(c.stats.sum, 8) + ColumnStats(c, rest))))
  }

  lemma {:induction false} ColumnNests(c: Column, rest: Bytes)
    ensures PutColumn(c) + rest == ColumnNested(c, rest)
  {
    var head := Put(c.offset, 8) + Put(c.length, 8) + Put(c.stats.nullCount, 8) + Put(c.stats.sum, 8);
    var mid := Put(c.stats.min, 8) + Put(c.stats.max, 8);
    var flag := [if c.stats.hasMinMax then 1 else 0];
    var tail := Put(c.dictOffset, WORD) + Put(c.dictLength, WORD);
    assert ColumnTail(c, rest) == tail + rest;
    assert ColumnStats(c, rest) == mid + (flag + (tail + rest));
    assert ColumnNested(c, rest) == head + (mid + (flag + (tail + rest)));
    assert PutColumn(c) == head + (mid + (flag + tail));
  }

  lemma {:induction false} ColumnReads(c: Column, rest: Bytes)
    requires ColumnFits(c)
    ensures ParseColumn(PutColumn(c) + rest) == Some((c, rest))
  {
    ColumnNests(c, rest);
    var b := ColumnNested(c, rest);
    var t5 := [if c.stats.hasMinMax then 1 else 0] + ColumnTail(c, rest);
    var t4 := Put(c.stats.max, 8) + t5;
    var t3 := ColumnStats(c, rest);
    var t2 := Put(c.stats.sum, 8) + t3;
    var t1 := Put(c.stats.nullCount, 8) + t2;
    var t0 := Put(c.length, 8) + t1;
    PutReads(c.offset, 8, t0);
    PutReads(c.length, 8, t1);
    PutReads(c.stats.nullCount, 8, t2);
    PutReads(c.stats.sum, 8, t3);
    PutReads(c.stats.min, 8, t4);
    PutReads(c.stats.max, 8, t5);
    PutReads(c.dictOffset, WORD, Put(c.dictLength, WORD) + rest);
    PutReads(c.dictLength, WORD, rest);
    assert t5[1..] == ColumnTail(c, rest);
    Drop(b, 8, 8);
    Drop(b, 16, 8);
    Drop(b, 24, 8);
    Drop(b, 32, 8);
    Drop(b, 40, 8);
    Drop(b, 48, 1);
    Drop(b, 49, 4);
    Drop(b, 53, 4);
    assert b[48] == t5[0];
  }

  lemma {:induction false} GroupReads(g: RowGroup, numCols: nat, rest: Bytes)
    requires GroupFits(g, numCols)
    ensures ParseGroup(numCols, PutGroup(g) + rest) == Some((g, rest))
  {
    var cols := Puts(PutColumn, g.columns) + rest;
    var b := PutGroup(g) + rest;
    assert b == Put(g.fileOffset, 8) + (Put(g.numRows, WORD) + cols);
    PutReads(g.fileOffset, 8, Put(g.numRows, WORD) + cols);
    PutReads(g.numRows, WORD, cols);
    Drop(b, 8, 4);
    forall i, more | 0 <= i < |g.columns|
      ensures ParseColumn(PutColumn(g.columns[i]) + more) == Some((g.columns[i], more))
    {
      ColumnReads(g.columns[i], more);
    }
    RepeatPuts(ParseColumn, PutColumn, g.columns, rest);
  }

  lemma {:induction false} CountReads(n: nat, rest: Bytes)
    requires n < TWO32
    ensures Take(Put(n, WORD) + rest, WORD) == Some((n, rest))
  {
    PutReads(n, WORD, rest);
  }

  lemma {:induction false} FieldsRead(fields: seq<Field>, rest: Bytes)
    requires forall i :: 0 <= i < |fields| ==> FieldFits(fields[i])
    ensures Repeat(ParseField, |fields|, Puts(PutField, fields) + rest) == Some((fields, rest))
  {
    forall i, more | 0 <= i < |fields| ensures ParseField(PutField(fields[i]) + more) == Some((fields[i], more)) {
      FieldReads(fields[i], more);
    }
    RepeatPuts(ParseField, PutField, fields, rest);
  }

  lemma {:induction false} GroupsRead(groups: seq<RowGroup>, n: nat)
    requires forall i :: 0 <= i < |groups| ==> GroupFits(groups[i], n)
    ensures Repeat(GroupParser(n), |groups|, Puts(PutGroup, groups)) == Some((groups, []))
  {
    forall i, more | 0 <= i < |groups| ensures GroupParser(n)(PutGroup(groups[i]) + more) == Some((groups[i], more)) {
      GroupReads(groups[i], n, more);
    }
    RepeatPuts(GroupParser(n), PutGroup, groups, []);
    assert Puts(PutGroup, groups) + [] == Puts(PutGroup, groups);
  }

  /** A body whose four parts read back reads back. */
  lemma {:induction false} PartsRead(body: Bytes, m: Meta, n: nat, fields: Bytes, after: Bytes, k: nat, groups: Bytes)
    requires Take(body, WORD) == Some((n, fields)) && Repeat(ParseField, n, fields) == Some((m.fields, after))
    requires Take(after, WORD) == Some((k, groups)) && Repeat(GroupParser(n), k, groups) == Some((m.groups, []))
    ensures ParseFooter(body) == Some(m)
  {
  }

  /** parseFooter inverts the body marshalFooter writes. */
  lemma {:induction false} BodyReads(m: Meta)
    requires Fits(m)
    ensures ParseFooter(Body(m)) == Some(m)
  {
    var groups := Puts(PutGroup, m.groups);
    var after := Put(|m.groups|, WORD) + groups;
    var fields := Puts(PutField, m.fields) + after;
    assert Body(m) == Put(|m.fields|, WORD) + fields;
    CountReads(|m.fields|, fields);
    FieldsRead(m.fields, after);
    CountReads(|m.groups|, groups);
    GroupsRead(m.groups, |m.fields|);
    PartsRead(Body(m), m, |m.fields|, fields, after, |m.groups|, groups);
  }

  lemma {:induction false} TrailerReads(sum: int, len: int)
    requires 0 <= sum < TWO32 && 0 <= len < TWO63
    ensures var t := Put(sum, WORD) + Put(len, 8) + MAGIC;
      |t| == TRAILER_SIZE && FromLE(t, WORD) == sum && Signed(FromLE(t[4..], 8)) == len && t[12..] == MAGIC
  {
    var t := Put(sum, WORD) + Put(len, 8) + MAGIC;
    PutReads(sum, WORD, Put(len, 8) + MAGIC);
    PutReads(len, 8, MAGIC);
    assert t == Put(sum, WORD) + (Put(len, 8) + MAGIC);
    Drop(t, 4, 8);
  }

  /** The last sixteen bytes: checksum, length and "VXQ1". */
  function Trailer(sum: nat, len: nat): Bytes {
    LE(sum, 4) + LE(len, 8) + [0x56, 0x58, 0x51, 0x31]
  }

  /** What is accepted ends in a body, its checksum, its length and the magic, and the
      metadata is the body's. */
  lemma {:induction false} FooterChecks(file: Bytes, crc: Checksum) returns (data: Bytes, body: Bytes)
    requires Octets(file) && ReadFooter(file, crc).Some?
    ensures file == data + (body + Trailer(crc(body), |body|))
    ensures ReadFooter(file, crc) == ParseFooter(body)
  {
    var at, len := Accepted(file, crc);
    data, body := file[..at - len], file[at - len..at];
    TrailerFields(file[at..], crc(body), |body|);
    CutThrice(file, at - len, at);
  }

  /** Where the trailer starts, and the length it gives. */
  lemma {:induction false} Accepted(file: Bytes, crc: Checksum) returns (at: nat, len: nat)
    requires ReadFooter(file, crc).Some?
    ensures len <= at == |file| - TRAILER_SIZE && len == Signed(FromLE(file[at..][4..], 8))
    ensures file[at..][12..] == MAGIC && FromLE(file[at..], WORD) == crc(file[at - len..at])
    ensures ReadFooter(file, crc) == ParseFooter(file[at - len..at])
  {
    at := |file| - TRAILER_SIZE;
    len := Signed(FromLE(file[at..][4..], 8));
  }

  lemma {:induction false} CutThrice(b: Bytes, i: nat, j: nat)
    requires i <= j <= |b|
    ensures b == b[..i] + (b[i..j] + b[j..])
  {
  }

  lemma {:induction false} TrailerFields(trailer: Bytes, sum: nat, len: nat)
    requires Octets(trailer) && |trailer| == TRAILER_SIZE && trailer[12..] == MAGIC
    requires FromLE(trailer, WORD) == sum && Signed(FromLE(trailer[4..], 8)) == len
    ensures trailer == Trailer(sum, len)
  {
    FieldBytes(trailer, WORD);
    FieldBytes(trailer[4..], 8);
    Pow256Values();
    assert trailer == trailer[..4] + trailer[4..][..8] + trailer[12..];
  }

  /** A file that ends in a marshalled footer, after data at least as long as the leading
      magic, yields that footer's metadata. */
  lemma {:induction false} FooterRoundTrip(m: Meta, crc: Checksum, data: Bytes)
    requires Fits(m) && |data| >= |MAGIC|
    ensures ReadFooter(data + MarshalFooter(m, crc), crc) == Some(m)
  {
    var body := Body(m);
    var trailer := Put(crc(body), WORD) + Put(|body|, 8) + MAGIC;
    var file := data + MarshalFooter(m, crc);
    TrailerReads(crc(body), |body|);
    assert file == data + body + trailer;
    assert file[|file| - TRAILER_SIZE..] == trailer;
    assert file[|file| - TRAILER_SIZE - |body|..|file| - TRAILER_SIZE] == body;
    BodyReads(m);
  }

  /** parseFooter as it runs: two directories read record by record. */
  method ReadBody(body: Bytes) returns (m: Option<Meta>)
    ensures m == ParseFooter(body)
  {
    var numCols := Take(body, WORD);
    if numCols.None? || numCols.value.0 < 0 {
      return None;
    }
    var fields := ReadRecords(ParseField, numCols.value.0, numCols.value.1);
    if fields.None? {
      return None;
    }
    var numRGs := Take(fields.value.1, WORD);
    if numRGs.None? || numRGs.value.0 < 0 {
      return None;
    }
    var n: nat := numCols.value.0;
    var groups := ReadRecords(GroupParser(n), numRGs.value.0, numRGs.value.1);
    if groups.None? {
      return None;
    }
    return Some(Meta(fields.value.0, groups.value.0));
  }
}
