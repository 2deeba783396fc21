/** The streaming probe of a hash join (exec/join.go): a state machine over a match
    buffer and the current probe batch, emitting at most one block of rows a call. */
module HashJoins {
  import opened Options
  import opened Batches
  import opened RowStores
  import opened JoinTables
  import opened SharedTables
  import opened SharedBuilds
  import opened Arith
  import opened Seqs
  import ParallelBuild
  import Scans

  // ---- Specification ---------------------------------------------------------------

  /** What one probe row contributes: its key's build rows in chain order. */
  ghost function JoinRow(b: Build, hash: int -> Hash, row: seq<Cell>, pk: nat): seq<seq<Cell>> {
    var k := KeyAt(row, pk);
    if k.None? || !b.Valid() then [] else Beside(b.Matches(hash, k.value), row)
  }

  ghost function JoinRows(b: Build, hash: int -> Hash, rows: seq<seq<Cell>>, pk: nat): seq<seq<Cell>> {
    if rows == [] then []
    else JoinRows(b, hash, rows[..|rows| - 1], pk) + JoinRow(b, hash, rows[|rows| - 1], pk)
  }

  lemma {:induction false} JoinRowsConcat(b: Build, hash: int -> Hash, xs: seq<seq<Cell>>, ys: seq<seq<Cell>>, pk: nat)
    ensures JoinRows(b, hash, xs + ys, pk) == JoinRows(b, hash, xs, pk) + JoinRows(b, hash, ys, pk)
  {
    if ys == [] {
      assert xs + ys == xs;
    } else {
      var init, last := ys[..|ys| - 1], ys[|ys| - 1];
      assert (xs + ys)[..|xs + ys| - 1] == xs + init && (xs + ys)[|xs + ys| - 1] == last;
      JoinRowsConcat(b, hash, xs, init, pk);
      ConcatAssoc(JoinRows(b, hash, xs, pk), JoinRows(b, hash, init, pk), JoinRow(b, hash, last, pk));
    }
  }

  /** The reference: for each probe row in order, every build row in order whose key
      is not NULL and equal. */
  function Partners(build: seq<seq<Cell>>, bk: nat, k: int): seq<seq<Cell>> {
    if build == [] then []
    else
      var last := build[|build| - 1];
      Partners(build[..|build| - 1], bk, k) + if KeyAt(last, bk) == Some(k) then [last] else []
  }

  function NestedLoop(build: seq<seq<Cell>>, bk: nat, probe: seq<seq<Cell>>, pk: nat): seq<seq<Cell>> {
    if probe == [] then []
    else
      var last := probe[|probe| - 1];
      var k := KeyAt(last, pk);
      NestedLoop(build, bk, probe[..|probe| - 1], pk) +
      if k.None? then [] else Beside(Partners(build, bk, k.value), last)
  }

  lemma {:induction false} PartnersAreByKey(build: seq<seq<Cell>>, bk: nat, k: int)
    ensures Partners(build, bk, k) == ByKey(Drain(build, bk), k)
  {
    if build != [] {
      var init, last := build[..|build| - 1], build[|build| - 1];
      PartnersAreByKey(init, bk, k);
      var key := KeyAt(last, bk);
      if key.Some? {
        ByKeyConcat(Drain(init, bk), [(key.value, last)], k);
      } else {
        assert Drain(build, bk) == Drain(init, bk);
      }
    }
  }

  /** A build side that gives each key its drained rows joins like nested loops. */
  lemma {:induction false} JoinIsNestedLoop(b: Build, hash: int -> Hash, build: seq<seq<Cell>>, bk: nat,
                                            probe: seq<seq<Cell>>, pk: nat)
    requires b.Valid() && forall k :: b.Matches(hash, k) == ByKey(Drain(build, bk), k)
    ensures JoinRows(b, hash, probe, pk) == NestedLoop(build, bk, probe, pk)
  {
    if probe != [] {
      var last := probe[|probe| - 1];
      JoinIsNestedLoop(b, hash, build, bk, probe[..|probe| - 1], pk);
      if KeyAt(last, pk).Some? {
        PartnersAreByKey(build, bk, KeyAt(last, pk).value);
      }
    }
  }

  // ---- What the nested loops yield, by cells ---------------------------------------------

  /** Whether two key cells join: NULL with nothing, numbers when equal. Text has no int64
      image and stands for zero. */
  predicate Meets(x: Cell, y: Cell) {
    match x
    case Null => false
    case Num(a) => y == Num(a) || (y.Text? && a == 0)
    case Text(_) => y == Num(0) || y.Text?
  }

  /** An output of build rows of w cells beside probe rows of v cells: each pair whose key
      cells meet occurs as often as its two rows do, and nothing else occurs. */
  ghost predicate EquiJoin(out: seq<seq<Cell>>, build: seq<seq<Cell>>, bk: nat, w: nat,
                           probe: seq<seq<Cell>>, pk: nat, v: nat)
    requires bk < w && pk < v
  {
    && (forall i :: 0 <= i < |out| ==> |out[i]| == w + v)
    && forall b: seq<Cell>, p: seq<Cell> :: |b| == w && |p| == v ==>
         multiset(out)[b + p] == if Meets(b[bk], p[pk]) then multiset(build)[b] * multiset(probe)[p] else 0
  }

  ghost predicate Wide(rows: seq<seq<Cell>>, w: nat) {
    forall i :: 0 <= i < |rows| ==> |rows[i]| == w
  }

  lemma {:induction false} PartnersCount(build: seq<seq<Cell>>, bk: nat, k: int, b: seq<Cell>)
    ensures Count(Partners(build, bk, k), b) == if KeyAt(b, bk) == Some(k) then Count(build, b) else 0
  {
    if build != [] {
      var init, last := build[..|build| - 1], build[|build| - 1];
      PartnersCount(init, bk, k, b);
      CountConcat(Partners(init, bk, k), if KeyAt(last, bk) == Some(k) then [last] else [], b);
      CountOne(last, b);
    }
  }

  lemma {:induction false} CountOne<T>(x: T, y: T)
    ensures Count([x], y) == if x == y then 1 else 0
  {
    assert [x][..0] == [];
  }

  lemma {:induction false} PartnersWide(build: seq<seq<Cell>>, bk: nat, k: int, w: nat)
    requires Wide(build, w)
    ensures Wide(Partners(build, bk, k), w)
  {
    if build != [] {
      PartnersWide(build[..|build| - 1], bk, k, w);
    }
  }

  /** Rows of one width beside a row contain a pair as often as its left part. */
  lemma {:induction false} BesideCount(ms: seq<seq<Cell>>, q: seq<Cell>, b: seq<Cell>, p: seq<Cell>)
    requires Wide(ms, |b|) && |q| == |p|
    ensures Count(Beside(ms, q), b + p) == if q == p then Count(ms, b) else 0
  {
    if ms != [] {
      var init, last := ms[..|ms| - 1], ms[|ms| - 1];
      BesideCount(init, q, b, p);
      assert Beside(ms, q)[..|ms| - 1] == Beside(init, q);
      assert (last + q)[..|b|] == last && (last + q)[|b|..] == q;
      assert (b + p)[..|b|] == b && (b + p)[|b|..] == p;
    }
  }

  lemma {:induction false} KeysMeet(b: seq<Cell>, bk: nat, p: seq<Cell>, pk: nat)
    requires bk < |b| && pk < |p|
    ensures Meets(b[bk], p[pk]) <==> KeyAt(p, pk).Some? && KeyAt(b, bk) == KeyAt(p, pk)
  {
  }

  /** What one probe row contributes to a pair. */
  lemma {:induction false} RowPairCount(build: seq<seq<Cell>>, bk: nat, q: seq<Cell>, pk: nat, b: seq<Cell>,
                                        p: seq<Cell>)
    requires bk < |b| && pk < |p| && Wide(build, |b|) && |q| == |p|
    ensures var k := KeyAt(q, pk);
      Count(if k.None? then [] else Beside(Partners(build, bk, k.value), q), b + p) ==
      if Meets(b[bk], p[pk]) && q == p then Count(build, b) else 0
  {
    var k := KeyAt(q, pk);
    KeysMeet(b, bk, p, pk);
    if k.Some? {
      PartnersWide(build, bk, k.value, |b|);
      BesideCount(Partners(build, bk, k.value), q, b, p);
      PartnersCount(build, bk, k.value, b);
    }
  }

  lemma {:induction false} Times(x: nat, n: nat)
    ensures x * (n + 1) == x * n + x
  {
  }

  lemma {:induction false} PairCount(build: seq<seq<Cell>>, bk: nat, probe: seq<seq<Cell>>, pk: nat,
                                     b: seq<Cell>, p: seq<Cell>, c: nat)
    requires bk < |b| && pk < |p| && Wide(build, |b|) && Wide(probe, |p|)
    requires c == if Meets(b[bk], p[pk]) then Count(build, b) else 0
    ensures Count(NestedLoop(build, bk, probe, pk), b + p) == c * Count(probe, p)
  {
    if probe != [] {
      var init, q := probe[..|probe| - 1], probe[|probe| - 1];
      PairCount(build, bk, init, pk, b, p, c);
      var k := KeyAt(q, pk);
      var more := if k.None? then [] else Beside(Partners(build, bk, k.value), q);
      CountConcat(NestedLoop(build, bk, init, pk), more, b + p);
      RowPairCount(build, bk, q, pk, b, p);
      Times(c, Count(init, p));
    }
  }

  lemma {:induction false} NestedLoopWide(build: seq<seq<Cell>>, bk: nat, w: nat, probe: seq<seq<Cell>>, pk: nat,
                                          v: nat)
    requires Wide(build, w) && Wide(probe, v)
    ensures Wide(NestedLoop(build, bk, probe, pk), w + v)
  {
    if probe != [] {
      var last := probe[|probe| - 1];
      NestedLoopWide(build, bk, w, probe[..|probe| - 1], pk, v);
      if KeyAt(last, pk).Some? {
        PartnersWide(build, bk, KeyAt(last, pk).value, w);
      }
    }
  }

  lemma {:induction false} NestedLoopIsEquiJoin(build: seq<seq<Cell>>, bk: nat, w: nat, probe: seq<seq<Cell>>,
                                                pk: nat, v: nat)
    requires bk < w && pk < v && Wide(build, w) && Wide(probe, v)
    ensures EquiJoin(NestedLoop(build, bk, probe, pk), build, bk, w, probe, pk, v)
  {
    var out := NestedLoop(build, bk, probe, pk);
    NestedLoopWide(build, bk, w, probe, pk, v);
    forall b: seq<Cell>, p: seq<Cell> | |b| == w && |p| == v
      ensures multiset(out)[b + p] == if Meets(b[bk], p[pk]) then multiset(build)[b] * multiset(probe)[p] else 0
    {
      PairCount(build, bk, probe, pk, b, p, if Meets(b[bk], p[pk]) then Count(build, b) else 0);
      CountIsMultiplicity(out, b + p);
      CountIsMultiplicity(build, b);
      CountIsMultiplicity(probe, p);
    }
  }

  lemma {:induction false} StreamWide(batches: seq<Batch>, width: nat)
    requires StreamOf(batches, width)
    ensures Wide(AllRows(batches), width)
  {
    if batches != [] {
      assert batches[0].Valid(width);
      StreamWide(batches[1..], width);
    }
  }

  // ---- The operator ----------------------------------------------------------------

  /** A pending output row: a store row index and a row index of the probe batch. */
  datatype Match = Match(build: nat, probe: nat)

  ghost predicate InBounds(ms: seq<Match>, rows: nat, physical: nat) {
    forall i :: 0 <= i < |ms| ==> ms[i].build < rows && ms[i].probe < physical
  }

  /** The rows a match buffer stands for, read through the batch it was built from. */
  ghost function Output(ms: seq<Match>, rows: seq<seq<Cell>>, batch: Batch): (out: seq<seq<Cell>>)
    ensures |out| == |ms|
  {
    seq(|ms|, i requires 0 <= i < |ms| => OutputRow(ms[i], rows, batch))
  }

  ghost function OutputRow(m: Match, rows: seq<seq<Cell>>, batch: Batch): seq<Cell> {
    if m.build < |rows| then rows[m.build] + batch.RowAt(m.probe) else []
  }

  lemma {:induction false} OutputConcat(xs: seq<Match>, ys: seq<Match>, rows: seq<seq<Cell>>, batch: Batch)
    ensures Output(xs + ys, rows, batch) == Output(xs, rows, batch) + Output(ys, rows, batch)
  {
  }

  /** The matches of one probe row along a chain. */
  function RowMatches(chain: seq<int>, probe: nat): seq<Match>
    requires forall j :: 0 <= j < |chain| ==> 0 <= chain[j]
  {
    seq(|chain|, j requires 0 <= j < |chain| => Match(chain[j], probe))
  }

  lemma {:induction false} RowMatchesOutput(chain: seq<int>, probe: nat, rows: seq<seq<Cell>>, batch: Batch)
    requires forall j :: 0 <= j < |chain| ==> 0 <= chain[j] < |rows|
    ensures probe < batch.physical ==> InBounds(RowMatches(chain, probe), |rows|, batch.physical)
    ensures Output(RowMatches(chain, probe), rows, batch) == Beside(Gather(rows, chain), batch.RowAt(probe))
  {
  }

  /** A chunk of output cut column by column holds the rows of its matches. */
  lemma {:induction false} ColumnsAreRows(out: Batch, ms: seq<Match>, rows: seq<seq<Cell>>, bw: nat, batch: Batch,
                                          pw: nat)
    requires batch.Valid(pw) && InBounds(ms, |rows|, batch.physical)
    requires forall r :: 0 <= r < |rows| ==> |rows[r]| == bw
    requires out.sel.None? && out.length == out.physical == |ms| && |out.vectors| == bw + pw
    requires forall c :: 0 <= c < bw + pw ==> |out.vectors[c]| == |ms|
    requires forall c, i :: 0 <= c < bw && 0 <= i < |ms| ==> out.vectors[c][i] == rows[ms[i].build][c]
    requires forall c, i :: bw <= c < bw + pw && 0 <= i < |ms| ==>
      out.vectors[c][i] == batch.vectors[c - bw][ms[i].probe]
    ensures out.Valid(bw + pw) && Rows(out) == Output(ms, rows, batch)
  {
    forall i | 0 <= i < |ms| ensures Rows(out)[i] == Output(ms, rows, batch)[i] {
      var got, want := Rows(out)[i], rows[ms[i].build] + batch.RowAt(ms[i].probe);
      forall c | 0 <= c < bw + pw ensures got[c] == want[c] {
      }
      assert got == want;
    }
  }

  // ---- The probe ----------------------------------------------------------------------

  /** Joining one more row appends its own contribution. */
  lemma {:induction false} JoinRowsSnoc(b: Build, hash: int -> Hash, rows: seq<seq<Cell>>, i: nat, pk: nat)
    requires i < |rows|
    ensures JoinRows(b, hash, rows[..i + 1], pk) == JoinRows(b, hash, rows[..i], pk) + JoinRow(b, hash, rows[i], pk)
  {
    assert rows[..i + 1][..i] == rows[..i];
  }

  ghost predicate Readable(ms: seq<Match>, batch: Option<Batch>, rows: nat, width: nat) {
    match batch
    case None => ms == []
    case Some(b) => b.Valid(width) && InBounds(ms, rows, b.physical)
  }

  /** The output still owed: buffered matches, read through the batch they were made
      from, then everything the unread probe batches join to. */
  ghost function PendingOf(view: Build, hash: int -> Hash, pk: nat, ms: seq<Match>, batch: Option<Batch>,
                           rest: seq<Batch>): seq<seq<Cell>> {
    (if batch.None? then [] else Output(ms, view.rows, batch.value)) + JoinRows(view, hash, AllRows(rest), pk)
  }

  lemma {:induction false} EmitStep(view: Build, hash: int -> Hash, pk: nat, ms: seq<Match>, ms': seq<Match>,
                                    batch: Batch, rest: seq<Batch>)
    ensures PendingOf(view, hash, pk, ms + ms', Some(batch), rest) ==
      Output(ms, view.rows, batch) + PendingOf(view, hash, pk, ms', Some(batch), rest)
  {
    OutputConcat(ms, ms', view.rows, batch);
  }

  lemma {:induction false} FetchStep(view: Build, hash: int -> Hash, pk: nat, spent: Option<Batch>, ms: seq<Match>,
                                     batch: Batch, rest: seq<Batch>)
    requires Output(ms, view.rows, batch) == JoinRows(view, hash, Rows(batch), pk)
    ensures PendingOf(view, hash, pk, [], spent, [batch] + rest) == PendingOf(view, hash, pk, ms, Some(batch), rest)
  {
    var bs := [batch] + rest;
    assert bs[1..] == rest;
    JoinRowsConcat(view, hash, Rows(batch), AllRows(rest), pk);
  }

  class HashJoin {
    const hash: int -> Hash
    const store: RowStore
    const parts: seq<JoinHashTable>
    const probeKey: nat
    const probeWidth: nat
    ghost const view: Build       // the build side, fixed for the whole probe phase
    var probe: seq<Batch>         // what the probe child yields from its current position
    var fetched: nat
    var probeBatch: Option<Batch>
    var probePos: nat
    var matchBuf: seq<Match>
    var matchPos: nat

    /** The shared, read-only build side. */
    ghost predicate Built()
      reads store, store.values, store.nulls, store.strs, store.next, parts, set t | t in parts :: t.slots
    {
      var agreed := Tables(store, parts, hash) && view.Valid() && view == View(store, parts);
      agreed
    }

    ghost predicate Valid()
      reads this
    {
      && probeKey < probeWidth && fetched <= |probe| && matchPos <= |matchBuf|
      && StreamOf(probe, probeWidth) && Readable(matchBuf, probeBatch, |view.rows|, probeWidth)
      && (probeBatch.Some? ==> probePos == probeBatch.value.length)
    }

    /** The output rows still to come. */
    ghost function Pending(): seq<seq<Cell>>
      reads this
    {
      if matchPos > |matchBuf| || fetched > |probe| then []
      else PendingOf(view, hash, probeKey, matchBuf[matchPos..], probeBatch, probe[fetched..])
    }

    constructor (hash: int -> Hash, store: RowStore, parts: seq<JoinHashTable>, probe: seq<Batch>, probeKey: nat,
                 probeWidth: nat)
      requires Tables(store, parts, hash) && probeKey < probeWidth
      requires StreamOf(probe, probeWidth)
      ensures Built() && Valid() && fetched == 0
      ensures this.hash == hash && this.store == store && this.parts == parts
      ensures this.probe == probe && this.probeKey == probeKey && this.probeWidth == probeWidth
      ensures Pending() == JoinRows(View(store, parts), hash, AllRows(probe), probeKey)
    {
      this.hash, this.store, this.parts := hash, store, parts;
      this.probe, this.probeKey, this.probeWidth := probe, probeKey, probeWidth;
      view := View(store, parts);
      fetched, probeBatch, probePos, matchBuf, matchPos := 0, None, 0, [], 0;
      new;
      ViewValid(store, parts, hash);
      assert probe[0..] == probe;
    }

    /** The matches of one probe row: its key's chain in the key's own partition. */
    method ProbeRow(batch: Batch, r: nat) returns (ms: seq<Match>)
      requires Built() && batch.Valid(probeWidth) && probeKey < probeWidth && r < batch.physical
      ensures InBounds(ms, |view.rows|, batch.physical)
      ensures Output(ms, view.rows, batch) == JoinRow(view, hash, batch.RowAt(r), probeKey)
    {
      var k := KeyOf(batch.vectors[probeKey][r]);
      assert batch.RowAt(r)[probeKey] == batch.vectors[probeKey][r];
      if k.None? {
        return [];
      }
      var h := hash(k.value);
      var t := parts[Part(h, |parts|)];
      assert view.tables[Part(h, |parts|)] == t.chains;
      assert InRange(t.chains, |view.rows|);
      var chain := t.Walk(k.value, h);
      ms := RowMatches(chain, r);
      RowMatchesOutput(chain, r, view.rows, batch);
    }

    /** Probes a whole batch, row by row in selection order. */
    method ProbeBatch(batch: Batch) returns (buf: seq<Match>)
      requires Built() && batch.Valid(probeWidth) && probeKey < probeWidth
      ensures InBounds(buf, |view.rows|, batch.physical)
      ensures Output(buf, view.rows, batch) == JoinRows(view, hash, Rows(batch), probeKey)
    {
      buf := [];
      ghost var rows := Rows(batch);
      for i := 0 to batch.RowCount()
        invariant InBounds(buf, |view.rows|, batch.physical)
        invariant Output(buf, view.rows, batch) == JoinRows(view, hash, rows[..i], probeKey)
      {
        var r := batch.RowIndex(i);
        var ms := ProbeRow(batch, r);
        assert rows[i] == batch.RowAt(r);
        JoinRowsSnoc(view, hash, rows, i, probeKey);
        OutputConcat(buf, ms, view.rows, batch);
        buf := buf + ms;
      }
      assert rows[..|rows|] == rows;
    }

    lemma {:induction false} ViewCell(r: nat, c: nat)
      requires Built() && r < |view.rows| && c < store.numCols
      ensures |view.rows[r]| == store.numCols && r < store.n && view.rows[r][c] == store.CellAt(r, c)
    {
      store.CellOfRow(r, c);
    }

    method BuildColumn(ms: seq<Match>, c: nat) returns (col: seq<Cell>)
      requires Built() && c < store.numCols && forall i :: 0 <= i < |ms| ==> ms[i].build < |view.rows|
      ensures |col| == |ms| && forall i :: 0 <= i < |ms| ==> col[i] == view.rows[ms[i].build][c]
    {
      col := [];
      for i := 0 to |ms|
        invariant |col| == i && forall j :: 0 <= j < i ==> col[j] == view.rows[ms[j].build][c]
      {
        ViewCell(ms[i].build, c);
        col := col + [store.CellAt(ms[i].build, c)];
      }
    }

    method ProbeColumn(ms: seq<Match>, c: nat, batch: Batch) returns (col: seq<Cell>)
      requires batch.Valid(probeWidth) && c < probeWidth && forall i :: 0 <= i < |ms| ==> ms[i].probe < batch.physical
      ensures |col| == |ms| && forall i :: 0 <= i < |ms| ==> col[i] == batch.vectors[c][ms[i].probe]
    {
      col := [];
      for i := 0 to |ms|
        invariant |col| == i && forall j :: 0 <= j < i ==> col[j] == batch.vectors[c][ms[j].probe]
      {
        col := col + [batch.vectors[c][ms[i].probe]];
      }
    }

    method Columns(ms: seq<Match>, batch: Batch) returns (vectors: seq<seq<Cell>>)
      requires Built() && batch.Valid(probeWidth) && InBounds(ms, |view.rows|, batch.physical)
      ensures |vectors| == store.numCols + probeWidth
      ensures forall c :: 0 <= c < |vectors| ==> |vectors[c]| == |ms|
      ensures forall c, i :: 0 <= c < store.numCols && 0 <= i < |ms| ==> vectors[c][i] == view.rows[ms[i].build][c]
      ensures forall c, i :: store.numCols <= c < |vectors| && 0 <= i < |ms| ==>
        vectors[c][i] == batch.vectors[c - store.numCols][ms[i].probe]
    {
      vectors := [];
      for c := 0 to store.numCols
        invariant |vectors| == c && forall d :: 0 <= d < c ==> |vectors[d]| == |ms|
        invariant forall d, i :: 0 <= d < c && 0 <= i < |ms| ==> vectors[d][i] == view.rows[ms[i].build][d]
      {
        var col := BuildColumn(ms, c);
        vectors := vectors + [col];
      }
      for c := 0 to probeWidth
        invariant |vectors| == store.numCols + c && forall d :: 0 <= d < |vectors| ==> |vectors[d]| == |ms|
        invariant forall d, i :: 0 <= d < store.numCols && 0 <= i < |ms| ==> vectors[d][i] == view.rows[ms[i].build][d]
        invariant forall d, i :: store.numCols <= d < |vectors| && 0 <= i < |ms| ==>
          vectors[d][i] == batch.vectors[d - store.numCols][ms[i].probe]
      {
        var col := ProbeColumn(ms, c, batch);
        vectors := vectors + [col];
      }
    }

    /** Cuts the next block of at most 1024 rows off the match buffer. */
    method EmitMatches() returns (out: Batch)
      requires Built() && Valid() && matchPos < |matchBuf|
      modifies this`matchPos
      ensures Valid() && out.Valid(store.numCols + probeWidth)
      ensures 0 < |Rows(out)| <= 1024
      ensures Rows(out) + Pending() == old(Pending())
    {
      var end := if matchPos + Scans.BLOCK_ROWS > |matchBuf| then |matchBuf| else matchPos + Scans.BLOCK_ROWS;
      var ms := matchBuf[matchPos..end];
      assert matchBuf[matchPos..] == ms + matchBuf[end..];
      var batch := probeBatch.value;
      var vectors := Columns(ms, batch);
      out := Batch(vectors, |ms|, |ms|, None);
      ColumnsAreRows(out, ms, view.rows, store.numCols, batch, probeWidth);
      EmitStep(view, hash, probeKey, ms, matchBuf[end..], batch, probe[fetched..]);
      matchPos := end;
    }

    /** Probes further batches until some match is buffered or the probe side ends. */
    method Refill() returns (more: bool)
      requires Built() && Valid()
      modifies this`fetched, this`probeBatch, this`probePos, this`matchBuf, this`matchPos
      ensures Valid() && Pending() == old(Pending())
      ensures if more then matchPos < |matchBuf| else Pending() == []
    {
      while matchPos == |matchBuf|
        invariant Valid() && Pending() == old(Pending())
        decreases |probe| - fetched
      {
        // A batch is always probed whole, so the one in hand is spent.
        assert probeBatch.None? || probePos >= probeBatch.value.length;
        if fetched == |probe| {
          NothingPending();
          return false;
        }
        Fetch();
      }
      return true;
    }

    /** Each call hands over the next rows of what is pending, at most one block of
        them and never none, and ends exactly when nothing is pending. */
    method Next() returns (out: Option<Batch>)
      requires Built() && Valid()
      modifies this`fetched, this`probeBatch, this`probePos, this`matchBuf, this`matchPos
      ensures Built() && Valid()
      ensures out.None? ==> old(Pending()) == [] && Pending() == []
      ensures out.Some? ==> out.value.Valid(store.numCols + probeWidth)
      ensures out.Some? ==> 0 < |Rows(out.value)| <= 1024
      ensures out.Some? ==> Rows(out.value) + Pending() == old(Pending())
    {
      var more := Refill();
      if !more {
        return None;
      }
      var batch := EmitMatches();
      return Some(batch);
    }

    lemma {:induction false} NothingPending()
      requires Valid() && matchPos == |matchBuf| && fetched == |probe|
      ensures Pending() == []
    {
    }

    /** Probes the next batch: its matches account for what that batch still owes. */
    method ProbeNext() returns (batch: Batch, buf: seq<Match>)
      requires Built() && Valid() && fetched < |probe| && matchPos == |matchBuf|
      ensures batch.Valid(probeWidth) && InBounds(buf, |view.rows|, batch.physical)
      ensures Pending() == PendingOf(view, hash, probeKey, buf, Some(batch), probe[fetched + 1..])
    {
      batch := probe[fetched];
      buf := ProbeBatch(batch);
      ghost var rest := probe[fetched + 1..];
      assert probe[fetched..] == [batch] + rest && matchBuf[matchPos..] == [];
      FetchStep(view, hash, probeKey, probeBatch, buf, batch, rest);
    }

    /** Replaces the spent probe batch. */
    method Install(batch: Batch, buf: seq<Match>)
      requires Valid() && fetched < |probe| && matchPos == |matchBuf|
      requires batch.Valid(probeWidth) && InBounds(buf, |view.rows|, batch.physical)
      modifies this`fetched, this`probeBatch, this`probePos, this`matchBuf, this`matchPos
      ensures Valid() && fetched == old(fetched) + 1
      ensures Pending() == PendingOf(view, hash, probeKey, buf, Some(batch), probe[fetched..])
    {
      fetched, probeBatch, probePos := fetched + 1, Some(batch), batch.length;
      matchBuf, matchPos := buf, 0;
      assert matchBuf[0..] == buf;
    }

    method Fetch()
      requires Built() && Valid() && fetched < |probe| && matchPos == |matchBuf|
      modifies this`fetched, this`probeBatch, this`probePos, this`matchBuf, this`matchPos
      ensures Valid() && fetched == old(fetched) + 1 && Pending() == old(Pending())
    {
      var batch, buf := ProbeNext();
      Install(batch, buf);
    }

    /** Repositions onto another probe stream: nothing of the previous one, neither its
        buffered matches nor its batch, is emitted again. */
    method Reset(probe': seq<Batch>)
      requires probeKey < probeWidth && StreamOf(probe', probeWidth)
      modifies this
      ensures Valid() && Pending() == JoinRows(view, hash, AllRows(probe'), probeKey)
    {
      probeBatch, probePos, matchBuf, matchPos := None, 0, [], 0;
      probe, fetched := probe', 0;
      assert probe[0..] == probe;
    }

    /** Reading to the end: the output is everything pending, for every batch split. */
    method DrainOutput() returns (out: seq<seq<Cell>>)
      requires Built() && Valid()
      modifies this
      ensures out == old(Pending())
    {
      out := [];
      ghost var owed := Pending();
      while true
        invariant Built() && Valid() && owed == Pending() && out + owed == old(Pending())
        decreases |owed|
      {
        var b := Next();
        if b.None? {
          return;
        }
        ConcatAssoc(out, Rows(b.value), Pending());
        out, owed := out + Rows(b.value), Pending();
      }
    }
  }

  /** A join over any finished build side, read to its end, is the nested-loop join, in
      order: all it takes is that each key finds its drained rows. */
  method ProbeBuilt(hash: int -> Hash, built: SharedHashTable, probe: seq<Batch>, probeKey: nat, probeWidth: nat,
                    ghost build: seq<seq<Cell>>, ghost buildKey: nat)
    returns (out: seq<seq<Cell>>)
    requires Tables(built.store, built.parts, hash) && View(built.store, built.parts).Valid()
    requires forall k :: View(built.store, built.parts).Matches(hash, k) == ByKey(Drain(build, buildKey), k)
    requires probeKey < probeWidth && StreamOf(probe, probeWidth)
    ensures out == NestedLoop(build, buildKey, AllRows(probe), probeKey)
    ensures forall w :: buildKey < w && Wide(build, w) ==>
      EquiJoin(out, build, buildKey, w, AllRows(probe), probeKey, probeWidth)
  {
    StreamWide(probe, probeWidth);
    forall w | buildKey < w && Wide(build, w)
      ensures EquiJoin(NestedLoop(build, buildKey, AllRows(probe), probeKey), build, buildKey, w,
                       AllRows(probe), probeKey, probeWidth)
    {
      NestedLoopIsEquiJoin(build, buildKey, w, AllRows(probe), probeKey, probeWidth);
    }
    JoinIsNestedLoop(View(built.store, built.parts), hash, build, buildKey, AllRows(probe), probeKey);
    var j := new HashJoin(hash, built.store, built.parts, probe, probeKey, probeWidth);
    out := j.DrainOutput();
  }

  /** A serially built join, for every partition count, is the nested-loop join, in
      order; it fails only when the build side has more keyed rows than an int32 index
      can address. One partition is the self-building join of buildHashTable. */
  method RunHashJoin(hash: int -> Hash, isStr: seq<bool>, build: seq<Batch>, buildKey: nat, numParts: nat,
                     presize: nat, keysPerPart: nat, probe: seq<Batch>, probeKey: nat, probeWidth: nat)
    returns (out: Option<seq<seq<Cell>>>)
    requires buildKey < |isStr| && numParts > 0 && presize <= MAX_BUILD_ROWS && keysPerPart <= MAX_BUILD_ROWS
    requires StreamOf(build, |isStr|) && AllTyped(AllRows(build), isStr)
    requires probeKey < probeWidth && StreamOf(probe, probeWidth)
    ensures out.None? <==> |Sift(AllRows(build), HasKey(buildKey))| > TWO31 - 1
    ensures out.Some? ==> out.value == NestedLoop(AllRows(build), buildKey, AllRows(probe), probeKey)
    ensures out.Some? ==>
      EquiJoin(out.value, AllRows(build), buildKey, |isStr|, AllRows(probe), probeKey, probeWidth)
  {
    ghost var rows := AllRows(build);
    StreamWide(build, |isStr|);
    DrainMeans(rows, buildKey);
    var built := BuildRadix(hash, isStr, build, buildKey, numParts, presize, keysPerPart);
    if built.None? {
      return None;
    }
    forall k ensures SerialBuild(hash, numParts, Drain(rows, buildKey)).Matches(hash, k) ==
        ByKey(Drain(rows, buildKey), k) {
      SerialMatches(hash, numParts, Drain(rows, buildKey), k);
    }
    var all := ProbeBuilt(hash, built.value, probe, probeKey, probeWidth, rows, buildKey);
    return Some(all);
  }

  /** The morsels' rows have the schema's width, and so do those of the row groups. */
  lemma {:induction false} PipelinesWide(c: ParallelBuild.Config, isStr: seq<bool>, pipelines: seq<seq<Batch>>,
                                         presizes: seq<nat>, m: nat)
    requires c.Valid() && Pipelines(c, isStr, pipelines, presizes) && m <= c.NumMorsels()
    ensures Wide(ParallelBuild.RowsUpTo(c, m), |isStr|)
  {
    if m == 0 {
      assert c.groups[..0] == [];
    } else {
      PipelinesWide(c, isStr, pipelines, presizes, m - 1);
      ParallelBuild.MorselExists(c, m - 1);
      ParallelBuild.RowsUpToStep(c, m - 1);
      assert PipelineOf(c, isStr, pipelines[m - 1], m - 1);
      StreamWide(pipelines[m - 1], |isStr|);
    }
  }

  lemma {:induction false} AssembledMatches(c: ParallelBuild.Config, store: RowStore, parts: seq<JoinHashTable>)
    requires c.Valid() && Assembled(c, ParallelBuild.PlanOf(c), store, parts)
    ensures View(store, parts).Valid()
    ensures forall k :: View(store, parts).Matches(c.hash, k) == ByKey(Drain(Flat(c.groups), c.key), k)
  {
    var view := View(store, parts);
    forall k ensures view.Valid() && view.Matches(c.hash, k) == ByKey(Drain(Flat(c.groups), c.key), k) {
      ParallelBuild.BuiltIsSerial(c, view, k);
    }
  }

  /** The same join over the parallel build's store and tables. */
  method RunParallelJoin(c: ParallelBuild.Config, isStr: seq<bool>, pipelines: seq<seq<Batch>>, presizes: seq<nat>,
                         probe: seq<Batch>, probeKey: nat, probeWidth: nat)
    returns (out: Option<seq<seq<Cell>>>)
    requires c.Valid() && c.key < |isStr| && Pipelines(c, isStr, pipelines, presizes)
    requires probeKey < probeWidth && StreamOf(probe, probeWidth)
    ensures out.None? <==> |Sift(Flat(c.groups), HasKey(c.key))| > TWO31 - 1
    ensures out.Some? ==> out.value == NestedLoop(Flat(c.groups), c.key, AllRows(probe), probeKey)
    ensures out.Some? ==>
      EquiJoin(out.value, Flat(c.groups), c.key, |isStr|, AllRows(probe), probeKey, probeWidth)
  {
    DrainMeans(Flat(c.groups), c.key);
    PipelinesWide(c, isStr, pipelines, presizes, c.NumMorsels());
    ParallelBuild.RowsUpToAll(c);
    var built := BuildParallel(c, isStr, pipelines, presizes);
    if built.None? {
      return None;
    }
    AssembledMatches(c, built.value.store, built.value.parts);
    var all := ProbeBuilt(c.hash, built.value, probe, probeKey, probeWidth, Flat(c.groups), c.key);
    return Some(all);
  }

  /** Probing what any error-free run of the parallel build leaves behind, for every
      schedule and partition count, is the nested-loop join. */
  lemma {:induction false} ParallelBuildJoins(c: ParallelBuild.Config, run: seq<ParallelBuild.Action>,
                                              probe: seq<seq<Cell>>, pk: nat)
    requires c.Valid() && c.workers1 > 0 && c.workers2 > 0
    requires ParallelBuild.Exec(c, run).Some? && ParallelBuild.Exec(c, run).value.Built?
    ensures JoinRows(ParallelBuild.Exec(c, run).value.result, c.hash, probe, pk) ==
      NestedLoop(Flat(c.groups), c.key, probe, pk)
    ensures forall w, v :: c.key < w && pk < v && Wide(Flat(c.groups), w) && Wide(probe, v) ==>
      EquiJoin(
        JoinRows(ParallelBuild.Exec(c, run).value.result, c.hash, probe, pk), Flat(c.groups), c.key, w, probe, pk, v)
  {
    forall w, v | c.key < w && pk < v && Wide(Flat(c.groups), w) && Wide(probe, v)
      ensures EquiJoin(NestedLoop(Flat(c.groups), c.key, probe, pk), Flat(c.groups), c.key, w, probe, pk, v)
    {
      NestedLoopIsEquiJoin(Flat(c.groups), c.key, w, probe, pk, v);
    }
    ParallelBuild.ParallelEqualsSerial(c, run);
    JoinIsNestedLoop(ParallelBuild.Exec(c, run).value.result, c.hash, Flat(c.groups), c.key, probe, pk);
  }
}
