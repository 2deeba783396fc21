/** The lock-free two-pass parallel build (exec/parallel_join.go) as a transition
    system: workers claim morsels and then partitions from an atomic cursor, and
    every interleaving of their steps is a run. */
module ParallelBuild {
  import opened Options
  import opened Batches
  import opened RowStores
  import opened Arith
  import opened JoinTables
  import opened SharedTables
  import opened Seqs

  // ---- Configuration and specification ------------------------------------------

  /** `groups[g]` is what the build pipeline emits for row group g. */
  datatype Config = Config(groups: seq<seq<seq<Cell>>>, key: nat, hash: int -> Hash, numParts: nat,
                           morselSize: nat, workers1: nat, workers2: nat) {
    ghost predicate Valid() {
      numParts > 0 && morselSize > 0
    }

    function NumMorsels(): nat
      requires morselSize > 0
    {
      Chunks(|groups|, morselSize)
    }

    /** Which bucket a morsel claimed at cursor value start is published into. */
    function IndexOf(start: nat): nat
      requires morselSize > 0
    {
      Index(start, morselSize)
    }

    /** The row groups a claim of the cursor at `start` covers end at `Stop(start)`. */
    function Stop(start: nat): nat {
      if start + morselSize > |groups| then |groups| else start + morselSize
    }

    /** What a pipeline over row groups [start, Stop(start)) emits. */
    function MorselRows(start: nat): seq<seq<Cell>>
      requires start <= |groups|
    {
      Flat(groups[start..Stop(start)])
    }
  }

  /** The rows of one partition, in order. */
  function OfPart(c: Config, rows: seq<Keyed>, p: nat): seq<Keyed>
    requires c.numParts > 0
  {
    if rows == [] then []
    else
      var last := rows[|rows| - 1];
      OfPart(c, rows[..|rows| - 1], p) + if Part(c.hash(last.0), c.numParts) == p then [last] else []
  }

  lemma {:induction false} OfPartConcat(c: Config, a: seq<Keyed>, b: seq<Keyed>, p: nat)
    requires c.numParts > 0
    ensures OfPart(c, a + b, p) == OfPart(c, a, p) + OfPart(c, b, p)
  {
    if b == [] {
      assert a + b == a;
    } else {
      assert (a + b)[..|a + b| - 1] == a + b[..|b| - 1];
      OfPartConcat(c, a, b[..|b| - 1], p);
    }
  }

  /** Splitting into partitions loses no row of a key: all sit in its partition. */
  lemma {:induction false} ByKeyOfPart(c: Config, rows: seq<Keyed>, key: int)
    requires c.numParts > 0
    ensures ByKey(OfPart(c, rows, Part(c.hash(key), c.numParts)), key) == ByKey(rows, key)
  {
    if rows != [] {
      var p, init, last := Part(c.hash(key), c.numParts), rows[..|rows| - 1], rows[|rows| - 1];
      ByKeyOfPart(c, init, key);
      if Part(c.hash(last.0), c.numParts) == p {
        assert OfPart(c, rows, p)[..|OfPart(c, rows, p)| - 1] == OfPart(c, init, p);
      } else {
        assert OfPart(c, rows, p) == OfPart(c, init, p);
      }
    }
  }

  /** The table of a run of rows stored contiguously from index off. */
  function ChainsOf(rows: seq<Keyed>, off: int): Chains {
    if rows == [] then map[]
    else Append(ChainsOf(rows[..|rows| - 1], off), rows[|rows| - 1].0, off + |rows| - 1)
  }

  ghost predicate Stored(store: seq<seq<Cell>>, off: int, rows: seq<Keyed>) {
    0 <= off && off + |rows| <= |store| && forall i :: 0 <= i < |rows| ==> store[off + i] == rows[i].1
  }

  /** Every row index of the run is in its own key's chain. */
  ghost predicate Covers(m: Chains, rows: seq<Keyed>, off: int) {
    forall i :: 0 <= i < |rows| ==> rows[i].0 in m && off + i in m[rows[i].0]
  }

  /** A chain holds only row indices of its own key. */
  ghost predicate Within(m: Chains, rows: seq<Keyed>, off: int) {
    forall k, j :: k in m && 0 <= j < |m[k]| ==> off <= m[k][j] < off + |rows| && rows[m[k][j] - off].0 == k
  }

  ghost predicate Ascending(m: Chains) {
    forall k, i, j :: k in m && 0 <= i < j < |m[k]| ==> m[k][i] < m[k][j]
  }

  /** Every row index of the run is in exactly one chain, its own key's, once. */
  lemma {:induction false} ChainsPartition(rows: seq<Keyed>, off: int)
    ensures Covers(ChainsOf(rows, off), rows, off)
    ensures Within(ChainsOf(rows, off), rows, off) && Ascending(ChainsOf(rows, off))
  {
    if rows != [] {
      var n := |rows| - 1;
      ChainsPartition(rows[..n], off);
      CoversStep(ChainsOf(rows[..n], off), rows, off);
      WithinStep(ChainsOf(rows[..n], off), rows, off);
      AscendingStep(ChainsOf(rows[..n], off), rows[..n], off, rows[n].0);
    }
  }

  lemma {:induction false} WithinStep(m: Chains, rows: seq<Keyed>, off: int)
    requires rows != [] && Within(m, rows[..|rows| - 1], off)
    ensures Within(Append(m, rows[|rows| - 1].0, off + |rows| - 1), rows, off)
  {
    var n := |rows| - 1;
    var k0 := rows[n].0;
    var m' := Append(m, k0, off + n);
    forall k, j | k in m' && 0 <= j < |m'[k]|
      ensures off <= m'[k][j] < off + |rows| && rows[m'[k][j] - off].0 == k
    {
      if k in m && j < |m[k]| {
        var x := m[k][j];
        assert m'[k][j] == x && off <= x < off + n;
        assert rows[..n][x - off].0 == k;
      }
    }
  }

  lemma {:induction false} AscendingStep(m: Chains, rows: seq<Keyed>, off: int, k0: int)
    requires Within(m, rows, off) && Ascending(m)
    ensures Ascending(Append(m, k0, off + |rows|))
  {
  }

  lemma {:induction false} CoversStep(m: Chains, rows: seq<Keyed>, off: int)
    requires rows != [] && Covers(m, rows[..|rows| - 1], off)
    ensures Covers(Append(m, rows[|rows| - 1].0, off + |rows| - 1), rows, off)
  {
    var n := |rows| - 1;
    var k0 := rows[n].0;
    var m' := Append(m, k0, off + n);
    forall i | 0 <= i < |rows| ensures rows[i].0 in m' && off + i in m'[rows[i].0] {
      if i < n {
        assert rows[..n][i] == rows[i];
        var chain := m[rows[i].0];
        assert chain <= m'[rows[i].0];
      } else {
        assert m'[k0][|m'[k0]| - 1] == off + n;
      }
    }
  }

  /** A contiguous, correctly stored run gives each key exactly its own payloads. */
  lemma {:induction false} GatherChains(store: seq<seq<Cell>>, rows: seq<Keyed>, off: int, key: int)
    requires Stored(store, off, rows)
    ensures InRange(ChainsOf(rows, off), |store|)
    ensures Payloads(store, ChainsOf(rows, off), key) == ByKey(rows, key)
  {
    ChainsPartition(rows, off);
    if rows != [] {
      var init, last, r := rows[..|rows| - 1], rows[|rows| - 1], off + |rows| - 1;
      GatherChains(store, init, off, key);
      assert store[off + (|rows| - 1)] == last.1;
      PayloadsAppend(store, ChainsOf(init, off), last.0, r, key);
    }
  }

  ghost function Payloads(store: seq<seq<Cell>>, m: Chains, key: int): seq<seq<Cell>>
    requires InRange(m, |store|)
  {
    if key in m then Gather(store, m[key]) else []
  }

  lemma {:induction false} PayloadsAppend(store: seq<seq<Cell>>, m: Chains, k: int, r: int, key: int)
    requires InRange(m, |store|) && 0 <= r < |store|
    ensures InRange(Append(m, k, r), |store|)
    ensures Payloads(store, Append(m, k, r), key) == Payloads(store, m, key) + if key == k then [store[r]] else []
  {
    if key == k {
      var before := if key in m then m[key] else [];
      assert Append(m, k, r)[key] == before + [r];
    }
  }

  // ---- States and steps -------------------------------------------------------------

  /** Pass 1's output for one morsel: its own store, and per partition the (key,
      row) pairs that belong to it, in morsel order. */
  datatype Bucket = Bucket(store: seq<seq<Cell>>, rows: seq<seq<(int, nat)>>)

  datatype Drainer = Idle | Draining(start: nat, pos: nat, local: Bucket) | Drained
  datatype Assembler = Free | Assembling(part: nat, dst: nat, mi: nat, ri: nat, table: Chains) | Retired

  /** `claims` and `taken` count the claims made on the two atomic cursors; the
      cursor itself reads claims * morselSize and taken. */
  datatype State =
    | Pass1(claims: nat, drainers: seq<Drainer>, buckets: seq<Option<Bucket>>)
    | Pass2(taken: nat, assemblers: seq<Assembler>, lists: seq<Option<Bucket>>,
            offsets: seq<nat>, store: seq<seq<Cell>>, parts: seq<Option<Chains>>)
    | TooManyRows
    | Built(result: Build)

  datatype Action =
    | Claim(w: nat) | Take(w: nat) | Publish(w: nat) | Barrier
    | ClaimPart(w: nat) | Place(w: nat) | Advance(w: nat) | Install(w: nat) | Finish

  function Start(c: Config): State
    requires c.Valid()
  {
    Pass1(0, seq(c.workers1, _ => Idle), seq(c.NumMorsels(), _ => None))
  }

  function EmptyBucket(c: Config): Bucket {
    Bucket([], seq(c.numParts, _ => []))
  }

  /** partitionMorsel's visit of one pipeline row. */
  function TakeRow(c: Config, b: Bucket, row: seq<Cell>): Bucket
    requires c.numParts > 0 && |b.rows| == c.numParts
  {
    match KeyAt(row, c.key)
    case None => b
    case Some(k) =>
      var p := Part(c.hash(k), c.numParts);
      Bucket(b.store + [row], b.rows[p := b.rows[p] + [(k, |b.store|)]])
  }

  /** Rows of partition p over all published buckets. */
  function Count(buckets: seq<Option<Bucket>>, p: nat): nat {
    if buckets == [] then 0
    else Count(buckets[..|buckets| - 1], p) + ListLen(buckets[|buckets| - 1], p)
  }

  function ListLen(b: Option<Bucket>, p: nat): nat {
    if b.Some? && p < |b.value.rows| then |b.value.rows[p]| else 0
  }

  /** Where partition p's contiguous store range starts. */
  function OffsetOf(buckets: seq<Option<Bucket>>, p: nat): nat {
    if p == 0 then 0 else OffsetOf(buckets, p - 1) + Count(buckets, p - 1)
  }

  /** Drops partition p's list of morsel i so its memory can be reclaimed. */
  function Release(lists: seq<Option<Bucket>>, i: nat, p: nat): seq<Option<Bucket>>
    requires i < |lists| && (lists[i].Some? ==> p < |lists[i].value.rows|)
  {
    if lists[i].None? then lists
    else lists[i := Some(lists[i].value.(rows := lists[i].value.rows[p := []]))]
  }

  ghost predicate Enabled(c: Config, s: State, a: Action)
    requires c.Valid()
  {
    match a
    case Claim(w) => s.Pass1? && w < |s.drainers| && s.drainers[w].Idle?
    case Take(w) =>
      && s.Pass1? && w < |s.drainers| && s.drainers[w].Draining?
      && s.drainers[w].start <= |c.groups| && s.drainers[w].pos < |c.MorselRows(s.drainers[w].start)|
      && |s.drainers[w].local.rows| == c.numParts
    case Publish(w) =>
      && s.Pass1? && w < |s.drainers| && s.drainers[w].Draining?
      && s.drainers[w].start <= |c.groups| && s.drainers[w].pos == |c.MorselRows(s.drainers[w].start)|
      && c.IndexOf(s.drainers[w].start) < |s.buckets|
    case Barrier => s.Pass1? && forall w :: 0 <= w < |s.drainers| ==> s.drainers[w].Drained?
    case ClaimPart(w) => s.Pass2? && w < |s.assemblers| && s.assemblers[w].Free? && |s.offsets| == c.numParts
    case Place(w) =>
      && s.Pass2? && w < |s.assemblers| && s.assemblers[w].Assembling?
      && var a := s.assemblers[w];
         && a.mi < |s.lists| && s.lists[a.mi].Some? && a.part < |s.lists[a.mi].value.rows|
         && a.ri < |s.lists[a.mi].value.rows[a.part]|
         && s.lists[a.mi].value.rows[a.part][a.ri].1 < |s.lists[a.mi].value.store| && a.dst < |s.store|
    case Advance(w) =>
      && s.Pass2? && w < |s.assemblers| && s.assemblers[w].Assembling?
      && var a := s.assemblers[w];
         && a.mi < |s.lists|
         && (s.lists[a.mi].Some? ==> a.part < |s.lists[a.mi].value.rows| && a.ri == |s.lists[a.mi].value.rows[a.part]|)
    case Install(w) =>
      && s.Pass2? && w < |s.assemblers| && s.assemblers[w].Assembling?
      && s.assemblers[w].mi == |s.lists| && s.assemblers[w].part < |s.parts|
    case Finish => s.Pass2? && forall w :: 0 <= w < |s.assemblers| ==> s.assemblers[w].Retired?
  }

  ghost function Apply(c: Config, s: State, a: Action): State
    requires c.Valid() && Enabled(c, s, a)
  {
    match a
    case Claim(w) =>
      var start := Off(s.claims, c.morselSize);
      var d := if start >= |c.groups| then Drained else Draining(start, 0, EmptyBucket(c));
      s.(claims := s.claims + 1, drainers := s.drainers[w := d])
    case Take(w) =>
      var d := s.drainers[w];
      var local := TakeRow(c, d.local, c.MorselRows(d.start)[d.pos]);
      s.(drainers := s.drainers[w := d.(pos := d.pos + 1, local := local)])
    case Publish(w) =>
      var d := s.drainers[w];
      s.(drainers := s.drainers[w := Idle], buckets := s.buckets[c.IndexOf(d.start) := Some(d.local)])
    case Barrier =>
      var total := OffsetOf(s.buckets, c.numParts);
      if total > MAX_BUILD_ROWS then TooManyRows
      else Pass2(0, seq(c.workers2, _ => Free), s.buckets,
                 seq(c.numParts, p requires 0 <= p => OffsetOf(s.buckets, p)),
                 seq(total, _ => []), seq(c.numParts, _ => None))
    case ClaimPart(w) =>
      var d := if s.taken >= c.numParts then Retired else Assembling(s.taken, s.offsets[s.taken], 0, 0, map[]);
      s.(taken := s.taken + 1, assemblers := s.assemblers[w := d])
    case Place(w) =>
      var a := s.assemblers[w];
      var b := s.lists[a.mi].value;
      var kr := b.rows[a.part][a.ri];
      s.(store := s.store[a.dst := b.store[kr.1]],
         assemblers := s.assemblers[w := a.(dst := a.dst + 1, ri := a.ri + 1, table := Append(a.table, kr.0, a.dst))])
    case Advance(w) =>
      var a := s.assemblers[w];
      s.(lists := Release(s.lists, a.mi, a.part), assemblers := s.assemblers[w := a.(mi := a.mi + 1, ri := 0)])
    case Install(w) =>
      var a := s.assemblers[w];
      s.(parts := s.parts[a.part := Some(a.table)], assemblers := s.assemblers[w := Free])
    case Finish =>
      Built(Build(s.store, seq(|s.parts|, p requires 0 <= p < |s.parts| =>
        match s.parts[p] { case None => map[] case Some(t) => t })))
  }

  /** The state an interleaving reaches, when each of its steps is enabled. */
  ghost function Exec(c: Config, run: seq<Action>): Option<State>
    requires c.Valid()
  {
    if run == [] then Some(Start(c))
    else
      match Exec(c, run[..|run| - 1])
      case None => None
      case Some(s) =>
        var a := run[|run| - 1];
        if Enabled(c, s, a) then Some(Apply(c, s, a)) else None
  }

  // ---- Morsel geometry -------------------------------------------------------------

  /** The number of size-long chunks that cover n, and the chunk x falls in: the
      source's rounded-up and rounded-down quotients, written without division. */
  function Chunks(n: int, size: nat): nat
    requires size > 0
    decreases n
  {
    if n <= 0 then 0 else 1 + Chunks(n - size, size)
  }

  function Index(x: nat, size: nat): nat
    requires size > 0
  {
    if x < size then 0 else 1 + Index(x - size, size)
  }

  lemma {:induction false} IndexIsQuotient(x: nat, size: nat)
    requires size > 0
    ensures Index(x, size) == x / size
  {
    if x >= size {
      IndexIsQuotient(x - size, size);
      var q, r := (x - size) / size, (x - size) % size;
      assert x - size == q * size + r;
      assert (q + 1) * size == q * size + size;
      Quotient(x, q + 1, r, size);
    } else {
      Quotient(x, 0, x, size);
    }
  }

  lemma {:induction false} ChunksIsCeil(n: nat, size: nat)
    requires size > 0
    ensures Chunks(n, size) == (n + size - 1) / size
  {
    if n > size {
      ChunksIsCeil(n - size, size);
      var q, r := (n - 1) / size, (n - 1) % size;
      assert n - 1 == q * size + r;
      assert (q + 1) * size == q * size + size;
      Quotient(n + size - 1, q + 1, r, size);
    } else if n > 0 {
      Quotient(n + size - 1, 1, n - 1, size);
    } else {
      Quotient(size - 1, 0, size - 1, size);
    }
  }

  lemma {:induction false} IndexOfStart(m: nat, size: nat)
    requires size > 0
    ensures Index(Off(m, size), size) == m
  {
    if m > 0 {
      IndexOfStart(m - 1, size);
    }
  }

  /** Morsel m exists exactly when the cursor value it is claimed at is in range. */
  lemma {:induction false} MorselExists(c: Config, m: nat)
    requires c.Valid()
    ensures m < c.NumMorsels() <==> Off(m, c.morselSize) < |c.groups|
  {
    ChunkExists(|c.groups|, c.morselSize, m);
  }

  lemma {:induction false} ChunkExists(n: int, size: nat, m: nat)
    requires size > 0
    ensures m < Chunks(n, size) <==> Off(m, size) < n
    decreases m
  {
    if m > 0 {
      ChunkExists(n - size, size, m - 1);
    }
  }

  /** The rows of the first m morsels, as one serial drain would emit them. */
  ghost function RowsUpTo(c: Config, m: nat): seq<seq<Cell>>
    requires c.Valid()
  {
    Flat(c.groups[..Cut(c, m)])
  }

  function Cut(c: Config, m: nat): nat {
    if Off(m, c.morselSize) > |c.groups| then |c.groups| else Off(m, c.morselSize)
  }

  lemma {:induction false} RowsUpToStep(c: Config, m: nat)
    requires c.Valid() && Off(m, c.morselSize) < |c.groups|
    ensures RowsUpTo(c, m + 1) == RowsUpTo(c, m) + c.MorselRows(Off(m, c.morselSize))
  {
    var start := Off(m, c.morselSize);
    assert Cut(c, m + 1) == c.Stop(start);
    assert c.groups[..Cut(c, m + 1)] == c.groups[..start] + c.groups[start..c.Stop(start)];
    FlatConcat(c.groups[..start], c.groups[start..c.Stop(start)]);
  }

  lemma {:induction false} RowsUpToAll(c: Config)
    requires c.Valid()
    ensures RowsUpTo(c, c.NumMorsels()) == Flat(c.groups)
  {
    MorselExists(c, c.NumMorsels());
    assert c.groups[..|c.groups|] == c.groups;
  }

  // ---- Invariant of pass 1 -----------------------------------------------------------

  /** Partition p of a bucket lists exactly the rows `want`, in order. */
  ghost predicate Lists(b: Bucket, p: nat, want: seq<Keyed>) {
    && p < |b.rows| && |b.rows[p]| == |want|
    && forall i :: 0 <= i < |want| ==>
         b.rows[p][i].1 < |b.store| && b.rows[p][i].0 == want[i].0 && b.store[b.rows[p][i].1] == want[i].1
  }

  ghost predicate BucketOf(c: Config, b: Bucket, drained: seq<Keyed>)
    requires c.numParts > 0
  {
    |b.rows| == c.numParts && forall p :: 0 <= p < c.numParts ==> Lists(b, p, OfPart(c, drained, p))
  }

  lemma {:induction false} TakeRowStep(c: Config, b: Bucket, drained: seq<Keyed>, row: seq<Cell>)
    requires c.numParts > 0 && BucketOf(c, b, drained)
    ensures match KeyAt(row, c.key)
            case None => BucketOf(c, TakeRow(c, b, row), drained)
            case Some(k) => BucketOf(c, TakeRow(c, b, row), drained + [(k, row)])
  {
    match KeyAt(row, c.key)
    case None =>
    case Some(k) =>
      var b', drained' := TakeRow(c, b, row), drained + [(k, row)];
      assert drained'[..|drained'| - 1] == drained;
      forall p | 0 <= p < c.numParts ensures Lists(b', p, OfPart(c, drained', p)) {
        assert Lists(b, p, OfPart(c, drained, p));
      }
  }

  ghost function MorselDrain(c: Config, m: nat, pos: nat): seq<Keyed>
    requires c.Valid() && Off(m, c.morselSize) <= |c.groups| && pos <= |c.MorselRows(Off(m, c.morselSize))|
  {
    Drain(c.MorselRows(Off(m, c.morselSize))[..pos], c.key)
  }

  /** A worker draining a morsel holds a prefix of it in its local bucket, and the
      morsel is claimed and unpublished. */
  ghost predicate DrainerOk(c: Config, claims: nat, buckets: seq<Option<Bucket>>, d: Drainer)
    requires c.Valid()
  {
    d.Draining? ==>
      var m := c.IndexOf(d.start);
      && m < claims && d.start == Off(m, c.morselSize) < |c.groups| && m < |buckets|
      && buckets[m].None?
      && d.pos <= |c.MorselRows(d.start)|
      && BucketOf(c, d.local, MorselDrain(c, m, d.pos))
  }

  ghost predicate Drains(d: Drainer, start: nat) {
    d.Draining? && d.start == start
  }

  ghost predicate SomeDrains(ds: seq<Drainer>, start: nat) {
    exists w :: 0 <= w < |ds| && Drains(ds[w], start)
  }

  /** A published bucket is complete; a claimed morsel is published or in the hands
      of some worker. */
  ghost predicate MorselOk(c: Config, claims: nat, b: Option<Bucket>, ds: seq<Drainer>, m: nat)
    requires c.Valid()
  {
    var start := Off(m, c.morselSize);
    && start < |c.groups|
    && (b.Some? ==> m < claims && BucketOf(c, b.value, MorselDrain(c, m, |c.MorselRows(start)|)))
    && (b.None? && m < claims ==> SomeDrains(ds, start))
  }

  ghost predicate Inv1(c: Config, s: State)
    requires c.Valid() && s.Pass1?
  {
    && |s.drainers| == c.workers1 && |s.buckets| == c.NumMorsels()
    && (forall w :: 0 <= w < |s.drainers| ==> DrainerOk(c, s.claims, s.buckets, s.drainers[w]))
    && (forall w, v :: 0 <= w < v < |s.drainers| && s.drainers[w].Draining? && s.drainers[v].Draining? ==>
          s.drainers[w].start != s.drainers[v].start)
    && (forall m :: 0 <= m < |s.buckets| ==> MorselOk(c, s.claims, s.buckets[m], s.drainers, m))
    && (forall w :: 0 <= w < |s.drainers| && s.drainers[w].Drained? ==> Off(s.claims, c.morselSize) >= |c.groups|)
  }

  lemma {:induction false} StartInv(c: Config)
    requires c.Valid()
    ensures Inv1(c, Start(c))
  {
    var s := Start(c);
    forall m | 0 <= m < c.NumMorsels() ensures MorselOk(c, s.claims, s.buckets[m], s.drainers, m) {
      MorselExists(c, m);
    }
  }

  /** Replacing worker w leaves every other morsel's drainer in place. */
  lemma {:induction false} StillDrains(ds: seq<Drainer>, w: nat, d: Drainer, start: nat)
    requires w < |ds| && SomeDrains(ds, start) && (Drains(ds[w], start) ==> Drains(d, start))
    ensures SomeDrains(ds[w := d], start)
  {
    var v :| 0 <= v < |ds| && Drains(ds[v], start);
    assert Drains(ds[w := d][v], start);
  }

  lemma {:induction false} ClaimInv(c: Config, s: State, w: nat)
    requires c.Valid() && s.Pass1? && Inv1(c, s) && Enabled(c, s, Claim(w))
    ensures Inv1(c, Apply(c, s, Claim(w)))
  {
    var s', start := Apply(c, s, Claim(w)), Off(s.claims, c.morselSize);
    IndexOfStart(s.claims, c.morselSize);
    MorselExists(c, s.claims);
    forall m | 0 <= m < |s'.buckets| ensures MorselOk(c, s'.claims, s'.buckets[m], s'.drainers, m) {
      assert MorselOk(c, s.claims, s.buckets[m], s.drainers, m);
      if s.buckets[m].None? && m < s.claims {
        StillDrains(s.drainers, w, s'.drainers[w], Off(m, c.morselSize));
      } else if m == s.claims {
        assert Drains(s'.drainers[w], start);
      }
    }
    if start < |c.groups| {
      assert MorselOk(c, s.claims, s.buckets[s.claims], s.drainers, s.claims);
      FreshDrainer(c, s.claims, s.buckets);
    }
    assert DrainerOk(c, s'.claims, s'.buckets, s'.drainers[w]);
    forall v | 0 <= v < |s'.drainers| && v != w ensures DrainerOk(c, s'.claims, s'.buckets, s'.drainers[v]) {
      assert DrainerOk(c, s.claims, s.buckets, s.drainers[v]);
    }
  }

  lemma {:induction false} FreshDrainer(c: Config, m: nat, buckets: seq<Option<Bucket>>)
    requires c.Valid() && m < |buckets| && buckets[m].None? && Off(m, c.morselSize) < |c.groups|
    ensures DrainerOk(c, m + 1, buckets, Draining(Off(m, c.morselSize), 0, EmptyBucket(c)))
  {
    IndexOfStart(m, c.morselSize);
    assert MorselDrain(c, m, 0) == [];
  }

  lemma {:induction false} TakeDrainer(c: Config, claims: nat, buckets: seq<Option<Bucket>>, d: Drainer)
    requires c.Valid() && d.Draining? && DrainerOk(c, claims, buckets, d)
    requires d.pos < |c.MorselRows(d.start)|
    ensures DrainerOk(c, claims, buckets,
        d.(pos := d.pos + 1, local := TakeRow(c, d.local, c.MorselRows(d.start)[d.pos])))
  {
    var m, rows := c.IndexOf(d.start), c.MorselRows(d.start);
    TakeRowStep(c, d.local, MorselDrain(c, m, d.pos), rows[d.pos]);
    assert rows[..d.pos + 1][..d.pos] == rows[..d.pos];
    var drained := MorselDrain(c, m, d.pos);
    assert MorselDrain(c, m, d.pos + 1) ==
        match KeyAt(rows[d.pos], c.key) { case None => drained case Some(k) => drained + [(k, rows[d.pos])] };
  }

  lemma {:induction false} TakeInv(c: Config, s: State, w: nat)
    requires c.Valid() && s.Pass1? && Inv1(c, s) && Enabled(c, s, Take(w))
    ensures Inv1(c, Apply(c, s, Take(w)))
  {
    var s' := Apply(c, s, Take(w));
    TakeDrainer(c, s.claims, s.buckets, s.drainers[w]);
    forall m | 0 <= m < |s'.buckets| ensures MorselOk(c, s'.claims, s'.buckets[m], s'.drainers, m) {
      assert MorselOk(c, s.claims, s.buckets[m], s.drainers, m);
      if s.buckets[m].None? && m < s.claims {
        StillDrains(s.drainers, w, s'.drainers[w], Off(m, c.morselSize));
      }
    }
  }

  lemma {:induction false} PublishInv(c: Config, s: State, w: nat)
    requires c.Valid() && s.Pass1? && Inv1(c, s) && Enabled(c, s, Publish(w))
    ensures Inv1(c, Apply(c, s, Publish(w)))
  {
    var s', d := Apply(c, s, Publish(w)), s.drainers[w];
    var i := c.IndexOf(d.start);
    assert DrainerOk(c, s.claims, s.buckets, d);
    forall v | 0 <= v < |s'.drainers| && v != w ensures DrainerOk(c, s'.claims, s'.buckets, s'.drainers[v]) {
      OtherDrainer(c, s.claims, s.buckets, s.drainers[v], d);
    }
    forall m | 0 <= m < |s'.buckets| ensures MorselOk(c, s'.claims, s'.buckets[m], s'.drainers, m) {
      assert MorselOk(c, s.claims, s.buckets[m], s.drainers, m);
      IndexOfStart(m, c.morselSize);
      if m != i && s.buckets[m].None? && m < s.claims {
        StillDrains(s.drainers, w, Idle, Off(m, c.morselSize));
      }
    }
  }

  /** Publishing one worker's morsel leaves every other drainer sound. */
  lemma {:induction false} OtherDrainer(c: Config, claims: nat, buckets: seq<Option<Bucket>>, e: Drainer, d: Drainer)
    requires c.Valid() && d.Draining? && c.IndexOf(d.start) < |buckets|
    requires DrainerOk(c, claims, buckets, e) && DrainerOk(c, claims, buckets, d)
    requires e.Draining? ==> e.start != d.start
    ensures DrainerOk(c, claims, buckets[c.IndexOf(d.start) := Some(d.local)], e)
  {
  }

  // ---- Invariant of pass 2 -----------------------------------------------------------

  /** What pass 1 must deliver: `plan[m][p]` lists partition p's rows of morsel m. */
  type Plan = seq<seq<seq<Keyed>>>

  function PartOf(plan: Plan, p: nat, m: nat): seq<Keyed> {
    if m < |plan| && p < |plan[m]| then plan[m][p] else []
  }

  /** Partition p's rows in the first m morsels. */
  function PartUpTo(plan: Plan, p: nat, m: nat): seq<Keyed> {
    if m == 0 then [] else PartUpTo(plan, p, m - 1) + PartOf(plan, p, m - 1)
  }

  function PartRows(plan: Plan, p: nat): seq<Keyed> {
    PartUpTo(plan, p, |plan|)
  }

  /** The plan a serial drain of each morsel gives. */
  ghost function PlanOf(c: Config): (plan: Plan)
    requires c.Valid()
    ensures |plan| == c.NumMorsels()
    ensures forall m: nat :: m < |plan| ==> |plan[m]| == c.numParts
  {
    seq(c.NumMorsels(), m requires 0 <= m => seq(c.numParts, p requires 0 <= p => MorselPart(c, p, m)))
  }

  ghost function MorselPart(c: Config, p: nat, m: nat): seq<Keyed>
    requires c.Valid()
  {
    var start := Off(m, c.morselSize);
    if start < |c.groups| then OfPart(c, MorselDrain(c, m, |c.MorselRows(start)|), p) else []
  }

  /** What a serial drain of the first m morsels visits. */
  ghost function DrainUpTo(c: Config, m: nat): seq<Keyed>
    requires c.Valid()
  {
    Drain(RowsUpTo(c, m), c.key)
  }

  ghost function DrainPart(c: Config, p: nat, m: nat): seq<Keyed>
    requires c.Valid()
  {
    OfPart(c, DrainUpTo(c, m), p)
  }

  /** The plan lists what draining morsel m alone would. */
  ghost predicate PlansAt(c: Config, plan: Plan, p: nat, m: nat)
    requires c.Valid()
  {
    Off(m, c.morselSize) < |c.groups| && PartOf(plan, p, m) == MorselPart(c, p, m)
  }

  /** Walking morsels in index order lists what a serial drain would. */
  lemma {:induction false} PartUpToDrain(c: Config, plan: Plan, p: nat, n: nat)
    requires c.Valid() && forall m: nat :: m < n ==> PlansAt(c, plan, p, m)
    ensures PartUpTo(plan, p, n) == DrainPart(c, p, n)
  {
    if n > 0 {
      var m := n - 1;
      PartUpToDrain(c, plan, p, m);
      assert PlansAt(c, plan, p, m);
      DrainUpToStep(c, plan, p, m);
      assert m + 1 == n;
    } else {
      DrainPartNone(c, p);
    }
  }

  lemma {:induction false} DrainPartNone(c: Config, p: nat)
    requires c.Valid()
    ensures DrainPart(c, p, 0) == []
  {
    assert c.groups[..0] == [];
  }

  lemma {:induction false} DrainUpToStep(c: Config, plan: Plan, p: nat, m: nat)
    requires c.Valid() && PlansAt(c, plan, p, m)
    ensures DrainPart(c, p, m + 1) == DrainPart(c, p, m) + PartOf(plan, p, m)
  {
    RowsUpToStep(c, m);
    var rows := c.MorselRows(Off(m, c.morselSize));
    assert rows[..|rows|] == rows;
    DrainConcat(RowsUpTo(c, m), rows, c.key);
    OfPartConcat(c, DrainUpTo(c, m), Drain(rows, c.key), p);
  }

  lemma {:induction false} PartUpToPrefix(plan: Plan, p: nat, m: nat, n: nat)
    requires m <= n <= |plan|
    ensures PartUpTo(plan, p, m) <= PartUpTo(plan, p, n)
    decreases n
  {
    if m < n {
      PartUpToPrefix(plan, p, m, n - 1);
      PrefixGrows(PartUpTo(plan, p, m), PartUpTo(plan, p, n - 1), PartOf(plan, p, n - 1), PartUpTo(plan, p, n));
    } else {
      PrefixGrows(PartUpTo(plan, p, m), PartUpTo(plan, p, m), [], PartUpTo(plan, p, n));
    }
  }

  lemma {:induction false} PrefixGrows<T>(a: seq<T>, b: seq<T>, d: seq<T>, e: seq<T>)
    requires a <= b && e == b + d
    ensures a <= e
  {
  }

  /** Where partition p's range of the final store must start. */
  ghost function RangeStart(plan: Plan, p: nat): nat
  {
    if p == 0 then 0 else RangeStart(plan, p - 1) + |PartRows(plan, p - 1)|
  }

  lemma {:induction false} RangesApart(plan: Plan, p: nat, q: nat)
    requires p < q
    ensures RangeStart(plan, p) + |PartRows(plan, p)| <= RangeStart(plan, q)
    decreases q
  {
    if p < q - 1 {
      RangesApart(plan, p, q - 1);
    }
  }

  ghost predicate ListOk(plan: Plan, lists: seq<Option<Bucket>>, m: nat, p: nat)
  {
    m < |lists| && lists[m].Some? && Lists(lists[m].value, p, PartOf(plan, p, m))
  }

  ghost predicate ListsFrom(plan: Plan, lists: seq<Option<Bucket>>, m: nat, p: nat)
  {
    forall i: nat :: m <= i < |lists| ==> ListOk(plan, lists, i, p)
  }

  /** The rows an assembler has placed so far. */
  ghost function Done(plan: Plan, p: nat, mi: nat, ri: nat): seq<Keyed>
    requires ri <= |PartOf(plan, p, mi)|
  {
    PartUpTo(plan, p, mi) + PartOf(plan, p, mi)[..ri]
  }

  /** An assembler owns its partition: nothing of it is installed and its lists from
      the current morsel on are intact. */
  ghost predicate Owns(plan: Plan, taken: nat, lists: seq<Option<Bucket>>, parts: seq<Option<Chains>>, a: Assembler)
    requires a.Assembling?
  {
    && a.part < taken && a.part < |parts| && parts[a.part].None?
    && a.mi <= |lists| && ListsFrom(plan, lists, a.mi, a.part)
  }

  /** Its store range and its table hold exactly what is done. */
  ghost predicate HasPlaced(plan: Plan, store: seq<seq<Cell>>, a: Assembler)
    requires a.Assembling?
  {
    && a.ri <= |PartOf(plan, a.part, a.mi)|
    && var done := Done(plan, a.part, a.mi, a.ri);
       && a.dst == RangeStart(plan, a.part) + |done| && a.table == ChainsOf(done, RangeStart(plan, a.part))
       && Stored(store, RangeStart(plan, a.part), done)
  }

  ghost predicate AssemblerOk(plan: Plan, taken: nat, lists: seq<Option<Bucket>>, store: seq<seq<Cell>>,
                              parts: seq<Option<Chains>>, a: Assembler)
  {
    var ok := a.Assembling? ==> Owns(plan, taken, lists, parts, a) && HasPlaced(plan, store, a);
    ok
  }

  ghost predicate Assembles(a: Assembler, p: nat) {
    a.Assembling? && a.part == p
  }

  ghost predicate SomeAssembles(ws: seq<Assembler>, p: nat) {
    exists w :: 0 <= w < |ws| && Assembles(ws[w], p)
  }

  ghost predicate PartOk(plan: Plan, taken: nat, ws: seq<Assembler>, lists: seq<Option<Bucket>>,
                         store: seq<seq<Cell>>, part: Option<Chains>, p: nat)
  {
    && (p >= taken ==> part.None? && ListsFrom(plan, lists, 0, p))
    && (p < taken && part.None? ==> SomeAssembles(ws, p))
    && (part.Some? ==>
          && part.value == ChainsOf(PartRows(plan, p), RangeStart(plan, p))
          && Stored(store, RangeStart(plan, p), PartRows(plan, p)))
  }

  ghost predicate Inv2(c: Config, plan: Plan, s: State)
    requires c.Valid() && s.Pass2?
  {
    && |s.assemblers| == c.workers2 && |s.lists| == |plan| == c.NumMorsels()
    && |s.offsets| == |s.parts| == c.numParts && |s.store| == RangeStart(plan, c.numParts) <= MAX_BUILD_ROWS
    && (forall p :: 0 <= p < c.numParts ==> s.offsets[p] == RangeStart(plan, p))
    && (forall w :: 0 <= w < |s.assemblers| ==> AssemblerOk(plan, s.taken, s.lists, s.store, s.parts, s.assemblers[w]))
    && (forall w, v :: 0 <= w < v < |s.assemblers| && s.assemblers[w].Assembling? && s.assemblers[v].Assembling? ==>
          s.assemblers[w].part != s.assemblers[v].part)
    && (forall p :: 0 <= p < c.numParts ==> PartOk(plan, s.taken, s.assemblers, s.lists, s.store, s.parts[p], p))
    && (forall w :: 0 <= w < |s.assemblers| && s.assemblers[w].Retired? ==> s.taken >= c.numParts)
  }

  ghost predicate Inv(c: Config, s: State)
    requires c.Valid()
  {
    match s
    case Pass1(_, _, _) => Inv1(c, s)
    case Pass2(_, _, _, _, _, _) => Inv2(c, PlanOf(c), s)
    case TooManyRows => RangeStart(PlanOf(c), c.numParts) > MAX_BUILD_ROWS
    case Built(b) => BuiltOk(c, PlanOf(c), b)
  }

  ghost predicate BuiltOk(c: Config, plan: Plan, b: Build) {
    && |b.rows| == RangeStart(plan, c.numParts) <= MAX_BUILD_ROWS && |b.tables| == c.numParts
    && forall p :: 0 <= p < c.numParts ==>
         && b.tables[p] == ChainsOf(PartRows(plan, p), RangeStart(plan, p))
         && Stored(b.rows, RangeStart(plan, p), PartRows(plan, p))
  }

  // ---- Pass 2 keeps its invariant ----------------------------------------------------

  /** The counts over published buckets are the partition sizes of a serial drain. */
  lemma {:induction false} CountIs(plan: Plan, buckets: seq<Option<Bucket>>, p: nat, m: nat)
    requires m <= |buckets| == |plan| && ListsFrom(plan, buckets, 0, p)
    ensures Count(buckets[..m], p) == |PartUpTo(plan, p, m)|
  {
    if m > 0 {
      CountIs(plan, buckets, p, m - 1);
      assert buckets[..m][..m - 1] == buckets[..m - 1];
      assert ListOk(plan, buckets, m - 1, p);
    }
  }

  lemma {:induction false} OffsetIs(plan: Plan, buckets: seq<Option<Bucket>>, p: nat)
    requires |buckets| == |plan|
    requires forall q: nat :: q < p ==> ListsFrom(plan, buckets, 0, q)
    ensures OffsetOf(buckets, p) == RangeStart(plan, p)
  {
    if p > 0 {
      OffsetIs(plan, buckets, p - 1);
      CountIs(plan, buckets, p - 1, |buckets|);
      assert buckets[..|buckets|] == buckets;
    }
  }

  /** Once every worker has found the queue exhausted, every morsel is published. */
  lemma {:induction false} AllPublished(c: Config, s: State, p: nat)
    requires c.Valid() && c.workers1 > 0 && s.Pass1? && Inv1(c, s) && Enabled(c, s, Barrier) && p < c.numParts
    ensures ListsFrom(PlanOf(c), s.buckets, 0, p)
  {
    assert s.drainers[0].Drained?;
    MorselExists(c, s.claims);
    forall m: nat | m < |s.buckets| ensures ListOk(PlanOf(c), s.buckets, m, p) {
      assert MorselOk(c, s.claims, s.buckets[m], s.drainers, m);
      assert PartOf(PlanOf(c), p, m) == MorselPart(c, p, m);
    }
  }

  lemma {:induction false} BarrierInv(c: Config, plan: Plan, s: State)
    requires c.Valid() && s.Pass1? && |s.buckets| == |plan| == c.NumMorsels() && Enabled(c, s, Barrier)
    requires forall p: nat :: p < c.numParts ==> ListsFrom(plan, s.buckets, 0, p)
    ensures var s' := Apply(c, s, Barrier);
      (s'.TooManyRows? && RangeStart(plan, c.numParts) > MAX_BUILD_ROWS) || (s'.Pass2? && Inv2(c, plan, s'))
  {
    OffsetIs(plan, s.buckets, c.numParts);
    forall p: nat | p < c.numParts ensures OffsetOf(s.buckets, p) == RangeStart(plan, p) {
      OffsetIs(plan, s.buckets, p);
    }
  }

  /** Replacing worker w leaves every other partition's assembler in place. */
  lemma {:induction false} StillAssembles(ws: seq<Assembler>, w: nat, a: Assembler, p: nat)
    requires w < |ws| && SomeAssembles(ws, p) && (Assembles(ws[w], p) ==> Assembles(a, p))
    ensures SomeAssembles(ws[w := a], p)
  {
    var v :| 0 <= v < |ws| && Assembles(ws[v], p);
    assert Assembles(ws[w := a][v], p);
  }

  lemma {:induction false} ClaimPartInv(c: Config, plan: Plan, s: State, w: nat)
    requires c.Valid() && s.Pass2? && Inv2(c, plan, s) && Enabled(c, s, ClaimPart(w))
    ensures Inv2(c, plan, Apply(c, s, ClaimPart(w)))
  {
    var s' := Apply(c, s, ClaimPart(w));
    if s.taken < c.numParts {
      assert PartOk(plan, s.taken, s.assemblers, s.lists, s.store, s.parts[s.taken], s.taken);
      RangesApart(plan, s.taken, c.numParts);
      FreshAssembler(plan, s.taken, s.lists, s.store, s.parts);
    }
    forall p | 0 <= p < c.numParts
      ensures PartOk(plan, s'.taken, s'.assemblers, s'.lists, s'.store, s'.parts[p], p)
    {
      assert PartOk(plan, s.taken, s.assemblers, s.lists, s.store, s.parts[p], p);
      if p < s.taken && s.parts[p].None? {
        StillAssembles(s.assemblers, w, s'.assemblers[w], p);
      } else if p == s.taken {
        assert Assembles(s'.assemblers[w], p);
      }
    }
    forall v | 0 <= v < |s'.assemblers| && v != w
      ensures AssemblerOk(plan, s'.taken, s'.lists, s'.store, s'.parts, s'.assemblers[v])
    {
      assert AssemblerOk(plan, s.taken, s.lists, s.store, s.parts, s.assemblers[v]);
    }
  }

  lemma {:induction false} FreshAssembler(plan: Plan, p: nat, lists: seq<Option<Bucket>>, store: seq<seq<Cell>>,
                                          parts: seq<Option<Chains>>)
    requires p < |parts| && parts[p].None? && ListsFrom(plan, lists, 0, p)
    requires RangeStart(plan, p) <= |store|
    ensures AssemblerOk(plan, p + 1, lists, store, parts, Assembling(p, RangeStart(plan, p), 0, 0, map[]))
  {
    assert Done(plan, p, 0, 0) == [];
  }

  /** What is done never exceeds the partition. */
  lemma {:induction false} DoneFits(plan: Plan, p: nat, mi: nat, ri: nat)
    requires mi <= |plan| && ri <= |PartOf(plan, p, mi)|
    ensures |Done(plan, p, mi, ri)| <= |PartRows(plan, p)|
    ensures mi == |plan| ==> ri == 0 && Done(plan, p, mi, ri) == PartRows(plan, p)
  {
    if mi < |plan| {
      PartUpToPrefix(plan, p, mi + 1, |plan|);
    }
  }

  lemma {:induction false} StoredElsewhere(store: seq<seq<Cell>>, off: int, rows: seq<Keyed>, i: int, x: seq<Cell>)
    requires Stored(store, off, rows) && 0 <= i < |store| && !(off <= i < off + |rows|)
    ensures Stored(store[i := x], off, rows)
  {
  }

  /** A store write inside partition p's range is outside every other range. */
  lemma {:induction false} OtherRange(plan: Plan, p: nat, q: nat, i: nat, n: nat)
    requires p != q && n <= |PartRows(plan, q)|
    requires RangeStart(plan, p) <= i < RangeStart(plan, p) + |PartRows(plan, p)|
    ensures !(RangeStart(plan, q) <= i < RangeStart(plan, q) + n)
  {
    if p < q {
      RangesApart(plan, p, q);
    } else {
      RangesApart(plan, q, p);
    }
  }

  /** One placed row extends what is done by exactly the next row of the list. */
  lemma {:induction false} PlaceNext(plan: Plan, store: seq<seq<Cell>>, a: Assembler, next: Keyed)
    requires a.Assembling? && HasPlaced(plan, store, a) && a.mi <= |plan| && a.dst < |store|
    requires a.ri < |PartOf(plan, a.part, a.mi)| && next == PartOf(plan, a.part, a.mi)[a.ri]
    ensures HasPlaced(plan, store[a.dst := next.1],
        a.(dst := a.dst + 1, ri := a.ri + 1, table := Append(a.table, next.0, a.dst)))
    ensures RangeStart(plan, a.part) <= a.dst < RangeStart(plan, a.part) + |PartRows(plan, a.part)|
  {
    var done, done' := Done(plan, a.part, a.mi, a.ri), Done(plan, a.part, a.mi, a.ri + 1);
    assert done' == done + [next];
    PlacedOne(store, RangeStart(plan, a.part), done, next, done');
    DoneFits(plan, a.part, a.mi, a.ri + 1);
  }

  lemma {:induction false} PlaceAssembler(c: Config, plan: Plan, s: State, w: nat)
    requires c.Valid() && s.Pass2? && Inv2(c, plan, s) && Enabled(c, s, Place(w))
    ensures var a, s' := s.assemblers[w], Apply(c, s, Place(w));
      && AssemblerOk(plan, s'.taken, s'.lists, s'.store, s'.parts, s'.assemblers[w])
      && RangeStart(plan, a.part) <= a.dst < RangeStart(plan, a.part) + |PartRows(plan, a.part)|
  {
    var a := s.assemblers[w];
    assert ListOk(plan, s.lists, a.mi, a.part);
    PlaceNext(plan, s.store, a, PartOf(plan, a.part, a.mi)[a.ri]);
  }

  lemma {:induction false} PlacedOne(store: seq<seq<Cell>>, off: nat, done: seq<Keyed>, next: Keyed, done': seq<Keyed>)
    requires Stored(store, off, done) && off + |done| < |store| && done' == done + [next]
    ensures Stored(store[off + |done| := next.1], off, done')
    ensures ChainsOf(done', off) == Append(ChainsOf(done, off), next.0, off + |done|)
  {
    assert done'[..|done|] == done;
  }

  lemma {:induction false} PlaceOther(plan: Plan, s: State, p: nat, dst: nat, x: seq<Cell>, b: Assembler)
    requires s.Pass2? && AssemblerOk(plan, s.taken, s.lists, s.store, s.parts, b) && |s.lists| == |plan|
    requires dst < |s.store| && RangeStart(plan, p) <= dst < RangeStart(plan, p) + |PartRows(plan, p)|
    requires b.Assembling? ==> b.part != p
    ensures AssemblerOk(plan, s.taken, s.lists, s.store[dst := x], s.parts, b)
  {
    if b.Assembling? {
      DoneFits(plan, b.part, b.mi, b.ri);
      OtherRange(plan, p, b.part, dst, |Done(plan, b.part, b.mi, b.ri)|);
      StoredElsewhere(s.store, RangeStart(plan, b.part), Done(plan, b.part, b.mi, b.ri), dst, x);
    }
  }

  lemma {:induction false} PlacePart(plan: Plan, s: State, w: nat, b: Assembler, p: nat, dst: nat, x: seq<Cell>, q: nat)
    requires s.Pass2? && w < |s.assemblers| && q < |s.parts|
    requires PartOk(plan, s.taken, s.assemblers, s.lists, s.store, s.parts[q], q)
    requires dst < |s.store| && RangeStart(plan, p) <= dst < RangeStart(plan, p) + |PartRows(plan, p)|
    requires Assembles(s.assemblers[w], p) && Assembles(b, p) && (s.parts[q].Some? ==> q != p)
    ensures PartOk(plan, s.taken, s.assemblers[w := b], s.lists, s.store[dst := x], s.parts[q], q)
  {
    if q < s.taken && s.parts[q].None? {
      StillAssembles(s.assemblers, w, b, q);
    }
    if s.parts[q].Some? {
      OtherRange(plan, p, q, dst, |PartRows(plan, q)|);
      StoredElsewhere(s.store, RangeStart(plan, q), PartRows(plan, q), dst, x);
    }
  }

  lemma {:induction false} PlaceInv(c: Config, plan: Plan, s: State, w: nat)
    requires c.Valid() && s.Pass2? && Inv2(c, plan, s) && Enabled(c, s, Place(w))
    ensures Inv2(c, plan, Apply(c, s, Place(w)))
  {
    var a, s' := s.assemblers[w], Apply(c, s, Place(w));
    PlaceAssembler(c, plan, s, w);
    forall v | 0 <= v < |s'.assemblers| && v != w
      ensures AssemblerOk(plan, s'.taken, s'.lists, s'.store, s'.parts, s'.assemblers[v])
    {
      PlaceOther(plan, s, a.part, a.dst, s'.store[a.dst], s.assemblers[v]);
    }
    forall p | 0 <= p < c.numParts
      ensures PartOk(plan, s'.taken, s'.assemblers, s'.lists, s'.store, s'.parts[p], p)
    {
      PlacePart(plan, s, w, s'.assemblers[w], a.part, a.dst, s'.store[a.dst], p);
    }
  }

  /** Releasing partition p's list of one morsel touches no other list. */
  lemma {:induction false} Released(plan: Plan, lists: seq<Option<Bucket>>, i: nat, p: nat, q: nat, m: nat)
    requires i < |lists| && lists[i].Some? && p < |lists[i].value.rows| && ListsFrom(plan, lists, m, q)
    requires q != p || i < m
    ensures ListsFrom(plan, Release(lists, i, p), m, q)
  {
    var lists' := Release(lists, i, p);
    forall j: nat | m <= j < |lists'| ensures ListOk(plan, lists', j, q) {
      assert ListOk(plan, lists, j, q);
    }
  }

  lemma {:induction false} DoneAdvance(plan: Plan, p: nat, mi: nat)
    requires mi < |plan|
    ensures Done(plan, p, mi + 1, 0) == Done(plan, p, mi, |PartOf(plan, p, mi)|)
  {
    assert PartOf(plan, p, mi)[..|PartOf(plan, p, mi)|] == PartOf(plan, p, mi);
    assert PartUpTo(plan, p, mi + 1) + [] == PartUpTo(plan, p, mi + 1);
  }

  lemma {:induction false} AdvancePlaced(plan: Plan, store: seq<seq<Cell>>, a: Assembler)
    requires a.Assembling? && a.mi < |plan|
    requires HasPlaced(plan, store, a) && a.ri == |PartOf(plan, a.part, a.mi)|
    ensures HasPlaced(plan, store, a.(mi := a.mi + 1, ri := 0))
  {
    DoneAdvance(plan, a.part, a.mi);
  }

  lemma {:induction false} AdvanceOwns(plan: Plan, taken: nat, lists: seq<Option<Bucket>>,
                                       parts: seq<Option<Chains>>, a: Assembler)
    requires a.Assembling? && a.mi < |lists| && Owns(plan, taken, lists, parts, a)
    requires lists[a.mi].Some? && a.part < |lists[a.mi].value.rows|
    ensures Owns(plan, taken, Release(lists, a.mi, a.part), parts, a.(mi := a.mi + 1, ri := 0))
  {
    assert ListsFrom(plan, lists, a.mi + 1, a.part);
    Released(plan, lists, a.mi, a.part, a.part, a.mi + 1);
  }

  lemma {:induction false} AdvanceOwn(plan: Plan, taken: nat, lists: seq<Option<Bucket>>, store: seq<seq<Cell>>,
                                       parts: seq<Option<Chains>>, a: Assembler)
    requires a.Assembling? && a.mi < |lists| == |plan| && AssemblerOk(plan, taken, lists, store, parts, a)
    requires ListOk(plan, lists, a.mi, a.part) && a.ri == |lists[a.mi].value.rows[a.part]|
    ensures AssemblerOk(plan, taken, Release(lists, a.mi, a.part), store, parts, a.(mi := a.mi + 1, ri := 0))
  {
    AdvanceOwns(plan, taken, lists, parts, a);
    AdvancePlaced(plan, store, a);
  }

  lemma {:induction false} AdvanceOther(plan: Plan, s: State, i: nat, p: nat, b: Assembler)
    requires s.Pass2? && AssemblerOk(plan, s.taken, s.lists, s.store, s.parts, b)
    requires i < |s.lists| && s.lists[i].Some? && p < |s.lists[i].value.rows|
    requires b.Assembling? ==> b.part != p
    ensures AssemblerOk(plan, s.taken, Release(s.lists, i, p), s.store, s.parts, b)
  {
    if b.Assembling? {
      Released(plan, s.lists, i, p, b.part, b.mi);
    }
  }

  lemma {:induction false} AdvancePart(plan: Plan, s: State, w: nat, b: Assembler, i: nat, p: nat, q: nat)
    requires s.Pass2? && w < |s.assemblers| && q < |s.parts|
    requires PartOk(plan, s.taken, s.assemblers, s.lists, s.store, s.parts[q], q)
    requires i < |s.lists| && s.lists[i].Some? && p < |s.lists[i].value.rows| && p < s.taken
    requires Assembles(s.assemblers[w], p) && Assembles(b, p)
    ensures PartOk(plan, s.taken, s.assemblers[w := b], Release(s.lists, i, p), s.store, s.parts[q], q)
  {
    if q >= s.taken {
      Released(plan, s.lists, i, p, q, 0);
    } else if s.parts[q].None? {
      StillAssembles(s.assemblers, w, b, q);
    }
  }

  lemma {:induction false} AdvanceWorkers(c: Config, plan: Plan, s: State, w: nat, v: nat)
    requires c.Valid() && s.Pass2? && Inv2(c, plan, s) && Enabled(c, s, Advance(w)) && v < |s.assemblers|
    ensures var s' := Apply(c, s, Advance(w));
      AssemblerOk(plan, s'.taken, s'.lists, s'.store, s'.parts, s'.assemblers[v])
  {
    var a := s.assemblers[w];
    assert ListOk(plan, s.lists, a.mi, a.part);
    if v == w {
      AdvanceOwn(plan, s.taken, s.lists, s.store, s.parts, a);
    } else {
      AdvanceOther(plan, s, a.mi, a.part, s.assemblers[v]);
    }
  }

  lemma {:induction false} AdvanceParts(c: Config, plan: Plan, s: State, w: nat, p: nat)
    requires c.Valid() && s.Pass2? && Inv2(c, plan, s) && Enabled(c, s, Advance(w)) && p < c.numParts
    ensures var s' := Apply(c, s, Advance(w));
      PartOk(plan, s'.taken, s'.assemblers, s'.lists, s'.store, s'.parts[p], p)
  {
    var a, s' := s.assemblers[w], Apply(c, s, Advance(w));
    assert ListOk(plan, s.lists, a.mi, a.part);
    AdvancePart(plan, s, w, s'.assemblers[w], a.mi, a.part, p);
  }

  lemma {:induction false} AdvanceInv(c: Config, plan: Plan, s: State, w: nat)
    requires c.Valid() && s.Pass2? && Inv2(c, plan, s) && Enabled(c, s, Advance(w))
    ensures Inv2(c, plan, Apply(c, s, Advance(w)))
  {
    var s' := Apply(c, s, Advance(w));
    forall v | 0 <= v < |s'.assemblers|
      ensures AssemblerOk(plan, s'.taken, s'.lists, s'.store, s'.parts, s'.assemblers[v])
    {
      AdvanceWorkers(c, plan, s, w, v);
    }
    forall p | 0 <= p < c.numParts
      ensures PartOk(plan, s'.taken, s'.assemblers, s'.lists, s'.store, s'.parts[p], p)
    {
      AdvanceParts(c, plan, s, w, p);
    }
  }

  lemma {:induction false} InstallInv(c: Config, plan: Plan, s: State, w: nat)
    requires c.Valid() && s.Pass2? && Inv2(c, plan, s) && Enabled(c, s, Install(w))
    ensures Inv2(c, plan, Apply(c, s, Install(w)))
  {
    var a, s' := s.assemblers[w], Apply(c, s, Install(w));
    assert AssemblerOk(plan, s.taken, s.lists, s.store, s.parts, a);
    DoneFits(plan, a.part, a.mi, a.ri);
    forall v | 0 <= v < |s'.assemblers| && v != w
      ensures AssemblerOk(plan, s'.taken, s'.lists, s'.store, s'.parts, s'.assemblers[v])
    {
      assert AssemblerOk(plan, s.taken, s.lists, s.store, s.parts, s.assemblers[v]);
    }
    forall p | 0 <= p < c.numParts
      ensures PartOk(plan, s'.taken, s'.assemblers, s'.lists, s'.store, s'.parts[p], p)
    {
      assert PartOk(plan, s.taken, s.assemblers, s.lists, s.store, s.parts[p], p);
      if p != a.part && p < s.taken && s.parts[p].None? {
        StillAssembles(s.assemblers, w, Free, p);
      }
    }
  }

  lemma {:induction false} FinishInv(c: Config, plan: Plan, s: State)
    requires c.Valid() && c.workers2 > 0 && s.Pass2? && Inv2(c, plan, s) && Enabled(c, s, Finish)
    ensures var s' := Apply(c, s, Finish); s'.Built? && BuiltOk(c, plan, s'.result)
  {
    assert s.assemblers[0].Retired?;
    forall p | 0 <= p < c.numParts
      ensures s.parts[p].Some? && s.parts[p].value == ChainsOf(PartRows(plan, p), RangeStart(plan, p))
      ensures Stored(s.store, RangeStart(plan, p), PartRows(plan, p))
    {
      assert PartOk(plan, s.taken, s.assemblers, s.lists, s.store, s.parts[p], p);
    }
  }

  lemma {:induction false} StepInv(c: Config, s: State, a: Action)
    requires c.Valid() && c.workers1 > 0 && c.workers2 > 0 && Inv(c, s) && Enabled(c, s, a)
    ensures Inv(c, Apply(c, s, a))
  {
    match a
    case Claim(w) => ClaimInv(c, s, w);
    case Take(w) => TakeInv(c, s, w);
    case Publish(w) => PublishInv(c, s, w);
    case Barrier =>
      forall p: nat | p < c.numParts ensures ListsFrom(PlanOf(c), s.buckets, 0, p) {
        AllPublished(c, s, p);
      }
      BarrierInv(c, PlanOf(c), s);
    case ClaimPart(w) => ClaimPartInv(c, PlanOf(c), s, w);
    case Place(w) => PlaceInv(c, PlanOf(c), s, w);
    case Advance(w) => AdvanceInv(c, PlanOf(c), s, w);
    case Install(w) => InstallInv(c, PlanOf(c), s, w);
    case Finish => FinishInv(c, PlanOf(c), s);
  }

  /** The invariant holds along every run, whatever the interleaving. */
  lemma {:induction false} RunInv(c: Config, run: seq<Action>)
    requires c.Valid() && c.workers1 > 0 && c.workers2 > 0
    ensures Exec(c, run).Some? ==> Inv(c, Exec(c, run).value)
  {
    if run == [] {
      StartInv(c);
    } else {
      RunInv(c, run[..|run| - 1]);
      var before := Exec(c, run[..|run| - 1]);
      var a := run[|run| - 1];
      if before.Some? && Enabled(c, before.value, a) {
        StepInv(c, before.value, a);
      }
    }
  }

  // ---- What every run delivers -----------------------------------------------------

  /** What one serial drain of the whole build side visits. */
  ghost function SerialDrain(c: Config): seq<Keyed> {
    Drain(Flat(c.groups), c.key)
  }

  lemma {:induction false} PartRowsSerial(c: Config, p: nat)
    requires c.Valid() && p < c.numParts
    ensures PartRows(PlanOf(c), p) == OfPart(c, SerialDrain(c), p)
  {
    forall m: nat | m < c.NumMorsels() ensures PlansAt(c, PlanOf(c), p, m) {
      MorselExists(c, m);
    }
    PartUpToDrain(c, PlanOf(c), p, c.NumMorsels());
    RowsUpToAll(c);
  }

  /** Partition sizes add up to the whole drain. */
  lemma {:induction false} PartSizes(c: Config, rows: seq<Keyed>)
    requires c.Valid()
    ensures SizeUpTo(c, rows, c.numParts) == |rows|
  {
    if rows == [] {
      SizeOfNone(c, c.numParts);
    } else {
      PartSizes(c, rows[..|rows| - 1]);
      SizeStep(c, rows, c.numParts);
    }
  }

  ghost function SizeUpTo(c: Config, rows: seq<Keyed>, p: nat): nat
    requires c.Valid()
  {
    if p == 0 then 0 else SizeUpTo(c, rows, p - 1) + |OfPart(c, rows, p - 1)|
  }

  lemma {:induction false} SizeOfNone(c: Config, p: nat)
    requires c.Valid()
    ensures SizeUpTo(c, [], p) == 0
  {
    if p > 0 {
      SizeOfNone(c, p - 1);
    }
  }

  lemma {:induction false} SizeStep(c: Config, rows: seq<Keyed>, p: nat)
    requires c.Valid() && rows != []
    ensures SizeUpTo(c, rows, p) == SizeUpTo(c, rows[..|rows| - 1], p) +
      if Part(c.hash(rows[|rows| - 1].0), c.numParts) < p then 1 else 0
  {
    if p > 0 {
      SizeStep(c, rows, p - 1);
    }
  }

  lemma {:induction false} RangeStartIs(c: Config, plan: Plan, rows: seq<Keyed>, p: nat)
    requires c.Valid() && forall q: nat :: q < p ==> PartRows(plan, q) == OfPart(c, rows, q)
    ensures RangeStart(plan, p) == SizeUpTo(c, rows, p)
  {
    if p > 0 {
      RangeStartIs(c, plan, rows, p - 1);
    }
  }

  lemma {:induction false} PlanSize(c: Config)
    requires c.Valid()
    ensures RangeStart(PlanOf(c), c.numParts) == |SerialDrain(c)|
  {
    forall p: nat | p < c.numParts ensures PartRows(PlanOf(c), p) == OfPart(c, SerialDrain(c), p) {
      PartRowsSerial(c, p);
    }
    RangeStartIs(c, PlanOf(c), SerialDrain(c), c.numParts);
    PartSizes(c, SerialDrain(c));
  }

  /** A finished build side gives each key the payloads a serial drain gives it, in order. */
  lemma {:induction false} BuiltIsSerial(c: Config, b: Build, key: int)
    requires c.Valid() && BuiltOk(c, PlanOf(c), b)
    ensures b.Valid() && b.Matches(c.hash, key) == ByKey(SerialDrain(c), key)
  {
    BuiltValid(c, PlanOf(c), b);
    BuiltMatches(c, PlanOf(c), b, key);
    PartRowsSerial(c, Part(c.hash(key), c.numParts));
    ByKeyOfPart(c, SerialDrain(c), key);
  }

  /** Every error-free run: whatever the interleaving, worker counts, morsel size and
      partition count, the finished table gives each key exactly the payloads, in
      exactly the order, that a serial drain gives it, which with number keys are the
      pipeline's rows holding that number; and a run ends in the row-limit error only when
      more rows than an int32 can index have a key. */
  lemma {:induction false} ParallelEqualsSerial(c: Config, run: seq<Action>)
    requires c.Valid() && c.workers1 > 0 && c.workers2 > 0 && Exec(c, run).Some?
    ensures var s := Exec(c, run).value;
      && (s.TooManyRows? ==> |Sift(Flat(c.groups), HasKey(c.key))| > TWO31 - 1)
      && (s.Built? ==> |Sift(Flat(c.groups), HasKey(c.key))| == |s.result.rows| <= TWO31 - 1)
      && (s.Built? ==> s.result.Valid() && forall key ::
            && s.result.Matches(c.hash, key) == ByKey(SerialDrain(c), key)
            && s.result.Matches(c.hash, key) == SerialBuild(c.hash, c.numParts, SerialDrain(c)).Matches(c.hash, key)
            && (NumberKeys(Flat(c.groups), c.key) ==>
                  s.result.Matches(c.hash, key) == Sift(Flat(c.groups), Holding(c.key, key))))
  {
    RunInv(c, run);
    PlanSize(c);
    DrainMeans(Flat(c.groups), c.key);
    var s := Exec(c, run).value;
    if s.Built? {
      BuiltValid(c, PlanOf(c), s.result);
      forall key
        ensures s.result.Matches(c.hash, key) == ByKey(SerialDrain(c), key)
        ensures s.result.Matches(c.hash, key) == SerialBuild(c.hash, c.numParts, SerialDrain(c)).Matches(c.hash, key)
        ensures NumberKeys(Flat(c.groups), c.key) ==>
          s.result.Matches(c.hash, key) == Sift(Flat(c.groups), Holding(c.key, key))
      {
        if NumberKeys(Flat(c.groups), c.key) {
          ByKeyMeans(Flat(c.groups), c.key, key);
        }
        BuiltIsSerial(c, s.result, key);
        SerialMatches(c.hash, c.numParts, SerialDrain(c), key);
      }
    }
  }

  /** A plan leaves room for one build side only. */
  lemma {:induction false} BuiltUnique(c: Config, plan: Plan, b: Build, b': Build)
    requires BuiltOk(c, plan, b) && BuiltOk(c, plan, b')
    ensures b == b'
  {
    forall r: nat | r < |b.rows| ensures b.rows[r] == b'.rows[r] {
      var p := RangeOf(plan, c.numParts, r);
      SameRow(b.rows, b'.rows, RangeStart(plan, p), PartRows(plan, p), r);
    }
    SameTables(c, plan, b, b');
  }

  lemma {:induction false} SameTables(c: Config, plan: Plan, b: Build, b': Build)
    requires BuiltOk(c, plan, b) && BuiltOk(c, plan, b')
    ensures b.tables == b'.tables
  {
  }

  lemma {:induction false} SameRow(store: seq<seq<Cell>>, store': seq<seq<Cell>>, off: nat, rows: seq<Keyed>, r: nat)
    requires Stored(store, off, rows) && Stored(store', off, rows) && off <= r < off + |rows|
    ensures store[r] == store'[r]
  {
    assert store[off + (r - off)] == rows[r - off].1 == store'[off + (r - off)];
  }

  /** Every run that finishes leaves the very same store and tables behind. */
  lemma {:induction false} ScheduleFree(c: Config, run: seq<Action>, b: Build)
    requires c.Valid() && c.workers1 > 0 && c.workers2 > 0 && BuiltOk(c, PlanOf(c), b)
    ensures Exec(c, run).Some? && Exec(c, run).value.Built? ==> Exec(c, run).value.result == b
  {
    RunInv(c, run);
    if Exec(c, run).Some? && Exec(c, run).value.Built? {
      BuiltUnique(c, PlanOf(c), Exec(c, run).value.result, b);
    }
  }

  /** No morsel drains more than the whole build side. */
  lemma {:induction false} MorselWithin(c: Config, start: nat)
    requires start <= |c.groups|
    ensures |Drain(c.MorselRows(start), c.key)| <= |SerialDrain(c)|
  {
    var stop := c.Stop(start);
    assert c.groups == c.groups[..start] + c.groups[start..stop] + c.groups[stop..];
    FlatConcat(c.groups[..start] + c.groups[start..stop], c.groups[stop..]);
    FlatConcat(c.groups[..start], c.groups[start..stop]);
    DrainConcat(Flat(c.groups[..start]) + c.MorselRows(start), Flat(c.groups[stop..]), c.key);
    DrainConcat(Flat(c.groups[..start]), c.MorselRows(start), c.key);
  }

  lemma {:induction false} BuiltValid(c: Config, plan: Plan, b: Build)
    requires c.Valid() && BuiltOk(c, plan, b)
    ensures b.Valid()
  {
    forall p | 0 <= p < |b.tables| ensures InRange(b.tables[p], |b.rows|) {
      GatherChains(b.rows, PartRows(plan, p), RangeStart(plan, p), 0);
    }
  }

  lemma {:induction false} BuiltMatches(c: Config, plan: Plan, b: Build, key: int)
    requires c.Valid() && BuiltOk(c, plan, b) && b.Valid()
    ensures b.Matches(c.hash, key) == ByKey(PartRows(plan, Part(c.hash(key), c.numParts)), key)
  {
    var p := Part(c.hash(key), c.numParts);
    GatherChains(b.rows, PartRows(plan, p), RangeStart(plan, p), key);
  }

  ghost predicate Holds(b: Build, p: nat, k: int, j: nat, r: int) {
    p < |b.tables| && k in b.tables[p] && j < |b.tables[p][k]| && b.tables[p][k][j] == r
  }

  /** Each stored row is in some partition's chain... */
  lemma {:induction false} EachRowInAChain(c: Config, run: seq<Action>, r: nat) returns (p: nat, k: int, j: nat)
    requires c.Valid() && c.workers1 > 0 && c.workers2 > 0 && Exec(c, run).Some? && Exec(c, run).value.Built?
    requires r < |Exec(c, run).value.result.rows|
    ensures Holds(Exec(c, run).value.result, p, k, j, r)
  {
    RunInv(c, run);
    p := RangeOf(PlanOf(c), c.numParts, r);
    k, j := FindInChains(PartRows(PlanOf(c), p), RangeStart(PlanOf(c), p), r);
  }

  /** ...and in no second place, of the same chain or any other. */
  lemma {:induction false} NoRowInTwoChains(c: Config, run: seq<Action>, r: int, p: nat, k: int, j: nat, q: nat,
                                            l: int, i: nat)
    requires c.Valid() && c.workers1 > 0 && c.workers2 > 0 && Exec(c, run).Some? && Exec(c, run).value.Built?
    requires Holds(Exec(c, run).value.result, p, k, j, r) && Holds(Exec(c, run).value.result, q, l, i, r)
    ensures p == q && k == l && j == i
  {
    RunInv(c, run);
    var plan := PlanOf(c);
    InItsRange(PartRows(plan, p), RangeStart(plan, p), k, j);
    InItsRange(PartRows(plan, q), RangeStart(plan, q), l, i);
    RangesMeet(plan, p, q, r);
    SamePlace(PartRows(plan, p), RangeStart(plan, p), k, j, l, i);
  }

  lemma {:induction false} RangesMeet(plan: Plan, p: nat, q: nat, r: int)
    requires RangeStart(plan, p) <= r < RangeStart(plan, p) + |PartRows(plan, p)|
    requires RangeStart(plan, q) <= r < RangeStart(plan, q) + |PartRows(plan, q)|
    ensures p == q
  {
    if p < q {
      RangesApart(plan, p, q);
    } else if q < p {
      RangesApart(plan, q, p);
    }
  }

  lemma {:induction false} FindInChains(rows: seq<Keyed>, off: int, r: int) returns (k: int, j: nat)
    requires off <= r < off + |rows|
    ensures var m := ChainsOf(rows, off); k in m && j < |m[k]| && m[k][j] == r
  {
    ChainsPartition(rows, off);
    var i := r - off;
    k := rows[i].0;
    var chain := ChainsOf(rows, off)[k];
    assert off + i in chain;
    j :| 0 <= j < |chain| && chain[j] == off + i;
  }

  lemma {:induction false} InItsRange(rows: seq<Keyed>, off: int, k: int, j: nat)
    requires var m := ChainsOf(rows, off); k in m && j < |m[k]|
    ensures var r := ChainsOf(rows, off)[k][j]; off <= r < off + |rows| && rows[r - off].0 == k
  {
    ChainsPartition(rows, off);
  }

  lemma {:induction false} SamePlace(rows: seq<Keyed>, off: int, k: int, j: nat, l: int, i: nat)
    requires var m := ChainsOf(rows, off); k in m && j < |m[k]| && l in m && i < |m[l]| && m[k][j] == m[l][i]
    ensures k == l && j == i
  {
    ChainsPartition(rows, off);
    InItsRange(rows, off, k, j);
    InItsRange(rows, off, l, i);
  }

  lemma {:induction false} RangeOf(plan: Plan, n: nat, r: nat) returns (p: nat)
    requires r < RangeStart(plan, n)
    ensures p < n && RangeStart(plan, p) <= r < RangeStart(plan, p) + |PartRows(plan, p)|
  {
    if r >= RangeStart(plan, n - 1) {
      p := n - 1;
    } else {
      p := RangeOf(plan, n - 1, r);
    }
  }

  // ---- No two workers write the same location -------------------------------------------

  datatype Loc = BucketLoc(m: nat) | ListLoc(m: nat, p: nat) | RowLoc(r: nat) | PartLoc(p: nat)

  /** The shared locations worker w may write in state s. */
  ghost predicate MayWrite(c: Config, s: State, w: nat, loc: Loc)
    requires c.Valid()
  {
    match s
    case Pass1(_, ds, _) => w < |ds| && ds[w].Draining? && loc == BucketLoc(c.IndexOf(ds[w].start))
    case Pass2(_, ws, _, _, _, _) =>
      && w < |ws| && ws[w].Assembling?
      && (match loc
          case BucketLoc(_) => false
          case ListLoc(_, p) => p == ws[w].part
          case PartLoc(p) => p == ws[w].part
          case RowLoc(r) =>
            RangeStart(PlanOf(c), ws[w].part) <= r < RangeStart(PlanOf(c), ws[w].part) +
                |PartRows(PlanOf(c), ws[w].part)|)
    case TooManyRows => false
    case Built(_) => false
  }

  /** The step changed what a shared location holds. */
  ghost predicate Changed(s: State, s': State, loc: Loc) {
    match loc
    case BucketLoc(m) => s.Pass1? && s'.Pass1? && m < |s.buckets| == |s'.buckets| && s.buckets[m] != s'.buckets[m]
    case ListLoc(m, p) =>
      && s.Pass2? && s'.Pass2? && m < |s.lists| == |s'.lists|
      && ListAt(s.lists[m], p) != ListAt(s'.lists[m], p)
    case RowLoc(r) => s.Pass2? && s'.Pass2? && r < |s.store| == |s'.store| && s.store[r] != s'.store[r]
    case PartLoc(p) => s.Pass2? && s'.Pass2? && p < |s.parts| == |s'.parts| && s.parts[p] != s'.parts[p]
  }

  function ListAt(b: Option<Bucket>, p: nat): Option<seq<(int, nat)>> {
    if b.Some? && p < |b.value.rows| then Some(b.value.rows[p]) else None
  }

  /** In every reachable state, distinct workers own disjoint locations. */
  lemma {:induction false} RaceFree(c: Config, run: seq<Action>, w: nat, v: nat, loc: Loc)
    requires c.Valid() && c.workers1 > 0 && c.workers2 > 0 && Exec(c, run).Some? && w != v
    ensures !(MayWrite(c, Exec(c, run).value, w, loc) && MayWrite(c, Exec(c, run).value, v, loc))
  {
    RunInv(c, run);
    var s := Exec(c, run).value;
    match s
    case Pass1(claims, ds, buckets) =>
      if w < |ds| && v < |ds| && ds[w].Draining? && ds[v].Draining? {
        assert DrainerOk(c, claims, buckets, ds[w]) && DrainerOk(c, claims, buckets, ds[v]);
        assert ds[w].start != ds[v].start by {
          assert w < v || v < w;
        }
      }
    case Pass2(_, ws, _, _, _, _) =>
      if w < |ws| && v < |ws| && ws[w].Assembling? && ws[v].Assembling? {
        assert ws[w].part != ws[v].part by {
          assert w < v || v < w;
        }
        if loc.RowLoc? && MayWrite(c, s, w, loc) {
          OtherRange(PlanOf(c), ws[w].part, ws[v].part, loc.r, |PartRows(PlanOf(c), ws[v].part)|);
        }
      }
    case TooManyRows =>
    case Built(_) =>
  }

  function Worker(a: Action): Option<nat> {
    match a
    case Barrier => None
    case Finish => None
    case Claim(w) => Some(w)
    case Take(w) => Some(w)
    case Publish(w) => Some(w)
    case ClaimPart(w) => Some(w)
    case Place(w) => Some(w)
    case Advance(w) => Some(w)
    case Install(w) => Some(w)
  }

  /** A worker's step changes no shared location but its own. */
  lemma {:induction false} WritesOwn(c: Config, run: seq<Action>, a: Action, loc: Loc)
    requires c.Valid() && c.workers1 > 0 && c.workers2 > 0 && Exec(c, run).Some? && Worker(a).Some?
    requires Enabled(c, Exec(c, run).value, a) && Changed(Exec(c, run).value, Apply(c, Exec(c, run).value, a), loc)
    ensures MayWrite(c, Exec(c, run).value, Worker(a).value, loc)
  {
    RunInv(c, run);
    if a.Place? {
      PlaceAssembler(c, PlanOf(c), Exec(c, run).value, a.w);
    }
  }

  /** No reachable state is stuck: until the build is finished (or refused), some
      worker or the coordinator can step. */
  lemma {:induction false} NeverStuck(c: Config, run: seq<Action>) returns (a: Action)
    requires c.Valid() && c.workers1 > 0 && c.workers2 > 0 && Exec(c, run).Some?
    ensures var s := Exec(c, run).value; s.Pass1? || s.Pass2? ==> Enabled(c, s, a)
  {
    RunInv(c, run);
    var s := Exec(c, run).value;
    a := Finish;
    match s
    case Pass1(_, _, _) => a := NextDrain(c, s);
    case Pass2(_, _, _, _, _, _) => a := NextAssemble(c, PlanOf(c), s);
    case TooManyRows =>
    case Built(_) =>
  }

  lemma {:induction false} NextDrain(c: Config, s: State) returns (a: Action)
    requires c.Valid() && s.Pass1? && Inv1(c, s)
    ensures Enabled(c, s, a)
  {
    if w: nat :| w < |s.drainers| && !s.drainers[w].Drained? {
      assert DrainerOk(c, s.claims, s.buckets, s.drainers[w]);
      a := match s.drainers[w]
        case Idle => Claim(w)
        case Draining(start, pos, _) => if pos < |c.MorselRows(start)| then Take(w) else Publish(w)
        case Drained => Barrier;
    } else {
      a := Barrier;
    }
  }

  lemma {:induction false} NextAssemble(c: Config, plan: Plan, s: State) returns (a: Action)
    requires c.Valid() && s.Pass2? && Inv2(c, plan, s)
    ensures Enabled(c, s, a)
  {
    if w: nat :| w < |s.assemblers| && !s.assemblers[w].Retired? {
      var x := s.assemblers[w];
      assert AssemblerOk(plan, s.taken, s.lists, s.store, s.parts, x);
      if x.Free? {
        a := ClaimPart(w);
      } else if x.mi == |s.lists| {
        a := Install(w);
      } else {
        assert ListOk(plan, s.lists, x.mi, x.part);
        a := if x.ri < |PartOf(plan, x.part, x.mi)| then Place(w) else Advance(w);
        if x.ri < |PartOf(plan, x.part, x.mi)| {
          DoneFits(plan, x.part, x.mi, x.ri + 1);
          RangesApart(plan, x.part, c.numParts);
        }
      }
    } else {
      a := Finish;
    }
  }
}
