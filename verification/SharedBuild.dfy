/** The build sides of a hash join as objects (exec/parallel_join.go, exec/join.go): one
    row store and one table per radix partition, filled by a serial drain or assembled
    from the per-morsel stores of a parallel one. */
module SharedBuilds {
  import opened Options
  import opened Batches
  import opened RowStores
  import opened JoinTables
  import opened SharedTables
  import opened Arith
  import opened Seqs
  import opened ParallelBuild
  import Scans

  /** The source's read-only handle on a finished build side. */
  datatype SharedHashTable = SharedHashTable(store: RowStore, parts: seq<JoinHashTable>)

  // ---- What the objects mean ---------------------------------------------------------

  /** The payloads of a store, by row index. */
  ghost function StoredRows(store: RowStore): (rows: seq<seq<Cell>>)
    requires store.Shaped()
    reads store, store.values, store.nulls, store.strs
    ensures |rows| == store.n && forall r :: 0 <= r < |rows| ==> |rows[r]| == store.numCols
  {
    seq(store.n, r requires 0 <= r < store.n && store.Shaped() reads store, store.values, store.nulls, store.strs =>
      store.Row(r))
  }

  /** A table of this store and hash that is valid over these links. */
  ghost predicate TableOn(t: JoinHashTable, store: RowStore, hash: int -> Hash, next: seq<int>)
    reads t, t.slots
  {
    var agreed := t.store == store && t.hash == hash && t.Probing() && t.numRow == |t.owner| &&
      Linked(next, t.chains, t.owner);
    agreed
  }

  /** The tables of a build side agree on their store and hash. */
  ghost predicate Tables(store: RowStore, parts: seq<JoinHashTable>, hash: int -> Hash)
    reads store, store.next, parts, set t | t in parts :: t.slots
  {
    && |parts| > 0 && store.Shaped()
    && forall p :: 0 <= p < |parts| ==> TableOn(parts[p], store, hash, store.next[..store.n])
  }

  ghost function View(store: RowStore, parts: seq<JoinHashTable>): Build
    requires store.Shaped()
    reads store, store.values, store.nulls, store.strs, parts
  {
    Build(StoredRows(store), PartChains(parts))
  }

  ghost function PartChains(parts: seq<JoinHashTable>): (chains: seq<Chains>)
    reads parts
    ensures |chains| == |parts|
  {
    seq(|parts|, p requires 0 <= p < |parts| reads parts => parts[p].chains)
  }

  lemma {:induction false} ViewValid(store: RowStore, parts: seq<JoinHashTable>, hash: int -> Hash)
    requires Tables(store, parts, hash)
    ensures View(store, parts).Valid()
  {
    var b := View(store, parts);
    forall p | 0 <= p < |parts| ensures InRange(b.tables[p], |b.rows|) {
      assert TableOn(parts[p], store, hash, store.next[..store.n]);
    }
  }

  ghost predicate Separate(t: JoinHashTable, u: JoinHashTable)
    reads t, u
  {
    var apart := t != u && t.slots != u.slots && t.owner.Keys !! u.owner.Keys;
    apart
  }

  /** Tables over one store share neither a slot array nor a row. */
  ghost predicate Apart(parts: seq<JoinHashTable>)
    reads parts
  {
    forall p, q :: 0 <= p < |parts| && 0 <= q < |parts| && p != q ==> Separate(parts[p], parts[q])
  }

  // ---- Visiting build rows -----------------------------------------------------------

  /** Drained rows carry the key of their own key column and fit the schema. */
  ghost predicate Visited(rows: seq<Keyed>, key: nat, isStr: seq<bool>) {
    forall i :: 0 <= i < |rows| ==> KeyAt(rows[i].1, key) == Some(rows[i].0) && Typed(rows[i].1, isStr)
  }

  ghost predicate AllTyped(rows: seq<seq<Cell>>, isStr: seq<bool>) {
    forall i :: 0 <= i < |rows| ==> Typed(rows[i], isStr)
  }

  lemma {:induction false} DrainVisited(rows: seq<seq<Cell>>, key: nat, isStr: seq<bool>)
    requires AllTyped(rows, isStr)
    ensures Visited(Drain(rows, key), key, isStr) && |Drain(rows, key)| <= |rows|
  {
    if rows != [] {
      DrainVisited(rows[..|rows| - 1], key, isStr);
    }
  }

  lemma {:induction false} DrainSnoc(seen: seq<seq<Cell>>, row: seq<Cell>, key: nat)
    ensures Drain(seen + [row], key) ==
      Drain(seen, key) + match KeyAt(row, key) { case None => [] case Some(k) => [(k, row)] }
  {
    assert (seen + [row])[..|seen|] == seen;
  }

  method VisitBatch(batch: Batch, key: nat) returns (visited: seq<Keyed>)
    requires key < |batch.vectors| && batch.Valid(|batch.vectors|)
    ensures visited == Drain(Rows(batch), key)
  {
    visited := [];
    ghost var rows := Rows(batch);
    for i := 0 to batch.RowCount()
      invariant visited == Drain(rows[..i], key)
    {
      var r := batch.RowIndex(i);
      assert rows[..i + 1] == rows[..i] + [rows[i]];
      DrainSnoc(rows[..i], rows[i], key);
      var k := KeyOf(batch.vectors[key][r]);
      assert rows[i] == batch.RowAt(r);
      if k.Some? {
        visited := visited + [(k.value, batch.RowAt(r))];
      }
    }
    assert rows[..|rows|] == rows;
  }

  /** forEachBuildRow: the calls its visitor receives. Every batch's rows in selection
      order, less those whose key is NULL; each call passes the number in the key cell. */
  method ForEachBuildRow(batches: seq<Batch>, key: nat, width: nat) returns (visited: seq<Keyed>)
    requires key < width && StreamOf(batches, width)
    ensures visited == Drain(AllRows(batches), key)
    ensures PayloadsOf(visited) == Sift(AllRows(batches), HasKey(key))
    ensures forall i :: 0 <= i < |visited| ==> CarriesKey(visited[i], key)
  {
    visited := [];
    for b := 0 to |batches|
      invariant visited == Drain(AllRows(batches[..b]), key)
    {
      var more := VisitBatch(batches[b], key);
      AllRowsSnoc(batches, b);
      DrainConcat(AllRows(batches[..b]), Rows(batches[b]), key);
      visited := visited + more;
    }
    assert batches[..|batches|] == batches;
    DrainMeans(AllRows(batches), key);
  }

  // ---- The serial, partitioned build ----------------------------------------------------

  /** A table presized for `room` keys rehashes only once more than `room` rows are in it. */
  ghost predicate Unrehashed(t: JoinHashTable, room: nat)
    reads t
  {
    var kept := t.numRow <= room ==> t.rehashes == 0 && room <= t.growAt;
    kept
  }

  /** A store presized for `rows` rows grows only once more than that are in it. */
  ghost predicate Ungrown(store: RowStore, rows: nat)
    reads store
  {
    var kept := store.n <= rows ==> store.grows == 0 && rows <= store.capRows;
    kept
  }

  function StoreIn(b: Build, cells: seq<Cell>): Build {
    b.(rows := b.rows + [cells])
  }

  function LinkIn(b: Build, p: nat, key: int, r: int): Build
    requires p < |b.tables|
  {
    b.(tables := b.tables[p := Append(b.tables[p], key, r)])
  }

  /** One more drained row is stored and linked after those before it. */
  lemma {:induction false} SerialBuildStep(hash: int -> Hash, numParts: nat, drained: seq<Keyed>, i: nat, p: nat)
    requires numParts > 0 && i < |drained| && p == Part(hash(drained[i].0), numParts)
    ensures var b := SerialBuild(hash, numParts, drained[..i]);
      && |b.rows| == i
      && SerialBuild(hash, numParts, drained[..i + 1]) == LinkIn(StoreIn(b, drained[i].1), p, drained[i].0, i)
  {
    assert drained[..i + 1][..i] == drained[..i];
    SerialBuildSize(hash, numParts, drained[..i]);
  }

  lemma {:induction false} SerialBuildSize(hash: int -> Hash, numParts: nat, drained: seq<Keyed>)
    requires numParts > 0
    ensures |SerialBuild(hash, numParts, drained).rows| == |drained|
  {
    if drained != [] {
      SerialBuildSize(hash, numParts, drained[..|drained| - 1]);
    }
  }

  /** A table outlives any change of links that leaves its own rows alone. */
  lemma {:induction false} KeepsTable(t: JoinHashTable, store: RowStore, hash: int -> Hash, next: seq<int>,
                                      next': seq<int>)
    requires TableOn(t, store, hash, next) && |next| <= |next'|
    requires forall r :: r in t.owner && 0 <= r < |next| ==> next'[r] == next[r]
    ensures TableOn(t, store, hash, next')
  {
    LinkedFrame(next, next', t.chains, t.owner);
  }

  lemma {:induction false} NewRow(t: JoinHashTable, store: RowStore, hash: int -> Hash, next: seq<int>)
    requires TableOn(t, store, hash, next)
    ensures |next| !in t.owner && t.keys <= t.numRow
  {
    KeysBelowRows(|next|, t.chains, t.owner);
    OwnerBound(|next|, t.chains, t.owner);
  }

  /** The store and its tables are valid and mean b. */
  ghost predicate Holds(store: RowStore, parts: seq<JoinHashTable>, hash: int -> Hash, b: Build)
    reads store, store.values, store.nulls, store.strs, store.next, parts, set t | t in parts :: t.slots
  {
    var holds := store.Valid() && Tables(store, parts, hash) && Apart(parts) && View(store, parts) == b;
    holds
  }

  /** No table has linked row r. */
  ghost predicate Unlinked(parts: seq<JoinHashTable>, r: int)
    reads parts
  {
    forall p :: 0 <= p < |parts| ==> r !in parts[p].owner
  }

  /** Appending a row keeps every table over the store as it was. */
  method StoreBuildRow(store: RowStore, parts: seq<JoinHashTable>, hash: int -> Hash, cells: seq<Cell>,
                       ghost b: Build, ghost rows: nat)
    returns (r: Option<nat>)
    requires Holds(store, parts, hash, b) && Typed(cells, store.isStr)
    modifies store, store.values, store.nulls, store.strs, store.next
    ensures store.Rehoused()
    ensures r.None? <==> |b.rows| >= MAX_BUILD_ROWS
    ensures r.Some? ==> r.value == |b.rows| && Unlinked(parts, |b.rows|) && Holds(store, parts, hash, StoreIn(b, cells))
    ensures r.Some? && old(Ungrown(store, rows)) ==> Ungrown(store, rows)
  {
    ghost var next := store.next[..store.n];
    r := store.AppendFrom(cells);
    assert next <= store.next[..store.n];
    forall p | 0 <= p < |parts|
      ensures TableOn(parts[p], store, hash, store.next[..store.n]) && |next| !in parts[p].owner
    {
      NewRow(parts[p], store, hash, next);
      KeepsTable(parts[p], store, hash, next, store.next[..store.n]);
    }
  }

  /** Inserting a row into one table keeps the others. */
  method InsertApart(store: RowStore, parts: seq<JoinHashTable>, hash: int -> Hash, p: nat, key: int, r: nat)
    requires store.Valid() && Tables(store, parts, hash) && Apart(parts) && p < |parts| && r < store.n
    requires Unlinked(parts, r)
    modifies parts[p], parts[p].slots, store.next
    ensures Tables(store, parts, hash)
    ensures fresh(parts[p].slots) || parts[p].slots == old(parts[p].slots)
    ensures PartChains(parts) == old(PartChains(parts))[p := Append(old(parts[p].chains), key, r)]
    ensures parts[p].owner.Keys == old(parts[p].owner.Keys) + {r}
    ensures old(parts[p].keys) < old(parts[p].growAt) ==>
      parts[p].rehashes == old(parts[p].rehashes) && parts[p].growAt == old(parts[p].growAt)
    ensures parts[p].numRow == old(parts[p].numRow) + 1
  {
    var t := parts[p];
    ghost var next, mine := store.next[..store.n], t.owner.Keys;
    forall q | 0 <= q < |parts| && q != p ensures parts[q].owner.Keys !! mine && r !in parts[q].owner {
      assert Separate(t, parts[q]);
    }
    t.Insert(key, r);
    ghost var next' := store.next[..store.n];
    assert forall i :: 0 <= i < |next| && i != r && i !in mine ==> next'[i] == next[i];
    forall q | 0 <= q < |parts| && q != p ensures TableOn(parts[q], store, hash, next') {
      KeepsTable(parts[q], store, hash, next, next');
    }
  }

  /** Linking a row into its key's partition. */
  method LinkBuildRow(store: RowStore, parts: seq<JoinHashTable>, hash: int -> Hash, p: nat, key: int, r: nat,
                      ghost b: Build, ghost room: nat)
    requires Holds(store, parts, hash, b) && p < |parts| && r < |b.rows| && Unlinked(parts, r)
    modifies parts[p], parts[p].slots, store.next
    ensures fresh(parts[p].slots) || parts[p].slots == old(parts[p].slots)
    ensures Holds(store, parts, hash, LinkIn(b, p, key, r))
    ensures old(Unrehashed(parts[p], room)) ==> Unrehashed(parts[p], room)
  {
    NewRow(parts[p], store, hash, store.next[..store.n]);
    InsertApart(store, parts, hash, p, key, r);
    forall q | 0 <= q < |parts| && q != p ensures Separate(parts[p], parts[q]) && Separate(parts[q], parts[p]) {
      assert old(Separate(parts[p], parts[q]));
    }
    assert Apart(parts) && store.Valid();
  }

  /** The serial build's visitor: stores the row and links it in partition p. */
  method AddBuildRow(store: RowStore, parts: seq<JoinHashTable>, hash: int -> Hash, p: nat, key: int, cells: seq<Cell>,
                     ghost b: Build, ghost rows: nat, ghost room: nat)
    returns (ok: bool)
    requires Holds(store, parts, hash, b) && Typed(cells, store.isStr) && p < |parts|
    modifies store, store.values, store.nulls, store.strs, store.next, parts[p], parts[p].slots
    ensures store.Rehoused() && (fresh(parts[p].slots) || parts[p].slots == old(parts[p].slots))
    ensures ok <==> |b.rows| < MAX_BUILD_ROWS
    ensures ok ==> Holds(store, parts, hash, LinkIn(StoreIn(b, cells), p, key, |b.rows|))
    ensures ok && old(Ungrown(store, rows)) ==> Ungrown(store, rows)
    ensures ok && old(Unrehashed(parts[p], room)) ==> Unrehashed(parts[p], room)
  {
    var r := StoreBuildRow(store, parts, hash, cells, b, rows);
    if r.None? {
      return false;
    }
    LinkBuildRow(store, parts, hash, p, key, r.value, StoreIn(b, cells), room);
    return true;
  }

  /** An empty table presized for this many keys. */
  ghost predicate Blank(t: JoinHashTable, store: RowStore, hash: int -> Hash, keys: nat, next: seq<int>)
    reads t, t.slots
  {
    var blank := TableOn(t, store, hash, next) && t.chains == map[] && t.owner == map[] && Unrehashed(t, keys);
    blank
  }

  method NewTable(store: RowStore, hash: int -> Hash, keys: nat) returns (t: JoinHashTable)
    requires store.Shaped() && keys <= MAX_BUILD_ROWS
    ensures fresh(t) && fresh(t.slots) && Blank(t, store, hash, keys, store.next[..store.n])
  {
    t := new JoinHashTable(hash, store, keys);
  }

  /** Empty tables over an empty store mean the empty build. */
  lemma {:induction false} BlankBuild(store: RowStore, parts: seq<JoinHashTable>, hash: int -> Hash, keys: nat)
    requires store.Valid() && store.n == 0 && |parts| > 0
    requires forall p :: 0 <= p < |parts| ==> Blank(parts[p], store, hash, keys, store.next[..store.n])
    requires forall p, q :: 0 <= p < |parts| && 0 <= q < |parts| && p != q ==> parts[p].slots != parts[q].slots
    ensures Holds(store, parts, hash, SerialBuild(hash, |parts|, []))
  {
    forall p, q | 0 <= p < |parts| && 0 <= q < |parts| && p != q ensures Separate(parts[p], parts[q]) {
      assert Blank(parts[p], store, hash, keys, store.next[..store.n]);
    }
    assert PartChains(parts) == seq(|parts|, _ => map[]);
  }

  /** numParts empty tables over one store. */
  method NewTables(store: RowStore, hash: int -> Hash, numParts: nat, keys: nat) returns (parts: seq<JoinHashTable>)
    requires store.Valid() && store.n == 0 && numParts > 0 && keys <= MAX_BUILD_ROWS
    ensures |parts| == numParts && Holds(store, parts, hash, SerialBuild(hash, numParts, []))
    ensures forall p :: 0 <= p < |parts| ==> fresh(parts[p]) && fresh(parts[p].slots) && Unrehashed(parts[p], keys)
  {
    parts := [];
    for i := 0 to numParts
      invariant |parts| == i
      invariant forall p :: 0 <= p < i ==> fresh(parts[p]) && fresh(parts[p].slots)
      invariant forall p :: 0 <= p < i ==> Blank(parts[p], store, hash, keys, store.next[..store.n])
      invariant forall p, q :: 0 <= p < i && 0 <= q < i && p != q ==> parts[p].slots != parts[q].slots
    {
      var t := NewTable(store, hash, keys);
      parts := parts + [t];
    }
    BlankBuild(store, parts, hash, keys);
  }

  /** Nothing has outgrown what it was presized for. */
  ghost predicate Presized(store: RowStore, parts: seq<JoinHashTable>, rows: nat, keysPerPart: nat)
    reads store, parts
  {
    Ungrown(store, rows) && forall p :: 0 <= p < |parts| ==> Unrehashed(parts[p], keysPerPart)
  }

  /** `steps[i]` is the build side after the first i drained rows. */
  ghost predicate StepsOf(steps: seq<Build>, hash: int -> Hash, numParts: nat, drained: seq<Keyed>) {
    && numParts > 0 && |steps| == |drained| + 1
    && forall i :: 0 <= i < |drained| ==> StepAt(steps, hash, numParts, drained, i)
  }

  ghost predicate StepAt(steps: seq<Build>, hash: int -> Hash, numParts: nat, drained: seq<Keyed>, i: nat)
    requires numParts > 0 && i < |drained| < |steps|
  {
    var p := Part(hash(drained[i].0), numParts);
    && |steps[i].rows| == i && |steps[i].tables| == numParts
    && steps[i + 1] == LinkIn(StoreIn(steps[i], drained[i].1), p, drained[i].0, i)
  }

  ghost function Steps(hash: int -> Hash, numParts: nat, drained: seq<Keyed>): (steps: seq<Build>)
    requires numParts > 0
    ensures StepsOf(steps, hash, numParts, drained)
    ensures steps[0] == SerialBuild(hash, numParts, []) && steps[|drained|] == SerialBuild(hash, numParts, drained)
  {
    var steps := seq(|drained| + 1, i requires 0 <= i <= |drained| => SerialBuild(hash, numParts, drained[..i]));
    assert StepsOf(steps, hash, numParts, drained) by {
      forall i | 0 <= i < |drained| ensures StepAt(steps, hash, numParts, drained, i) {
        SerialBuildStep(hash, numParts, drained, i, Part(hash(drained[i].0), numParts));
      }
    }
    assert drained[..0] == [] && drained[..|drained|] == drained;
    steps
  }

  /** The objects mean b and have not outgrown what they were presized for. */
  ghost predicate HoldsWithin(store: RowStore, parts: seq<JoinHashTable>, hash: int -> Hash, b: Build, rows: nat,
                              keysPerPart: nat)
    reads store, store.values, store.nulls, store.strs, store.next, parts, set t | t in parts :: t.slots
  {
    var ok := Holds(store, parts, hash, b) && Presized(store, parts, rows, keysPerPart);
    ok
  }

  /** The visitor's call for the i-th visited row. */
  method VisitRow(store: RowStore, parts: seq<JoinHashTable>, hash: int -> Hash, visited: seq<Keyed>, i: nat,
                  ghost steps: seq<Build>, ghost rows: nat, ghost keysPerPart: nat)
    returns (ok: bool)
    requires i < |visited| && Typed(visited[i].1, store.isStr) && StepsOf(steps, hash, |parts|, visited)
    requires HoldsWithin(store, parts, hash, steps[i], rows, keysPerPart)
    modifies store, store.values, store.nulls, store.strs, store.next
    modifies parts[Part(hash(visited[i].0), |parts|)], parts[Part(hash(visited[i].0), |parts|)].slots
    ensures store.Rehoused() && (ok <==> i < MAX_BUILD_ROWS)
    ensures forall q :: 0 <= q < |parts| ==> fresh(parts[q].slots) || parts[q].slots == old(parts[q].slots)
    ensures ok ==> HoldsWithin(store, parts, hash, steps[i + 1], rows, keysPerPart)
  {
    var p := Part(hash(visited[i].0), |parts|);
    assert StepAt(steps, hash, |parts|, visited, i);
    ok := AddBuildRow(store, parts, hash, p, visited[i].0, visited[i].1, steps[i], rows, keysPerPart);
  }

  /** BuildSharedHashTableRadix: a serial drain into numParts tables over one store. It
      means the serial build for every partition count. The store grows only when more
      rows are drained than it was presized for, a table only when more rows land in its
      partition than it was presized for. */
  method BuildRadix(hash: int -> Hash, isStr: seq<bool>, batches: seq<Batch>, key: nat, numParts: nat,
                    presize: nat, keysPerPart: nat)
    returns (built: Option<SharedHashTable>)
    requires key < |isStr| && numParts > 0 && presize <= MAX_BUILD_ROWS && keysPerPart <= MAX_BUILD_ROWS
    requires StreamOf(batches, |isStr|) && AllTyped(AllRows(batches), isStr)
    ensures built.Some? <==> |Sift(AllRows(batches), HasKey(key))| <= TWO31 - 1
    ensures built.Some? ==>
      && var (store, parts, b) :=
           (built.value.store, built.value.parts, SerialBuild(hash, numParts, Drain(AllRows(batches), key)));
      && |parts| == numParts && HoldsWithin(store, parts, hash, b, presize, keysPerPart)
  {
    var visited := ForEachBuildRow(batches, key, |isStr|);
    DrainMeans(AllRows(batches), key);
    DrainVisited(AllRows(batches), key, isStr);
    built := FillRadix(hash, isStr, visited, numParts, presize, keysPerPart, Steps(hash, numParts, visited));
  }

  /** newSharedHashTable: numParts empty partitions over one empty store. */
  method NewShared(hash: int -> Hash, isStr: seq<bool>, numParts: nat, presize: nat, keysPerPart: nat)
    returns (store: RowStore, parts: seq<JoinHashTable>)
    requires numParts > 0 && presize <= MAX_BUILD_ROWS && keysPerPart <= MAX_BUILD_ROWS
    ensures fresh(store) && fresh(store.values) && fresh(store.nulls) && fresh(store.strs) && fresh(store.next)
    ensures store.isStr == isStr && |parts| == numParts
    ensures forall p :: 0 <= p < |parts| ==> fresh(parts[p]) && fresh(parts[p].slots)
    ensures HoldsWithin(store, parts, hash, SerialBuild(hash, numParts, []), presize, keysPerPart)
  {
    store := new RowStore(isStr, presize);
    parts := NewTables(store, hash, numParts, keysPerPart);
  }

  method FillRadix(hash: int -> Hash, isStr: seq<bool>, visited: seq<Keyed>, numParts: nat, presize: nat,
                   keysPerPart: nat,
                   ghost steps: seq<Build>)
    returns (built: Option<SharedHashTable>)
    requires presize <= MAX_BUILD_ROWS && keysPerPart <= MAX_BUILD_ROWS
    requires forall i :: 0 <= i < |visited| ==> Typed(visited[i].1, isStr)
    requires StepsOf(steps, hash, numParts, visited) && steps[0] == SerialBuild(hash, numParts, [])
    ensures built.Some? <==> |visited| <= MAX_BUILD_ROWS
    ensures built.Some? ==>
      && |built.value.parts| == numParts
      && HoldsWithin(built.value.store, built.value.parts, hash, steps[|visited|], presize, keysPerPart)
  {
    var store, parts := NewShared(hash, isStr, numParts, presize, keysPerPart);
    for i := 0 to |visited|
      invariant fresh(store) && fresh(store.values) && fresh(store.nulls) && fresh(store.strs) && fresh(store.next)
      invariant forall p :: 0 <= p < |parts| ==> fresh(parts[p].slots)
      invariant HoldsWithin(store, parts, hash, steps[i], presize, keysPerPart) && i <= MAX_BUILD_ROWS
    {
      var ok := VisitRow(store, parts, hash, visited, i, steps, presize, keysPerPart);
      if !ok {
        return None;
      }
    }
    return Some(SharedHashTable(store, parts));
  }

  // ---- Pass 1 of the parallel build ----------------------------------------------------

  /** One morsel's own store, and per partition its (key, row) pairs in morsel order. */
  datatype MorselBucket = MorselBucket(store: RowStore, rows: seq<seq<(int, nat)>>)

  ghost function BucketView(b: MorselBucket): Bucket
    requires b.store.Shaped()
    reads b.store, b.store.values, b.store.nulls, b.store.strs
  {
    Bucket(StoredRows(b.store), b.rows)
  }

  method AppendRow(store: RowStore, cells: seq<Cell>) returns (r: Option<nat>)
    requires store.Valid() && Typed(cells, store.isStr)
    modifies store, store.values, store.nulls, store.strs, store.next
    ensures store.Valid() && store.Rehoused() && (r.None? <==> old(store.n) >= MAX_BUILD_ROWS)
    ensures r.Some? ==> r.value == old(store.n) && StoredRows(store) == old(StoredRows(store)) + [cells]
  {
    r := store.AppendFrom(cells);
  }

  lemma {:induction false} BucketStep(c: Config, stored: seq<seq<Cell>>, rows: seq<seq<(int, nat)>>,
                                      visited: seq<Keyed>, i: nat)
    requires c.numParts > 0 && i < |visited| && KeyAt(visited[i].1, c.key) == Some(visited[i].0)
    requires BucketOf(c, Bucket(stored, rows), visited[..i])
    ensures var p := Part(c.hash(visited[i].0), c.numParts);
      && |rows| == c.numParts
      && BucketOf(c, Bucket(stored + [visited[i].1], rows[p := rows[p] + [(visited[i].0, |stored|)]]), visited[..i + 1])
  {
    TakeRowStep(c, Bucket(stored, rows), visited[..i], visited[i].1);
    assert visited[..i + 1] == visited[..i] + [visited[i]];
  }

  /** partitionMorsel: drains one morsel's pipeline into its own store and lists. */
  method PartitionMorsel(c: Config, isStr: seq<bool>, batches: seq<Batch>, presize: nat)
    returns (b: Option<MorselBucket>)
    requires c.numParts > 0 && c.key < |isStr| && presize <= MAX_BUILD_ROWS
    requires StreamOf(batches, |isStr|) && AllTyped(AllRows(batches), isStr)
    ensures b.Some? <==> |Sift(AllRows(batches), HasKey(c.key))| <= TWO31 - 1
    ensures b.Some? ==> fresh(b.value.store.Repr()) && b.value.store.Valid() && b.value.store.isStr == isStr
    ensures b.Some? ==> BucketOf(c, BucketView(b.value), Drain(AllRows(batches), c.key))
  {
    var visited := ForEachBuildRow(batches, c.key, |isStr|);
    DrainMeans(AllRows(batches), c.key);
    DrainVisited(AllRows(batches), c.key, isStr);
    b := FillBucket(c, isStr, visited, presize);
  }

  method FillBucket(c: Config, isStr: seq<bool>, visited: seq<Keyed>, presize: nat) returns (b: Option<MorselBucket>)
    requires c.numParts > 0 && presize <= MAX_BUILD_ROWS && Visited(visited, c.key, isStr)
    ensures b.Some? <==> |visited| <= MAX_BUILD_ROWS
    ensures b.Some? ==> fresh(b.value.store.Repr()) && b.value.store.Valid() && b.value.store.isStr == isStr
    ensures b.Some? ==> BucketOf(c, BucketView(b.value), visited)
  {
    var store := new RowStore(isStr, presize);
    var rows: seq<seq<(int, nat)>> := seq(c.numParts, _ => []);
    for i := 0 to |visited|
      invariant fresh(store) && fresh(store.values) && fresh(store.nulls) && fresh(store.strs) && fresh(store.next)
      invariant store.Valid() && store.isStr == isStr && store.n == i
      invariant BucketOf(c, Bucket(StoredRows(store), rows), visited[..i])
    {
      BucketStep(c, StoredRows(store), rows, visited, i);
      var r := AppendRow(store, visited[i].1);
      if r.None? {
        return None;
      }
      var p := Part(c.hash(visited[i].0), c.numParts);
      rows := rows[p := rows[p] + [(visited[i].0, r.value)]];
    }
    assert visited[..|visited|] == visited;
    return Some(MorselBucket(store, rows));
  }

  // ---- Pass 2 of the parallel build ----------------------------------------------------

  /** Stores that share no array. */
  ghost predicate Disjoint(store: RowStore, src: RowStore)
    reads store, src
  {
    var apart := store != src && store.values != src.values && store.nulls != src.nulls && store.strs != src.strs &&
      store.next != src.values;
    apart
  }

  /** A partition being assembled: i of its n rows, stored from off on, are linked as m. */
  ghost predicate LinkedUpTo(t: JoinHashTable, store: RowStore, hash: int -> Hash, off: nat, n: nat, i: nat, m: Chains)
    reads t, t.slots, store, store.next
  {
    var ok := t.store == store && t.hash == hash && t.Valid() && t.Filled(n, i, off) && t.chains == m;
    ok
  }

  ghost predicate StoreIs(store: RowStore, rows: seq<seq<Cell>>)
    reads store, store.values, store.nulls, store.strs
  {
    var same := store.Valid() && StoredRows(store) == rows;
    same
  }

  /** `setFrom`: one store row replaced, every other kept. */
  method CopyRow(store: RowStore, src: RowStore, srcRow: nat, dst: nat, ghost stored: seq<seq<Cell>>,
                 ghost cells: seq<Cell>)
    requires StoreIs(store, stored) && dst < |stored|
    requires src.Valid() && src.isStr == store.isStr && Disjoint(store, src)
    requires srcRow < src.n && src.Row(srcRow) == cells
    modifies store.values, store.nulls, store.strs
    ensures StoreIs(store, stored[dst := cells])
  {
    store.SetFrom(dst, src, srcRow);
  }

  method LinkNext(t: JoinHashTable, store: RowStore, hash: int -> Hash, key: int, off: nat, n: nat, i: nat,
                  ghost m: Chains)
    requires store.Shaped() && i < n && off + n <= store.n && LinkedUpTo(t, store, hash, off, n, i, m)
    modifies store.next, t, t.slots
    ensures fresh(t.slots) || t.slots == old(t.slots)
    ensures LinkedUpTo(t, store, hash, off, n, i + 1, Append(m, key, off + i))
    ensures SameOutside(old(store.next[..]), store.next[..], off, n)
  {
    t.InsertNext(key, n, i, off);
  }

  /** Copies one row into the partition's next store row and links it there. */
  method PlaceRow(t: JoinHashTable, store: RowStore, hash: int -> Hash, src: RowStore, key: int, srcRow: nat,
                  off: nat, n: nat, i: nat, ghost m: Chains, ghost cells: seq<Cell>, ghost stored: seq<seq<Cell>>)
    requires StoreIs(store, stored) && i < n && off + n <= |stored|
    requires src.Valid() && src.isStr == store.isStr && Disjoint(store, src)
    requires srcRow < src.n && src.Row(srcRow) == cells
    requires LinkedUpTo(t, store, hash, off, n, i, m)
    modifies store.values, store.nulls, store.strs, store.next, t, t.slots
    ensures fresh(t.slots) || t.slots == old(t.slots)
    ensures LinkedUpTo(t, store, hash, off, n, i + 1, Append(m, key, off + i))
    ensures SameOutside(old(store.next[..]), store.next[..], off, n)
    ensures StoreIs(store, stored[off + i := cells])
  {
    CopyRow(store, src, srcRow, off + i, stored, cells);
    LinkNext(t, store, hash, key, off, n, i, m);
  }

  /** m and stored hold exactly `done`, from row off on. */
  ghost predicate PlacedRows(off: nat, n: nat, done: seq<Keyed>, m: Chains, stored: seq<seq<Cell>>) {
    var ok := off + n <= |stored| && |done| <= n && Stored(stored, off, done) && m == ChainsOf(done, off);
    ok
  }

  lemma {:induction false} PlacedNext(off: nat, n: nat, i: nat, done: seq<Keyed>, next: Keyed, done': seq<Keyed>,
                                      m: Chains, stored: seq<seq<Cell>>)
    requires i == |done| < n && done' == done + [next] && PlacedRows(off, n, done, m, stored)
    ensures |done'| == i + 1 && PlacedRows(off, n, done', Append(m, next.0, off + i), stored[off + i := next.1])
    ensures SameOutside(stored, stored[off + i := next.1], off, n)
  {
    PlacedOne(stored, off, done, next, done');
  }

  /** A bucket that lists these rows for partition p and may be read while `store` is
      written. */
  ghost predicate ReadableBeside(b: MorselBucket, store: RowStore, p: nat, want: seq<Keyed>)
    reads b.store, b.store.values, b.store.nulls, b.store.strs, store
  {
    var ok := Offers(b, store.isStr, p, want) && Disjoint(store, b.store);
    ok
  }

  ghost predicate Offers(b: MorselBucket, isStr: seq<bool>, p: nat, want: seq<Keyed>)
    reads b.store, b.store.values, b.store.nulls, b.store.strs
  {
    var ok := b.store.Valid() && b.store.isStr == isStr && Lists(BucketView(b), p, want);
    ok
  }

  /** Places the j-th row a bucket lists for the partition. */
  method PlaceListed(t: JoinHashTable, store: RowStore, hash: int -> Hash, b: MorselBucket, p: nat, j: nat,
                     off: nat, n: nat, i: nat, ghost want: seq<Keyed>, ghost m: Chains, ghost stored: seq<seq<Cell>>)
    requires ReadableBeside(b, store, p, want) && p < |b.rows|
    requires j < |b.rows[p]| == |want| && i < n && off + n <= |stored|
    requires StoreIs(store, stored) && LinkedUpTo(t, store, hash, off, n, i, m)
    modifies store.values, store.nulls, store.strs, store.next, t, t.slots
    ensures StoreIs(store, stored[off + i := want[j].1])
    ensures LinkedUpTo(t, store, hash, off, n, i + 1, Append(m, want[j].0, off + i))
    ensures ReadableBeside(b, store, p, want)
    ensures fresh(t.slots) || t.slots == old(t.slots)
    ensures SameOutside(old(store.next[..]), store.next[..], off, n)
  {
    PlaceRow(t, store, hash, b.store, b.rows[p][j].0, b.rows[p][j].1, off, n, i, m, want[j].1, stored);
  }

  /** Links and rows outside the partition's range are untouched. */
  ghost predicate KeptOutside(next: seq<int>, next': seq<int>, stored: seq<seq<Cell>>, stored': seq<seq<Cell>>,
                              off: nat, n: nat) {
    var kept := SameOutside(next, next', off, n) && SameOutside(stored, stored', off, n);
    kept
  }

  /** A partition being assembled: `done` of its n rows are placed, as m and stored. */
  ghost predicate Assembling(t: JoinHashTable, store: RowStore, hash: int -> Hash, off: nat, n: nat, done: seq<Keyed>,
                             m: Chains, stored: seq<seq<Cell>>)
    reads t, t.slots, store, store.values, store.nulls, store.strs, store.next
  {
    var ok := PlacedRows(off, n, done, m, stored) && StoreIs(store, stored) &&
        LinkedUpTo(t, store, hash, off, n, |done|, m);
    ok
  }

  method AssembleRow(t: JoinHashTable, store: RowStore, hash: int -> Hash, b: MorselBucket, p: nat, j: nat,
                     off: nat, n: nat,
                     i: nat, ghost done: seq<Keyed>, ghost done': seq<Keyed>, ghost want: seq<Keyed>, ghost m: Chains,
                     ghost stored: seq<seq<Cell>>)
    returns (ghost m': Chains, ghost stored': seq<seq<Cell>>)
    requires ReadableBeside(b, store, p, want) && p < |b.rows| && j < |b.rows[p]| == |want|
    requires i == |done| < n && done' == done + [want[j]] && Assembling(t, store, hash, off, n, done, m, stored)
    modifies store.values, store.nulls, store.strs, store.next, t, t.slots
    ensures Assembling(t, store, hash, off, n, done', m', stored') && ReadableBeside(b, store, p, want)
    ensures fresh(t.slots) || t.slots == old(t.slots)
    ensures KeptOutside(old(store.next[..]), store.next[..], stored, stored', off, n)
  {
    PlacedNext(off, n, i, done, want[j], done', m, stored);
    m', stored' := Append(m, want[j].0, off + i), stored[off + i := want[j].1];
    PlaceListed(t, store, hash, b, p, j, off, n, i, want, m, stored);
  }

  /** `ds[j]` is done followed by the first j wanted rows. */
  ghost predicate Growing(ds: seq<seq<Keyed>>, want: seq<Keyed>, n: nat) {
    |ds| == |want| + 1 && forall j :: 0 <= j < |want| ==> GrowsAt(ds, want, n, j)
  }

  ghost predicate GrowsAt(ds: seq<seq<Keyed>>, want: seq<Keyed>, n: nat, j: nat)
    requires j < |want| < |ds|
  {
    var grows := |ds[j]| < n && ds[j + 1] == ds[j] + [want[j]];
    grows
  }

  ghost function Prefixes(done: seq<Keyed>, want: seq<Keyed>, n: nat): (ds: seq<seq<Keyed>>)
    requires |done| + |want| <= n
    ensures Growing(ds, want, n) && ds[0] == done && ds[|want|] == done + want
  {
    var ds := seq(|want| + 1, j requires 0 <= j <= |want| => done + want[..j]);
    assert want[..|want|] == want;
    ds
  }

  /** One bucket's rows of the partition, in list order. */
  method AssembleMorsel(t: JoinHashTable, store: RowStore, hash: int -> Hash, b: MorselBucket, p: nat, off: nat, n: nat,
                        start: nat, ghost ds: seq<seq<Keyed>>, ghost want: seq<Keyed>, ghost m0: Chains,
                            ghost before: seq<seq<Cell>>)
    returns (end: nat, ghost m: Chains, ghost stored: seq<seq<Cell>>)
    requires ReadableBeside(b, store, p, want) && p < |b.rows| && |b.rows[p]| == |want| && Growing(ds, want, n)
    requires start == |ds[0]| && Assembling(t, store, hash, off, n, ds[0], m0, before)
    modifies store.values, store.nulls, store.strs, store.next, t, t.slots
    ensures end == |ds[|want|]| && Assembling(t, store, hash, off, n, ds[|want|], m, stored)
    ensures fresh(t.slots) || t.slots == old(t.slots)
    ensures KeptOutside(old(store.next[..]), store.next[..], before, stored, off, n)
  {
    end, m, stored := start, m0, before;
    ghost var next := store.next[..];
    for j := 0 to |b.rows[p]|
      invariant end == |ds[j]| && ReadableBeside(b, store, p, want)
      invariant Assembling(t, store, hash, off, n, ds[j], m, stored)
      invariant fresh(t.slots) || t.slots == old(t.slots)
      invariant KeptOutside(next, store.next[..], before, stored, off, n)
    {
      assert GrowsAt(ds, want, n, j);
      m, stored := AssembleRow(t, store, hash, b, p, j, off, n, end, ds[j], ds[j + 1], want, m, stored);
      end := end + 1;
    }
  }

  /** A bucket lists morsel m's share of every partition. */
  ghost predicate Delivered(b: MorselBucket, isStr: seq<bool>, numParts: nat, plan: Plan, m: nat)
    reads b.store, b.store.values, b.store.nulls, b.store.strs
  {
    var ok := |b.rows| == numParts && forall p: nat :: p < numParts ==> Offers(b, isStr, p, PartOf(plan, p, m));
    ok
  }

  /** Every morsel's bucket is in, and none shares an array with the store being filled. */
  ghost predicate AllDelivered(buckets: seq<MorselBucket>, store: RowStore, numParts: nat, plan: Plan)
    reads set b | b in buckets :: b.store, set b | b in buckets :: b.store.values
    reads set b | b in buckets :: b.store.nulls, set b | b in buckets :: b.store.strs, store
  {
    && |buckets| == |plan|
    && forall m: nat :: m < |buckets| ==>
         Delivered(buckets[m], store.isStr, numParts, plan, m) && Disjoint(store, buckets[m].store)
  }

  /** A finished partition: its table links exactly its rows, in its own store range. */
  ghost predicate PartDone(t: JoinHashTable, store: RowStore, hash: int -> Hash, off: nat, rows: seq<Keyed>,
                           next: seq<int>, stored: seq<seq<Cell>>)
    reads t, t.slots
  {
    var ok := TableOn(t, store, hash, next) && t.chains == ChainsOf(rows, off) && Stored(stored, off, rows) &&
      RowsWithin(t.owner, off, |rows|) && t.rehashes == 0;
    ok
  }

  /** Assembling a later range leaves a finished partition finished. */
  lemma {:induction false} KeepsPart(t: JoinHashTable, store: RowStore, hash: int -> Hash, off: nat,
                                     rows: seq<Keyed>, start: nat, n: nat,
                                     next: seq<int>, next': seq<int>, stored: seq<seq<Cell>>, stored': seq<seq<Cell>>)
    requires off + |rows| <= start && PartDone(t, store, hash, off, rows, next, stored)
    requires KeptOutside(next, next', stored, stored', start, n)
    ensures PartDone(t, store, hash, off, rows, next', stored')
  {
    KeepsTable(t, store, hash, next, next');
  }

  /** A table presized for the partition's exact row count. */
  method StartPart(hash: int -> Hash, store: RowStore, off: nat, n: nat, ghost stored: seq<seq<Cell>>)
    returns (t: JoinHashTable)
    requires StoreIs(store, stored) && off + n <= |stored|
    ensures fresh(t) && fresh(t.slots) && Assembling(t, store, hash, off, n, [], map[], stored)
  {
    t := new JoinHashTable(hash, store, n);
    assert LinkedUpTo(t, store, hash, off, n, 0, map[]);
  }

  /** `upTo[mi]` is the partition's share of the first mi morsels. */
  ghost predicate SharesOf(upTo: seq<seq<Keyed>>, plan: Plan, p: nat, n: nat) {
    && |upTo| == |plan| + 1 && upTo[0] == []
    && forall mi :: 0 <= mi < |plan| ==> NextShare(upTo, plan, p, n, mi)
  }

  ghost predicate NextShare(upTo: seq<seq<Keyed>>, plan: Plan, p: nat, n: nat, mi: nat)
    requires mi < |plan| < |upTo|
  {
    var next := upTo[mi + 1] == upTo[mi] + PartOf(plan, p, mi) && |upTo[mi + 1]| <= n;
    next
  }

  ghost function Shares(plan: Plan, p: nat): (upTo: seq<seq<Keyed>>)
    ensures SharesOf(upTo, plan, p, |PartRows(plan, p)|) && upTo[|plan|] == PartRows(plan, p)
  {
    var upTo := seq(|plan| + 1, mi requires 0 <= mi => PartUpTo(plan, p, mi));
    assert SharesOf(upTo, plan, p, |PartRows(plan, p)|) by {
      forall mi | 0 <= mi < |plan| ensures NextShare(upTo, plan, p, |PartRows(plan, p)|, mi) {
        PartUpToPrefix(plan, p, mi + 1, |plan|);
      }
    }
    upTo
  }

  /** Morsel mi's share of the partition. */
  method AssembleFrom(hash: int -> Hash, t: JoinHashTable, store: RowStore, buckets: seq<MorselBucket>, mi: nat,
                      p: nat, off: nat, n: nat, start: nat, numParts: nat, ghost plan: Plan, ghost done: seq<Keyed>,
                          ghost done': seq<Keyed>,
                      ghost m0: Chains, ghost before: seq<seq<Cell>>)
    returns (end: nat, ghost m: Chains, ghost stored: seq<seq<Cell>>)
    requires p < numParts && mi < |buckets| && start == |done| && done' == done + PartOf(plan, p, mi) && |done'| <= n
    requires AllDelivered(buckets, store, numParts, plan)
    requires Assembling(t, store, hash, off, n, done, m0, before)
    modifies store.values, store.nulls, store.strs, store.next, t, t.slots
    ensures AllDelivered(buckets, store, numParts, plan)
    ensures end == |done'| && Assembling(t, store, hash, off, n, done', m, stored)
    ensures fresh(t.slots) || t.slots == old(t.slots)
    ensures KeptOutside(old(store.next[..]), store.next[..], before, stored, off, n)
  {
    assert Delivered(buckets[mi], store.isStr, numParts, plan, mi);
    end, m, stored :=
        AssembleMorsel(t, store, hash, buckets[mi], p, off, n, start, Prefixes(done, PartOf(plan, p, mi), n),
                                      PartOf(plan, p, mi), m0, before);
  }

  lemma {:induction false} Finished(t: JoinHashTable, store: RowStore, hash: int -> Hash, off: nat,
                                    rows: seq<Keyed>, m: Chains, stored: seq<seq<Cell>>)
    requires Assembling(t, store, hash, off, |rows|, rows, m, stored)
    ensures PartDone(t, store, hash, off, rows, store.next[..store.n], stored)
  {
  }

  /** Walks the buckets in morsel order. */
  method AssembleAll(hash: int -> Hash, t: JoinHashTable, store: RowStore, buckets: seq<MorselBucket>, p: nat,
                     off: nat, n: nat,
                     numParts: nat, ghost plan: Plan, ghost upTo: seq<seq<Keyed>>, ghost before: seq<seq<Cell>>)
    returns (ghost m: Chains, ghost stored: seq<seq<Cell>>)
    requires p < numParts && SharesOf(upTo, plan, p, n) && AllDelivered(buckets, store, numParts, plan)
    requires Assembling(t, store, hash, off, n, [], map[], before)
    modifies store.values, store.nulls, store.strs, store.next, t, t.slots
    ensures AllDelivered(buckets, store, numParts, plan) && Assembling(t, store, hash, off, n, upTo[|plan|], m, stored)
    ensures fresh(t.slots) || t.slots == old(t.slots)
    ensures KeptOutside(old(store.next[..]), store.next[..], before, stored, off, n)
  {
    m, stored := map[], before;
    ghost var next := store.next[..];
    var end := 0;
    for mi := 0 to |buckets|
      invariant AllDelivered(buckets, store, numParts, plan) && (fresh(t.slots) || t.slots == old(t.slots))
      invariant end == |upTo[mi]| && Assembling(t, store, hash, off, n, upTo[mi], m, stored)
      invariant KeptOutside(next, store.next[..], before, stored, off, n)
    {
      assert NextShare(upTo, plan, p, n, mi);
      end, m, stored := AssembleFrom(hash, t, store, buckets, mi, p, off, n, end, numParts, plan, upTo[mi],
          upTo[mi + 1], m, stored);
    }
  }

  /** A partition's share of the first morsels, whole in the end, and where it is stored. */
  datatype Range = Range(start: nat, upTo: seq<seq<Keyed>>) {
    function Rows(): seq<Keyed> {
      if upTo == [] then [] else upTo[|upTo| - 1]
    }

    function End(): nat {
      start + |Rows()|
    }
  }

  ghost predicate RangeOk(r: Range, plan: Plan, p: nat) {
    var ok := |r.upTo| == |plan| + 1 && SharesOf(r.upTo, plan, p, |r.Rows()|);
    ok
  }

  /** One partition's whole assembly: it never rehashes. */
  method AssemblePart(hash: int -> Hash, store: RowStore, buckets: seq<MorselBucket>, p: nat, off: nat, n: nat,
                      numParts: nat, ghost plan: Plan, ghost r: Range, ghost before: seq<seq<Cell>>)
    returns (t: JoinHashTable, ghost stored: seq<seq<Cell>>)
    requires p < numParts && RangeOk(r, plan, p) && off == r.start && n == |r.Rows()| && off + n <= |before|
    requires StoreIs(store, before) && AllDelivered(buckets, store, numParts, plan)
    modifies store.values, store.nulls, store.strs, store.next
    ensures fresh(t) && fresh(t.slots) && StoreIs(store, stored) && AllDelivered(buckets, store, numParts, plan)
    ensures PartDone(t, store, hash, r.start, r.Rows(), store.next[..store.n], stored)
    ensures KeptOutside(old(store.next[..]), store.next[..], before, stored, off, n)
  {
    t := StartPart(hash, store, off, n, before);
    ghost var m;
    m, stored := AssembleAll(hash, t, store, buckets, p, off, n, numParts, plan, r.upTo, before);
    Finished(t, store, hash, off, r.Rows(), m, stored);
  }

  /** Where partition p starts: right after the one before it. */
  function StartOf(ranges: seq<Range>, p: nat): nat
    requires p <= |ranges|
  {
    if p == 0 then 0 else ranges[p - 1].End()
  }

  /** Partition p follows the ones before it and ends within the store. */
  ghost predicate Follows(ranges: seq<Range>, plan: Plan, p: nat, total: nat)
    requires p < |ranges|
  {
    var r := ranges[p];
    var ok := RangeOk(r, plan, p) && r.start == StartOf(ranges, p) && r.End() <= total &&
      forall q :: 0 <= q < p ==> ranges[q].End() <= r.start;
    ok
  }

  /** The partitions' ranges follow one another and fill the store. */
  ghost predicate Contiguous(ranges: seq<Range>, plan: Plan, total: nat) {
    && total == StartOf(ranges, |ranges|)
    && forall p :: 0 <= p < |ranges| ==> Follows(ranges, plan, p, total)
  }

  /** The exact row count of a partition over all buckets. */
  method CountPart(buckets: seq<MorselBucket>, p: nat, isStr: seq<bool>, numParts: nat, ghost plan: Plan,
                   ghost r: Range)
    returns (n: nat)
    requires p < numParts && |buckets| == |plan| && RangeOk(r, plan, p)
    requires forall m: nat :: m < |buckets| ==> Delivered(buckets[m], isStr, numParts, plan, m)
    ensures n == |r.Rows()|
  {
    n := 0;
    for m := 0 to |buckets|
      invariant n == |r.upTo[m]|
    {
      assert Delivered(buckets[m], isStr, numParts, plan, m) && NextShare(r.upTo, plan, p, |r.Rows()|, m);
      n := n + |buckets[m].rows[p]|;
    }
  }

  ghost predicate Counted(counts: seq<nat>, offsets: seq<nat>, ranges: seq<Range>)
    requires |counts| == |offsets| <= |ranges|
  {
    forall p :: 0 <= p < |counts| ==> counts[p] == |ranges[p].Rows()| && offsets[p] == ranges[p].start
  }

  /** Exact row counts, and the contiguous store range each partition owns. */
  method CountParts(buckets: seq<MorselBucket>, isStr: seq<bool>, numParts: nat, ghost plan: Plan,
                    ghost ranges: seq<Range>, ghost sum: nat)
    returns (counts: seq<nat>, offsets: seq<nat>, total: nat)
    requires |buckets| == |plan| && |ranges| == numParts && Contiguous(ranges, plan, sum)
    requires forall m: nat :: m < |buckets| ==> Delivered(buckets[m], isStr, numParts, plan, m)
    ensures |counts| == |offsets| == numParts && Counted(counts, offsets, ranges) && total == sum
  {
    counts, offsets, total := [], [], 0;
    for p := 0 to numParts
      invariant |counts| == |offsets| == p && Counted(counts, offsets, ranges) && total == StartOf(ranges, p)
    {
      assert Follows(ranges, plan, p, sum);
      var n := CountPart(buckets, p, isStr, numParts, plan, ranges[p]);
      counts, offsets, total := counts + [n], offsets + [total], total + n;
    }
  }

  ghost predicate PartsDone(parts: seq<JoinHashTable>, store: RowStore, hash: int -> Hash, ranges: seq<Range>,
                            next: seq<int>, stored: seq<seq<Cell>>)
    requires |parts| <= |ranges|
    reads parts, set t | t in parts :: t.slots
  {
    parts != [] ==>
      var last := |parts| - 1;
      && PartsDone(parts[..last], store, hash, ranges, next, stored)
      && PartDone(parts[last], store, hash, ranges[last].start, ranges[last].Rows(), next, stored)
  }

  lemma {:induction false} PartDoneAt(parts: seq<JoinHashTable>, store: RowStore, hash: int -> Hash, ranges: seq<Range>,
                                      next: seq<int>, stored: seq<seq<Cell>>, q: nat)
    requires q < |parts| <= |ranges| && PartsDone(parts, store, hash, ranges, next, stored)
    ensures PartDone(parts[q], store, hash, ranges[q].start, ranges[q].Rows(), next, stored)
  {
    if q < |parts| - 1 {
      PartDoneAt(parts[..|parts| - 1], store, hash, ranges, next, stored, q);
    }
  }

  lemma {:induction false} KeptPrefix(next: seq<int>, next': seq<int>, stored: seq<seq<Cell>>, stored': seq<seq<Cell>>,
                                      off: nat, n: nat, cap: nat)
    requires cap <= |next| && KeptOutside(next, next', stored, stored', off, n)
    ensures |next'| == |next| && KeptOutside(next[..cap], next'[..cap], stored, stored', off, n)
  {
  }

  lemma {:induction false} KeepsParts(parts: seq<JoinHashTable>, store: RowStore, hash: int -> Hash, ranges: seq<Range>,
                                      start: nat, n: nat, next: seq<int>, next': seq<int>, stored: seq<seq<Cell>>,
                                      stored': seq<seq<Cell>>)
    requires |parts| <= |ranges| && forall q :: 0 <= q < |parts| ==> ranges[q].End() <= start
    requires KeptOutside(next, next', stored, stored', start, n) && PartsDone(parts, store, hash, ranges, next, stored)
    ensures PartsDone(parts, store, hash, ranges, next', stored')
  {
    if parts != [] {
      var last := |parts| - 1;
      KeepsParts(parts[..last], store, hash, ranges, start, n, next, next', stored, stored');
      KeepsPart(parts[last], store, hash, ranges[last].start, ranges[last].Rows(), start, n, next, next', stored,
          stored');
    }
  }

  lemma {:induction false} AddPart(parts: seq<JoinHashTable>, t: JoinHashTable, store: RowStore, hash: int -> Hash,
                                   ranges: seq<Range>, r: Range, next: seq<int>, stored: seq<seq<Cell>>)
    requires |parts| < |ranges| && r == ranges[|parts|] && PartsDone(parts, store, hash, ranges, next, stored)
    requires PartDone(t, store, hash, r.start, r.Rows(), next, stored)
    ensures PartsDone(parts + [t], store, hash, ranges, next, stored)
  {
    assert (parts + [t])[..|parts|] == parts;
  }

  /** Assembles the next partition and keeps those before it. */
  method FillPart(hash: int -> Hash, store: RowStore, buckets: seq<MorselBucket>, off: nat, n: nat, numParts: nat,
                  parts: seq<JoinHashTable>, ghost plan: Plan, ghost ranges: seq<Range>, ghost r: Range,
                      ghost before: seq<seq<Cell>>)
    returns (t: JoinHashTable, ghost stored: seq<seq<Cell>>)
    requires |parts| < |ranges| == numParts && Follows(ranges, plan, |parts|, |before|)
    requires r == ranges[|parts|] && off == r.start && n == |r.Rows()|
    requires StoreIs(store, before) && AllDelivered(buckets, store, numParts, plan)
    requires PartsDone(parts, store, hash, ranges, store.next[..store.n], before)
    modifies store.values, store.nulls, store.strs, store.next
    ensures |stored| == |before| && StoreIs(store, stored) && AllDelivered(buckets, store, numParts, plan)
    ensures PartsDone(parts + [t], store, hash, ranges, store.next[..store.n], stored)
  {
    ghost var next := store.next[..];
    t, stored := AssemblePart(hash, store, buckets, |parts|, off, n, numParts, plan, r, before);
    KeptPrefix(next, store.next[..], before, stored, off, n, store.n);
    KeepsParts(parts, store, hash, ranges, off, n, next[..store.n], store.next[..store.n], before, stored);
    AddPart(parts, t, store, hash, ranges, r, store.next[..store.n], stored);
  }

  /** Assembles the partitions one after the other into their own ranges of the store. */
  method FillParts(hash: int -> Hash, store: RowStore, buckets: seq<MorselBucket>, counts: seq<nat>, offsets: seq<nat>,
                   numParts: nat, ghost plan: Plan, ghost ranges: seq<Range>, ghost blank: seq<seq<Cell>>)
    returns (parts: seq<JoinHashTable>, ghost stored: seq<seq<Cell>>)
    requires |ranges| == numParts && Contiguous(ranges, plan, |blank|)
    requires StoreIs(store, blank) && AllDelivered(buckets, store, numParts, plan)
    requires |counts| == |offsets| == numParts && Counted(counts, offsets, ranges)
    modifies store.values, store.nulls, store.strs, store.next
    ensures |parts| == numParts && |stored| == |blank| && StoreIs(store, stored)
    ensures PartsDone(parts, store, hash, ranges, store.next[..store.n], stored)
  {
    parts, stored := [], blank;
    for p := 0 to numParts
      invariant |parts| == p && |stored| == |blank| && StoreIs(store, stored)
      invariant AllDelivered(buckets, store, numParts, plan)
      invariant PartsDone(parts, store, hash, ranges, store.next[..store.n], stored)
    {
      var t;
      assert Follows(ranges, plan, p, |blank|);
      t, stored := FillPart(hash, store, buckets, offsets[p], counts[p], numParts, parts, plan, ranges, ranges[p],
          stored);
      parts := parts + [t];
    }
  }

  /** The range a plan gives partition p. */
  ghost function PlannedRange(plan: Plan, p: nat): (r: Range)
    ensures RangeOk(r, plan, p) && r.start == RangeStart(plan, p) && r.Rows() == PartRows(plan, p)
  {
    Range(RangeStart(plan, p), Shares(plan, p))
  }

  ghost function RangesOf(plan: Plan, numParts: nat): (ranges: seq<Range>)
    ensures |ranges| == numParts && forall p: nat :: p < numParts ==> ranges[p] == PlannedRange(plan, p)
  {
    seq(numParts, p requires 0 <= p => PlannedRange(plan, p))
  }

  /** Range p ends where the next starts. */
  ghost predicate Between(ranges: seq<Range>, plan: Plan, starts: seq<nat>, p: nat)
    requires p < |ranges| < |starts|
  {
    var ok := RangeOk(ranges[p], plan, p) && ranges[p].start == starts[p] && ranges[p].End() == starts[p + 1];
    ok
  }

  ghost predicate Sorted(starts: seq<nat>) {
    forall q, p :: 0 <= q <= p < |starts| ==> starts[q] <= starts[p]
  }

  lemma {:induction false} EndToEnd(ranges: seq<Range>, plan: Plan, starts: seq<nat>)
    requires |starts| == |ranges| + 1 && starts[0] == 0 && Sorted(starts)
    requires forall p :: 0 <= p < |ranges| ==> Between(ranges, plan, starts, p)
    ensures Contiguous(ranges, plan, starts[|ranges|])
  {
    forall p | 0 <= p <= |ranges| ensures StartOf(ranges, p) == starts[p] {
      assert p > 0 ==> Between(ranges, plan, starts, p - 1);
    }
    forall p | 0 <= p < |ranges| ensures Follows(ranges, plan, p, starts[|ranges|]) {
      assert Between(ranges, plan, starts, p) && starts[p + 1] <= starts[|ranges|];
      forall q | 0 <= q < p ensures ranges[q].End() <= ranges[p].start {
        assert Between(ranges, plan, starts, q) && starts[q + 1] <= starts[p];
      }
    }
  }

  lemma {:induction false} RangesFollow(plan: Plan, numParts: nat)
    ensures Contiguous(RangesOf(plan, numParts), plan, RangeStart(plan, numParts))
  {
    var starts := seq(numParts + 1, p requires 0 <= p => RangeStart(plan, p));
    forall q: nat, p: nat | q < p < |starts| ensures starts[q] <= starts[p] {
      RangesApart(plan, q, p);
    }
    forall p | 0 <= p < numParts ensures Between(RangesOf(plan, numParts), plan, starts, p) {
    }
    EndToEnd(RangesOf(plan, numParts), plan, starts);
  }

  lemma {:induction false} PartMeans(plan: Plan, numParts: nat, parts: seq<JoinHashTable>, store: RowStore,
                                     hash: int -> Hash, next: seq<int>, stored: seq<seq<Cell>>, p: nat)
    requires p < |parts| == numParts && PartsDone(parts, store, hash, RangesOf(plan, numParts), next, stored)
    ensures TableOn(parts[p], store, hash, next) && parts[p].rehashes == 0
    ensures parts[p].chains == ChainsOf(PartRows(plan, p), RangeStart(plan, p))
    ensures Stored(stored, RangeStart(plan, p), PartRows(plan, p))
  {
    PartDoneAt(parts, store, hash, RangesOf(plan, numParts), next, stored, p);
  }

  /** The objects are the build side a run of the two passes over this plan leaves
      behind, and no table has rehashed. */
  ghost predicate Assembled(c: Config, plan: Plan, store: RowStore, parts: seq<JoinHashTable>)
    reads store, store.values, store.nulls, store.strs, store.next, parts, set t | t in parts :: t.slots
  {
    && Tables(store, parts, c.hash) && BuiltOk(c, plan, View(store, parts))
    && forall p :: 0 <= p < |parts| ==> parts[p].rehashes == 0
  }

  /** The finished partitions are the build side a run of the two passes leaves behind. */
  lemma {:induction false} DoneIsBuilt(c: Config, plan: Plan, parts: seq<JoinHashTable>, store: RowStore,
                                       stored: seq<seq<Cell>>, next: seq<int>)
    requires c.Valid() && |parts| == c.numParts && |stored| == RangeStart(plan, c.numParts) <= MAX_BUILD_ROWS
    requires StoreIs(store, stored) && next == store.next[..store.n]
    requires PartsDone(parts, store, c.hash, RangesOf(plan, c.numParts), next, stored)
    ensures Assembled(c, plan, store, parts)
  {
    forall p | 0 <= p < |parts|
      ensures TableOn(parts[p], store, c.hash, next) && parts[p].rehashes == 0
      ensures View(store, parts).tables[p] == ChainsOf(PartRows(plan, p), RangeStart(plan, p))
      ensures Stored(stored, RangeStart(plan, p), PartRows(plan, p))
    {
      PartMeans(plan, c.numParts, parts, store, c.hash, next, stored, p);
    }
  }

  /** The store sized for all partitions, each assembled into its own range. */
  method AssembleStore(hash: int -> Hash, isStr: seq<bool>, buckets: seq<MorselBucket>, counts: seq<nat>,
                       offsets: seq<nat>, total: nat, numParts: nat, ghost plan: Plan, ghost ranges: seq<Range>)
    returns (store: RowStore, parts: seq<JoinHashTable>, ghost stored: seq<seq<Cell>>)
    requires |buckets| == |plan| && |ranges| == numParts && Contiguous(ranges, plan, total) && total <= MAX_BUILD_ROWS
    requires forall m: nat :: m < |buckets| ==> Delivered(buckets[m], isStr, numParts, plan, m)
    requires |counts| == |offsets| == numParts && Counted(counts, offsets, ranges)
    ensures |parts| == numParts && |stored| == total && StoreIs(store, stored)
    ensures PartsDone(parts, store, hash, ranges, store.next[..store.n], stored)
  {
    store := new RowStore.Sized(isStr, total);
    ghost var blank := StoredRows(store);
    parts, stored := FillParts(hash, store, buckets, counts, offsets, numParts, plan, ranges, blank);
  }

  /** Pass 2 over the buckets of pass 1: exact counts size the store and its ranges, and
      no table ever rehashes. */
  method AssembleParts(c: Config, isStr: seq<bool>, buckets: seq<MorselBucket>, ghost plan: Plan)
    returns (built: Option<SharedHashTable>)
    requires c.Valid() && |buckets| == |plan|
    requires forall m: nat :: m < |buckets| ==> Delivered(buckets[m], isStr, c.numParts, plan, m)
    ensures built.Some? <==> RangeStart(plan, c.numParts) <= MAX_BUILD_ROWS
    ensures built.Some? ==> Assembled(c, plan, built.value.store, built.value.parts)
  {
    ghost var ranges := RangesOf(plan, c.numParts);
    RangesFollow(plan, c.numParts);
    var counts, offsets, total := CountParts(buckets, isStr, c.numParts, plan, ranges, RangeStart(plan, c.numParts));
    if total > MAX_BUILD_ROWS {
      return None;
    }
    var store, parts;
    ghost var stored;
    store, parts, stored := AssembleStore(c.hash, isStr, buckets, counts, offsets, total, c.numParts, plan, ranges);
    DoneIsBuilt(c, plan, parts, store, stored, store.next[..store.n]);
    return Some(SharedHashTable(store, parts));
  }

  /** A bucket holding a morsel's drain delivers the morsel. */
  lemma {:induction false} BucketDelivers(c: Config, b: MorselBucket, isStr: seq<bool>, m: nat)
    requires c.Valid() && m < c.NumMorsels() && b.store.Valid() && b.store.isStr == isStr
    requires Off(m, c.morselSize) <= |c.groups|
    requires BucketOf(c, BucketView(b), Drain(c.MorselRows(Off(m, c.morselSize)), c.key))
    ensures Delivered(b, isStr, c.numParts, PlanOf(c), m)
  {
    MorselExists(c, m);
    var rows := c.MorselRows(Off(m, c.morselSize));
    assert rows[..|rows|] == rows;
    forall p: nat | p < c.numParts ensures Offers(b, isStr, p, PartOf(PlanOf(c), p, m)) {
      assert PartOf(PlanOf(c), p, m) == MorselPart(c, p, m);
    }
  }

  /** What the build pipeline over morsel m yields, in batches. */
  ghost predicate PipelineOf(c: Config, isStr: seq<bool>, batches: seq<Batch>, m: nat) {
    && StreamOf(batches, |isStr|) && AllTyped(AllRows(batches), isStr)
    && Off(m, c.morselSize) <= |c.groups| && AllRows(batches) == c.MorselRows(Off(m, c.morselSize))
  }

  /** The bucket of morsel m holds what a serial drain of it would give each partition. */
  ghost predicate Arrived(b: MorselBucket, isStr: seq<bool>, c: Config, m: nat)
    requires c.Valid()
    reads b.store, b.store.values, b.store.nulls, b.store.strs
  {
    var ok := Delivered(b, isStr, c.numParts, PlanOf(c), m);
    ok
  }

  /** A pipeline for each morsel, and a store size to start its bucket with. */
  ghost predicate Pipelines(c: Config, isStr: seq<bool>, pipelines: seq<seq<Batch>>, presizes: seq<nat>)
    requires c.Valid()
  {
    && |pipelines| == |presizes| == c.NumMorsels()
    && forall m: nat :: m < |pipelines| ==>
         PipelineOf(c, isStr, pipelines[m], m) && presizes[m] <= MAX_BUILD_ROWS
  }

  method DrainMorsel(c: Config, isStr: seq<bool>, batches: seq<Batch>, m: nat, presize: nat)
    returns (b: Option<MorselBucket>)
    requires c.Valid() && m < c.NumMorsels() && c.key < |isStr|
    requires presize <= MAX_BUILD_ROWS && PipelineOf(c, isStr, batches, m)
    ensures b.None? ==> |SerialDrain(c)| > MAX_BUILD_ROWS
    ensures b.Some? ==> Arrived(b.value, isStr, c, m)
  {
    b := PartitionMorsel(c, isStr, batches, presize);
    MorselWithin(c, Off(m, c.morselSize));
    DrainMeans(AllRows(batches), c.key);
    if b.Some? {
      BucketDelivers(c, b.value, isStr, m);
    }
  }

  /** Pass 1 over every morsel. */
  method DrainMorsels(c: Config, isStr: seq<bool>, pipelines: seq<seq<Batch>>, presizes: seq<nat>)
    returns (buckets: Option<seq<MorselBucket>>)
    requires c.Valid() && c.key < |isStr| && Pipelines(c, isStr, pipelines, presizes)
    ensures buckets.None? ==> |SerialDrain(c)| > MAX_BUILD_ROWS
    ensures buckets.Some? ==>
      && |buckets.value| == |pipelines|
      && forall m: nat :: m < |pipelines| ==> Arrived(buckets.value[m], isStr, c, m)
  {
    var bs: seq<MorselBucket> := [];
    for m := 0 to |pipelines|
      invariant |bs| == m && forall i: nat :: i < m ==> Arrived(bs[i], isStr, c, i)
    {
      var b := DrainMorsel(c, isStr, pipelines[m], m, presizes[m]);
      if b.None? {
        return None;
      }
      bs := bs + [b.value];
    }
    return Some(bs);
  }

  /** BuildSharedHashTableParallel with its workers run one after the other. The store
      and tables it leaves are those of every finished run of the two passes. */
  method BuildParallel(c: Config, isStr: seq<bool>, pipelines: seq<seq<Batch>>, presizes: seq<nat>)
    returns (built: Option<SharedHashTable>)
    requires c.Valid() && c.key < |isStr| && Pipelines(c, isStr, pipelines, presizes)
    ensures built.Some? <==> |Sift(Flat(c.groups), HasKey(c.key))| <= TWO31 - 1
    ensures built.Some? ==> Assembled(c, PlanOf(c), built.value.store, built.value.parts)
  {
    PlanSize(c);
    DrainMeans(Flat(c.groups), c.key);
    var buckets := DrainMorsels(c, isStr, pipelines, presizes);
    if buckets.None? {
      return None;
    }
    assert forall m: nat :: m < |pipelines| ==> Arrived(buckets.value[m], isStr, c, m);
    built := AssembleParts(c, isStr, buckets.value, PlanOf(c));
  }

  // ---- A build side that is a scan ------------------------------------------------------

  /** What a scan yields, block by block. */
  method ReadBatches(scan: Scans.TableScan<seq<Cell>>, width: nat, ghost rows: seq<seq<Cell>>)
    returns (batches: seq<Batch>)
    requires scan.Valid() && scan.Pending() == rows && forall r :: 0 <= r < |rows| ==> |rows[r]| == width
    modifies scan
    ensures StreamOf(batches, width) && AllRows(batches) == rows
  {
    batches := [];
    ghost var owed := scan.Pending();
    while true
      invariant scan.Valid() && owed == scan.Pending() && StreamOf(batches, width) && AllRows(batches) + owed == rows
      decreases |owed|
    {
      var block := scan.Next();
      if block.None? {
        return;
      }
      ghost var before := AllRows(batches);
      ConcatAssoc(before, block.value, scan.Pending());
      assert forall r :: 0 <= r < |block.value| ==> block.value[r] == rows[|before| + r];
      RowsOfBatch(block.value, width);
      ghost var n := |batches|;
      batches := batches + [BatchOf(block.value, width)];
      AllRowsSnoc(batches, n);
      assert batches[..n + 1] == batches;
      assert batches[..n] + [BatchOf(block.value, width)] == batches;
      owed := scan.Pending();
    }
  }

  /** A serial build whose child is a scan: its row bound covers the drain, so the store
      never grows, and the one table of an unpartitioned build never rehashes. */
  method BuildFromScan(hash: int -> Hash, isStr: seq<bool>, scan: Scans.TableScan<seq<Cell>>, key: nat,
                       ghost rows: seq<seq<Cell>>)
    returns (built: Option<SharedHashTable>)
    requires scan.Valid() && scan.Pending() == scan.From(scan.rgStart) == rows && key < |isStr| && AllTyped(rows, isStr)
    modifies scan
    ensures built.Some? <==> |Sift(rows, HasKey(key))| <= TWO31 - 1
    ensures built.Some? ==>
      |built.value.parts| == 1 &&
          Holds(built.value.store, built.value.parts, hash, SerialBuild(hash, 1, Drain(rows, key)))
    ensures |rows| <= MAX_BUILD_ROWS ==>
      built.Some? && built.value.store.grows == 0 && built.value.parts[0].rehashes == 0
  {
    var bound := scan.RowCountBound();
    forall r | 0 <= r < |rows| ensures |rows[r]| == |isStr| {
      assert Typed(rows[r], isStr);
    }
    var batches := ReadBatches(scan, |isStr|, rows);
    DrainMeans(rows, key);
    DrainVisited(rows, key, isStr);
    var presize := PresizeRows(bound);
    built := BuildRadix(hash, isStr, batches, key, 1, presize, presize);
    if built.Some? {
      OneTableRows(built.value.store, built.value.parts, hash, Drain(rows, key));
    }
  }

  /** No table holds more rows than the store. */
  lemma {:induction false} OneTableRows(store: RowStore, parts: seq<JoinHashTable>, hash: int -> Hash,
                                        drained: seq<Keyed>)
    requires |parts| == 1 && Holds(store, parts, hash, SerialBuild(hash, 1, drained))
    ensures store.n == |drained| && parts[0].numRow <= store.n
  {
    SerialBuildSize(hash, 1, drained);
    assert TableOn(parts[0], store, hash, store.next[..store.n]);
    KeysBelowRows(store.n, parts[0].chains, parts[0].owner);
  }
}
