/** The radix-partitioned build side of a hash join as values, and its serial
    drain (exec/parallel_join.go, exec/join.go): one table of chains per partition
    over one sequence of stored rows. */
module SharedTables {
  import opened Options
  import opened Batches
  import opened JoinTables
  import opened Seqs

  /** A build row with its join key; rows with a NULL key never become one. */
  type Keyed = (int, seq<Cell>)

  /** The int64 image of a key cell: a text cell has none and reads as zero. */
  function KeyOf(cell: Cell): Option<int> {
    match cell
    case Null => None
    case Num(bits) => Some(bits)
    case Text(_) => Some(0)
  }

  /** The join key of a row, absent when it is NULL. */
  function KeyAt(row: seq<Cell>, key: nat): Option<int> {
    if key < |row| then KeyOf(row[key]) else None
  }

  /** The rows a drain visits, in order: those whose key is not NULL. */
  function Drain(rows: seq<seq<Cell>>, key: nat): seq<Keyed> {
    if rows == [] then []
    else
      var last := rows[|rows| - 1];
      var k := KeyAt(last, key);
      Drain(rows[..|rows| - 1], key) + if k.Some? then [(k.value, last)] else []
  }

  /** The payloads carried by one key, in drain order. */
  function ByKey(drained: seq<Keyed>, key: int): seq<seq<Cell>> {
    if drained == [] then []
    else
      var last := drained[|drained| - 1];
      ByKey(drained[..|drained| - 1], key) + if last.0 == key then [last.1] else []
  }

  // ---- Which rows have which key, by their cells --------------------------------------------

  /** The rows whose key column is not NULL. */
  function HasKey(key: nat): seq<Cell> -> bool {
    row => key < |row| && row[key] != Null
  }

  /** The rows whose key column holds exactly this number. */
  function Holding(key: nat, k: int): seq<Cell> -> bool {
    row => key < |row| && row[key] == Num(k)
  }

  /** No row has text in its key column: INT64 and DATE keys. */
  ghost predicate NumberKeys(rows: seq<seq<Cell>>, key: nat) {
    forall i :: 0 <= i < |rows| && key < |rows[i]| ==> !rows[i][key].Text?
  }

  function PayloadsOf(drained: seq<Keyed>): (rows: seq<seq<Cell>>)
    ensures |rows| == |drained|
  {
    seq(|drained|, i requires 0 <= i < |drained| => drained[i].1)
  }

  /** A drained row carries its own key cell: a number as it is, text as zero. */
  ghost predicate CarriesKey(row: Keyed, key: nat) {
    && key < |row.1|
    && (row.1[key] == Num(row.0) || (row.1[key].Text? && row.0 == 0))
  }

  /** A drain visits exactly the rows with a non-NULL key cell, in order, each with the
      number its cell holds. */
  lemma {:induction false} DrainMeans(rows: seq<seq<Cell>>, key: nat)
    ensures PayloadsOf(Drain(rows, key)) == Sift(rows, HasKey(key))
    ensures |Drain(rows, key)| == |Sift(rows, HasKey(key))|
    ensures forall i :: 0 <= i < |Drain(rows, key)| ==> CarriesKey(Drain(rows, key)[i], key)
  {
    if rows != [] {
      var init, last := rows[..|rows| - 1], rows[|rows| - 1];
      DrainMeans(init, key);
      var d, k := Drain(init, key), KeyAt(last, key);
      if k.Some? {
        PayloadsSnoc(d, (k.value, last));
      } else {
        assert Drain(rows, key) == d;
      }
    }
  }

  lemma {:induction false} PayloadsSnoc(drained: seq<Keyed>, row: Keyed)
    ensures PayloadsOf(drained + [row]) == PayloadsOf(drained) + [row.1]
  {
  }

  /** With number keys, a key's drained rows are the rows whose key cell is that number. */
  lemma {:induction false} ByKeyMeans(rows: seq<seq<Cell>>, key: nat, k: int)
    requires NumberKeys(rows, key)
    ensures ByKey(Drain(rows, key), k) == Sift(rows, Holding(key, k))
  {
    if rows != [] {
      var init, last := rows[..|rows| - 1], rows[|rows| - 1];
      ByKeyMeans(init, key, k);
      if KeyAt(last, key).Some? {
        ByKeyConcat(Drain(init, key), [(KeyAt(last, key).value, last)], k);
      } else {
        assert Drain(rows, key) == Drain(init, key);
      }
    }
  }

  lemma {:induction false} DrainConcat(a: seq<seq<Cell>>, b: seq<seq<Cell>>, key: nat)
    ensures Drain(a + b, key) == Drain(a, key) + Drain(b, key)
  {
    if b == [] {
      assert a + b == a;
    } else {
      assert (a + b)[..|a + b| - 1] == a + b[..|b| - 1];
      DrainConcat(a, b[..|b| - 1], key);
    }
  }

  lemma {:induction false} ByKeyConcat(a: seq<Keyed>, b: seq<Keyed>, key: int)
    ensures ByKey(a + b, key) == ByKey(a, key) + ByKey(b, key)
  {
    if b == [] {
      assert a + b == a;
    } else {
      assert (a + b)[..|a + b| - 1] == a + b[..|b| - 1];
      ByKeyConcat(a, b[..|b| - 1], key);
    }
  }

  /** The partition of a hash: its low bits, all of them zero when unpartitioned. */
  function Part(h: Hash, numParts: nat): (p: nat)
    requires numParts > 0
    ensures p < numParts
  {
    if numParts == 1 then 0 else h % numParts
  }

  /** The payloads along a chain of row indices. */
  function Gather(rows: seq<seq<Cell>>, chain: seq<int>): seq<seq<Cell>>
    requires forall j :: 0 <= j < |chain| ==> 0 <= chain[j] < |rows|
  {
    seq(|chain|, j requires 0 <= j < |chain| => rows[chain[j]])
  }

  /** A partitioned build side as values: the stored rows and each partition's
      chains of row indices. */
  datatype Build = Build(rows: seq<seq<Cell>>, tables: seq<Chains>) {

    ghost predicate Valid() {
      |tables| > 0 && forall p :: 0 <= p < |tables| ==> InRange(tables[p], |rows|)
    }

    /** The build rows a probe for key walks over, in chain order. */
    ghost function Matches(hash: int -> Hash, key: int): seq<seq<Cell>>
      requires Valid()
    {
      var t := tables[Part(hash(key), |tables|)];
      if key in t then Gather(rows, t[key]) else []
    }

    /** Storing a row and linking it under its key. */
    ghost function Add(hash: int -> Hash, key: int, cells: seq<Cell>): Build
      requires Valid()
    {
      var p := Part(hash(key), |tables|);
      Build(rows + [cells], tables[p := Append(tables[p], key, |rows|)])
    }
  }

  ghost predicate InRange(m: Chains, n: nat) {
    forall k, j :: k in m && 0 <= j < |m[k]| ==> 0 <= m[k][j] < n
  }

  /** Adding a row appends its payload to its own key's matches and to no other's. */
  lemma {:induction false} MatchesAdd(b: Build, hash: int -> Hash, key: int, cells: seq<Cell>, k: int)
    requires b.Valid()
    ensures b.Add(hash, key, cells).Valid()
    ensures b.Add(hash, key, cells).Matches(hash, k) == b.Matches(hash, k) + if k == key then [cells] else []
  {
    var b' := b.Add(hash, key, cells);
    var p := Part(hash(key), |b.tables|);
    assert InRange(b'.tables[p], |b'.rows|);
    assert forall q :: 0 <= q < |b'.tables| && q != p ==> InRange(b.tables[q], |b.rows|);
  }

  /** The serial radix drain: rows stored and linked one by one in drain order. */
  ghost function SerialBuild(hash: int -> Hash, numParts: nat, drained: seq<Keyed>): (b: Build)
    requires numParts > 0
    ensures b.Valid() && |b.tables| == numParts
  {
    if drained == [] then Build([], seq(numParts, _ => map[]))
    else
      var b := SerialBuild(hash, numParts, drained[..|drained| - 1]);
      var last := drained[|drained| - 1];
      MatchesAdd(b, hash, last.0, last.1, last.0);
      b.Add(hash, last.0, last.1)
  }

  /** For every partition count, a probe of the serial build meets exactly the
      drained rows of its key, in drain order. */
  lemma {:induction false} SerialMatches(hash: int -> Hash, numParts: nat, drained: seq<Keyed>, key: int)
    requires numParts > 0
    ensures SerialBuild(hash, numParts, drained).Matches(hash, key) == ByKey(drained, key)
  {
    if drained != [] {
      var init, last := drained[..|drained| - 1], drained[|drained| - 1];
      SerialMatches(hash, numParts, init, key);
      MatchesAdd(SerialBuild(hash, numParts, init), hash, last.0, last.1, key);
    }
  }
}
