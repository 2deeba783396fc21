/** Batches as the operators exchange them (exec/batch.go): column vectors over
    physical rows plus an optional selection vector. */
module Batches {

  import opened Options

  /** One vector element. `Num` holds the raw 64-bit image the engine keeps for
      INT64, DATE, BOOL and FLOAT64 columns. */
  datatype Cell = Null | Num(bits: int) | Text(s: string)

  /** `vectors[c][r]` is column c at physical row r; `sel` names the selected
      physical rows, absent meaning all of `0..length`. */
  datatype Batch = Batch(vectors: seq<seq<Cell>>, physical: nat, length: nat, sel: Option<seq<nat>>) {

    /** The shape every operator may rely on: equally long vectors, and either the
        identity selection or a selection of existing rows. */
    ghost predicate Valid(width: nat) {
      && |vectors| == width
      && (forall c :: 0 <= c < |vectors| ==> |vectors[c]| == physical)
      && match sel
         case None => length == physical
         case Some(s) => length == |s| && forall i :: 0 <= i < |s| ==> s[i] < physical
    }

    /** `rowSet.n` and `rowSet.at` of the source. */
    function RowCount(): nat {
      match sel case None => length case Some(s) => |s|
    }

    function RowIndex(i: nat): nat
      requires i < RowCount()
    {
      match sel case None => i case Some(s) => s[i]
    }

    /** Physical row r across the columns. */
    function RowAt(r: nat): (row: seq<Cell>)
      ensures |row| == |vectors|
    {
      seq(|vectors|, c requires 0 <= c < |vectors| => if r < |vectors[c]| then vectors[c][r] else Null)
    }
  }

  /** The rows a batch denotes: the selected physical rows, in selection order. */
  function Rows(b: Batch): (rows: seq<seq<Cell>>)
    ensures |rows| == b.RowCount()
  {
    seq(b.RowCount(), i requires 0 <= i < b.RowCount() => b.RowAt(b.RowIndex(i)))
  }

  /** By its columns: row i is physical row i, or the i-th selected one, across the vectors. */
  lemma {:induction false} RowsMean(b: Batch, width: nat)
    requires b.Valid(width)
    ensures |Rows(b)| == if b.sel.None? then b.physical else |b.sel.value|
    ensures forall i, c :: 0 <= i < |Rows(b)| && 0 <= c < width ==>
      |Rows(b)[i]| == width && Rows(b)[i][c] == b.vectors[c][if b.sel.None? then i else b.sel.value[i]]
  {
    forall i | 0 <= i < |Rows(b)| ensures b.RowIndex(i) == if b.sel.None? then i else b.sel.value[i] {
    }
  }

  ghost predicate StreamOf(bs: seq<Batch>, width: nat) {
    forall i :: 0 <= i < |bs| ==> bs[i].Valid(width)
  }

  /** The rows of a batch stream. */
  function AllRows(bs: seq<Batch>): seq<seq<Cell>> {
    if bs == [] then [] else Rows(bs[0]) + AllRows(bs[1..])
  }

  lemma {:induction false} AllRowsSnoc(bs: seq<Batch>, i: nat)
    requires i < |bs|
    ensures AllRows(bs[..i + 1]) == AllRows(bs[..i]) + Rows(bs[i])
    decreases |bs|
  {
    if i == 0 {
      assert bs[..1] == [bs[0]];
    } else {
      AllRowsSnoc(bs[1..], i - 1);
      assert bs[..i + 1][1..] == bs[1..][..i] && bs[..i][1..] == bs[1..][..i - 1];
    }
  }

  /** Build payloads each followed by one probe row. */
  function Beside(ms: seq<seq<Cell>>, row: seq<Cell>): (out: seq<seq<Cell>>)
    ensures |out| == |ms|
  {
    seq(|ms|, i requires 0 <= i < |ms| => ms[i] + row)
  }

  /** A block of rows as column vectors, all of them selected. */
  function BatchOf(rows: seq<seq<Cell>>, width: nat): (b: Batch)
    ensures b.Valid(width) && b.RowCount() == |rows|
  {
    Batch(seq(width, c requires 0 <= c < width =>
        seq(|rows|, r requires 0 <= r < |rows| => if c < |rows[r]| then rows[r][c] else Null)),
          |rows|, |rows|, None)
  }

  lemma {:induction false} RowsOfBatch(rows: seq<seq<Cell>>, width: nat)
    requires forall r :: 0 <= r < |rows| ==> |rows[r]| == width
    ensures Rows(BatchOf(rows, width)) == rows
  {
    forall r | 0 <= r < |rows| ensures Rows(BatchOf(rows, width))[r] == rows[r] {
    }
  }
}
