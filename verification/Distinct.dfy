/** Duplicate elimination (exec/distinct.go): a set of row keys carried across batches,
    narrowing each batch to the rows not seen before. */
module Distincts {
  import opened Options
  import opened Batches
  import opened RowKeys
  import opened Arith

  /** The rows of `rows` that occur neither in `before` nor earlier in `rows`. */
  function Fresh(before: seq<seq<Cell>>, rows: seq<seq<Cell>>): seq<seq<Cell>> {
    if rows == [] then []
    else
      var init, last := rows[..|rows| - 1], rows[|rows| - 1];
      Fresh(before, init) + if last in before + init then [] else [last]
  }

  lemma {:induction false} FreshConcat(before: seq<seq<Cell>>, xs: seq<seq<Cell>>, ys: seq<seq<Cell>>)
    ensures Fresh(before, xs + ys) == Fresh(before, xs) + Fresh(before + xs, ys)
  {
    if ys == [] {
      assert xs + ys == xs;
    } else {
      var init, last := ys[..|ys| - 1], ys[|ys| - 1];
      assert (xs + ys)[..|xs + ys| - 1] == xs + init;
      FreshConcat(before, xs, init);
      assert before + (xs + init) == (before + xs) + init;
    }
  }

  /** The set holds exactly the keys of the rows read so far. */
  ghost predicate Tracks(seen: set<Bytes>, rows: seq<seq<Cell>>) {
    && RowsStorable(rows)
    && (forall i :: 0 <= i < |rows| ==> Encode(rows[i]) in seen)
    && (forall k :: k in seen ==> exists i :: 0 <= i < |rows| && Encode(rows[i]) == k)
  }

  /** Because keys determine rows, membership of a key is membership of the row. */
  lemma {:induction false} SeenIsSeen(seen: set<Bytes>, rows: seq<seq<Cell>>, row: seq<Cell>)
    requires Tracks(seen, rows) && AllStorable(row)
    ensures Encode(row) in seen <==> row in rows
  {
    if Encode(row) in seen {
      var i :| 0 <= i < |rows| && Encode(rows[i]) == Encode(row);
      EncodeInjective(rows[i], row);
    }
  }

  lemma {:induction false} TracksAdd(seen: set<Bytes>, rows: seq<seq<Cell>>, row: seq<Cell>)
    requires Tracks(seen, rows) && AllStorable(row)
    ensures Tracks(seen + {Encode(row)}, rows + [row])
  {
    forall k | k in seen + {Encode(row)} ensures exists i :: 0 <= i < |rows + [row]| && Encode((rows + [row])[i]) == k {
      if k in seen {
        var i :| 0 <= i < |rows| && Encode(rows[i]) == k;
        assert Encode((rows + [row])[i]) == k;
      } else {
        assert Encode((rows + [row])[|rows|]) == k;
      }
    }
  }

  class Distinct {
    const width: nat
    const input: seq<Batch>     // what the child yields, in order
    var fetched: nat
    var seen: set<Bytes>

    ghost predicate Valid()
      reads this
    {
      && fetched <= |input| && StreamOf(input, width)
      && (forall i :: 0 <= i < |input| ==> RowsStorable(Rows(input[i])))
      && Tracks(seen, AllRows(input[..fetched]))
    }

    /** What is still to be emitted. */
    ghost function Pending(): seq<seq<Cell>>
      requires fetched <= |input|
      reads this
    {
      Fresh(AllRows(input[..fetched]), AllRows(input[fetched..]))
    }

    constructor (input: seq<Batch>, width: nat)
      requires StreamOf(input, width) && forall i :: 0 <= i < |input| ==> RowsStorable(Rows(input[i]))
      ensures Valid() && this.input == input && Pending() == Fresh([], AllRows(input))
    {
      this.input, this.width := input, width;
      fetched, seen := 0, {};
      new;
      assert input[..0] == [] && input[0..] == input;
    }

    /** Narrows a batch to its new rows and records their keys. */
    method SelectNew(batch: Batch, ghost before: seq<seq<Cell>>) returns (out: Batch)
      requires batch.Valid(width) && RowsStorable(Rows(batch)) && Tracks(seen, before)
      modifies this`seen
      ensures out.Valid(width) && Rows(out) == Fresh(before, Rows(batch)) && out.length == |Rows(out)|
      ensures Tracks(seen, before + Rows(batch))
    {
      ghost var rows := Rows(batch);
      var sel: seq<nat> := [];
      assert before + rows[..0] == before;
      for i := 0 to batch.RowCount()
        invariant Tracks(seen, before + rows[..i])
        invariant Picks(sel, batch, Fresh(before, rows[..i]))
      {
        var r := batch.RowIndex(i);
        assert rows[i] == batch.RowAt(r) && AllStorable(rows[i]);
        var key := BuildKey(batch.RowAt(r));
        SeenStep(seen, before, rows, i);
        if key !in seen {
          PicksAdd(sel, batch, Fresh(before, rows[..i]), r);
          sel := sel + [r];
          seen := seen + {key};
        }
      }
      assert rows[..|rows|] == rows;
      out := batch.(sel := Some(sel), length := |sel|);
      PicksRows(sel, batch, out, Fresh(before, rows));
    }

    /** Each call hands over the next pending rows; a batch of nothing but repeats is
        skipped, and the end means nothing is pending. */
    method Next() returns (out: Option<Batch>)
      requires Valid()
      modifies this
      ensures Valid()
      ensures out.None? ==> old(Pending()) == [] && Pending() == []
      ensures out.Some? ==> out.value.Valid(width) && Rows(out.value) != []
      ensures out.Some? ==> Rows(out.value) + Pending() == old(Pending())
    {
      while fetched < |input|
        invariant Valid() && Pending() == old(Pending())
        decreases |input| - fetched
      {
        var b := Advance();
        if b.length > 0 {
          return Some(b);
        }
        assert Rows(b) == [];
      }
      assert input[fetched..] == [];
      return None;
    }

    method Advance() returns (b: Batch)
      requires Valid() && fetched < |input|
      modifies this
      ensures Valid() && fetched == old(fetched) + 1 && b.Valid(width) && b.length == |Rows(b)|
      ensures Rows(b) + Pending() == old(Pending())
    {
      var batch := input[fetched];
      ghost var before, rows, rest := AllRows(input[..fetched]), Rows(batch), AllRows(input[fetched + 1..]);
      assert input[fetched..] == [batch] + input[fetched + 1..];
      FreshConcat(before, rows, rest);
      AllRowsSnoc(input, fetched);
      b := SelectNew(batch, before);
      fetched := fetched + 1;
    }

    /** Reading to the end yields the first occurrence of every row, in order. */
    method DrainOutput() returns (out: seq<seq<Cell>>)
      requires Valid()
      modifies this
      ensures out == old(Pending())
    {
      out := [];
      ghost var owed := Pending();
      while true
        invariant Valid() && owed == Pending() && out + owed == old(Pending())
        decreases |owed|
      {
        var b := Next();
        if b.None? {
          return;
        }
        ConcatAssoc(out, Rows(b.value), Pending());
        out, owed := out + Rows(b.value), Pending();
      }
    }
  }

  /** Reading row i either finds its key or adds it. */
  lemma {:induction false} SeenStep(seen: set<Bytes>, before: seq<seq<Cell>>, rows: seq<seq<Cell>>, i: nat)
    requires i < |rows| && Tracks(seen, before + rows[..i]) && AllStorable(rows[i])
    ensures Tracks(if Encode(rows[i]) in seen then seen else seen + {Encode(rows[i])}, before + rows[..i + 1])
    ensures Fresh(before, rows[..i + 1]) == Fresh(before, rows[..i]) + if Encode(rows[i]) in seen then [] else [rows[i]]
  {
    assert rows[..i + 1][..i] == rows[..i] && (before + rows[..i]) + [rows[i]] == before + rows[..i + 1];
    SeenIsSeen(seen, before + rows[..i], rows[i]);
    TracksAdd(seen, before + rows[..i], rows[i]);
    assert Encode(rows[i]) in seen ==> seen + {Encode(rows[i])} == seen;
  }

  /** The selection vector names rows of the batch that read as these rows. */
  ghost predicate Picks(sel: seq<nat>, batch: Batch, rows: seq<seq<Cell>>) {
    |sel| == |rows| && forall i :: 0 <= i < |sel| ==> sel[i] < batch.physical && batch.RowAt(sel[i]) == rows[i]
  }

  lemma {:induction false} PicksAdd(sel: seq<nat>, batch: Batch, rows: seq<seq<Cell>>, r: nat)
    requires Picks(sel, batch, rows) && r < batch.physical
    ensures Picks(sel + [r], batch, rows + [batch.RowAt(r)])
  {
  }

  lemma {:induction false} PicksRows(sel: seq<nat>, batch: Batch, out: Batch, rows: seq<seq<Cell>>)
    requires Picks(sel, batch, rows) && out == batch.(sel := Some(sel), length := |sel|)
    ensures Rows(out) == rows && forall width :: batch.Valid(width) ==> out.Valid(width)
  {
    forall i | 0 <= i < |sel| ensures Rows(out)[i] == rows[i] {
      assert out.RowAt(sel[i]) == batch.RowAt(sel[i]);
    }
  }

  /** Every row of the input is emitted, none twice. */
  lemma {:induction false} FreshOnce(rows: seq<seq<Cell>>)
    ensures forall row :: row in rows <==> row in Fresh([], rows)
    ensures forall i, j :: 0 <= i < j < |Fresh([], rows)| ==> Fresh([], rows)[i] != Fresh([], rows)[j]
  {
    if rows != [] {
      var init, last := rows[..|rows| - 1], rows[|rows| - 1];
      FreshOnce(init);
      assert [] + init == init;
      assert forall row :: row in rows <==> row in init || row == last;
    }
  }
}
