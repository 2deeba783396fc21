/** Scanning row groups (exec/scan.go, exec/row_bound.go): blocks of one row group after
    the other, skipping the groups the zone predicate rules out. */
module Scans {
  import opened Options
  import opened Arith

  const BLOCK_ROWS: nat := 1024

  /** The rows of the groups that are not pruned. */
  function Kept<R>(groups: seq<seq<R>>, keep: seq<bool>): seq<R>
    requires |keep| == |groups|
  {
    if groups == [] then []
    else (if keep[0] then groups[0] else []) + Kept(groups[1..], keep[1..])
  }

  class TableScan<R> {
    const groups: seq<seq<R>>
    const keep: seq<bool>       // what the zone predicate says of each row group
    var rgStart: nat
    var rgEnd: nat
    var rgIdx: nat
    var open: bool              // whether row group rgIdx has been opened
    var pos: nat                // rows of it already read

    ghost predicate Valid()
      reads this
    {
      && |keep| == |groups| && rgStart <= rgIdx && rgEnd <= |groups|
      && (open ==> rgIdx < rgEnd && pos <= |groups[rgIdx]|)
    }

    /** The rows still to come. */
    ghost function Pending(): seq<R>
      requires Valid()
      reads this
    {
      if open then groups[rgIdx][pos..] + Kept(groups[rgIdx + 1..rgEnd], keep[rgIdx + 1..rgEnd])
      else From(rgIdx)
    }

    ghost function From(i: nat): seq<R>
      requires |keep| == |groups| && rgEnd <= |groups|
      reads this
    {
      if i >= rgEnd then [] else Kept(groups[i..rgEnd], keep[i..rgEnd])
    }

    constructor (groups: seq<seq<R>>, keep: seq<bool>, rgStart: nat, rgEnd: nat)
      requires |keep| == |groups| && rgEnd <= |groups|
      ensures Valid() && this.groups == groups && this.keep == keep && this.rgEnd == rgEnd && Pending() == From(rgStart)
    {
      this.groups, this.keep, this.rgStart, this.rgEnd := groups, keep, rgStart, rgEnd;
      rgIdx, open, pos := rgStart, false, 0;
    }

    /** Repositions the scan, leaving nothing of the previous range. */
    method Reset(rgStart: nat, rgEnd: nat)
      requires Valid() && rgEnd <= |groups|
      modifies this
      ensures Valid() && this.rgStart == rgStart && this.rgEnd == rgEnd && Pending() == From(rgStart)
    {
      open, pos := false, 0;
      this.rgStart, this.rgEnd, rgIdx := rgStart, rgEnd, rgStart;
    }

    lemma {:induction false} FromStep(i: nat)
      requires |keep| == |groups| && rgEnd <= |groups| && i < rgEnd
      ensures From(i) == (if keep[i] then groups[i] else []) + From(i + 1)
      ensures From(i + 1) == Kept(groups[i + 1..rgEnd], keep[i + 1..rgEnd])
    {
      assert groups[i..rgEnd][1..] == groups[i + 1..rgEnd] && keep[i..rgEnd][1..] == keep[i + 1..rgEnd];
    }

    /** How far the scan still has to move. */
    ghost function Left(): nat
      reads this
    {
      if rgIdx >= rgEnd then 0 else 2 * (rgEnd - rgIdx) - if open then 1 else 0
    }

    /** Leaves a spent row group, opens the next one, or skips a pruned one. */
    method Move()
      requires Valid() && (if open then pos == |groups[rgIdx]| else rgIdx < rgEnd)
      modifies this`rgIdx, this`open, this`pos
      ensures Valid() && Pending() == old(Pending()) && Left() < old(Left())
    {
      FromStep(rgIdx);
      if open {
        open, rgIdx := false, rgIdx + 1;
      } else if keep[rgIdx] {
        open, pos := true, 0;
        assert groups[rgIdx][0..] == groups[rgIdx];
      } else {
        rgIdx := rgIdx + 1;
      }
    }

    /** Moves to a row group with rows left to read, skipping pruned and spent ones. */
    method Seek() returns (more: bool)
      requires Valid()
      modifies this`rgIdx, this`open, this`pos
      ensures Valid() && Pending() == old(Pending())
      ensures if more then open && pos < |groups[rgIdx]| else Pending() == []
    {
      while !open || pos == |groups[rgIdx]|
        invariant Valid() && Pending() == old(Pending())
        decreases Left()
      {
        if !open && rgIdx >= rgEnd {
          return false;
        }
        Move();
      }
      return true;
    }

    /** One block of the current row group, opening the next unpruned one when needed. */
    method Next() returns (block: Option<seq<R>>)
      requires Valid()
      modifies this`rgIdx, this`open, this`pos
      ensures Valid()
      ensures block.None? ==> old(Pending()) == [] && Pending() == []
      ensures block.Some? ==> 0 < |block.value| <= 1024 && block.value + Pending() == old(Pending())
    {
      var more := Seek();
      if !more {
        return None;
      }
      var rows := groups[rgIdx];
      var end := if pos + BLOCK_ROWS > |rows| then |rows| else pos + BLOCK_ROWS;
      assert rows[pos..] == rows[pos..end] + rows[end..];
      block := Some(rows[pos..end]);
      ConcatAssoc(rows[pos..end], rows[end..], Kept(groups[rgIdx + 1..rgEnd], keep[rgIdx + 1..rgEnd]));
      pos := end;
    }

    /** The row count of the range, from metadata alone: exactly what the scan yields. */
    method RowCountBound() returns (rows: nat)
      requires Valid()
      ensures rows == |From(rgStart)|
    {
      rows := 0;
      var i := rgStart;
      while i < rgEnd && i < |groups|
        invariant rows + |From(i)| == |From(rgStart)|
        decreases rgEnd - i
      {
        FromStep(i);
        if keep[i] {
          rows := rows + |groups[i]|;
        }
        i := i + 1;
      }
    }

    /** Reading to the end. */
    method Drain() returns (out: seq<R>)
      requires Valid()
      modifies this`rgIdx, this`open, this`pos
      ensures Valid() && out == old(Pending())
    {
      out := [];
      ghost var owed := Pending();
      while true
        invariant Valid() && owed == Pending() && out + owed == old(Pending())
        decreases |owed|
      {
        var b := Next();
        if b.None? {
          return;
        }
        ConcatAssoc(out, b.value, Pending());
        out, owed := out + b.value, Pending();
      }
    }
  }
}
