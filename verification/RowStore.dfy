/** The flat build-row store of a hash join (exec/join_table.go): row-major
    arrays addressed by a stable row index, grown by doubling. */
module RowStores {
  import opened Arith
  import opened Options
  import opened Batches

  const NO_ROW: int := -1
  const MAX_BUILD_ROWS: nat := 0x7FFF_FFFF      // the largest int32
  const ROW_STORE_MIN_ROWS: nat := 8

  /** Where row r starts in a row-major array of w cells a row. */
  function Off(r: nat, w: nat): nat {
    if r == 0 then 0 else Off(r - 1, w) + w
  }

  lemma {:induction false} OffIsProduct(r: nat, w: nat)
    ensures Off(r, w) == r * w
  {
    if r > 0 {
      OffIsProduct(r - 1, w);
      assert r * w == (r - 1) * w + w;
    }
  }

  lemma {:induction false} OffMono(a: nat, b: nat, w: nat)
    requires a <= b
    ensures Off(a, w) <= Off(b, w)
  {
    if a < b {
      OffMono(a, b - 1, w);
    }
  }

  lemma {:induction false} RowRange(r: nat, n: nat, w: nat)
    requires r < n
    ensures Off(r, w) + w <= Off(n, w)
  {
    OffMono(r + 1, n, w);
  }

  /** Doubling growth with a floor, never short of `need`, never past the largest
      row count an int32 index can address. */
  function NextRowCap(cur: nat, need: nat): (cap: nat)
    requires need <= MAX_BUILD_ROWS
    ensures need <= cap
    ensures cap == MAX_BUILD_ROWS || 2 * cur <= cap
    ensures cur <= MAX_BUILD_ROWS ==> cap <= MAX_BUILD_ROWS
  {
    var cap := cur * 2;
    var cap := if cap < need then need else cap;
    var cap := if cap < ROW_STORE_MIN_ROWS then ROW_STORE_MIN_ROWS else cap;
    if cap > MAX_BUILD_ROWS then MAX_BUILD_ROWS else cap
  }

  /** A bound that is no information, or that the store would refuse anyway, is
      not preallocated for. */
  function PresizeRows(rows: int): (cap: nat)
    ensures cap <= MAX_BUILD_ROWS
    ensures 0 <= rows <= MAX_BUILD_ROWS ==> cap == rows
  {
    if rows <= 0 || rows > MAX_BUILD_ROWS then 0 else rows
  }

  /** Column to string-window slot: the number of string columns before it, or -1. */
  function StrSlots(isStr: seq<bool>): (slots: seq<int>)
    ensures |slots| == |isStr|
    ensures forall c :: 0 <= c < |isStr| ==>
      (isStr[c] <==> slots[c] >= 0) && -1 <= slots[c] < StrWidth(isStr)
    ensures forall c, d :: 0 <= c < d < |isStr| && isStr[c] && isStr[d] ==> slots[c] != slots[d]
  {
    if isStr == [] then []
    else
      var last := |isStr| - 1;
      StrSlots(isStr[..last]) + [if isStr[last] then StrWidth(isStr[..last]) else -1]
  }

  function StrWidth(isStr: seq<bool>): nat {
    if isStr == [] then 0
    else StrWidth(isStr[..|isStr| - 1]) + if isStr[|isStr| - 1] then 1 else 0
  }

  /** A row fits a schema when exactly its string columns hold text. */
  ghost predicate Typed(row: seq<Cell>, isStr: seq<bool>) {
    && |row| == |isStr|
    && forall c :: 0 <= c < |row| ==>
         (row[c].Text? ==> isStr[c]) && (row[c].Num? ==> !isStr[c])
  }

  /** What a reader of one stored row sees (isNull, value and str in the source). */
  function Decode(isStr: seq<bool>, values: seq<int>, nulls: seq<bool>, strs: seq<string>): (row: seq<Cell>)
    requires |values| == |nulls| == |isStr| && |strs| == StrWidth(isStr)
    ensures |row| == |isStr|
  {
    var slots := StrSlots(isStr);
    seq(|isStr|, c requires 0 <= c < |isStr| =>
      if nulls[c] then Null
      else if slots[c] >= 0 then Text(strs[slots[c]])
      else Num(values[c]))
  }

  /** Row r of row-major arrays holding n rows. */
  function DecodeAt(isStr: seq<bool>, values: seq<int>, nulls: seq<bool>, strs: seq<string>, r: nat,
      n: nat): (row: seq<Cell>)
    requires r < n && |values| == |nulls| == Off(n, |isStr|) && |strs| == Off(n, StrWidth(isStr))
    ensures |row| == |isStr|
  {
    var c, w := |isStr|, StrWidth(isStr);
    RowRange(r, n, c);
    RowRange(r, n, w);
    Decode(isStr, values[Off(r, c)..Off(r, c) + c], nulls[Off(r, c)..Off(r, c) + c], strs[Off(r, w)..Off(r, w) + w])
  }

  /** A row reads the same in any longer arrays that extend these. */
  lemma {:induction false} DecodePrefix(isStr: seq<bool>, v: seq<int>, b: seq<bool>, s: seq<string>,
                     v': seq<int>, b': seq<bool>, s': seq<string>, r: nat, n: nat, n': nat)
    requires r < n <= n' && |v| == |b| == Off(n, |isStr|) && |s| == Off(n, StrWidth(isStr))
    requires |v'| == |b'| == Off(n', |isStr|) && |s'| == Off(n', StrWidth(isStr))
    requires v <= v' && b <= b' && s <= s'
    ensures DecodeAt(isStr, v, b, s, r, n) == DecodeAt(isStr, v', b', s', r, n')
  {
    var c, w := |isStr|, StrWidth(isStr);
    RowRange(r, n, c);
    RowRange(r, n, w);
    RowRange(r, n', c);
    RowRange(r, n', w);
    assert v[Off(r, c)..Off(r, c) + c] == v'[Off(r, c)..Off(r, c) + c];
    assert b[Off(r, c)..Off(r, c) + c] == b'[Off(r, c)..Off(r, c) + c];
    assert s[Off(r, w)..Off(r, w) + w] == s'[Off(r, w)..Off(r, w) + w];
  }

  /** Rows with equal windows read the same. */
  lemma {:induction false} SameWindow(isStr: seq<bool>, v: seq<int>, b: seq<bool>, s: seq<string>, r: nat, n: nat,
                   v': seq<int>, b': seq<bool>, s': seq<string>, r': nat, n': nat,
                   c: nat, w: nat, o: nat, o': nat, p: nat, p': nat)
    requires c == |isStr| && w == StrWidth(isStr)
    requires o == Off(r, c) && o' == Off(r', c) && p == Off(r, w) && p' == Off(r', w)
    requires r < n && |v| == |b| == Off(n, c) && |s| == Off(n, w)
    requires r' < n' && |v'| == |b'| == Off(n', c) && |s'| == Off(n', w)
    requires o + c <= |v| && o' + c <= |v'| && p + w <= |s| && p' + w <= |s'|
    requires v[o..o + c] == v'[o'..o' + c] && b[o..o + c] == b'[o'..o' + c] && s[p..p + w] == s'[p'..p' + w]
    ensures DecodeAt(isStr, v, b, s, r, n) == DecodeAt(isStr, v', b', s', r', n')
  {
  }

  /** A row of zeros reads as zero numbers and empty strings. */
  lemma {:induction false} DecodeZero(isStr: seq<bool>, v: seq<int>, b: seq<bool>, s: seq<string>, r: nat, n: nat)
    requires r < n && |v| == |b| == Off(n, |isStr|) && |s| == Off(n, StrWidth(isStr))
    requires ZeroFrom(v, Off(r, |isStr|), 0) && ZeroFrom(b, Off(r, |isStr|), false)
    requires ZeroFrom(s, Off(r, StrWidth(isStr)), "")
    ensures DecodeAt(isStr, v, b, s, r, n) == BlankRow(isStr)
  {
    RowRange(r, n, |isStr|);
    RowRange(r, n, StrWidth(isStr));
  }

  /** A row that reads as blank has no null flag set. */
  lemma {:induction false} BlankCells(isStr: seq<bool>, v: seq<int>, b: seq<bool>, s: seq<string>, r: nat, n: nat)
    requires r < n && |v| == |b| == Off(n, |isStr|) && |s| == Off(n, StrWidth(isStr))
    requires DecodeAt(isStr, v, b, s, r, n) == BlankRow(isStr)
    ensures Off(r, |isStr|) + |isStr| <= |b|
    ensures forall i :: Off(r, |isStr|) <= i < Off(r, |isStr|) + |isStr| ==> !b[i]
  {
    var w := |isStr|;
    RowRange(r, n, w);
    forall i | Off(r, w) <= i < Off(r, w) + w ensures !b[i] {
      var row := DecodeAt(isStr, v, b, s, r, n);
      assert row[i - Off(r, w)] == BlankRow(isStr)[i - Off(r, w)];
    }
  }

  /** Writing inside row r leaves every other row as it was. */
  lemma {:induction false} DecodeOther(isStr: seq<bool>, v: seq<int>, b: seq<bool>, s: seq<string>,
                    v': seq<int>, b': seq<bool>, s': seq<string>, r: nat, i: nat, n: nat)
    requires r < n && i < n && r != i
    requires |v| == |v'| == |b| == |b'| == Off(n, |isStr|) && |s| == |s'| == Off(n, StrWidth(isStr))
    requires SameOutside(v, v', Off(r, |isStr|), |isStr|) && SameOutside(b, b', Off(r, |isStr|), |isStr|)
    requires SameOutside(s, s', Off(r, StrWidth(isStr)), StrWidth(isStr))
    ensures DecodeAt(isStr, v, b, s, i, n) == DecodeAt(isStr, v', b', s', i, n)
  {
    var c, w := |isStr|, StrWidth(isStr);
    RowRange(i, n, c);
    RowRange(i, n, w);
    RowsApart(r, i, c);
    RowsApart(r, i, w);
    WindowSame(v, v', Off(r, c), Off(i, c), c);
    WindowSame(b, b', Off(r, c), Off(i, c), c);
    WindowSame(s, s', Off(r, w), Off(i, w), w);
  }

  lemma {:induction false} RowsApart(r: nat, i: nat, w: nat)
    requires r != i
    ensures Off(r, w) + w <= Off(i, w) || Off(i, w) + w <= Off(r, w)
  {
    if i < r {
      RowRange(i, r, w);
    } else {
      RowRange(r, i, w);
    }
  }

  lemma {:induction false} WindowSame<T>(s: seq<T>, s': seq<T>, off: int, lo: nat, w: nat)
    requires SameOutside(s, s', off, w) && lo + w <= |s|
    requires off + w <= lo || lo + w <= off
    ensures s[lo..lo + w] == s'[lo..lo + w]
  {
  }

  ghost predicate ZeroFrom<T>(s: seq<T>, off: int, zero: T) {
    forall i :: 0 <= i < |s| && off <= i ==> s[i] == zero
  }

  ghost predicate SameOutside<T>(s: seq<T>, s': seq<T>, off: int, w: nat) {
    |s| == |s'| && forall i :: 0 <= i < |s| && !(off <= i < off + w) ==> s[i] == s'[i]
  }

  /** Writing only inside row r keeps the blank tail and every other row. */
  lemma {:induction false} WindowWrite(isStr: seq<bool>, v: seq<int>, b: seq<bool>, s: seq<string>,
                    v': seq<int>, b': seq<bool>, s': seq<string>, r: nat, n: nat, cap: nat)
    requires r < n <= cap
    requires |v| == |b| == Off(cap, |isStr|) && |s| == Off(cap, StrWidth(isStr))
    requires SameOutside(v, v', Off(r, |isStr|), |isStr|) && SameOutside(b, b', Off(r, |isStr|), |isStr|)
    requires SameOutside(s, s', Off(r, StrWidth(isStr)), StrWidth(isStr))
    requires ZeroFrom(v, Off(n, |isStr|), 0) && ZeroFrom(b, Off(n, |isStr|), false)
    requires ZeroFrom(s, Off(n, StrWidth(isStr)), "")
    ensures ZeroFrom(v', Off(n, |isStr|), 0) && ZeroFrom(b', Off(n, |isStr|), false)
    ensures ZeroFrom(s', Off(n, StrWidth(isStr)), "")
    ensures forall i: nat :: i < cap && i != r ==>
      DecodeAt(isStr, v, b, s, i, cap) == DecodeAt(isStr, v', b', s', i, cap)
  {
    RowRange(r, n, |isStr|);
    RowRange(r, n, StrWidth(isStr));
    forall i: nat | i < cap && i != r
      ensures DecodeAt(isStr, v, b, s, i, cap) == DecodeAt(isStr, v', b', s', i, cap)
    {
      DecodeOther(isStr, v, b, s, v', b', s', r, i, cap);
    }
  }

  /** What a row shows before anything is written to it. */
  function BlankRow(isStr: seq<bool>): seq<Cell> {
    seq(|isStr|, c requires 0 <= c < |isStr| => if isStr[c] then Text("") else Num(0))
  }

  class RowStore {
    const isStr: seq<bool>
    const numCols: nat
    const strWidth: nat
    var values: array<int>
    var nulls: array<bool>
    var strs: array<string>
    var next: array<int>
    var n: nat
    var capRows: nat
    var grows: nat
    ghost var copied: nat  // rows moved by growth so far

    ghost function Repr(): set<object>
      reads this
    {
      {this, values, nulls, strs, next}
    }

    /** The arrays either stayed or were all replaced by new ones. */
    twostate predicate Rehoused()
      reads this
    {
      || (values == old(values) && nulls == old(nulls) && strs == old(strs) && next == old(next))
      || (fresh(values) && fresh(nulls) && fresh(strs) && fresh(next))
    }

    ghost predicate Shaped()
      reads this
    {
      && numCols == |isStr| && strWidth == StrWidth(isStr)
      && values != next && n <= capRows <= MAX_BUILD_ROWS
      && values.Length == Off(capRows, numCols) && nulls.Length == Off(capRows, numCols)
      && strs.Length == Off(capRows, strWidth) && next.Length == capRows
    }

    /** Nothing past the last appended row has ever been written. */
    ghost predicate ZeroTail()
      reads this, values, nulls, strs
    {
      ZeroFrom(values[..], Off(n, numCols), 0) && ZeroFrom(nulls[..], Off(n, numCols), false) &&
          ZeroFrom(strs[..], Off(n, strWidth), "")
    }

    ghost predicate Valid()
      reads this, values, nulls, strs
    {
      && Shaped() && ZeroTail()
      && (capRows == MAX_BUILD_ROWS || copied <= capRows)
      && (copied == 0 || copied < 2 * n)
    }

    /** The payload of row r. */
    ghost function Row(r: nat): (row: seq<Cell>)
      requires Shaped() && r < n
      reads this, values, nulls, strs
      ensures |row| == numCols
    {
      DecodeAt(isStr, values[..], nulls[..], strs[..], r, capRows)
    }

    /** One cell of a stored row, as isNull, value and str read it. */
    function CellAt(r: nat, c: nat): Cell
      requires Shaped() && r < n && c < numCols
      reads this, values, nulls, strs
    {
      RowRange(r, capRows, numCols);
      RowRange(r, capRows, strWidth);
      var slot := StrSlots(isStr)[c];
      if nulls[Off(r, numCols) + c] then Null
      else if slot >= 0 then Text(strs[Off(r, strWidth) + slot])
      else Num(values[Off(r, numCols) + c])
    }

    lemma {:induction false} CellOfRow(r: nat, c: nat)
      requires Shaped() && r < n && c < numCols
      ensures CellAt(r, c) == Row(r)[c]
    {
      RowRange(r, capRows, numCols);
      RowRange(r, capRows, strWidth);
    }

    constructor (isStr: seq<bool>, capRows: nat)
      requires capRows <= MAX_BUILD_ROWS
      ensures Valid() && fresh(Repr())
      ensures this.isStr == isStr && n == 0 && grows == 0 && this.capRows == capRows && copied == 0
    {
      this.isStr, numCols, strWidth := isStr, |isStr|, StrWidth(isStr);
      var w := StrWidth(isStr);
      values := new int[Off(capRows, |isStr|)](_ => 0);
      nulls := new bool[Off(capRows, |isStr|)](_ => false);
      strs := new string[Off(capRows, w)](_ => "");
      next := new int[capRows](_ => 0);
      n, this.capRows, grows, copied := 0, capRows, 0, 0;
    }

    /** A store whose rows all exist up front, to be filled by SetFrom. */
    constructor Sized(isStr: seq<bool>, rows: nat)
      requires rows <= MAX_BUILD_ROWS
      ensures Valid() && fresh(Repr())
      ensures this.isStr == isStr && n == rows && grows == 0 && copied == 0
    {
      this.isStr, numCols, strWidth := isStr, |isStr|, StrWidth(isStr);
      var w := StrWidth(isStr);
      values := new int[Off(rows, |isStr|)](_ => 0);
      nulls := new bool[Off(rows, |isStr|)](_ => false);
      strs := new string[Off(rows, w)](_ => "");
      next := new int[rows](_ => 0);
      n, capRows, grows, copied := rows, rows, 0, 0;
    }

    method MoveArrays(cap: nat)
      requires Shaped() && ZeroTail() && n == capRows <= cap
      modifies this`values, this`nulls, this`strs, this`next
      ensures fresh(values) && fresh(nulls) && fresh(strs) && fresh(next) && values != next
      ensures values.Length == nulls.Length == Off(cap, numCols)
      ensures strs.Length == Off(cap, strWidth) && next.Length == cap
      ensures old(values[..]) <= values[..] && old(nulls[..]) <= nulls[..] && old(strs[..]) <= strs[..]
      ensures old(next[..]) <= next[..]
      ensures ZeroTail()
    {
      OffMono(n, cap, numCols);
      OffMono(n, cap, strWidth);
      values := CopyInto(values, Off(n, numCols), Off(cap, numCols), 0);
      nulls := CopyInto(nulls, Off(n, numCols), Off(cap, numCols), false);
      strs := CopyInto(strs, Off(n, strWidth), Off(cap, strWidth), "");
      next := CopyInto(next, n, cap, 0);
    }

    /** Moves the arrays to a larger allocation; contents and row count stay. */
    method Reallocate(rows: nat)
      requires Valid() && rows == n + 1 && n == capRows && rows <= MAX_BUILD_ROWS
      modifies this
      ensures Shaped() && ZeroTail()
      ensures Rehoused()
      ensures n == old(n) && rows <= capRows && grows == old(grows) + 1
      ensures copied == old(copied) + n
      ensures capRows == MAX_BUILD_ROWS || copied <= capRows
      ensures forall i: nat :: i < n ==> Row(i) == old(Row(i))
      ensures next[..n] == old(next[..n])
    {
      ghost var v, b, s := values[..], nulls[..], strs[..];
      var cap := NextRowCap(capRows, rows);
      MoveArrays(cap);
      capRows, grows, copied := cap, grows + 1, copied + n;
      forall i: nat | i < n ensures Row(i) == old(Row(i)) {
        DecodePrefix(isStr, v, b, s, values[..], nulls[..], strs[..], i, n, cap);
      }
    }

    /** Exposes one more row of the allocated arrays. */
    method Expose()
      requires Shaped() && ZeroTail() && n < capRows
      modifies this`n
      ensures Shaped() && ZeroTail() && n == old(n) + 1
      ensures Row(old(n)) == BlankRow(isStr)
      ensures forall i: nat :: i < old(n) ==> Row(i) == old(Row(i))
    {
      OffMono(n, n + 1, numCols);
      OffMono(n, n + 1, strWidth);
      DecodeZero(isStr, values[..], nulls[..], strs[..], n, capRows);
      n := n + 1;
    }

    /** Adds one row and returns its index, or refuses at the int32 limit. */
    method Reserve() returns (r: Option<nat>)
      requires Valid()
      modifies this
      ensures Valid() && Rehoused()
      ensures r.None? <==> old(n) >= TWO31 - 1
      ensures r.None? ==> n == old(n)
      ensures r.Some? ==> r.value == old(n) && n == old(n) + 1 && Row(r.value) == BlankRow(isStr)
      ensures forall i: nat :: i < old(n) ==> Row(i) == old(Row(i))
      ensures next[..old(n)] == old(next[..n])
      ensures old(n) < old(capRows) ==> grows == old(grows) && capRows == old(capRows) && copied == old(copied)
    {
      if n >= MAX_BUILD_ROWS {
        return None;
      }
      if n + 1 > capRows {
        Reallocate(n + 1);
      }
      Expose();
      return Some(n - 1);
    }

    /** Copies the cells of one batch row into the reserved row r, which must still
        be blank; a text cell in a numeric column has nowhere to go and is dropped. */
    method WriteRow(r: nat, cells: seq<Cell>)
      requires Valid() && r < n && |cells| == numCols && Row(r) == BlankRow(isStr)
      modifies values, nulls, strs
      ensures Valid()
      ensures Typed(cells, isStr) ==> Row(r) == cells
      ensures forall i: nat :: i < n && i != r ==> Row(i) == old(Row(i))
    {
      RowRange(r, capRows, numCols);
      RowRange(r, capRows, strWidth);
      ghost var v, b, s := values[..], nulls[..], strs[..];
      BlankCells(isStr, v, b, s, r, capRows);
      WriteCells(values, nulls, strs, isStr, Off(r, numCols), Off(r, strWidth), cells);
      WindowWrite(isStr, v, b, s, values[..], nulls[..], strs[..], r, n, capRows);
    }

    /** Copies row srcRow of another store of the same schema over row dst. */
    method SetFrom(dst: nat, src: RowStore, srcRow: nat)
      requires Valid() && src.Valid() && src.isStr == isStr && dst < n && srcRow < src.n
      requires src != this && values != src.values && nulls != src.nulls && strs != src.strs
      modifies values, nulls, strs
      ensures Valid() && Row(dst) == src.Row(srcRow)
      ensures forall i: nat :: i < n && i != dst ==> Row(i) == old(Row(i))
    {
      RowRange(dst, capRows, numCols);
      RowRange(dst, capRows, strWidth);
      RowRange(srcRow, src.capRows, numCols);
      RowRange(srcRow, src.capRows, strWidth);
      ghost var v, b, s := values[..], nulls[..], strs[..];
      CopyCells(values, nulls, strs, Off(dst, numCols), Off(dst, strWidth),
                src.values, src.nulls, src.strs, Off(srcRow, numCols), Off(srcRow, strWidth), numCols, strWidth);
      WindowWrite(isStr, v, b, s, values[..], nulls[..], strs[..], dst, n, capRows);
      SameWindow(isStr, values[..], nulls[..], strs[..], dst, capRows, src.values[..], src.nulls[..], src.strs[..],
          srcRow, src.capRows,
                 numCols, strWidth, Off(dst, numCols), Off(srcRow, numCols), Off(dst, strWidth), Off(srcRow, strWidth));
    }

    /** Materialises one batch row into a new store row. */
    method AppendFrom(cells: seq<Cell>) returns (r: Option<nat>)
      requires Valid() && |cells| == numCols
      modifies this, values, nulls, strs, next
      ensures Valid() && Rehoused()
      ensures r.None? <==> old(n) >= TWO31 - 1
      ensures r.None? ==> n == old(n)
      ensures r.Some? ==> r.value == old(n) && n == old(n) + 1
      ensures r.Some? && Typed(cells, isStr) ==> Row(r.value) == cells
      ensures forall i: nat :: i < old(n) ==> Row(i) == old(Row(i))
      ensures next[..old(n)] == old(next[..n])
      ensures old(n) < old(capRows) ==> grows == old(grows) && capRows == old(capRows) && copied == old(copied)
    {
      r := Reserve();
      if r.Some? {
        WriteRow(r.value, cells);
      }
    }
  }

  /** The column loop of writeRow, over the row's windows of the three arrays. */
  method WriteCells(values: array<int>, nulls: array<bool>, strs: array<string>,
                    isStr: seq<bool>, vOff: nat, sOff: nat, cells: seq<Cell>)
    requires |cells| == |isStr| && vOff + |cells| <= values.Length == nulls.Length
    requires sOff + StrWidth(isStr) <= strs.Length
    requires forall i :: vOff <= i < vOff + |cells| ==> !nulls[i]
    modifies values, nulls, strs
    ensures SameOutside(old(values[..]), values[..], vOff, |cells|)
    ensures SameOutside(old(nulls[..]), nulls[..], vOff, |cells|)
    ensures SameOutside(old(strs[..]), strs[..], sOff, StrWidth(isStr))
    ensures Typed(cells, isStr) ==>
      Decode(isStr, values[..][vOff..vOff + |cells|], nulls[..][vOff..vOff + |cells|],
          strs[..][sOff..sOff + StrWidth(isStr)]) == cells
  {
    var slots, w := StrSlots(isStr), StrWidth(isStr);
    for c := 0 to |cells|
      invariant SameOutside(old(values[..]), values[..], vOff, c)
      invariant SameOutside(old(nulls[..]), nulls[..], vOff, c)
      invariant SameOutside(old(strs[..]), strs[..], sOff, w)
      invariant forall k :: 0 <= k < c ==> nulls[vOff + k] == cells[k].Null?
      invariant forall k :: 0 <= k < c && cells[k].Num? ==> values[vOff + k] == cells[k].bits
      invariant forall k :: 0 <= k < c && cells[k].Text? && isStr[k] ==> strs[sOff + slots[k]] == cells[k].s
    {
      match cells[c]
      case Null => nulls[vOff + c] := true;
      case Num(bits) => values[vOff + c] := bits;
      case Text(t) =>
        if slots[c] >= 0 {
          strs[sOff + slots[c]] := t;
        }
    }
  }

  /** `copy` of a w-element window of src over a window of dst. */
  method CopyWindow<T>(dst: array<T>, dOff: nat, src: array<T>, sOff: nat, w: nat)
    requires dst != src && dOff + w <= dst.Length && sOff + w <= src.Length
    modifies dst
    ensures SameOutside(old(dst[..]), dst[..], dOff, w)
    ensures dst[..][dOff..dOff + w] == src[..][sOff..sOff + w]
  {
    for i := 0 to w
      invariant SameOutside(old(dst[..]), dst[..], dOff, i)
      invariant dst[..][dOff..dOff + i] == src[..][sOff..sOff + i]
    {
      dst[dOff + i] := src[sOff + i];
    }
  }

  method CopyCells(values: array<int>, nulls: array<bool>, strs: array<string>, vOff: nat, sOff: nat,
                   values': array<int>, nulls': array<bool>, strs': array<string>, vOff': nat, sOff': nat, c: nat,
                       w: nat)
    requires values != values' && nulls != nulls' && strs != strs'
    requires vOff + c <= values.Length == nulls.Length && sOff + w <= strs.Length
    requires vOff' + c <= values'.Length == nulls'.Length && sOff' + w <= strs'.Length
    modifies values, nulls, strs
    ensures SameOutside(old(values[..]), values[..], vOff, c)
    ensures values[..][vOff..vOff + c] == values'[..][vOff'..vOff' + c]
    ensures SameOutside(old(nulls[..]), nulls[..], vOff, c) && nulls[..][vOff..vOff + c] == nulls'[..][vOff'..vOff' + c]
    ensures SameOutside(old(strs[..]), strs[..], sOff, w) && strs[..][sOff..sOff + w] == strs'[..][sOff'..sOff' + w]
  {
    CopyWindow(values, vOff, values', vOff', c);
    CopyWindow(nulls, vOff, nulls', vOff', c);
    CopyWindow(strs, sOff, strs', sOff', w);
  }

  /** `make` of the new size followed by `copy` of the first n elements. */
  method CopyInto<T(0)>(src: array<T>, n: nat, size: nat, zero: T) returns (dst: array<T>)
    requires n <= src.Length && n <= size
    ensures fresh(dst) && dst.Length == size
    ensures src[..n] <= dst[..] && dst[..n] == src[..n]
    ensures ZeroFrom(dst[..], n, zero)
  {
    dst := new T[size](_ => zero);
    for i := 0 to n
      invariant dst[..i] == src[..i]
      invariant forall j :: n <= j < size ==> dst[j] == zero
    {
      dst[i] := src[i];
    }
  }
}
