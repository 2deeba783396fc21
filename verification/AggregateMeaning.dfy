/** What aggregates compute, said of the input cells themselves (exec/aggregate.go): how
    many are not NULL, their sum modulo 2^64, and the least or greatest of them. */
module AggregateMeanings {
  import opened Arith
  import opened Seqs
  import opened Batches
  import opened RowKeys
  import opened Aggregates

  // ---- By cells -----------------------------------------------------------------------------

  function NonNulls(cells: seq<Cell>): nat {
    |Sift(cells, (c: Cell) => c != Null)|
  }

  /** The integer sum of the numbers. */
  function SumBits(cells: seq<Cell>): int {
    if cells == [] then 0
    else SumBits(cells[..|cells| - 1]) + match cells[|cells| - 1] { case Num(bits) => bits case _ => 0 }
  }

  /** The int64 that two's-complement addition leaves of an integer. */
  predicate Wraps(x: int, n: int) {
    -TWO63 <= x < TWO63 && (x - n) % TWO64 == 0
  }

  /** Byte order: at the first difference the smaller byte, or the end, comes first. */
  ghost predicate Before(s: string, t: string) {
    exists i: nat :: FirstDiffers(s, t, i)
  }

  predicate FirstDiffers(s: string, t: string, i: nat) {
    i < |t| && i <= |s| && s[..i] == t[..i] && (i == |s| || s[i] < t[i])
  }

  ghost predicate AllNumbers(cells: seq<Cell>) {
    forall i :: 0 <= i < |cells| ==> !cells[i].Text?
  }

  ghost predicate AllTexts(cells: seq<Cell>) {
    forall i :: 0 <= i < |cells| ==> !cells[i].Num?
  }

  ghost predicate IsLeast(x: int, cells: seq<Cell>) {
    Num(x) in cells && forall i :: 0 <= i < |cells| && cells[i].Num? ==> x <= cells[i].bits
  }

  ghost predicate IsGreatest(x: int, cells: seq<Cell>) {
    Num(x) in cells && forall i :: 0 <= i < |cells| && cells[i].Num? ==> cells[i].bits <= x
  }

  ghost predicate IsFirstText(s: string, cells: seq<Cell>) {
    Text(s) in cells && forall i :: 0 <= i < |cells| && cells[i].Text? ==> !Before(cells[i].s, s)
  }

  ghost predicate IsLastText(s: string, cells: seq<Cell>) {
    Text(s) in cells && forall i :: 0 <= i < |cells| && cells[i].Text? ==> !Before(s, cells[i].s)
  }

  /** An accumulator after these inputs. MIN and MAX of numbers are over columns without
      text, and the other way round. */
  ghost predicate Means(k: Kind, cells: seq<Cell>, a: Acc) {
    && a.nonNull == NonNulls(cells)
    && match k
       case Count => Wraps(a.acc, NonNulls(cells))
       case Sum => Wraps(a.acc, SumBits(cells))
       case Min => NonNulls(cells) > 0 && AllNumbers(cells) ==> IsLeast(a.acc, cells)
       case Max => NonNulls(cells) > 0 && AllNumbers(cells) ==> IsGreatest(a.acc, cells)
       case MinText => NonNulls(cells) > 0 && AllTexts(cells) ==> IsFirstText(a.str, cells)
       case MaxText => NonNulls(cells) > 0 && AllTexts(cells) ==> IsLastText(a.str, cells)
  }

  /** The output cell of an aggregate over these inputs: NULL exactly when all of them were,
      except that COUNT never is. */
  ghost predicate Answers(k: Kind, cells: seq<Cell>, out: Cell) {
    if k.Count? then out.Num? && Wraps(out.bits, NonNulls(cells))
    else
      && (out == Null <==> NonNulls(cells) == 0)
      && (NonNulls(cells) > 0 ==>
            match k
            case Sum => out.Num? && Wraps(out.bits, SumBits(cells))
            case Min => AllNumbers(cells) ==> out.Num? && IsLeast(out.bits, cells)
            case Max => AllNumbers(cells) ==> out.Num? && IsGreatest(out.bits, cells)
            case MinText => AllTexts(cells) ==> out.Text? && IsFirstText(out.s, cells)
            case MaxText => AllTexts(cells) ==> out.Text? && IsLastText(out.s, cells)
            case Count => true)
  }

  // ---- The fold of one column ------------------------------------------------------------------

  function FoldCells(k: Kind, cells: seq<Cell>): Acc {
    if cells == [] then Init(k) else FoldCell(k, FoldCells(k, cells[..|cells| - 1]), cells[|cells| - 1])
  }

  lemma {:induction false} LessMeans(s: string, t: string)
    ensures Less(s, t) <==> Before(s, t)
    decreases |s|
  {
    if t != [] && s != [] && s[0] == t[0] {
      LessMeans(s[1..], t[1..]);
      if i: nat :| FirstDiffers(s[1..], t[1..], i) {
        assert s[..i + 1] == [s[0]] + s[1..][..i] && t[..i + 1] == [t[0]] + t[1..][..i];
        assert FirstDiffers(s, t, i + 1);
      }
      if i: nat :| FirstDiffers(s, t, i) {
        assert i > 0;
        assert s[1..][..i - 1] == s[..i][1..] && t[1..][..i - 1] == t[..i][1..];
        assert FirstDiffers(s[1..], t[1..], i - 1);
      }
    } else {
      if Less(s, t) {
        assert FirstDiffers(s, t, 0);
      }
      forall i: nat ensures FirstDiffers(s, t, i) ==> Less(s, t) {
        SameStart(s, t, i);
      }
    }
  }

  lemma {:induction false} SameStart(s: string, t: string, i: nat)
    ensures FirstDiffers(s, t, i) && i > 0 ==> s[0] == t[0]
  {
    if FirstDiffers(s, t, i) && i > 0 {
      assert s[..i][0] == t[..i][0];
    }
  }

  lemma {:induction false} WrapWraps(x: int, n: int, d: int)
    requires Wraps(x, n)
    ensures Wraps(Wrap(x + d), n + d)
  {
    var y := x + d;
    var q, p := (y + TWO63) / TWO64, (x - n) / TWO64;
    assert Wrap(y) == y - q * TWO64 && x - n == p * TWO64;
    assert Wrap(y) - (n + d) == (p - q) * TWO64;
    MultipleOf(p - q);
  }

  lemma {:induction false} MultipleOf(q: int)
    ensures (q * TWO64) % TWO64 == 0
  {
    ModUnique(q * TWO64, q, 0);
  }

  lemma {:induction false} NonNullsSnoc(cells: seq<Cell>, c: Cell)
    ensures NonNulls(cells + [c]) == NonNulls(cells) + if c == Null then 0 else 1
    ensures SumBits(cells + [c]) == SumBits(cells) + match c { case Num(bits) => bits case _ => 0 }
  {
    assert (cells + [c])[..|cells|] == cells;
  }

  lemma {:induction false} NoneNonNull(cells: seq<Cell>)
    requires NonNulls(cells) == 0
    ensures forall i :: 0 <= i < |cells| ==> cells[i] == Null
  {
    if cells != [] {
      NonNullsSnoc(cells[..|cells| - 1], cells[|cells| - 1]);
      assert cells[..|cells| - 1] + [cells[|cells| - 1]] == cells;
      NoneNonNull(cells[..|cells| - 1]);
    }
  }

  /** One more number. */
  lemma {:induction false} LeastStep(x: int, cells: seq<Cell>, d: int)
    requires NonNulls(cells) > 0 ==> IsLeast(x, cells)
    requires NonNulls(cells) == 0 ==> d <= x
    ensures IsLeast(if d < x then d else x, cells + [Num(d)])
  {
    var out := cells + [Num(d)];
    assert out[|cells|] == Num(d);
    if NonNulls(cells) == 0 {
      NoneNonNull(cells);
    } else {
      assert Num(x) in out;
    }
  }

  lemma {:induction false} GreatestStep(x: int, cells: seq<Cell>, d: int)
    requires NonNulls(cells) > 0 ==> IsGreatest(x, cells)
    requires NonNulls(cells) == 0 ==> x <= d
    ensures IsGreatest(if d > x then d else x, cells + [Num(d)])
  {
    var out := cells + [Num(d)];
    assert out[|cells|] == Num(d);
    if NonNulls(cells) == 0 {
      NoneNonNull(cells);
    } else {
      assert Num(x) in out;
    }
  }

  lemma {:induction false} FirstTextStep(s: string, cells: seq<Cell>, t: string)
    requires NonNulls(cells) > 0 ==> IsFirstText(s, cells)
    ensures IsFirstText(MinMaxString(s, t, NonNulls(cells) > 0, true), cells + [Text(t)])
  {
    var out, r := cells + [Text(t)], MinMaxString(s, t, NonNulls(cells) > 0, true);
    assert out[|cells|] == Text(t);
    if NonNulls(cells) == 0 {
      NoneNonNull(cells);
    } else {
      assert Text(s) in out;
    }
    forall i | 0 <= i < |out| && out[i].Text? ensures !Before(out[i].s, r) {
      LessMeans(out[i].s, r);
      LessMeans(out[i].s, s);
      LessTotal(out[i].s, r);
      LessTotal(s, t);
      LessTransitive(out[i].s, t, s);
    }
  }

  lemma {:induction false} LastTextStep(s: string, cells: seq<Cell>, t: string)
    requires NonNulls(cells) > 0 ==> IsLastText(s, cells)
    ensures IsLastText(MinMaxString(s, t, NonNulls(cells) > 0, false), cells + [Text(t)])
  {
    var out, r := cells + [Text(t)], MinMaxString(s, t, NonNulls(cells) > 0, false);
    assert out[|cells|] == Text(t);
    if NonNulls(cells) == 0 {
      NoneNonNull(cells);
    } else {
      assert Text(s) in out;
    }
    forall i | 0 <= i < |out| && out[i].Text? ensures !Before(r, out[i].s) {
      LessMeans(r, out[i].s);
      LessMeans(s, out[i].s);
      LessTotal(r, out[i].s);
      LessTotal(s, t);
      LessTransitive(s, t, out[i].s);
    }
  }

  /** A NULL input leaves everything as it was. */
  lemma {:induction false} NullStep(k: Kind, cells: seq<Cell>, a: Acc)
    requires Means(k, cells, a)
    ensures Means(k, cells + [Null], a)
  {
    NonNullsSnoc(cells, Null);
    var out := cells + [Null];
    assert forall c :: c != Null ==> (c in out <==> c in cells);
    assert forall i :: 0 <= i < |cells| ==> out[i] == cells[i];
  }

  lemma {:induction false} TotalStep(k: Kind, cells: seq<Cell>, a: Acc, c: Cell)
    requires Means(k, cells, a) && (k.Count? || k.Sum?) && c != Null
    ensures Means(k, cells + [c], FoldCell(k, a, c))
  {
    NonNullsSnoc(cells, c);
    if k.Count? {
      WrapWraps(a.acc, NonNulls(cells), 1);
    } else {
      WrapWraps(a.acc, SumBits(cells), Image(c));
    }
  }

  lemma {:induction false} NumberStep(k: Kind, cells: seq<Cell>, a: Acc, c: Cell)
    requires Means(k, cells, a) && (k.Min? || k.Max?) && Storable(c) && c != Null
    requires NonNulls(cells) == 0 ==> a == Init(k)
    ensures Means(k, cells + [c], FoldCell(k, a, c))
  {
    NonNullsSnoc(cells, c);
    var out := cells + [c];
    if AllNumbers(out) {
      assert forall i :: 0 <= i < |cells| ==> out[i] == cells[i];
      assert out[|cells|] == c;
      if k.Min? {
        LeastStep(a.acc, cells, c.bits);
      } else {
        GreatestStep(a.acc, cells, c.bits);
      }
    }
  }

  lemma {:induction false} TextStep(k: Kind, cells: seq<Cell>, a: Acc, c: Cell)
    requires Means(k, cells, a) && (k.MinText? || k.MaxText?) && c != Null
    ensures Means(k, cells + [c], FoldCell(k, a, c))
  {
    NonNullsSnoc(cells, c);
    var out := cells + [c];
    if AllTexts(out) {
      assert forall i :: 0 <= i < |cells| ==> out[i] == cells[i];
      assert out[|cells|] == c;
      if k.MinText? {
        FirstTextStep(a.str, cells, c.s);
      } else {
        LastTextStep(a.str, cells, c.s);
      }
    }
  }

  /** One more input. */
  lemma {:induction false} MeansStep(k: Kind, cells: seq<Cell>, a: Acc, c: Cell)
    requires Means(k, cells, a) && Storable(c) && (NonNulls(cells) == 0 ==> a == Init(k))
    ensures Means(k, cells + [c], FoldCell(k, a, c))
  {
    if c == Null {
      NullStep(k, cells, a);
    } else if k.Count? || k.Sum? {
      TotalStep(k, cells, a, c);
    } else if k.Min? || k.Max? {
      NumberStep(k, cells, a, c);
    } else {
      TextStep(k, cells, a, c);
    }
  }

  lemma {:induction false} FoldCellsMean(k: Kind, cells: seq<Cell>)
    requires AllStorable(cells)
    ensures Means(k, cells, FoldCells(k, cells))
    ensures NonNulls(cells) == 0 ==> FoldCells(k, cells) == Init(k)
  {
    if cells != [] {
      var init, last := cells[..|cells| - 1], cells[|cells| - 1];
      assert init + [last] == cells;
      FoldCellsMean(k, init);
      MeansStep(k, init, FoldCells(k, init), last);
      NonNullsSnoc(init, last);
    }
  }

  // ---- Groups -----------------------------------------------------------------------------------

  function OfGroup(g: seq<Cell>): InRow -> bool {
    (row: InRow) => row.group == g
  }

  /** The j-th inputs of some rows. */
  function CellsAt(rows: seq<InRow>, j: nat): (cells: seq<Cell>)
    ensures |cells| == |rows|
  {
    seq(|rows|, i requires 0 <= i < |rows| => if j < |rows[i].inputs| then rows[i].inputs[j] else Null)
  }

  /** A group holds, for each aggregate, what its own rows' inputs come to. */
  ghost predicate GroupMeans(kinds: seq<Kind>, rows: seq<InRow>, g: Group) {
    && Sift(rows, OfGroup(g.sample)) != [] && |g.accs| == |kinds|
    && forall j :: 0 <= j < |kinds| ==> Means(kinds[j], CellsAt(Sift(rows, OfGroup(g.sample)), j), g.accs[j])
  }

  /** The groups are exactly those of the rows, each under its own key. */
  ghost predicate GroupsMean(kinds: seq<Kind>, rows: seq<InRow>, m: Groups) {
    && (forall i :: 0 <= i < |rows| ==> Encode(rows[i].group) in m)
    && forall k :: k in m ==> k == Encode(m[k].sample) && GroupMeans(kinds, rows, m[k])
  }

  function OfKey(k: Bytes): InRow -> bool {
    (row: InRow) => KeyOf(row) == k
  }

  /** The rows of a key make up its group. */
  ghost predicate FoldedFrom(kinds: seq<Kind>, mine: seq<InRow>, m: Groups, k: Bytes) {
    && (k in m <==> mine != [])
    && (k in m ==>
          && m[k].sample == mine[0].group && |m[k].accs| == |kinds|
          && forall j :: 0 <= j < |kinds| ==> m[k].accs[j] == FoldCells(kinds[j], CellsAt(mine, j)))
  }

  lemma {:induction false} FoldedStep(kinds: seq<Kind>, mine: seq<InRow>, m: Groups, k: Bytes, row: InRow)
    requires FoldedFrom(kinds, mine, m, k)
    ensures FoldedFrom(kinds, if KeyOf(row) == k then mine + [row] else mine, Step(kinds, m, row), k)
  {
    if KeyOf(row) == k {
      var more := mine + [row];
      forall j | 0 <= j < |kinds|
        ensures Step(kinds, m, row)[k].accs[j] == FoldCells(kinds[j], CellsAt(more, j))
      {
        assert CellsAt(more, j)[..|mine|] == CellsAt(mine, j);
        assert CellsAt(more, j)[|mine|] == InputAt(row, j);
        assert mine == [] ==> CellsAt(mine, j) == [];
      }
    }
  }

  lemma {:induction false} GroupIsFold(kinds: seq<Kind>, rows: seq<InRow>, k: Bytes)
    ensures FoldedFrom(kinds, Sift(rows, OfKey(k)), FoldGroups(kinds, map[], rows), k)
  {
    if rows != [] {
      var init, last := rows[..|rows| - 1], rows[|rows| - 1];
      GroupIsFold(kinds, init, k);
      FoldedStep(kinds, Sift(init, OfKey(k)), FoldGroups(kinds, map[], init), k, last);
      assert Sift(rows, OfKey(k)) == if KeyOf(last) == k then Sift(init, OfKey(k)) + [last] else Sift(init, OfKey(k));
    }
  }

  /** Keys name groups: rows of one key are the rows of one group. */
  lemma {:induction false} SameRows(rows: seq<InRow>, g: seq<Cell>)
    requires RowsOk(rows) && AllStorable(g)
    ensures Sift(rows, OfKey(Encode(g))) == Sift(rows, OfGroup(g))
  {
    if rows != [] {
      SameRows(rows[..|rows| - 1], g);
      var last := rows[|rows| - 1];
      assert RowOk(last);
      if KeyOf(last) == Encode(g) {
        EncodeInjective(last.group, g);
      }
    }
  }

  lemma {:induction false} SiftFrom<T>(s: seq<T>, passes: T -> bool)
    ensures forall i :: 0 <= i < |Sift(s, passes)| ==> Sift(s, passes)[i] in s && passes(Sift(s, passes)[i])
    ensures forall x :: x in s && passes(x) ==> x in Sift(s, passes)
  {
    if s != [] {
      var init, last := s[..|s| - 1], s[|s| - 1];
      SiftFrom(init, passes);
      assert forall x :: x in s <==> x in init || x == last;
    }
  }

  lemma {:induction false} CellsStorable(rows: seq<InRow>, all: seq<InRow>, j: nat)
    requires RowsOk(all) && forall i :: 0 <= i < |rows| ==> rows[i] in all
    ensures AllStorable(CellsAt(rows, j))
  {
    forall i | 0 <= i < |rows| ensures Storable(CellsAt(rows, j)[i]) {
      assert rows[i] in all;
    }
  }

  lemma {:induction false} GroupAtMeans(kinds: seq<Kind>, rows: seq<InRow>, k: Bytes)
    requires RowsOk(rows) && k in FoldGroups(kinds, map[], rows)
    ensures var g := FoldGroups(kinds, map[], rows)[k]; k == Encode(g.sample) && GroupMeans(kinds, rows, g)
  {
    var g, mine := FoldGroups(kinds, map[], rows)[k], Sift(rows, OfKey(k));
    GroupIsFold(kinds, rows, k);
    SiftFrom(rows, OfKey(k));
    assert mine[0] in rows && KeyOf(mine[0]) == k && RowOk(mine[0]);
    SameRows(rows, g.sample);
    forall j | 0 <= j < |kinds| ensures Means(kinds[j], CellsAt(mine, j), g.accs[j]) {
      CellsStorable(mine, rows, j);
      FoldCellsMean(kinds[j], CellsAt(mine, j));
    }
  }

  /** What the reference fold of some rows means. */
  lemma {:induction false} FoldGroupsMean(kinds: seq<Kind>, rows: seq<InRow>)
    requires RowsOk(rows)
    ensures GroupsMean(kinds, rows, FoldGroups(kinds, map[], rows))
  {
    var m := FoldGroups(kinds, map[], rows);
    forall i | 0 <= i < |rows| ensures Encode(rows[i].group) in m {
      var k := KeyOf(rows[i]);
      GroupIsFold(kinds, rows, k);
      SiftFrom(rows, OfKey(k));
      assert rows[i] in rows && OfKey(k)(rows[i]);
      assert rows[i] in Sift(rows, OfKey(k));
    }
    forall k | k in m ensures k == Encode(m[k].sample) && GroupMeans(kinds, rows, m[k]) {
      GroupAtMeans(kinds, rows, k);
    }
  }
}
