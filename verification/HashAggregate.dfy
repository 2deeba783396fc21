/** The aggregation operator's state (exec/aggregate.go, exec/parallel.go): group maps
    filled row by row or column by column, merged, and read out. */
module HashAggregates {
  import opened Batches
  import opened RowKeys
  import opened Aggregates
  import opened AggregateMeanings
  import opened Seqs

  // ---- Inputs -----------------------------------------------------------------------------

  function CellOf(row: seq<Cell>, c: nat): Cell {
    if c < |row| then row[c] else Null
  }

  /** COUNT(*) counts a constant. */
  function Argument(row: seq<Cell>, a: AggExpr): Cell {
    if a.col.None? then Num(1) else CellOf(row, a.col.value)
  }

  function Input(row: seq<Cell>, groupBy: seq<nat>, aggs: seq<AggExpr>): InRow {
    InRow(seq(|groupBy|, i requires 0 <= i < |groupBy| => CellOf(row, groupBy[i])),
          seq(|aggs|, j requires 0 <= j < |aggs| => Argument(row, aggs[j])))
  }

  function Inputs(rows: seq<seq<Cell>>, groupBy: seq<nat>, aggs: seq<AggExpr>): seq<InRow> {
    seq(|rows|, i requires 0 <= i < |rows| => Input(rows[i], groupBy, aggs))
  }

  function Kinds(aggs: seq<AggExpr>): seq<Kind> {
    seq(|aggs|, j requires 0 <= j < |aggs| => aggs[j].kind)
  }

  /** Inputs of storable rows are storable, and COUNT(*) never counts a NULL. */
  lemma {:induction false} InputOk(row: seq<Cell>, groupBy: seq<nat>, aggs: seq<AggExpr>)
    requires AllStorable(row)
    ensures RowOk(Input(row, groupBy, aggs))
    ensures forall j :: 0 <= j < |aggs| && aggs[j].col.None? ==> !InputAt(Input(row, groupBy, aggs), j).Null?
  {
  }

  lemma {:induction false} InputsOk(rows: seq<seq<Cell>>, groupBy: seq<nat>, aggs: seq<AggExpr>)
    requires RowsStorable(rows)
    ensures RowsOk(Inputs(rows, groupBy, aggs)) && CountsConstant(aggs, Inputs(rows, groupBy, aggs))
  {
    forall i | 0 <= i < |rows|
      ensures RowOk(Inputs(rows, groupBy, aggs)[i])
      ensures forall j :: 0 <= j < |aggs| && aggs[j].col.None? ==> !InputAt(Inputs(rows, groupBy, aggs)[i], j).Null?
    {
      InputOk(rows[i], groupBy, aggs);
    }
  }

  lemma {:induction false} AllRowsStorable(batches: seq<Batch>)
    requires forall i :: 0 <= i < |batches| ==> RowsStorable(Rows(batches[i]))
    ensures RowsStorable(AllRows(batches))
  {
    if batches != [] {
      AllRowsStorable(batches[1..]);
      assert RowsStorable(Rows(batches[0]));
    }
  }

  lemma {:induction false} InputsConcat(xs: seq<seq<Cell>>, ys: seq<seq<Cell>>, groupBy: seq<nat>, aggs: seq<AggExpr>)
    ensures Inputs(xs + ys, groupBy, aggs) == Inputs(xs, groupBy, aggs) + Inputs(ys, groupBy, aggs)
  {
  }

  /** `seen[i]` is the inputs of the first i batches. */
  ghost predicate InputsNext(seen: seq<seq<InRow>>, batches: seq<Batch>, groupBy: seq<nat>, aggs: seq<AggExpr>, i: nat)
    requires i < |batches| < |seen|
  {
    var next := seen[i + 1] == seen[i] + Inputs(Rows(batches[i]), groupBy, aggs);
    next
  }

  ghost function InputsUpTo(batches: seq<Batch>, groupBy: seq<nat>, aggs: seq<AggExpr>): (seen: seq<seq<InRow>>)
    ensures |seen| == |batches| + 1 && seen[0] == [] && seen[|batches|] == Inputs(AllRows(batches), groupBy, aggs)
    ensures forall i :: 0 <= i < |batches| ==> InputsNext(seen, batches, groupBy, aggs, i)
  {
    var seen := seq(|batches| + 1, i requires 0 <= i <= |batches| => Inputs(AllRows(batches[..i]), groupBy, aggs));
    assert forall i :: 0 <= i < |batches| ==> InputsNext(seen, batches, groupBy, aggs, i) by {
      forall i | 0 <= i < |batches| ensures InputsNext(seen, batches, groupBy, aggs, i) {
        AllRowsSnoc(batches, i);
        InputsConcat(AllRows(batches[..i]), Rows(batches[i]), groupBy, aggs);
      }
    }
    assert batches[..|batches|] == batches;
    seen
  }

  /** The inputs of COUNT(*) are never NULL. */
  ghost predicate CountsConstant(aggs: seq<AggExpr>, rows: seq<InRow>) {
    forall i, j :: 0 <= i < |rows| && 0 <= j < |aggs| && aggs[j].col.None? ==> !InputAt(rows[i], j).Null?
  }

  // ---- Columns ------------------------------------------------------------------------------

  /** One group's accumulators after some rows. */
  function FoldRows(kinds: seq<Kind>, accs: seq<Acc>, rows: seq<InRow>): (out: seq<Acc>)
    requires |accs| == |kinds|
    ensures |out| == |kinds|
  {
    if rows == [] then accs else FoldRow(kinds, FoldRows(kinds, accs, rows[..|rows| - 1]), rows[|rows| - 1])
  }

  /** One accumulator after its inputs from some rows. */
  function FoldColumn(k: Kind, a: Acc, rows: seq<InRow>, j: nat): Acc {
    if rows == [] then a else FoldCell(k, FoldColumn(k, a, rows[..|rows| - 1], j), InputAt(rows[|rows| - 1], j))
  }

  /** Folding column by column is folding row by row. */
  lemma {:induction false} ColumnsFold(kinds: seq<Kind>, accs: seq<Acc>, rows: seq<InRow>, j: nat)
    requires |accs| == |kinds| && j < |kinds|
    ensures FoldRows(kinds, accs, rows)[j] == FoldColumn(kinds[j], accs[j], rows, j)
  {
    if rows != [] {
      ColumnsFold(kinds, accs, rows[..|rows| - 1], j);
    }
  }

  /** COUNT(*) over a batch adds its length. */
  lemma {:induction false} CountAll(a: Acc, rows: seq<InRow>, j: nat)
    requires forall i :: 0 <= i < |rows| ==> !InputAt(rows[i], j).Null?
    requires MIN_INT64 <= a.acc <= MAX_INT64
    ensures FoldColumn(Count, a, rows, j) == Acc(Wrap(a.acc + |rows|), a.nonNull + |rows|, a.str)
  {
    if rows != [] {
      CountAll(a, rows[..|rows| - 1], j);
      WrapAdd(a.acc, |rows| - 1, 1);
    }
  }

  /** With no GROUP BY, all rows fold into the one group under the empty key. */
  lemma {:induction false} OneGroup(kinds: seq<Kind>, m: Groups, rows: seq<InRow>)
    requires rows != [] && forall i :: 0 <= i < |rows| ==> rows[i].group == []
    requires [] in m ==> |m[[]].accs| == |kinds| && m[[]].sample == []
    ensures FoldGroups(kinds, m, rows) ==
      m[[] := Group([], FoldRows(kinds, if [] in m then m[[]].accs else InitAccs(kinds), rows))]
  {
    var init, last := rows[..|rows| - 1], rows[|rows| - 1];
    assert KeyOf(last) == [];
    if init != [] {
      OneGroup(kinds, m, init);
    }
  }

  /** The implicit group of an ungrouped aggregate, opened if it is not there yet. */
  function Opened(kinds: seq<Kind>, m: Groups): Groups {
    if [] in m then m else m[[] := Group([], InitAccs(kinds))]
  }

  /** What the operator has after these inputs: their fold, except that an ungrouped one
      may have opened its group before any row came. */
  ghost predicate Consumed(kinds: seq<Kind>, direct: bool, rows: seq<InRow>, m: Groups) {
    || m == FoldGroups(kinds, map[], rows)
    || (direct && rows == [] && m == Opened(kinds, map[]))
  }

  ghost predicate Ungrouped(direct: bool, rows: seq<InRow>) {
    direct ==> forall i :: 0 <= i < |rows| ==> rows[i].group == []
  }

  lemma {:induction false} ConsumedNext(kinds: seq<Kind>, direct: bool, seen: seq<InRow>, m: Groups,
                                        rows: seq<InRow>, m': Groups)
    requires Consumed(kinds, direct, seen, m) && Ungrouped(direct, rows) && Ungrouped(direct, seen)
    requires m' == if direct && rows == [] then Opened(kinds, m) else FoldGroups(kinds, m, rows)
    ensures Consumed(kinds, direct, seen + rows, m')
  {
    if direct && rows == [] {
      assert seen + rows == seen;
      OpenedAfter(kinds, seen);
    } else if m == FoldGroups(kinds, map[], seen) {
      FoldConcat(kinds, map[], seen, rows);
    } else {
      assert seen + rows == rows;
      OpenedBefore(kinds, rows);
    }
  }

  /** Opening the group after rows changes nothing. */
  lemma {:induction false} OpenedAfter(kinds: seq<Kind>, rows: seq<InRow>)
    requires forall i :: 0 <= i < |rows| ==> rows[i].group == []
    ensures rows != [] ==> Opened(kinds, FoldGroups(kinds, map[], rows)) == FoldGroups(kinds, map[], rows)
  {
    if rows != [] {
      OneGroup(kinds, map[], rows);
    }
  }

  /** Nor does opening it before them. */
  lemma {:induction false} OpenedBefore(kinds: seq<Kind>, rows: seq<InRow>)
    requires rows != [] && forall i :: 0 <= i < |rows| ==> rows[i].group == []
    ensures FoldGroups(kinds, Opened(kinds, map[]), rows) == FoldGroups(kinds, map[], rows)
  {
    OneGroup(kinds, Opened(kinds, map[]), rows);
    OneGroup(kinds, map[], rows);
  }

  /** Where the ungrouped path starts from and what it leaves. */
  lemma {:induction false} DirectGroups(kinds: seq<Kind>, m: Groups, rows: seq<InRow>)
    requires SoundGroups(kinds, m) && RowsOk(rows) && forall i :: 0 <= i < |rows| ==> rows[i].group == []
    ensures SoundAccs(kinds, if [] in m then m[[]].accs else InitAccs(kinds))
    ensures var g := Group([], FoldRows(kinds, if [] in m then m[[]].accs else InitAccs(kinds), rows));
      && SoundGroups(kinds, m[[] := g])
      && (rows != [] ==> m[[] := g] == FoldGroups(kinds, m, rows))
      && (rows == [] ==> m[[] := g] == Opened(kinds, m))
  {
    if [] in m {
      EncodeEmpty(m[[]].sample);
    }
    if rows != [] {
      OneGroup(kinds, m, rows);
      FoldGroupsSound(kinds, m, rows);
    }
  }

  // ---- Output -------------------------------------------------------------------------------

  /** COUNT is never NULL; the others are NULL when every input was. */
  function OutputCell(k: Kind, a: Acc): Cell {
    if k.Count? then Num(a.acc)
    else if a.nonNull == 0 then Null
    else if k.MinText? || k.MaxText? then Text(a.str)
    else Num(a.acc)
  }

  function OutputCells(kinds: seq<Kind>, accs: seq<Acc>): seq<Cell>
    requires |accs| == |kinds|
  {
    seq(|kinds|, j requires 0 <= j < |kinds| => OutputCell(kinds[j], accs[j]))
  }

  /** The one row of an ungrouped aggregate over no input. */
  function EmptyGlobal(kinds: seq<Kind>): seq<Cell> {
    seq(|kinds|, j requires 0 <= j < |kinds| => if kinds[j].Count? then Num(0) else Null)
  }

  lemma {:induction false} EmptyIsInit(kinds: seq<Kind>)
    ensures OutputCells(kinds, InitAccs(kinds)) == EmptyGlobal(kinds)
  {
  }

  // ---- The answer, by the cells of the rows ----------------------------------------------------

  /** The rows whose GROUP BY columns hold exactly these cells. */
  function InGroup(groupBy: seq<nat>, g: seq<Cell>): seq<Cell> -> bool {
    row => |g| == |groupBy| && forall q :: 0 <= q < |groupBy| ==> groupBy[q] < |row| && row[groupBy[q]] == g[q]
  }

  /** What an aggregate reads of some rows: its column, or a constant for COUNT(*). */
  function ArgumentCells(rows: seq<seq<Cell>>, a: AggExpr): (cells: seq<Cell>)
    ensures |cells| == |rows|
  {
    seq(|rows|, i requires 0 <= i < |rows| =>
      if a.col.None? then Num(1) else if a.col.value < |rows[i]| then rows[i][a.col.value] else Null)
  }

  ghost predicate InSchema(rows: seq<seq<Cell>>, groupBy: seq<nat>) {
    forall r, q :: 0 <= r < |rows| && 0 <= q < |groupBy| ==> groupBy[q] < |rows[r]|
  }

  /** An output row: GROUP BY cells that some row has, then each aggregate of exactly the
      rows that have them. Without GROUP BY all rows are one group, even when there are none. */
  ghost predicate RowAnswers(groupBy: seq<nat>, aggs: seq<AggExpr>, rows: seq<seq<Cell>>, out: seq<Cell>) {
    && |out| == |groupBy| + |aggs|
    && var mine := Sift(rows, InGroup(groupBy, out[..|groupBy|]));
       && (groupBy != [] ==> mine != [])
       && forall j :: 0 <= j < |aggs| ==>
            Answers(aggs[j].kind, ArgumentCells(mine, aggs[j]), out[|groupBy| + j])
  }

  /** Some output row has the group of this row. */
  ghost predicate HasRow(groupBy: seq<nat>, out: seq<seq<Cell>>, row: seq<Cell>) {
    exists i :: 0 <= i < |out| && |groupBy| <= |out[i]| && InGroup(groupBy, out[i][..|groupBy|])(row)
  }

  /** The whole answer: one output row a group, and no group left out. */
  ghost predicate Answered(groupBy: seq<nat>, aggs: seq<AggExpr>, rows: seq<seq<Cell>>, out: seq<seq<Cell>>) {
    && (forall i :: 0 <= i < |out| ==> RowAnswers(groupBy, aggs, rows, out[i]))
    && (forall i, j :: 0 <= i < j < |out| ==> out[i][..|groupBy|] != out[j][..|groupBy|])
    && (forall r :: 0 <= r < |rows| ==> HasRow(groupBy, out, rows[r]))
    && (groupBy == [] ==> |out| == 1)
  }

  lemma {:induction false} OutputMeans(k: Kind, cells: seq<Cell>, a: Acc)
    requires Means(k, cells, a)
    ensures Answers(k, cells, OutputCell(k, a))
  {
  }

  /** The inputs of a group's rows are the inputs with that group. */
  lemma {:induction false} InputsOfGroup(rows: seq<seq<Cell>>, groupBy: seq<nat>, aggs: seq<AggExpr>, g: seq<Cell>)
    requires InSchema(rows, groupBy)
    ensures Sift(Inputs(rows, groupBy, aggs), OfGroup(g)) == Inputs(Sift(rows, InGroup(groupBy, g)), groupBy, aggs)
  {
    if rows != [] {
      var init, last := rows[..|rows| - 1], rows[|rows| - 1];
      InputsOfGroup(init, groupBy, aggs, g);
      var all := Inputs(rows, groupBy, aggs);
      assert all[..|rows| - 1] == Inputs(init, groupBy, aggs) && all[|rows| - 1] == Input(last, groupBy, aggs);
      InputGroup(last, groupBy, aggs, g);
      InputsConcat(Sift(init, InGroup(groupBy, g)), if InGroup(groupBy, g)(last) then [last] else [], groupBy, aggs);
    }
  }

  lemma {:induction false} InputGroup(row: seq<Cell>, groupBy: seq<nat>, aggs: seq<AggExpr>, g: seq<Cell>)
    requires forall q :: 0 <= q < |groupBy| ==> groupBy[q] < |row|
    ensures Input(row, groupBy, aggs).group == g <==> InGroup(groupBy, g)(row)
  {
    var mine := Input(row, groupBy, aggs).group;
    if InGroup(groupBy, g)(row) {
      assert forall q :: 0 <= q < |groupBy| ==> mine[q] == row[groupBy[q]] == g[q];
      assert mine == g;
    }
  }

  lemma {:induction false} InputCells(rows: seq<seq<Cell>>, groupBy: seq<nat>, aggs: seq<AggExpr>, j: nat)
    requires j < |aggs|
    ensures CellsAt(Inputs(rows, groupBy, aggs), j) == ArgumentCells(rows, aggs[j])
  {
  }

  /** A group's sample is the GROUP BY cells of some row. */
  lemma {:induction false} GroupSample(rows: seq<seq<Cell>>, groupBy: seq<nat>, aggs: seq<AggExpr>, g: Group)
    requires InSchema(rows, groupBy) && GroupMeans(Kinds(aggs), Inputs(rows, groupBy, aggs), g)
    ensures Sift(rows, InGroup(groupBy, g.sample)) != [] && |g.sample| == |groupBy|
    ensures RowsStorable(rows) ==> AllStorable(g.sample)
  {
    var mine := Sift(rows, InGroup(groupBy, g.sample));
    InputsOfGroup(rows, groupBy, aggs, g.sample);
    SiftFrom(rows, InGroup(groupBy, g.sample));
    assert InGroup(groupBy, g.sample)(mine[0]) && mine[0] in rows;
  }

  /** A group that means its inputs reads out as the answer for its rows. */
  lemma {:induction false} GroupAnswers(rows: seq<seq<Cell>>, groupBy: seq<nat>, aggs: seq<AggExpr>, g: Group, j: nat)
    requires InSchema(rows, groupBy) && j < |aggs| && GroupMeans(Kinds(aggs), Inputs(rows, groupBy, aggs), g)
    ensures Answers(aggs[j].kind, ArgumentCells(Sift(rows, InGroup(groupBy, g.sample)), aggs[j]),
                    OutputCells(Kinds(aggs), g.accs)[j])
  {
    var mine := Sift(rows, InGroup(groupBy, g.sample));
    InputsOfGroup(rows, groupBy, aggs, g.sample);
    InputCells(mine, groupBy, aggs, j);
    OutputMeans(Kinds(aggs)[j], CellsAt(Inputs(mine, groupBy, aggs), j), g.accs[j]);
  }

  /** Every row's group is among the listed ones. */
  lemma {:induction false} GroupListed(rows: seq<seq<Cell>>, groupBy: seq<nat>, aggs: seq<AggExpr>, ks: seq<Bytes>,
                                       m: Groups, r: nat) returns (i: nat)
    requires InSchema(rows, groupBy) && RowsStorable(rows) && Listed(ks, m) && r < |rows|
    requires GroupsMean(Kinds(aggs), Inputs(rows, groupBy, aggs), m)
    ensures i < |ks| && InGroup(groupBy, m[ks[i]].sample)(rows[r])
  {
    var row := Input(rows[r], groupBy, aggs);
    assert Inputs(rows, groupBy, aggs)[r] == row;
    var k := Encode(row.group);
    i :| 0 <= i < |ks| && ks[i] == k;
    GroupSample(rows, groupBy, aggs, m[k]);
    InputOk(rows[r], groupBy, aggs);
    EncodeInjective(m[k].sample, row.group);
    InputGroup(rows[r], groupBy, aggs, row.group);
  }

  /** Listed groups read out as one answer row each. */
  function ReadOut(aggs: seq<AggExpr>, ks: seq<Bytes>, m: Groups): (out: seq<seq<Cell>>)
    requires forall i :: 0 <= i < |ks| ==> ks[i] in m && |m[ks[i]].accs| == |aggs|
    ensures |out| == |ks|
  {
    seq(|ks|, i requires 0 <= i < |ks| => m[ks[i]].sample + OutputCells(Kinds(aggs), m[ks[i]].accs))
  }

  lemma {:induction false} RowOf(groupBy: seq<nat>, aggs: seq<AggExpr>, rows: seq<seq<Cell>>, g: seq<Cell>,
                                 cells: seq<Cell>)
    requires |g| == |groupBy| && |cells| == |aggs| && Sift(rows, InGroup(groupBy, g)) != []
    requires forall j :: 0 <= j < |aggs| ==>
      Answers(aggs[j].kind, ArgumentCells(Sift(rows, InGroup(groupBy, g)), aggs[j]), cells[j])
    ensures (g + cells)[..|groupBy|] == g && RowAnswers(groupBy, aggs, rows, g + cells)
  {
    assert (g + cells)[..|groupBy|] == g;
    assert forall j :: 0 <= j < |aggs| ==> (g + cells)[|groupBy| + j] == cells[j];
  }

  lemma {:induction false} GroupRow(rows: seq<seq<Cell>>, groupBy: seq<nat>, aggs: seq<AggExpr>, g: Group)
    requires InSchema(rows, groupBy) && GroupMeans(Kinds(aggs), Inputs(rows, groupBy, aggs), g)
    ensures var out := g.sample + OutputCells(Kinds(aggs), g.accs);
      |g.sample| == |groupBy| && out[..|groupBy|] == g.sample && RowAnswers(groupBy, aggs, rows, out)
  {
    GroupSample(rows, groupBy, aggs, g);
    forall j | 0 <= j < |aggs|
      ensures Answers(aggs[j].kind, ArgumentCells(Sift(rows, InGroup(groupBy, g.sample)), aggs[j]),
                      OutputCells(Kinds(aggs), g.accs)[j])
    {
      GroupAnswers(rows, groupBy, aggs, g, j);
    }
    RowOf(groupBy, aggs, rows, g.sample, OutputCells(Kinds(aggs), g.accs));
  }

  lemma {:induction false} GroupedAnswer(rows: seq<seq<Cell>>, groupBy: seq<nat>, aggs: seq<AggExpr>, ks: seq<Bytes>,
                                         m: Groups)
    requires groupBy != [] && InSchema(rows, groupBy) && RowsStorable(rows) && Listed(ks, m)
    requires GroupsMean(Kinds(aggs), Inputs(rows, groupBy, aggs), m)
    ensures Answered(groupBy, aggs, rows, ReadOut(aggs, ks, m))
  {
    var n, out := |groupBy|, ReadOut(aggs, ks, m);
    forall i | 0 <= i < |ks|
      ensures RowAnswers(groupBy, aggs, rows, out[i]) && out[i][..n] == m[ks[i]].sample
      ensures ks[i] == Encode(m[ks[i]].sample)
    {
      GroupRow(rows, groupBy, aggs, m[ks[i]]);
    }
    forall r | 0 <= r < |rows| ensures HasRow(groupBy, out, rows[r]) {
      var i := GroupListed(rows, groupBy, aggs, ks, m, r);
      assert InGroup(groupBy, out[i][..n])(rows[r]);
    }
  }

  /** Folding a column is folding its cells. */
  lemma {:induction false} ColumnIsCells(k: Kind, rows: seq<InRow>, j: nat)
    ensures FoldColumn(k, Init(k), rows, j) == FoldCells(k, CellsAt(rows, j))
  {
    if rows != [] {
      ColumnIsCells(k, rows[..|rows| - 1], j);
      assert CellsAt(rows, j)[..|rows| - 1] == CellsAt(rows[..|rows| - 1], j);
    }
  }

  lemma {:induction false} EveryRow(rows: seq<seq<Cell>>)
    ensures Sift(rows, InGroup([], [])) == rows
  {
    if rows != [] {
      EveryRow(rows[..|rows| - 1]);
    }
  }

  lemma {:induction false} GlobalCell(rows: seq<seq<Cell>>, aggs: seq<AggExpr>, j: nat)
    requires RowsStorable(rows) && j < |aggs|
    ensures var accs := FoldRows(Kinds(aggs), InitAccs(Kinds(aggs)), Inputs(rows, [], aggs));
      Answers(aggs[j].kind, ArgumentCells(rows, aggs[j]), OutputCells(Kinds(aggs), accs)[j])
  {
    var inputs := Inputs(rows, [], aggs);
    InputsOk(rows, [], aggs);
    ColumnsFold(Kinds(aggs), InitAccs(Kinds(aggs)), inputs, j);
    ColumnIsCells(aggs[j].kind, inputs, j);
    CellsStorable(inputs, inputs, j);
    FoldCellsMean(aggs[j].kind, CellsAt(inputs, j));
    InputCells(rows, [], aggs, j);
    OutputMeans(aggs[j].kind, CellsAt(inputs, j), FoldCells(aggs[j].kind, CellsAt(inputs, j)));
  }

  lemma {:induction false} GlobalAnswer(rows: seq<seq<Cell>>, aggs: seq<AggExpr>, out: seq<Cell>)
    requires RowsStorable(rows)
    requires out == OutputCells(Kinds(aggs), FoldRows(Kinds(aggs), InitAccs(Kinds(aggs)), Inputs(rows, [], aggs)))
    ensures Answered([], aggs, rows, [out])
  {
    EveryRow(rows);
    assert out[..0] == [];
    forall r | 0 <= r < |rows| ensures HasRow([], [out], rows[r]) {
      assert InGroup([], [out][0][..0])(rows[r]);
    }
    forall j | 0 <= j < |aggs| ensures Answers(aggs[j].kind, ArgumentCells(rows, aggs[j]), out[0 + j]) {
      GlobalCell(rows, aggs, j);
    }
  }

  ghost predicate NoRepeats<T>(s: seq<T>) {
    forall i, j :: 0 <= i < j < |s| ==> s[i] != s[j]
  }

  lemma {:induction false} AtMostOne<T>(s: seq<T>, x: T)
    requires NoRepeats(s) && forall i :: 0 <= i < |s| ==> s[i] == x
    ensures |s| <= 1
  {
    if s != [] {
      var i := if |s| == 1 then 0 else 1;
      assert s[0] == s[i];
    }
  }

  ghost predicate Listed(keys: seq<Bytes>, m: Groups) {
    NoRepeats(keys) && (forall i :: 0 <= i < |keys| ==> keys[i] in m) && (forall k :: k in m ==> k in keys)
  }

  /** The groups of the keys in a list. */
  function Restrict(m: Groups, keys: seq<Bytes>): Groups {
    map k | k in m && k in keys :: m[k]
  }

  lemma {:induction false} RestrictAll(m: Groups, keys: seq<Bytes>)
    requires Listed(keys, m)
    ensures Restrict(m, keys) == m
  {
  }

  lemma {:induction false} RestrictNext(m: Groups, keys: seq<Bytes>, i: nat)
    requires Listed(keys, m) && i < |keys|
    ensures keys[i] !in Restrict(m, keys[..i])
    ensures Restrict(m, keys[..i + 1]) == Restrict(m, keys[..i])[keys[i] := m[keys[i]]]
  {
    var k := keys[i];
    assert k !in keys[..i];
    assert keys[..i + 1] == keys[..i] + [k];
  }

  /** One more source group merged. */
  lemma {:induction false} MergeOne(kinds: seq<Kind>, dst: Groups, m: Groups, k: Bytes, g: Group)
    requires k !in m
    ensures k in MergeGroups(kinds, dst, m) <==> k in dst
    ensures k in dst ==> MergeGroups(kinds, dst, m)[k] == dst[k]
    ensures MergeGroups(kinds, dst, m[k := g]) ==
      MergeGroups(kinds, dst, m)[k := if k in dst then MergeGroup(kinds, dst[k], g) else g]
  {
    assert dst.Keys + m[k := g].Keys == (dst.Keys + m.Keys) + {k};
  }

  lemma {:induction false} ListedAdd(keys: seq<Bytes>, m: Groups, k: Bytes, g: Group)
    requires Listed(keys, m)
    ensures Listed(if k in m then keys else keys + [k], m[k := g])
  {
  }

  lemma {:induction false} MergeSound(kinds: seq<Kind>, dst: Groups, src: Groups)
    requires SoundGroups(kinds, dst) && SoundGroups(kinds, src)
    ensures SoundGroups(kinds, MergeGroups(kinds, dst, src))
  {
    forall k | k in dst && k in src ensures SoundAccs(kinds, MergeAccs(kinds, dst[k].accs, src[k].accs)) {
      MergeAccsSound(kinds, dst[k].accs, src[k].accs);
    }
  }

  lemma {:induction false} MergeAccsSound(kinds: seq<Kind>, dst: seq<Acc>, src: seq<Acc>)
    requires SoundAccs(kinds, dst) && SoundAccs(kinds, src)
    ensures SoundAccs(kinds, MergeAccs(kinds, dst, src))
  {
    forall j | 0 <= j < |kinds| ensures Sound(kinds[j], MergeAccs(kinds, dst, src)[j]) {
      MergeAccSound(kinds[j], dst[j], src[j]);
    }
  }

  lemma {:induction false} MergeAccSound(k: Kind, dst: Acc, src: Acc)
    requires Sound(k, dst) && Sound(k, src)
    ensures Sound(k, MergeAcc(k, dst, src))
  {
    MergeInit(k, Init(k));
  }

  class HashAggregate {
    const groupBy: seq<nat>
    const aggs: seq<AggExpr>
    var keys: seq<Bytes>        // group keys in insertion order
    var groups: Groups

    ghost predicate Valid()
      reads this
    {
      var valid := Listed(keys, groups) && SoundGroups(Kinds(aggs), groups);
      valid
    }

    constructor (groupBy: seq<nat>, aggs: seq<AggExpr>)
      ensures Valid() && this.groupBy == groupBy && this.aggs == aggs && groups == map[] && keys == []
    {
      this.groupBy, this.aggs := groupBy, aggs;
      keys, groups := [], map[];
    }

    /** foldRow: one row into one group's accumulators, aggregate by aggregate. */
    method FoldInto(accs: seq<Acc>, row: InRow) returns (out: seq<Acc>)
      requires |accs| == |aggs|
      ensures out == FoldRow(Kinds(aggs), accs, row)
    {
      out := accs;
      for j := 0 to |aggs|
        invariant |out| == |aggs| && (forall i :: j <= i < |aggs| ==> out[i] == accs[i])
        invariant forall i :: 0 <= i < j ==> out[i] == FoldCell(aggs[i].kind, accs[i], InputAt(row, i))
      {
        out := out[j := FoldCell(aggs[j].kind, accs[j], InputAt(row, j))];
      }
    }

    /** accumulateOneRow: opens the row's group if it is new and folds the row in. */
    method AccumulateRow(row: InRow)
      requires Valid() && RowOk(row)
      modifies this
      ensures Valid() && groups == Step(Kinds(aggs), old(groups), row)
    {
      StepSound(Kinds(aggs), groups, row);
      var key := BuildKey(row.group);
      var accs, sample := InitAccs(Kinds(aggs)), row.group;
      if key in groups {
        accs, sample := groups[key].accs, groups[key].sample;
      } else {
        keys := keys + [key];
      }
      var out := FoldInto(accs, row);
      groups := groups[key := Group(sample, out)];
    }

    /** The row loop of accumulate. */
    method AccumulateRows(rows: seq<InRow>)
      requires Valid() && RowsOk(rows)
      modifies this
      ensures Valid() && groups == FoldGroups(Kinds(aggs), old(groups), rows)
    {
      for i := 0 to |rows|
        invariant Valid() && groups == FoldGroups(Kinds(aggs), old(groups), rows[..i])
      {
        assert rows[..i + 1][..i] == rows[..i];
        AccumulateRow(rows[i]);
      }
      assert rows[..|rows|] == rows;
    }

    /** The input loop of one aggregate, with COUNT(*) taken in one step. */
    method AccumulateColumn(j: nat, a: Acc, rows: seq<InRow>) returns (out: Acc)
      requires j < |aggs| && Sound(aggs[j].kind, a)
      requires aggs[j].col.None? ==> forall i :: 0 <= i < |rows| ==> !InputAt(rows[i], j).Null?
      ensures out == FoldColumn(aggs[j].kind, a, rows, j)
    {
      if aggs[j].kind.Count? && aggs[j].col.None? {
        CountAll(a, rows, j);
        return Acc(Wrap(a.acc + |rows|), a.nonNull + |rows|, a.str);
      }
      out := a;
      for i := 0 to |rows|
        invariant out == FoldColumn(aggs[j].kind, a, rows[..i], j)
      {
        assert rows[..i + 1][..i] == rows[..i];
        out := FoldCell(aggs[j].kind, out, InputAt(rows[i], j));
      }
      assert rows[..|rows|] == rows;
    }

    method AccumulateColumns(accs: seq<Acc>, rows: seq<InRow>) returns (out: seq<Acc>)
      requires SoundAccs(Kinds(aggs), accs) && CountsConstant(aggs, rows)
      ensures out == FoldRows(Kinds(aggs), accs, rows)
    {
      out := accs;
      for j := 0 to |aggs|
        invariant |out| == |aggs| && (forall i :: j <= i < |aggs| ==> out[i] == accs[i])
        invariant forall i :: 0 <= i < j ==> out[i] == FoldRows(Kinds(aggs), accs, rows)[i]
      {
        assert Sound(Kinds(aggs)[j], accs[j]);
        ColumnsFold(Kinds(aggs), accs, rows, j);
        var a := AccumulateColumn(j, accs[j], rows);
        out := out[j := a];
      }
    }

    /** The ungrouped path: the one group under the empty key, column by column. It is
        opened even by a batch without rows. */
    method AccumulateDirect(rows: seq<InRow>)
      requires Valid() && RowsOk(rows) && CountsConstant(aggs, rows)
      requires forall i :: 0 <= i < |rows| ==>
        rows[i].group == []
      modifies this
      ensures Valid() && [] in groups
      ensures rows != [] ==> groups == FoldGroups(Kinds(aggs), old(groups), rows)
      ensures rows == [] ==> groups == Opened(Kinds(aggs), old(groups))
      ensures old(groups) == map[] && rows != [] ==> GroupsMean(Kinds(aggs), rows, groups)
    {
      FoldGroupsMean(Kinds(aggs), rows);
      DirectGroups(Kinds(aggs), groups, rows);
      var accs := if [] in groups then groups[[]].accs else InitAccs(Kinds(aggs));
      var out := AccumulateColumns(accs, rows);
      ListedAdd(keys, groups, [], Group([], out));
      if [] !in groups {
        keys := keys + [[]];
      }
      groups := groups[[] := Group([], out)];
    }

    /** accumulate: one batch's inputs, column by column when there is no GROUP BY and
        row by row otherwise. Both are the fold of the batch's rows, except that the
        ungrouped path opens its group even for a batch without rows. */
    method Accumulate(batch: Batch)
      requires Valid() && batch.Valid(|batch.vectors|) && RowsStorable(Rows(batch))
      modifies this
      ensures Valid() && (groupBy == [] && Rows(batch) == [] ==> groups == Opened(Kinds(aggs), old(groups)))
      ensures !(groupBy == [] && Rows(batch) == []) ==>
        groups == FoldGroups(Kinds(aggs), old(groups), Inputs(Rows(batch), groupBy, aggs))
      ensures old(groups) == map[] && Rows(batch) != [] ==>
        GroupsMean(Kinds(aggs), Inputs(Rows(batch), groupBy, aggs), groups)
    {
      InputsOk(Rows(batch), groupBy, aggs);
      FoldGroupsMean(Kinds(aggs), Inputs(Rows(batch), groupBy, aggs));
      var rows := Inputs(Rows(batch), groupBy, aggs);
      if groupBy == [] {
        AccumulateDirect(rows);
      } else {
        AccumulateRows(rows);
      }
    }

    /** One more batch after the inputs seen so far. */
    method AccumulateNext(batch: Batch, ghost seen: seq<InRow>, ghost rows: seq<InRow>, ghost all: seq<InRow>)
      requires Valid() && batch.Valid(|batch.vectors|) && RowsStorable(Rows(batch))
      requires rows == Inputs(Rows(batch), groupBy, aggs)
      requires all == seen + rows && Ungrouped(groupBy == [], seen)
      requires Consumed(Kinds(aggs), groupBy == [], seen, groups)
      modifies this
      ensures Valid() && Ungrouped(groupBy == [], all) && Consumed(Kinds(aggs), groupBy == [], all, groups)
    {
      ghost var m := groups;
      Accumulate(batch);
      ConsumedNext(Kinds(aggs), groupBy == [], seen, m, rows, groups);
    }

    /** consumeAll: the fold of every row the child yields, for every split into batches. */
    method ConsumeAll(batches: seq<Batch>)
      requires forall i :: 0 <= i < |batches| ==>
        batches[i].Valid(|batches[i].vectors|) && RowsStorable(Rows(batches[i]))
      modifies this
      ensures Valid() && Consumed(Kinds(aggs), groupBy == [], Inputs(AllRows(batches), groupBy, aggs), groups)
    {
      keys, groups := [], map[];
      ghost var seen := InputsUpTo(batches, groupBy, aggs);
      for i := 0 to |batches|
        invariant Valid() && Ungrouped(groupBy == [], seen[i]) && Consumed(Kinds(aggs), groupBy == [], seen[i], groups)
      {
        assert InputsNext(seen, batches, groupBy, aggs, i);
        AccumulateNext(batches[i], seen[i], Inputs(Rows(batches[i]), groupBy, aggs), seen[i + 1]);
      }
    }

    /** mergePartialAgg's loop over the aggregates of one group. */
    method MergeInto(dst: seq<Acc>, src: seq<Acc>) returns (out: seq<Acc>)
      requires |dst| == |src| == |aggs|
      ensures out == MergeAccs(Kinds(aggs), dst, src)
    {
      out := dst;
      for j := 0 to |aggs|
        invariant |out| == |aggs| && (forall i :: j <= i < |aggs| ==> out[i] == dst[i])
        invariant forall i :: 0 <= i < j ==> out[i] == MergeAcc(aggs[i].kind, dst[i], src[i])
      {
        out := out[j := MergeAcc(aggs[j].kind, dst[j], src[j])];
      }
    }

    method MergeKey(key: Bytes, g: Group)
      requires Listed(keys, groups) && |g.accs| == |aggs|
      requires key in groups ==> |groups[key].accs| == |aggs|
      modifies this
      ensures Listed(keys, groups)
      ensures groups ==
        old(groups)[key := if key in old(groups) then MergeGroup(Kinds(aggs), old(groups)[key], g) else g]
    {
      var g' := g;
      if key in groups {
        var out := MergeInto(groups[key].accs, g.accs);
        g' := Group(groups[key].sample, out);
      }
      ListedAdd(keys, groups, key, g');
      if key !in groups {
        keys := keys + [key];
      }
      groups := groups[key := g'];
    }

    /** mergePartialAgg: folds another partial's groups into this one. */
    method Merge(src: HashAggregate)
      requires Valid() && src.Valid() && src != this && src.aggs == aggs
      modifies this
      ensures Valid() && groups == MergeGroups(Kinds(aggs), old(groups), src.groups)
    {
      ghost var kinds, dst := Kinds(aggs), groups;
      assert MergeGroups(kinds, dst, Restrict(src.groups, src.keys[..0])) == dst;
      for i := 0 to |src.keys|
        invariant Listed(keys, groups) && src.Valid()
        invariant groups == MergeGroups(kinds, dst, Restrict(src.groups, src.keys[..i]))
      {
        var k := src.keys[i];
        RestrictNext(src.groups, src.keys, i);
        MergeOne(kinds, dst, Restrict(src.groups, src.keys[..i]), k, src.groups[k]);
        MergeKey(k, src.groups[k]);
      }
      assert src.keys[..|src.keys|] == src.keys;
      RestrictAll(src.groups, src.keys);
      MergeSound(kinds, dst, src.groups);
    }

    /** The rows read out: one a group, or the one row SQL demands of an ungrouped
        aggregate that saw nothing. */
    method Emit() returns (out: seq<seq<Cell>>)
      requires Valid()
      ensures out == Output(keys, groups)
    {
      if keys == [] && groupBy == [] {
        return [EmptyGlobal(Kinds(aggs))];
      }
      out := [];
      for i := 0 to |keys|
        invariant out == Output(keys, groups)[..i]
      {
        out := out + [groups[keys[i]].sample + OutputCells(Kinds(aggs), groups[keys[i]].accs)];
      }
    }

    /** The whole operator: with no GROUP BY exactly one row, over rows or over none; with
        one, a row for each group; each holds the aggregates of exactly its own rows. */
    method Run(batches: seq<Batch>) returns (out: seq<seq<Cell>>)
      requires forall i :: 0 <= i < |batches| ==>
        batches[i].Valid(|batches[i].vectors|) && RowsStorable(Rows(batches[i]))
      modifies this
      ensures Valid() && out == Output(keys, groups)
      ensures groupBy != [] ==> groups == FoldGroups(Kinds(aggs), map[], Inputs(AllRows(batches), groupBy, aggs))
      ensures groupBy == [] ==>
        out == [OutputCells(Kinds(aggs),
            FoldRows(Kinds(aggs), InitAccs(Kinds(aggs)), Inputs(AllRows(batches), groupBy, aggs)))]
      ensures InSchema(AllRows(batches), groupBy) ==> Answered(groupBy, aggs, AllRows(batches), out)
    {
      ConsumeAll(batches);
      out := Emit();
      AllRowsStorable(batches);
      InputsOk(AllRows(batches), groupBy, aggs);
      if groupBy == [] {
        OneGlobalRow(keys, groups, Inputs(AllRows(batches), groupBy, aggs));
        GlobalAnswer(AllRows(batches), aggs, out[0]);
      } else if InSchema(AllRows(batches), groupBy) {
        FoldGroupsMean(Kinds(aggs), Inputs(AllRows(batches), groupBy, aggs));
        GroupedAnswer(AllRows(batches), groupBy, aggs, keys, groups);
      }
    }

    function Output(ks: seq<Bytes>, m: Groups): seq<seq<Cell>>
      requires Listed(ks, m) && SoundGroups(Kinds(aggs), m)
    {
      if ks == [] && groupBy == [] then [EmptyGlobal(Kinds(aggs))]
      else ReadOut(aggs, ks, m)
    }

    /** An ungrouped aggregate yields exactly one row, over rows or over none. */
    lemma {:induction false} OneGlobalRow(ks: seq<Bytes>, m: Groups, rows: seq<InRow>)
      requires groupBy == [] && RowsOk(rows) && (forall i :: 0 <= i < |rows| ==> rows[i].group == [])
      requires SoundGroups(Kinds(aggs), m) && Listed(ks, m)
      requires Consumed(Kinds(aggs), true, rows, m)
      ensures Output(ks, m) == [OutputCells(Kinds(aggs), FoldRows(Kinds(aggs), InitAccs(Kinds(aggs)), rows))]
    {
      var kinds := Kinds(aggs);
      EmptyIsInit(kinds);
      if rows != [] {
        OneGroup(kinds, map[], rows);
      }
      if ks != [] {
        assert forall i :: 0 <= i < |ks| ==> ks[i] == [];
        AtMostOne(ks, []);
        var cells := OutputCells(kinds, FoldRows(kinds, InitAccs(kinds), rows));
        assert [] + cells == cells;
      } else {
        assert m == map[];
      }
    }
  }
}
