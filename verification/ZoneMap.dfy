/** Zone maps end to end: the writer's minimum and maximum (storage/writer.go), the
    planner's pruning test (planner/physical.go), and the scan that skips
    (exec/scan.go). */
module ZoneMaps {
  import opened Options
  import opened Arith
  import opened Sql
  import opened Plans
  import Scans

  // ---- Raw bits ---------------------------------------------------------------------------

  function ToU64(v: int): int {
    v % TWO64
  }

  function FromU64(u: int): int {
    if u >= TWO63 then u - TWO64 else u
  }

  /** A DATE is stored zero-extended from its 32 bits. */
  function ToU32(v: int): int {
    v % TWO32
  }

  function FromU32(u: int): int {
    var low := u % TWO32;
    if low >= TWO31 then low - TWO32 else low
  }

  lemma {:induction false} RawInt64(v: int)
    requires IsInt64(v)
    ensures FromU64(ToU64(v)) == v
  {
  }

  lemma {:induction false} RawInt32(v: int)
    requires IsInt32(v)
    ensures FromU32(ToU32(v)) == v
  {
  }

  // ---- The writer -------------------------------------------------------------------------

  datatype ZoneMap = ZoneMap(nullCount: nat, min: int, max: int, hasMinMax: bool)

  function Raw(date: bool, v: int): int {
    if date then ToU32(v) else ToU64(v)
  }

  function Value(date: bool, u: int): int {
    if date then FromU32(u) else FromU64(u)
  }

  predicate InDomain(date: bool, v: int) {
    if date then IsInt32(v) else IsInt64(v)
  }

  lemma {:induction false} RawValue(date: bool, v: int)
    requires InDomain(date, v)
    ensures Value(date, Raw(date, v)) == v
  {
    if date {
      RawInt32(v);
    } else {
      RawInt64(v);
    }
  }

  /** Column values, absent where NULL. */
  type Column = seq<Option<int>>

  ghost predicate ColumnOk(date: bool, col: Column) {
    forall i :: 0 <= i < |col| && col[i].Some? ==> InDomain(date, col[i].value)
  }

  function Nulls(col: Column): nat {
    if col == [] then 0 else Nulls(col[..|col| - 1]) + if col[|col| - 1].None? then 1 else 0
  }

  /** Exact statistics: the NULL count, and bounds that hold and are attained; none at
      all exactly when every value is NULL. */
  ghost predicate Describes(zm: ZoneMap, date: bool, col: Column) {
    && zm.nullCount == Nulls(col)
    && (zm.hasMinMax <==> exists i :: 0 <= i < |col| && col[i].Some?)
    && (forall i :: 0 <= i < |col| && col[i].Some? ==> Value(date, zm.min) <= col[i].value <= Value(date, zm.max))
    && (zm.hasMinMax ==> Some(Value(date, zm.min)) in col && Some(Value(date, zm.max)) in col)
  }

  /** The statistics update for one value. */
  function Update(zm: ZoneMap, date: bool, v: Option<int>): ZoneMap {
    if v.None? then zm.(nullCount := zm.nullCount + 1)
    else if !zm.hasMinMax then ZoneMap(zm.nullCount, Raw(date, v.value), Raw(date, v.value), true)
    else
      var zm := if v.value < Value(date, zm.min) then zm.(min := Raw(date, v.value)) else zm;
      if v.value > Value(date, zm.max) then zm.(max := Raw(date, v.value)) else zm
  }

  lemma {:induction false} UpdateDescribes(zm: ZoneMap, date: bool, col: Column, v: Option<int>)
    requires Describes(zm, date, col) && (v.Some? ==> InDomain(date, v.value))
    ensures Describes(Update(zm, date, v), date, col + [v])
  {
    var col' := col + [v];
    assert col'[..|col|] == col && col'[|col|] == v;
    if v.Some? {
      RawValue(date, v.value);
      assert col'[|col|].Some?;
    } else {
      assert zm.hasMinMax ==> exists i :: 0 <= i < |col| && col[i].Some?;
      if zm.hasMinMax {
        var i :| 0 <= i < |col| && col[i].Some?;
        assert col'[i].Some?;
      }
    }
  }

  /** The statistics of writeInt64Blocks and writeDateBlocks: block by block. */
  method WriteStats(date: bool, col: Column) returns (zm: ZoneMap)
    requires ColumnOk(date, col)
    ensures Describes(zm, date, col)
  {
    zm := ZoneMap(0, 0, 0, false);
    var blockStart := 0;
    while blockStart < |col|
      invariant blockStart <= |col| && Describes(zm, date, col[..blockStart])
    {
      var end := if blockStart + Scans.BLOCK_ROWS > |col| then |col| else blockStart + Scans.BLOCK_ROWS;
      for i := blockStart to end
        invariant Describes(zm, date, col[..i])
      {
        UpdateDescribes(zm, date, col[..i], col[i]);
        assert col[..i + 1] == col[..i] + [col[i]];
        zm := Update(zm, date, col[i]);
      }
      blockStart := end;
    }
    assert col[..|col|] == col;
  }

  // ---- What predicates mean on rows ---------------------------------------------------------

  function Compare(op: BinaryOp, a: int, b: int): bool {
    match op
    case Eq => a == b
    case Ne => a != b
    case Lt => a < b
    case Le => a <= b
    case Gt => a > b
    case Ge => a >= b
    case _ => false
  }

  predicate IsComparison(op: BinaryOp) {
    op.Eq? || op.Ne? || op.Lt? || op.Le? || op.Gt? || op.Ge?
  }

  /** INT64 values, and DATE values by their day number. */
  function Number(v: Value): Option<int> {
    match v
    case Int(n) => Some(n)
    case Date(d) => Some(d)
    case _ => None
  }

  function CompareValues(op: BinaryOp, a: Value, b: Value, other: Semantics): Value {
    if a.Null? || b.Null? then Null
    else if Number(a).Some? && Number(b).Some? then Bool(Compare(op, Number(a).value, Number(b).value))
    else other(Arithmetic(op), [a, b])
  }

  function Negated(n: int): int {
    (TWO63 - n) % TWO64 - TWO63
  }

  /** Comparisons, unary minus and BETWEEN on integers and dates as the executor
      evaluates them; anything else is up to `other`. */
  function Standard(op: Operator, args: seq<Value>, other: Semantics): Value {
    match op
    case Arithmetic(c) =>
      if IsComparison(c) && |args| == 2 then CompareValues(c, args[0], args[1], other) else other(op, args)
    case Negate =>
      if |args| == 1 && args[0].Int? then Int(Negated(args[0].n)) else other(op, args)
    case Between(not) =>
      if |args| == 3 && !not
      then Conj(CompareValues(Ge, args[0], args[1], other), CompareValues(Le, args[0], args[2], other))
      else other(op, args)
    case _ => other(op, args)
  }

  function StandardSemantics(other: Semantics): Semantics {
    (op, args) => Standard(op, args, other)
  }

  // ---- The planner's test --------------------------------------------------------------------

  /** foldConstant followed by the integer case: a signed integer literal. */
  function IntLiteral(e: Expr): (n: Option<int>)
    ensures n.Some? ==> IsInt64(n.value)
  {
    match e
    case Literal(Int(n)) => if IsInt64(n) then Some(n) else None
    case Apply(Negate, args) =>
      if |args| != 1 then None
      else
        var inner := IntLiteral(args[0]);
        if inner.Some? && inner.value != -TWO63 then Some(-inner.value) else None
    case _ => None
  }

  function IndexOf(fields: seq<Field>, name: string): Option<nat> {
    if fields == [] then None
    else if fields[0].name == name then Some(0)
    else
      var i := IndexOf(fields[1..], name);
      if i.None? then None else Some(i.value + 1)
  }

  function CmpOrdered(a: int, b: int): int {
    if a < b then -1 else if a > b then 1 else 0
  }

  /** literal OP column, as column OP' literal. */
  function Mirrored(op: BinaryOp): BinaryOp {
    match op
    case Lt => Gt
    case Le => Ge
    case Gt => Lt
    case Ge => Le
    case _ => op
  }

  function BoundsAllow(op: BinaryOp, minCmp: int, maxCmp: int): bool {
    match op
    case Eq => minCmp <= 0 && maxCmp >= 0
    case Lt => minCmp < 0
    case Le => minCmp <= 0
    case Gt => maxCmp > 0
    case Ge => maxCmp >= 0
    case _ => true
  }

  function ZoneColumn(op: BinaryOp, name: string, lit: Expr, fields: seq<Field>, stats: seq<ZoneMap>): bool {
    var i := IndexOf(fields, name);
    if i.None? || i.value >= |stats| || i.value >= |fields| then true
    else
      var zm, n := stats[i.value], IntLiteral(lit);
      if !zm.hasMinMax || op.Ne? || n.None? then true
      else
        match fields[i.value].dataType
        case Int64 => BoundsAllow(op, CmpOrdered(FromU64(zm.min), n.value), CmpOrdered(FromU64(zm.max), n.value))
        case DateType =>
          if !IsInt32(n.value) then true
          else BoundsAllow(op, CmpOrdered(FromU32(zm.min), n.value), CmpOrdered(FromU32(zm.max), n.value))
        case _ => true
  }

  function ZoneRangePred(op: BinaryOp, l: Expr, r: Expr, fields: seq<Field>, stats: seq<ZoneMap>): bool {
    if l.Column? then ZoneColumn(op, l.name, r, fields, stats)
    else if r.Column? then ZoneColumn(Mirrored(op), r.name, l, fields, stats)
    else true
  }

  /** Whether a row group may hold a row the predicate is TRUE of; every answer it
      cannot prove is yes. */
  function ZonePredEval(e: Expr, fields: seq<Field>, stats: seq<ZoneMap>): bool {
    match e
    case Binary(op, l, r) =>
      if op.And? then ZonePredEval(l, fields, stats) && ZonePredEval(r, fields, stats)
      else if op.Or? then ZonePredEval(l, fields, stats) || ZonePredEval(r, fields, stats)
      else if IsComparison(op) then ZoneRangePred(op, l, r, fields, stats)
      else true
    case Apply(Between(not), args) =>
      if not || |args| != 3 then true
      else ZoneRangePred(Ge, args[0], args[1], fields, stats) && ZoneRangePred(Le, args[0], args[2], fields, stats)
    case _ => true
  }

  // ---- Soundness -------------------------------------------------------------------------------

  /** The column of a row group as the writer saw it. */
  function ColumnOf(rows: seq<Row>, name: string): Column {
    seq(|rows|, i requires 0 <= i < |rows| => Number(Lookup(rows[i], name)))
  }

  /** The statistics of a row group's INT64 and DATE columns are the writer's, and its
      rows hold values of the schema's types. */
  ghost predicate GroupOk(rows: seq<Row>, fields: seq<Field>, stats: seq<ZoneMap>) {
    && |stats| == |fields|
    && forall i :: 0 <= i < |fields| ==> FieldOk(rows, fields[i], stats[i])
  }

  ghost predicate FieldOk(rows: seq<Row>, f: Field, zm: ZoneMap) {
    && (f.dataType.Int64? ==> Describes(zm, false, ColumnOf(rows, f.name)))
    && (f.dataType.DateType? ==> Describes(zm, true, ColumnOf(rows, f.name)))
    && forall r :: 0 <= r < |rows| ==> Fits(Lookup(rows[r], f.name), f.dataType)
  }

  lemma {:induction false} IndexOfName(fields: seq<Field>, name: string)
    ensures var i := IndexOf(fields, name);
      i.Some? ==> i.value < |fields| && fields[i.value].name == name
  {
    if fields != [] && fields[0].name != name {
      IndexOfName(fields[1..], name);
    }
  }

  /** A folded literal evaluates to the number it was folded to. */
  lemma {:induction false} LiteralValue(e: Expr, row: Row, other: Semantics)
    requires IntLiteral(e).Some?
    ensures Eval(e, row, StandardSemantics(other)) == Int(IntLiteral(e).value)
    decreases e
  {
    if e.Apply? {
      var inner := IntLiteral(e.args[0]);
      LiteralValue(e.args[0], row, other);
      var sem := StandardSemantics(other);
      assert Negated(inner.value) == -inner.value;
      assert seq(1, i requires 0 <= i < 1 => Eval(e.args[i], row, sem)) == [Int(inner.value)];
    }
  }

  /** A comparison that the bounds rule out is TRUE of no value within them. */
  lemma {:induction false} BoundsSound(op: BinaryOp, lo: int, hi: int, v: int, n: int)
    requires lo <= v <= hi && IsComparison(op) && !op.Ne? && !BoundsAllow(op, CmpOrdered(lo, n), CmpOrdered(hi, n))
    ensures !Compare(op, v, n)
  {
  }

  lemma {:induction false} MirroredCompare(op: BinaryOp, a: int, b: int)
    requires IsComparison(op)
    ensures Compare(op, a, b) == Compare(Mirrored(op), b, a) && IsComparison(Mirrored(op))
  {
  }

  /** The value of a column in a row of the group lies within its statistics. */
  lemma {:induction false} ValueInBounds(rows: seq<Row>, f: Field, zm: ZoneMap, r: nat)
    requires FieldOk(rows, f, zm) && r < |rows| && (f.dataType.Int64? || f.dataType.DateType?)
    ensures var v := Number(Lookup(rows[r], f.name));
      var date := f.dataType.DateType?;
      (v.None? <==> Lookup(rows[r], f.name).Null?) &&
          (v.Some? ==> Value(date, zm.min) <= v.value <= Value(date, zm.max))
  {
    assert ColumnOf(rows, f.name)[r] == Number(Lookup(rows[r], f.name));
    assert Fits(Lookup(rows[r], f.name), f.dataType);
  }

  lemma {:induction false} ZoneColumnSound(op: BinaryOp, name: string, lit: Expr, fields: seq<Field>,
                                           stats: seq<ZoneMap>, rows: seq<Row>, r: nat, other: Semantics)
    requires GroupOk(rows, fields, stats) && r < |rows| && IsComparison(op) && !ZoneColumn(op, name, lit, fields, stats)
    ensures var sem := StandardSemantics(other);
      var a, b := Lookup(rows[r], name), Eval(lit, rows[r], sem);
      && b.Int? && (a.Null? || (Number(a).Some? && !Compare(op, Number(a).value, b.n)))
  {
    var i := IndexOf(fields, name);
    IndexOfName(fields, name);
    var f, zm := fields[i.value], stats[i.value];
    assert FieldOk(rows, f, zm);
    ValueInBounds(rows, f, zm, r);
    LiteralValue(lit, rows[r], other);
    var v, n := Number(Lookup(rows[r], name)), IntLiteral(lit).value;
    if v.Some? {
      BoundsSound(op, Value(f.dataType.DateType?, zm.min), Value(f.dataType.DateType?, zm.max), v.value, n);
    }
  }

  /** Either order of operands: the comparison is not TRUE. */
  lemma {:induction false} ZoneRangeSound(op: BinaryOp, l: Expr, r: Expr, fields: seq<Field>, stats: seq<ZoneMap>,
                                          rows: seq<Row>, i: nat, other: Semantics)
    requires GroupOk(rows, fields, stats) && i < |rows| && IsComparison(op) && !ZoneRangePred(op, l, r, fields, stats)
    ensures var sem := StandardSemantics(other);
      CompareValues(op, Eval(l, rows[i], sem), Eval(r, rows[i], sem), other) != Bool(true)
  {
    if l.Column? {
      ZoneColumnSound(op, l.name, r, fields, stats, rows, i, other);
    } else {
      var sem := StandardSemantics(other);
      var a, b := Lookup(rows[i], r.name), Eval(l, rows[i], sem);
      MirroredCompare(op, 0, 0);
      ZoneColumnSound(Mirrored(op), r.name, l, fields, stats, rows, i, other);
      if !a.Null? {
        MirroredCompare(op, b.n, Number(a).value);
      }
    }
  }

  /** A comparison evaluates by CompareValues, equality included. */
  lemma {:induction false} ComparisonValue(op: BinaryOp, l: Expr, r: Expr, row: Row, other: Semantics)
    requires IsComparison(op)
    ensures var sem := StandardSemantics(other);
      Eval(Binary(op, l, r), row, sem) == CompareValues(op, Eval(l, row, sem), Eval(r, row, sem), other)
  {
    var sem := StandardSemantics(other);
    var a, b := Eval(l, row, sem), Eval(r, row, sem);
    assert sem(Arithmetic(op), [a, b]) == CompareValues(op, a, b, other);
  }

  lemma {:induction false} BetweenValue(args: seq<Expr>, row: Row, other: Semantics)
    requires |args| == 3
    ensures var sem := StandardSemantics(other);
      Eval(Apply(Between(false), args), row, sem) ==
      Conj(CompareValues(Ge, Eval(args[0], row, sem), Eval(args[1], row, sem), other),
           CompareValues(Le, Eval(args[0], row, sem), Eval(args[2], row, sem), other))
  {
    var sem := StandardSemantics(other);
    var vals := seq(3, i requires 0 <= i < 3 => Eval(args[i], row, sem));
    assert Eval(Apply(Between(false), args), row, sem) == sem(Between(false), vals);
  }

  /** A pruned row group holds no row the predicate is TRUE of, for any nesting of AND,
      OR, comparisons and BETWEEN. */
  lemma {:induction false} PruneSound(e: Expr, fields: seq<Field>, stats: seq<ZoneMap>, rows: seq<Row>, i: nat,
                                      other: Semantics)
    requires GroupOk(rows, fields, stats) && i < |rows| && !ZonePredEval(e, fields, stats)
    ensures !True(e, rows[i], StandardSemantics(other))
    decreases e
  {
    var sem := StandardSemantics(other);
    match e
    case Binary(op, l, r) =>
      if op.And? {
        if !ZonePredEval(l, fields, stats) {
          PruneSound(l, fields, stats, rows, i, other);
        } else {
          PruneSound(r, fields, stats, rows, i, other);
        }
      } else if op.Or? {
        PruneSound(l, fields, stats, rows, i, other);
        PruneSound(r, fields, stats, rows, i, other);
      } else {
        ComparisonValue(op, l, r, rows[i], other);
        ZoneRangeSound(op, l, r, fields, stats, rows, i, other);
      }
    case Apply(_, args) =>
      BetweenValue(args, rows[i], other);
      if !ZoneRangePred(Ge, args[0], args[1], fields, stats) {
        ZoneRangeSound(Ge, args[0], args[1], fields, stats, rows, i, other);
      } else {
        ZoneRangeSound(Le, args[0], args[2], fields, stats, rows, i, other);
      }
  }

  // ---- How much is pruned ------------------------------------------------------------------------

  /** A column and a number the test can decide on: the column has statistics, and the
      number is one its type could hold. */
  predicate Decidable(name: string, n: int, fields: seq<Field>, stats: seq<ZoneMap>) {
    var i := IndexOf(fields, name);
    && i.Some? && i.value < |fields| && i.value < |stats| && stats[i.value].hasMinMax && IsInt64(n)
    && (fields[i.value].dataType.Int64? || (fields[i.value].dataType.DateType? && IsInt32(n)))
  }

  /** Rows that hold the smallest and the largest value of a column. */
  lemma {:induction false} Extremes(rows: seq<Row>, name: string, n: int, fields: seq<Field>, stats: seq<ZoneMap>)
      returns (lo: nat, hi: nat)
    requires GroupOk(rows, fields, stats) && Decidable(name, n, fields, stats)
    ensures lo < |rows| && hi < |rows|
    ensures var i := IndexOf(fields, name).value;
      var date := fields[i].dataType.DateType?;
      && Number(Lookup(rows[lo], name)) == Some(Value(date, stats[i].min))
      && Number(Lookup(rows[hi], name)) == Some(Value(date, stats[i].max))
  {
    var i := IndexOf(fields, name).value;
    IndexOfName(fields, name);
    var f, zm, col := fields[i], stats[i], ColumnOf(rows, name);
    assert FieldOk(rows, f, zm);
    var date := f.dataType.DateType?;
    assert Some(Value(date, zm.min)) in col && Some(Value(date, zm.max)) in col;
    lo :| 0 <= lo < |col| && col[lo] == Some(Value(date, zm.min));
    hi :| 0 <= hi < |col| && col[hi] == Some(Value(date, zm.max));
  }

  lemma {:induction false} NumberComparison(op: BinaryOp, name: string, n: int, row: Row, other: Semantics)
    requires IsComparison(op) && Number(Lookup(row, name)).Some?
    ensures True(Binary(op, Column(name), Literal(Int(n))), row, StandardSemantics(other)) <==>
      Compare(op, Number(Lookup(row, name)).value, n)
  {
    ComparisonValue(op, Column(name), Literal(Int(n)), row, other);
  }

  /** For an ordering the test is exact: a group is kept exactly when some row passes. */
  lemma {:induction false} OrderingExact(op: BinaryOp, name: string, n: int, fields: seq<Field>, stats: seq<ZoneMap>,
                                         rows: seq<Row>, other: Semantics)
    requires GroupOk(rows, fields, stats) && Decidable(name, n, fields, stats)
    requires op.Lt? || op.Le? || op.Gt? || op.Ge?
    ensures var e := Binary(op, Column(name), Literal(Int(n)));
      ZonePredEval(e, fields, stats) <==> exists r :: 0 <= r < |rows| && True(e, rows[r], StandardSemantics(other))
  {
    var e := Binary(op, Column(name), Literal(Int(n)));
    if ZonePredEval(e, fields, stats) {
      var lo, hi := Extremes(rows, name, n, fields, stats);
      NumberComparison(op, name, n, rows[lo], other);
      NumberComparison(op, name, n, rows[hi], other);
      assert True(e, rows[if op.Lt? || op.Le? then lo else hi], StandardSemantics(other));
    } else {
      forall r | 0 <= r < |rows| ensures !True(e, rows[r], StandardSemantics(other)) {
        PruneSound(e, fields, stats, rows, r, other);
      }
    }
  }

  /** An equality keeps a group exactly when some value is at most the number and some
      value at least. */
  lemma {:induction false} EqualityExact(name: string, n: int, fields: seq<Field>, stats: seq<ZoneMap>, rows: seq<Row>,
                                         other: Semantics)
    requires GroupOk(rows, fields, stats) && Decidable(name, n, fields, stats)
    ensures var low, high := Binary(Le, Column(name), Literal(Int(n))), Binary(Ge, Column(name), Literal(Int(n)));
      ZonePredEval(Binary(Eq, Column(name), Literal(Int(n))), fields, stats) <==>
        && (exists r :: 0 <= r < |rows| && True(low, rows[r], StandardSemantics(other)))
        && (exists r :: 0 <= r < |rows| && True(high, rows[r], StandardSemantics(other)))
  {
    OrderingExact(Le, name, n, fields, stats, rows, other);
    OrderingExact(Ge, name, n, fields, stats, rows, other);
  }

  // ---- The scan ---------------------------------------------------------------------------------

  datatype RowGroup = RowGroup(rows: seq<Row>, stats: seq<ZoneMap>)

  function AllOf(groups: seq<RowGroup>): seq<seq<Row>> {
    seq(|groups|, g requires 0 <= g < |groups| => groups[g].rows)
  }

  /** The zone predicate's answer for every row group. */
  function Keep(e: Expr, fields: seq<Field>, groups: seq<RowGroup>): seq<bool> {
    seq(|groups|, g requires 0 <= g < |groups| => ZonePredEval(e, fields, groups[g].stats))
  }

  lemma {:induction false} SelectConcat(xs: seq<Row>, ys: seq<Row>, e: Expr, sem: Semantics)
    ensures Select(xs + ys, e, sem) == Select(xs, e, sem) + Select(ys, e, sem)
  {
    if ys == [] {
      assert xs + ys == xs;
    } else {
      assert (xs + ys)[..|xs + ys| - 1] == xs + ys[..|ys| - 1];
      SelectConcat(xs, ys[..|ys| - 1], e, sem);
    }
  }

  lemma {:induction false} SelectNothing(rows: seq<Row>, e: Expr, sem: Semantics)
    requires forall i :: 0 <= i < |rows| ==> !True(e, rows[i], sem)
    ensures Select(rows, e, sem) == []
  {
    if rows != [] {
      SelectNothing(rows[..|rows| - 1], e, sem);
    }
  }

  lemma {:induction false} PrunedNothing(e: Expr, fields: seq<Field>, g: RowGroup, other: Semantics)
    requires GroupOk(g.rows, fields, g.stats) && !ZonePredEval(e, fields, g.stats)
    ensures Select(g.rows, e, StandardSemantics(other)) == []
  {
    forall i | 0 <= i < |g.rows| ensures !True(e, g.rows[i], StandardSemantics(other)) {
      PruneSound(e, fields, g.stats, g.rows, i, other);
    }
    SelectNothing(g.rows, e, StandardSemantics(other));
  }

  lemma {:induction false} KeptStep(groups: seq<RowGroup>, keep: seq<bool>)
    requires groups != [] && |keep| == |groups|
    ensures Scans.Kept(AllOf(groups), keep) ==
      (if keep[0] then groups[0].rows else []) + Scans.Kept(AllOf(groups[1..]), keep[1..])
  {
    assert AllOf(groups)[1..] == AllOf(groups[1..]);
  }

  /** Filtering the pruned scan is filtering the full scan. */
  lemma {:induction false} PrunedScan(e: Expr, fields: seq<Field>, groups: seq<RowGroup>, other: Semantics)
    requires forall g :: 0 <= g < |groups| ==> GroupOk(groups[g].rows, fields, groups[g].stats)
    ensures Select(Scans.Kept(AllOf(groups), Keep(e, fields, groups)), e, StandardSemantics(other)) ==
      Select(Scans.Kept(AllOf(groups), seq(|groups|, _ => true)), e, StandardSemantics(other))
  {
    if groups != [] {
      var sem, g, rest := StandardSemantics(other), groups[0], groups[1..];
      PrunedScan(e, fields, rest, other);
      var keep, full := Keep(e, fields, groups), seq(|groups|, _ => true);
      assert keep[1..] == Keep(e, fields, rest) && full[1..] == seq(|rest|, _ => true);
      KeptStep(groups, keep);
      KeptStep(groups, full);
      SelectConcat(g.rows, Scans.Kept(AllOf(rest), full[1..]), e, sem);
      SelectConcat(if keep[0] then g.rows else [], Scans.Kept(AllOf(rest), keep[1..]), e, sem);
      if !keep[0] {
        PrunedNothing(e, fields, g, other);
      }
    }
  }
}
