/** Logical plans and the rows they denote (planner/logical.go). */
module Plans {
  import opened Options
  import opened Sql

  datatype DataType = Int64 | Float64 | String | Boolean | DateType

  datatype Field = Field(name: string, dataType: DataType)

  /** Whether a value may stand in a column: INT64 and DATE columns hold nothing else. */
  predicate Fits(v: Value, t: DataType) {
    v.Null? || ((t.Int64? ==> v.Int?) && (t.DateType? ==> v.Date?))
  }

  datatype Table = Table(fields: seq<Field>, rows: seq<Row>)

  datatype ProjectItem = ProjectItem(alias: string, expr: Expr)

  /** `input` is the column or expression an aggregate reads, absent for COUNT(*). */
  datatype AggItem = AggItem(func: string, input: Option<Expr>, distinctOnly: bool, alias: string)

  datatype OrderItem = OrderItem(expr: Expr, desc: bool)

  datatype Plan =
    | Scan(table: Table, pushed: Option<Expr>, needed: Option<seq<string>>)
    | Filter(child: Plan, condition: Expr)
    | Project(child: Plan, items: seq<ProjectItem>)
    | Aggregate(child: Plan, groupBy: seq<string>, aggs: seq<AggItem>)
    | Sort(child: Plan, orderBy: seq<OrderItem>)
    | Limit(child: Plan, count: int, offset: int)
    | Distinct(child: Plan)
    | Join(left: Plan, right: Plan, on: Expr)

  /** How the operators outside this model behave: any function of what they read. */
  datatype World = World(
    sem: Semantics,
    order: (seq<seq<Value>>, seq<bool>) -> seq<nat>,
    group: (seq<seq<Value>>, seq<seq<Value>>, seq<AggItem>) -> seq<seq<Value>>)

  function FieldNames(fields: seq<Field>): seq<string> {
    seq(|fields|, i requires 0 <= i < |fields| => fields[i].name)
  }

  function Aliases(items: seq<ProjectItem>): seq<string> {
    seq(|items|, i requires 0 <= i < |items| => items[i].alias)
  }

  function AggAliases(aggs: seq<AggItem>): seq<string> {
    seq(|aggs|, i requires 0 <= i < |aggs| => aggs[i].alias)
  }

  /** The columns of `schema` named by `names`, in the order of `names`. */
  function Picked(names: seq<string>, schema: seq<string>): (out: seq<string>)
    ensures forall c :: c in out <==> c in names && c in schema
  {
    if names == [] then []
    else (if names[0] in schema then [names[0]] else []) + Picked(names[1..], schema)
  }

  /** OutputSchema, by name: an absent or empty projection reads every column. */
  function OutNames(p: Plan): seq<string> {
    match p
    case Scan(t, _, needed) =>
      if needed.None? || needed.value == [] then FieldNames(t.fields) else Picked(needed.value, FieldNames(t.fields))
    case Filter(c, _) => OutNames(c)
    case Project(_, items) => Aliases(items)
    case Aggregate(c, groupBy, aggs) => Picked(groupBy, OutNames(c)) + AggAliases(aggs)
    case Sort(c, _) => OutNames(c)
    case Limit(c, _, _) => OutNames(c)
    case Distinct(c) => OutNames(c)
    case Join(l, r, _) => OutNames(l) + OutNames(r)
  }

  // ---- Operators on rows -------------------------------------------------------------

  function Cut(row: Row, names: seq<string>): Row {
    map c | c in names && c in row :: row[c]
  }

  function CutAll(rows: seq<Row>, names: seq<string>): seq<Row> {
    seq(|rows|, i requires 0 <= i < |rows| => Cut(rows[i], names))
  }

  function Select(rows: seq<Row>, e: Expr, sem: Semantics): seq<Row> {
    if rows == [] then []
    else
      var last := rows[|rows| - 1];
      Select(rows[..|rows| - 1], e, sem) + if True(e, last, sem) then [last] else []
  }

  function SelectOpt(rows: seq<Row>, e: Option<Expr>, sem: Semantics): seq<Row> {
    if e.None? then rows else Select(rows, e.value, sem)
  }

  /** A scan reads its projected columns, then applies its pushed-down predicate to
      what it read. */
  function ScanRows(t: Table, pushed: Option<Expr>, needed: Option<seq<string>>, sem: Semantics): seq<Row> {
    var rows := if needed.None? || needed.value == [] then t.rows else CutAll(t.rows, needed.value);
    SelectOpt(rows, pushed, sem)
  }

  /** Each right (probe) row with each left (build) row, probe-major. */
  function Pairs(ls: seq<Row>, rs: seq<Row>): seq<Row> {
    if rs == [] then []
    else Pairs(ls, rs[..|rs| - 1]) + PairUp(ls, rs[|rs| - 1])
  }

  function PairUp(ls: seq<Row>, r: Row): seq<Row> {
    seq(|ls|, i requires 0 <= i < |ls| => ls[i] + r)
  }

  function EvalAll(es: seq<Expr>, row: Row, sem: Semantics): seq<Value> {
    seq(|es|, i requires 0 <= i < |es| => Eval(es[i], row, sem))
  }

  /** A row from names and values; a name given twice keeps its last value. */
  function Zip(names: seq<string>, values: seq<Value>): Row {
    if names == [] then map[]
    else
      var n := |names| - 1;
      Zip(names[..n], values)[names[n] := if n < |values| then values[n] else Null]
  }

  function ItemExprs(items: seq<ProjectItem>): seq<Expr> {
    seq(|items|, i requires 0 <= i < |items| => items[i].expr)
  }

  function ProjectRows(rows: seq<Row>, items: seq<ProjectItem>, sem: Semantics): seq<Row> {
    seq(|rows|, i requires 0 <= i < |rows| => Zip(Aliases(items), EvalAll(ItemExprs(items), rows[i], sem)))
  }

  function GroupExprs(groupBy: seq<string>): seq<Expr> {
    seq(|groupBy|, i requires 0 <= i < |groupBy| => Column(groupBy[i]))
  }

  /** COUNT(*) reads a constant. */
  function AggExprs(aggs: seq<AggItem>): seq<Expr> {
    seq(|aggs|, i requires 0 <= i < |aggs| => if aggs[i].input.None? then Literal(Int(1)) else aggs[i].input.value)
  }

  function EvalRows(es: seq<Expr>, rows: seq<Row>, sem: Semantics): seq<seq<Value>> {
    seq(|rows|, i requires 0 <= i < |rows| => EvalAll(es, rows[i], sem))
  }

  function AggregateRows(rows: seq<Row>, groupBy: seq<string>, aggs: seq<AggItem>, names: seq<string>,
      w: World): seq<Row> {
    var out := w.group(EvalRows(GroupExprs(groupBy), rows, w.sem), EvalRows(AggExprs(aggs), rows, w.sem), aggs);
    seq(|out|, i requires 0 <= i < |out| => Zip(names, out[i]))
  }

  function OrderExprs(orderBy: seq<OrderItem>): seq<Expr> {
    seq(|orderBy|, i requires 0 <= i < |orderBy| => orderBy[i].expr)
  }

  function Descending(orderBy: seq<OrderItem>): seq<bool> {
    seq(|orderBy|, i requires 0 <= i < |orderBy| => orderBy[i].desc)
  }

  /** The rows at these positions, in this order. */
  function At(rows: seq<Row>, order: seq<nat>): seq<Row> {
    if order == [] then []
    else
      var i := order[|order| - 1];
      At(rows, order[..|order| - 1]) + if i < |rows| then [rows[i]] else []
  }

  /** Any ordering that looks only at the evaluated sort keys. */
  function SortRows(rows: seq<Row>, orderBy: seq<OrderItem>, w: World): seq<Row> {
    At(rows, w.order(EvalRows(OrderExprs(orderBy), rows, w.sem), Descending(orderBy)))
  }

  /** A negative count passes every remaining row. */
  function LimitRows(rows: seq<Row>, count: int, offset: int): seq<Row> {
    var skip := if offset < 0 then 0 else if offset > |rows| then |rows| else offset;
    if count < 0 || skip + count > |rows| then rows[skip..] else rows[skip..skip + count]
  }

  /** The first occurrence of each row. */
  function FirstRows(rows: seq<Row>): seq<Row> {
    if rows == [] then []
    else
      var init, last := rows[..|rows| - 1], rows[|rows| - 1];
      FirstRows(init) + if last in init then [] else [last]
  }

  function Denote(p: Plan, w: World): seq<Row> {
    match p
    case Scan(t, pushed, needed) => ScanRows(t, pushed, needed, w.sem)
    case Filter(c, e) => Select(Denote(c, w), e, w.sem)
    case Project(c, items) => ProjectRows(Denote(c, w), items, w.sem)
    case Aggregate(c, groupBy, aggs) => AggregateRows(Denote(c, w), groupBy, aggs, OutNames(p), w)
    case Sort(c, orderBy) => SortRows(Denote(c, w), orderBy, w)
    case Limit(c, count, offset) => LimitRows(Denote(c, w), count, offset)
    case Distinct(c) => FirstRows(Denote(c, w))
    case Join(l, r, e) => Select(Pairs(Denote(l, w), Denote(r, w)), e, w.sem)
  }
}
