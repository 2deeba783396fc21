/** Predicate pushdown and column pruning (planner/optimizer.go). */
module Optimizer {
  import opened Options
  import opened Sql
  import opened Plans
  import opened Counting

  // ---- Predicate pushdown --------------------------------------------------------------

  function MergePredicate(pushed: Option<Expr>, e: Expr): Option<Expr> {
    if pushed.None? then Some(e) else Some(Binary(And, pushed.value, e))
  }

  function PushPredicates(p: Plan): Plan {
    match p
    case Scan(_, _, _) => p
    case Filter(c, e) =>
      var child := PushPredicates(c);
      if child.Scan? then child.(pushed := MergePredicate(child.pushed, e)) else Filter(child, e)
    case Project(c, items) => Project(PushPredicates(c), items)
    case Aggregate(c, groupBy, aggs) => Aggregate(PushPredicates(c), groupBy, aggs)
    case Sort(c, orderBy) => Sort(PushPredicates(c), orderBy)
    case Limit(c, count, offset) => Limit(PushPredicates(c), count, offset)
    case Distinct(c) => Distinct(PushPredicates(c))
    case Join(l, r, e) => Join(PushPredicates(l), PushPredicates(r), e)
  }

  lemma {:induction false} SelectAnd(rows: seq<Row>, a: Expr, b: Expr, sem: Semantics)
    ensures Select(Select(rows, a, sem), b, sem) == Select(rows, Binary(And, a, b), sem)
  {
    if rows != [] {
      var init, last := rows[..|rows| - 1], rows[|rows| - 1];
      SelectAnd(init, a, b, sem);
      var kept := Select(init, a, sem);
      assert (kept + [last])[..|kept|] == kept;
      assert Select(rows, a, sem) == if True(a, last, sem) then kept + [last] else kept;
    }
  }

  /** Merging filters into scans changes neither the rows of a plan nor its columns. */
  lemma {:induction false} PushMeaning(p: Plan, w: World)
    ensures Denote(PushPredicates(p), w) == Denote(p, w) && OutNames(PushPredicates(p)) == OutNames(p)
    decreases p
  {
    match p
    case Scan(_, _, _) =>
    case Filter(c, e) =>
      PushMeaning(c, w);
      var child := PushPredicates(c);
      if child.Scan? && child.pushed.Some? {
        var rows := ScanRows(child.table, None, child.needed, w.sem);
        SelectAnd(rows, child.pushed.value, e, w.sem);
      }
    case Project(c, _) => PushMeaning(c, w);
    case Aggregate(c, _, _) => PushMeaning(c, w);
    case Sort(c, _) => PushMeaning(c, w);
    case Limit(c, _, _) => PushMeaning(c, w);
    case Distinct(c) => PushMeaning(c, w);
    case Join(l, r, _) =>
      PushMeaning(l, w);
      PushMeaning(r, w);
  }

  /** No filter stands on a scan. */
  predicate Pushed(p: Plan) {
    match p
    case Scan(_, _, _) => true
    case Filter(c, _) => !c.Scan? && Pushed(c)
    case Project(c, _) => Pushed(c)
    case Aggregate(c, _, _) => Pushed(c)
    case Sort(c, _) => Pushed(c)
    case Limit(c, _, _) => Pushed(c)
    case Distinct(c) => Pushed(c)
    case Join(l, r, _) => Pushed(l) && Pushed(r)
  }

  /** Pushdown goes all the way: no filter is left on a scan anywhere in the plan. */
  lemma {:induction false} PushComplete(p: Plan)
    ensures Pushed(PushPredicates(p))
    decreases p
  {
    match p
    case Scan(_, _, _) =>
    case Filter(c, _) => PushComplete(c);
    case Project(c, _) => PushComplete(c);
    case Aggregate(c, _, _) => PushComplete(c);
    case Sort(c, _) => PushComplete(c);
    case Limit(c, _, _) => PushComplete(c);
    case Distinct(c) => PushComplete(c);
    case Join(l, r, _) =>
      PushComplete(l);
      PushComplete(r);
  }

  // ---- Needed sets ----------------------------------------------------------------------

  /** The first occurrence of each name. */
  function Unique(ss: seq<string>): (u: seq<string>)
    ensures forall c :: c in u <==> c in ss
  {
    if ss == [] then []
    else
      var init, last := ss[..|ss| - 1], ss[|ss| - 1];
      assert forall c :: c in ss <==> c in init || c == last;
      Unique(init) + if last in init then [] else [last]
  }

  lemma {:induction false} UniqueSnoc(ss: seq<string>, i: nat)
    requires i < |ss|
    ensures Unique(ss[..i + 1]) == Unique(ss[..i]) + if ss[i] in ss[..i] then [] else [ss[i]]
    ensures forall c :: c in ss[..i + 1] <==> c in ss[..i] || c == ss[i]
  {
    assert ss[..i + 1][..i] == ss[..i] && ss[..i + 1] == ss[..i] + [ss[i]];
  }

  /** Compacts an array of names in place, keeping first occurrences. */
  method UniqueStrings(a: array<string>) returns (k: nat)
    modifies a
    ensures k <= a.Length && a[..k] == Unique(old(a[..]))
  {
    ghost var ss := a[..];
    var seen := {};
    k := 0;
    ghost var kept := [];
    for i := 0 to a.Length
      invariant k <= i && a[..k] == kept == Unique(ss[..i]) && a[i..] == ss[i..]
      invariant forall c :: c in seen <==> c in ss[..i]
    {
      var s := a[i];
      assert s == a[i..][0] == ss[i];
      UniqueSnoc(ss, i);
      k := Keep(a, k, i, s in seen);
      kept := kept + if s in seen then [] else [s];
      seen := seen + {s};
      assert ss[i..][1..] == ss[i + 1..];
    }
    assert ss[..a.Length] == ss;
  }

  method Keep(a: array<string>, k: nat, i: nat, known: bool) returns (k': nat)
    requires k <= i < a.Length
    modifies a
    ensures k' == if known then k else k + 1
    ensures a[..k'] == old(a[..k]) + if known then [] else [old(a[i])]
    ensures a[i + 1..] == old(a[i..])[1..]
  {
    if known {
      return k;
    }
    a[k] := a[i];
    return k + 1;
  }

  /** Absent means every column is needed, and stays so. */
  function AddNeeded(needed: Option<seq<string>>, extra: seq<string>): Option<seq<string>> {
    if needed.None? then None else Some(Unique(needed.value + extra))
  }

  /** The wanted columns of a schema, in its order; absent when there are none. */
  function SchemaColsIn(schema: seq<string>, want: set<string>): (out: Option<seq<string>>)
    ensures out.Some? ==> out.value != [] && forall c :: c in out.value <==> c in schema && c in want
    ensures out.None? <==> forall c :: c in schema ==> c !in want
  {
    if schema == [] then None
    else
      var init, last := schema[..|schema| - 1], schema[|schema| - 1];
      assert forall c :: c in schema <==> c in init || c == last;
      var out := SchemaColsIn(init, want);
      if last !in want then out
      else Some((if out.None? then [] else out.value) + [last])
  }

  function AggColumns(aggs: seq<AggItem>): seq<string> {
    if aggs == [] then []
    else AggColumns(aggs[..|aggs| - 1]) + ColumnsOpt(aggs[|aggs| - 1].input)
  }

  function ItemColumns(items: seq<ProjectItem>): seq<string> {
    ColumnsOf(ItemExprs(items))
  }

  function OrderColumns(orderBy: seq<OrderItem>): seq<string> {
    ColumnsOf(OrderExprs(orderBy))
  }

  function JoinWant(needed: seq<string>, on: Expr): set<string> {
    (set c | c in needed) + (set c | c in Columns(on))
  }

  /** Hands each node the columns its ancestors need; absent means all of them. */
  function PruneColumns(p: Plan, needed: Option<seq<string>>): Plan
    decreases p
  {
    match p
    case Scan(t, pushed, _) => if needed.None? then p else Scan(t, pushed, AddNeeded(needed, ColumnsOpt(pushed)))
    case Filter(c, e) => Filter(PruneColumns(c, AddNeeded(needed, Columns(e))), e)
    case Project(c, items) => Project(PruneColumns(c, Some(Unique(ItemColumns(items)))), items)
    case Aggregate(c, groupBy, aggs) =>
        Aggregate(PruneColumns(c, Some(Unique(groupBy + AggColumns(aggs)))), groupBy, aggs)
    case Sort(c, orderBy) => Sort(PruneColumns(c, AddNeeded(needed, OrderColumns(orderBy))), orderBy)
    case Limit(c, count, offset) => Limit(PruneColumns(c, needed), count, offset)
    case Distinct(c) => Distinct(PruneColumns(c, needed))
    case Join(l, r, e) =>
      if needed.None? then Join(PruneColumns(l, None), PruneColumns(r, None), e)
      else
        var want := JoinWant(needed.value, e);
        Join(PruneColumns(l, SchemaColsIn(OutNames(l), want)), PruneColumns(r, SchemaColsIn(OutNames(r), want)), e)
  }

  function Optimize(p: Plan): Plan {
    PruneColumns(PushPredicates(p), None)
  }

  // ---- Well-scoped plans --------------------------------------------------------------------

  ghost predicate Known(cols: seq<string>, schema: seq<string>) {
    forall c :: c in cols ==> c in schema
  }

  ghost predicate Apart(xs: seq<string>, ys: seq<string>) {
    forall c :: c in xs ==> c !in ys
  }

  /** Every column a node reads is one its input has, and join sides share no name. */
  ghost predicate Scoped(p: Plan) {
    match p
    case Scan(t, pushed, needed) =>
      Known(ColumnsOpt(pushed), OutNames(p)) && (needed.Some? ==> Known(needed.value, FieldNames(t.fields)))
    case Filter(c, e) => Scoped(c) && Known(Columns(e), OutNames(c))
    case Project(c, items) => Scoped(c) && Known(ItemColumns(items), OutNames(c))
    case Aggregate(c, groupBy, aggs) => Scoped(c) && Known(groupBy + AggColumns(aggs), OutNames(c))
    case Sort(c, orderBy) => Scoped(c) && Known(OrderColumns(orderBy), OutNames(c))
    case Limit(c, _, _) => Scoped(c)
    case Distinct(c) => Scoped(c)
    case Join(l, r, e) =>
        Scoped(l) && Scoped(r) && Apart(OutNames(l), OutNames(r)) && Known(Columns(e), OutNames(l) + OutNames(r))
  }

  /** A plan as Build leaves it: no scan has been narrowed, and table rows have their
      schema's columns. */
  ghost predicate Fresh(p: Plan) {
    match p
    case Scan(t, _, needed) => needed.None? && Over(t.rows, set c | c in FieldNames(t.fields))
    case Filter(c, _) => Fresh(c)
    case Project(c, _) => Fresh(c)
    case Aggregate(c, _, _) => Fresh(c)
    case Sort(c, _) => Fresh(c)
    case Limit(c, _, _) => Fresh(c)
    case Distinct(c) => Fresh(c)
    case Join(l, r, _) => Fresh(l) && Fresh(r)
  }

  /** No Distinct loses a column under it: all columns are needed above it, or pruning
      keeps every column of its input anyway. */
  ghost predicate DistinctSafe(p: Plan, needed: Option<seq<string>>)
    decreases p
  {
    match p
    case Scan(_, _, _) => true
    case Filter(c, e) => DistinctSafe(c, AddNeeded(needed, Columns(e)))
    case Project(c, items) => DistinctSafe(c, Some(Unique(ItemColumns(items))))
    case Aggregate(c, groupBy, aggs) => DistinctSafe(c, Some(Unique(groupBy + AggColumns(aggs))))
    case Sort(c, orderBy) => DistinctSafe(c, AddNeeded(needed, OrderColumns(orderBy)))
    case Limit(c, _, _) => DistinctSafe(c, needed)
    case Distinct(c) =>
      && (needed.None? || Known(OutNames(c), OutNames(PruneColumns(c, needed))))
      && DistinctSafe(c, needed)
    case Join(l, r, e) =>
      if needed.None? then DistinctSafe(l, None) && DistinctSafe(r, None)
      else
        var want := JoinWant(needed.value, e);
        DistinctSafe(l, SchemaColsIn(OutNames(l), want)) && DistinctSafe(r, SchemaColsIn(OutNames(r), want))
  }

  predicate Needs(needed: Option<seq<string>>, c: string) {
    needed.None? || c in needed.value
  }

  /** Pruning drops only columns nobody asked for. */
  ghost predicate Keeps(schema': seq<string>, schema: seq<string>, needed: Option<seq<string>>) {
    && Known(schema', schema)
    && forall c :: c in schema && Needs(needed, c) ==> c in schema'
  }

  ghost predicate Asked(needed: Option<seq<string>>, schema: seq<string>) {
    needed.Some? ==> Known(needed.value, schema)
  }

  lemma {:induction false} PruneNames(p: Plan, needed: Option<seq<string>>)
    requires Fresh(p) && Scoped(p)
    ensures Keeps(OutNames(PruneColumns(p, needed)), OutNames(p), needed)
    ensures (p.Project? || p.Aggregate?) ==> OutNames(PruneColumns(p, needed)) == OutNames(p)
    decreases p
  {
    match p
    case Scan(_, _, _) =>
    case Filter(c, e) => PruneNames(c, AddNeeded(needed, Columns(e)));
    case Project(_, _) =>
    case Aggregate(c, groupBy, aggs) =>
      var cols := Unique(groupBy + AggColumns(aggs));
      PruneNames(c, Some(cols));
      SamePicked(groupBy, OutNames(PruneColumns(c, Some(cols))), OutNames(c));
    case Sort(c, orderBy) => PruneNames(c, AddNeeded(needed, OrderColumns(orderBy)));
    case Limit(c, _, _) => PruneNames(c, needed);
    case Distinct(c) => PruneNames(c, needed);
    case Join(l, r, e) =>
      var want := if needed.None? then {} else JoinWant(needed.value, e);
      PruneNames(l, if needed.None? then None else SchemaColsIn(OutNames(l), want));
      PruneNames(r, if needed.None? then None else SchemaColsIn(OutNames(r), want));
  }

  lemma {:induction false} SamePicked(names: seq<string>, schema': seq<string>, schema: seq<string>)
    requires forall c :: c in names ==> (c in schema' <==> c in schema)
    ensures Picked(names, schema') == Picked(names, schema)
  {
    if names != [] {
      SamePicked(names[1..], schema', schema);
    }
  }

  /** Pruned plans stay well scoped: no node loses a column it reads. */
  lemma {:induction false} PruneScoped(p: Plan, needed: Option<seq<string>>)
    requires Fresh(p) && Scoped(p) && Asked(needed, OutNames(p))
    ensures Scoped(PruneColumns(p, needed))
    decreases p
  {
    match p
    case Scan(_, _, _) =>
    case Filter(c, e) =>
      PruneNames(c, AddNeeded(needed, Columns(e)));
      PruneScoped(c, AddNeeded(needed, Columns(e)));
    case Project(c, items) =>
      PruneNames(c, Some(Unique(ItemColumns(items))));
      PruneScoped(c, Some(Unique(ItemColumns(items))));
    case Aggregate(c, groupBy, aggs) =>
      PruneNames(c, Some(Unique(groupBy + AggColumns(aggs))));
      PruneScoped(c, Some(Unique(groupBy + AggColumns(aggs))));
    case Sort(c, orderBy) =>
      PruneNames(c, AddNeeded(needed, OrderColumns(orderBy)));
      PruneScoped(c, AddNeeded(needed, OrderColumns(orderBy)));
    case Limit(c, _, _) => PruneScoped(c, needed);
    case Distinct(c) => PruneScoped(c, needed);
    case Join(l, r, e) =>
      var want := if needed.None? then {} else JoinWant(needed.value, e);
      var nl := if needed.None? then None else SchemaColsIn(OutNames(l), want);
      var nr := if needed.None? then None else SchemaColsIn(OutNames(r), want);
      PruneNames(l, nl);
      PruneNames(r, nr);
      PruneScoped(l, nl);
      PruneScoped(r, nr);
  }

  // ---- Nothing is read in vain ---------------------------------------------------------------

  /** Every scan reads only columns its own predicate or a node above it names; a scan
      nobody names a column of reads them all. `wanted` is what is named above, absent
      when everything is. */
  ghost predicate Lean(p: Plan, wanted: Option<set<string>>)
    decreases p
  {
    match p
    case Scan(_, pushed, _) =>
      wanted.Some? ==>
        var cols := wanted.value + NameSet(ColumnsOpt(pushed));
        cols == {} || NameSet(OutNames(p)) <= cols
    case Filter(c, e) => Lean(c, Also(wanted, Columns(e)))
    case Project(c, items) => Lean(c, Some(NameSet(ItemColumns(items))))
    case Aggregate(c, groupBy, aggs) => Lean(c, Some(NameSet(groupBy) + NameSet(AggColumns(aggs))))
    case Sort(c, orderBy) => Lean(c, Also(wanted, OrderColumns(orderBy)))
    case Limit(c, _, _) => Lean(c, wanted)
    case Distinct(c) => Lean(c, wanted)
    case Join(l, r, e) => Lean(l, SideOf(l, Also(wanted, Columns(e)))) && Lean(r, SideOf(r, Also(wanted, Columns(e))))
  }

  ghost function Also(wanted: Option<set<string>>, cols: seq<string>): Option<set<string>> {
    if wanted.None? then None else Some(wanted.value + NameSet(cols))
  }

  /** What is wanted of one side of a join: a side nothing is wanted of is read whole. */
  ghost function SideOf(side: Plan, wanted: Option<set<string>>): Option<set<string>> {
    if wanted.None? || NameSet(OutNames(side)) * wanted.value == {} then None
    else Some(NameSet(OutNames(side)) * wanted.value)
  }

  ghost function WantedBy(needed: Option<seq<string>>): Option<set<string>> {
    if needed.None? then None else Some(NameSet(needed.value))
  }

  lemma {:induction false} AddWanted(needed: Option<seq<string>>, extra: seq<string>)
    ensures WantedBy(AddNeeded(needed, extra)) == Also(WantedBy(needed), extra)
  {
    if needed.Some? {
      assert NameSet(Unique(needed.value + extra)) == NameSet(needed.value) + NameSet(extra);
    }
  }

  lemma {:induction false} SideWanted(side: Plan, needed: Option<seq<string>>, on: Expr)
    requires Fresh(side) && Scoped(side)
    ensures var cols := if needed.None? then None else SchemaColsIn(OutNames(side), JoinWant(needed.value, on));
      SideOf(PruneColumns(side, cols), Also(WantedBy(needed), Columns(on))) == WantedBy(cols)
  {
    if needed.Some? {
      var want := JoinWant(needed.value, on);
      var cols := SchemaColsIn(OutNames(side), want);
      PruneNames(side, cols);
      assert Also(WantedBy(needed), Columns(on)).value == want;
      assert NameSet(OutNames(PruneColumns(side, cols))) * want == NameSet(OutNames(side)) * want;
      if cols.Some? {
        assert NameSet(OutNames(side)) * want == NameSet(cols.value);
        assert cols.value[0] in NameSet(cols.value);
      }
    }
  }

  lemma {:induction false} ScanLean(t: Table, pushed: Option<Expr>, needed: Option<seq<string>>)
    requires needed.Some?
    ensures Lean(Scan(t, pushed, AddNeeded(needed, ColumnsOpt(pushed))), WantedBy(needed))
  {
    AddWanted(needed, ColumnsOpt(pushed));
    var read := AddNeeded(needed, ColumnsOpt(pushed)).value;
    assert read == [] ==> NameSet(read) == {};
  }

  /** Pruning leaves no scan reading a column that nothing above it names. */
  lemma {:induction false} PruneLean(p: Plan, needed: Option<seq<string>>)
    requires Fresh(p) && Scoped(p)
    ensures Lean(PruneColumns(p, needed), WantedBy(needed))
    decreases p
  {
    match p
    case Scan(t, pushed, _) =>
      if needed.Some? {
        ScanLean(t, pushed, needed);
      }
    case Filter(c, e) =>
      AddWanted(needed, Columns(e));
      PruneLean(c, AddNeeded(needed, Columns(e)));
    case Project(c, items) =>
      assert NameSet(Unique(ItemColumns(items))) == NameSet(ItemColumns(items));
      PruneLean(c, Some(Unique(ItemColumns(items))));
    case Aggregate(c, groupBy, aggs) =>
      var cols := Unique(groupBy + AggColumns(aggs));
      assert NameSet(cols) == NameSet(groupBy) + NameSet(AggColumns(aggs));
      PruneLean(c, Some(cols));
    case Sort(c, orderBy) =>
      AddWanted(needed, OrderColumns(orderBy));
      PruneLean(c, AddNeeded(needed, OrderColumns(orderBy)));
    case Limit(c, _, _) => PruneLean(c, needed);
    case Distinct(c) => PruneLean(c, needed);
    case Join(l, r, e) =>
      SideWanted(l, needed, e);
      SideWanted(r, needed, e);
      PruneLean(l, if needed.None? then None else SchemaColsIn(OutNames(l), JoinWant(needed.value, e)));
      PruneLean(r, if needed.None? then None else SchemaColsIn(OutNames(r), JoinWant(needed.value, e)));
  }

  // ---- Rows of well-scoped plans ---------------------------------------------------------

  function NameSet(names: seq<string>): set<string> {
    set c | c in names
  }

  lemma {:induction false} ZipOver(names: seq<string>, values: seq<Value>)
    ensures Zip(names, values).Keys == NameSet(names)
  {
    if names != [] {
      ZipOver(names[..|names| - 1], values);
      assert forall c :: c in names <==> c in names[..|names| - 1] || c == names[|names| - 1];
    }
  }

  lemma {:induction false} AtOver(rows: seq<Row>, order: seq<nat>, names: set<string>)
    requires Over(rows, names)
    ensures Over(At(rows, order), names)
  {
    if order != [] {
      AtOver(rows, order[..|order| - 1], names);
    }
  }

  lemma {:induction false} FirstRowsOver(rows: seq<Row>, names: set<string>)
    requires Over(rows, names)
    ensures Over(FirstRows(rows), names)
  {
    if rows != [] {
      FirstRowsOver(rows[..|rows| - 1], names);
    }
  }

  /** Table rows have their schema's columns, whether or not a scan reads them all. */
  ghost predicate Tabular(p: Plan) {
    match p
    case Scan(t, _, _) => Over(t.rows, NameSet(FieldNames(t.fields)))
    case Filter(c, _) => Tabular(c)
    case Project(c, _) => Tabular(c)
    case Aggregate(c, _, _) => Tabular(c)
    case Sort(c, _) => Tabular(c)
    case Limit(c, _, _) => Tabular(c)
    case Distinct(c) => Tabular(c)
    case Join(l, r, _) => Tabular(l) && Tabular(r)
  }

  lemma {:induction false} PruneTabular(p: Plan, needed: Option<seq<string>>)
    requires Fresh(p)
    ensures Tabular(p) && Tabular(PruneColumns(p, needed))
    decreases p
  {
    match p
    case Scan(t, _, _) => assert NameSet(FieldNames(t.fields)) == set c | c in FieldNames(t.fields);
    case Filter(c, e) => PruneTabular(c, AddNeeded(needed, Columns(e)));
    case Project(c, items) => PruneTabular(c, Some(Unique(ItemColumns(items))));
    case Aggregate(c, groupBy, aggs) => PruneTabular(c, Some(Unique(groupBy + AggColumns(aggs))));
    case Sort(c, orderBy) => PruneTabular(c, AddNeeded(needed, OrderColumns(orderBy)));
    case Limit(c, _, _) => PruneTabular(c, needed);
    case Distinct(c) => PruneTabular(c, needed);
    case Join(l, r, e) =>
      var want := if needed.None? then {} else JoinWant(needed.value, e);
      PruneTabular(l, if needed.None? then None else SchemaColsIn(OutNames(l), want));
      PruneTabular(r, if needed.None? then None else SchemaColsIn(OutNames(r), want));
  }

  lemma {:induction false} ScanOver(t: Table, pushed: Option<Expr>, needed: Option<seq<string>>, sem: Semantics)
    requires Over(t.rows, NameSet(FieldNames(t.fields)))
    ensures Over(ScanRows(t, pushed, needed, sem), NameSet(OutNames(Scan(t, pushed, needed))))
  {
    var names := NameSet(OutNames(Scan(t, pushed, needed)));
    var rows := ScanRows(t, None, needed, sem);
    forall i | 0 <= i < |rows| ensures rows[i].Keys == names {
      assert t.rows[i].Keys == NameSet(FieldNames(t.fields));
    }
    if pushed.Some? {
      SelectOver(rows, pushed.value, sem, names);
    }
  }

  /** The rows of a plan have exactly the columns of its output schema. */
  lemma {:induction false} RowsOver(p: Plan, w: World)
    requires Tabular(p)
    ensures Over(Denote(p, w), NameSet(OutNames(p)))
    decreases p
  {
    match p
    case Scan(t, pushed, needed) => ScanOver(t, pushed, needed, w.sem);
    case Filter(c, e) =>
      RowsOver(c, w);
      SelectOver(Denote(c, w), e, w.sem, NameSet(OutNames(c)));
    case Project(c, items) =>
      forall i | 0 <= i < |Denote(p, w)| ensures Denote(p, w)[i].Keys == NameSet(OutNames(p)) {
        ZipOver(Aliases(items), EvalAll(ItemExprs(items), Denote(c, w)[i], w.sem));
      }
    case Aggregate(c, groupBy, aggs) =>
      AggregateOver(Denote(c, w), groupBy, aggs, OutNames(p), w);
    case Sort(c, orderBy) =>
      RowsOver(c, w);
      AtOver(Denote(c, w), w.order(EvalRows(OrderExprs(orderBy), Denote(c, w), w.sem), Descending(orderBy)),
          NameSet(OutNames(c)));
    case Limit(c, _, _) => RowsOver(c, w);
    case Distinct(c) =>
      RowsOver(c, w);
      FirstRowsOver(Denote(c, w), NameSet(OutNames(c)));
    case Join(l, r, e) =>
      RowsOver(l, w);
      RowsOver(r, w);
      var x, y := NameSet(OutNames(l)), NameSet(OutNames(r));
      PairsOver(Denote(l, w), Denote(r, w), x, y);
      assert x + y == NameSet(OutNames(p));
      SelectOver(Pairs(Denote(l, w), Denote(r, w)), e, w.sem, x + y);
  }

  lemma {:induction false} AggregateOver(rows: seq<Row>, groupBy: seq<string>, aggs: seq<AggItem>,
                                         names: seq<string>, w: World)
    ensures Over(AggregateRows(rows, groupBy, aggs, names, w), NameSet(names))
  {
    var out := w.group(EvalRows(GroupExprs(groupBy), rows, w.sem), EvalRows(AggExprs(aggs), rows, w.sem), aggs);
    forall i | 0 <= i < |out| ensures Zip(names, out[i]).Keys == NameSet(names) {
      ZipOver(names, out[i]);
    }
  }

  // ---- Narrowed rows -----------------------------------------------------------------------

  /** A row with some unneeded columns dropped. */
  ghost predicate Narrow(r': Row, r: Row, needed: Option<seq<string>>) {
    && (forall c :: c in r' ==> c in r && r'[c] == r[c])
    && (forall c :: c in r && Needs(needed, c) ==> c in r')
  }

  ghost predicate NarrowAll(rs': seq<Row>, rs: seq<Row>, needed: Option<seq<string>>) {
    |rs'| == |rs| && forall i :: 0 <= i < |rs| ==> Narrow(rs'[i], rs[i], needed)
  }

  ghost predicate Covers(needed: Option<seq<string>>, cols: seq<string>) {
    forall c :: c in cols ==> Needs(needed, c)
  }

  lemma {:induction false} NarrowEval(r': Row, r: Row, needed: Option<seq<string>>, e: Expr, sem: Semantics)
    requires Narrow(r', r, needed) && Covers(needed, Columns(e))
    ensures Eval(e, r', sem) == Eval(e, r, sem)
  {
    EvalFrame(e, r', r, sem);
  }

  /** A filter keeps the same rows, narrowed as they were. */
  lemma {:induction false} NarrowSelect(rs': seq<Row>, rs: seq<Row>, needed: Option<seq<string>>, e: Expr,
                                        sem: Semantics)
    requires NarrowAll(rs', rs, needed) && Covers(needed, Columns(e))
    ensures NarrowAll(Select(rs', e, sem), Select(rs, e, sem), needed)
  {
    if rs != [] {
      var n := |rs| - 1;
      NarrowSelect(rs'[..n], rs[..n], needed, e, sem);
      NarrowEval(rs'[n], rs[n], needed, e, sem);
      NarrowSnoc(Select(rs'[..n], e, sem), Select(rs[..n], e, sem), rs'[n], rs[n], needed, True(e, rs[n], sem));
    }
  }

  lemma {:induction false} NarrowSnoc(rs': seq<Row>, rs: seq<Row>, r': Row, r: Row, needed: Option<seq<string>>,
                                      keep: bool)
    requires NarrowAll(rs', rs, needed) && Narrow(r', r, needed)
    ensures NarrowAll(rs' + if keep then [r'] else [], rs + if keep then [r] else [], needed)
  {
  }

  lemma {:induction false} NarrowEvalAll(es: seq<Expr>, r': Row, r: Row, needed: Option<seq<string>>, sem: Semantics)
    requires Narrow(r', r, needed) && Covers(needed, ColumnsOf(es))
    ensures EvalAll(es, r', sem) == EvalAll(es, r, sem)
  {
    forall i | 0 <= i < |es| ensures Eval(es[i], r', sem) == Eval(es[i], r, sem) {
      ColumnsOfArg(es, i);
      NarrowEval(r', r, needed, es[i], sem);
    }
  }

  lemma {:induction false} NarrowEvalRows(es: seq<Expr>, rs': seq<Row>, rs: seq<Row>, needed: Option<seq<string>>,
                                          sem: Semantics)
    requires NarrowAll(rs', rs, needed) && Covers(needed, ColumnsOf(es))
    ensures EvalRows(es, rs', sem) == EvalRows(es, rs, sem)
  {
    forall i | 0 <= i < |rs| ensures EvalAll(es, rs'[i], sem) == EvalAll(es, rs[i], sem) {
      NarrowEvalAll(es, rs'[i], rs[i], needed, sem);
    }
  }

  lemma {:induction false} NarrowAt(rs': seq<Row>, rs: seq<Row>, needed: Option<seq<string>>, order: seq<nat>)
    requires NarrowAll(rs', rs, needed)
    ensures NarrowAll(At(rs', order), At(rs, order), needed)
  {
    if order != [] {
      NarrowAt(rs', rs, needed, order[..|order| - 1]);
    }
  }

  lemma {:induction false} NarrowEqual(rs': seq<Row>, rs: seq<Row>)
    requires NarrowAll(rs', rs, None)
    ensures rs' == rs
  {
    forall i | 0 <= i < |rs| ensures rs'[i] == rs[i] {
      assert Narrow(rs'[i], rs[i], None);
    }
  }

  /** Rows narrowed to all of their columns are whole. */
  lemma {:induction false} NothingDropped(rs': seq<Row>, rs: seq<Row>, needed: Option<seq<string>>,
                                          names': seq<string>, names: seq<string>)
    requires NarrowAll(rs', rs, needed) && (needed.None? || Known(names, names'))
    requires Over(rs', NameSet(names')) && Over(rs, NameSet(names))
    ensures rs' == rs
  {
    forall i | 0 <= i < |rs| ensures rs'[i] == rs[i] {
      assert Narrow(rs'[i], rs[i], needed) && rs[i].Keys == NameSet(names) && rs'[i].Keys == NameSet(names');
      forall c | c in rs[i] ensures c in rs'[i] {
        assert c in names;
        assert needed.Some? ==> c in NameSet(names');
      }
    }
  }

  lemma {:induction false} NarrowWeaken(rs': seq<Row>, rs: seq<Row>, needed: Option<seq<string>>,
                                        fewer: Option<seq<string>>)
    requires NarrowAll(rs', rs, needed) && forall c :: Needs(fewer, c) ==> Needs(needed, c)
    ensures NarrowAll(rs', rs, fewer)
  {
    forall i | 0 <= i < |rs| ensures Narrow(rs'[i], rs[i], fewer) {
      assert Narrow(rs'[i], rs[i], needed);
    }
  }

  lemma {:induction false} NarrowCut(rows: seq<Row>, cols: seq<string>)
    ensures NarrowAll(CutAll(rows, cols), rows, Some(cols))
  {
  }

  lemma {:induction false} NarrowSame(rows: seq<Row>, needed: Option<seq<string>>)
    ensures NarrowAll(rows, rows, needed)
  {
  }

  /** Merging narrowed sides of a join narrows the merged rows. */
  lemma {:induction false} NarrowMerge(l': Row, l: Row, r': Row, r: Row, nl: Option<seq<string>>,
                                       nr: Option<seq<string>>, needed: Option<seq<string>>)
    requires Narrow(l', l, nl) && Narrow(r', r, nr) && l.Keys !! r.Keys
    requires forall c :: c in l && Needs(needed, c) ==> Needs(nl, c)
    requires forall c :: c in r && Needs(needed, c) ==> Needs(nr, c)
    ensures Narrow(l' + r', l + r, needed)
  {
  }

  ghost predicate Splits(schema: seq<string>, needed: Option<seq<string>>, side: Option<seq<string>>) {
    forall c :: c in schema && Needs(needed, c) ==> Needs(side, c)
  }

  lemma {:induction false} NarrowPairUp(ls': seq<Row>, ls: seq<Row>, r': Row, r: Row, x: seq<string>, y: seq<string>,
                                        nl: Option<seq<string>>, nr: Option<seq<string>>, needed: Option<seq<string>>)
    requires NarrowAll(ls', ls, nl) && Narrow(r', r, nr) && Over(ls, NameSet(x)) && r.Keys == NameSet(y) && Apart(x, y)
    requires Splits(x, needed, nl) && Splits(y, needed, nr)
    ensures NarrowAll(PairUp(ls', r'), PairUp(ls, r), needed)
  {
    forall i | 0 <= i < |ls| ensures Narrow(ls'[i] + r', ls[i] + r, needed) {
      assert ls[i].Keys !! r.Keys by {
        assert forall c :: c in ls[i].Keys ==> c in x;
      }
      NarrowMerge(ls'[i], ls[i], r', r, nl, nr, needed);
    }
  }

  lemma {:induction false} NarrowPairs(ls': seq<Row>, ls: seq<Row>, rs': seq<Row>, rs: seq<Row>, x: seq<string>,
                                       y: seq<string>,
                                       nl: Option<seq<string>>, nr: Option<seq<string>>, needed: Option<seq<string>>)
    requires NarrowAll(ls', ls, nl) && NarrowAll(rs', rs, nr)
    requires Over(ls, NameSet(x)) && Over(rs, NameSet(y)) && Apart(x, y)
    requires Splits(x, needed, nl) && Splits(y, needed, nr)
    ensures NarrowAll(Pairs(ls', rs'), Pairs(ls, rs), needed)
  {
    if rs != [] {
      var n := |rs| - 1;
      NarrowPairs(ls', ls, rs'[..n], rs[..n], x, y, nl, nr, needed);
      NarrowPairUp(ls', ls, rs'[n], rs[n], x, y, nl, nr, needed);
    }
  }

  lemma {:induction false} GroupColumns(groupBy: seq<string>)
    ensures ColumnsOf(GroupExprs(groupBy)) == groupBy
  {
    if groupBy != [] {
      GroupColumns(groupBy[1..]);
      assert GroupExprs(groupBy)[1..] == GroupExprs(groupBy[1..]);
    }
  }

  lemma {:induction false} AggColumn(aggs: seq<AggItem>, i: nat)
    requires i < |aggs|
    ensures forall c :: c in ColumnsOpt(aggs[i].input) ==> c in AggColumns(aggs)
  {
    if i < |aggs| - 1 {
      AggColumn(aggs[..|aggs| - 1], i);
    }
  }

  lemma {:induction false} AggExprColumns(aggs: seq<AggItem>, es: seq<Expr>, needed: Option<seq<string>>)
    requires Covers(needed, AggColumns(aggs)) && |es| <= |aggs| && es == AggExprs(aggs)[|aggs| - |es|..]
    ensures Covers(needed, ColumnsOf(es))
  {
    if es != [] {
      AggColumn(aggs, |aggs| - |es|);
      AggExprColumns(aggs, es[1..], needed);
    }
  }

  lemma {:induction false} PruneScan(t: Table, pushed: Option<Expr>, needed: seq<string>, sem: Semantics)
    ensures NarrowAll(ScanRows(t, pushed, AddNeeded(Some(needed), ColumnsOpt(pushed)), sem),
        ScanRows(t, pushed, None, sem), Some(needed))
  {
    var cols := Unique(needed + ColumnsOpt(pushed));
    if cols == [] {
      NarrowSame(ScanRows(t, pushed, None, sem), Some(needed));
    } else {
      NarrowCut(t.rows, cols);
      if pushed.Some? {
        NarrowSelect(CutAll(t.rows, cols), t.rows, Some(cols), pushed.value, sem);
      }
      NarrowWeaken(ScanRows(t, pushed, Some(cols), sem), ScanRows(t, pushed, None, sem), Some(cols), Some(needed));
    }
  }

  lemma {:induction false} PruneProject(rs': seq<Row>, rs: seq<Row>, items: seq<ProjectItem>, sem: Semantics)
    requires NarrowAll(rs', rs, Some(Unique(ItemColumns(items))))
    ensures ProjectRows(rs', items, sem) == ProjectRows(rs, items, sem)
  {
    forall i | 0 <= i < |rs| ensures EvalAll(ItemExprs(items), rs'[i], sem) == EvalAll(ItemExprs(items), rs[i], sem) {
      NarrowEvalAll(ItemExprs(items), rs'[i], rs[i], Some(Unique(ItemColumns(items))), sem);
    }
  }

  lemma {:induction false} PruneAggregate(rs': seq<Row>, rs: seq<Row>, groupBy: seq<string>, aggs: seq<AggItem>,
                                          names: seq<string>, w: World)
    requires NarrowAll(rs', rs, Some(Unique(groupBy + AggColumns(aggs))))
    ensures AggregateRows(rs', groupBy, aggs, names, w) == AggregateRows(rs, groupBy, aggs, names, w)
  {
    var needed := Some(Unique(groupBy + AggColumns(aggs)));
    GroupColumns(groupBy);
    AggExprColumns(aggs, AggExprs(aggs), needed);
    NarrowEvalRows(GroupExprs(groupBy), rs', rs, needed, w.sem);
    NarrowEvalRows(AggExprs(aggs), rs', rs, needed, w.sem);
  }

  lemma {:induction false} PruneFilter(rs': seq<Row>, rs: seq<Row>, needed: Option<seq<string>>, e: Expr,
                                       sem: Semantics)
    requires NarrowAll(rs', rs, AddNeeded(needed, Columns(e)))
    ensures NarrowAll(Select(rs', e, sem), Select(rs, e, sem), needed)
  {
    var both := AddNeeded(needed, Columns(e));
    NarrowSelect(rs', rs, both, e, sem);
    NarrowWeaken(Select(rs', e, sem), Select(rs, e, sem), both, needed);
  }

  lemma {:induction false} PruneSort(rs': seq<Row>, rs: seq<Row>, needed: Option<seq<string>>,
                                     orderBy: seq<OrderItem>, w: World)
    requires NarrowAll(rs', rs, AddNeeded(needed, OrderColumns(orderBy)))
    ensures NarrowAll(SortRows(rs', orderBy, w), SortRows(rs, orderBy, w), needed)
  {
    var both := AddNeeded(needed, OrderColumns(orderBy));
    NarrowEvalRows(OrderExprs(orderBy), rs', rs, both, w.sem);
    var order := w.order(EvalRows(OrderExprs(orderBy), rs, w.sem), Descending(orderBy));
    NarrowAt(rs', rs, both, order);
    NarrowWeaken(At(rs', order), At(rs, order), both, needed);
  }

  lemma {:induction false} PruneJoin(ls': seq<Row>, ls: seq<Row>, rs': seq<Row>, rs: seq<Row>, x: seq<string>,
                                     y: seq<string>, needed: seq<string>, e: Expr, sem: Semantics)
    requires Over(ls, NameSet(x)) && Over(rs, NameSet(y)) && Apart(x, y)
    requires NarrowAll(ls', ls, SchemaColsIn(x, JoinWant(needed, e)))
    requires NarrowAll(rs', rs, SchemaColsIn(y, JoinWant(needed, e)))
    ensures NarrowAll(Select(Pairs(ls', rs'), e, sem), Select(Pairs(ls, rs), e, sem), Some(needed))
  {
    var want, both := JoinWant(needed, e), Some(needed + Columns(e));
    NarrowPairs(ls', ls, rs', rs, x, y, SchemaColsIn(x, want), SchemaColsIn(y, want), both);
    NarrowSelect(Pairs(ls', rs'), Pairs(ls, rs), both, e, sem);
    NarrowWeaken(Select(Pairs(ls', rs'), e, sem), Select(Pairs(ls, rs), e, sem), both, Some(needed));
  }

  lemma {:induction false} PruneLimit(rs': seq<Row>, rs: seq<Row>, needed: Option<seq<string>>, count: int, offset: int)
    requires NarrowAll(rs', rs, needed)
    ensures NarrowAll(LimitRows(rs', count, offset), LimitRows(rs, count, offset), needed)
  {
  }

  /** Pruning keeps the row sequence of a plan on every column an ancestor needs. */
  lemma {:induction false} PruneMeaning(p: Plan, needed: Option<seq<string>>, w: World)
    requires Fresh(p) && Scoped(p) && DistinctSafe(p, needed)
    ensures NarrowAll(Denote(PruneColumns(p, needed), w), Denote(p, w), needed)
    ensures (p.Project? || p.Aggregate?) ==> Denote(PruneColumns(p, needed), w) == Denote(p, w)
    decreases p
  {
    match p
    case Scan(t, pushed, _) =>
      if needed.None? {
        NarrowSame(Denote(p, w), needed);
      } else {
        PruneScan(t, pushed, needed.value, w.sem);
      }
    case Filter(c, e) =>
      PruneMeaning(c, AddNeeded(needed, Columns(e)), w);
      PruneFilter(Denote(PruneColumns(c, AddNeeded(needed, Columns(e))), w), Denote(c, w), needed, e, w.sem);
    case Project(c, items) =>
      PruneMeaning(c, Some(Unique(ItemColumns(items))), w);
      PruneProject(Denote(PruneColumns(c, Some(Unique(ItemColumns(items)))), w), Denote(c, w), items, w.sem);
      NarrowSame(Denote(p, w), needed);
    case Aggregate(c, groupBy, aggs) =>
      var cols := Some(Unique(groupBy + AggColumns(aggs)));
      PruneMeaning(c, cols, w);
      PruneNames(p, needed);
      PruneAggregate(Denote(PruneColumns(c, cols), w), Denote(c, w), groupBy, aggs, OutNames(p), w);
      NarrowSame(Denote(p, w), needed);
    case Sort(c, orderBy) =>
      PruneMeaning(c, AddNeeded(needed, OrderColumns(orderBy)), w);
      PruneSort(Denote(PruneColumns(c, AddNeeded(needed, OrderColumns(orderBy))), w), Denote(c, w), needed, orderBy, w);
    case Limit(c, count, offset) =>
      PruneMeaning(c, needed, w);
      PruneLimit(Denote(PruneColumns(c, needed), w), Denote(c, w), needed, count, offset);
    case Distinct(c) =>
      PruneMeaning(c, needed, w);
      PruneTabular(c, needed);
      RowsOver(c, w);
      RowsOver(PruneColumns(c, needed), w);
      NothingDropped(Denote(PruneColumns(c, needed), w), Denote(c, w), needed, OutNames(PruneColumns(c, needed)),
          OutNames(c));
      NarrowSame(Denote(p, w), needed);
    case Join(l, r, e) => PruneJoinMeaning(l, r, e, needed, w);
  }

  lemma {:induction false} PruneJoinMeaning(l: Plan, r: Plan, e: Expr, needed: Option<seq<string>>, w: World)
    requires var p := Join(l, r, e); Fresh(p) && Scoped(p) && DistinctSafe(p, needed)
    ensures NarrowAll(Denote(PruneColumns(Join(l, r, e), needed), w), Denote(Join(l, r, e), w), needed)
    decreases Join(l, r, e), 0
  {
    if needed.None? {
      PruneMeaning(l, None, w);
      PruneMeaning(r, None, w);
      NarrowEqual(Denote(PruneColumns(l, None), w), Denote(l, w));
      NarrowEqual(Denote(PruneColumns(r, None), w), Denote(r, w));
      NarrowSame(Denote(Join(l, r, e), w), needed);
    } else {
      var want := JoinWant(needed.value, e);
      var nl, nr := SchemaColsIn(OutNames(l), want), SchemaColsIn(OutNames(r), want);
      PruneMeaning(l, nl, w);
      PruneMeaning(r, nr, w);
      PruneTabular(l, nl);
      PruneTabular(r, nr);
      RowsOver(l, w);
      RowsOver(r, w);
      PruneJoin(Denote(PruneColumns(l, nl), w), Denote(l, w), Denote(PruneColumns(r, nr), w), Denote(r, w),
                OutNames(l), OutNames(r), needed.value, e, w.sem);
    }
  }

  ghost predicate SameNames(a: seq<string>, b: seq<string>) {
    forall c :: c in a <==> c in b
  }

  lemma {:induction false} ScanNames(t: Table, pushed: Option<Expr>, pushed': Option<Expr>, a: Option<seq<string>>,
                                     b: Option<seq<string>>)
    requires a.Some? == b.Some?
    requires a.Some? ==>
      forall c :: c in a.value || c in ColumnsOpt(pushed) <==> c in b.value || c in ColumnsOpt(pushed')
    ensures SameNames(OutNames(PruneColumns(Scan(t, pushed, None), a)),
        OutNames(PruneColumns(Scan(t, pushed', None), b)))
  {
    if a.Some? {
      var x, y := Unique(a.value + ColumnsOpt(pushed)), Unique(b.value + ColumnsOpt(pushed'));
      assert forall c :: c in x <==> c in y;
      assert x == [] <==> y == [] by {
        assert x != [] ==> x[0] in y;
        assert y != [] ==> y[0] in x;
      }
    }
  }

  /** Pruning keeps the same columns before and after pushdown. */
  lemma {:induction false} PushPrunes(p: Plan, needed: Option<seq<string>>, w: World)
    requires Fresh(p)
    ensures Fresh(PushPredicates(p))
    ensures SameNames(OutNames(PruneColumns(PushPredicates(p), needed)), OutNames(PruneColumns(p, needed)))
    decreases p
  {
    match p
    case Scan(_, _, _) =>
    case Filter(c, e) =>
      PushPrunes(c, AddNeeded(needed, Columns(e)), w);
      var child := PushPredicates(c);
      if child.Scan? {
        ScanNames(child.table, MergePredicate(child.pushed, e), child.pushed, needed, AddNeeded(needed, Columns(e)));
      }
    case Project(c, items) => PushPrunes(c, Some(Unique(ItemColumns(items))), w);
    case Aggregate(c, groupBy, aggs) =>
      PushPrunes(c, Some(Unique(groupBy + AggColumns(aggs))), w);
    case Sort(c, orderBy) => PushPrunes(c, AddNeeded(needed, OrderColumns(orderBy)), w);
    case Limit(c, _, _) => PushPrunes(c, needed, w);
    case Distinct(c) => PushPrunes(c, needed, w);
    case Join(l, r, e) =>
      PushMeaning(l, w);
      PushMeaning(r, w);
      var want := if needed.None? then {} else JoinWant(needed.value, e);
      PushPrunes(l, if needed.None? then None else SchemaColsIn(OutNames(l), want), w);
      PushPrunes(r, if needed.None? then None else SchemaColsIn(OutNames(r), want), w);
  }

  /** Pushdown keeps a plan fresh, well scoped and safe for Distinct. */
  lemma {:induction false} PushKeeps(p: Plan, needed: Option<seq<string>>, w: World)
    requires Fresh(p) && Scoped(p) && DistinctSafe(p, needed)
    ensures Fresh(PushPredicates(p)) && Scoped(PushPredicates(p)) && DistinctSafe(PushPredicates(p), needed)
    decreases p
  {
    PushMeaning(p, w);
    match p
    case Scan(_, _, _) =>
    case Filter(c, e) =>
      PushMeaning(c, w);
      PushKeeps(c, AddNeeded(needed, Columns(e)), w);
    case Project(c, items) =>
      PushMeaning(c, w);
      PushKeeps(c, Some(Unique(ItemColumns(items))), w);
    case Aggregate(c, groupBy, aggs) =>
      PushMeaning(c, w);
      PushKeeps(c, Some(Unique(groupBy + AggColumns(aggs))), w);
    case Sort(c, orderBy) =>
      PushMeaning(c, w);
      PushKeeps(c, AddNeeded(needed, OrderColumns(orderBy)), w);
    case Limit(c, _, _) => PushKeeps(c, needed, w);
    case Distinct(c) =>
      PushMeaning(c, w);
      PushKeeps(c, needed, w);
      PushPrunes(c, needed, w);
    case Join(l, r, e) =>
      PushMeaning(l, w);
      PushMeaning(r, w);
      var want := if needed.None? then {} else JoinWant(needed.value, e);
      PushKeeps(l, if needed.None? then None else SchemaColsIn(OutNames(l), want), w);
      PushKeeps(r, if needed.None? then None else SchemaColsIn(OutNames(r), want), w);
  }

  /** The optimised plan yields the very rows of the plan it came from, in order, every
      node still finds the columns it reads, and no scan reads one that nothing names. */
  lemma {:induction false} OptimizeMeaning(p: Plan, w: World)
    requires Fresh(p) && Scoped(p) && DistinctSafe(p, None)
    ensures Denote(Optimize(p), w) == Denote(p, w) && Scoped(Optimize(p)) && Lean(Optimize(p), None)
  {
    PushKeeps(p, None, w);
    PushMeaning(p, w);
    PruneMeaning(PushPredicates(p), None, w);
    PruneScoped(PushPredicates(p), None);
    PruneLean(PushPredicates(p), None);
    NarrowEqual(Denote(Optimize(p), w), Denote(PushPredicates(p), w));
  }

  // ---- Exactly when Distinct survives narrowing -------------------------------------------

  /** A projection over a Distinct straight over a scan. */
  function OverDistinct(t: Table, needed: Option<seq<string>>, items: seq<ProjectItem>): Plan {
    Project(Distinct(Scan(t, None, needed)), items)
  }

  /** What pruning leaves the scan of such a plan to read. */
  function ScanReads(items: seq<ProjectItem>): (cols: seq<string>)
    ensures forall c :: c in cols <==> c in ItemColumns(items)
    ensures cols == [] <==> ItemColumns(items) == []
  {
    var once := Unique(ItemColumns(items));
    var cols := Unique(once + []);
    assert once + [] == once;
    assert cols != [] ==> cols[0] in ItemColumns(items);
    assert ItemColumns(items) != [] ==> ItemColumns(items)[0] in cols;
    cols
  }

  lemma {:induction false} NarrowedDistinct(t: Table, items: seq<ProjectItem>)
    ensures Optimize(OverDistinct(t, None, items)) == OverDistinct(t, Some(ScanReads(items)), items)
  {
    var scan, cols := Scan(t, None, None), Unique(ItemColumns(items));
    assert PushPredicates(scan) == scan && PushPredicates(Distinct(scan)) == Distinct(scan);
    assert PruneColumns(scan, Some(cols)) == Scan(t, None, Some(ScanReads(items)));
    assert PruneColumns(Distinct(scan), Some(cols)) == Distinct(PruneColumns(scan, Some(cols)));
  }

  lemma {:induction false} DistinctRows(t: Table, needed: Option<seq<string>>, items: seq<ProjectItem>, w: World)
    ensures |Denote(OverDistinct(t, needed, items), w)| == |FirstRows(ScanRows(t, None, needed, w.sem))|
  {
    var scan := Scan(t, None, needed);
    assert Denote(Distinct(scan), w) == FirstRows(Denote(scan, w));
  }

  lemma {:induction false} FirstOfTwo(x: Row, y: Row)
    ensures |FirstRows([x, y])| == if x == y then 1 else 2
  {
    assert [x, y][..1] == [x] && [x][..0] == [];
    assert FirstRows([x]) == [x];
  }

  /** Two rows that differ only in a column the projection does not read are both
      distinct, but not once the scan has dropped that column. */
  lemma {:induction false} DistinctUnderNarrowing(fields: seq<Field>, items: seq<ProjectItem>, x: Row, y: Row, w: World)
    requires x != y && ItemColumns(items) != [] && Cut(x, ItemColumns(items)) == Cut(y, ItemColumns(items))
    ensures var p := OverDistinct(Table(fields, [x, y]), None, items);
      |Denote(p, w)| == 2 && |Denote(Optimize(p), w)| == 1
  {
    var t, cols := Table(fields, [x, y]), ScanReads(items);
    NarrowedDistinct(t, items);
    FirstOfTwo(x, y);
    var r := Cut(x, cols);
    assert Cut(y, cols) == r by {
      assert Cut(x, cols) == Cut(x, ItemColumns(items)) && Cut(y, cols) == Cut(y, ItemColumns(items));
    }
    assert CutAll([x, y], cols) == [r, r];
    FirstOfTwo(r, r);
    DistinctRows(t, None, items, w);
    DistinctRows(t, Some(cols), items, w);
  }

  /** Optimising the plan changes its rows for no table content. */
  ghost predicate Preserved(fields: seq<Field>, items: seq<ProjectItem>) {
    forall rows, w :: Over(rows, NameSet(FieldNames(fields))) ==>
      Denote(Optimize(OverDistinct(Table(fields, rows), None, items)), w) ==
          Denote(OverDistinct(Table(fields, rows), None, items), w)
  }

  lemma {:induction false} WholeRows(fields: seq<Field>, items: seq<ProjectItem>, rows: seq<Row>, w: World)
    requires Known(ItemColumns(items), FieldNames(fields)) && Over(rows, NameSet(FieldNames(fields)))
    requires ItemColumns(items) == [] || Known(FieldNames(fields), ItemColumns(items))
    ensures var p := OverDistinct(Table(fields, rows), None, items);
      DistinctSafe(p, None) && Denote(Optimize(p), w) == Denote(p, w)
  {
    var t, cols := Table(fields, rows), Unique(ItemColumns(items));
    var scan, p := Scan(t, None, None), OverDistinct(t, None, items);
    assert cols != [] ==> cols[0] in ItemColumns(items);
    assert PruneColumns(scan, Some(cols)) == Scan(t, None, Some(ScanReads(items)));
    assert DistinctSafe(Distinct(scan), Some(cols));
    assert Fresh(scan) && Scoped(scan);
    assert OutNames(Distinct(scan)) == FieldNames(fields);
    assert Fresh(p) && Scoped(p);
    OptimizeMeaning(p, w);
  }

  /** The pruned plan is right for all rows exactly when its projection names every scan
      column, or none at all (an empty set reads them all). */
  lemma {:induction false} DistinctExactly(fields: seq<Field>, items: seq<ProjectItem>)
    requires Known(ItemColumns(items), FieldNames(fields))
    ensures Preserved(fields, items) <==> (ItemColumns(items) == [] || Known(FieldNames(fields), ItemColumns(items)))
  {
    var names := NameSet(FieldNames(fields));
    if ItemColumns(items) == [] || Known(FieldNames(fields), ItemColumns(items)) {
      forall rows, w | Over(rows, names)
        ensures Denote(Optimize(OverDistinct(Table(fields, rows), None, items)), w) ==
          Denote(OverDistinct(Table(fields, rows), None, items), w)
      {
        WholeRows(fields, items, rows, w);
      }
    } else {
      var f :| f in FieldNames(fields) && f !in ItemColumns(items);
      var x: Row := map c | c in names :: Null;
      var y := x[f := Int(0)];
      assert x[f] != y[f] && x.Keys == y.Keys == names;
      var w := World((_, _) => Null, (_, _) => [], (_, _, _) => []);
      assert Cut(x, ItemColumns(items)) == Cut(y, ItemColumns(items));
      DistinctUnderNarrowing(fields, items, x, y, w);
      assert Over([x, y], names);
    }
  }
}
