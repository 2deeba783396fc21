/** Splitting a WHERE clause over several tables and building the left-deep join
    tree (planner/build.go). */
module JoinPlans {
  import opened Options
  import opened Sql
  import opened Plans
  import opened Counting
  import opened Seqs

  // ---- Conjuncts -----------------------------------------------------------------------

  function FlattenAnd(e: Expr): seq<Expr> {
    if e.Binary? && e.op.And? then FlattenAnd(e.left) + FlattenAnd(e.right) else [e]
  }

  function FlattenOpt(e: Option<Expr>): seq<Expr> {
    if e.None? then [] else FlattenAnd(e.value)
  }

  function AndExpr(a: Option<Expr>, b: Expr): Option<Expr> {
    if a.None? then Some(b) else Some(Binary(And, a.value, b))
  }

  predicate Atomic(e: Expr) {
    !(e.Binary? && e.op.And?)
  }

  ghost predicate AllAtomic(es: seq<Expr>) {
    forall i :: 0 <= i < |es| ==> Atomic(es[i])
  }

  ghost predicate AllWithin(es: seq<Expr>, names: set<string>) {
    forall i :: 0 <= i < |es| ==> Within(Columns(es[i]), names)
  }

  predicate AllTrue(es: seq<Expr>, row: Row, sem: Semantics) {
    es == [] || (AllTrue(es[..|es| - 1], row, sem) && True(es[|es| - 1], row, sem))
  }

  lemma {:induction false} AllTrueSnoc(es: seq<Expr>, e: Expr, row: Row, sem: Semantics)
    ensures AllTrue(es + [e], row, sem) <==> AllTrue(es, row, sem) && True(e, row, sem)
  {
    assert (es + [e])[..|es|] == es;
  }

  lemma {:induction false} AllTrueConcat(xs: seq<Expr>, ys: seq<Expr>, row: Row, sem: Semantics)
    ensures AllTrue(xs + ys, row, sem) <==> AllTrue(xs, row, sem) && AllTrue(ys, row, sem)
  {
    if ys == [] {
      assert xs + ys == xs;
    } else {
      assert (xs + ys)[..|xs + ys| - 1] == xs + ys[..|ys| - 1];
      AllTrueConcat(xs, ys[..|ys| - 1], row, sem);
    }
  }

  /** Flattening loses nothing: a conjunction is TRUE when all its terms are. */
  lemma {:induction false} FlattenAndMeaning(e: Expr, row: Row, sem: Semantics, names: set<string>)
    ensures AllTrue(FlattenAnd(e), row, sem) <==> True(e, row, sem)
    ensures AllAtomic(FlattenAnd(e))
    ensures Within(Columns(e), names) ==> AllWithin(FlattenAnd(e), names)
  {
    if e.Binary? && e.op.And? {
      FlattenAndMeaning(e.left, row, sem, names);
      FlattenAndMeaning(e.right, row, sem, names);
      AllTrueConcat(FlattenAnd(e.left), FlattenAnd(e.right), row, sem);
    } else {
      assert [e][..0] == [];
    }
  }

  /** An equality of columns the other way round. */
  function Flipped(e: Expr): Expr {
    if e.Binary? && e.op.Eq? && e.left.Column? && e.right.Column? then Binary(Eq, e.right, e.left) else e
  }

  /** Whether e is the conjunct c, up to the order of an equality's two columns. */
  function Is(e: Expr, c: Expr): nat {
    if e == c || Flipped(e) == c then 1 else 0
  }

  /** How often a conjunct occurs among terms. */
  function Occurs(es: seq<Expr>, c: Expr): nat {
    if es == [] then 0 else Occurs(es[..|es| - 1], c) + Is(es[|es| - 1], c)
  }

  lemma {:induction false} OccursSnoc(es: seq<Expr>, e: Expr, c: Expr)
    ensures Occurs(es + [e], c) == Occurs(es, c) + Is(e, c)
  {
    assert (es + [e])[..|es|] == es;
  }

  lemma {:induction false} OccursConcat(xs: seq<Expr>, ys: seq<Expr>, c: Expr)
    ensures Occurs(xs + ys, c) == Occurs(xs, c) + Occurs(ys, c)
  {
    if ys == [] {
      assert xs + ys == xs;
    } else {
      assert (xs + ys)[..|xs + ys| - 1] == xs + ys[..|ys| - 1];
      OccursConcat(xs, ys[..|ys| - 1], c);
    }
  }

  /** How often a plan of scans, joins and filters tests a conjunct. */
  function Tests(p: Plan, c: Expr): nat {
    match p
    case Scan(_, pushed, _) => Occurs(FlattenOpt(pushed), c)
    case Filter(child, e) => Tests(child, c) + Occurs(FlattenAnd(e), c)
    case Join(l, r, e) => Tests(l, c) + Tests(r, c) + Occurs(FlattenAnd(e), c)
    case _ => 0
  }

  lemma {:induction false} AndExprMeaning(a: Option<Expr>, b: Expr, row: Row, sem: Semantics)
    ensures TrueOpt(AndExpr(a, b), row, sem) <==> TrueOpt(a, row, sem) && True(b, row, sem)
  {
  }

  lemma {:induction false} AndExprTests(a: Option<Expr>, b: Expr, c: Expr)
    requires Atomic(b)
    ensures Occurs(FlattenOpt(AndExpr(a, b)), c) == Occurs(FlattenOpt(a), c) + Is(b, c)
  {
    OccursSnoc(FlattenOpt(a), b, c);
    assert [] + [b] == [b] && FlattenAnd(b) == [b];
    assert FlattenOpt(AndExpr(a, b)) == FlattenOpt(a) + [b];
  }

  // ---- Names and edges -------------------------------------------------------------------

  /** FROM position of every output column name. */
  type Symbols = map<string, nat>

  function TablesOf(e: Expr, st: Symbols): set<int> {
    set c | c in Columns(e) && c in st :: st[c]
  }

  function FieldType(fields: seq<Field>, name: string): Option<DataType> {
    if fields == [] then None
    else if fields[0].name == name then Some(fields[0].dataType)
    else FieldType(fields[1..], name)
  }

  /** An equality between a column of one table and a column of another that the
      hash join can use as its key. */
  datatype Edge = Edge(leftTable: nat, rightTable: nat, leftCol: string, rightCol: string, term: Expr)

  function JoinEdgeOf(term: Expr, tables: seq<Table>, st: Symbols): Option<Edge> {
    if !(term.Binary? && term.op.Eq? && term.left.Column? && term.right.Column?) then None
    else
      var l, r := term.left.name, term.right.name;
      if l !in st || r !in st || st[l] == st[r] || st[l] >= |tables| || st[r] >= |tables| then None
      else
        var lt, rt := FieldType(tables[st[l]].fields, l), FieldType(tables[st[r]].fields, r);
        if lt != rt || (lt != Some(Int64) && lt != Some(DateType)) then None
        else Some(Edge(st[l], st[r], l, r, term))
  }

  function NamesOf(t: Table): set<string> {
    set c | c in FieldNames(t.fields)
  }

  function AllNames(tables: seq<Table>): seq<set<string>> {
    seq(|tables|, i requires 0 <= i < |tables| => NamesOf(tables[i]))
  }

  predicate FitsColumn(v: Value, t: Option<DataType>) {
    t.Some? ==> Fits(v, t.value)
  }

  ghost predicate TypedRows(t: Table) {
    forall i, c :: 0 <= i < |t.rows| && c in t.rows[i] ==> FitsColumn(t.rows[i][c], FieldType(t.fields, c))
  }

  /** What Build hands over: each output name belongs to exactly one table, and table
      rows have their schema's columns with values of its types. */
  ghost predicate Catalog(tables: seq<Table>, st: Symbols) {
    var resolved :=
      && |tables| > 0
      && (forall c :: c in st ==> st[c] < |tables| && c in NamesOf(tables[st[c]]))
      && (forall t, c :: 0 <= t < |tables| && c in NamesOf(tables[t]) ==> c in st && st[c] == t)
      && (forall t :: 0 <= t < |tables| ==> Over(tables[t].rows, NamesOf(tables[t])) && TypedRows(tables[t]));
    resolved
  }

  function Terms(edges: seq<Edge>): seq<Expr> {
    seq(|edges|, i requires 0 <= i < |edges| => edges[i].term)
  }

  // ---- Filters per table -------------------------------------------------------------------

  predicate FiltersTrue(filters: seq<Option<Expr>>, n: nat, row: Row, sem: Semantics)
    requires n <= |filters|
  {
    n == 0 || (FiltersTrue(filters, n - 1, row, sem) && TrueOpt(filters[n - 1], row, sem))
  }

  /** What each table's scan filter tests. */
  function FilterWeights(filters: seq<Option<Expr>>, c: Expr): seq<nat> {
    seq(|filters|, i requires 0 <= i < |filters| => Occurs(FlattenOpt(filters[i]), c))
  }

  function FilterTests(filters: seq<Option<Expr>>, c: Expr): nat {
    Total(FilterWeights(filters, c), |filters|)
  }

  lemma {:induction false} FilterTestsUpdate(filters: seq<Option<Expr>>, t: nat, g: Option<Expr>, c: Expr)
    requires t < |filters|
    ensures FilterTests(filters[t := g], c) ==
      FilterTests(filters, c) + Occurs(FlattenOpt(g), c) - Occurs(FlattenOpt(filters[t]), c)
  {
    var weights := FilterWeights(filters, c);
    TotalUpdate(weights, |weights|, t, Occurs(FlattenOpt(g), c));
    assert FilterWeights(filters[t := g], c) == weights[t := Occurs(FlattenOpt(g), c)];
  }

  lemma {:induction false} FiltersTrueUpdate(filters: seq<Option<Expr>>, n: nat, t: nat, g: Option<Expr>, b: bool,
                                             row: Row, sem: Semantics)
    requires n <= |filters| && t < |filters| && (TrueOpt(g, row, sem) <==> TrueOpt(filters[t], row, sem) && b)
    ensures FiltersTrue(filters[t := g], n, row, sem) <==> FiltersTrue(filters, n, row, sem) && (t < n ==> b)
  {
    if n > 0 {
      FiltersTrueUpdate(filters, n - 1, t, g, b, row, sem);
    }
  }

  lemma {:induction false} NoFilters(filters: seq<Option<Expr>>, n: nat, row: Row, sem: Semantics)
    requires n <= |filters| && forall i :: 0 <= i < |filters| ==> filters[i].None?
    ensures FiltersTrue(filters, n, row, sem)
  {
    if n > 0 {
      NoFilters(filters, n - 1, row, sem);
    }
  }

  /** Each filter reads only its own table's columns. */
  ghost predicate Scoped(filters: seq<Option<Expr>>, tables: seq<Table>) {
    |filters| == |tables| && forall t :: 0 <= t < |filters| ==> Within(ColumnsOpt(filters[t]), NamesOf(tables[t]))
  }

  lemma {:induction false} ScopedUpdate(filters: seq<Option<Expr>>, tables: seq<Table>, t: nat, e: Expr,
                                        g: Option<Expr>)
    requires Scoped(filters, tables) && t < |filters|
    requires Within(Columns(e), NamesOf(tables[t])) && g == AndExpr(filters[t], e)
    ensures Scoped(filters[t := g], tables)
  {
    assert Within(ColumnsOpt(filters[t]), NamesOf(tables[t]));
    assert forall c :: c in ColumnsOpt(g) ==> c in ColumnsOpt(filters[t]) || c in Columns(e);
  }

  // ---- Splitting the WHERE clause ----------------------------------------------------------

  /** Where the terms seen so far went. */
  datatype Places = Places(filters: seq<Option<Expr>>, edges: seq<Edge>, residual: seq<Expr>)

  /** The scan a term over at most one table is pushed into: its own, or the first. */
  function OnlyTable(term: Expr, st: Symbols): nat {
    var cols := Columns(term);
    if cols != [] && cols[0] in st then st[cols[0]] else 0
  }

  function Place(p: Places, term: Expr, tables: seq<Table>, st: Symbols): Places {
    var e := JoinEdgeOf(term, tables, st);
    var t := OnlyTable(term, st);
    if e.Some? then p.(edges := p.edges + [e.value])
    else if |TablesOf(term, st)| > 1 || t >= |p.filters| then p.(residual := p.residual + [term])
    else p.(filters := p.filters[t := AndExpr(p.filters[t], term)])
  }

  /** The classification of all terms, one after the other. */
  function Split(terms: seq<Expr>, tables: seq<Table>, st: Symbols): (p: Places)
    ensures |p.filters| == |tables|
  {
    if terms == [] then Places(seq(|tables|, _ => None), [], [])
    else Place(Split(terms[..|terms| - 1], tables, st), terms[|terms| - 1], tables, st)
  }

  /** The terms are TRUE of a row exactly when all the places they went to are. */
  lemma {:induction false} SplitMeaning(terms: seq<Expr>, tables: seq<Table>, st: Symbols, row: Row, sem: Semantics)
    ensures var p := Split(terms, tables, st);
      AllTrue(terms, row, sem) <==>
      FiltersTrue(p.filters, |p.filters|, row, sem) && AllTrue(Terms(p.edges), row, sem) &&
          AllTrue(p.residual, row, sem)
  {
    if terms == [] {
      NoFilters(Split(terms, tables, st).filters, |tables|, row, sem);
    } else {
      var init, term := terms[..|terms| - 1], terms[|terms| - 1];
      SplitMeaning(init, tables, st, row, sem);
      var p, e, t := Split(init, tables, st), JoinEdgeOf(term, tables, st), OnlyTable(term, st);
      if e.Some? {
        TermsSnoc(p.edges, e.value);
        AllTrueSnoc(Terms(p.edges), term, row, sem);
      } else if |TablesOf(term, st)| > 1 || t >= |p.filters| {
        AllTrueSnoc(p.residual, term, row, sem);
      } else {
        AndExprMeaning(p.filters[t], term, row, sem);
        FiltersTrueUpdate(p.filters, |p.filters|, t, AndExpr(p.filters[t], term), True(term, row, sem), row, sem);
      }
    }
  }

  /** How often a conjunct occurs in all the places together. */
  function Placements(p: Places, c: Expr): nat {
    FilterTests(p.filters, c) + Occurs(Terms(p.edges), c) + Occurs(p.residual, c)
  }

  lemma {:induction false} PlaceOnce(p: Places, term: Expr, tables: seq<Table>, st: Symbols, c: Expr)
    requires Atomic(term)
    ensures Placements(Place(p, term, tables, st), c) == Placements(p, c) + Is(term, c)
  {
    var e, t := JoinEdgeOf(term, tables, st), OnlyTable(term, st);
    if e.Some? {
      TermsSnoc(p.edges, e.value);
      OccursSnoc(Terms(p.edges), term, c);
    } else if |TablesOf(term, st)| > 1 || t >= |p.filters| {
      OccursSnoc(p.residual, term, c);
    } else {
      AndExprTests(p.filters[t], term, c);
      FilterTestsUpdate(p.filters, t, AndExpr(p.filters[t], term), c);
    }
  }

  lemma {:induction false} NothingPlaced(filters: seq<Option<Expr>>, c: Expr)
    requires forall i :: 0 <= i < |filters| ==> filters[i].None?
    ensures Placements(Places(filters, [], []), c) == 0
  {
    TotalNothing(FilterWeights(filters, c), |filters|);
  }

  /** Every term went to exactly one place. */
  lemma {:induction false} SplitOnce(terms: seq<Expr>, tables: seq<Table>, st: Symbols, c: Expr)
    requires AllAtomic(terms)
    ensures Occurs(terms, c) == Placements(Split(terms, tables, st), c)
  {
    if terms == [] {
      NothingPlaced(Split(terms, tables, st).filters, c);
    } else {
      var init, term := terms[..|terms| - 1], terms[|terms| - 1];
      SplitOnce(init, tables, st, c);
      PlaceOnce(Split(init, tables, st), term, tables, st, c);
    }
  }

  lemma {:induction false} ResidualAtomic(terms: seq<Expr>, tables: seq<Table>, st: Symbols)
    requires AllAtomic(terms)
    ensures AllAtomic(Split(terms, tables, st).residual)
  {
    if terms != [] {
      ResidualAtomic(terms[..|terms| - 1], tables, st);
    }
  }

  lemma {:induction false} TermsSnoc(edges: seq<Edge>, e: Edge)
    ensures Terms(edges + [e]) == Terms(edges) + [e.term]
  {
  }

  /** Every scan filter is in scope of its scan, and every edge names its tables' columns. */
  lemma {:induction false} SplitScoped(terms: seq<Expr>, tables: seq<Table>, st: Symbols)
    requires Catalog(tables, st) && AllWithin(terms, st.Keys)
    ensures Scoped(Split(terms, tables, st).filters, tables)
    ensures EdgesReach(Split(terms, tables, st).edges, AllNames(tables))
    ensures EdgesWithin(Split(terms, tables, st).edges, |tables|)
    ensures EdgesTyped(Split(terms, tables, st).edges, tables)
  {
    if terms != [] {
      var init, term := terms[..|terms| - 1], terms[|terms| - 1];
      SplitScoped(init, tables, st);
      var p, e, t := Split(init, tables, st), JoinEdgeOf(term, tables, st), OnlyTable(term, st);
      if e.Some? {
        EdgeScoped(term, tables, st);
      } else if |TablesOf(term, st)| <= 1 && t < |p.filters| {
        OneTable(term, tables, st);
        ScopedUpdate(p.filters, tables, t, term, AndExpr(p.filters[t], term));
      }
    }
  }

  lemma {:induction false} EdgeScoped(term: Expr, tables: seq<Table>, st: Symbols)
    requires Catalog(tables, st) && JoinEdgeOf(term, tables, st).Some?
    ensures EdgeNames(JoinEdgeOf(term, tables, st).value, AllNames(tables))
    ensures EdgeTyped(JoinEdgeOf(term, tables, st).value, tables)
  {
  }

  /** Both columns of an edge are INT64, or both are DATE. */
  ghost predicate EdgeTyped(e: Edge, tables: seq<Table>) {
    e.leftTable < |tables| && e.rightTable < |tables| &&
    var t := FieldType(tables[e.leftTable].fields, e.leftCol);
    t == FieldType(tables[e.rightTable].fields, e.rightCol) && (t == Some(Int64) || t == Some(DateType))
  }

  ghost predicate EdgesTyped(edges: seq<Edge>, tables: seq<Table>) {
    forall i :: 0 <= i < |edges| ==> EdgeTyped(edges[i], tables)
  }

  ghost predicate EdgesWithin(edges: seq<Edge>, n: nat) {
    forall i :: 0 <= i < |edges| ==> edges[i].leftTable < n && edges[i].rightTable < n
  }

  /** A term that names at most one table's columns is in scope of that table's scan. */
  lemma {:induction false} OneTable(e: Expr, tables: seq<Table>, st: Symbols)
    requires Catalog(tables, st) && Within(Columns(e), st.Keys) && |TablesOf(e, st)| <= 1
    ensures OnlyTable(e, st) < |tables| && Within(Columns(e), NamesOf(tables[OnlyTable(e, st)]))
    ensures TablesOf(e, st) == if Columns(e) == [] then {} else {OnlyTable(e, st)}
  {
    var ts := TablesOf(e, st);
    forall c | c in Columns(e) ensures c in st && st[c] in ts {
    }
    if Columns(e) != [] {
      var first := Columns(e)[0];
      assert first in Columns(e) && st[first] in ts;
      OnlyElement(ts, st[first]);
    }
  }

  lemma {:induction false} OnlyElement<T>(s: set<T>, x: T)
    requires x in s && |s| <= 1
    ensures s == {x}
  {
    assert |s - {x}| == 0;
  }

  /** The classification loop of buildMultiTablePlan. */
  method SplitWhere(terms: seq<Expr>, tables: seq<Table>, st: Symbols)
    returns (filters: seq<Option<Expr>>, edges: seq<Edge>, residual: seq<Expr>)
    requires Catalog(tables, st) && AllWithin(terms, st.Keys)
    ensures Places(filters, edges, residual) == Split(terms, tables, st)
    ensures AllAtomic(terms) ==> Sorted(Places(filters, edges, residual), terms, tables, st)
  {
    if AllAtomic(terms) {
      SplitSorted(terms, tables, st);
    }
    filters, edges, residual := seq(|tables|, _ => None), [], [];
    for k := 0 to |terms|
      invariant Places(filters, edges, residual) == Split(terms[..k], tables, st)
    {
      assert terms[..k + 1][..k] == terms[..k];
      filters, edges, residual := PlaceTerm(filters, edges, residual, terms[k], tables, st);
    }
    assert terms[..|terms|] == terms;
  }

  /** One term: an edge, a residual term of several tables, or a filter of one. */
  method PlaceTerm(filters: seq<Option<Expr>>, edges: seq<Edge>, residual: seq<Expr>, term: Expr,
                   tables: seq<Table>, st: Symbols)
    returns (filters': seq<Option<Expr>>, edges': seq<Edge>, residual': seq<Expr>)
    requires Catalog(tables, st) && Within(Columns(term), st.Keys) && |filters| == |tables|
    ensures Places(filters', edges', residual') == Place(Places(filters, edges, residual), term, tables, st)
  {
    filters', edges', residual' := filters, edges, residual;
    var e := JoinEdgeOf(term, tables, st);
    var ts := TablesOf(term, st);
    if e.Some? {
      edges' := edges + [e.value];
    } else if |ts| > 1 {
      residual' := residual + [term];
    } else {
      OneTable(term, tables, st);
      var t := 0;
      if |ts| == 1 {
        t :| t in ts;
      }
      filters' := filters[t := AndExpr(filters[t], term)];
    }
  }

  // ---- The split, by the terms themselves ---------------------------------------------------

  /** Two columns of different tables, both INT64 or both DATE: what a hash join can key on. */
  predicate CanKey(tables: seq<Table>, st: Symbols, a: string, b: string) {
    && a in st && b in st && st[a] != st[b] && st[a] < |tables| && st[b] < |tables|
    && var x, y := FieldType(tables[st[a]].fields, a), FieldType(tables[st[b]].fields, b);
       (x == Some(Int64) && y == Some(Int64)) || (x == Some(DateType) && y == Some(DateType))
  }

  /** Equalities of such columns. */
  function KeyTerm(tables: seq<Table>, st: Symbols): Expr -> bool {
    (term: Expr) =>
      term.Binary? && term.op == Eq && term.left.Column? && term.right.Column? &&
      CanKey(tables, st, term.left.name, term.right.name)
  }

  /** Terms that read columns of two tables. */
  predicate Spans(st: Symbols, term: Expr) {
    exists i, j :: 0 <= i < |Columns(term)| && 0 <= j < |Columns(term)| &&
      Columns(term)[i] in st && Columns(term)[j] in st && st[Columns(term)[i]] != st[Columns(term)[j]]
  }

  function Residual(tables: seq<Table>, st: Symbols): Expr -> bool {
    term => !KeyTerm(tables, st)(term) && Spans(st, term)
  }

  /** Terms of one table, or of none in the case of the first. */
  function Only(tables: seq<Table>, st: Symbols, t: nat): Expr -> bool {
    term => !KeyTerm(tables, st)(term) && !Spans(st, term) &&
      if Columns(term) == [] then t == 0 else Columns(term)[0] in st && st[Columns(term)[0]] == t
  }

  /** Where every term goes: key equalities to the edges, other terms of several tables to
      the residual, the rest to the scan of their table, each in the order written. */
  ghost predicate Sorted(p: Places, terms: seq<Expr>, tables: seq<Table>, st: Symbols) {
    && Terms(p.edges) == Sift(terms, KeyTerm(tables, st))
    && p.residual == Sift(terms, Residual(tables, st))
    && |p.filters| == |tables|
    && forall t :: 0 <= t < |tables| ==> FlattenOpt(p.filters[t]) == Sift(terms, Only(tables, st, t))
  }

  lemma {:induction false} EdgeIsKey(term: Expr, tables: seq<Table>, st: Symbols)
    ensures JoinEdgeOf(term, tables, st).Some? <==> KeyTerm(tables, st)(term)
    ensures JoinEdgeOf(term, tables, st).Some? ==>
      JoinEdgeOf(term, tables, st).value ==
      Edge(st[term.left.name], st[term.right.name], term.left.name, term.right.name, term)
  {
  }

  lemma {:induction false} SeveralTables(term: Expr, st: Symbols)
    ensures |TablesOf(term, st)| > 1 <==> Spans(st, term)
  {
    var ts, cols := TablesOf(term, st), Columns(term);
    if Spans(st, term) {
      var i, j :| 0 <= i < |cols| && 0 <= j < |cols| && cols[i] in st && cols[j] in st && st[cols[i]] != st[cols[j]];
      assert cols[i] in cols && cols[j] in cols;
      SubsetSize({st[cols[i]], st[cols[j]]}, ts);
    }
    if |ts| > 1 {
      var x :| x in ts;
      assert |ts - {x}| == |ts| - 1;
      var y :| y in ts - {x};
      var a :| a in cols && a in st && st[a] == x;
      var b :| b in cols && b in st && st[b] == y;
      var i :| 0 <= i < |cols| && cols[i] == a;
      var j :| 0 <= j < |cols| && cols[j] == b;
      assert st[cols[i]] != st[cols[j]];
    }
  }

  lemma {:induction false} FlattenSnoc(a: Option<Expr>, b: Expr)
    requires Atomic(b)
    ensures FlattenOpt(AndExpr(a, b)) == FlattenOpt(a) + [b]
  {
    assert FlattenAnd(b) == [b];
  }

  /** One more term goes where it belongs, and nowhere else. */
  lemma {:induction false} PlaceSorted(p: Places, init: seq<Expr>, term: Expr, tables: seq<Table>, st: Symbols,
                                       terms: seq<Expr>)
    requires Catalog(tables, st) && Within(Columns(term), st.Keys) && Atomic(term)
    requires Sorted(p, init, tables, st) && terms == init + [term]
    ensures Sorted(Place(p, term, tables, st), terms, tables, st)
  {
    assert terms[..|terms| - 1] == init;
    EdgeIsKey(term, tables, st);
    SeveralTables(term, st);
    var e, t, p' := JoinEdgeOf(term, tables, st), OnlyTable(term, st), Place(p, term, tables, st);
    if e.Some? {
      TermsSnoc(p.edges, e.value);
    } else if !Spans(st, term) {
      OneTable(term, tables, st);
      FlattenSnoc(p.filters[t], term);
    }
    forall u | 0 <= u < |tables| ensures FlattenOpt(p'.filters[u]) == Sift(terms, Only(tables, st, u)) {
      assert FlattenOpt(p.filters[u]) == Sift(init, Only(tables, st, u));
      assert Only(tables, st, u)(term) <==> e.None? && !Spans(st, term) && u == t by {
        if Columns(term) != [] {
          assert Columns(term)[0] in Columns(term);
        }
      }
    }
  }

  lemma {:induction false} SplitSorted(terms: seq<Expr>, tables: seq<Table>, st: Symbols)
    requires Catalog(tables, st) && AllWithin(terms, st.Keys) && AllAtomic(terms)
    ensures Sorted(Split(terms, tables, st), terms, tables, st)
  {
    if terms != [] {
      var init, last := terms[..|terms| - 1], terms[|terms| - 1];
      SplitSorted(init, tables, st);
      assert terms == init + [last];
      PlaceSorted(Split(init, tables, st), init, last, tables, st, terms);
    }
  }

  // ---- Which tables the clause links ----------------------------------------------------------

  /** c is one of the terms that AND joins. */
  predicate IsConjunct(e: Expr, c: Expr) {
    if e.Binary? && e.op == And then IsConjunct(e.left, c) || IsConjunct(e.right, c) else c == e
  }

  /** The clause has the conjunct a = b, and a hash join can key on it. */
  predicate Links(conjuncts: Option<Expr>, tables: seq<Table>, st: Symbols, a: string, b: string) {
    conjuncts.Some? && IsConjunct(conjuncts.value, Binary(Eq, Column(a), Column(b))) && CanKey(tables, st, a, b)
  }

  /** A set with the first table but not all of them, and no such conjunct between a table
      in it and one outside. */
  ghost predicate CutOff(conjuncts: Option<Expr>, tables: seq<Table>, st: Symbols, s: set<int>) {
    && 0 in s && (exists t: nat :: t < |tables| && t !in s)
    && forall a, b :: Links(conjuncts, tables, st, a, b) ==> (st[a] in s <==> st[b] in s)
  }

  ghost predicate Unlinked(conjuncts: Option<Expr>, tables: seq<Table>, st: Symbols) {
    exists s: set<int> :: CutOff(conjuncts, tables, st, s)
  }

  lemma {:induction false} FlattenIsConjuncts(e: Expr, c: Expr)
    ensures c in FlattenAnd(e) <==> IsConjunct(e, c)
  {
    if e.Binary? && e.op == And {
      FlattenIsConjuncts(e.left, c);
      FlattenIsConjuncts(e.right, c);
    }
  }

  /** The edges of the split are the linking conjuncts. */
  lemma {:induction false} EdgesLink(terms: seq<Expr>, tables: seq<Table>, st: Symbols, e: Edge)
    ensures e in Split(terms, tables, st).edges <==>
      exists i :: 0 <= i < |terms| && JoinEdgeOf(terms[i], tables, st) == Some(e)
  {
    if terms != [] {
      var init, last := terms[..|terms| - 1], terms[|terms| - 1];
      EdgesLink(init, tables, st, e);
      if i :| 0 <= i < |init| && JoinEdgeOf(init[i], tables, st) == Some(e) {
        assert terms[i] == init[i];
      }
      if i :| 0 <= i < |terms| && JoinEdgeOf(terms[i], tables, st) == Some(e) {
        assert i < |init| ==> init[i] == terms[i];
      }
    }
  }

  /** A set the edges do not leave is one no linking conjunct leaves. */
  lemma {:induction false} ClosedMeans(conjuncts: Option<Expr>, tables: seq<Table>, st: Symbols, s: set<int>)
    ensures Closed(s, Split(FlattenOpt(conjuncts), tables, st).edges) <==>
      forall a, b :: Links(conjuncts, tables, st, a, b) ==> (st[a] in s <==> st[b] in s)
  {
    var terms := FlattenOpt(conjuncts);
    var edges := Split(terms, tables, st).edges;
    if Closed(s, edges) {
      forall a, b | Links(conjuncts, tables, st, a, b) ensures st[a] in s <==> st[b] in s {
        LinkIsEdge(conjuncts, tables, st, a, b);
        var e := Edge(st[a], st[b], a, b, Binary(Eq, Column(a), Column(b)));
        var i :| 0 <= i < |edges| && edges[i] == e;
        assert !Crosses(edges[i], s);
      }
    }
    if forall a, b :: Links(conjuncts, tables, st, a, b) ==> (st[a] in s <==> st[b] in s) {
      forall i | 0 <= i < |edges| ensures !Crosses(edges[i], s) {
        EdgeIsLink(conjuncts, tables, st, edges[i]);
        assert Links(conjuncts, tables, st, edges[i].leftCol, edges[i].rightCol);
      }
    }
  }

  lemma {:induction false} LinkIsEdge(conjuncts: Option<Expr>, tables: seq<Table>, st: Symbols, a: string, b: string)
    requires Links(conjuncts, tables, st, a, b)
    ensures Edge(st[a], st[b], a, b, Binary(Eq, Column(a), Column(b))) in Split(FlattenOpt(conjuncts), tables, st).edges
  {
    var term, terms := Binary(Eq, Column(a), Column(b)), FlattenOpt(conjuncts);
    FlattenIsConjuncts(conjuncts.value, term);
    EdgeIsKey(term, tables, st);
    EdgesLink(terms, tables, st, Edge(st[a], st[b], a, b, term));
    var i :| 0 <= i < |terms| && terms[i] == term;
    assert JoinEdgeOf(terms[i], tables, st) == Some(Edge(st[a], st[b], a, b, term));
  }

  lemma {:induction false} EdgeIsLink(conjuncts: Option<Expr>, tables: seq<Table>, st: Symbols, e: Edge)
    requires e in Split(FlattenOpt(conjuncts), tables, st).edges
    ensures Links(conjuncts, tables, st, e.leftCol, e.rightCol)
    ensures e.leftTable == st[e.leftCol] && e.rightTable == st[e.rightCol]
  {
    var terms := FlattenOpt(conjuncts);
    EdgesLink(terms, tables, st, e);
    var i :| 0 <= i < |terms| && JoinEdgeOf(terms[i], tables, st) == Some(e);
    EdgeIsKey(terms[i], tables, st);
    FlattenIsConjuncts(conjuncts.value, terms[i]);
    assert terms[i] == Binary(Eq, Column(e.leftCol), Column(e.rightCol));
  }

  /** No edge leads on exactly when the clause leaves some table unlinked. */
  lemma {:induction false} DisconnectedMeans(conjuncts: Option<Expr>, tables: seq<Table>, st: Symbols)
    ensures Disconnected(Split(FlattenOpt(conjuncts), tables, st).edges, |tables|) <==>
      tables != [] && Unlinked(conjuncts, tables, st)
  {
    var edges, n := Split(FlattenOpt(conjuncts), tables, st).edges, |tables|;
    if Disconnected(edges, n) {
      var s: set<int> :| Closed(s, edges) && 0 in s && s < First(n);
      ClosedMeans(conjuncts, tables, st, s);
      var t :| t in First(n) && t !in s;
      assert CutOff(conjuncts, tables, st, s);
    }
    if tables != [] && Unlinked(conjuncts, tables, st) {
      var s: set<int> :| CutOff(conjuncts, tables, st, s);
      var s' := s * First(n);
      forall a, b | Links(conjuncts, tables, st, a, b) ensures st[a] in s' <==> st[b] in s' {
      }
      ClosedMeans(conjuncts, tables, st, s');
      var t: nat :| t < n && t !in s;
      assert t in First(n) && t !in s';
      assert 0 in s' && s' < First(n);
    }
  }

  // ---- The join tree ---------------------------------------------------------------------

  predicate Crosses(e: Edge, tables: set<int>) {
    (e.leftTable in tables) != (e.rightTable in tables)
  }

  ghost predicate Closed(tables: set<int>, edges: seq<Edge>) {
    forall i :: 0 <= i < |edges| ==> !Crosses(edges[i], tables)
  }

  /** Some tables cannot be reached from the first along the edges. */
  ghost predicate Disconnected(edges: seq<Edge>, n: nat) {
    exists tables: set<int> :: Closed(tables, edges) && 0 in tables && tables < First(n)
  }

  /** The join condition of an edge, oriented from the tree to the new table. */
  function Condition(e: Edge, tables: set<int>): Expr {
    if e.leftTable in tables then Binary(Eq, Column(e.leftCol), Column(e.rightCol))
    else Binary(Eq, Column(e.rightCol), Column(e.leftCol))
  }

  function NewTable(e: Edge, tables: set<int>): nat {
    if e.leftTable in tables then e.rightTable else e.leftTable
  }

  lemma {:induction false} AllTrueOn(es: seq<Expr>, row: Row, names: set<string>, sem: Semantics)
    requires AllWithin(es, names)
    ensures AllTrue(es, On(row, names), sem) <==> AllTrue(es, row, sem)
  {
    if es != [] {
      AllTrueOn(es[..|es| - 1], row, names, sem);
      EvalFrame(es[|es| - 1], On(row, names), row, sem);
    }
  }

  /** A tree over some tables: a row occurs once for each way to make it of one row a
      table, provided the join conditions so far hold of it. */
  ghost predicate TreeCount(data: seq<seq<Row>>, names: seq<set<string>>, rows: seq<Row>, conds: seq<Expr>,
                            tables: set<int>, sem: Semantics, row: Row)
    requires |data| == |names|
  {
    Count(rows, row) ==
    if row.Keys == Keys(names, tables, |names|) && AllTrue(conds, row, sem)
    then Ways(data, names, tables, |names|, row) else 0
  }

  ghost predicate Tree(data: seq<seq<Row>>, names: seq<set<string>>, rows: seq<Row>, conds: seq<Expr>,
                       tables: set<int>, sem: Semantics)
    requires |data| == |names|
  {
    var exact :=
      && Over(rows, Keys(names, tables, |names|)) && AllWithin(conds, Keys(names, tables, |names|))
      && forall row :: TreeCount(data, names, rows, conds, tables, sem, row);
    exact
  }

  ghost predicate Sources(data: seq<seq<Row>>, names: seq<set<string>>) {
    && |data| == |names|
    && var apart := Disjoint(names) && forall t :: 0 <= t < |data| ==> Over(data[t], names[t]);
       apart
  }

  lemma {:induction false} TreeStart(data: seq<seq<Row>>, names: seq<set<string>>, sem: Semantics)
    requires Sources(data, names) && |data| > 0
    ensures Tree(data, names, data[0], [], {0}, sem)
  {
    var n := |names|;
    KeysInsert(names, {}, n, 0);
    NoKeys(names, n);
    assert {} + {0} == {0};
    forall row ensures TreeCount(data, names, data[0], [], {0}, sem, row) {
      WaysInsert(data, names, {}, n, 0, row);
      NoWays(data, names, n, row);
      assert row.Keys == names[0] ==> On(row, names[0]) == row;
      if row.Keys != names[0] {
        NotOver(data[0], names[0], row);
      }
    }
  }

  lemma {:induction false} NotOver(rows: seq<Row>, names: set<string>, row: Row)
    requires Over(rows, names) && row.Keys != names
    ensures Count(rows, row) == 0
  {
    if rows != [] {
      NotOver(rows[..|rows| - 1], names, row);
    }
  }

  lemma {:induction false} NoKeys(names: seq<set<string>>, n: nat)
    requires n <= |names|
    ensures Keys(names, {}, n) == {}
  {
    if n > 0 {
      NoKeys(names, n - 1);
    }
  }

  lemma {:induction false} NoWays(data: seq<seq<Row>>, names: seq<set<string>>, n: nat, row: Row)
    requires n <= |data| == |names|
    ensures Ways(data, names, {}, n, row) == 1
  {
    if n > 0 {
      NoWays(data, names, n - 1, row);
    }
  }

  /** Joining one more table by a condition over both sides. */
  lemma {:induction false} TreeStep(data: seq<seq<Row>>, names: seq<set<string>>, rows: seq<Row>, conds: seq<Expr>,
                                    tables: set<int>, t: nat, cond: Expr, sem: Semantics)
    requires Sources(data, names) && Tree(data, names, rows, conds, tables, sem) && t < |data| && t !in tables
    requires Within(Columns(cond), Keys(names, tables, |names|) + names[t])
    ensures Tree(data, names, Select(Pairs(rows, data[t]), cond, sem), conds + [cond], tables + {t}, sem)
  {
    var n := |names|;
    var x, y := Keys(names, tables, n), names[t];
    KeysInsert(names, tables, n, t);
    KeysApart(names, tables, n, t);
    PairsOver(rows, data[t], x, y);
    SelectOver(Pairs(rows, data[t]), cond, sem, x + y);
    forall row ensures TreeCount(data, names, Select(Pairs(rows, data[t]), cond, sem), conds + [cond],
        tables + {t}, sem, row) {
      TreeStepCount(data, names, rows, conds, tables, t, cond, sem, row, x, y);
    }
  }

  lemma {:induction false} TreeStepCount(data: seq<seq<Row>>, names: seq<set<string>>, rows: seq<Row>,
                                         conds: seq<Expr>, tables: set<int>, t: nat, cond: Expr, sem: Semantics,
                                         row: Row, x: set<string>, y: set<string>)
    requires Sources(data, names) && Tree(data, names, rows, conds, tables, sem) && t < |data| && t !in tables
    requires x == Keys(names, tables, |names|) && y == names[t] && x !! y && Keys(names, tables + {t}, |names|) == x + y
    ensures TreeCount(data, names, Select(Pairs(rows, data[t]), cond, sem), conds + [cond], tables + {t}, sem, row)
  {
    CountSelect(Pairs(rows, data[t]), cond, sem, row);
    CountPairs(rows, data[t], x, y, row);
    AllTrueSnoc(conds, cond, row, sem);
    AllTrueOn(conds, row, x, sem);
    WaysFrame(data, names, tables, |names|, row, x);
    WaysInsert(data, names, tables, |names|, t, row);
    assert TreeCount(data, names, rows, conds, tables, sem, On(row, x));
    assert row.Keys == x + y ==> On(row, x).Keys == x;
  }

  /** The terms of the edges a tree has not used. */
  function UnusedTerms(edges: seq<Edge>, used: seq<bool>): seq<Expr>
    requires |used| == |edges|
  {
    if edges == [] then []
    else
      var n := |edges| - 1;
      UnusedTerms(edges[..n], used[..n]) + if used[n] then [] else [edges[n].term]
  }

  lemma {:induction false} MarkUsed(edges: seq<Edge>, used: seq<bool>, i: nat, row: Row, sem: Semantics, c: Expr)
    requires |used| == |edges| && i < |edges| && !used[i]
    ensures Occurs(UnusedTerms(edges, used), c) == Occurs(UnusedTerms(edges, used[i := true]), c) + Is(edges[i].term, c)
    ensures AllTrue(UnusedTerms(edges, used), row, sem) <==>
      AllTrue(UnusedTerms(edges, used[i := true]), row, sem) && True(edges[i].term, row, sem)
  {
    var n := |edges| - 1;
    var before, last := UnusedTerms(edges[..n], used[..n]), edges[n].term;
    OccursSnoc(before, last, c);
    AllTrueSnoc(before, last, row, sem);
    if i == n {
      assert used[i := true][..n] == used[..n];
      assert UnusedTerms(edges, used[i := true]) == before;
    } else {
      MarkUsed(edges[..n], used[..n], i, row, sem, c);
      assert used[i := true][..n] == used[..n][i := true];
      var after := UnusedTerms(edges[..n], used[..n][i := true]);
      OccursSnoc(after, last, c);
      AllTrueSnoc(after, last, row, sem);
      if used[n] {
        assert UnusedTerms(edges, used) == before && UnusedTerms(edges, used[i := true]) == after;
      }
    }
  }

  lemma {:induction false} NoneUsed(edges: seq<Edge>, used: seq<bool>)
    requires |used| == |edges| && forall i :: 0 <= i < |used| ==> !used[i]
    ensures UnusedTerms(edges, used) == Terms(edges)
  {
    if edges != [] {
      NoneUsed(edges[..|edges| - 1], used[..|edges| - 1]);
    }
  }

  /** A used edge's condition is its term, perhaps the other way round. */
  ghost predicate Oriented(cond: Expr, e: Edge) {
    && e.term == Binary(Eq, Column(e.leftCol), Column(e.rightCol))
    && (cond == e.term || cond == Binary(Eq, Column(e.rightCol), Column(e.leftCol)))
  }

  ghost predicate AllOriented(conds: seq<Expr>, taken: seq<Edge>) {
    |conds| == |taken| && forall i :: 0 <= i < |conds| ==> Oriented(conds[i], taken[i])
  }

  lemma {:induction false} OrientedOccurs(conds: seq<Expr>, taken: seq<Edge>, c: Expr)
    requires AllOriented(conds, taken)
    ensures Occurs(conds, c) == Occurs(Terms(taken), c)
  {
    if conds != [] {
      var n := |conds| - 1;
      OrientedOccurs(conds[..n], taken[..n], c);
      assert Oriented(conds[n], taken[n]) && Terms(taken)[..n] == Terms(taken[..n]);
    }
  }

  ghost predicate EdgesReach(edges: seq<Edge>, names: seq<set<string>>) {
    forall i :: 0 <= i < |edges| ==> EdgeNames(edges[i], names)
  }

  ghost predicate EdgeNames(e: Edge, names: seq<set<string>>) {
    && e.leftTable < |names| && e.rightTable < |names|
    && e.leftCol in names[e.leftTable] && e.rightCol in names[e.rightTable]
    && e.term == Binary(Eq, Column(e.leftCol), Column(e.rightCol))
  }

  lemma {:induction false} ConditionNames(e: Edge, names: seq<set<string>>, tables: set<int>)
    requires EdgeNames(e, names) && Crosses(e, tables)
    ensures NewTable(e, tables) < |names| && NewTable(e, tables) !in tables
    ensures Within(Columns(Condition(e, tables)), Keys(names, tables, |names|) + names[NewTable(e, tables)])
    ensures forall s :: s in [e.leftTable, e.rightTable] ==> s in tables + {NewTable(e, tables)}
  {
    forall c | c in [e.leftCol, e.rightCol] ensures c in Keys(names, tables, |names|) + names[NewTable(e, tables)] {
      KeysMember(names, tables, |names|, c);
    }
    var cond := Condition(e, tables);
    assert forall c :: c in Columns(cond) ==> c in [e.leftCol, e.rightCol];
  }

  function DenoteAll(scans: seq<Plan>, w: World): seq<seq<Row>> {
    seq(|scans|, i requires 0 <= i < |scans| => Denote(scans[i], w))
  }

  /** Everything any closed set of tables around the first one must contain. */
  ghost predicate Forced(included: set<int>, edges: seq<Edge>) {
    forall tables: set<int> :: Closed(tables, edges) && 0 in tables ==> included <= tables
  }

  lemma {:induction false} ForcedStep(included: set<int>, edges: seq<Edge>, i: nat)
    requires Forced(included, edges) && i < |edges| && Crosses(edges[i], included)
    ensures Forced(included + {NewTable(edges[i], included)}, edges)
  {
    forall tables: set<int> | Closed(tables, edges) && 0 in tables
      ensures included + {NewTable(edges[i], included)} <= tables
    {
      assert included <= tables && !Crosses(edges[i], tables);
    }
  }

  /** Used edges have both ends in the tree. */
  ghost predicate UsedInside(edges: seq<Edge>, used: seq<bool>, included: set<int>)
    requires |used| == |edges|
  {
    forall i :: 0 <= i < |edges| && used[i] ==> edges[i].leftTable in included && edges[i].rightTable in included
  }

  lemma {:induction false} FirstSize(n: nat)
    ensures |First(n)| == n
  {
    if n > 0 {
      FirstSize(n - 1);
    }
  }

  lemma {:induction false} SubsetFirst(s: set<int>, n: nat)
    requires Below(s, n)
    ensures |s| <= n && s <= First(n) && (|s| == n <==> s == First(n))
  {
    assert s <= First(n);
    FirstSize(n);
    SubsetSize(s, First(n));
    assert s == First(n) ==> |s| == n;
  }

  ghost predicate Below(tables: set<int>, n: nat) {
    forall t :: t in tables ==> 0 <= t < n
  }

  /** Where the search for edges stands: used edges lie inside the tree, and the tree
      holds only tables that any closed set around the first one must contain. */
  ghost predicate Searched(edges: seq<Edge>, used: seq<bool>, included: set<int>, n: nat)
    requires |used| == |edges|
  {
    var sound := 0 in included && Below(included, n) && UsedInside(edges, used, included) && Forced(included, edges);
    sound
  }

  lemma {:induction false} SearchStep(edges: seq<Edge>, used: seq<bool>, included: set<int>, n: nat, i: nat)
    requires |used| == |edges| && Searched(edges, used, included, n)
    requires i < |edges| && Crosses(edges[i], included) && NewTable(edges[i], included) < n
    ensures Searched(edges, used[i := true], included + {NewTable(edges[i], included)}, n)
  {
    ForcedStep(included, edges, i);
  }

  /** A partial tree: the tables in it, the edges used, their conditions and terms. */
  datatype Forest = Forest(root: Plan, included: set<int>, used: seq<bool>, conds: seq<Expr>, taken: seq<Edge>)

  /** The index of the first unused edge, from k on, that leaves the tree. */
  function FirstEdge(edges: seq<Edge>, used: seq<bool>, included: set<int>, k: nat): (i: nat)
    requires |used| == |edges| && k <= |edges|
    ensures k <= i <= |edges| && (i < |edges| ==> !used[i] && Crosses(edges[i], included))
    decreases |edges| - k
  {
    if k == |edges| || (!used[k] && Crosses(edges[k], included)) then k else FirstEdge(edges, used, included, k + 1)
  }

  lemma {:induction false} NoEdge(edges: seq<Edge>, used: seq<bool>, included: set<int>, k: nat)
    requires |used| == |edges| && k <= |edges| && FirstEdge(edges, used, included, k) == |edges|
    requires UsedInside(edges, used, included)
    ensures forall j :: k <= j < |edges| ==> !Crosses(edges[j], included)
    decreases |edges| - k
  {
    if k < |edges| {
      NoEdge(edges, used, included, k + 1);
    }
  }

  predicate Extends(scans: seq<Plan>, edges: seq<Edge>, f: Forest, i: nat) {
    && |f.used| == |edges| && i < |edges| && !f.used[i]
    && Crosses(edges[i], f.included) && NewTable(edges[i], f.included) < |scans|
  }

  function Extend(scans: seq<Plan>, edges: seq<Edge>, f: Forest, i: nat): Forest
    requires Extends(scans, edges, f, i)
  {
    var e := edges[i];
    var t, cond := NewTable(e, f.included), Condition(e, f.included);
    Forest(Join(f.root, scans[t], cond), f.included + {t}, f.used[i := true], f.conds + [cond], f.taken + [e])
  }

  /** One pass of the tree loop after another, until all tables are joined or none can be. */
  function Grow(scans: seq<Plan>, edges: seq<Edge>, f: Forest): (r: Option<Forest>)
    requires |f.used| == |edges|
    ensures r.Some? ==> |r.value.used| == |edges|
    decreases |scans| - |f.included|
  {
    if |f.included| >= |scans| then Some(f)
    else
      var i := FirstEdge(edges, f.used, f.included, 0);
      if i == |edges| || NewTable(edges[i], f.included) >= |scans| then None
      else Grow(scans, edges, Extend(scans, edges, f, i))
  }

  lemma {:induction false} GrowSearched(scans: seq<Plan>, edges: seq<Edge>, f: Forest)
    requires |f.used| == |edges| && EdgesWithin(edges, |scans|) && Searched(edges, f.used, f.included, |scans|)
    ensures var r := Grow(scans, edges, f);
      && (r.None? <==> Disconnected(edges, |scans|))
      && (r.Some? ==> r.value.included == First(|scans|))
    decreases |scans| - |f.included|
  {
    SubsetFirst(f.included, |scans|);
    if |f.included| >= |scans| {
      SearchDone(edges, f.used, f.included, |scans|);
    } else {
      var i := FirstEdge(edges, f.used, f.included, 0);
      if i < |edges| {
        SearchStep(edges, f.used, f.included, |scans|, i);
        GrowSearched(scans, edges, Extend(scans, edges, f, i));
      } else {
        NoEdge(edges, f.used, f.included, 0);
        SearchFailed(edges, f.used, f.included, |scans|);
      }
    }
  }

  /** What every extension keeps, the finished tree has. */
  lemma {:induction false} GrowKeeps(scans: seq<Plan>, edges: seq<Edge>, f: Forest, P: Forest -> bool)
    requires |f.used| == |edges| && P(f)
    requires forall g: Forest, i: nat :: Extends(scans, edges, g, i) && P(g) ==> P(Extend(scans, edges, g, i))
    ensures Grow(scans, edges, f).Some? ==> P(Grow(scans, edges, f).value)
    decreases |scans| - |f.included|
  {
    var i := FirstEdge(edges, f.used, f.included, 0);
    if |f.included| < |scans| && i < |edges| && NewTable(edges[i], f.included) < |scans| {
      assert Extends(scans, edges, f, i);
      GrowKeeps(scans, edges, Extend(scans, edges, f, i), P);
    }
  }

  ghost predicate TreeOk(data: seq<seq<Row>>, names: seq<set<string>>, f: Forest, w: World) {
    |data| == |names| && Tree(data, names, Denote(f.root, w), f.conds, f.included, w.sem)
  }

  lemma {:induction false} ExtendTree(scans: seq<Plan>, edges: seq<Edge>, names: seq<set<string>>,
                                      data: seq<seq<Row>>, f: Forest, i: nat, w: World)
    requires Extends(scans, edges, f, i) && EdgesReach(edges, names)
    requires data == DenoteAll(scans, w) && Sources(data, names)
    requires TreeOk(data, names, f, w)
    ensures TreeOk(data, names, Extend(scans, edges, f, i), w)
  {
    assert EdgeNames(edges[i], names);
    ConditionNames(edges[i], names, f.included);
    var t, cond := NewTable(edges[i], f.included), Condition(edges[i], f.included);
    TreeStep(data, names, Denote(f.root, w), f.conds, f.included, t, cond, w.sem);
    JoinDenotes(scans, data, f.root, t, cond, w);
  }

  lemma {:induction false} JoinDenotes(scans: seq<Plan>, data: seq<seq<Row>>, root: Plan, t: nat, cond: Expr, w: World)
    requires data == DenoteAll(scans, w) && t < |scans|
    ensures Denote(Join(root, scans[t], cond), w) == Select(Pairs(Denote(root, w), data[t]), cond, w.sem)
  {
  }

  lemma {:induction false} GrowTree(scans: seq<Plan>, edges: seq<Edge>, names: seq<set<string>>,
                                    data: seq<seq<Row>>, f: Forest, w: World)
    requires |f.used| == |edges| && EdgesReach(edges, names) && data == DenoteAll(scans, w) && Sources(data, names)
    requires TreeOk(data, names, f, w)
    ensures var r := Grow(scans, edges, f); r.Some? ==> TreeOk(data, names, r.value, w)
  {
    forall g: Forest, i: nat | Extends(scans, edges, g, i) && TreeOk(data, names, g, w)
      ensures TreeOk(data, names, Extend(scans, edges, g, i), w)
    {
      ExtendTree(scans, edges, names, data, g, i, w);
    }
    GrowKeeps(scans, edges, f, g => TreeOk(data, names, g, w));
  }

  /** Every edge is either a join condition or still to be applied, never both. */
  ghost predicate LedgerTests(edges: seq<Edge>, f: Forest, c: Expr) {
    && |f.used| == |edges|
    && Occurs(Terms(edges), c) == Occurs(Terms(f.taken), c) + Occurs(UnusedTerms(edges, f.used), c)
  }

  ghost predicate LedgerTrue(edges: seq<Edge>, f: Forest, row: Row, sem: Semantics) {
    && |f.used| == |edges|
    && (AllTrue(Terms(edges), row, sem) <==>
        AllTrue(Terms(f.taken), row, sem) && AllTrue(UnusedTerms(edges, f.used), row, sem))
  }

  lemma {:induction false} ExtendLedger(scans: seq<Plan>, edges: seq<Edge>, f: Forest, i: nat, row: Row,
                                        sem: Semantics, c: Expr)
    requires Extends(scans, edges, f, i)
    ensures LedgerTests(edges, f, c) ==> LedgerTests(edges, Extend(scans, edges, f, i), c)
    ensures LedgerTrue(edges, f, row, sem) ==> LedgerTrue(edges, Extend(scans, edges, f, i), row, sem)
  {
    MarkUsed(edges, f.used, i, row, sem, c);
    TermsSnoc(f.taken, edges[i]);
    OccursSnoc(Terms(f.taken), edges[i].term, c);
    AllTrueSnoc(Terms(f.taken), edges[i].term, row, sem);
  }

  lemma {:induction false} GrowLedger(scans: seq<Plan>, edges: seq<Edge>, f: Forest, row: Row, sem: Semantics, c: Expr)
    requires LedgerTests(edges, f, c) && LedgerTrue(edges, f, row, sem)
    ensures var r := Grow(scans, edges, f); r.Some? ==>
      LedgerTests(edges, r.value, c) && LedgerTrue(edges, r.value, row, sem)
  {
    forall g: Forest, i: nat | Extends(scans, edges, g, i)
      ensures LedgerTests(edges, g, c) ==> LedgerTests(edges, Extend(scans, edges, g, i), c)
      ensures LedgerTrue(edges, g, row, sem) ==> LedgerTrue(edges, Extend(scans, edges, g, i), row, sem)
    {
      ExtendLedger(scans, edges, g, i, row, sem, c);
    }
    GrowKeeps(scans, edges, f, g => LedgerTests(edges, g, c));
    GrowKeeps(scans, edges, f, g => LedgerTrue(edges, g, row, sem));
  }

  ghost predicate AllFrom(taken: seq<Edge>, edges: seq<Edge>) {
    forall i :: 0 <= i < |taken| ==> taken[i] in edges
  }

  ghost predicate TakenOk(edges: seq<Edge>, f: Forest) {
    AllOriented(f.conds, f.taken) && AllFrom(f.taken, edges)
  }

  lemma {:induction false} GrowOriented(scans: seq<Plan>, edges: seq<Edge>, names: seq<set<string>>, f: Forest)
    requires |f.used| == |edges| && EdgesReach(edges, names) && TakenOk(edges, f)
    ensures var r := Grow(scans, edges, f); r.Some? ==> TakenOk(edges, r.value)
  {
    forall g: Forest, i: nat | Extends(scans, edges, g, i) && TakenOk(edges, g)
      ensures TakenOk(edges, Extend(scans, edges, g, i))
    {
      assert EdgeNames(edges[i], names);
    }
    GrowKeeps(scans, edges, f, g => TakenOk(edges, g));
  }

  /** What the scans among the first n that are in the tree test. */
  function ScanTests(scans: seq<Plan>, included: set<int>, n: nat, c: Expr): nat
    requires n <= |scans|
  {
    if n == 0 then 0 else ScanTests(scans, included, n - 1, c) + if n - 1 in included then Tests(scans[n - 1], c) else 0
  }

  lemma {:induction false} ScanTestsInsert(scans: seq<Plan>, included: set<int>, n: nat, t: nat, c: Expr)
    requires n <= |scans| && t < |scans| && t !in included
    ensures ScanTests(scans, included + {t}, n, c) ==
      ScanTests(scans, included, n, c) + if t < n then Tests(scans[t], c) else 0
  {
    if n > 0 {
      ScanTestsInsert(scans, included, n - 1, t, c);
    }
  }

  lemma {:induction false} NoScanTests(scans: seq<Plan>, n: nat, c: Expr)
    requires n <= |scans|
    ensures ScanTests(scans, {}, n, c) == 0
  {
    if n > 0 {
      NoScanTests(scans, n - 1, c);
    }
  }

  lemma {:induction false} JoinTests(l: Plan, r: Plan, cond: Expr, c: Expr)
    requires Atomic(cond)
    ensures Tests(Join(l, r, cond), c) == Tests(l, c) + Tests(r, c) + Is(cond, c)
  {
    OccursSnoc([], cond, c);
    assert [] + [cond] == [cond] && FlattenAnd(cond) == [cond];
  }

  /** The tree tests its scans' filters and its join conditions, once each. */
  ghost predicate TreeTests(scans: seq<Plan>, f: Forest, c: Expr) {
    Tests(f.root, c) == ScanTests(scans, f.included, |scans|, c) + Occurs(f.conds, c)
  }

  lemma {:induction false} ExtendTests(scans: seq<Plan>, edges: seq<Edge>, f: Forest, i: nat, c: Expr)
    requires Extends(scans, edges, f, i) && TreeTests(scans, f, c)
    ensures TreeTests(scans, Extend(scans, edges, f, i), c)
  {
    var t, cond := NewTable(edges[i], f.included), Condition(edges[i], f.included);
    ScanTestsInsert(scans, f.included, |scans|, t, c);
    OccursSnoc(f.conds, cond, c);
    JoinTests(f.root, scans[t], cond, c);
  }

  lemma {:induction false} GrowTests(scans: seq<Plan>, edges: seq<Edge>, f: Forest, c: Expr)
    requires |f.used| == |edges| && TreeTests(scans, f, c)
    ensures var r := Grow(scans, edges, f); r.Some? ==> TreeTests(scans, r.value, c)
  {
    forall g: Forest, i: nat | Extends(scans, edges, g, i) && TreeTests(scans, g, c)
      ensures TreeTests(scans, Extend(scans, edges, g, i), c)
    {
      ExtendTests(scans, edges, g, i, c);
    }
    GrowKeeps(scans, edges, f, g => TreeTests(scans, g, c));
  }

  function Start(scans: seq<Plan>, edges: seq<Edge>): Forest
    requires |scans| > 0
  {
    Forest(scans[0], {0}, seq(|edges|, _ => false), [], [])
  }

  /** The tree loop fails exactly when the edges leave a table unconnected; otherwise
      the tree joins all tables on the used edges, and accounts for every edge. */
  lemma {:induction false} TreeComplete(scans: seq<Plan>, edges: seq<Edge>, names: seq<set<string>>,
                                        data: seq<seq<Row>>, w: World)
    requires |scans| > 0 && EdgesWithin(edges, |scans|) && EdgesReach(edges, names)
    requires data == DenoteAll(scans, w) && Sources(data, names)
    ensures var r := Grow(scans, edges, Start(scans, edges));
      && (r.None? <==> Disconnected(edges, |scans|))
      && (r.Some? ==> TakenOk(edges, r.value) && TreeOk(data, names, r.value, w) && r.value.included == First(|scans|))
  {
    var f := Start(scans, edges);
    TreeStart(data, names, w.sem);
    SearchStart(edges, f.used, |scans|);
    GrowSearched(scans, edges, f);
    GrowOriented(scans, edges, names, f);
    GrowTree(scans, edges, names, data, f, w);
  }

  lemma {:induction false} TreeAccounts(scans: seq<Plan>, edges: seq<Edge>, row: Row, sem: Semantics, c: Expr)
    requires |scans| > 0
    ensures var r := Grow(scans, edges, Start(scans, edges));
      r.Some? ==> LedgerTests(edges, r.value, c) && LedgerTrue(edges, r.value, row, sem) && TreeTests(scans, r.value, c)
  {
    var f := Start(scans, edges);
    NoneUsed(edges, f.used);
    NoScanTests(scans, |scans|, c);
    ScanTestsInsert(scans, {}, |scans|, 0, c);
    assert {} + {0} == {0};
    GrowLedger(scans, edges, f, row, sem, c);
    GrowTests(scans, edges, f, c);
  }

  /** The left-deep tree: starting from the first table, it joins a table that some
      edge connects to the tables already joined. */
  method BuildJoinTree(scans: seq<Plan>, edges: seq<Edge>) returns (r: Option<(Plan, seq<Expr>)>)
    requires |scans| > 0 && EdgesWithin(edges, |scans|)
    ensures r.None? <==> Grow(scans, edges, Start(scans, edges)).None?
    ensures r.Some? ==>
      var f := Grow(scans, edges, Start(scans, edges)).value; r.value == (f.root, UnusedTerms(edges, f.used))
  {
    var included, used, root := {0}, seq(|edges|, _ => false), scans[0];
    ghost var conds, taken := [], [];
    while |included| < |scans|
      invariant |used| == |edges|
      invariant Grow(scans, edges, Forest(root, included, used, conds, taken)) ==
        Grow(scans, edges, Start(scans, edges))
      decreases |scans| - |included|
    {
      var i := 0;
      while i < |edges| && (used[i] || !Crosses(edges[i], included))
        invariant i <= |edges| && FirstEdge(edges, used, included, i) == FirstEdge(edges, used, included, 0)
      {
        i := i + 1;
      }
      if i == |edges| {
        return None;
      }
      var t, cond := NewTable(edges[i], included), Condition(edges[i], included);
      root := Join(root, scans[t], cond);
      conds, taken := conds + [cond], taken + [edges[i]];
      included, used := included + {t}, used[i := true];
    }
    return Some((root, UnusedTerms(edges, used)));
  }

  lemma {:induction false} SearchStart(edges: seq<Edge>, used: seq<bool>, n: nat)
    requires |used| == |edges| && n > 0 && forall i :: 0 <= i < |used| ==> !used[i]
    ensures Searched(edges, used, {0}, n)
  {
  }

  lemma {:induction false} SearchFailed(edges: seq<Edge>, used: seq<bool>, included: set<int>, n: nat)
    requires |used| == |edges| && Searched(edges, used, included, n) && Closed(included, edges) && |included| < n
    ensures Disconnected(edges, n)
  {
    SubsetFirst(included, n);
  }

  lemma {:induction false} SearchDone(edges: seq<Edge>, used: seq<bool>, included: set<int>, n: nat)
    requires |used| == |edges| && Searched(edges, used, included, n) && |included| == n
    ensures included == First(n) && !Disconnected(edges, n)
  {
    SubsetFirst(included, n);
  }

  // ---- The whole plan --------------------------------------------------------------------

  /** The conjunction of some terms, if there are any. */
  function AndAll(es: seq<Expr>): Option<Expr> {
    if es == [] then None else AndExpr(AndAll(es[..|es| - 1]), es[|es| - 1])
  }

  lemma {:induction false} AndAllTrue(es: seq<Expr>, row: Row, sem: Semantics)
    ensures TrueOpt(AndAll(es), row, sem) <==> AllTrue(es, row, sem)
  {
    if es != [] {
      AndAllTrue(es[..|es| - 1], row, sem);
      AndExprMeaning(AndAll(es[..|es| - 1]), es[|es| - 1], row, sem);
    }
  }

  lemma {:induction false} AndAllTests(es: seq<Expr>, c: Expr)
    requires AllAtomic(es)
    ensures Occurs(FlattenOpt(AndAll(es)), c) == Occurs(es, c)
  {
    if es != [] {
      AndAllTests(es[..|es| - 1], c);
      AndExprTests(AndAll(es[..|es| - 1]), es[|es| - 1], c);
    }
  }

  function ScansOf(tables: seq<Table>, filters: seq<Option<Expr>>): seq<Plan>
    requires |filters| == |tables|
  {
    seq(|tables|, i requires 0 <= i < |tables| => Scan(tables[i], filters[i], None))
  }

  function Above(root: Plan, residual: seq<Expr>): Plan {
    if residual == [] then root else Filter(root, AndAll(residual).value)
  }

  /** The plan for several tables: filtered scans, left-deep key joins, and a filter of
      everything else above them. */
  function MultiTablePlan(tables: seq<Table>, conjuncts: Option<Expr>, st: Symbols): Option<Plan> {
    if tables == [] then None
    else
      var p := Split(FlattenOpt(conjuncts), tables, st);
      var scans := ScansOf(tables, p.filters);
      var f := Grow(scans, p.edges, Start(scans, p.edges));
      if f.None? then None else Some(Above(f.value.root, p.residual + UnusedTerms(p.edges, f.value.used)))
  }

  function DataOf(tables: seq<Table>): seq<seq<Row>> {
    seq(|tables|, i requires 0 <= i < |tables| => tables[i].rows)
  }

  lemma {:induction false} NamesApart(tables: seq<Table>, st: Symbols)
    requires Catalog(tables, st)
    ensures Sources(DataOf(tables), AllNames(tables))
  {
    var names := AllNames(tables);
    forall i, j | 0 <= i < j < |names| ensures names[i] !! names[j] {
      forall c | c in names[i] ensures c !in names[j] {
        assert st[c] == i;
      }
    }
  }

  lemma {:induction false} ScanSources(tables: seq<Table>, filters: seq<Option<Expr>>, st: Symbols, w: World)
    requires Catalog(tables, st) && |filters| == |tables|
    ensures Sources(DenoteAll(ScansOf(tables, filters), w), AllNames(tables))
  {
    NamesApart(tables, st);
    var data, names := DenoteAll(ScansOf(tables, filters), w), AllNames(tables);
    forall t | 0 <= t < |data| ensures Over(data[t], names[t]) {
      assert Over(DataOf(tables)[t], names[t]);
      if filters[t].Some? {
        SelectOver(tables[t].rows, filters[t].value, w.sem, names[t]);
      }
    }
  }

  /** Filtering each table first keeps exactly the combinations all filters accept. */
  lemma {:induction false} WaysFiltered(tables: seq<Table>, filters: seq<Option<Expr>>, data: seq<seq<Row>>,
                                        data': seq<seq<Row>>, names: seq<set<string>>,
                                        all: set<int>, n: nat, row: Row, sem: Semantics)
    requires Scoped(filters, tables) && n <= |tables| == |data| == |data'| == |names|
    requires forall i :: 0 <= i < n ==>
      i in all
    requires forall i :: 0 <= i < |tables| ==>
      data[i] == tables[i].rows && data'[i] == SelectOpt(tables[i].rows, filters[i], sem) &&
          names[i] == NamesOf(tables[i])
    ensures Ways(data', names, all, n, row) ==
      if FiltersTrue(filters, n, row, sem) then Ways(data, names, all, n, row) else 0
  {
    if n > 0 {
      var m := n - 1;
      WaysFiltered(tables, filters, data, data', names, all, m, row, sem);
      FilteredCount(tables[m], filters[m], row, sem);
      Product(Ways(data, names, all, m, row), Count(data[m], On(row, names[m])),
              FiltersTrue(filters, m, row, sem), TrueOpt(filters[m], row, sem));
    }
  }

  lemma {:induction false} Product(x: nat, y: nat, a: bool, b: bool)
    ensures (if a then x else 0) * (if b then y else 0) == if a && b then x * y else 0
  {
  }

  lemma {:induction false} FilteredCount(t: Table, f: Option<Expr>, row: Row, sem: Semantics)
    requires Within(ColumnsOpt(f), NamesOf(t))
    ensures Count(SelectOpt(t.rows, f, sem), On(row, NamesOf(t))) ==
      if TrueOpt(f, row, sem) then Count(t.rows, On(row, NamesOf(t))) else 0
  {
    if f.Some? {
      CountSelect(t.rows, f.value, sem, On(row, NamesOf(t)));
      EvalFrame(f.value, On(row, NamesOf(t)), row, sem);
    }
  }

  lemma {:induction false} CountMember(rows: seq<Row>, row: Row)
    requires Count(rows, row) > 0
    ensures row in rows
  {
    if rows[|rows| - 1] != row {
      CountMember(rows[..|rows| - 1], row);
    }
  }

  lemma {:induction false} WaysMember(data: seq<seq<Row>>, names: seq<set<string>>, all: set<int>, n: nat, row: Row,
                                      t: nat)
    requires n <= |data| == |names| && t < n && t in all && Ways(data, names, all, n, row) > 0
    ensures On(row, names[t]) in data[t]
  {
    if t == n - 1 {
      CountMember(data[t], On(row, names[t]));
    } else {
      WaysMember(data, names, all, n - 1, row, t);
    }
  }

  /** In a row made of table rows, a column holds a value of its type. */
  lemma {:induction false} WaysTyped(tables: seq<Table>, st: Symbols, row: Row, t: nat, col: string)
    requires Catalog(tables, st) && t < |tables| && col in NamesOf(tables[t])
    requires Ways(DataOf(tables), AllNames(tables), First(|tables|), |tables|, row) > 0
    ensures FitsColumn(Lookup(row, col), FieldType(tables[t].fields, col))
  {
    WaysMember(DataOf(tables), AllNames(tables), First(|tables|), |tables|, row, t);
    var part := On(row, NamesOf(tables[t]));
    var i :| 0 <= i < |tables[t].rows| && tables[t].rows[i] == part;
    assert col in tables[t].rows[i].Keys;
    assert Lookup(row, col) == tables[t].rows[i][col];
  }

  lemma {:induction false} EdgeTrue(cond: Expr, e: Edge, tables: seq<Table>, st: Symbols, row: Row, sem: Semantics)
    requires Catalog(tables, st) && Oriented(cond, e) && EdgeTyped(e, tables) && EdgeNames(e, AllNames(tables))
    requires Ways(DataOf(tables), AllNames(tables), First(|tables|), |tables|, row) > 0
    ensures True(cond, row, sem) <==> True(e.term, row, sem)
  {
    WaysTyped(tables, st, row, e.leftTable, e.leftCol);
    WaysTyped(tables, st, row, e.rightTable, e.rightCol);
    KeyEquality(e.leftCol, e.rightCol, row, sem);
    KeyEquality(e.rightCol, e.leftCol, row, sem);
    EqualFlips(Lookup(row, e.leftCol), Lookup(row, e.rightCol), FieldType(tables[e.leftTable].fields, e.leftCol), sem);
  }

  lemma {:induction false} KeyEquality(a: string, b: string, row: Row, sem: Semantics)
    ensures Eval(Binary(Eq, Column(a), Column(b)), row, sem) == Equal(Lookup(row, a), Lookup(row, b), sem)
  {
    assert Eval(Column(a), row, sem) == Lookup(row, a) && Eval(Column(b), row, sem) == Lookup(row, b);
  }

  lemma {:induction false} EqualFlips(a: Value, b: Value, t: Option<DataType>, sem: Semantics)
    requires FitsColumn(a, t) && FitsColumn(b, t) && (t == Some(Int64) || t == Some(DateType))
    ensures Equal(a, b, sem) == Equal(b, a, sem)
  {
  }

  /** On such rows the orientation of a join condition does not matter. */
  lemma {:induction false} OrientedTrue(conds: seq<Expr>, taken: seq<Edge>, edges: seq<Edge>, tables: seq<Table>,
                                        st: Symbols, row: Row, sem: Semantics)
    requires Catalog(tables, st) && AllOriented(conds, taken) && AllFrom(taken, edges)
    requires EdgesTyped(edges, tables) && EdgesReach(edges, AllNames(tables))
    requires Ways(DataOf(tables), AllNames(tables), First(|tables|), |tables|, row) > 0
    ensures AllTrue(conds, row, sem) <==> AllTrue(Terms(taken), row, sem)
  {
    if conds != [] {
      var n := |conds| - 1;
      OrientedTrue(conds[..n], taken[..n], edges, tables, st, row, sem);
      var e := taken[n];
      assert Oriented(conds[n], e) && Terms(taken)[..n] == Terms(taken[..n]);
      assert e in edges;
      var k :| 0 <= k < |edges| && edges[k] == e;
      assert EdgeTyped(edges[k], tables) && EdgeNames(edges[k], AllNames(tables));
      EdgeTrue(conds[n], e, tables, st, row, sem);
    }
  }

  /** How often a row occurs in the reference: the cross product, filtered. */
  lemma {:induction false} ReferenceCount(tables: seq<Table>, conjuncts: Option<Expr>, st: Symbols, row: Row,
                                          sem: Semantics)
    requires Catalog(tables, st)
    ensures Count(SelectOpt(CrossAll(DataOf(tables)), conjuncts, sem), row) ==
      if row.Keys == Keys(AllNames(tables), First(|tables|), |tables|) && TrueOpt(conjuncts, row, sem)
      then Ways(DataOf(tables), AllNames(tables), First(|tables|), |tables|, row) else 0
  {
    NamesApart(tables, st);
    var data := DataOf(tables);
    assert data[..|tables|] == data;
    CrossCount(data, AllNames(tables), |tables|, row);
    if conjuncts.Some? {
      CountSelect(CrossAll(data), conjuncts.value, sem, row);
    }
  }

  lemma {:induction false} AboveCount(root: Plan, residual: seq<Expr>, w: World, row: Row)
    ensures Count(Denote(Above(root, residual), w), row) ==
      if AllTrue(residual, row, w.sem) then Count(Denote(root, w), row) else 0
  {
    if residual != [] {
      AndAllTrue(residual, row, w.sem);
      CountSelect(Denote(root, w), AndAll(residual).value, w.sem, row);
    }
  }

  lemma {:induction false} AboveTests(root: Plan, residual: seq<Expr>, c: Expr)
    requires AllAtomic(residual)
    ensures Tests(Above(root, residual), c) == Tests(root, c) + Occurs(residual, c)
  {
    AndAllTests(residual, c);
  }

  /** The clause is TRUE exactly when the filters, the used edges, the unused edges and
      the residual terms are. */
  lemma {:induction false} WhereSplits(tables: seq<Table>, conjuncts: Option<Expr>, st: Symbols, f: Forest,
                                       row: Row, sem: Semantics)
    requires LedgerTrue(Split(FlattenOpt(conjuncts), tables, st).edges, f, row, sem)
    ensures var p := Split(FlattenOpt(conjuncts), tables, st);
      TrueOpt(conjuncts, row, sem) <==>
      FiltersTrue(p.filters, |p.filters|, row, sem) && AllTrue(Terms(f.taken), row, sem) &&
          AllTrue(p.residual + UnusedTerms(p.edges, f.used), row, sem)
  {
    var p := Split(FlattenOpt(conjuncts), tables, st);
    SplitMeaning(FlattenOpt(conjuncts), tables, st, row, sem);
    AllTrueConcat(p.residual, UnusedTerms(p.edges, f.used), row, sem);
    if conjuncts.Some? {
      FlattenAndMeaning(conjuncts.value, row, sem, {});
    }
  }

  ghost predicate Resolved(conjuncts: Option<Expr>, st: Symbols) {
    Within(ColumnsOpt(conjuncts), st.Keys)
  }

  lemma {:induction false} ResolvedTerms(conjuncts: Option<Expr>, st: Symbols)
    requires Resolved(conjuncts, st)
    ensures AllWithin(FlattenOpt(conjuncts), st.Keys) && AllAtomic(FlattenOpt(conjuncts))
  {
    if conjuncts.Some? {
      FlattenAndMeaning(conjuncts.value, map[], (_, _) => Null, st.Keys);
    }
  }

  /** What the classified clause says of the tables it was split over. */
  ghost predicate PlacesOk(p: Places, tables: seq<Table>) {
    && |p.filters| == |tables| && Scoped(p.filters, tables)
    && EdgesReach(p.edges, AllNames(tables)) && EdgesWithin(p.edges, |tables|) && EdgesTyped(p.edges, tables)
  }

  lemma {:induction false} SplitOk(tables: seq<Table>, conjuncts: Option<Expr>, st: Symbols)
    requires Catalog(tables, st) && Resolved(conjuncts, st)
    ensures PlacesOk(Split(FlattenOpt(conjuncts), tables, st), tables)
  {
    ResolvedTerms(conjuncts, st);
    SplitScoped(FlattenOpt(conjuncts), tables, st);
  }

  /** The combinations of scanned rows are those of table rows that pass the filters. */
  lemma {:induction false} ScannedWays(tables: seq<Table>, filters: seq<Option<Expr>>, w: World, row: Row)
    requires |filters| == |tables| && Scoped(filters, tables)
    ensures Ways(DenoteAll(ScansOf(tables, filters), w), AllNames(tables), First(|tables|), |tables|, row) ==
      if FiltersTrue(filters, |tables|, row, w.sem)
          then Ways(DataOf(tables), AllNames(tables), First(|tables|), |tables|, row) else 0
  {
    WaysFiltered(tables, filters, DataOf(tables), DenoteAll(ScansOf(tables, filters), w), AllNames(tables),
        First(|tables|), |tables|, row, w.sem);
  }

  /** The finished tree's rows: table rows that pass the filters and the edges it took. */
  lemma {:induction false} TreeRows(tables: seq<Table>, p: Places, st: Symbols, f: Forest, w: World, row: Row)
    requires Catalog(tables, st) && PlacesOk(p, tables) && TakenOk(p.edges, f)
    requires TreeOk(DenoteAll(ScansOf(tables, p.filters), w), AllNames(tables), f, w) && f.included == First(|tables|)
    ensures Count(Denote(f.root, w), row) ==
      if row.Keys == Keys(AllNames(tables), First(|tables|), |tables|) &&
          FiltersTrue(p.filters, |tables|, row, w.sem) && AllTrue(Terms(f.taken), row, w.sem)
      then Ways(DataOf(tables), AllNames(tables), First(|tables|), |tables|, row) else 0
  {
    var data, names := DenoteAll(ScansOf(tables, p.filters), w), AllNames(tables);
    assert TreeCount(data, names, Denote(f.root, w), f.conds, First(|tables|), w.sem, row);
    ScannedWays(tables, p.filters, w, row);
    if Ways(DataOf(tables), names, First(|tables|), |tables|, row) > 0 {
      OrientedTrue(f.conds, f.taken, p.edges, tables, st, row, w.sem);
    }
  }

  lemma {:induction false} TreeBuilt(tables: seq<Table>, p: Places, st: Symbols, f: Forest, w: World)
    requires Catalog(tables, st) && tables != [] && PlacesOk(p, tables)
    requires Grow(ScansOf(tables, p.filters), p.edges, Start(ScansOf(tables, p.filters), p.edges)) == Some(f)
    ensures TakenOk(p.edges, f) && TreeOk(DenoteAll(ScansOf(tables, p.filters), w), AllNames(tables), f, w)
    ensures f.included == First(|tables|)
  {
    ScanSources(tables, p.filters, st, w);
    TreeComplete(ScansOf(tables, p.filters), p.edges, AllNames(tables), DenoteAll(ScansOf(tables, p.filters), w), w);
  }

  /** The plan and the reference agree on how often each row occurs. */
  lemma {:induction false} PlanCount(tables: seq<Table>, conjuncts: Option<Expr>, st: Symbols, w: World, row: Row)
    requires Catalog(tables, st) && Resolved(conjuncts, st) && MultiTablePlan(tables, conjuncts, st).Some?
    ensures Count(Denote(MultiTablePlan(tables, conjuncts, st).value, w), row) ==
      Count(SelectOpt(CrossAll(DataOf(tables)), conjuncts, w.sem), row)
  {
    var p := Split(FlattenOpt(conjuncts), tables, st);
    var scans := ScansOf(tables, p.filters);
    var f := Grow(scans, p.edges, Start(scans, p.edges)).value;
    SplitOk(tables, conjuncts, st);
    TreeBuilt(tables, p, st, f, w);
    TreeRows(tables, p, st, f, w, row);
    AboveCount(f.root, p.residual + UnusedTerms(p.edges, f.used), w, row);
    TreeAccounts(scans, p.edges, row, w.sem, Literal(Null));
    WhereSplits(tables, conjuncts, st, f, row, w.sem);
    ReferenceCount(tables, conjuncts, st, row, w.sem);
  }

  /** A plan that is built denotes exactly the multiset of cross-product rows on which
      the WHERE clause is TRUE. */
  lemma {:induction false} PlanMeaning(tables: seq<Table>, conjuncts: Option<Expr>, st: Symbols, w: World)
    requires Catalog(tables, st) && Resolved(conjuncts, st) && MultiTablePlan(tables, conjuncts, st).Some?
    ensures multiset(Denote(MultiTablePlan(tables, conjuncts, st).value, w)) ==
      multiset(SelectOpt(CrossAll(DataOf(tables)), conjuncts, w.sem))
  {
    var xs, ys := Denote(MultiTablePlan(tables, conjuncts, st).value, w),
        SelectOpt(CrossAll(DataOf(tables)), conjuncts, w.sem);
    forall row ensures Count(xs, row) == Count(ys, row) {
      PlanCount(tables, conjuncts, st, w, row);
    }
    SameCounts(xs, ys);
  }

  lemma {:induction false} ScanTestsAll(tables: seq<Table>, filters: seq<Option<Expr>>, all: set<int>, n: nat, c: Expr)
    requires |filters| == |tables| && n <= |tables| && forall i :: 0 <= i < n ==> i in all
    ensures ScanTests(ScansOf(tables, filters), all, n, c) == Total(FilterWeights(filters, c), n)
  {
    if n > 0 {
      ScanTestsAll(tables, filters, all, n - 1, c);
    }
  }

  lemma {:induction false} UnusedAtomic(edges: seq<Edge>, used: seq<bool>, names: seq<set<string>>)
    requires |used| == |edges| && EdgesReach(edges, names)
    ensures AllAtomic(UnusedTerms(edges, used))
  {
    if edges != [] {
      assert EdgeNames(edges[|edges| - 1], names);
      UnusedAtomic(edges[..|edges| - 1], used[..|edges| - 1], names);
    }
  }

  /** The tree tests its scans' filters and the edges it took, and nothing is left out. */
  lemma {:induction false} TreeTested(tables: seq<Table>, p: Places, f: Forest, c: Expr)
    requires tables != [] && PlacesOk(p, tables)
    requires Grow(ScansOf(tables, p.filters), p.edges, Start(ScansOf(tables, p.filters), p.edges)) == Some(f)
    ensures LedgerTests(p.edges, f, c) && AllAtomic(UnusedTerms(p.edges, f.used))
    ensures Tests(f.root, c) == FilterTests(p.filters, c) + Occurs(Terms(f.taken), c)
  {
    var scans := ScansOf(tables, p.filters);
    var start := Start(scans, p.edges);
    SearchStart(p.edges, start.used, |scans|);
    GrowSearched(scans, p.edges, start);
    GrowOriented(scans, p.edges, AllNames(tables), start);
    TreeAccounts(scans, p.edges, map[], (_, _) => Null, c);
    UnusedAtomic(p.edges, f.used, AllNames(tables));
    ScanTestsAll(tables, p.filters, First(|tables|), |tables|, c);
    OrientedOccurs(f.conds, f.taken, c);
  }

  /** Every conjunct of the clause is tested exactly as often as it was written: by one
      scan, one join or the filter above. */
  lemma {:induction false} PlanTestsOnce(tables: seq<Table>, conjuncts: Option<Expr>, st: Symbols, c: Expr)
    requires Catalog(tables, st) && Resolved(conjuncts, st) && MultiTablePlan(tables, conjuncts, st).Some?
    ensures Tests(MultiTablePlan(tables, conjuncts, st).value, c) == Occurs(FlattenOpt(conjuncts), c)
  {
    var terms := FlattenOpt(conjuncts);
    var p := Split(terms, tables, st);
    var scans := ScansOf(tables, p.filters);
    var f := Grow(scans, p.edges, Start(scans, p.edges)).value;
    SplitOk(tables, conjuncts, st);
    ResolvedTerms(conjuncts, st);
    SplitOnce(terms, tables, st, c);
    ResidualAtomic(terms, tables, st);
    TreeTested(tables, p, f, c);
    OccursConcat(p.residual, UnusedTerms(p.edges, f.used), c);
    AboveTests(f.root, p.residual + UnusedTerms(p.edges, f.used), c);
  }

  /** A plan is refused exactly when no key equality of the clause leads out of some set of
      tables that holds the first. */
  lemma {:induction false} PlanRefused(tables: seq<Table>, conjuncts: Option<Expr>, st: Symbols)
    requires Catalog(tables, st) && Resolved(conjuncts, st)
    ensures MultiTablePlan(tables, conjuncts, st).None? <==> Unlinked(conjuncts, tables, st)
  {
    DisconnectedMeans(conjuncts, tables, st);
    var p := Split(FlattenOpt(conjuncts), tables, st);
    var scans := ScansOf(tables, p.filters);
    SplitOk(tables, conjuncts, st);
    SearchStart(p.edges, Start(scans, p.edges).used, |scans|);
    GrowSearched(scans, p.edges, Start(scans, p.edges));
  }

  /** The filter above the joins. */
  method FilterAbove(root: Plan, residual: seq<Expr>) returns (plan: Plan)
    ensures plan == Above(root, residual)
  {
    var pred: Option<Expr> := None;
    for k := 0 to |residual|
      invariant pred == AndAll(residual[..k])
    {
      assert residual[..k + 1][..k] == residual[..k];
      pred := AndExpr(pred, residual[k]);
    }
    assert residual[..|residual|] == residual;
    if residual == [] {
      return root;
    }
    return Filter(root, pred.value);
  }

  method BuildMultiTablePlan(tables: seq<Table>, conjuncts: Option<Expr>, st: Symbols) returns (plan: Option<Plan>)
    requires Catalog(tables, st) && Resolved(conjuncts, st)
    ensures plan == MultiTablePlan(tables, conjuncts, st)
    ensures plan.None? <==> Unlinked(conjuncts, tables, st)
    ensures plan.Some? ==>
      forall w :: multiset(Denote(plan.value, w)) == multiset(SelectOpt(CrossAll(DataOf(tables)), conjuncts, w.sem))
    ensures plan.Some? ==> forall c :: Tests(plan.value, c) == Occurs(FlattenOpt(conjuncts), c)
  {
    var terms := FlattenOpt(conjuncts);
    ResolvedTerms(conjuncts, st);
    SplitScoped(terms, tables, st);
    PlanRefused(tables, conjuncts, st);
    var filters, edges, residual := SplitWhere(terms, tables, st);
    var scans := ScansOf(tables, filters);
    var tree := BuildJoinTree(scans, edges);
    if tree.None? {
      return None;
    }
    var root := FilterAbove(tree.value.0, residual + tree.value.1);
    plan := Some(root);
    forall w ensures multiset(Denote(plan.value, w)) ==
        multiset(SelectOpt(CrossAll(DataOf(tables)), conjuncts, w.sem)) {
      PlanMeaning(tables, conjuncts, st, w);
    }
    forall c ensures Tests(plan.value, c) == Occurs(terms, c) {
      PlanTestsOnce(tables, conjuncts, st, c);
    }
  }
}
