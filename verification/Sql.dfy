/** Resolved SQL expressions and their three-valued meaning (sql/ast.go,
    planner/exprwalk.go). */
module Sql {
  import opened Options

  datatype Value = Null | Bool(b: bool) | Int(n: int) | Date(days: int) | Text(s: string) | Float(bits: int)

  datatype BinaryOp = And | Or | Eq | Ne | Lt | Le | Gt | Ge | Add | Sub | Mul | Div

  /** Every other node kind, its children in the order the walker visits them. */
  datatype Operator =
    | Not
    | Negate
    | IsNull(isNot: bool)
    | Between(not: bool)
    | In(not: bool)
    | Like(not: bool)
    | Func(name: string)
    | Case(whens: nat, hasElse: bool)
    | Arithmetic(op: BinaryOp)

  datatype Expr =
    | Column(name: string)
    | Literal(value: Value)
    | Binary(op: BinaryOp, left: Expr, right: Expr)
    | Apply(operator: Operator, args: seq<Expr>)

  type Row = map<string, Value>

  /** What the operators other than AND, OR and key equality compute; every result
      about plans holds for any choice. */
  type Semantics = (Operator, seq<Value>) -> Value

  function Lookup(row: Row, name: string): Value {
    if name in row then row[name] else Null
  }

  /** Conjunction and disjunction by the truth tables of section 8.12 of SQL-92. */
  function Conj(a: Value, b: Value): Value {
    if a == Bool(false) || b == Bool(false) then Bool(false)
    else if a == Bool(true) && b == Bool(true) then Bool(true)
    else Null
  }

  function Disj(a: Value, b: Value): Value {
    if a == Bool(true) || b == Bool(true) then Bool(true)
    else if a == Bool(false) && b == Bool(false) then Bool(false)
    else Null
  }

  /** Equality is of images for two INT64 or two DATE values, unknown on NULL. */
  function Equal(a: Value, b: Value, sem: Semantics): Value {
    if a.Null? || b.Null? then Null
    else if (a.Int? && b.Int?) || (a.Date? && b.Date?) then Bool(a == b)
    else sem(Arithmetic(Eq), [a, b])
  }

  function Eval(e: Expr, row: Row, sem: Semantics): Value {
    match e
    case Column(name) => Lookup(row, name)
    case Literal(v) => v
    case Binary(op, l, r) =>
      var a, b := Eval(l, row, sem), Eval(r, row, sem);
      if op.And? then Conj(a, b)
      else if op.Or? then Disj(a, b)
      else if op.Eq? then Equal(a, b, sem)
      else sem(Arithmetic(op), [a, b])
    case Apply(op, args) => sem(op, seq(|args|, i requires 0 <= i < |args| => Eval(args[i], row, sem)))
  }

  /** A filter keeps a row only when its predicate is TRUE, not when it is unknown. */
  predicate True(e: Expr, row: Row, sem: Semantics) {
    Eval(e, row, sem) == Bool(true)
  }

  predicate TrueOpt(e: Option<Expr>, row: Row, sem: Semantics) {
    e.None? || True(e.value, row, sem)
  }

  /** The column names of an expression, in walk order, repeats included. */
  function Columns(e: Expr): seq<string> {
    match e
    case Column(name) => [name]
    case Literal(_) => []
    case Binary(_, l, r) => Columns(l) + Columns(r)
    case Apply(_, args) => ColumnsOf(args)
  }

  function ColumnsOf(es: seq<Expr>): seq<string> {
    if es == [] then [] else Columns(es[0]) + ColumnsOf(es[1..])
  }

  function ColumnsOpt(e: Option<Expr>): seq<string> {
    if e.None? then [] else Columns(e.value)
  }

  ghost predicate Within(cols: seq<string>, names: set<string>) {
    forall c :: c in cols ==> c in names
  }

  ghost predicate AgreeOn(cols: seq<string>, r: Row, r': Row) {
    forall c :: c in cols ==> Lookup(r, c) == Lookup(r', c)
  }

  lemma {:induction false} ColumnsOfArg(es: seq<Expr>, i: nat)
    requires i < |es|
    ensures forall c :: c in Columns(es[i]) ==> c in ColumnsOf(es)
  {
    if i > 0 {
      ColumnsOfArg(es[1..], i - 1);
    }
  }

  /** An expression depends on no column but its own. */
  lemma {:induction false} EvalFrame(e: Expr, r: Row, r': Row, sem: Semantics)
    requires AgreeOn(Columns(e), r, r')
    ensures Eval(e, r, sem) == Eval(e, r', sem)
    decreases e
  {
    match e
    case Column(name) => assert name in Columns(e);
    case Literal(_) =>
    case Binary(_, l, rt) =>
      EvalFrame(l, r, r', sem);
      EvalFrame(rt, r, r', sem);
    case Apply(_, args) =>
      forall i | 0 <= i < |args| ensures Eval(args[i], r, sem) == Eval(args[i], r', sem) {
        ColumnsOfArg(args, i);
        EvalFrame(args[i], r, r', sem);
      }
      assert seq(|args|, i requires 0 <= i < |args| => Eval(args[i], r, sem)) ==
             seq(|args|, i requires 0 <= i < |args| => Eval(args[i], r', sem));
  }
}
