/** The vectorised expression kernels (exec/expr.go, exec/filter.go): three-valued logic
    on packed bytes, against row-by-row evaluation. */
module Kernels {
  import opened Options
  import opened Bits
  import opened LiteralCaches

  datatype Op = Eq | Ne | Lt | Le | Gt | Ge

  /** INT64 or DATE columns and literals, and everything the kernels build on them. */
  datatype Expr =
    | Col(index: nat)
    | IntLit(n: int)
    | BoolLit(b: bool)
    | Cmp(op: Op, left: Expr, right: Expr)
    | And(children: seq<Expr>)
    | Or(children: seq<Expr>)
    | Not(child: Expr)
    | IsNull(child: Expr)
    | IsNotNull(child: Expr)
    | In(child: Expr, list: seq<int>, hasNull: bool)
    | Between(child: Expr, lo: Expr, hi: Expr)
    | Case(whens: seq<When>, otherwise: Option<Expr>, isBool: bool)

  datatype When = When(cond: Expr, result: Expr)

  // ---- Row by row ------------------------------------------------------------------------

  datatype Scalar = Null | I(n: int) | B(b: bool)

  function Compare(op: Op, a: int, b: int): bool {
    match op
    case Eq => a == b
    case Ne => a != b
    case Lt => a < b
    case Le => a <= b
    case Gt => a > b
    case Ge => a >= b
  }

  function Cmp3(op: Op, a: Scalar, b: Scalar): Scalar {
    if a.I? && b.I? then B(Compare(op, a.n, b.n)) else Null
  }

  /** The truth tables of section 8.12 of SQL-92. */
  function And3(a: Scalar, b: Scalar): Scalar {
    if a == B(false) || b == B(false) then B(false) else if a == B(true) && b == B(true) then B(true) else Null
  }

  function Or3(a: Scalar, b: Scalar): Scalar {
    if a == B(true) || b == B(true) then B(true) else if a == B(false) && b == B(false) then B(false) else Null
  }

  function Not3(a: Scalar): Scalar {
    if a.B? then B(!a.b) else Null
  }

  /** IN by section 8.4: a match is TRUE; without one, a NULL in the list leaves the
      answer unknown. */
  function In3(a: Scalar, list: seq<int>, hasNull: bool): Scalar {
    if !a.I? then Null else if a.n in list then B(true) else if hasNull then Null else B(false)
  }

  function RowVal(e: Expr, row: seq<Scalar>): Scalar
    decreases e, 0
  {
    match e
    case Col(i) => if i < |row| then row[i] else Null
    case IntLit(n) => I(n)
    case BoolLit(b) => B(b)
    case Cmp(op, l, r) => Cmp3(op, RowVal(l, row), RowVal(r, row))
    case And(cs) => AndAll(cs, row)
    case Or(cs) => OrAll(cs, row)
    case Not(c) => Not3(RowVal(c, row))
    case IsNull(c) => B(RowVal(c, row).Null?)
    case IsNotNull(c) => B(!RowVal(c, row).Null?)
    case In(c, list, hasNull) => In3(RowVal(c, row), list, hasNull)
    case Between(c, lo, hi) =>
        And3(Cmp3(Ge, RowVal(c, row), RowVal(lo, row)), Cmp3(Le, RowVal(c, row), RowVal(hi, row)))
    case Case(ws, els, _) => FirstWhen(e, ws, row)
  }

  function AndAll(cs: seq<Expr>, row: seq<Scalar>): Scalar
    decreases cs, 1
  {
    if cs == [] then B(true) else And3(AndAll(cs[..|cs| - 1], row), RowVal(cs[|cs| - 1], row))
  }

  function OrAll(cs: seq<Expr>, row: seq<Scalar>): Scalar
    decreases cs, 1
  {
    if cs == [] then B(false) else Or3(OrAll(cs[..|cs| - 1], row), RowVal(cs[|cs| - 1], row))
  }

  /** The first WHEN whose condition is TRUE, else ELSE, else NULL. */
  function FirstWhen(e: Expr, ws: seq<When>, row: seq<Scalar>): Scalar
    requires e.Case? && |ws| <= |e.whens| && ws == e.whens[|e.whens| - |ws|..]
    decreases e, 0, |ws|
  {
    if ws == [] then (if e.otherwise.None? then Null else RowVal(e.otherwise.value, row))
    else
      assert ws[0] == e.whens[|e.whens| - |ws|];
      if RowVal(ws[0].cond, row) == B(true) then RowVal(ws[0].result, row) else FirstWhen(e, ws[1..], row)
  }

  /** What a comparison asks of two numbers. */
  ghost predicate Related(op: Op, a: int, b: int) {
    && (op == Eq ==> a == b) && (op == Ne ==> a != b)
    && (op == Lt ==> a < b) && (op == Le ==> !(b < a))
    && (op == Gt ==> b < a) && (op == Ge ==> !(a < b))
  }

  /** No WHEN before k holds. */
  ghost predicate NoneBefore(ws: seq<When>, k: nat, row: seq<Scalar>)
    requires k <= |ws|
  {
    forall i :: 0 <= i < k ==> RowVal(ws[i].cond, row) != B(true)
  }

  /** When an expression is TRUE of a row, and when FALSE, by the values of its parts. */
  ghost predicate Means(e: Expr, row: seq<Scalar>) {
    var v := RowVal(e, row);
    match e
    case Col(i) => i < |row| ==> v == row[i]
    case IntLit(n) => v == I(n)
    case BoolLit(b) => v == B(b)
    case Cmp(op, l, r) =>
      var a, b := RowVal(l, row), RowVal(r, row);
      && (v == B(true) <==> a.I? && b.I? && Related(op, a.n, b.n))
      && (v == B(false) <==> a.I? && b.I? && !Related(op, a.n, b.n)) && !v.I?
    case And(cs) =>
      && (v == B(true) <==> forall i :: 0 <= i < |cs| ==> RowVal(cs[i], row) == B(true))
      && (v == B(false) <==> exists i :: 0 <= i < |cs| && RowVal(cs[i], row) == B(false)) && !v.I?
    case Or(cs) =>
      && (v == B(true) <==> exists i :: 0 <= i < |cs| && RowVal(cs[i], row) == B(true))
      && (v == B(false) <==> forall i :: 0 <= i < |cs| ==> RowVal(cs[i], row) == B(false)) && !v.I?
    case Not(c) =>
      && (v == B(true) <==> RowVal(c, row) == B(false))
      && (v == B(false) <==> RowVal(c, row) == B(true)) && !v.I?
    case IsNull(c) => v == if RowVal(c, row) == Null then B(true) else B(false)
    case IsNotNull(c) => v == if RowVal(c, row) == Null then B(false) else B(true)
    case In(c, list, hasNull) =>
      var x := RowVal(c, row);
      && (v == B(true) <==> x.I? && exists i :: 0 <= i < |list| && list[i] == x.n)
      && (v == B(false) <==> x.I? && !hasNull && forall i :: 0 <= i < |list| ==> list[i] != x.n) && !v.I?
    case Between(c, lo, hi) =>
      var x, l, h := RowVal(c, row), RowVal(lo, row), RowVal(hi, row);
      && (v == B(true) <==> x.I? && l.I? && h.I? && l.n <= x.n <= h.n)
      && (v == B(false) <==> x.I? && ((l.I? && x.n < l.n) || (h.I? && h.n < x.n))) && !v.I?
    case Case(ws, els, _) =>
      && (forall k :: 0 <= k < |ws| && NoneBefore(ws, k, row) && RowVal(ws[k].cond, row) == B(true) ==>
           v == RowVal(ws[k].result, row))
      && (NoneBefore(ws, |ws|, row) ==> v == if els.Some? then RowVal(els.value, row) else Null)
  }

  /** Row-by-row evaluation is three-valued logic, operator by operator. */
  lemma {:induction false} RowValMeans(e: Expr, row: seq<Scalar>)
    ensures Means(e, row)
  {
    match e
    case And(cs) => AllMeans(cs, row);
    case Or(cs) => AnyMeans(cs, row);
    case Case(ws, _, _) => WhensMean(e, ws, row);
    case _ =>
  }

  lemma {:induction false} AllMeans(cs: seq<Expr>, row: seq<Scalar>)
    ensures AndAll(cs, row) == B(true) <==> forall i :: 0 <= i < |cs| ==> RowVal(cs[i], row) == B(true)
    ensures AndAll(cs, row) == B(false) <==> exists i :: 0 <= i < |cs| && RowVal(cs[i], row) == B(false)
    ensures !AndAll(cs, row).I?
  {
    if cs != [] {
      AllMeans(cs[..|cs| - 1], row);
      assert forall i :: 0 <= i < |cs| - 1 ==> cs[i] == cs[..|cs| - 1][i];
    }
  }

  lemma {:induction false} AnyMeans(cs: seq<Expr>, row: seq<Scalar>)
    ensures OrAll(cs, row) == B(true) <==> exists i :: 0 <= i < |cs| && RowVal(cs[i], row) == B(true)
    ensures OrAll(cs, row) == B(false) <==> forall i :: 0 <= i < |cs| ==> RowVal(cs[i], row) == B(false)
    ensures !OrAll(cs, row).I?
  {
    if cs != [] {
      AnyMeans(cs[..|cs| - 1], row);
      assert forall i :: 0 <= i < |cs| - 1 ==> cs[i] == cs[..|cs| - 1][i];
    }
  }

  lemma {:induction false} WhensMean(e: Expr, ws: seq<When>, row: seq<Scalar>)
    requires e.Case? && |ws| <= |e.whens| && ws == e.whens[|e.whens| - |ws|..]
    ensures forall k :: 0 <= k < |ws| && NoneBefore(ws, k, row) && RowVal(ws[k].cond, row) == B(true) ==>
      FirstWhen(e, ws, row) == RowVal(ws[k].result, row)
    ensures NoneBefore(ws, |ws|, row) ==>
      FirstWhen(e, ws, row) == if e.otherwise.Some? then RowVal(e.otherwise.value, row) else Null
  {
    if ws != [] {
      var rest := ws[1..];
      WhensMean(e, rest, row);
      forall k | 0 < k < |ws| && NoneBefore(ws, k, row) && RowVal(ws[k].cond, row) == B(true)
        ensures FirstWhen(e, ws, row) == RowVal(ws[k].result, row)
      {
        assert ws[0] == e.whens[|e.whens| - |ws|];
        assert forall i :: 0 <= i < |rest| ==> rest[i] == ws[i + 1];
        assert RowVal(ws[0].cond, row) != B(true);
        assert NoneBefore(rest, k - 1, row);
      }
      if NoneBefore(ws, |ws|, row) {
        assert forall i :: 0 <= i < |rest| ==> rest[i] == ws[i + 1];
        assert RowVal(ws[0].cond, row) != B(true);
      }
    }
  }

  // ---- Vectors ------------------------------------------------------------------------------

  datatype Vec =
    | Ints(values: seq<int>, nulls: seq<Byte>)
    | Bools(bits: seq<Byte>, nulls: seq<Byte>, length: nat)

  ghost predicate VecOk(v: Vec, n: nat) {
    && |v.nulls| == Size(n)
    && match v
       case Ints(values, _) => |values| == n
       case Bools(bits, _, length) => |bits| == Size(n) && length == n
  }

  /** What a vector holds at a physical row. */
  function Cell(v: Vec, i: nat): Scalar {
    if !At(v.nulls, i) then Null
    else match v
      case Ints(values, _) => if i < |values| then I(values[i]) else Null
      case Bools(bits, _, _) => B(At(bits, i))
  }

  function RowAt(cols: seq<Vec>, i: nat): seq<Scalar> {
    seq(|cols|, c requires 0 <= c < |cols| => Cell(cols[c], i))
  }

  // ---- Comparison -------------------------------------------------------------------------------

  /** One byte of comparison results: eight rows from row i on, or-ed bit by bit. */
  method CmpByte(op: Op, l: seq<int>, r: seq<int>, i: nat) returns (b: Byte)
    requires i + 8 <= |l| && i + 8 <= |r|
    ensures forall k :: 0 <= k < 8 ==> (Bit(b, k) <==> Compare(op, l[i + k], r[i + k]))
  {
    b := ZERO;
    for j := 0 to 8
      invariant forall k :: 0 <= k < j ==> (b[k] <==> Compare(op, l[i + k], r[i + k]))
      invariant forall k :: j <= k < 8 ==> !b[k]
    {
      if Compare(op, l[i + j], r[i + j]) {
        b := OrB(b, Mask(j));
      }
    }
  }

  /** A row is valid only when both inputs are: the bitmaps are and-ed byte by byte. */
  method MergeNulls(a: seq<Byte>, b: seq<Byte>, size: nat) returns (out: seq<Byte>)
    requires |a| == |b| == size
    ensures |out| == size && forall i :: 0 <= i < 8 * size ==> (At(out, i) <==> At(a, i) && At(b, i))
  {
    out := [];
    for j := 0 to size
      invariant |out| == j && forall i :: 0 <= i < j ==> out[i] == AndB(a[i], b[i])
    {
      out := out + [AndB(a[j], b[j])];
    }
  }

  ghost predicate CmpRows(op: Op, l: seq<int>, r: seq<int>, nulls: seq<Byte>, bits: seq<Byte>, n: nat) {
    n <= |l| && n <= |r| && forall i :: 0 <= i < n ==> (At(bits, i) <==> At(nulls, i) && Compare(op, l[i], r[i]))
  }

  /** Storing a masked byte decides its eight rows. */
  lemma {:induction false} StoreByte(op: Op, l: seq<int>, r: seq<int>, nulls: seq<Byte>, bits: seq<Byte>, b: nat,
                                     byte: Byte)
    requires CmpRows(op, l, r, nulls, bits, 8 * b) && b < |bits| == |nulls| && 8 * b + 8 <= |l| && 8 * b + 8 <= |r|
    requires forall k :: 0 <= k < 8 ==> (Bit(byte, k) <==> Compare(op, l[8 * b + k], r[8 * b + k]))
    ensures CmpRows(op, l, r, nulls, bits[b := AndB(byte, nulls[b])], 8 * b + 8)
  {
    var bits' := bits[b := AndB(byte, nulls[b])];
    forall i | 0 <= i < 8 * b + 8 ensures At(bits', i) <==> At(nulls, i) && Compare(op, l[i], r[i]) {
      if i >= 8 * b {
        var k := i - 8 * b;
        assert i / 8 == b && i % 8 == k;
        assert Bit(byte, k) <==> Compare(op, l[8 * b + k], r[8 * b + k]);
      } else {
        assert i / 8 < b;
        assert At(bits', i) <==> At(bits, i);
      }
    }
  }

  lemma {:induction false} StoreRow(op: Op, l: seq<int>, r: seq<int>, nulls: seq<Byte>, bits: seq<Byte>, i: nat)
    requires CmpRows(op, l, r, nulls, bits, i) && i / 8 < |bits| && i < |l| && i < |r| && !At(bits, i)
    ensures CmpRows(op, l, r, nulls, if At(nulls, i) then Set(bits, i, Compare(op, l[i], r[i])) else bits, i + 1)
  {
    if At(nulls, i) {
      forall j | 0 <= j <= i
        ensures At(Set(bits, i, Compare(op, l[i], r[i])), j) <==> At(nulls, j) && Compare(op, l[j], r[j])
      {
        AtSet(bits, i, Compare(op, l[i], r[i]), j);
      }
    }
  }

  /** Bits from row i on are still clear. */
  ghost predicate ClearFrom(bits: seq<Byte>, i: nat) {
    forall j: nat :: i <= j ==> !At(bits, j)
  }

  lemma {:induction false} ClearAfterByte(bits: seq<Byte>, b: nat, byte: Byte)
    requires ClearFrom(bits, 8 * b) && b < |bits|
    ensures ClearFrom(bits[b := byte], 8 * b + 8)
  {
    var bits' := bits[b := byte];
    forall j: nat | 8 * b + 8 <= j ensures !At(bits', j) {
      assert j / 8 > b;
      assert !At(bits, j);
    }
  }

  lemma {:induction false} ClearAfterRow(bits: seq<Byte>, i: nat, v: bool)
    requires ClearFrom(bits, i) && i / 8 < |bits|
    ensures ClearFrom(Set(bits, i, v), i + 1)
  {
    forall j: nat | i + 1 <= j ensures !At(Set(bits, i, v), j) {
      AtSet(bits, i, v, j);
      assert !At(bits, j);
    }
  }

  /** A row of a comparison: NULL unless both bits say the values are there. */
  ghost predicate CmpRow(op: Op, l: Vec, r: Vec, out: Vec, i: nat)
    requires l.Ints? && r.Ints? && i < |l.values| && i < |r.values|
  {
    if At(l.nulls, i) && At(r.nulls, i) then Cell(out, i) == B(Related(op, l.values[i], r.values[i]))
    else Cell(out, i) == Null
  }

  /** evalCmpInt64 and evalCmpDate: whole bytes first, then the remaining rows. */
  method CmpKernel(op: Op, l: Vec, r: Vec, n: nat) returns (out: Vec)
    requires l.Ints? && r.Ints? && VecOk(l, n) && VecOk(r, n)
    ensures out.Bools? && VecOk(out, n) && forall i :: 0 <= i < n ==> Cell(out, i) == Cmp3(op, Cell(l, i), Cell(r, i))
    ensures forall i :: 0 <= i < n ==> CmpRow(op, l, r, out, i)
  {
    var nulls := MergeNulls(l.nulls, r.nulls, Size(n));
    var bits: seq<Byte> := Zeros(Size(n));
    forall j: nat | 0 <= j ensures !At(bits, j) {
      AtZeros(Size(n), j);
    }
    for b := 0 to n / 8
      invariant |bits| == Size(n) && CmpRows(op, l.values, r.values, nulls, bits, 8 * b) && ClearFrom(bits, 8 * b)
    {
      var byte := CmpByte(op, l.values, r.values, 8 * b);
      StoreByte(op, l.values, r.values, nulls, bits, b, byte);
      ClearAfterByte(bits, b, AndB(byte, nulls[b]));
      bits := bits[b := AndB(byte, nulls[b])];
    }
    for i := 8 * (n / 8) to n
      invariant |bits| == Size(n) && CmpRows(op, l.values, r.values, nulls, bits, i) && ClearFrom(bits, i)
    {
      InSize(i, n);
      assert !At(bits, i);
      StoreRow(op, l.values, r.values, nulls, bits, i);
      ClearAfterRow(bits, i, Compare(op, l.values[i], r.values[i]));
      if At(nulls, i) {
        bits := Set(bits, i, Compare(op, l.values[i], r.values[i]));
      }
    }
    out := Bools(bits, nulls, n);
    forall i | 0 <= i < n ensures Cell(out, i) == Cmp3(op, Cell(l, i), Cell(r, i)) {
      InSize(i, n);
    }
  }

  // ---- Boolean connectives ------------------------------------------------------------------------

  /** Eight rows of AND: true when both are true, false when either is false. */
  function AndByte(lb: Byte, ln: Byte, rb: Byte, rn: Byte): (Byte, Byte) {
    var t := AndB(AndB(lb, ln), AndB(rb, rn));
    var f := OrB(AndB(NotB(lb), ln), AndB(NotB(rb), rn));
    (t, OrB(t, f))
  }

  function OrByte(lb: Byte, ln: Byte, rb: Byte, rn: Byte): (Byte, Byte) {
    var t := OrB(AndB(lb, ln), AndB(rb, rn));
    var f := AndB(AndB(NotB(lb), ln), AndB(NotB(rb), rn));
    (t, OrB(t, f))
  }

  function Tri(b: Byte, n: Byte, k: nat): Scalar
    requires k < 8
  {
    if Bit(n, k) then B(Bit(b, k)) else Null
  }

  lemma {:induction false} AndByteBits(lb: Byte, ln: Byte, rb: Byte, rn: Byte, k: nat)
    requires k < 8
    ensures var (b, n) := AndByte(lb, ln, rb, rn); Tri(b, n, k) == And3(Tri(lb, ln, k), Tri(rb, rn, k))
  {
  }

  lemma {:induction false} OrByteBits(lb: Byte, ln: Byte, rb: Byte, rn: Byte, k: nat)
    requires k < 8
    ensures var (b, n) := OrByte(lb, ln, rb, rn); Tri(b, n, k) == Or3(Tri(lb, ln, k), Tri(rb, rn, k))
  {
  }

  lemma {:induction false} CellIsTri(v: Vec, n: nat, i: nat)
    requires v.Bools? && VecOk(v, n) && i < n
    ensures i / 8 < Size(n) && Cell(v, i) == Tri(v.bits[i / 8], v.nulls[i / 8], i % 8)
  {
    InSize(i, n);
  }

  /** Folds one more child into a conjunction (or disjunction), a byte of rows at a time. */
  method FoldKernel(isAnd: bool, l: Vec, r: Vec, n: nat) returns (out: Vec)
    requires l.Bools? && r.Bools? && VecOk(l, n) && VecOk(r, n)
    ensures out.Bools? && VecOk(out, n)
    ensures forall i :: 0 <= i < n ==>
      Cell(out, i) == if isAnd then And3(Cell(l, i), Cell(r, i)) else Or3(Cell(l, i), Cell(r, i))
  {
    var bits: seq<Byte>, nulls: seq<Byte> := [], [];
    for j := 0 to Size(n)
      invariant |bits| == |nulls| == j
      invariant forall i :: 0 <= i < j ==>
        (bits[i], nulls[i]) ==
        if isAnd then AndByte(l.bits[i], l.nulls[i], r.bits[i], r.nulls[i])
        else OrByte(l.bits[i], l.nulls[i], r.bits[i], r.nulls[i])
    {
      var (t, known) :=
        if isAnd then AndByte(l.bits[j], l.nulls[j], r.bits[j], r.nulls[j])
        else OrByte(l.bits[j], l.nulls[j], r.bits[j], r.nulls[j]);
      bits, nulls := bits + [t], nulls + [known];
    }
    out := Bools(bits, nulls, n);
    forall i | 0 <= i < n
      ensures Cell(out, i) == if isAnd then And3(Cell(l, i), Cell(r, i)) else Or3(Cell(l, i), Cell(r, i))
    {
      CellIsTri(out, n, i);
      CellIsTri(l, n, i);
      CellIsTri(r, n, i);
      AndByteBits(l.bits[i / 8], l.nulls[i / 8], r.bits[i / 8], r.nulls[i / 8], i % 8);
      OrByteBits(l.bits[i / 8], l.nulls[i / 8], r.bits[i / 8], r.nulls[i / 8], i % 8);
    }
  }

  /** Flips valid rows only; a NULL row keeps a clear bit. */
  lemma {:induction false} NotByteBits(b: Byte, n: Byte, k: nat)
    requires k < 8
    ensures Tri(AndB(NotB(b), n), n, k) == Not3(Tri(b, n, k))
  {
  }

  method NotKernel(c: Vec, n: nat) returns (out: Vec)
    requires c.Bools? && VecOk(c, n)
    ensures out.Bools? && VecOk(out, n) && forall i :: 0 <= i < n ==> Cell(out, i) == Not3(Cell(c, i))
  {
    var bits: seq<Byte> := [];
    for j := 0 to Size(n)
      invariant |bits| == j && forall i :: 0 <= i < j ==> bits[i] == AndB(NotB(c.bits[i]), c.nulls[i])
    {
      bits := bits + [AndB(NotB(c.bits[j]), c.nulls[j])];
    }
    out := Bools(bits, c.nulls, n);
    forall i | 0 <= i < n ensures Cell(out, i) == Not3(Cell(c, i)) {
      CellIsTri(out, n, i);
      CellIsTri(c, n, i);
      NotByteBits(c.bits[i / 8], c.nulls[i / 8], i % 8);
    }
  }

  // ---- Row-wise kernels ----------------------------------------------------------------------------

  /** IS NULL and IS NOT NULL: every row valid, then one bit a row. */
  method NullKernel(c: Vec, n: nat, whenNull: bool) returns (out: Vec)
    requires VecOk(c, n)
    ensures out.Bools? && VecOk(out, n) && forall i :: 0 <= i < n ==> Cell(out, i) == B(Cell(c, i).Null? == whenNull)
  {
    var bm := new Byte[Size(n)](_ => ZERO);
    SetAllValid(bm, n);
    var bits: seq<Byte>, nulls: seq<Byte> := Zeros(Size(n)), bm[..];
    for i := 0 to n
      invariant |bits| == Size(n) && forall j :: 0 <= j < i ==> (At(bits, j) <==> Cell(c, j).Null? == whenNull)
    {
      InSize(i, n);
      var isNull := !At(c.nulls, i);
      forall j | 0 <= j <= i ensures At(Set(bits, i, isNull == whenNull), j) <==> Cell(c, j).Null? == whenNull {
        AtSet(bits, i, isNull == whenNull, j);
      }
      bits := Set(bits, i, isNull == whenNull);
    }
    out := Bools(bits, nulls, n);
    forall i | 0 <= i < n ensures At(nulls, i) {
      AtFull(n, i);
    }
  }

  /** The list search: stops at the first equal value. */
  method Search(list: seq<int>, x: int) returns (found: bool)
    ensures found <==> x in list
  {
    found := false;
    for k := 0 to |list|
      invariant !found && x !in list[..k]
    {
      if x == list[k] {
        return true;
      }
    }
  }

  /** The first i rows answer IN; the rest are still NULL. */
  ghost predicate InRows(bits: seq<Byte>, nulls: seq<Byte>, c: Vec, n: nat, list: seq<int>, hasNull: bool, i: nat) {
    && |bits| == |nulls| == Size(n) && ClearFrom(nulls, i)
    && forall j :: 0 <= j < i ==> Cell(Bools(bits, nulls, n), j) == In3(Cell(c, j), list, hasNull)
  }

  lemma {:induction false} InRowDecided(bits: seq<Byte>, nulls: seq<Byte>, c: Vec, n: nat, list: seq<int>,
                                        hasNull: bool, i: nat, found: bool)
    requires InRows(bits, nulls, c, n, list, hasNull, i) && i < n && In3(Cell(c, i), list, hasNull) == B(found)
    ensures i / 8 < Size(n) && InRows(Set(bits, i, found), Set(nulls, i, true), c, n, list, hasNull, i + 1)
  {
    InSize(i, n);
    ClearAfterRow(nulls, i, true);
    forall j | 0 <= j <= i
      ensures Cell(Bools(Set(bits, i, found), Set(nulls, i, true), n), j) == In3(Cell(c, j), list, hasNull)
    {
      AtSet(nulls, i, true, j);
      AtSet(bits, i, found, j);
    }
  }

  lemma {:induction false} InRowUnknown(bits: seq<Byte>, nulls: seq<Byte>, c: Vec, n: nat, list: seq<int>,
                                        hasNull: bool, i: nat)
    requires InRows(bits, nulls, c, n, list, hasNull, i) && In3(Cell(c, i), list, hasNull) == Null
    ensures InRows(bits, nulls, c, n, list, hasNull, i + 1)
  {
    assert !At(nulls, i);
  }

  /** IN: a NULL row is skipped, and so is a row the list leaves unknown. */
  method InKernel(c: Vec, n: nat, list: seq<int>, hasNull: bool) returns (out: Vec)
    requires c.Ints? && VecOk(c, n)
    ensures out.Bools? && VecOk(out, n) && forall i :: 0 <= i < n ==> Cell(out, i) == In3(Cell(c, i), list, hasNull)
  {
    var bits: seq<Byte>, nulls: seq<Byte> := Zeros(Size(n)), Zeros(Size(n));
    forall j: nat | 0 <= j ensures !At(nulls, j) {
      AtZeros(Size(n), j);
    }
    for i := 0 to n
      invariant InRows(bits, nulls, c, n, list, hasNull, i)
    {
      if !At(c.nulls, i) {
        InRowUnknown(bits, nulls, c, n, list, hasNull, i);
        continue;
      }
      var found := Search(list, c.values[i]);
      if !found && hasNull {
        InRowUnknown(bits, nulls, c, n, list, hasNull, i);
        continue;
      }
      InRowDecided(bits, nulls, c, n, list, hasNull, i, found);
      bits, nulls := Set(bits, i, found), Set(nulls, i, true);
    }
    out := Bools(bits, nulls, n);
  }

  // ---- CASE --------------------------------------------------------------------------------------------

  function Merge3(cond: Scalar, val: Scalar, base: Scalar): Scalar {
    if cond == B(true) then val else base
  }

  /** mergeVectors on integers: takes the value, and its validity, where the condition is TRUE. */
  method MergeInts(cond: Vec, val: Vec, base: Vec, n: nat) returns (out: Vec)
    requires cond.Bools? && val.Ints? && base.Ints? && VecOk(cond, n) && VecOk(val, n) && VecOk(base, n)
    ensures out.Ints? && VecOk(out, n)
    ensures forall i :: 0 <= i < n ==>
      Cell(out, i) == Merge3(Cell(cond, i), Cell(val, i), Cell(base, i))
  {
    var values, nulls: seq<Byte> := base.values, base.nulls;
    for i := 0 to n
      invariant |values| == n && |nulls| == Size(n)
      invariant forall j :: 0 <= j < i ==>
        Cell(Ints(values, nulls), j) == Merge3(Cell(cond, j), Cell(val, j), Cell(base, j))
      invariant forall j :: i <= j < n ==> Cell(Ints(values, nulls), j) == Cell(base, j)
    {
      InSize(i, n);
      if At(cond.nulls, i) && At(cond.bits, i) {
        var nulls' := Set(nulls, i, At(val.nulls, i));
        forall j | 0 <= j < n ensures At(nulls', j) == if j == i then At(val.nulls, i) else At(nulls, j) {
          AtSet(nulls, i, At(val.nulls, i), j);
        }
        values, nulls := values[i := val.values[i]], nulls';
      }
    }
    out := Ints(values, nulls);
  }

  method MergeBools(cond: Vec, val: Vec, base: Vec, n: nat) returns (out: Vec)
    requires cond.Bools? && val.Bools? && base.Bools? && VecOk(cond, n) && VecOk(val, n) && VecOk(base, n)
    ensures out.Bools? && VecOk(out, n)
    ensures forall i :: 0 <= i < n ==>
      Cell(out, i) == Merge3(Cell(cond, i), Cell(val, i), Cell(base, i))
  {
    var bits: seq<Byte>, nulls: seq<Byte> := base.bits, base.nulls;
    for i := 0 to n
      invariant |bits| == |nulls| == Size(n)
      invariant forall j :: 0 <= j < i ==>
        Cell(Bools(bits, nulls, n), j) == Merge3(Cell(cond, j), Cell(val, j), Cell(base, j))
      invariant forall j :: i <= j < n ==> Cell(Bools(bits, nulls, n), j) == Cell(base, j)
    {
      InSize(i, n);
      if At(cond.nulls, i) && At(cond.bits, i) {
        var bits', nulls' := Set(bits, i, At(val.bits, i)), Set(nulls, i, At(val.nulls, i));
        forall j | 0 <= j < n
          ensures At(nulls', j) == (if j == i then At(val.nulls, i) else At(nulls, j))
          ensures At(bits', j) == if j == i then At(val.bits, i) else At(bits, j)
        {
          AtSet(nulls, i, At(val.nulls, i), j);
          AtSet(bits, i, At(val.bits, i), j);
        }
        bits, nulls := bits', nulls';
      }
    }
    out := Bools(bits, nulls, n);
  }

  function NullVector(isBool: bool, n: nat): (v: Vec)
    ensures VecOk(v, n) && v.Bools? == isBool
  {
    if isBool then Bools(Zeros(Size(n)), Zeros(Size(n)), n) else Ints(seq(n, _ => 0), Zeros(Size(n)))
  }

  // ---- Whole expressions ----------------------------------------------------------------------------------

  /** Whether an expression is typed and yields booleans; the columns hold INT64 or DATE. */
  predicate Typed(e: Expr, isBool: bool, width: nat) {
    match e
    case Col(i) => !isBool && i < width
    case IntLit(_) => !isBool
    case BoolLit(_) => isBool
    case Cmp(_, l, r) => isBool && Typed(l, false, width) && Typed(r, false, width)
    case And(cs) => isBool && forall i :: 0 <= i < |cs| ==> Typed(cs[i], true, width)
    case Or(cs) => isBool && forall i :: 0 <= i < |cs| ==> Typed(cs[i], true, width)
    case Not(c) => isBool && Typed(c, true, width)
    case IsNull(c) => isBool && (Typed(c, false, width) || Typed(c, true, width))
    case IsNotNull(c) => isBool && (Typed(c, false, width) || Typed(c, true, width))
    case In(c, _, _) => isBool && Typed(c, false, width)
    case Between(c, lo, hi) => isBool && Typed(c, false, width) && Typed(lo, false, width) && Typed(hi, false, width)
    case Case(ws, els, b) =>
      && isBool == b && (els.Some? ==> Typed(els.value, b, width))
      && forall i :: 0 <= i < |ws| ==> Typed(ws[i].cond, true, width) && Typed(ws[i].result, b, width)
  }

  ghost predicate ColumnsOk(cols: seq<Vec>, n: nat) {
    forall c :: 0 <= c < |cols| ==> cols[c].Ints? && VecOk(cols[c], n)
  }

  /** A vector agrees with row-by-row evaluation. */
  ghost predicate Agrees(v: Vec, e: Expr, cols: seq<Vec>, n: nat) {
    VecOk(v, n) && forall i :: 0 <= i < n ==> Cell(v, i) == RowVal(e, RowAt(cols, i))
  }

  method IntLiteral(k: int, n: nat) returns (v: Vec)
    ensures v.Ints? && VecOk(v, n) && forall i :: 0 <= i < n ==> Cell(v, i) == I(k)
  {
    v := Ints(seq(n, _ => k), Full(n));
    forall i | 0 <= i < n ensures At(Full(n), i) {
      AtFull(n, i);
    }
  }

  method BoolLiteral(b: bool, n: nat) returns (v: Vec)
    ensures v.Bools? && VecOk(v, n) && forall i :: 0 <= i < n ==> Cell(v, i) == B(b)
  {
    v := Bools(if b then Full(n) else Zeros(Size(n)), Full(n), n);
    forall i | 0 <= i < n ensures At(Full(n), i) && !At(Zeros(Size(n)), i) {
      AtFull(n, i);
      AtZeros(Size(n), i);
    }
  }

  /** For every tree, the byte-at-a-time result at each physical row is the row-by-row
      value. */
  method Eval(e: Expr, ghost isBool: bool, cols: seq<Vec>, n: nat) returns (v: Vec)
    requires ColumnsOk(cols, n) && Typed(e, isBool, |cols|)
    ensures Agrees(v, e, cols, n) && v.Bools? == isBool
    ensures forall i {:trigger RowAt(cols, i)} :: 0 <= i < n ==> Means(e, RowAt(cols, i))
    decreases e, 0
  {
    forall i | 0 <= i < n ensures Means(e, RowAt(cols, i)) {
      RowValMeans(e, RowAt(cols, i));
    }
    match e
    case Col(i) => v := cols[i];
    case IntLit(k) => v := IntLiteral(k, n);
    case BoolLit(b) => v := BoolLiteral(b, n);
    case Cmp(op, l, r) =>
      var a := Eval(l, false, cols, n);
      var b := Eval(r, false, cols, n);
      v := CmpKernel(op, a, b, n);
    case And(cs) => v := EvalAll(e, true, cs, cols, n);
    case Or(cs) => v := EvalAll(e, false, cs, cols, n);
    case Not(c) =>
      var a := Eval(c, true, cols, n);
      v := NotKernel(a, n);
    case IsNull(c) =>
      var a := Eval(c, Typed(c, true, |cols|), cols, n);
      v := NullKernel(a, n, true);
    case IsNotNull(c) =>
      var a := Eval(c, Typed(c, true, |cols|), cols, n);
      v := NullKernel(a, n, false);
    case In(c, list, hasNull) =>
      var a := Eval(c, false, cols, n);
      v := InKernel(a, n, list, hasNull);
    case Between(c, lo, hi) =>
      var a := Eval(c, false, cols, n);
      var l := Eval(lo, false, cols, n);
      var h := Eval(hi, false, cols, n);
      var ge := CmpKernel(Ge, a, l, n);
      var le := CmpKernel(Le, a, h, n);
      v := FoldKernel(true, ge, le, n);
    case Case(_, _, _) => v := EvalCase(e, cols, n);
  }

  /** AND and OR fold their children from the left, starting from the first. */
  method EvalAll(ghost e: Expr, isAnd: bool, cs: seq<Expr>, cols: seq<Vec>, n: nat) returns (v: Vec)
    requires ColumnsOk(cols, n) && (forall i :: 0 <= i < |cs| ==> Typed(cs[i], true, |cols|))
    requires if isAnd then e == And(cs) else e == Or(cs)
    ensures v.Bools? && VecOk(v, n)
    ensures forall i :: 0 <= i < n ==>
      Cell(v, i) == if isAnd then AndAll(cs, RowAt(cols, i)) else OrAll(cs, RowAt(cols, i))
    decreases e, 0, 0
  {
    if cs == [] {
      v := BoolLiteral(isAnd, n);
      return;
    }
    v := Eval(cs[0], true, cols, n);
    FirstChild(cs, cols, n);
    for k := 1 to |cs|
      invariant v.Bools? && VecOk(v, n)
      invariant forall i :: 0 <= i < n ==>
        Cell(v, i) == if isAnd then AndAll(cs[..k], RowAt(cols, i)) else OrAll(cs[..k], RowAt(cols, i))
    {
      var c := Eval(cs[k], true, cols, n);
      assert cs[..k + 1][..k] == cs[..k];
      v := FoldKernel(isAnd, v, c, n);
    }
    assert cs[..|cs|] == cs;
  }

  /** A single boolean child is its own conjunction and disjunction. */
  lemma {:induction false} FirstChild(cs: seq<Expr>, cols: seq<Vec>, n: nat)
    requires cs != [] && Typed(cs[0], true, |cols|) && ColumnsOk(cols, n)
    ensures forall i :: 0 <= i < n ==>
      AndAll(cs[..1], RowAt(cols, i)) == RowVal(cs[0], RowAt(cols, i)) == OrAll(cs[..1], RowAt(cols, i))
  {
    forall i | 0 <= i < n
      ensures AndAll(cs[..1], RowAt(cols, i)) == RowVal(cs[0], RowAt(cols, i)) == OrAll(cs[..1], RowAt(cols, i))
    {
      assert cs[..1][..0] == [] && cs[..1][0] == cs[0];
      BoolValue(cs[0], cols, i);
    }
  }

  lemma {:induction false} BoolValue(e: Expr, cols: seq<Vec>, i: nat)
    requires Typed(e, true, |cols|)
    ensures !RowVal(e, RowAt(cols, i)).I?
    decreases e, 0
  {
    match e
    case And(cs) =>
    case Or(cs) =>
    case Case(ws, _, _) => BoolWhen(e, ws, cols, i);
    case _ =>
  }

  lemma {:induction false} BoolWhen(e: Expr, ws: seq<When>, cols: seq<Vec>, i: nat)
    requires e.Case? && Typed(e, true, |cols|) && |ws| <= |e.whens| && ws == e.whens[|e.whens| - |ws|..]
    ensures !FirstWhen(e, ws, RowAt(cols, i)).I?
    decreases e, 0, |ws|
  {
    if ws == [] {
      if e.otherwise.Some? {
        BoolValue(e.otherwise.value, cols, i);
      }
    } else {
      assert ws[0] == e.whens[|e.whens| - |ws|];
      BoolValue(ws[0].result, cols, i);
      BoolWhen(e, ws[1..], cols, i);
    }
  }

  /** CASE overwrites the ELSE result from the last WHEN to the first, so that the first
      match wins. */
  method EvalCase(e: Expr, cols: seq<Vec>, n: nat) returns (v: Vec)
    requires e.Case? && ColumnsOk(cols, n) && Typed(e, e.isBool, |cols|)
    ensures Agrees(v, e, cols, n) && v.Bools? == e.isBool
    decreases e, 0, 0
  {
    if e.otherwise.Some? {
      v := Eval(e.otherwise.value, e.isBool, cols, n);
    } else {
      v := NullVector(e.isBool, n);
      forall i | 0 <= i < n ensures Cell(v, i) == Null {
        AtZeros(Size(n), i);
      }
    }
    assert e.whens[|e.whens|..] == [];
    for k := |e.whens| downto 0
      invariant VecOk(v, n) && v.Bools? == e.isBool
      invariant forall i :: 0 <= i < n ==> Cell(v, i) == FirstWhen(e, e.whens[k..], RowAt(cols, i))
    {
      var w := e.whens[k];
      assert e.whens[k..][0] == w && e.whens[k..][1..] == e.whens[k + 1..];
      var cond := Eval(w.cond, true, cols, n);
      var val := Eval(w.result, e.isBool, cols, n);
      if e.isBool {
        v := MergeBools(cond, val, v, n);
      } else {
        v := MergeInts(cond, val, v, n);
      }
    }
    assert e.whens[0..] == e.whens;
  }

  // ---- Filters --------------------------------------------------------------------------------------------

  /** The rows of a selection where a predicate is TRUE, in order. */
  function Selected(sel: seq<nat>, e: Expr, cols: seq<Vec>): seq<nat> {
    if sel == [] then []
    else
      var last := sel[|sel| - 1];
      Selected(sel[..|sel| - 1], e, cols) + if RowVal(e, RowAt(cols, last)) == B(true) then [last] else []
  }

  ghost predicate InBatch(sel: seq<nat>, n: nat) {
    forall i :: 0 <= i < |sel| ==> sel[i] < n
  }

  /** BoolToSelVecInto over the rows a batch has selected. */
  method BoolToSelVec(sel: seq<nat>, v: Vec, ghost e: Expr, ghost cols: seq<Vec>, ghost n: nat) returns (out: seq<nat>)
    requires v.Bools? && Agrees(v, e, cols, n) && InBatch(sel, n)
    ensures out == Selected(sel, e, cols) && InBatch(out, n)
  {
    out := [];
    for i := 0 to |sel|
      invariant out == Selected(sel[..i], e, cols) && InBatch(out, n)
    {
      assert sel[..i + 1][..i] == sel[..i];
      assert Cell(v, sel[i]) == RowVal(e, RowAt(cols, sel[i]));
      if At(v.nulls, sel[i]) && At(v.bits, sel[i]) {
        out := out + [sel[i]];
      }
    }
    assert sel[..|sel|] == sel;
  }

  /** Whether every predicate is TRUE of a row. */
  predicate AllTrue(es: seq<Expr>, row: seq<Scalar>) {
    forall i :: 0 <= i < |es| ==> RowVal(es[i], row) == B(true)
  }

  function SelectedAll(sel: seq<nat>, es: seq<Expr>, cols: seq<Vec>): seq<nat> {
    if sel == [] then []
    else
      var last := sel[|sel| - 1];
      SelectedAll(sel[..|sel| - 1], es, cols) + if AllTrue(es, RowAt(cols, last)) then [last] else []
  }

  lemma {:induction false} AllTrueMore(es: seq<Expr>, e: Expr, row: seq<Scalar>)
    ensures AllTrue(es + [e], row) <==> AllTrue(es, row) && RowVal(e, row) == B(true)
  {
    var all := es + [e];
    assert all[|es|] == e && forall i :: 0 <= i < |es| ==> all[i] == es[i];
  }

  lemma {:induction false} SelectMore(sel: seq<nat>, es: seq<Expr>, e: Expr, cols: seq<Vec>)
    ensures Selected(SelectedAll(sel, es, cols), e, cols) == SelectedAll(sel, es + [e], cols)
  {
    if sel != [] {
      var init, last := sel[..|sel| - 1], sel[|sel| - 1];
      SelectMore(init, es, e, cols);
      var kept := SelectedAll(init, es, cols);
      assert (kept + [last])[..|kept|] == kept && kept + [] == kept;
      AllTrueMore(es, e, RowAt(cols, last));
    }
  }

  lemma {:induction false} SelectNone(sel: seq<nat>, cols: seq<Vec>)
    ensures SelectedAll(sel, [], cols) == sel
  {
    if sel != [] {
      SelectNone(sel[..|sel| - 1], cols);
    }
  }

  /** A stack of filters, each reading the vectors of all physical rows and narrowing the
      selection below it: what is left is, in order, exactly the rows where every
      predicate is TRUE. */
  method FilterStack(sel: seq<nat>, es: seq<Expr>, cols: seq<Vec>, n: nat) returns (out: seq<nat>)
    requires ColumnsOk(cols, n) && InBatch(sel, n) && forall i :: 0 <= i < |es| ==> Typed(es[i], true, |cols|)
    ensures out == SelectedAll(sel, es, cols)
  {
    out := sel;
    SelectNone(sel, cols);
    for k := 0 to |es|
      invariant InBatch(out, n) && out == SelectedAll(sel, es[..k], cols)
    {
      var v := Eval(es[k], true, cols, n);
      SelectMore(sel, es[..k], es[k], cols);
      assert es[..k + 1] == es[..k] + [es[k]];
      out := BoolToSelVec(out, v, es[k], cols, n);
    }
    assert es[..|es|] == es;
  }
}
