/** Precedence climbing against the printer (sql/parser.go, sql/format.go), on tokens. */
module Pratt {
  import opened Arith
  import opened Options

  datatype BinOp = Or | And | EQ | NE | LT | LE | GT | GE | Add | Sub | Mul | Div

  /** An integer token carries its digits' value; a sign is a token of its own. */
  datatype Token = Ident(name: string) | Int(magnitude: nat) | Op(op: BinOp) | LParen | RParen

  datatype Expr =
    | Column(name: string)
    | IntLiteral(value: int)
    | Star
    | Minus(operand: Expr)
    | Binary(op: BinOp, left: Expr, right: Expr)

  // ---- The parser ---------------------------------------------------------------------------

  /** The infix precedence of an operator token. */
  function Prec(op: BinOp): nat {
    match op
    case Or => 1
    case And => 2
    case EQ | NE => 4
    case LT | LE | GT | GE => 5
    case Add | Sub => 7
    case Mul | Div => 8
  }

  function Precedence(t: Token): nat {
    if t.Op? then Prec(t.op) else 0
  }

  /** The precedence of the next token; the end has none. */
  function HeadPrec(ts: seq<Token>): nat {
    if ts == [] then 0 else Precedence(ts[0])
  }

  /** What parsing leaves: an expression and the tokens after it. */
  type Parsed = Option<(Expr, seq<Token>)>

  function NumericLiteral(magnitude: nat, negative: bool): Option<Expr> {
    var v: int := if negative then 0 - magnitude else magnitude;
    if -TWO63 <= v < TWO63 then Some(IntLiteral(v)) else None
  }

  function ParseExpr(ts: seq<Token>, minPrec: nat): (r: Parsed)
    ensures r.Some? ==> |r.value.1| < |ts|
    decreases |ts|, 3
  {
    var left := ParseUnary(ts);
    if left.None? then None else ParseLoop(left.value.0, left.value.1, minPrec)
  }

  /** The operator loop: right operands bind tighter than the operator itself. */
  function ParseLoop(left: Expr, ts: seq<Token>, minPrec: nat): (r: Parsed)
    ensures r.Some? ==> |r.value.1| <= |ts|
    decreases |ts|, 0
  {
    if HeadPrec(ts) <= minPrec then Some((left, ts))
    else
      var right := ParseExpr(ts[1..], HeadPrec(ts));
      if right.None? then None else ParseLoop(Binary(ts[0].op, left, right.value.0), right.value.1, minPrec)
  }

  /** A minus directly in front of digits is part of the literal. */
  function ParseUnary(ts: seq<Token>): (r: Parsed)
    ensures r.Some? ==> |r.value.1| < |ts|
    decreases |ts|, 2
  {
    if ts == [] then None
    else if ts[0] == Op(Sub) then
      if |ts| > 1 && ts[1].Int? then
        var lit := NumericLiteral(ts[1].magnitude, true);
        if lit.None? then None else Some((lit.value, ts[2..]))
      else
        var e := ParseUnary(ts[1..]);
        if e.None? then None else Some((Minus(e.value.0), e.value.1))
    else ParsePrimary(ts)
  }

  /** A name before a parenthesis would be a call, which is not part of this model. */
  function ParsePrimary(ts: seq<Token>): (r: Parsed)
    requires ts != []
    ensures r.Some? ==> |r.value.1| < |ts|
    decreases |ts|, 1
  {
    match ts[0]
    case Int(n) =>
      var lit := NumericLiteral(n, false);
      if lit.None? then None else Some((lit.value, ts[1..]))
    case Ident(name) => if |ts| > 1 && ts[1] == LParen then None else Some((Column(name), ts[1..]))
    case Op(op) => if op.Mul? then Some((Star, ts[1..])) else None
    case LParen =>
      var e := ParseExpr(ts[1..], 0);
      if e.None? || e.value.1 == [] || e.value.1[0] != RParen then None else Some((e.value.0, e.value.1[1..]))
    case RParen => None
  }

  /** The parser as it runs: a position moved forward over the token stream. Every
      recursion and every turn of the loop consumes a token, so it terminates. */
  class Parser {
    const toks: seq<Token>
    var pos: nat

    constructor (toks: seq<Token>)
      ensures this.toks == toks && pos == 0
    {
      this.toks, pos := toks, 0;
    }

    ghost predicate Valid()
      reads this
    {
      pos <= |toks|
    }

    /** What this call should return, and where it should leave the stream. */
    ghost predicate Follows(r: Parsed, e: Option<Expr>)
      reads this
    {
      pos <= |toks| && (e.None? <==> r.None?) && (r.Some? ==> e.value == r.value.0 && toks[pos..] == r.value.1)
    }

    method NextExpr(minPrec: nat) returns (e: Option<Expr>)
      requires Valid()
      modifies this
      ensures Valid() && Follows(ParseExpr(old(toks[pos..]), minPrec), e)
      decreases |toks| - pos, 3
    {
      ghost var ts := toks[pos..];
      var start := pos;
      var left := NextUnary();
      if left.None? {
        return None;
      }
      e := left;
      while pos < |toks| && Precedence(toks[pos]) > minPrec
        invariant start < pos <= |toks| && e.Some? && ParseExpr(ts, minPrec) == ParseLoop(e.value, toks[pos..], minPrec)
        decreases |toks| - pos
      {
        var tok := toks[pos];
        assert toks[pos..][1..] == toks[pos + 1..];
        pos := pos + 1;
        var right := NextExpr(Precedence(tok));
        if right.None? {
          return None;
        }
        e := Some(Binary(tok.op, e.value, right.value));
      }
    }

    method NextUnary() returns (e: Option<Expr>)
      requires Valid()
      modifies this
      ensures Valid() && Follows(ParseUnary(old(toks[pos..])), e) && (e.Some? ==> pos > old(pos))
      decreases |toks| - pos, 2
    {
      if pos == |toks| {
        return None;
      }
      if toks[pos] == Op(Sub) {
        assert toks[pos..][1..] == toks[pos + 1..];
        pos := pos + 1;
        if pos < |toks| && toks[pos].Int? {
          e := NumericLiteral(toks[pos].magnitude, true);
          pos := pos + 1;
          assert old(toks[pos..])[2..] == toks[pos..];
          return;
        }
        var inner := NextUnary();
        return if inner.None? then None else Some(Minus(inner.value));
      }
      e := NextPrimary();
    }

    method NextPrimary() returns (e: Option<Expr>)
      requires Valid() && pos < |toks|
      modifies this
      ensures Valid() && Follows(ParsePrimary(old(toks[pos..])), e) && (e.Some? ==> pos > old(pos))
      decreases |toks| - pos, 1
    {
      var tok := toks[pos];
      assert toks[pos..][1..] == toks[pos + 1..];
      pos := pos + 1;
      match tok
      case Int(n) => e := NumericLiteral(n, false);
      case Ident(name) =>
        if pos < |toks| && toks[pos] == LParen {
          return None;
        }
        e := Some(Column(name));
      case Op(op) => e := if op.Mul? then Some(Star) else None;
      case LParen =>
        e := NextExpr(0);
        if e.None? || pos == |toks| || toks[pos] != RParen {
          return None;
        }
        assert toks[pos..][1..] == toks[pos + 1..];
        pos := pos + 1;
      case RParen => e := None;
    }
  }

  // ---- The printer ----------------------------------------------------------------------------

  /** The printer's own binding strengths, with one level for all comparisons. */
  function BinPrec(op: BinOp): nat {
    match op
    case Or => 1
    case And => 2
    case EQ | NE | LT | LE | GT | GE => 3
    case Add | Sub => 4
    case Mul | Div => 5
  }

  predicate Wrapped(child: Expr, parentPrec: nat, isRight: bool) {
    child.Binary? && (BinPrec(child.op) < parentPrec || (isRight && BinPrec(child.op) == parentPrec))
  }

  function Print(e: Expr): seq<Token> {
    match e
    case Column(name) => [Ident(name)]
    case IntLiteral(v) => if v < 0 then [Op(Sub), Int(-v)] else [Int(v)]
    case Star => [Op(Mul)]
    case Minus(x) => [Op(Sub)] + (if x.Binary? then [LParen] + Print(x) + [RParen] else Print(x))
    case Binary(op, l, r) =>
      (if Wrapped(l, BinPrec(op), false) then [LParen] + Print(l) + [RParen] else Print(l)) + [Op(op)] +
      (if Wrapped(r, BinPrec(op), true) then [LParen] + Print(r) + [RParen] else Print(r))
  }

  // ---- What is read back --------------------------------------------------------------------------

  predicate Equality(op: BinOp) {
    op.EQ? || op.NE?
  }

  predicate Relational(op: BinOp) {
    op.LT? || op.LE? || op.GT? || op.GE?
  }

  predicate Comparison(e: Expr) {
    e.Binary? && (Equality(e.op) || Relational(e.op))
  }

  /** Plain columns, int64 literals and binary operators. */
  predicate Fragment(e: Expr) {
    match e
    case Column(_) => true
    case IntLiteral(v) => -TWO63 <= v < TWO63
    case Star => false
    case Minus(_) => false
    case Binary(_, l, r) => Fragment(l) && Fragment(r)
  }

  /** A chain of comparisons half read: `open` is an equality still waiting for its right
      side, which is `cur` so far. */
  datatype Chain = Chain(open: Option<(Expr, BinOp)>, cur: Expr)

  function Close(c: Chain): Expr {
    if c.open.None? then c.cur else Binary(c.open.value.1, c.open.value.0, c.cur)
  }

  /** An ordering binds tighter than an equality, so it takes only what is still open. */
  function Extend(c: Chain, op: BinOp, x: Expr): Chain {
    if Relational(op) then Chain(c.open, Binary(op, c.cur, x)) else Chain(Some((Close(c), op)), x)
  }

  /** How the parser reads a printed chain of comparisons. */
  function Spine(e: Expr): Chain
    requires Comparison(e)
    decreases e, 0
  {
    Extend(if Comparison(e.left) then Spine(e.left) else Chain(None, Reread(e.left)), e.op, Reread(e.right))
  }

  /** The expression a printed one reads back as. */
  function Reread(e: Expr): Expr
    decreases e, 1
  {
    if Comparison(e) then Close(Spine(e))
    else if e.Binary? then Binary(e.op, Reread(e.left), Reread(e.right))
    else e
  }

  /** How tightly the parser binds what follows into an expression's root. */
  function RootPrec(e: Expr): nat {
    if !e.Binary? then 9 else if Comparison(e) then 4 else Prec(e.op)
  }

  /** The strongest token that may follow a printed expression without being part of it. */
  function Ceiling(e: Expr): nat {
    if Comparison(e) then 3 else RootPrec(e)
  }

  ghost predicate NoCall(rest: seq<Token>) {
    rest != [] ==> rest[0] != LParen
  }

  lemma {:induction false} AtomParses(e: Expr, rest: seq<Token>)
    requires Fragment(e) && !e.Binary? && NoCall(rest)
    ensures ParseUnary(Print(e) + rest) == Some((e, rest))
  {
    var ts := Print(e) + rest;
    if e.IntLiteral? && e.value < 0 {
      assert ts[0] == Op(Sub) && ts[1] == Int(-e.value) && ts[2..] == rest;
    } else {
      assert ts[1..] == rest;
      assert e.Column? && rest != [] ==> ts[1] == rest[0];
    }
  }

  /** A parenthesised expression is a primary. */
  lemma {:induction false} ParensParse(e: Expr, e': Expr, rest: seq<Token>)
    requires ParseExpr(Print(e) + ([RParen] + rest), 0) == Some((e', [RParen] + rest))
    ensures ParseUnary([LParen] + Print(e) + [RParen] + rest) == Some((e', rest))
  {
    var ts := [LParen] + Print(e) + [RParen] + rest;
    assert ts[1..] == Print(e) + ([RParen] + rest);
    assert ([RParen] + rest)[1..] == rest;
  }

  function Operand(child: Expr, parentPrec: nat, isRight: bool): seq<Token> {
    if Wrapped(child, parentPrec, isRight) then [LParen] + Print(child) + [RParen] else Print(child)
  }

  /** A printed binary expression is its operands around its operator. */
  lemma {:induction false} PrintSplit(e: Expr, rest: seq<Token>)
    requires e.Binary?
    ensures Print(e) + rest ==
      Operand(e.left, BinPrec(e.op), false) + ([Op(e.op)] + (Operand(e.right, BinPrec(e.op), true) + rest))
  {
    var l, r := Operand(e.left, BinPrec(e.op), false), Operand(e.right, BinPrec(e.op), true);
    assert Print(e) == l + [Op(e.op)] + r;
  }

  lemma {:induction false} StopsAt(e: Expr, rest: seq<Token>, minPrec: nat)
    requires HeadPrec(rest) <= minPrec
    ensures ParseLoop(e, rest, minPrec) == Some((e, rest))
  {
  }

  /** Reading an operand, wrapped or not, and going on with it as the left side. */
  lemma {:induction false} OperandParses(child: Expr, parentPrec: nat, isRight: bool, rest: seq<Token>, minPrec: nat)
    requires Fragment(child) && NoCall(rest)
    requires !Wrapped(child, parentPrec, isRight) ==> minPrec < RootPrec(child) && HeadPrec(rest) <= Ceiling(child)
    ensures ParseExpr(Operand(child, parentPrec, isRight) + rest, minPrec) == ParseLoop(Reread(child), rest, minPrec)
    decreases child, 2
  {
    if Wrapped(child, parentPrec, isRight) {
      PrintParses(child, [RParen] + rest, 0);
      StopsAt(Reread(child), [RParen] + rest, 0);
      ParensParse(child, Reread(child), rest);
    } else {
      PrintParses(child, rest, minPrec);
    }
  }

  /** Going on from a half-read chain: an open equality is inside its right operand. */
  function Resume(c: Chain, rest: seq<Token>, minPrec: nat): Parsed {
    if c.open.None? then ParseLoop(c.cur, rest, minPrec)
    else
      var right := ParseLoop(c.cur, rest, Prec(c.open.value.1));
      if right.None? then None
      else ParseLoop(Binary(c.open.value.1, c.open.value.0, right.value.0), right.value.1, minPrec)
  }

  ghost predicate ChainOk(c: Chain) {
    c.open.Some? ==> Equality(c.open.value.1)
  }

  /** One more operator and operand of a chain. */
  lemma {:induction false} ResumeStep(c: Chain, op: BinOp, operand: seq<Token>, x: Expr, rest: seq<Token>, minPrec: nat)
    requires ChainOk(c) && (Equality(op) || Relational(op)) && minPrec < 4 && HeadPrec(rest) <= 5
    requires ParseExpr(operand + rest, Prec(op)) == ParseLoop(x, rest, Prec(op))
    ensures Resume(c, [Op(op)] + (operand + rest), minPrec) == Resume(Extend(c, op, x), rest, minPrec)
    ensures ChainOk(Extend(c, op, x))
  {
    var after := [Op(op)] + (operand + rest);
    assert after[1..] == operand + rest && HeadPrec(after) == Prec(op);
    if Relational(op) {
      StopsAt(x, rest, 5);
    } else if c.open.Some? {
      StopsAt(c.cur, after, 4);
    }
  }

  lemma {:induction false} SpineParses(e: Expr, rest: seq<Token>, minPrec: nat)
    requires Fragment(e) && Comparison(e) && NoCall(rest) && minPrec < 4 && HeadPrec(rest) <= 5
    ensures ParseExpr(Print(e) + rest, minPrec) == Resume(Spine(e), rest, minPrec) && ChainOk(Spine(e))
    decreases e, 0
  {
    var l, r := Operand(e.left, 3, false), Operand(e.right, 3, true);
    var after := [Op(e.op)] + (r + rest);
    PrintSplit(e, rest);
    if Comparison(e.left) {
      SpineParses(e.left, after, minPrec);
    } else {
      OperandParses(e.left, 3, false, after, minPrec);
    }
    OperandParses(e.right, 3, true, rest, Prec(e.op));
    var chain := if Comparison(e.left) then Spine(e.left) else Chain(None, Reread(e.left));
    ResumeStep(chain, e.op, r, Reread(e.right), rest, minPrec);
  }

  /** Parsing what is printed, below its own precedence, yields Reread(e) and goes on with
      it as the left side of what follows. */
  lemma {:induction false} PrintParses(e: Expr, rest: seq<Token>, minPrec: nat)
    requires Fragment(e) && NoCall(rest) && minPrec < RootPrec(e) && HeadPrec(rest) <= Ceiling(e)
    ensures ParseExpr(Print(e) + rest, minPrec) == ParseLoop(Reread(e), rest, minPrec)
    decreases e, 1
  {
    if !e.Binary? {
      AtomParses(e, rest);
    } else if Comparison(e) {
      SpineParses(e, rest, minPrec);
      StopsAt(Spine(e).cur, rest, 4);
    } else {
      var p := BinPrec(e.op);
      var l, r := Operand(e.left, p, false), Operand(e.right, p, true);
      var after := [Op(e.op)] + (r + rest);
      PrintSplit(e, rest);
      assert after[1..] == r + rest;
      OperandParses(e.left, p, false, after, minPrec);
      OperandParses(e.right, p, true, rest, Prec(e.op));
      StopsAt(Reread(e.right), rest, Prec(e.op));
    }
  }

  /** What a printed expression reads back as, for the whole fragment. */
  lemma {:induction false} ReadsBack(e: Expr)
    requires Fragment(e)
    ensures ParseExpr(Print(e), 0) == Some((Reread(e), []))
  {
    PrintParses(e, [], 0);
    StopsAt(Reread(e), [], 0);
    assert Print(e) + [] == Print(e);
  }

  // ---- Precedence -----------------------------------------------------------------------------------

  predicate Multiplicative(op: BinOp) {
    op.Mul? || op.Div?
  }

  predicate Arithmetic(op: BinOp) {
    op.Add? || op.Sub? || Multiplicative(op)
  }

  /** OR binds loosest, then AND, equalities, orderings, sums and products. */
  predicate Tighter(a: BinOp, b: BinOp) {
    match b
    case Or => a != Or
    case And => a != Or && a != And
    case EQ | NE => Relational(a) || Arithmetic(a)
    case LT | LE | GT | GE => Arithmetic(a)
    case Add | Sub => Multiplicative(a)
    case Mul | Div => false
  }

  /** Names with an operator between each two: a word without parentheses or signs. */
  ghost predicate Infix(ts: seq<Token>) {
    && |ts| % 2 == 1
    && forall i :: 0 <= i < |ts| ==> if i % 2 == 0 then ts[i].Ident? else ts[i].Op?
  }

  /** The tokens of an expression, left to right. */
  function Yield(e: Expr): seq<Token> {
    match e
    case Column(name) => [Ident(name)]
    case IntLiteral(v) => [Int(if v < 0 then -v else v)]
    case Star => [Op(Mul)]
    case Minus(x) => [Op(Sub)] + Yield(x)
    case Binary(op, l, r) => Yield(l) + [Op(op)] + Yield(r)
  }

  /** Operators nest by the ladder: a left operand binds at least as tightly as its
      parent, a right operand more tightly. */
  predicate Nested(e: Expr) {
    e.Binary? ==>
      && Nested(e.left) && Nested(e.right)
      && (e.left.Binary? ==> !Tighter(e.op, e.left.op))
      && (e.right.Binary? ==> Tighter(e.right.op, e.op))
  }

  /** Only columns and operators. */
  predicate Plain(e: Expr) {
    e.Column? || (e.Binary? && Plain(e.left) && Plain(e.right))
  }

  /** What is left after an operand: nothing, or an operator and another word. */
  ghost predicate Rest(ts: seq<Token>) {
    ts == [] || (ts[0].Op? && Infix(ts[1..]))
  }

  lemma {:induction false} InfixSplit(ts: seq<Token>)
    requires Infix(ts)
    ensures ts[0].Ident? && Rest(ts[1..]) && NoCall(ts[1..])
  {
    var rest := ts[1..];
    if rest != [] {
      assert ts[1].Op? && rest[1..] == ts[2..];
      forall i | 0 <= i < |ts| - 2 ensures if i % 2 == 0 then ts[2..][i].Ident? else ts[2..][i].Op? {
        assert ts[2..][i] == ts[i + 2];
      }
    }
  }

  lemma {:induction false} YieldJoins(left: Expr, op: BinOp, right: Expr, ts: seq<Token>, rest: seq<Token>)
    requires ts != [] && ts[0] == Op(op) && ts[1..] == Yield(right) + rest
    ensures Yield(left) + ts == Yield(Binary(op, left, right)) + rest
  {
    assert ts == [Op(op)] + ts[1..];
  }

  /** A whole word is read, and its operators nest by the ladder. */
  lemma {:induction false} WordNests(ts: seq<Token>, minPrec: nat)
    requires Infix(ts)
    ensures var r := ParseExpr(ts, minPrec);
      && r.Some? && ts == Yield(r.value.0) + r.value.1 && Nested(r.value.0) && Plain(r.value.0)
      && Rest(r.value.1) && HeadPrec(r.value.1) <= minPrec
      && (r.value.0.Binary? ==> Prec(r.value.0.op) > minPrec)
    decreases |ts|, 1
  {
    InfixSplit(ts);
    var left := Column(ts[0].name);
    assert ParseUnary(ts) == Some((left, ts[1..]));
    LoopNests(left, ts[1..], minPrec);
    assert ts == Yield(left) + ts[1..];
    var (e, rest) := ParseLoop(left, ts[1..], minPrec).value;
    assert ParseExpr(ts, minPrec) == Some((e, rest));
  }

  lemma {:induction false} LoopNests(left: Expr, ts: seq<Token>, minPrec: nat)
    requires Rest(ts) && Nested(left) && Plain(left)
    requires left.Binary? ==> Prec(left.op) > minPrec && HeadPrec(ts) <= Prec(left.op)
    ensures var r := ParseLoop(left, ts, minPrec);
      && r.Some? && Yield(left) + ts == Yield(r.value.0) + r.value.1 && Nested(r.value.0) && Plain(r.value.0)
      && Rest(r.value.1) && HeadPrec(r.value.1) <= minPrec
      && (r.value.0.Binary? ==> Prec(r.value.0.op) > minPrec)
    decreases |ts|, 0
  {
    if HeadPrec(ts) > minPrec {
      var op := ts[0].op;
      WordNests(ts[1..], Prec(op));
      var (right, rest) := ParseExpr(ts[1..], Prec(op)).value;
      var e := Binary(op, left, right);
      YieldJoins(left, op, right, ts, rest);
      LoopNests(e, rest, minPrec);
    }
  }

  /** A nested expression's tokens are read as that expression. */
  lemma {:induction false} YieldParses(e: Expr, rest: seq<Token>, minPrec: nat)
    requires Nested(e) && Plain(e) && NoCall(rest)
    requires e.Binary? ==> minPrec < Prec(e.op) && HeadPrec(rest) <= Prec(e.op)
    ensures ParseExpr(Yield(e) + rest, minPrec) == ParseLoop(e, rest, minPrec)
    decreases e
  {
    if e.Column? {
      AtomParses(e, rest);
    } else {
      var after := [Op(e.op)] + (Yield(e.right) + rest);
      assert Yield(e) + rest == Yield(e.left) + after && after[1..] == Yield(e.right) + rest;
      YieldParses(e.left, after, minPrec);
      YieldParses(e.right, rest, Prec(e.op));
      StopsAt(e.right, rest, Prec(e.op));
    }
  }

  /** The parse of a word without parentheses is the one expression with the word's tokens
      whose operators nest by OR < AND < equality < ordering < sum < product, operators of
      one level from the left. */
  lemma {:induction false} Ladder(ts: seq<Token>, e: Expr)
    requires Infix(ts)
    ensures ParseExpr(ts, 0) == Some((e, [])) <==> Plain(e) && Yield(e) == ts && Nested(e)
  {
    WordNests(ts, 0);
    var (found, rest) := ParseExpr(ts, 0).value;
    assert Yield(found) + [] == Yield(found) && rest == [];
    if Plain(e) && Yield(e) == ts && Nested(e) {
      YieldParses(e, [], 0);
      StopsAt(e, [], 0);
      assert Yield(e) + [] == ts;
    }
  }

  /** Two operators between three columns: the second takes the middle one exactly when it
      binds tighter. */
  lemma {:induction false} LadderOfTwo(x: string, y: string, z: string, op1: BinOp, op2: BinOp)
    ensures ParseExpr([Ident(x), Op(op1), Ident(y), Op(op2), Ident(z)], 0) == Some((
      if Tighter(op2, op1) then Binary(op1, Column(x), Binary(op2, Column(y), Column(z)))
      else Binary(op2, Binary(op1, Column(x), Column(y)), Column(z)), []))
  {
    var ts := [Ident(x), Op(op1), Ident(y), Op(op2), Ident(z)];
    var l, r := Binary(op1, Column(x), Column(y)), Binary(op2, Column(y), Column(z));
    assert forall name :: Yield(Column(name)) == [Ident(name)] && Nested(Column(name)) && Plain(Column(name));
    assert Yield(l) == ts[..3] && Yield(r) == ts[2..] && Nested(l) && Nested(r) && Plain(l) && Plain(r);
    Ladder(ts, if Tighter(op2, op1) then Binary(op1, Column(x), r) else Binary(op2, l, Column(z)));
  }

  // ---- Round trip -----------------------------------------------------------------------------------

  /** No ordering comparison has an equality as its left operand: the one place where the
      printer's single comparison level and the parser's two disagree. */
  predicate Printable(e: Expr) {
    e.Binary? ==>
      && Printable(e.left) && Printable(e.right)
      && !(Relational(e.op) && e.left.Binary? && Equality(e.left.op))
  }

  /** An equality is open exactly when one has been read. */
  predicate HasEquality(e: Expr)
    requires Comparison(e)
  {
    Equality(e.op) || (Comparison(e.left) && HasEquality(e.left))
  }

  lemma {:induction false} SpineOpen(e: Expr)
    requires Comparison(e)
    ensures Spine(e).open.Some? <==> HasEquality(e)
    ensures Spine(e).open.Some? ==> Equality(Spine(e).open.value.1)
  {
    if Comparison(e.left) {
      SpineOpen(e.left);
    }
  }

  /** In a chain that reads back as itself, an ordering has no equality anywhere below it
      on the left. */
  lemma {:induction false} NoEqualityBelow(e: Expr)
    requires Comparison(e) && Printable(e) && Relational(e.op)
    ensures !HasEquality(e)
  {
    if Comparison(e.left) {
      NoEqualityBelow(e.left);
    }
  }

  lemma {:induction false} RereadIdentity(e: Expr)
    ensures Reread(e) == e <==> Printable(e)
    decreases e
  {
    if e.Binary? {
      RereadIdentity(e.left);
      RereadIdentity(e.right);
      if Comparison(e) {
        if Comparison(e.left) {
          SpineOpen(e.left);
          if Relational(e.op) && Relational(e.left.op) && Printable(e.left) {
            NoEqualityBelow(e.left);
          }
        }
      }
    }
  }

  /** Printing then parsing is the identity exactly on the printable expressions. */
  lemma {:induction false} RoundTrip(e: Expr)
    requires Fragment(e)
    ensures ParseExpr(Print(e), 0) == Some((e, [])) <==> Printable(e)
  {
    ReadsBack(e);
    RereadIdentity(e);
  }

  /** The smallest failure: (a = b) < c reads back as a = (b < c), for any two such
      operators and any columns. */
  lemma {:induction false} EqualityUnderOrdering(a: string, b: string, c: string, eq: BinOp, rel: BinOp)
    requires Equality(eq) && Relational(rel)
    ensures var e := Binary(rel, Binary(eq, Column(a), Column(b)), Column(c));
      ParseExpr(Print(e), 0) == Some((Binary(eq, Column(a), Binary(rel, Column(b), Column(c))), []))
  {
    var l := Binary(eq, Column(a), Column(b));
    ReadsBack(Binary(rel, l, Column(c)));
    assert Reread(Column(a)) == Column(a) && Reread(Column(b)) == Column(b) && Reread(Column(c)) == Column(c);
    assert Spine(l) == Chain(Some((Column(a), eq)), Column(b));
  }
}
