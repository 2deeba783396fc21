/** Hash aggregation (exec/aggregate.go, exec/parallel.go): accumulators per group, the
    row-at-a-time and column-at-a-time folds, and the merge of partial results. */
module Aggregates {
  import opened Options
  import opened Batches
  import opened RowKeys
  import opened Arith

  // ---- Accumulators -------------------------------------------------------------------

  /** COUNT, integer SUM, and MIN/MAX over int64 images or over strings. */
  datatype Kind = Count | Sum | Min | Max | MinText | MaxText

  /** One aggregate: its kind and its source column, absent for COUNT(*). */
  datatype AggExpr = AggExpr(kind: Kind, col: Option<nat>)

  /** One group's state for one aggregate: the int64 accumulator, the count of non-null
      inputs, and the string accumulator. */
  datatype Acc = Acc(acc: int, nonNull: nat, str: string)

  const MAX_INT64: int := TWO63 - 1
  const MIN_INT64: int := -TWO63

  /** Two's-complement addition. */
  function Wrap(n: int): (w: int)
    ensures MIN_INT64 <= w <= MAX_INT64
  {
    (n + TWO63) % TWO64 - TWO63
  }

  function Init(k: Kind): Acc {
    Acc(if k.Min? then MAX_INT64 else if k.Max? then MIN_INT64 else 0, 0, "")
  }

  /** Byte-wise string order. */
  predicate Less(s: string, t: string) {
    t != [] && (s == [] || s[0] < t[0] || (s[0] == t[0] && Less(s[1..], t[1..])))
  }

  lemma {:induction false} LessTotal(s: string, t: string)
    ensures Less(s, t) || Less(t, s) || s == t
    ensures !(Less(s, t) && Less(t, s)) && !(Less(s, t) && s == t)
    decreases |s|
  {
    if s != [] && t != [] {
      LessTotal(s[1..], t[1..]);
      assert s == [s[0]] + s[1..] && t == [t[0]] + t[1..];
    }
  }

  lemma {:induction false} LessTransitive(s: string, t: string, u: string)
    ensures Less(s, t) && Less(t, u) ==> Less(s, u)
    decreases |s|
  {
    if s != [] && t != [] && u != [] {
      LessTransitive(s[1..], t[1..], u[1..]);
    }
  }

  /** The smaller (or greater) of two strings. */
  function Best(less: bool, s: string, t: string): string {
    if less then (if Less(t, s) then t else s) else (if Less(s, t) then t else s)
  }

  lemma {:induction false} BestLaws(less: bool, s: string, t: string, u: string)
    ensures Best(less, s, t) == Best(less, t, s)
    ensures Best(less, Best(less, s, t), u) == Best(less, s, Best(less, t, u))
  {
    LessTotal(s, t);
    LessTotal(t, u);
    LessTotal(s, u);
    LessTransitive(s, t, u);
    LessTransitive(s, u, t);
    LessTransitive(t, s, u);
    LessTransitive(t, u, s);
    LessTransitive(u, s, t);
    LessTransitive(u, t, s);
  }

  /** minMaxString: the first value of a group always wins, since "" is data. */
  function MinMaxString(cur: string, s: string, seen: bool, less: bool): string {
    if !seen then s else Best(less, cur, s)
  }

  /** The int64 image of a non-null cell; a string has none and reads as zero. */
  function Image(c: Cell): int {
    if c.Num? then c.bits else 0
  }

  function TextOf(c: Cell): string {
    if c.Text? then c.s else ""
  }

  /** foldRow for one aggregate: NULL inputs leave the group as it was. */
  function FoldCell(k: Kind, a: Acc, c: Cell): Acc {
    if c.Null? then a
    else
      var n := a.nonNull + 1;
      match k
      case Count => Acc(Wrap(a.acc + 1), n, a.str)
      case Sum => Acc(Wrap(a.acc + Image(c)), n, a.str)
      case Min => Acc(if Image(c) < a.acc then Image(c) else a.acc, n, a.str)
      case Max => Acc(if Image(c) > a.acc then Image(c) else a.acc, n, a.str)
      case MinText => Acc(a.acc, n, MinMaxString(a.str, TextOf(c), a.nonNull > 0, true))
      case MaxText => Acc(a.acc, n, MinMaxString(a.str, TextOf(c), a.nonNull > 0, false))
  }

  /** mergePartialAgg for one aggregate of a group both sides have. */
  function MergeAcc(k: Kind, dst: Acc, src: Acc): Acc {
    var n := dst.nonNull + src.nonNull;
    match k
    case Count => Acc(Wrap(dst.acc + src.acc), n, dst.str)
    case Sum => Acc(Wrap(dst.acc + src.acc), n, dst.str)
    case Min => Acc(if src.acc < dst.acc then src.acc else dst.acc, n, dst.str)
    case Max => Acc(if src.acc > dst.acc then src.acc else dst.acc, n, dst.str)
    case MinText =>
        Acc(dst.acc, n, if src.nonNull == 0 then dst.str else MinMaxString(dst.str, src.str, dst.nonNull > 0, true))
    case MaxText =>
        Acc(dst.acc, n, if src.nonNull == 0 then dst.str else MinMaxString(dst.str, src.str, dst.nonNull > 0, false))
  }

  /** A reachable accumulator: an int64, untouched until a value arrives, and never a
      string where the aggregate has none. */
  ghost predicate Sound(k: Kind, a: Acc) {
    && MIN_INT64 <= a.acc <= MAX_INT64
    && (a.nonNull == 0 ==> a == Init(k))
    && (k.MinText? || k.MaxText? ==> a.acc == 0)
    && (!(k.MinText? || k.MaxText?) ==> a.str == "")
  }

  lemma {:induction false} WrapAdd(a: int, x: int, y: int)
    ensures Wrap(Wrap(a + x) + y) == Wrap(a + x + y)
  {
    WrapStep(a + x, y);
  }

  lemma {:induction false} WrapStep(s: int, y: int)
    ensures Wrap(Wrap(s) + y) == Wrap(s + y)
  {
    var q := (s + TWO63) / TWO64;
    assert Wrap(s) == s - q * TWO64;
    ModShift(s + y + TWO63, -q);
  }

  lemma {:induction false} MergeWrap(d: int, s: int, x: int)
    ensures Wrap(d + Wrap(s + x)) == Wrap(Wrap(d + s) + x)
  {
    WrapStep(s + x, d);
    WrapStep(d + s, x);
  }

  lemma {:induction false} ModShift(n: int, q: int)
    ensures (n + q * TWO64) % TWO64 == n % TWO64
  {
    var d, r := n / TWO64, n % TWO64;
    assert n + q * TWO64 == (d + q) * TWO64 + r;
    ModUnique(n + q * TWO64, d + q, r);
  }

  lemma {:induction false} ModUnique(n: int, d: int, r: int)
    requires n == d * TWO64 + r && 0 <= r < TWO64
    ensures n % TWO64 == r
  {
  }

  lemma {:induction false} FoldSound(k: Kind, a: Acc, c: Cell)
    requires Sound(k, a) && Storable(c)
    ensures Sound(k, FoldCell(k, a, c))
  {
  }

  lemma {:induction false} TextCommutes(less: bool, cur: string, s: string, t: string, seen: bool)
    ensures MinMaxString(MinMaxString(cur, s, seen, less), t, true, less) ==
      MinMaxString(MinMaxString(cur, t, seen, less), s, true, less)
  {
    BestLaws(less, cur, s, t);
    BestLaws(less, s, t, cur);
    BestLaws(less, cur, t, s);
  }

  /** Two inputs may be folded in either order. */
  lemma {:induction false} FoldCommutes(k: Kind, a: Acc, c: Cell, d: Cell)
    ensures FoldCell(k, FoldCell(k, a, c), d) == FoldCell(k, FoldCell(k, a, d), c)
  {
    if !c.Null? && !d.Null? {
      match k
      case Sum =>
        WrapAdd(a.acc, Image(c), Image(d));
        WrapAdd(a.acc, Image(d), Image(c));
      case MinText => TextCommutes(true, a.str, TextOf(c), TextOf(d), a.nonNull > 0);
      case MaxText => TextCommutes(false, a.str, TextOf(c), TextOf(d), a.nonNull > 0);
      case _ =>
    }
  }

  lemma {:induction false} MergeFoldSum(k: Kind, dst: Acc, src: Acc, c: Cell)
    requires (k.Count? || k.Sum?) && !c.Null?
    ensures MergeAcc(k, dst, FoldCell(k, src, c)) == FoldCell(k, MergeAcc(k, dst, src), c)
  {
    MergeWrap(dst.acc, src.acc, if k.Count? then 1 else Image(c));
  }

  lemma {:induction false} MergeFoldText(k: Kind, dst: Acc, src: Acc, c: Cell)
    requires (k.MinText? || k.MaxText?) && !c.Null?
    ensures MergeAcc(k, dst, FoldCell(k, src, c)) == FoldCell(k, MergeAcc(k, dst, src), c)
  {
    BestLaws(k.MinText?, dst.str, src.str, TextOf(c));
  }

  /** Folding a value into the source of a merge is folding it into the result. */
  lemma {:induction false} MergeFold(k: Kind, dst: Acc, src: Acc, c: Cell)
    ensures MergeAcc(k, dst, FoldCell(k, src, c)) == FoldCell(k, MergeAcc(k, dst, src), c)
  {
    if !c.Null? {
      if k.Count? || k.Sum? {
        MergeFoldSum(k, dst, src, c);
      } else if k.MinText? || k.MaxText? {
        MergeFoldText(k, dst, src, c);
      }
    }
  }

  /** A partial that saw nothing but NULLs changes nothing. */
  lemma {:induction false} MergeInit(k: Kind, a: Acc)
    requires Sound(k, a)
    ensures MergeAcc(k, a, Init(k)) == a && MergeAcc(k, Init(k), a) == a
  {
  }

  // ---- Groups ---------------------------------------------------------------------------

  /** What aggregation reads of a row: its GROUP BY cells and one input an aggregate. */
  datatype InRow = InRow(group: seq<Cell>, inputs: seq<Cell>)

  /** A group's representative GROUP BY values and accumulators. */
  datatype Group = Group(sample: seq<Cell>, accs: seq<Acc>)

  type Groups = map<Bytes, Group>

  function KeyOf(row: InRow): Bytes {
    Encode(row.group)
  }

  function InputAt(row: InRow, j: nat): Cell {
    if j < |row.inputs| then row.inputs[j] else Null
  }

  function InitAccs(kinds: seq<Kind>): seq<Acc> {
    seq(|kinds|, j requires 0 <= j < |kinds| => Init(kinds[j]))
  }

  function FoldRow(kinds: seq<Kind>, accs: seq<Acc>, row: InRow): (out: seq<Acc>)
    requires |accs| == |kinds|
    ensures |out| == |kinds|
  {
    seq(|kinds|, j requires 0 <= j < |kinds| => FoldCell(kinds[j], accs[j], InputAt(row, j)))
  }

  /** The group under key k with one row folded in; the row opens it if it is the first. */
  function FoldedAt(kinds: seq<Kind>, m: Groups, k: Bytes, row: InRow): Group {
    if k in m && |m[k].accs| == |kinds| then Group(m[k].sample, FoldRow(kinds, m[k].accs, row))
    else Group(row.group, FoldRow(kinds, InitAccs(kinds), row))
  }

  /** One row folded into its group. */
  function Step(kinds: seq<Kind>, m: Groups, row: InRow): Groups {
    m[KeyOf(row) := FoldedAt(kinds, m, KeyOf(row), row)]
  }

  /** The reference: rows folded one by one, in order. */
  function FoldGroups(kinds: seq<Kind>, m: Groups, rows: seq<InRow>): Groups {
    if rows == [] then m else Step(kinds, FoldGroups(kinds, m, rows[..|rows| - 1]), rows[|rows| - 1])
  }

  lemma {:induction false} FoldConcat(kinds: seq<Kind>, m: Groups, xs: seq<InRow>, ys: seq<InRow>)
    ensures FoldGroups(kinds, m, xs + ys) == FoldGroups(kinds, FoldGroups(kinds, m, xs), ys)
  {
    if ys == [] {
      assert xs + ys == xs;
    } else {
      assert (xs + ys)[..|xs + ys| - 1] == xs + ys[..|ys| - 1];
      FoldConcat(kinds, m, xs, ys[..|ys| - 1]);
    }
  }

  ghost predicate RowOk(row: InRow) {
    AllStorable(row.group) && AllStorable(row.inputs)
  }

  ghost predicate RowsOk(rows: seq<InRow>) {
    forall i :: 0 <= i < |rows| ==> RowOk(rows[i])
  }

  ghost predicate SoundAccs(kinds: seq<Kind>, accs: seq<Acc>) {
    |accs| == |kinds| && forall j :: 0 <= j < |kinds| ==> Sound(kinds[j], accs[j])
  }

  /** Every group is reachable, and sits under the key of its sample. */
  ghost predicate SoundGroups(kinds: seq<Kind>, m: Groups) {
    forall k :: k in m ==> SoundAccs(kinds, m[k].accs) && AllStorable(m[k].sample) && Encode(m[k].sample) == k
  }

  lemma {:induction false} FoldRowSound(kinds: seq<Kind>, accs: seq<Acc>, row: InRow)
    requires SoundAccs(kinds, accs) && RowOk(row)
    ensures SoundAccs(kinds, FoldRow(kinds, accs, row))
  {
    forall j | 0 <= j < |kinds| ensures Sound(kinds[j], FoldRow(kinds, accs, row)[j]) {
      FoldSound(kinds[j], accs[j], InputAt(row, j));
    }
  }

  lemma {:induction false} StepSound(kinds: seq<Kind>, m: Groups, row: InRow)
    requires SoundGroups(kinds, m) && RowOk(row)
    ensures SoundGroups(kinds, Step(kinds, m, row))
  {
    var k := KeyOf(row);
    FoldRowSound(kinds, if k in m then m[k].accs else InitAccs(kinds), row);
  }

  lemma {:induction false} FoldGroupsSound(kinds: seq<Kind>, m: Groups, rows: seq<InRow>)
    requires SoundGroups(kinds, m) && RowsOk(rows)
    ensures SoundGroups(kinds, FoldGroups(kinds, m, rows))
  {
    if rows != [] {
      FoldGroupsSound(kinds, m, rows[..|rows| - 1]);
      StepSound(kinds, FoldGroups(kinds, m, rows[..|rows| - 1]), rows[|rows| - 1]);
    }
  }

  // ---- Order does not matter --------------------------------------------------------------

  lemma {:induction false} FoldRowCommutes(kinds: seq<Kind>, accs: seq<Acc>, x: InRow, y: InRow)
    requires |accs| == |kinds|
    ensures FoldRow(kinds, FoldRow(kinds, accs, x), y) == FoldRow(kinds, FoldRow(kinds, accs, y), x)
  {
    forall j | 0 <= j < |kinds|
      ensures FoldRow(kinds, FoldRow(kinds, accs, x), y)[j] == FoldRow(kinds, FoldRow(kinds, accs, y), x)[j]
    {
      FoldCommutes(kinds[j], accs[j], InputAt(x, j), InputAt(y, j));
    }
  }

  /** Rows may be folded in either order: rows of one group share their GROUP BY values,
      because keys determine them. */
  lemma {:induction false} StepCommutes(kinds: seq<Kind>, m: Groups, x: InRow, y: InRow)
    requires RowOk(x) && RowOk(y)
    ensures Step(kinds, Step(kinds, m, x), y) == Step(kinds, Step(kinds, m, y), x)
  {
    var k := KeyOf(x);
    if k == KeyOf(y) {
      EncodeInjective(x.group, y.group);
      FoldRowCommutes(kinds, if k in m && |m[k].accs| == |kinds| then m[k].accs else InitAccs(kinds), x, y);
    }
  }

  /** A row may be folded before or after any others. */
  lemma {:induction false} FoldPast(kinds: seq<Kind>, m: Groups, y: InRow, zs: seq<InRow>)
    requires RowOk(y) && RowsOk(zs)
    ensures FoldGroups(kinds, Step(kinds, m, y), zs) == Step(kinds, FoldGroups(kinds, m, zs), y)
  {
    if zs != [] {
      FoldPast(kinds, m, y, zs[..|zs| - 1]);
      StepCommutes(kinds, FoldGroups(kinds, m, zs[..|zs| - 1]), y, zs[|zs| - 1]);
    }
  }

  lemma {:induction false} FoldSnoc(kinds: seq<Kind>, m: Groups, init: seq<InRow>, last: InRow)
    ensures FoldGroups(kinds, m, init + [last]) == Step(kinds, FoldGroups(kinds, m, init), last)
  {
    assert (init + [last])[..|init|] == init;
  }

  lemma {:induction false} MoveToEnd(kinds: seq<Kind>, m: Groups, ys: seq<InRow>, i: nat)
    requires RowsOk(ys) && i < |ys|
    ensures FoldGroups(kinds, m, ys) == Step(kinds, FoldGroups(kinds, m, ys[..i] + ys[i + 1..]), ys[i])
  {
    var init, y, rest := ys[..i], ys[i], ys[i + 1..];
    assert ys == init + [y] + rest;
    FoldConcat(kinds, m, init, rest);
    FoldConcat(kinds, m, init + [y], rest);
    FoldSnoc(kinds, m, init, y);
    FoldPast(kinds, FoldGroups(kinds, m, init), y, rest);
  }

  lemma {:induction false} Cancel<T>(a: multiset<T>, b: multiset<T>, c: multiset<T>)
    requires a + c == b + c
    ensures a == b
  {
    forall x ensures a[x] == b[x] {
      assert (a + c)[x] == (b + c)[x];
    }
  }

  lemma {:induction false} WithoutOne<T>(xs: seq<T>, ys: seq<T>, i: nat)
    requires xs != [] && i < |ys| && ys[i] == xs[|xs| - 1] && multiset(xs) == multiset(ys)
    ensures multiset(xs[..|xs| - 1]) == multiset(ys[..i] + ys[i + 1..])
  {
    var x, init, rest := ys[i], xs[..|xs| - 1], ys[..i] + ys[i + 1..];
    assert xs == init + [x];
    assert ys == ys[..i] + [x] + ys[i + 1..];
    assert multiset(ys) == multiset(rest) + multiset{x};
    Cancel(multiset(init), multiset(rest), multiset{x});
  }

  /** The groups depend only on which rows were folded, not on their order. */
  lemma {:induction false} FoldPermutation(kinds: seq<Kind>, m: Groups, xs: seq<InRow>, ys: seq<InRow>)
    requires multiset(xs) == multiset(ys) && RowsOk(ys)
    ensures FoldGroups(kinds, m, xs) == FoldGroups(kinds, m, ys)
  {
    if xs == [] {
      assert |multiset(ys)| == 0;
    } else {
      var x := xs[|xs| - 1];
      assert x in multiset(ys);
      var i :| 0 <= i < |ys| && ys[i] == x;
      WithoutOne(xs, ys, i);
      FoldPermutation(kinds, m, xs[..|xs| - 1], ys[..i] + ys[i + 1..]);
      MoveToEnd(kinds, m, ys, i);
    }
  }

  // ---- Merging partials ---------------------------------------------------------------------

  function MergeAccs(kinds: seq<Kind>, dst: seq<Acc>, src: seq<Acc>): (out: seq<Acc>)
    requires |dst| == |src| == |kinds|
    ensures |out| == |kinds|
  {
    seq(|kinds|, j requires 0 <= j < |kinds| => MergeAcc(kinds[j], dst[j], src[j]))
  }

  function MergeGroup(kinds: seq<Kind>, dst: Group, src: Group): Group {
    if |dst.accs| == |src.accs| == |kinds| then Group(dst.sample, MergeAccs(kinds, dst.accs, src.accs)) else dst
  }

  /** mergePartialAgg on whole states: groups of one side are copied, groups of both
      are combined. */
  function MergeGroups(kinds: seq<Kind>, dst: Groups, src: Groups): Groups {
    map k | k in dst.Keys + src.Keys ::
      if k in dst && k in src then MergeGroup(kinds, dst[k], src[k]) else if k in dst then dst[k] else src[k]
  }

  lemma {:induction false} MergeRow(kinds: seq<Kind>, dst: seq<Acc>, src: seq<Acc>, row: InRow)
    requires SoundAccs(kinds, dst) && SoundAccs(kinds, src)
    ensures MergeAccs(kinds, dst, FoldRow(kinds, src, row)) == FoldRow(kinds, MergeAccs(kinds, dst, src), row)
  {
    forall j | 0 <= j < |kinds|
      ensures MergeAccs(kinds, dst, FoldRow(kinds, src, row))[j] == FoldRow(kinds, MergeAccs(kinds, dst, src), row)[j]
    {
      MergeFold(kinds[j], dst[j], src[j], InputAt(row, j));
    }
  }

  lemma {:induction false} MergeNew(kinds: seq<Kind>, dst: seq<Acc>)
    requires SoundAccs(kinds, dst)
    ensures SoundAccs(kinds, InitAccs(kinds)) && MergeAccs(kinds, dst, InitAccs(kinds)) == dst
  {
    forall j | 0 <= j < |kinds| ensures MergeAccs(kinds, dst, InitAccs(kinds))[j] == dst[j] {
      MergeInit(kinds[j], dst[j]);
    }
  }

  /** The merged group under key k, after one more row on the source's side. */
  lemma {:induction false} MergeGroupAt(kinds: seq<Kind>, dst: Groups, src: Groups, k: Bytes, row: InRow)
    requires k in dst ==> SoundAccs(kinds, dst[k].accs)
    requires k in src ==> SoundAccs(kinds, src[k].accs)
    ensures FoldedAt(kinds, MergeGroups(kinds, dst, src), k, row) ==
      if k in dst then MergeGroup(kinds, dst[k], FoldedAt(kinds, src, k, row)) else FoldedAt(kinds, src, k, row)
  {
    if k in dst && k in src {
      MergeRow(kinds, dst[k].accs, src[k].accs, row);
    } else if k in dst {
      MergeNew(kinds, dst[k].accs);
      MergeRow(kinds, dst[k].accs, InitAccs(kinds), row);
    }
  }

  lemma {:induction false} MergeUpdate(kinds: seq<Kind>, dst: Groups, src: Groups, k: Bytes, g: Group)
    ensures MergeGroups(kinds, dst, src[k := g]) ==
      MergeGroups(kinds, dst, src)[k := if k in dst then MergeGroup(kinds, dst[k], g) else g]
  {
    assert dst.Keys + src[k := g].Keys == (dst.Keys + src.Keys) + {k};
  }

  lemma {:induction false} MergeStep(kinds: seq<Kind>, dst: Groups, src: Groups, row: InRow)
    requires SoundGroups(kinds, dst) && SoundGroups(kinds, src)
    ensures MergeGroups(kinds, dst, Step(kinds, src, row)) == Step(kinds, MergeGroups(kinds, dst, src), row)
  {
    var k := KeyOf(row);
    MergeGroupAt(kinds, dst, src, k, row);
    MergeUpdate(kinds, dst, src, k, FoldedAt(kinds, src, k, row));
  }

  /** Merging a partial is folding the rows it was made of. */
  lemma {:induction false} MergeIsFold(kinds: seq<Kind>, m: Groups, ys: seq<InRow>)
    requires SoundGroups(kinds, m) && RowsOk(ys)
    ensures MergeGroups(kinds, m, FoldGroups(kinds, map[], ys)) == FoldGroups(kinds, m, ys)
  {
    if ys == [] {
      assert MergeGroups(kinds, m, map[]) == m;
    } else {
      var init, last := ys[..|ys| - 1], ys[|ys| - 1];
      MergeIsFold(kinds, m, init);
      FoldGroupsSound(kinds, map[], init);
      MergeStep(kinds, m, FoldGroups(kinds, map[], init), last);
    }
  }
}
