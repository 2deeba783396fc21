/** Morsel pipelines and their reuse (exec/morsel.go, exec/filter.go, exec/join.go,
    exec/scan.go): operators as a tree of states, repositioned by Reset, and the runner
    that hands one to a worker for each morsel it claims. */
module Morsels {
  import opened Options
  import opened Arith
  import opened Batches
  import opened Scans
  import opened Seqs

  type Row = seq<Cell>

  /** A buffered join match: a build row and the index of a row in the probe batch. */
  datatype Hit = Hit(build: Row, probe: nat)

  datatype Node =
    | Scan(groups: seq<seq<Row>>, keep: seq<bool>, rgIdx: nat, rgEnd: nat, open: bool, pos: nat)
    | Filter(child: Node, passes: Row -> bool, sel: seq<nat>)
    | Project(child: Node, f: Row -> Row)
    | Join(probe: Node, selfBuilding: bool, lookup: Row -> seq<Row>, batch: seq<Row>, buf: seq<Hit>, matchPos: nat)
    | Other(child: Node)

  // ---- What a pipeline is still to emit -----------------------------------------------------

  ghost predicate Sound(n: Node) {
    match n
    case Scan(groups, keep, rgIdx, rgEnd, open, pos) =>
      |keep| == |groups| && rgEnd <= |groups| && (open ==> rgIdx < rgEnd && pos <= |groups[rgIdx]|)
    case Filter(c, _, _) => Sound(c)
    case Project(c, _) => Sound(c)
    case Join(p, _, _, batch, buf, matchPos) =>
        Sound(p) && matchPos <= |buf| && forall i :: 0 <= i < |buf| ==> buf[i].probe < |batch|
    case Other(c) => Sound(c)
  }

  function ScanFrom(groups: seq<seq<Row>>, keep: seq<bool>, i: nat, rgEnd: nat): seq<Row>
    requires |keep| == |groups| && rgEnd <= |groups|
  {
    if i >= rgEnd then [] else Kept(groups[i..rgEnd], keep[i..rgEnd])
  }

  function MapRows(rows: seq<Row>, f: Row -> Row): seq<Row> {
    seq(|rows|, i requires 0 <= i < |rows| => f(rows[i]))
  }

  function Joined(rows: seq<Row>, lookup: Row -> seq<Row>): seq<Row> {
    if rows == [] then [] else Joined(rows[..|rows| - 1], lookup) + Beside(lookup(rows[|rows| - 1]), rows[|rows| - 1])
  }

  /** Buffered matches, read through the probe batch they were made from. */
  function Buffered(buf: seq<Hit>, batch: seq<Row>): seq<Row>
    requires forall i :: 0 <= i < |buf| ==> buf[i].probe < |batch|
  {
    seq(|buf|, i requires 0 <= i < |buf| => buf[i].build + batch[buf[i].probe])
  }

  function Emits(n: Node): seq<Row>
    requires Sound(n)
  {
    match n
    case Scan(groups, keep, rgIdx, rgEnd, open, pos) =>
      if open then groups[rgIdx][pos..] + ScanFrom(groups, keep, rgIdx + 1, rgEnd)
      else ScanFrom(groups, keep, rgIdx, rgEnd)
    case Filter(c, passes, _) => Sift(Emits(c), passes)
    case Project(c, f) => MapRows(Emits(c), f)
    case Join(p, _, lookup, batch, buf, matchPos) => Buffered(buf[matchPos..], batch) + Joined(Emits(p), lookup)
    case Other(c) => Emits(c)
  }

  lemma {:induction false} JoinedConcat(xs: seq<Row>, ys: seq<Row>, lookup: Row -> seq<Row>)
    ensures Joined(xs + ys, lookup) == Joined(xs, lookup) + Joined(ys, lookup)
  {
    if ys == [] {
      assert xs + ys == xs;
    } else {
      assert (xs + ys)[..|xs + ys| - 1] == xs + ys[..|ys| - 1];
      JoinedConcat(xs, ys[..|ys| - 1], lookup);
      ConcatAssoc(Joined(xs, lookup), Joined(ys[..|ys| - 1], lookup), Beside(lookup(ys[|ys| - 1]), ys[|ys| - 1]));
    }
  }

  // ---- Pulling a batch -------------------------------------------------------------------------

  /** The matches of a probe batch, in row order. */
  function Matches(batch: seq<Row>, lookup: Row -> seq<Row>, n: nat): (ms: seq<Hit>)
    requires n <= |batch|
    ensures forall i :: 0 <= i < |ms| ==> ms[i].probe < n
  {
    if n == 0 then []
    else
      var builds := lookup(batch[n - 1]);
      Matches(batch, lookup, n - 1) + seq(|builds|, i requires 0 <= i < |builds| => Hit(builds[i], n - 1))
  }

  lemma {:induction false} BufferedConcat(xs: seq<Hit>, ys: seq<Hit>, batch: seq<Row>)
    requires forall i :: 0 <= i < |xs| ==> xs[i].probe < |batch|
    requires forall i :: 0 <= i < |ys| ==> ys[i].probe < |batch|
    ensures forall i :: 0 <= i < |xs + ys| ==> (xs + ys)[i].probe < |batch|
    ensures Buffered(xs + ys, batch) == Buffered(xs, batch) + Buffered(ys, batch)
  {
  }

  lemma {:induction false} MatchesJoin(batch: seq<Row>, lookup: Row -> seq<Row>, n: nat)
    requires n <= |batch|
    ensures Buffered(Matches(batch, lookup, n), batch) == Joined(batch[..n], lookup)
  {
    if n > 0 {
      MatchesJoin(batch, lookup, n - 1);
      var builds := lookup(batch[n - 1]);
      var last := seq(|builds|, i requires 0 <= i < |builds| => Hit(builds[i], n - 1));
      BufferedConcat(Matches(batch, lookup, n - 1), last, batch);
      assert Buffered(last, batch) == Beside(builds, batch[n - 1]);
      assert batch[..n][..n - 1] == batch[..n - 1];
    }
  }

  /** The selected rows of a batch, by index. */
  function Selection(rows: seq<Row>, passes: Row -> bool, n: nat): (sel: seq<nat>)
    requires n <= |rows|
    ensures forall i :: 0 <= i < |sel| ==> sel[i] < n
  {
    if n == 0 then [] else Selection(rows, passes, n - 1) + if passes(rows[n - 1]) then [n - 1] else []
  }

  function AtRows(rows: seq<Row>, sel: seq<nat>): seq<Row>
    requires forall i :: 0 <= i < |sel| ==> sel[i] < |rows|
  {
    seq(|sel|, i requires 0 <= i < |sel| => rows[sel[i]])
  }

  lemma {:induction false} SelectionPasses(rows: seq<Row>, passes: Row -> bool, n: nat)
    requires n <= |rows|
    ensures AtRows(rows, Selection(rows, passes, n)) == Sift(rows[..n], passes)
  {
    if n > 0 {
      SelectionPasses(rows, passes, n - 1);
      assert rows[..n][..n - 1] == rows[..n - 1];
    }
  }

  function Depth(n: Node): nat {
    match n
    case Scan(_, _, _, _, _, _) => 0
    case Filter(c, _, _) => Depth(c) + 1
    case Project(c, _) => Depth(c) + 1
    case Join(p, _, _, _, _, _) => Depth(p) + 1
    case Other(c) => Depth(c) + 1
  }

  /** Row groups a scan has still to visit. */
  function GroupsLeft(n: Node): nat {
    if n.Scan? && n.rgIdx < n.rgEnd then n.rgEnd - n.rgIdx else 0
  }

  /** A block of a scan's current row group. */
  function NextScan(n: Node): (r: (Node, Option<seq<Row>>))
    requires n.Scan? && Sound(n)
    decreases GroupsLeft(n), !n.open
  {
    if !n.open then
      if n.rgIdx >= n.rgEnd then (n, None)
      else if !n.keep[n.rgIdx] then NextScan(n.(rgIdx := n.rgIdx + 1))
      else NextScan(n.(open := true, pos := 0))
    else
      var rows := n.groups[n.rgIdx];
      if n.pos == |rows| then NextScan(n.(open := false, rgIdx := n.rgIdx + 1))
      else
        var end := if n.pos + BLOCK_ROWS > |rows| then |rows| else n.pos + BLOCK_ROWS;
        (n.(pos := end), Some(rows[n.pos..end]))
  }

  /** What every pull promises: the emitted rows come off the front of what is pending,
      and the end means that nothing is. */
  ghost predicate Pulled(n: Node, r: (Node, Option<seq<Row>>))
    requires Sound(n)
  {
    && Sound(r.0) && Depth(r.0) == Depth(n)
    && (r.1.None? ==> Emits(n) == [] && Emits(r.0) == [])
    && (r.1.Some? ==> r.1.value != [] && r.1.value + Emits(r.0) == Emits(n))
  }

  lemma {:induction false} ScanFromStep(groups: seq<seq<Row>>, keep: seq<bool>, i: nat, rgEnd: nat)
    requires |keep| == |groups| && i < rgEnd <= |groups|
    ensures ScanFrom(groups, keep, i, rgEnd) ==
      (if keep[i] then groups[i] else []) + ScanFrom(groups, keep, i + 1, rgEnd)
  {
    var gs, ks := groups[i..rgEnd], keep[i..rgEnd];
    assert gs[0] == groups[i] && ks[0] == keep[i];
    assert gs[1..] == groups[i + 1..rgEnd] && ks[1..] == keep[i + 1..rgEnd];
    assert Kept(gs, ks) == (if ks[0] then gs[0] else []) + Kept(gs[1..], ks[1..]);
  }

  lemma {:induction false} NextScanPulls(n: Node)
    requires n.Scan? && Sound(n)
    ensures Pulled(n, NextScan(n)) && NextScan(n).0.Scan?
    decreases GroupsLeft(n), !n.open
  {
    if !n.open {
      if n.rgIdx < n.rgEnd {
        ScanFromStep(n.groups, n.keep, n.rgIdx, n.rgEnd);
        if !n.keep[n.rgIdx] {
          NextScanPulls(n.(rgIdx := n.rgIdx + 1));
        } else {
          assert n.groups[n.rgIdx][0..] == n.groups[n.rgIdx];
          NextScanPulls(n.(open := true, pos := 0));
        }
      }
    } else {
      var rows := n.groups[n.rgIdx];
      if n.pos == |rows| {
        NextScanPulls(n.(open := false, rgIdx := n.rgIdx + 1));
      } else {
        var end := if n.pos + BLOCK_ROWS > |rows| then |rows| else n.pos + BLOCK_ROWS;
        assert rows[n.pos..] == rows[n.pos..end] + rows[end..];
        ConcatAssoc(rows[n.pos..end], rows[end..], ScanFrom(n.groups, n.keep, n.rgIdx + 1, n.rgEnd));
      }
    }
  }

  /** A filtered batch: what it selects, and what stays pending. */
  lemma {:induction false} FilterPull(c: Node, c': Node, block: seq<Row>, passes: Row -> bool)
    requires Sound(c) && Sound(c') && block + Emits(c') == Emits(c)
    ensures AtRows(block, Selection(block, passes, |block|)) + Sift(Emits(c'), passes) == Sift(Emits(c), passes)
  {
    SiftConcat(block, Emits(c'), passes);
    SelectionPasses(block, passes, |block|);
    assert block[..|block|] == block;
  }

  lemma {:induction false} ProjectPull(c: Node, c': Node, block: seq<Row>, f: Row -> Row)
    requires Sound(c) && Sound(c') && block + Emits(c') == Emits(c)
    ensures MapRows(block, f) + MapRows(Emits(c'), f) == MapRows(Emits(c), f)
  {
    var all := Emits(c);
    assert forall i :: 0 <= i < |all| ==> all[i] == if i < |block| then block[i] else Emits(c')[i - |block|];
  }

  lemma {:induction false} ProbePull(p: Node, p': Node, block: seq<Row>, lookup: Row -> seq<Row>)
    requires Sound(p) && Sound(p') && block + Emits(p') == Emits(p)
    ensures var buf := Matches(block, lookup, |block|);
      Buffered(buf[0..], block) + Joined(Emits(p'), lookup) == Joined(Emits(p), lookup)
  {
    var buf := Matches(block, lookup, |block|);
    assert buf[0..] == buf && block[..|block|] == block;
    JoinedConcat(block, Emits(p'), lookup);
    MatchesJoin(block, lookup, |block|);
  }

  lemma {:induction false} EmitPull(n: Node, end: nat)
    requires n.Join? && Sound(n) && n.matchPos <= end <= |n.buf|
    ensures Buffered(n.buf[n.matchPos..end], n.batch) + Emits(n.(matchPos := end)) == Emits(n)
  {
    var xs, ys := n.buf[n.matchPos..end], n.buf[end..];
    assert n.buf[n.matchPos..] == xs + ys;
    BufferedConcat(xs, ys, n.batch);
    ConcatAssoc(Buffered(xs, n.batch), Buffered(ys, n.batch), Joined(Emits(n.probe), n.lookup));
  }

  /** What bounds the batches an operator may still pull from below. */
  ghost function Below(n: Node): nat
    requires Sound(n)
  {
    match n
    case Scan(_, _, _, _, _, _) => 0
    case Filter(c, _, _) => |Emits(c)|
    case Project(c, _) => |Emits(c)|
    case Join(p, _, _, _, _, _) => |Emits(p)|
    case Other(c) => |Emits(c)|
  }

  /** Pulling from n went through n', which has the same rows pending. */
  lemma {:induction false} PulledThrough(n: Node, n': Node, r: (Node, Option<seq<Row>>))
    requires Sound(n) && Sound(n') && Depth(n') == Depth(n) && Emits(n') == Emits(n) && Pulled(n', r)
    ensures Pulled(n, r)
  {
  }

  /** A filter's batch after its child's. */
  lemma {:induction false} FilterPulls(n: Node, c': Node, block: seq<Row>)
    requires n.Filter? && Sound(n) && Pulled(n.child, (c', Some(block)))
    ensures var sel := Selection(block, n.passes, |block|);
      var n' := Filter(c', n.passes, sel);
      && Sound(n') && Depth(n') == Depth(n) && Below(n') < Below(n)
      && (sel == [] ==> Emits(n') == Emits(n))
      && (sel != [] ==> Pulled(n, (n', Some(AtRows(block, sel)))))
  {
    FilterPull(n.child, c', block, n.passes);
  }

  lemma {:induction false} FilterEnds(n: Node, c': Node)
    requires n.Filter? && Sound(n) && Pulled(n.child, (c', None))
    ensures Pulled(n, (Filter(c', n.passes, n.sel), None))
  {
  }

  lemma {:induction false} ProjectPulls(n: Node, c': Node, b: Option<seq<Row>>)
    requires n.Project? && Sound(n) && Pulled(n.child, (c', b))
    ensures Pulled(n, (Project(c', n.f), if b.None? then None else Some(MapRows(b.value, n.f))))
  {
    if b.Some? {
      ProjectPull(n.child, c', b.value, n.f);
    }
  }

  lemma {:induction false} EmitPulls(n: Node, end: nat)
    requires n.Join? && Sound(n) && n.matchPos < end <= |n.buf|
    ensures Pulled(n, (n.(matchPos := end), Some(Buffered(n.buf[n.matchPos..end], n.batch))))
  {
    EmitPull(n, end);
  }

  /** A join whose buffer is spent, after its probe's batch. */
  lemma {:induction false} ProbePulls(n: Node, p': Node, block: seq<Row>)
    requires n.Join? && Sound(n) && n.matchPos == |n.buf| && Pulled(n.probe, (p', Some(block)))
    ensures var n' := Join(p', n.selfBuilding, n.lookup, block, Matches(block, n.lookup, |block|), 0);
      Sound(n') && Depth(n') == Depth(n) && Below(n') < Below(n) && Emits(n') == Emits(n)
  {
    ProbePull(n.probe, p', block, n.lookup);
    assert n.buf[n.matchPos..] == [];
  }

  lemma {:induction false} ProbeEnds(n: Node, p': Node)
    requires n.Join? && Sound(n) && n.matchPos == |n.buf| && Pulled(n.probe, (p', None))
    ensures Pulled(n, (Join(p', n.selfBuilding, n.lookup, n.batch, n.buf, n.matchPos), None))
  {
    assert n.buf[n.matchPos..] == [];
  }

  /** The operators' Next: a filter or a join goes on to the next batch while it has
      nothing to emit. */
  function Next(n: Node): (r: (Node, Option<seq<Row>>))
    requires Sound(n)
    ensures Pulled(n, r)
    decreases Depth(n), Below(n)
  {
    match n
    case Scan(_, _, _, _, _, _) =>
      NextScanPulls(n);
      NextScan(n)
    case Filter(c, passes, sel) =>
      var (c', b) := Next(c);
      if b.None? then
        FilterEnds(n, c');
        (Filter(c', passes, sel), None)
      else
        FilterPulls(n, c', b.value);
        var sel' := Selection(b.value, passes, |b.value|);
        var n' := Filter(c', passes, sel');
        if sel' != [] then (n', Some(AtRows(b.value, sel')))
        else
          var r := Next(n');
          PulledThrough(n, n', r);
          r
    case Project(c, f) =>
      var (c', b) := Next(c);
      ProjectPulls(n, c', b);
      (Project(c', f), if b.None? then None else Some(MapRows(b.value, f)))
    case Join(p, own, lookup, batch, buf, matchPos) =>
      if matchPos < |buf| then
        var end := if matchPos + BLOCK_ROWS > |buf| then |buf| else matchPos + BLOCK_ROWS;
        EmitPulls(n, end);
        (n.(matchPos := end), Some(Buffered(buf[matchPos..end], batch)))
      else
        var (p', b) := Next(p);
        if b.None? then
          ProbeEnds(n, p');
          (Join(p', own, lookup, batch, buf, matchPos), None)
        else
          ProbePulls(n, p', b.value);
          var n' := Join(p', own, lookup, b.value, Matches(b.value, lookup, |b.value|), 0);
          var r := Next(n');
          PulledThrough(n, n', r);
          r
    case Other(c) =>
      var (c', b) := Next(c);
      (Other(c'), b)
  }

  // ---- Reset ------------------------------------------------------------------------------------

  /** reusableMorselPipeline: every operator can be repositioned; a join must probe a
      shared table. */
  predicate Reusable(n: Node) {
    match n
    case Scan(_, _, _, _, _, _) => true
    case Filter(c, _, _) => Reusable(c)
    case Project(c, _) => Reusable(c)
    case Join(p, own, _, _, _, _) => !own && Reusable(p)
    case Other(_) => false
  }

  /** Repositions a pipeline onto row groups [rgStart, rgEnd). */
  function Reset(n: Node, rgStart: nat, rgEnd: nat): Node
    requires Reusable(n)
  {
    match n
    case Scan(groups, keep, _, _, _, _) => Scan(groups, keep, rgStart, rgEnd, false, n.pos)
    case Filter(c, passes, _) => Filter(Reset(c, rgStart, rgEnd), passes, [])
    case Project(c, f) => Project(Reset(c, rgStart, rgEnd), f)
    case Join(p, own, lookup, _, _, _) => Join(Reset(p, rgStart, rgEnd), own, lookup, [], [], 0)
  }

  /** A freshly built pipeline of the same operators over a range. */
  function Build(n: Node, rgStart: nat, rgEnd: nat): Node {
    match n
    case Scan(groups, keep, _, _, _, _) => Scan(groups, keep, rgStart, rgEnd, false, 0)
    case Filter(c, passes, _) => Filter(Build(c, rgStart, rgEnd), passes, [])
    case Project(c, f) => Project(Build(c, rgStart, rgEnd), f)
    case Join(p, own, lookup, _, _, _) => Join(Build(p, rgStart, rgEnd), own, lookup, [], [], 0)
    case Other(c) => Other(Build(c, rgStart, rgEnd))
  }

  /** The same operators, whatever state they are in. */
  ghost predicate SameShape(n: Node, m: Node) {
    Build(n, 0, 0) == Build(m, 0, 0)
  }

  /** The row groups a pipeline's scan can be placed on. */
  function NumGroups(n: Node): nat {
    match n
    case Scan(groups, keep, _, _, _, _) => if |keep| == |groups| then |groups| else 0
    case Filter(c, _, _) => NumGroups(c)
    case Project(c, _) => NumGroups(c)
    case Join(p, _, _, _, _, _) => NumGroups(p)
    case Other(c) => NumGroups(c)
  }

  ghost predicate Wired(n: Node) {
    match n
    case Scan(groups, keep, _, _, _, _) => |keep| == |groups|
    case Filter(c, _, _) => Wired(c)
    case Project(c, _) => Wired(c)
    case Join(p, _, _, _, _, _) => Wired(p)
    case Other(c) => Wired(c)
  }

  // ---- Which rows a range yields ------------------------------------------------------------------

  /** The rows stored in row groups [rgStart, rgEnd), but for the pruned groups. */
  function Stored(n: Node, rgStart: nat, rgEnd: nat): seq<Row>
    requires Wired(n) && rgEnd <= NumGroups(n)
  {
    match n
    case Scan(groups, keep, _, _, _, _) =>
      if rgStart <= rgEnd then Kept(groups[rgStart..rgEnd], keep[rgStart..rgEnd]) else []
    case Filter(c, _, _) => Stored(c, rgStart, rgEnd)
    case Project(c, _) => Stored(c, rgStart, rgEnd)
    case Join(p, _, _, _, _, _) => Stored(p, rgStart, rgEnd)
    case Other(c) => Stored(c, rgStart, rgEnd)
  }

  /** What the operators above a scan make of its rows. */
  function Through(n: Node, rows: seq<Row>): seq<Row> {
    match n
    case Scan(_, _, _, _, _, _) => rows
    case Filter(c, passes, _) => Sift(Through(c, rows), passes)
    case Project(c, f) =>
      var below := Through(c, rows);
      seq(|below|, i requires 0 <= i < |below| => f(below[i]))
    case Join(p, _, lookup, _, _, _) => Joined(Through(p, rows), lookup)
    case Other(c) => Through(c, rows)
  }

  function RangeRows(n: Node, range: (nat, nat)): seq<Row>
    requires Wired(n) && range.1 <= NumGroups(n)
  {
    Through(n, Stored(n, range.0, range.1))
  }

  /** A pipeline built over a range emits what its operators make of exactly that range. */
  lemma {:induction false} BuildReads(n: Node, rgStart: nat, rgEnd: nat)
    requires Wired(n) && rgEnd <= NumGroups(n)
    ensures Sound(Build(n, rgStart, rgEnd))
    ensures Emits(Build(n, rgStart, rgEnd)) == Through(n, Stored(n, rgStart, rgEnd))
    decreases n
  {
    match n
    case Scan(_, _, _, _, _, _) =>
    case Filter(c, _, _) => BuildReads(c, rgStart, rgEnd);
    case Project(c, _) => BuildReads(c, rgStart, rgEnd);
    case Join(p, _, lookup, _, _, _) =>
      BuildReads(p, rgStart, rgEnd);
      assert Buffered([], []) == [];
    case Other(c) => BuildReads(c, rgStart, rgEnd);
  }

  lemma {:induction false} KeptConcat(groups: seq<seq<Row>>, keep: seq<bool>, k: nat)
    requires |keep| == |groups| && k <= |groups|
    ensures Kept(groups, keep) == Kept(groups[..k], keep[..k]) + Kept(groups[k..], keep[k..])
  {
    if k > 0 {
      var head := if keep[0] then groups[0] else [];
      KeptConcat(groups[1..], keep[1..], k - 1);
      assert groups[..k][1..] == groups[1..][..k - 1] && keep[..k][1..] == keep[1..][..k - 1];
      assert groups[k..] == groups[1..][k - 1..] && keep[k..] == keep[1..][k - 1..];
      ConcatAssoc(head, Kept(groups[..k][1..], keep[..k][1..]), Kept(groups[k..], keep[k..]));
    }
  }

  lemma {:induction false} SliceCut<T>(s: seq<T>, a: nat, b: nat, c: nat)
    requires a <= b <= c <= |s|
    ensures s[a..c][..b - a] == s[a..b] && s[a..c][b - a..] == s[b..c]
  {
  }

  lemma {:induction false} StoredConcat(n: Node, a: nat, b: nat, c: nat)
    requires Wired(n) && a <= b <= c <= NumGroups(n)
    ensures Stored(n, a, c) == Stored(n, a, b) + Stored(n, b, c)
    decreases n
  {
    match n
    case Scan(groups, keep, _, _, _, _) =>
      KeptConcat(groups[a..c], keep[a..c], b - a);
      SliceCut(groups, a, b, c);
      SliceCut(keep, a, b, c);
    case Filter(child, _, _) => StoredConcat(child, a, b, c);
    case Project(child, _) => StoredConcat(child, a, b, c);
    case Join(p, _, _, _, _, _) => StoredConcat(p, a, b, c);
    case Other(child) => StoredConcat(child, a, b, c);
  }

  lemma {:induction false} ThroughConcat(n: Node, xs: seq<Row>, ys: seq<Row>)
    ensures Through(n, xs + ys) == Through(n, xs) + Through(n, ys)
    decreases n
  {
    match n
    case Scan(_, _, _, _, _, _) =>
    case Filter(c, passes, _) =>
      ThroughConcat(c, xs, ys);
      SiftConcat(Through(c, xs), Through(c, ys), passes);
    case Project(c, _) => ThroughConcat(c, xs, ys);
    case Join(p, _, lookup, _, _, _) =>
      ThroughConcat(p, xs, ys);
      JoinedConcat(Through(p, xs), Through(p, ys), lookup);
    case Other(c) => ThroughConcat(c, xs, ys);
  }

  /** Cutting a range in two cuts what the pipeline emits over it in two. */
  lemma {:induction false} RangesConcat(n: Node, a: nat, b: nat, c: nat)
    requires Wired(n) && a <= b <= c <= NumGroups(n)
    ensures Sound(Build(n, a, b)) && Sound(Build(n, b, c)) && Sound(Build(n, a, c))
    ensures Emits(Build(n, a, c)) == Emits(Build(n, a, b)) + Emits(Build(n, b, c))
    ensures RangeRows(n, (a, c)) == RangeRows(n, (a, b)) + RangeRows(n, (b, c))
  {
    BuildReads(n, a, b);
    BuildReads(n, b, c);
    BuildReads(n, a, c);
    StoredConcat(n, a, b, c);
    ThroughConcat(n, Stored(n, a, b), Stored(n, b, c));
  }

  /** The ranges follow each other from row group 0 up to end. */
  ghost predicate Tiles(ranges: seq<(nat, nat)>, end: nat) {
    && (if ranges == [] then end == 0 else ranges[0].0 == 0 && ranges[|ranges| - 1].1 == end)
    && (forall i :: 0 <= i < |ranges| ==> ranges[i].0 <= ranges[i].1)
    && forall i :: 0 < i < |ranges| ==> ranges[i].0 == ranges[i - 1].1
  }

  ghost predicate Within(n: Node, ranges: seq<(nat, nat)>) {
    Wired(n) && forall i :: 0 <= i < |ranges| ==> ranges[i].1 <= NumGroups(n)
  }

  ghost predicate Yields(n: Node, ranges: seq<(nat, nat)>, outs: seq<seq<Row>>) {
    && |outs| == |ranges| && Within(n, ranges)
    && forall i :: 0 <= i < |ranges| ==> outs[i] == RangeRows(n, ranges[i])
  }

  /** Morsels that tile the row groups yield the rows of the whole pipeline, in order. */
  lemma {:induction false} TilesYieldAll(n: Node, ranges: seq<(nat, nat)>, outs: seq<seq<Row>>, end: nat)
    requires Yields(n, ranges, outs) && Tiles(ranges, end) && end <= NumGroups(n)
    ensures Flat(outs) == RangeRows(n, (0, end))
  {
    if ranges == [] {
      NothingStored(n, 0);
    } else {
      var last := |ranges| - 1;
      var front, mid := ranges[..last], ranges[last].0;
      assert Tiles(front, mid);
      TilesYieldAll(n, front, outs[..last], mid);
      RangesConcat(n, 0, mid, end);
    }
  }

  lemma {:induction false} NothingStored(n: Node, a: nat)
    requires Wired(n) && a <= NumGroups(n)
    ensures RangeRows(n, (a, a)) == []
  {
    RangesConcat(n, a, a, a);
    var none := RangeRows(n, (a, a));
    assert |none| == |none| + |none|;
  }

  function Without<T>(xs: seq<T>, k: nat): seq<T>
    requires k < |xs|
  {
    xs[..k] + xs[k + 1..]
  }

  lemma {:induction false} WithoutOne<T>(xs: seq<T>, k: nat)
    requires k < |xs|
    ensures multiset(Without(xs, k)) == multiset(xs) - multiset{xs[k]}
  {
    assert xs == xs[..k] + [xs[k]] + xs[k + 1..];
    assert multiset(xs) == multiset(Without(xs, k)) + multiset{xs[k]};
  }

  lemma {:induction false} YieldsWithout(n: Node, ranges: seq<(nat, nat)>, outs: seq<seq<Row>>, k: nat)
    requires Yields(n, ranges, outs) && k < |ranges|
    ensures Yields(n, Without(ranges, k), Without(outs, k))
    ensures multiset(Flat(outs)) == multiset(Flat(Without(outs, k))) + multiset(RangeRows(n, ranges[k]))
  {
    FlatWithout(outs, k);
    var rs, os := Without(ranges, k), Without(outs, k);
    forall i | 0 <= i < |rs| ensures rs[i].1 <= NumGroups(n) && os[i] == RangeRows(n, rs[i]) {
      var j := if i < k then i else i + 1;
      assert rs[i] == ranges[j] && os[i] == outs[j];
    }
  }

  /** The rows of some morsels in any order are the same rows. */
  lemma {:induction false} ReorderedYields(n: Node, xs: seq<(nat, nat)>, outs: seq<seq<Row>>, ys: seq<(nat, nat)>,
                                           others: seq<seq<Row>>)
    requires multiset(xs) == multiset(ys) && Yields(n, xs, outs) && Yields(n, ys, others)
    ensures multiset(Flat(outs)) == multiset(Flat(others))
    decreases |xs|
  {
    if xs == [] {
      assert multiset(xs) == multiset{} && |multiset(ys)| == |ys|;
    } else {
      var last := |xs| - 1;
      assert xs[last] in multiset(ys);
      var k :| 0 <= k < |ys| && ys[k] == xs[last];
      WithoutOne(xs, last);
      WithoutOne(ys, k);
      YieldsWithout(n, xs, outs, last);
      YieldsWithout(n, ys, others, k);
      ReorderedYields(n, Without(xs, last), Without(outs, last), Without(ys, k), Without(others, k));
    }
  }

  lemma {:induction false} FlatWithout(xs: seq<seq<Row>>, k: nat)
    requires k < |xs|
    ensures multiset(Flat(xs)) == multiset(Flat(Without(xs, k))) + multiset(xs[k])
  {
    assert xs == (xs[..k] + [xs[k]]) + xs[k + 1..];
    FlatConcat(xs[..k] + [xs[k]], xs[k + 1..]);
    FlatConcat(xs[..k], [xs[k]]);
    FlatOne(xs[k]);
    FlatConcat(xs[..k], xs[k + 1..]);
  }

  /** Whichever worker claims which morsel and when, morsels that tile the row groups give
      every row of the whole pipeline exactly as often as one pipeline over the whole file. */
  lemma {:induction false} ClaimedInAnyOrder(n: Node, morsels: seq<(nat, nat)>, claimed: seq<(nat, nat)>,
                                             outs: seq<seq<Row>>)
    requires Tiles(morsels, NumGroups(n)) && multiset(claimed) == multiset(morsels) && Yields(n, claimed, outs)
    ensures Sound(Build(n, 0, NumGroups(n)))
    ensures multiset(Flat(outs)) == multiset(Emits(Build(n, 0, NumGroups(n))))
  {
    forall i | 0 <= i < |morsels| ensures morsels[i].1 <= NumGroups(n) {
      assert morsels[i] in multiset(claimed);
    }
    var rows := seq(|morsels|, i requires 0 <= i < |morsels| => RangeRows(n, morsels[i]));
    ReorderedYields(n, claimed, outs, morsels, rows);
    TilesYieldAll(n, morsels, rows, NumGroups(n));
    BuildReads(n, 0, NumGroups(n));
  }

  /** A repositioned pipeline emits exactly what a fresh one would: nothing of the
      previous morsel is read again. */
  lemma {:induction false} ResetIsFresh(n: Node, rgStart: nat, rgEnd: nat)
    requires Wired(n) && Reusable(n) && rgEnd <= NumGroups(n)
    ensures Sound(Reset(n, rgStart, rgEnd)) && Sound(Build(n, rgStart, rgEnd))
    ensures Emits(Reset(n, rgStart, rgEnd)) == Emits(Build(n, rgStart, rgEnd))
    ensures Emits(Reset(n, rgStart, rgEnd)) == Through(n, Stored(n, rgStart, rgEnd))
    ensures SameShape(Reset(n, rgStart, rgEnd), n) && Wired(Reset(n, rgStart, rgEnd))
    decreases n
  {
    BuildReads(n, rgStart, rgEnd);
    match n
    case Scan(_, _, _, _, _, _) =>
    case Filter(c, _, _) => ResetIsFresh(c, rgStart, rgEnd);
    case Project(c, _) => ResetIsFresh(c, rgStart, rgEnd);
    case Join(p, _, _, _, _, _) => ResetIsFresh(p, rgStart, rgEnd);
  }

  lemma {:induction false} BuildValid(n: Node, rgStart: nat, rgEnd: nat)
    requires Wired(n) && rgEnd <= NumGroups(n)
    ensures Sound(Build(n, rgStart, rgEnd)) && Wired(Build(n, rgStart, rgEnd))
    ensures SameShape(Build(n, rgStart, rgEnd), n)
    decreases n
  {
    match n
    case Scan(_, _, _, _, _, _) =>
    case Filter(c, _, _) => BuildValid(c, rgStart, rgEnd);
    case Project(c, _) => BuildValid(c, rgStart, rgEnd);
    case Join(p, _, _, _, _, _) => BuildValid(p, rgStart, rgEnd);
    case Other(c) => BuildValid(c, rgStart, rgEnd);
  }

  /** Pipelines of one shape are built alike, and alike reusable. */
  lemma {:induction false} ShapeDecides(n: Node, m: Node, rgStart: nat, rgEnd: nat)
    requires SameShape(n, m)
    ensures Build(n, rgStart, rgEnd) == Build(m, rgStart, rgEnd)
    ensures (Reusable(n) <==> Reusable(m)) && (Wired(n) <==> Wired(m)) && NumGroups(n) == NumGroups(m)
    decreases n
  {
    match n
    case Scan(_, _, _, _, _, _) =>
    case Filter(c, _, _) => ShapeDecides(c, m.child, rgStart, rgEnd);
    case Project(c, _) => ShapeDecides(c, m.child, rgStart, rgEnd);
    case Join(p, _, _, _, _, _) => ShapeDecides(p, m.probe, rgStart, rgEnd);
    case Other(c) => ShapeDecides(c, m.child, rgStart, rgEnd);
  }

  /** Pulling batches keeps the operators. */
  lemma {:induction false} NextShape(n: Node)
    requires Sound(n)
    ensures SameShape(Next(n).0, n)
    decreases Depth(n), Below(n)
  {
    match n
    case Scan(_, _, _, _, _, _) => NextScanShape(n);
    case Filter(c, passes, _) =>
      NextShape(c);
      var (c', b) := Next(c);
      if b.Some? {
        FilterPull(c, c', b.value, passes);
        var sel := Selection(b.value, passes, |b.value|);
        if sel == [] {
          NextShape(Filter(c', passes, sel));
        }
      }
    case Project(c, _) => NextShape(c);
    case Join(p, own, lookup, batch, buf, matchPos) =>
      if matchPos == |buf| {
        NextShape(p);
        var (p', b) := Next(p);
        if b.Some? {
          NextShape(Join(p', own, lookup, b.value, Matches(b.value, lookup, |b.value|), 0));
        }
      }
    case Other(c) => NextShape(c);
  }

  lemma {:induction false} NextScanShape(n: Node)
    requires n.Scan? && Sound(n)
    ensures SameShape(NextScan(n).0, n)
    decreases GroupsLeft(n), !n.open
  {
    if !n.open {
      if n.rgIdx < n.rgEnd {
        NextScanShape(if n.keep[n.rgIdx] then n.(open := true, pos := 0) else n.(rgIdx := n.rgIdx + 1));
      }
    } else if n.pos == |n.groups[n.rgIdx]| {
      NextScanShape(n.(open := false, rgIdx := n.rgIdx + 1));
    }
  }

  // ---- The runner --------------------------------------------------------------------------------

  class Pipeline {
    var node: Node
    var closes: nat

    constructor (node: Node)
      ensures this.node == node && closes == 0
    {
      this.node, closes := node, 0;
    }

    method Close()
      modifies this`closes
      ensures closes == old(closes) + 1
    {
      closes := closes + 1;
    }
  }

  /** How a morsel ends: the factory fails, a pull fails after some batches, or neither. */
  datatype Fate = OpenFails | DrainFails(after: nat) | Fine

  class MorselRunner {
    const shape: Node              // what the factory builds, but for its range
    var held: Pipeline?            // retained across morsels
    var probed: bool
    ghost var made: set<Pipeline>

    /** Between morsels: every pipeline opened so far is closed exactly once, but for the
        one being retained, which can be repositioned. */
    ghost predicate Valid()
      reads this, made
    {
      && Wired(shape) && (held != null ==> held in made && Reusable(shape) && SameShape(held.node, shape))
      && (forall p :: p in made ==> p.closes == if p == held then 0 else 1)
      && (held != null ==> probed) && (probed && held == null ==> !Reusable(shape))
    }

    constructor (shape: Node)
      requires Wired(shape)
      ensures Valid() && this.shape == shape && made == {} && held == null && !probed
    {
      this.shape, held, probed, made := shape, null, false, {};
    }

    /** The pipeline covering row groups [rgStart, rgEnd): the retained one repositioned,
        or a new one. */
    method Open(rgStart: nat, rgEnd: nat) returns (op: Pipeline)
      requires Valid() && rgEnd <= NumGroups(shape)
      modifies this, held
      ensures held != null ==> op == held && held in made && Reusable(shape)
      ensures held == null ==> fresh(op) && !Reusable(shape)
      ensures op in made && made == old(made) + {op} && probed
      ensures (op == old(held) || fresh(op)) && op.closes == 0 && SameShape(op.node, shape)
      ensures forall p :: p in made ==> p.closes == if p == op then 0 else 1
      ensures Sound(op.node) && Sound(Build(shape, rgStart, rgEnd))
      ensures Emits(op.node) == Emits(Build(shape, rgStart, rgEnd))
      ensures Emits(op.node) == RangeRows(shape, (rgStart, rgEnd))
    {
      BuildValid(shape, rgStart, rgEnd);
      BuildReads(shape, rgStart, rgEnd);
      if held != null {
        ShapeDecides(held.node, shape, rgStart, rgEnd);
        ResetIsFresh(held.node, rgStart, rgEnd);
        held.node := Reset(held.node, rgStart, rgEnd);
        return held;
      }
      op := new Pipeline(Build(shape, rgStart, rgEnd));
      ShapeDecides(op.node, shape, rgStart, rgEnd);
      made := made + {op};
      if !probed {
        probed := true;
        if Reusable(op.node) {
          held := op;
        }
      }
    }

    /** Ends a morsel: closes the pipeline unless it is retained. */
    method Release(op: Pipeline)
      requires Wired(shape) && op in made && SameShape(op.node, shape)
      requires held != null ==> op == held && Reusable(shape) && probed
      requires probed && held == null ==> !Reusable(shape)
      requires forall p :: p in made ==> p.closes == if p == op then 0 else 1
      modifies op`closes
      ensures Valid()
    {
      if held == null {
        op.Close();
      }
    }

    /** Closes the retained pipeline, if any; safe to call more than once. */
    method Close()
      requires Valid()
      modifies this`held, held
      ensures held == null && forall p :: p in made ==> p.closes == 1
    {
      if held != null {
        held.Close();
        held := null;
      }
    }
  }

  /** Pulls batches until the end, or until a pull fails. */
  method DrainPipeline(op: Pipeline, fate: Fate, ghost rows: seq<Row>) returns (out: seq<Row>, ok: bool)
    requires Sound(op.node) && Emits(op.node) == rows
    modifies op`node
    ensures SameShape(op.node, old(op.node)) && (ok ==> out == rows)
    ensures fate.Fine? ==> ok
  {
    out := [];
    var pulls := 0;
    ghost var owed := rows;
    while true
      invariant Sound(op.node) && owed == Emits(op.node) && out + owed == rows && SameShape(op.node, old(op.node))
      decreases |owed|
    {
      if fate.DrainFails? && pulls == fate.after {
        return out, false;
      }
      var (node, block) := Next(op.node);
      NextShape(op.node);
      op.node := node;
      pulls := pulls + 1;
      if block.None? {
        return out, true;
      }
      ConcatAssoc(out, block.value, Emits(node));
      out, owed := out + block.value, Emits(node);
    }
  }

  /** A worker over the morsels it claims: each one that completes yields exactly the
      rows of a freshly built pipeline, and on every exit every pipeline it opened has
      been closed exactly once. */
  method Work(runner: MorselRunner, ranges: seq<(nat, nat)>, fates: seq<Fate>) returns (outs: seq<seq<Row>>, ok: bool)
    requires runner.Valid() && runner.held == null && runner.made == {} && |fates| == |ranges|
    requires forall i :: 0 <= i < |ranges| ==> ranges[i].1 <= NumGroups(runner.shape)
    modifies runner
    ensures forall p :: p in runner.made ==> fresh(p) && p.closes == 1
    ensures |outs| <= |ranges|
    ensures forall i :: 0 <= i < |outs| ==>
      Sound(Build(runner.shape, ranges[i].0, ranges[i].1)) &&
          outs[i] == Emits(Build(runner.shape, ranges[i].0, ranges[i].1))
    ensures Yields(runner.shape, ranges[..|outs|], outs)
    ensures ok && Tiles(ranges, NumGroups(runner.shape)) ==>
      Flat(outs) == RangeRows(runner.shape, (0, NumGroups(runner.shape)))
    ensures ok ==> |outs| == |ranges|
    ensures (forall i :: 0 <= i < |fates| ==> fates[i].Fine?) ==> ok
  {
    outs, ok := [], true;
    for i := 0 to |ranges|
      invariant runner.Valid() && ok && |outs| == i && forall p :: p in runner.made ==> fresh(p)
      invariant forall j :: 0 <= j < i ==>
        Sound(Build(runner.shape, ranges[j].0, ranges[j].1)) &&
            outs[j] == Emits(Build(runner.shape, ranges[j].0, ranges[j].1))
      invariant Yields(runner.shape, ranges[..i], outs)
    {
      if fates[i].OpenFails? {
        ok := false;
        break;
      }
      var op := runner.Open(ranges[i].0, ranges[i].1);
      var out, drained := DrainPipeline(op, fates[i], Emits(op.node));
      runner.Release(op);
      if !drained {
        ok := false;
        break;
      }
      outs := outs + [out];
    }
    runner.Close();
    if ok && Tiles(ranges, NumGroups(runner.shape)) {
      assert ranges[..|outs|] == ranges;
      TilesYieldAll(runner.shape, ranges, outs, NumGroups(runner.shape));
    }
  }
}
