/** Parallel aggregation (exec/parallel.go, exec/parallel_join.go) as a transition
    system: workers claim morsels from an atomic cursor, fold their batches into partials
    of their own, and the partials are merged in the order they arrive. */
module ParallelAggregates {
  import opened Options
  import opened Seqs
  import opened Aggregates
  import opened AggregateMeanings

  /** `groups[g]` is the batches the pipeline yields for row group g. */
  datatype Config = Config(kinds: seq<Kind>, groups: seq<seq<seq<InRow>>>, morselSize: nat) {
    ghost predicate Valid() {
      morselSize > 0 && RowsOk(Rows())
    }

    /** All rows, in table order. */
    function Rows(): seq<InRow> {
      Flat(Flat(groups))
    }
  }

  /** A worker's batches still to fold, its partial, the rows behind it, and whether it
      found the queue exhausted. */
  datatype Worker = Worker(todo: seq<seq<InRow>>, partial: Groups, seen: seq<InRow>, finished: bool)

  datatype State = State(next: nat, workers: seq<Worker>)

  datatype Action = Claim(worker: nat) | Fold(worker: nat)

  function Start(workers: nat): State {
    State(0, seq(workers, _ => Worker([], map[], [], false)))
  }

  function Clamp(n: nat, end: nat): nat {
    if n > end then end else n
  }

  /** The row groups a claim of the cursor covers: none once it is past the end. */
  function Morsel(c: Config, next: nat): seq<seq<seq<InRow>>> {
    c.groups[Clamp(next, |c.groups|)..Clamp(next + c.morselSize, |c.groups|)]
  }

  predicate Enabled(s: State, a: Action) {
    && a.worker < |s.workers|
    && var w := s.workers[a.worker];
       match a
       case Claim(_) => !w.finished && w.todo == []
       case Fold(_) => w.todo != []
  }

  function Apply(c: Config, s: State, a: Action): State
    requires Enabled(s, a)
  {
    var w := s.workers[a.worker];
    match a
    case Claim(i) =>
      State(s.next + c.morselSize,
            s.workers[i := if s.next >= |c.groups| then w.(finished := true) else w.(todo := Flat(Morsel(c, s.next)))])
    case Fold(i) =>
      s.(workers := s.workers[i :=
          Worker(w.todo[1..], FoldGroups(c.kinds, w.partial, w.todo[0]), w.seen + w.todo[0], w.finished)])
  }

  /** Running some actions from the start; absent when one was not enabled. */
  function Exec(c: Config, workers: nat, run: seq<Action>): Option<State> {
    if run == [] then Some(Start(workers))
    else
      var s := Exec(c, workers, run[..|run| - 1]);
      if s.None? || !Enabled(s.value, run[|run| - 1]) then None else Some(Apply(c, s.value, run[|run| - 1]))
  }

  predicate Done(s: State) {
    forall i :: 0 <= i < |s.workers| ==> s.workers[i].finished
  }

  // ---- Conservation of rows -----------------------------------------------------------------

  function Held(w: Worker, x: InRow): nat {
    Seqs.Count(w.seen, x) + Seqs.Count(Flat(w.todo), x)
  }

  function Helds(s: State, x: InRow): seq<nat> {
    seq(|s.workers|, i requires 0 <= i < |s.workers| => Held(s.workers[i], x))
  }

  function Unclaimed(c: Config, next: nat): seq<InRow> {
    Flat(Flat(c.groups[Clamp(next, |c.groups|)..]))
  }

  /** Every occurrence of a row is either with one worker or still in the queue. */
  ghost predicate Conserved(c: Config, s: State, x: InRow) {
    Total(Helds(s, x), |s.workers|) + Seqs.Count(Unclaimed(c, s.next), x) == Seqs.Count(c.Rows(), x)
  }

  /** A worker's partial is the fold of the rows it has seen; a finished worker has
      nothing left, and the queue is exhausted. */
  ghost predicate WorkerInv(c: Config, s: State, w: Worker) {
    && w.partial == FoldGroups(c.kinds, map[], w.seen)
    && (w.finished ==> w.todo == [] && s.next >= |c.groups|)
  }

  ghost predicate WorkersInv(c: Config, s: State) {
    forall i :: 0 <= i < |s.workers| ==> WorkerInv(c, s, s.workers[i])
  }

  lemma {:induction false} HeldUpdate(s: State, i: nat, w: Worker, next: nat, x: InRow)
    requires i < |s.workers|
    ensures var s' := State(next, s.workers[i := w]);
      Total(Helds(s', x), |s'.workers|) == Total(Helds(s, x), |s.workers|) + Held(w, x) - Held(s.workers[i], x)
  {
    var s' := State(next, s.workers[i := w]);
    TotalUpdate(Helds(s, x), |s.workers|, i, Held(w, x));
    assert Helds(s', x) == Helds(s, x)[i := Held(w, x)];
  }

  /** A claim moves exactly one morsel's rows out of the queue. */
  lemma {:induction false} ClaimMoves(c: Config, next: nat, x: InRow)
    ensures Seqs.Count(Unclaimed(c, next), x) ==
      Seqs.Count(Flat(Flat(Morsel(c, next))), x) + Seqs.Count(Unclaimed(c, next + c.morselSize), x)
  {
    var a, b := Clamp(next, |c.groups|), Clamp(next + c.morselSize, |c.groups|);
    assert c.groups[a..] == c.groups[a..b] + c.groups[b..];
    FlatConcat(c.groups[a..b], c.groups[b..]);
    FlatConcat(Flat(c.groups[a..b]), Flat(c.groups[b..]));
    CountConcat(Flat(Flat(c.groups[a..b])), Flat(Flat(c.groups[b..])), x);
  }

  /** Folding a batch moves its rows from the worker's queue to its partial. */
  lemma {:induction false} FoldMoves(w: Worker, x: InRow)
    requires w.todo != []
    ensures Seqs.Count(w.seen + w.todo[0], x) + Seqs.Count(Flat(w.todo[1..]), x) == Held(w, x)
  {
    assert w.todo == [w.todo[0]] + w.todo[1..];
    FlatConcat([w.todo[0]], w.todo[1..]);
    assert Flat([w.todo[0]]) == w.todo[0] by {
      assert [w.todo[0]][..0] == [];
    }
    CountConcat(w.todo[0], Flat(w.todo[1..]), x);
    CountConcat(w.seen, w.todo[0], x);
  }

  lemma {:induction false} ClaimConserves(c: Config, s: State, i: nat, x: InRow)
    requires Enabled(s, Claim(i)) && Conserved(c, s, x)
    ensures Conserved(c, Apply(c, s, Claim(i)), x)
  {
    var w := s.workers[i];
    var w' := if s.next >= |c.groups| then w.(finished := true) else w.(todo := Flat(Morsel(c, s.next)));
    HeldUpdate(s, i, w', s.next + c.morselSize, x);
    ClaimMoves(c, s.next, x);
  }

  lemma {:induction false} FoldConserves(c: Config, s: State, i: nat, w': Worker, x: InRow)
    requires Enabled(s, Fold(i)) && Conserved(c, s, x)
    requires w'.todo == s.workers[i].todo[1..] && w'.seen == s.workers[i].seen + s.workers[i].todo[0]
    ensures Conserved(c, State(s.next, s.workers[i := w']), x)
  {
    HeldUpdate(s, i, w', s.next, x);
    FoldMoves(s.workers[i], x);
  }

  /** What a fold does to the state, but for the partial. */
  lemma {:induction false} FoldApplied(c: Config, s: State, i: nat)
    requires Enabled(s, Fold(i))
    ensures var s' := Apply(c, s, Fold(i));
      && |s'.workers| == |s.workers| && s' == State(s.next, s.workers[i := s'.workers[i]])
      && s'.workers[i].todo == s.workers[i].todo[1..]
      && s'.workers[i].seen == s.workers[i].seen + s.workers[i].todo[0]
  {
  }

  lemma {:induction false} StepConserves(c: Config, s: State, a: Action, x: InRow, s': State)
    requires Enabled(s, a) && Conserved(c, s, x) && s' == Apply(c, s, a)
    ensures Conserved(c, s', x)
  {
    match a
    case Claim(i) => ClaimConserves(c, s, i, x);
    case Fold(i) =>
      FoldApplied(c, s, i);
      FoldConserves(c, s, i, s'.workers[i], x);
  }

  lemma {:induction false} StepWorkers(c: Config, s: State, a: Action)
    requires Enabled(s, a) && WorkersInv(c, s)
    ensures WorkersInv(c, Apply(c, s, a))
  {
    var w, s' := s.workers[a.worker], Apply(c, s, a);
    assert WorkerInv(c, s, w);
    forall i | 0 <= i < |s'.workers| ensures WorkerInv(c, s', s'.workers[i]) {
      assert WorkerInv(c, s, s.workers[i]);
      if i == a.worker && a.Fold? {
        FoldConcat(c.kinds, map[], w.seen, w.todo[0]);
      }
    }
  }

  lemma {:induction false} StartConserves(c: Config, workers: nat, x: InRow)
    ensures Conserved(c, Start(workers), x) && WorkersInv(c, Start(workers))
  {
    var s := Start(workers);
    TotalNothing(Helds(s, x), workers);
    assert c.groups[0..] == c.groups;
  }

  lemma {:induction false} RunInv(c: Config, workers: nat, run: seq<Action>, x: InRow)
    requires Exec(c, workers, run).Some?
    ensures var s := Exec(c, workers, run).value;
      |s.workers| == workers && Conserved(c, s, x) && WorkersInv(c, s)
  {
    if run == [] {
      StartConserves(c, workers, x);
    } else {
      RunInv(c, workers, run[..|run| - 1], x);
      var s := Exec(c, workers, run[..|run| - 1]).value;
      StepConserves(c, s, run[|run| - 1], x, Apply(c, s, run[|run| - 1]));
      StepWorkers(c, s, run[|run| - 1]);
    }
  }

  // ---- The merge ------------------------------------------------------------------------

  /** Each worker's result arrives exactly once. */
  ghost predicate Arrivals(order: seq<nat>, workers: nat) {
    && (forall i :: 0 <= i < |order| ==> order[i] < workers)
    && (forall i, j :: 0 <= i < j < |order| ==> order[i] != order[j])
    && (forall w: nat :: w < workers ==> w in order)
  }

  /** The partials merged one after the other into an empty aggregate. */
  function MergeAll(kinds: seq<Kind>, s: State, order: seq<nat>): Groups {
    if order == [] then map[]
    else
      var m, w := MergeAll(kinds, s, order[..|order| - 1]), order[|order| - 1];
      if w < |s.workers| then MergeGroups(kinds, m, s.workers[w].partial) else m
  }

  function SeenBy(s: State, order: seq<nat>): seq<InRow> {
    if order == [] then []
    else
      var w := order[|order| - 1];
      SeenBy(s, order[..|order| - 1]) + if w < |s.workers| then s.workers[w].seen else []
  }

  lemma {:induction false} MergeAllIsFold(c: Config, s: State, order: seq<nat>)
    requires WorkersInv(c, s) && RowsOk(SeenBy(s, order)) && forall i :: 0 <= i < |order| ==> order[i] < |s.workers|
    ensures MergeAll(c.kinds, s, order) == FoldGroups(c.kinds, map[], SeenBy(s, order))
  {
    if order != [] {
      var init, w := order[..|order| - 1], s.workers[order[|order| - 1]];
      var before := SeenBy(s, init);
      assert SeenBy(s, order) == before + w.seen;
      assert RowsOk(before) && RowsOk(w.seen) by {
        assert forall i :: 0 <= i < |before| ==> before[i] == (before + w.seen)[i];
        assert forall i :: 0 <= i < |w.seen| ==> w.seen[i] == (before + w.seen)[|before| + i];
      }
      MergeAllIsFold(c, s, init);
      FoldGroupsSound(c.kinds, map[], before);
      assert WorkerInv(c, s, w);
      MergeIsFold(c.kinds, FoldGroups(c.kinds, map[], before), w.seen);
      FoldConcat(c.kinds, map[], before, w.seen);
    }
  }

  /** The sum of some weights in any order that visits every nonzero one once. */
  function SumIn(weights: seq<nat>, order: seq<nat>): nat {
    if order == [] then 0
    else
      var w := order[|order| - 1];
      SumIn(weights, order[..|order| - 1]) + if w < |weights| then weights[w] else 0
  }

  lemma {:induction false} SumInUpdate(weights: seq<nat>, order: seq<nat>, t: nat)
    requires t < |weights| && t !in order
    ensures SumIn(weights[t := 0], order) == SumIn(weights, order)
  {
    if order != [] {
      SumInUpdate(weights, order[..|order| - 1], t);
    }
  }

  lemma {:induction false} SumInTotal(weights: seq<nat>, order: seq<nat>)
    requires forall i, j :: 0 <= i < j < |order| ==> order[i] != order[j]
    requires forall i :: 0 <= i < |order| ==> order[i] < |weights|
    requires forall i: nat :: i < |weights| && weights[i] != 0 ==> i in order
    ensures SumIn(weights, order) == Total(weights, |weights|)
    decreases |order|
  {
    if order == [] {
      TotalNothing(weights, |weights|);
    } else {
      var init, t := order[..|order| - 1], order[|order| - 1];
      assert t !in init;
      SumInUpdate(weights, init, t);
      TotalUpdate(weights, |weights|, t, 0);
      forall i: nat | i < |weights| && weights[t := 0][i] != 0 ensures i in init {
        assert i in order && i != t;
        assert order == init + [t];
      }
      SumInTotal(weights[t := 0], init);
    }
  }

  lemma {:induction false} SeenCount(s: State, order: seq<nat>, x: InRow)
    requires forall i :: 0 <= i < |s.workers| ==> s.workers[i].todo == []
    ensures Seqs.Count(SeenBy(s, order), x) == SumIn(Helds(s, x), order)
  {
    if order != [] {
      var init, t := order[..|order| - 1], order[|order| - 1];
      SeenCount(s, init, x);
      CountConcat(SeenBy(s, init), if t < |s.workers| then s.workers[t].seen else [], x);
    }
  }

  /** When every worker is done, the rows behind the partials are all the rows, once. */
  lemma {:induction false} AllSeen(c: Config, workers: nat, run: seq<Action>, order: seq<nat>)
    requires Exec(c, workers, run).Some? && workers > 0 && Done(Exec(c, workers, run).value) && Arrivals(order, workers)
    ensures multiset(SeenBy(Exec(c, workers, run).value, order)) == multiset(c.Rows())
  {
    var s := Exec(c, workers, run).value;
    forall x ensures Seqs.Count(SeenBy(s, order), x) == Seqs.Count(c.Rows(), x) {
      RunInv(c, workers, run, x);
      forall i | 0 <= i < |s.workers| ensures s.workers[i].todo == [] {
        assert WorkerInv(c, s, s.workers[i]);
      }
      assert WorkerInv(c, s, s.workers[0]);
      assert c.groups[Clamp(s.next, |c.groups|)..] == [];
      SeenCount(s, order, x);
      SumInTotal(Helds(s, x), order);
    }
    SameCounts(SeenBy(s, order), c.Rows());
  }

  lemma {:induction false} SameRowsOk(xs: seq<InRow>, ys: seq<InRow>)
    requires multiset(xs) == multiset(ys) && RowsOk(ys)
    ensures RowsOk(xs)
  {
    forall i | 0 <= i < |xs| ensures RowOk(xs[i]) {
      assert xs[i] in multiset(ys);
    }
  }

  /** Whatever the worker count, morsel size, assignment of morsels and arrival order,
      the merged partials are one serial fold over all rows, and so hold what the rows of
      each group come to. */
  lemma {:induction false} ParallelEqualsSerial(c: Config, workers: nat, run: seq<Action>, order: seq<nat>)
    requires c.Valid() && Exec(c, workers, run).Some? && workers > 0
    requires Done(Exec(c, workers, run).value) && Arrivals(order, workers)
    ensures MergeAll(c.kinds, Exec(c, workers, run).value, order) == FoldGroups(c.kinds, map[], c.Rows())
    ensures GroupsMean(c.kinds, c.Rows(), MergeAll(c.kinds, Exec(c, workers, run).value, order))
  {
    var s := Exec(c, workers, run).value;
    FoldGroupsMean(c.kinds, c.Rows());
    AllSeen(c, workers, run, order);
    SameRowsOk(SeenBy(s, order), c.Rows());
    RunInv(c, workers, run, InRow([], []));
    MergeAllIsFold(c, s, order);
    FoldPermutation(c.kinds, map[], SeenBy(s, order), c.Rows());
  }

  /** Until all are done, some worker can move: no schedule gets stuck. */
  lemma {:induction false} NeverStuck(s: State)
    requires !Done(s)
    ensures exists a :: Enabled(s, a)
  {
    var i :| 0 <= i < |s.workers| && !s.workers[i].finished;
    if s.workers[i].todo == [] {
      assert Enabled(s, Claim(i));
    } else {
      assert Enabled(s, Fold(i));
    }
  }
}
