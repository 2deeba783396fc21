/** Section buffers (storage/reader.go): each Reader's free list, the shared pool of size
    classes behind it, and the column readers that borrow from them, as a transition
    system over who holds which buffer. */
module BufferPools {
  import opened Options
  import opened Seqs

  const MAX_PREFETCH_BYTES: nat := 0x40_0000
  const BUF_CLASS_BYTES: nat := 0x1_0000
  const NUM_BUF_CLASSES: nat := 64
  const MAX_POOLED_BUFS: nat := 32

  /** The class that can serve a request of n bytes, or 0 when none can. */
  function BufClassOf(n: int): (c: nat)
    ensures c <= NUM_BUF_CLASSES
    ensures c == 0 <==> n <= 0 || n > MAX_PREFETCH_BYTES
    ensures c > 0 ==> (c - 1) * BUF_CLASS_BYTES < n <= c * BUF_CLASS_BYTES
  {
    if n <= 0 || n > MAX_PREFETCH_BYTES then 0 else (n + BUF_CLASS_BYTES - 1) / BUF_CLASS_BYTES
  }

  /** The class a buffer may be filed under, or 0 when it must not be pooled. */
  function PoolClassOf(capacity: int): (c: nat)
    ensures c <= NUM_BUF_CLASSES
    ensures c > 0 ==> capacity == c * BUF_CLASS_BYTES
    ensures c == 0 ==> capacity <= 0 || capacity > MAX_PREFETCH_BYTES || capacity % BUF_CLASS_BYTES != 0
  {
    if capacity <= 0 || capacity > MAX_PREFETCH_BYTES || capacity % BUF_CLASS_BYTES != 0 then 0
    else capacity / BUF_CLASS_BYTES
  }

  datatype Buffer = Buffer(id: nat, capacity: nat)

  /** Every place a buffer can be: the pool's classes, the readers' free lists, and the
      columns reading through one. */
  datatype World = World(pool: seq<seq<Buffer>>, free: seq<seq<Buffer>>, held: seq<Option<Buffer>>, next: nat)

  datatype Action =
    | Acquire(reader: nat, column: nat, size: nat, hit: bool)
    | Release(reader: nat, column: nat)
    | CloseReader(reader: nat)

  function Start(readers: nat, columns: nat): World {
    World(seq(NUM_BUF_CLASSES + 1, _ => []), seq(readers, _ => []), seq(columns, _ => None), 0)
  }

  // ---- The operations ------------------------------------------------------------------------

  /** putSharedBuf: files a buffer in its class, or drops it. */
  function PutShared(w: World, b: Buffer): World
    requires |w.pool| == NUM_BUF_CLASSES + 1
  {
    var c := PoolClassOf(b.capacity);
    if c == 0 then w else w.(pool := w.pool[c := w.pool[c] + [b]])
  }

  /** getSharedBuf: a pooled buffer of the request's class (which the pool may have lost),
      or a new one sized to the whole class. */
  function GetShared(w: World, n: nat, hit: bool): (World, Buffer)
    requires |w.pool| == NUM_BUF_CLASSES + 1
  {
    var c := BufClassOf(n);
    if c == 0 then (w.(next := w.next + 1), Buffer(w.next, n))
    else
      var k := |w.pool[c]|;
      if hit && k > 0 && w.pool[c][k - 1].capacity >= n
      then (w.(pool := w.pool[c := w.pool[c][..k - 1]]), w.pool[c][k - 1])
      else (w.(next := w.next + 1), Buffer(w.next, c * BUF_CLASS_BYTES))
  }

  /** acquireBuf: the reader's own free buffer if it is large enough, else the pool's. */
  function AcquireBuf(w: World, r: nat, n: nat, hit: bool): (World, Buffer)
    requires |w.pool| == NUM_BUF_CLASSES + 1 && r < |w.free|
  {
    var k := |w.free[r]|;
    if k == 0 then GetShared(w, n, hit)
    else
      var b, w' := w.free[r][k - 1], w.(free := w.free[r := w.free[r][..k - 1]]);
      if b.capacity >= n then (w', b) else GetShared(PutShared(w', b), n, hit)
  }

  /** releaseBuf: to the reader's free list while it has room, else to the pool. */
  function ReleaseBuf(w: World, r: nat, b: Buffer): World
    requires |w.pool| == NUM_BUF_CLASSES + 1 && r < |w.free|
  {
    if |w.free[r]| >= MAX_POOLED_BUFS then PutShared(w, b) else w.(free := w.free[r := w.free[r] + [b]])
  }

  function PutAll(w: World, bs: seq<Buffer>): (w': World)
    requires |w.pool| == NUM_BUF_CLASSES + 1
    ensures |w'.pool| == NUM_BUF_CLASSES + 1 && w'.free == w.free && w'.held == w.held && w'.next == w.next
  {
    if bs == [] then w else PutShared(PutAll(w, bs[..|bs| - 1]), bs[|bs| - 1])
  }

  predicate Enabled(w: World, a: Action) {
    && |w.pool| == NUM_BUF_CLASSES + 1 && a.reader < |w.free|
    && match a
       case Acquire(_, column, _, _) => column < |w.held| && w.held[column].None?
       case Release(_, column) => column < |w.held| && w.held[column].Some?
       case CloseReader(_) => true
  }

  function Apply(w: World, a: Action): World
    requires Enabled(w, a)
  {
    match a
    case Acquire(r, column, n, hit) =>
      var (w', b) := AcquireBuf(w, r, n, hit);
      if column < |w'.held| then w'.(held := w'.held[column := Some(b)]) else w'
    case Release(r, column) =>
      ReleaseBuf(w.(held := w.held[column := None]), r, w.held[column].value)
    case CloseReader(r) =>
      PutAll(w.(free := w.free[r := []]), w.free[r])
  }

  function Exec(readers: nat, columns: nat, run: seq<Action>): Option<World> {
    if run == [] then Some(Start(readers, columns))
    else
      var w := Exec(readers, columns, run[..|run| - 1]);
      if w.None? || !Enabled(w.value, run[|run| - 1]) then None else Some(Apply(w.value, run[|run| - 1]))
  }

  // ---- Each buffer in one place -----------------------------------------------------------------

  function Here(b: Buffer, x: nat): nat {
    if b.id == x then 1 else 0
  }

  function In(bs: seq<Buffer>, x: nat): nat {
    if bs == [] then 0 else In(bs[..|bs| - 1], x) + Here(bs[|bs| - 1], x)
  }

  lemma {:induction false} InSnoc(bs: seq<Buffer>, b: Buffer, x: nat)
    ensures In(bs + [b], x) == In(bs, x) + Here(b, x)
  {
    assert (bs + [b])[..|bs|] == bs;
  }

  function Ins(lists: seq<seq<Buffer>>, x: nat): seq<nat> {
    seq(|lists|, i requires 0 <= i < |lists| => In(lists[i], x))
  }

  function InAny(lists: seq<seq<Buffer>>, x: nat): nat {
    Total(Ins(lists, x), |lists|)
  }

  lemma {:induction false} InAnyUpdate(lists: seq<seq<Buffer>>, i: nat, bs: seq<Buffer>, x: nat)
    requires i < |lists|
    ensures InAny(lists[i := bs], x) == InAny(lists, x) + In(bs, x) - In(lists[i], x)
  {
    TotalUpdate(Ins(lists, x), |lists|, i, In(bs, x));
    assert Ins(lists[i := bs], x) == Ins(lists, x)[i := In(bs, x)];
  }

  function Helds(held: seq<Option<Buffer>>, x: nat): seq<nat> {
    seq(|held|, i requires 0 <= i < |held| => if held[i].None? then 0 else Here(held[i].value, x))
  }

  function InHeld(held: seq<Option<Buffer>>, x: nat): nat {
    Total(Helds(held, x), |held|)
  }

  lemma {:induction false} InHeldUpdate(held: seq<Option<Buffer>>, i: nat, h: Option<Buffer>, x: nat)
    requires i < |held|
    ensures InHeld(held[i := h], x) == InHeld(held, x) + (if h.None? then 0 else Here(h.value, x)) - Helds(held, x)[i]
  {
    var v := if h.None? then 0 else Here(h.value, x);
    TotalUpdate(Helds(held, x), |held|, i, v);
    assert Helds(held[i := h], x) == Helds(held, x)[i := v];
  }

  /** In how many places buffer x is. */
  function Places(w: World, x: nat): nat {
    InAny(w.pool, x) + InAny(w.free, x) + InHeld(w.held, x)
  }

  /** A buffer is in at most one place, and a buffer not yet made is in none. */
  ghost predicate Once(w: World, x: nat) {
    Places(w, x) <= if x < w.next then 1 else 0
  }

  /** Every buffer filed in class c has capacity exactly c classes. */
  ghost predicate Filed(pool: seq<seq<Buffer>>) {
    |pool| == NUM_BUF_CLASSES + 1 && forall c, i :: 0 <= c < |pool| && 0 <= i < |pool[c]| ==>
        pool[c][i].capacity == c * BUF_CLASS_BYTES
  }

  lemma {:induction false} PutSharedPlaces(w: World, b: Buffer, x: nat)
    requires Filed(w.pool)
    ensures var w' := PutShared(w, b);
      && Filed(w'.pool) && w'.free == w.free && w'.held == w.held && w'.next == w.next
      && Places(w', x) <= Places(w, x) + Here(b, x)
  {
    var c := PoolClassOf(b.capacity);
    if c > 0 {
      InSnoc(w.pool[c], b, x);
      InAnyUpdate(w.pool, c, w.pool[c] + [b], x);
    }
  }

  /** A pooled get always fits, and takes the buffer out of the pool. */
  lemma {:induction false} GetSharedPlaces(w: World, n: nat, hit: bool, x: nat)
    requires Filed(w.pool)
    ensures var (w', b) := GetShared(w, n, hit);
      && Filed(w'.pool) && w'.free == w.free && w'.held == w.held && w.next <= w'.next <= w.next + 1 && b.capacity >= n
      && (hit && BufClassOf(n) > 0 && w.pool[BufClassOf(n)] != [] ==> w'.next == w.next)
      && Places(w', x) + Here(b, x) <= Places(w, x) + if w.next <= x < w'.next then 1 else 0
  {
    var c := BufClassOf(n);
    if c > 0 {
      var k := |w.pool[c]|;
      if hit && k > 0 {
        assert w.pool[c][k - 1].capacity == c * BUF_CLASS_BYTES;
        InAnyUpdate(w.pool, c, w.pool[c][..k - 1], x);
      }
    }
  }

  lemma {:induction false} AcquirePlaces(w: World, r: nat, n: nat, hit: bool, x: nat)
    requires Filed(w.pool) && r < |w.free|
    ensures var (w', b) := AcquireBuf(w, r, n, hit);
      && Filed(w'.pool) && |w'.free| == |w.free| && w'.held == w.held && w.next <= w'.next <= w.next + 1 &&
          b.capacity >= n
      && Places(w', x) + Here(b, x) <= Places(w, x) + if w.next <= x < w'.next then 1 else 0
  {
    var k := |w.free[r]|;
    if k == 0 {
      GetSharedPlaces(w, n, hit, x);
    } else {
      var b, w' := w.free[r][k - 1], w.(free := w.free[r := w.free[r][..k - 1]]);
      InAnyUpdate(w.free, r, w.free[r][..k - 1], x);
      if b.capacity < n {
        PutSharedPlaces(w', b, x);
        GetSharedPlaces(PutShared(w', b), n, hit, x);
      }
    }
  }

  lemma {:induction false} ReleasePlaces(w: World, r: nat, b: Buffer, x: nat)
    requires Filed(w.pool) && r < |w.free|
    ensures var w' := ReleaseBuf(w, r, b);
      && Filed(w'.pool) && |w'.free| == |w.free| && w'.held == w.held && w'.next == w.next
      && Places(w', x) <= Places(w, x) + Here(b, x)
  {
    if |w.free[r]| >= MAX_POOLED_BUFS {
      PutSharedPlaces(w, b, x);
    } else {
      InSnoc(w.free[r], b, x);
      InAnyUpdate(w.free, r, w.free[r] + [b], x);
    }
  }

  lemma {:induction false} PutAllPlaces(w: World, bs: seq<Buffer>, x: nat)
    requires Filed(w.pool)
    ensures Filed(PutAll(w, bs).pool) && Places(PutAll(w, bs), x) <= Places(w, x) + In(bs, x)
  {
    if bs != [] {
      PutAllPlaces(w, bs[..|bs| - 1], x);
      PutSharedPlaces(PutAll(w, bs[..|bs| - 1]), bs[|bs| - 1], x);
    }
  }

  lemma {:induction false} StepOnce(w: World, a: Action, x: nat)
    requires Enabled(w, a) && Filed(w.pool) && Once(w, x)
    ensures var w' := Apply(w, a); Filed(w'.pool) && Once(w', x) && |w'.free| == |w.free| && |w'.held| == |w.held|
  {
    match a
    case Acquire(r, column, n, hit) =>
      AcquirePlaces(w, r, n, hit, x);
      var (w', b) := AcquireBuf(w, r, n, hit);
      InHeldUpdate(w'.held, column, Some(b), x);
    case Release(r, column) =>
      InHeldUpdate(w.held, column, None, x);
      ReleasePlaces(w.(held := w.held[column := None]), r, w.held[column].value, x);
    case CloseReader(r) =>
      InAnyUpdate(w.free, r, [], x);
      PutAllPlaces(w.(free := w.free[r := []]), w.free[r], x);
  }

  lemma {:induction false} StartOnce(readers: nat, columns: nat, x: nat)
    ensures Filed(Start(readers, columns).pool) && Once(Start(readers, columns), x)
  {
    var w := Start(readers, columns);
    TotalNothing(Ins(w.pool, x), |w.pool|);
    TotalNothing(Ins(w.free, x), |w.free|);
    TotalNothing(Helds(w.held, x), |w.held|);
  }

  lemma {:induction false} RunOnce(readers: nat, columns: nat, run: seq<Action>, x: nat)
    requires Exec(readers, columns, run).Some?
    ensures var w := Exec(readers, columns, run).value; Filed(w.pool) && Once(w, x)
  {
    if run == [] {
      StartOnce(readers, columns, x);
    } else {
      RunOnce(readers, columns, run[..|run| - 1], x);
      StepOnce(Exec(readers, columns, run[..|run| - 1]).value, run[|run| - 1], x);
    }
  }

  lemma {:induction false} TotalPart(weights: seq<nat>, n: nat, i: nat)
    requires i < n <= |weights|
    ensures weights[i] <= Total(weights, n)
  {
    if i < n - 1 {
      TotalPart(weights, n - 1, i);
    }
  }

  lemma {:induction false} TotalParts(weights: seq<nat>, n: nat, i: nat, j: nat)
    requires i < j < n <= |weights|
    ensures weights[i] + weights[j] <= Total(weights, n)
  {
    if j < n - 1 {
      TotalParts(weights, n - 1, i, j);
    } else {
      TotalPart(weights, n - 1, i);
    }
  }

  /** In every run: a buffer a column reads through is on no free list, in no pool class,
      and with no other column. */
  lemma {:induction false} HeldExclusively(readers: nat, columns: nat, run: seq<Action>, column: nat)
    requires Exec(readers, columns, run).Some?
    requires column < |Exec(readers, columns, run).value.held| && Exec(readers, columns, run).value.held[column].Some?
    ensures var w := Exec(readers, columns, run).value;
      var x := w.held[column].value.id;
      && InAny(w.pool, x) == 0 && InAny(w.free, x) == 0
      && forall other :: 0 <= other < |w.held| && other != column && w.held[other].Some? ==> w.held[other].value.id != x
  {
    var w := Exec(readers, columns, run).value;
    var x := w.held[column].value.id;
    RunOnce(readers, columns, run, x);
    TotalPart(Helds(w.held, x), |w.held|, column);
    forall other | 0 <= other < |w.held| && other != column && w.held[other].Some? ensures w.held[other].value.id != x {
      if other < column {
        TotalParts(Helds(w.held, x), |w.held|, other, column);
      } else {
        TotalParts(Helds(w.held, x), |w.held|, column, other);
      }
    }
  }

  /** In every run: a pooled buffer has its class's exact capacity, so a pooled get of
      that class fits. */
  lemma {:induction false} PooledFits(readers: nat, columns: nat, run: seq<Action>, n: nat, i: nat)
    requires Exec(readers, columns, run).Some? && BufClassOf(n) > 0
    requires |Exec(readers, columns, run).value.pool| > BufClassOf(n)
    requires i < |Exec(readers, columns, run).value.pool[BufClassOf(n)]|
    ensures var b := Exec(readers, columns, run).value.pool[BufClassOf(n)][i];
      b.capacity == BufClassOf(n) * BUF_CLASS_BYTES && b.capacity >= n
  {
    RunOnce(readers, columns, run, 0);
  }
}
