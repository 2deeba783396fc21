/** The flat open-addressed table over int64 join keys (exec/join_table.go):
    linear probing over a power-of-two slot array, duplicates chained through the
    row store in insertion order. */
module JoinTables {
  import opened RowStores
  import opened Arith
  import opened Seqs

  const JOIN_TABLE_MIN_SLOTS: nat := 8
  const LOAD_NUM: nat := 7
  const LOAD_DEN: nat := 10

  type Hash = h: int | 0 <= h < TWO64

  /** What a table means: each key's rows, in insertion order. */
  type Chains = map<int, seq<int>>

  datatype Slot = Slot(key: int, head: int, tail: int)

  const EMPTY_SLOT: Slot := Slot(0, NO_ROW, 0)

  function Append(m: Chains, key: int, row: int): Chains {
    m[key := (if key in m then m[key] else []) + [row]]
  }

  // ---- Powers of two ------------------------------------------------------

  function Pow2(e: nat): (p: nat)
    ensures p > 0
  {
    if e == 0 then 1 else 2 * Pow2(e - 1)
  }

  function TrailingZeros(c: nat): nat
    requires c > 0
  {
    if c % 2 == 1 then 0 else 1 + TrailingZeros(c / 2)
  }

  lemma {:induction false} Pow2Sum(a: nat, b: nat)
    ensures Pow2(a) * Pow2(b) == Pow2(a + b)
  {
    if a > 0 {
      Pow2Sum(a - 1, b);
      assert Pow2(a) * Pow2(b) == 2 * (Pow2(a - 1) * Pow2(b));
    }
  }

  lemma {:induction false} TrailingZerosOfPow2(e: nat)
    ensures TrailingZeros(Pow2(e)) == e
  {
    if e > 0 {
      TrailingZerosOfPow2(e - 1);
    }
  }

  lemma {:induction false} Pow2Of64()
    ensures Pow2(64) == TWO64
  {
    assert Pow2(8) == 256;
    Pow2Sum(8, 8);
    Pow2Sum(16, 16);
    Pow2Sum(32, 32);
  }

  lemma {:induction false} Pow2Of40()
    ensures Pow2(39) >= 0x1_0000_0000
  {
    assert Pow2(8) == 256;
    Pow2Sum(8, 8);
    Pow2Sum(16, 16);
    Pow2Sum(7, 32);
  }

  // ---- Probe order ---------------------------------------------------------

  /** How many probe steps separate two slots, wrapping around. */
  function Dist(from: int, to: int, cap: int): int {
    if to >= from then to - from else to - from + cap
  }

  /** The slot a key's probe starts from: the high bits of its hash. */
  function Home(hash: int -> Hash, shift: nat, key: int): int {
    hash(key) / Pow2(shift)
  }

  lemma {:induction false} HomeInRange(hash: int -> Hash, shift: nat, key: int, cap: nat)
    requires Pow2(shift) * cap == TWO64
    ensures 0 <= Home(hash, shift, key) < cap
  {
    QuotientBelow(hash(key), Pow2(shift), cap);
  }

  lemma {:induction false} QuotientBelow(h: nat, w: nat, cap: nat)
    requires w > 0 && h < w * cap
    ensures 0 <= h / w < cap
  {
    var q := h / w;
    assert h == q * w + h % w;
    MulLe(Min(cap, q), q, w);
  }

  ghost predicate Occupied(s: seq<Slot>, i: int) {
    0 <= i < |s| && s[i].head != NO_ROW
  }

  /** Every slot a probe from `from` visits up to and including `to` is taken. */
  ghost predicate Run(s: seq<Slot>, from: int, to: int) {
    forall j :: 0 <= j < |s| && Dist(from, j, |s|) <= Dist(from, to, |s|) ==> Occupied(s, j)
  }

  ghost predicate Wellformed(m: Chains) {
    forall k :: k in m ==> m[k] != [] && forall j :: 0 <= j < |m[k]| ==> 0 <= m[k][j]
  }

  function SlotOf(m: Chains, k: int): Slot
    requires k in m && m[k] != []
  {
    Slot(k, m[k][0], m[k][|m[k]| - 1])
  }

  /** The slot array represents m: `at` is a bijection between the keys of m and
      the occupied slots, each slot carries its key's first and last row, and is
      reachable from the key's home by probing. */
  ghost predicate Layout(s: seq<Slot>, hash: int -> Hash, shift: nat, m: Chains, at: map<int, int>) {
    && Wellformed(m)
    && at.Keys == m.Keys
    && (forall k :: k in at ==> 0 <= at[k] < |s| && s[at[k]] == SlotOf(m, k) && Run(s, Home(hash, shift, k), at[k]))
    && (forall i :: Occupied(s, i) ==> s[i].key in at && at[s[i].key] == i)
  }

  /** A probe from `home` has passed every slot before i without meeting key. */
  ghost predicate Passed(s: seq<Slot>, home: int, i: int, key: int) {
    forall j :: 0 <= j < |s| && Dist(home, j, |s|) < Dist(home, i, |s|) ==> Occupied(s, j) && s[j].key != key
  }

  /** Fewer keys than slots leaves an empty slot, so every probe ends. */
  lemma {:induction false} EmptySlot(s: seq<Slot>, hash: int -> Hash, shift: nat, m: Chains, at: map<int, int>)
    returns (e: int)
    requires Layout(s, hash, shift, m, at) && |m| < |s|
    ensures 0 <= e < |s| && !Occupied(s, e)
  {
    if forall i :: 0 <= i < |s| ==> Occupied(s, i) {
      var all := set i {:trigger s[i]} | 0 <= i < |s| :: s[i].key;
      DistinctKeys(s, at, |s|);
      assert all <= at.Keys;
      SubsetSize(all, at.Keys);
      assert false;
    }
    e :| 0 <= e < |s| && !Occupied(s, e);
  }

  lemma {:induction false} DistinctKeys(s: seq<Slot>, at: map<int, int>, n: nat)
    requires n <= |s|
    requires forall i :: 0 <= i < n ==> s[i].key in at && at[s[i].key] == i
    ensures |set i {:trigger s[i]} | 0 <= i < n :: s[i].key| == n
  {
    if n > 0 {
      DistinctKeys(s, at, n - 1);
      var before := set i {:trigger s[i]} | 0 <= i < n - 1 :: s[i].key;
      assert (set i {:trigger s[i]} | 0 <= i < n :: s[i].key) == before + {s[n - 1].key};
    }
  }

  /** Stepping past a taken slot of another key keeps the probe on track. */
  lemma {:induction false} ProbeStep(s: seq<Slot>, home: int, i: int, e: int, key: int)
    requires 0 <= home < |s| && 0 <= i < |s| && 0 <= e < |s|
    requires Passed(s, home, i, key) && Occupied(s, i) && s[i].key != key && !Occupied(s, e)
    ensures var i' := (i + 1) % |s|;
      && 0 <= i' < |s| && Passed(s, home, i', key)
      && Dist(home, i', |s|) == Dist(home, i, |s|) + 1
      && Dist(home, i, |s|) < Dist(home, e, |s|)
  {
    WrapAround(i, |s|);
  }

  lemma {:induction false} WrapAround(i: nat, cap: nat)
    requires i < cap
    ensures (i + 1) % cap == if i + 1 == cap then 0 else i + 1
  {
  }

  /** A probe for a key that is present never meets an empty slot, so reaching one
      proves the key absent. */
  lemma {:induction false} ProbeHit(s: seq<Slot>, hash: int -> Hash, shift: nat, m: Chains, at: map<int, int>,
                                    key: int, i: int)
    requires Layout(s, hash, shift, m, at) && 0 <= i < |s| && Passed(s, Home(hash, shift, key), i, key)
    ensures key in m ==> Occupied(s, i)
  {
    if key in m {
      assert Run(s, Home(hash, shift, key), at[key]) && s[at[key]].key == key;
    }
  }

  /** Filling the empty slot a probe for a new key ends on. */
  lemma {:induction false} Placed(s: seq<Slot>, hash: int -> Hash, shift: nat, m: Chains, at: map<int, int>,
                                  key: int, i: int, rows: seq<int>)
    requires Layout(s, hash, shift, m, at) && key !in m
    requires rows != [] && forall j :: 0 <= j < |rows| ==> 0 <= rows[j]
    requires 0 <= i < |s| && !Occupied(s, i) && Passed(s, Home(hash, shift, key), i, key)
    ensures Layout(s[i := Slot(key, rows[0], rows[|rows| - 1])], hash, shift, m[key := rows], at[key := i])
  {
    var m', at', s' := m[key := rows], at[key := i], s[i := Slot(key, rows[0], rows[|rows| - 1])];
    assert SlotOf(m', key) == s'[i];
    assert forall j :: Occupied(s, j) ==> Occupied(s', j);
    var home := Home(hash, shift, key);
    forall j | 0 <= j < |s'| && Dist(home, j, |s'|) <= Dist(home, i, |s'|)
      ensures Occupied(s', j)
    {
      assert Dist(home, j, |s|) < Dist(home, i, |s|) || j == i;
    }
    forall k | k in at'
      ensures 0 <= at'[k] < |s'| && s'[at'[k]] == SlotOf(m', k) && Run(s', Home(hash, shift, k), at'[k])
    {
      if k != key {
        assert s[at[k]] == SlotOf(m, k) && Run(s, Home(hash, shift, k), at[k]);
        assert Occupied(s, at[k]);
      }
    }
  }

  /** Moving the tail of a key already present. */
  lemma {:induction false} Extended(s: seq<Slot>, hash: int -> Hash, shift: nat, m: Chains, at: map<int, int>,
                                    key: int, row: int)
    requires Layout(s, hash, shift, m, at) && key in m && 0 <= row
    ensures Layout(s[at[key] := s[at[key]].(tail := row)], hash, shift, Append(m, key, row), at)
  {
    var m', s' := Append(m, key, row), s[at[key] := s[at[key]].(tail := row)];
    assert forall j :: Occupied(s, j) ==> Occupied(s', j);
    forall k | k in at
      ensures 0 <= at[k] < |s'| && s'[at[k]] == SlotOf(m', k) && Run(s', Home(hash, shift, k), at[k])
    {
      assert s[at[k]] == SlotOf(m, k) && Run(s, Home(hash, shift, k), at[k]);
      assert k != key ==> at[k] != at[key];
    }
  }

  // ---- Chains through the store ----------------------------------------------

  /** Every row of every chain is owned by that chain at that position. */
  ghost predicate Owned(n: int, m: Chains, owner: map<int, (int, nat)>) {
    forall k, j :: k in m && 0 <= j < |m[k]| ==>
      0 <= m[k][j] < n && m[k][j] in owner && owner[m[k][j]] == (k, j)
  }

  ghost predicate Owners(m: Chains, owner: map<int, (int, nat)>) {
    forall r :: r in owner ==> owner[r].0 in m && owner[r].1 < |m[owner[r].0]| && m[owner[r].0][owner[r].1] == r
  }

  ghost predicate Links(next: seq<int>, m: Chains)
    requires forall k, j :: k in m && 0 <= j < |m[k]| ==> 0 <= m[k][j] < |next|
  {
    forall k, j :: k in m && 0 <= j < |m[k]| ==>
      next[m[k][j]] == if j + 1 < |m[k]| then m[k][j + 1] else NO_ROW
  }

  /** `next` links each key's rows in order; `owner` places every linked row in
      exactly one chain, so chains are disjoint and acyclic. */
  ghost predicate Linked(next: seq<int>, m: Chains, owner: map<int, (int, nat)>) {
    Owned(|next|, m, owner) && Owners(m, owner) && Links(next, m)
  }

  lemma {:induction false} NextLinked(next: seq<int>, m: Chains, owner: map<int, (int, nat)>, k: int, j: nat)
    requires Linked(next, m, owner) && k in m && j < |m[k]|
    ensures 0 <= m[k][j] < |next|
    ensures next[m[k][j]] == if j + 1 < |m[k]| then m[k][j + 1] else NO_ROW
    ensures j + 1 < |m[k]| ==> 0 <= m[k][j + 1]
  {
    assert Owned(|next|, m, owner) && Links(next, m);
    var chain := m[k];
    assert next[chain[j]] == if j + 1 < |chain| then chain[j + 1] else NO_ROW;
    assert j + 1 < |chain| ==> 0 <= chain[j + 1] < |next|;
  }

  /** Chains survive any change of links outside the rows they own. */
  lemma {:induction false} LinkedFrame(next: seq<int>, next': seq<int>, m: Chains, owner: map<int, (int, nat)>)
    requires Linked(next, m, owner) && |next| <= |next'|
    requires forall r :: r in owner && 0 <= r < |next| ==> next'[r] == next[r]
    ensures Linked(next', m, owner)
  {
  }

  lemma {:induction false} OwnerBound(n: int, m: Chains, owner: map<int, (int, nat)>)
    requires Owned(n, m, owner) && Owners(m, owner)
    ensures forall r :: r in owner ==> 0 <= r < n
  {
    forall r | r in owner ensures 0 <= r < n {
      var k, j := owner[r].0, owner[r].1;
      assert m[k][j] == r && 0 <= m[k][j] < n;
    }
  }

  /** The two link writes of an insert. */
  function Relink(next: seq<int>, m: Chains, key: int, row: int): seq<int>
    requires 0 <= row < |next|
    requires key in m ==> m[key] != [] && 0 <= m[key][|m[key]| - 1] < |next|
  {
    var next' := next[row := NO_ROW];
    if key in m then next'[m[key][|m[key]| - 1] := row] else next'
  }

  function Own(m: Chains, owner: map<int, (int, nat)>, key: int, row: int): map<int, (int, nat)> {
    owner[row := (key, if key in m then |m[key]| else 0)]
  }

  lemma {:induction false} LinkedAppend(next: seq<int>, m: Chains, owner: map<int, (int, nat)>, key: int, row: int)
    requires Linked(next, m, owner) && Wellformed(m) && 0 <= row < |next| && row !in owner
    ensures Linked(Relink(next, m, key, row), Append(m, key, row), Own(m, owner, key, row))
  {
    var m', owner', next' := Append(m, key, row), Own(m, owner, key, row), Relink(next, m, key, row);
    OwnedAppend(|next|, m, owner, key, row);
    forall k, j | k in m' && 0 <= j < |m'[k]|
      ensures next'[m'[k][j]] == if j + 1 < |m'[k]| then m'[k][j + 1] else NO_ROW
    {
      LinkAt(next, m, owner, key, row, k, j);
    }
    assert Links(next', m');
  }

  lemma {:induction false} LinkAt(next: seq<int>, m: Chains, owner: map<int, (int, nat)>, key: int, row: int,
                                  k: int, j: int)
    requires Linked(next, m, owner) && Wellformed(m) && 0 <= row < |next| && row !in owner
    requires k in Append(m, key, row) && 0 <= j < |Append(m, key, row)[k]|
    ensures var m', next' := Append(m, key, row), Relink(next, m, key, row);
      0 <= m'[k][j] < |next'| && next'[m'[k][j]] == if j + 1 < |m'[k]| then m'[k][j + 1] else NO_ROW
  {
    if key in m {
      var last := |m[key]| - 1;
      assert owner[m[key][last]] == (key, last);
    }
    var m', next' := Append(m, key, row), Relink(next, m, key, row);
    if k in m && j < |m[k]| {
      var r := m[k][j];
      assert m'[k][j] == r && owner[r] == (k, j) && r != row;
      assert next[r] == if j + 1 < |m[k]| then m[k][j + 1] else NO_ROW;
      if k == key && j == |m[k]| - 1 {
        assert next'[r] == row && m'[k][j + 1] == row;
      } else {
        assert key in m ==> m[key][|m[key]| - 1] != r;
        assert next'[r] == next[r];
      }
    } else {
      assert m'[k][j] == row;
    }
  }

  lemma {:induction false} TailOwned(next: seq<int>, m: Chains, owner: map<int, (int, nat)>, key: int)
    requires Linked(next, m, owner) && Wellformed(m)
    ensures key in m ==> 0 <= m[key][|m[key]| - 1] < |next| && m[key][|m[key]| - 1] in owner
  {
  }

  lemma {:induction false} OwnedAppend(n: int, m: Chains, owner: map<int, (int, nat)>, key: int, row: int)
    requires Owned(n, m, owner) && Owners(m, owner) && 0 <= row < n && row !in owner
    ensures Owned(n, Append(m, key, row), Own(m, owner, key, row))
    ensures Owners(Append(m, key, row), Own(m, owner, key, row))
  {
    var m', owner' := Append(m, key, row), Own(m, owner, key, row);
    forall k, j | k in m' && 0 <= j < |m'[k]|
      ensures 0 <= m'[k][j] < n && m'[k][j] in owner' && owner'[m'[k][j]] == (k, j)
    {
      if j < |m'[k]| - 1 || k != key {
        assert m'[k][j] == m[k][j];
      }
    }
  }

  lemma {:induction false} RowsBelow(rows: set<int>, n: nat)
    requires forall r :: r in rows ==> 0 <= r < n
    ensures |rows| <= n
  {
    if n > 0 {
      RowsBelow(rows - {n - 1}, n - 1);
    } else {
      assert forall r :: r !in rows;
    }
  }

  // ---- The table ---------------------------------------------------------------

  /** The smallest power-of-two slot count, from the floor up, whose load limit
      admits `keys` entries. Row counts stay below the int32 limit, so the source's
      int-overflow exit is never taken. */
  method JoinTableCapacity(keys: int) returns (slots: nat, ghost e: nat)
    requires keys <= MAX_BUILD_ROWS
    ensures slots == Pow2(e) && JOIN_TABLE_MIN_SLOTS <= slots && e <= 40
    ensures keys <= slots * LOAD_NUM / LOAD_DEN
    ensures slots == JOIN_TABLE_MIN_SLOTS || slots / 2 * LOAD_NUM < keys * LOAD_DEN
  {
    slots, e := JOIN_TABLE_MIN_SLOTS, 3;
    assert Pow2(3) == 8;
    if keys <= 0 {
      return;
    }
    var need := (keys * LOAD_DEN + LOAD_NUM - 1) / LOAD_NUM;
    Pow2Of40();
    while slots < need
      invariant slots == Pow2(e) && JOIN_TABLE_MIN_SLOTS <= slots
      invariant slots == JOIN_TABLE_MIN_SLOTS || slots / 2 < need
      invariant e <= 40
    {
      Pow2Order(e, 39);
      slots, e := slots * 2, e + 1;
    }
  }

  lemma {:induction false} Pow2Order(a: nat, b: nat)
    ensures a > b ==> Pow2(a) >= 2 * Pow2(b)
    decreases a
  {
    if a > b + 1 {
      Pow2Order(a - 1, b);
    }
  }

  /** Ends row's chain, and hangs it off the previous tail when there is one. */
  method WriteLinks(next: array<int>, row: nat, tail: int)
    requires row < next.Length && NO_ROW <= tail < next.Length && tail != row
    modifies next
    ensures next[..] == if tail ==
      NO_ROW then old(next[..])[row := NO_ROW] else old(next[..])[row := NO_ROW][tail := row]
  {
    next[row] := NO_ROW;
    if tail != NO_ROW {
      next[tail] := row;
    }
  }

  class JoinHashTable {
    const hash: int -> Hash
    const store: RowStore
    var slots: array<Slot>
    var shift: nat
    var keys: nat
    var numRow: nat
    var growAt: nat
    ghost var chains: Chains
    ghost var at: map<int, int>
    ghost var owner: map<int, (int, nat)>
    ghost var rehashes: nat

    /** The slot array alone: capacity, load and probing. */
    ghost predicate Probing()
      reads this, slots
    {
      && JOIN_TABLE_MIN_SLOTS <= slots.Length && Pow2(shift) * slots.Length == TWO64
      && growAt == slots.Length * LOAD_NUM / LOAD_DEN
      && keys == |chains| <= growAt
      && Layout(slots[..], hash, shift, chains, at)
    }

    ghost predicate Valid()
      reads this, slots, store, store.next
    {
      && Probing() && store.Shaped()
      && numRow == |owner|
      && Linked(store.next[..store.n], chains, owner)
    }

    method SetCapacity(capacity: nat, ghost e: nat)
      requires capacity == Pow2(e) && JOIN_TABLE_MIN_SLOTS <= capacity && e <= 64
      modifies this`slots, this`shift, this`growAt
      ensures fresh(slots) && slots.Length == capacity
      ensures Pow2(shift) * capacity == TWO64 && growAt == capacity * LOAD_NUM / LOAD_DEN
      ensures forall i :: 0 <= i < capacity ==> !Occupied(slots[..], i)
    {
      slots := new Slot[capacity](_ => EMPTY_SLOT);
      TrailingZerosOfPow2(e);
      shift := 64 - TrailingZeros(capacity);
      Pow2Sum(shift, e);
      Pow2Of64();
      growAt := capacity * LOAD_NUM / LOAD_DEN;
    }

    constructor (hash: int -> Hash, store: RowStore, expectedKeys: int)
      requires store.Shaped() && expectedKeys <= MAX_BUILD_ROWS
      ensures Valid() && fresh(slots) && this.hash == hash && this.store == store
      ensures chains == map[] && owner == map[] && rehashes == 0 && expectedKeys <= growAt
    {
      this.hash, this.store := hash, store;
      keys, numRow, growAt, shift := 0, 0, 0, 0;
      chains, at, owner, rehashes := map[], map[], map[], 0;
      slots := new Slot[0];
      new;
      var cap, e := JoinTableCapacity(expectedKeys);
      SetCapacity(cap, e);
    }

    /** The probe loop: the key's own slot when it is present, otherwise the empty
        slot its probe ends on. It ends because keys <= growAt < capacity. */
    method Probe(key: int, h: Hash) returns (i: nat)
      requires Probing() && h == hash(key)
      ensures i < slots.Length && Passed(slots[..], Home(hash, shift, key), i, key)
      ensures key in chains ==> i == at[key]
      ensures key !in chains ==> !Occupied(slots[..], i)
    {
      ghost var s := slots[..];
      ghost var e := EmptySlot(s, hash, shift, chains, at);
      ghost var home := Home(hash, shift, key);
      HomeInRange(hash, shift, key, slots.Length);
      i := h / Pow2(shift);
      while slots[i].head != NO_ROW && slots[i].key != key
        invariant 0 <= i < slots.Length && Passed(s, home, i, key)
        decreases Dist(home, e, slots.Length) - Dist(home, i, slots.Length)
      {
        assert Occupied(s, i);
        ProbeStep(s, home, i, e, key);
        i := (i + 1) % slots.Length;
      }
      ProbeHit(s, hash, shift, chains, at, key, i);
      assert slots[i].head != NO_ROW ==> Occupied(s, i);
    }

    /** The first row carrying key, or noRow; h is the caller's hash of key. */
    method LookupHashed(key: int, h: Hash) returns (row: int)
      requires Probing() && h == hash(key)
      ensures row == if key in chains then chains[key][0] else NO_ROW
    {
      var i := Probe(key, h);
      row := slots[i].head;
    }

    /** The probe's chain walk: every row carrying key, first to last. */
    method Walk(key: int, h: Hash) returns (rows: seq<int>)
      requires Valid() && h == hash(key)
      ensures rows == if key in chains then chains[key] else []
    {
      ghost var chain := if key in chains then chains[key] else [];
      var r := LookupHashed(key, h);
      rows := [];
      while r != NO_ROW
        invariant |rows| <= |chain| && rows == chain[..|rows|]
        invariant r == if |rows| < |chain| then chain[|rows|] else NO_ROW
        decreases |chain| - |rows|
      {
        var next := NextOf(key, |rows|, r);
        rows, r := rows + [r], next;
      }
    }

    /** Following one link of a key's chain. */
    method NextOf(key: int, ghost j: nat, r: int) returns (next: int)
      requires Valid() && key in chains && j < |chains[key]| && chains[key][j] == r
      ensures next == if j + 1 < |chains[key]| then chains[key][j + 1] else NO_ROW
      ensures next == NO_ROW || 0 <= next
    {
      NextLinked(store.next[..store.n], chains, owner, key, j);
      next := store.next[r];
    }

    /** The first i of n rows from off on are linked, without a rehash, and there is
        room for the rest. */
    ghost predicate Filled(n: nat, i: nat, off: nat)
      reads this
    {
      rehashes == 0 && keys <= i && n <= growAt && RowsWithin(owner, off, i)
    }

    method InsertNext(key: int, n: nat, i: nat, off: nat)
      requires Valid() && i < n && Filled(n, i, off) && off + n <= store.n
      modifies this, slots, store.next
      ensures Valid() && Filled(n, i + 1, off) && (fresh(slots) || slots == old(slots))
      ensures chains == Append(old(chains), key, off + i)
      ensures SameOutside(old(store.next[..]), store.next[..], off, i + 1)
    {
      ghost var owned, linked, links := owner, chains, store.next[..];
      Insert(key, off + i);
      RowsWithinOwn(owned, linked, key, off, i);
      OutsideOwn(links, store.next[..], owned, off, i);
    }

    /** Links row into key's chain after any row already stored for that key. */
    method Insert(key: int, row: int)
      requires Valid() && 0 <= row < store.n && row !in owner
      modifies this, slots, store.next
      ensures Valid() && (fresh(slots) || slots == old(slots))
      ensures chains == Append(old(chains), key, row) && owner == Own(old(chains), old(owner), key, row)
      ensures forall r :: 0 <= r < store.next.Length && r != row && r !in old(owner) ==>
        store.next[r] == old(store.next[r])
      ensures rehashes == old(rehashes) + if old(keys) >= old(growAt) then 1 else 0
      ensures old(keys) < old(growAt) ==> growAt == old(growAt)
      ensures numRow == old(numRow) + 1 && keys <= old(keys) + 1
    {
      if keys >= growAt {
        Grow();
      }
      Link(key, row);
    }

    method Link(key: int, row: int)
      requires Valid() && keys < growAt && 0 <= row < store.n && row !in owner
      modifies slots, store.next, this`keys, this`chains, this`at, this`owner, this`numRow
      ensures Valid()
      ensures chains == Append(old(chains), key, row) && owner == Own(old(chains), old(owner), key, row)
      ensures forall r :: 0 <= r < store.next.Length && r != row && r !in old(owner) ==>
        store.next[r] == old(store.next[r])
      ensures numRow == old(numRow) + 1 && keys <= old(keys) + 1
    {
      ghost var m := chains;
      assert Wellformed(m);
      TailOwned(store.next[..store.n], m, owner, key);
      var tail := ClaimSlot(key, row);
      Chain(key, row, tail, m);
    }

    /** The link writes of insert, after the slot has been claimed. */
    method Chain(key: int, row: int, tail: int, ghost m: Chains)
      requires store.Shaped() && Wellformed(m) && Linked(store.next[..store.n], m, owner)
      requires 0 <= row < store.n && row !in owner && numRow == |owner|
      requires tail == if key in m then m[key][|m[key]| - 1] else NO_ROW
      requires key in m ==> 0 <= tail < store.n && tail in owner
      modifies store.next, this`owner, this`numRow
      ensures Linked(store.next[..store.n], Append(m, key, row), owner)
      ensures owner == Own(m, old(owner), key, row) && numRow == |owner| == old(numRow) + 1
      ensures forall r :: 0 <= r < store.next.Length && r != row && r !in old(owner) ==>
        store.next[r] == old(store.next[r])
    {
      ghost var next := store.next[..store.n];
      LinkedAppend(next, m, owner, key, row);
      WriteLinks(store.next, row, tail);
      assert store.next[..store.n] == Relink(next, m, key, row);
      owner := Own(m, owner, key, row);
      numRow := numRow + 1;
    }

    /** Fills a fresh slot or moves the key's tail; returns the tail it replaced. */
    method ClaimSlot(key: int, row: int) returns (tail: int)
      requires Probing() && keys < growAt && 0 <= row
      modifies slots, this`keys, this`chains, this`at
      ensures Probing() && chains == Append(old(chains), key, row) && keys <= old(keys) + 1
      ensures tail == if key in old(chains) then old(chains)[key][|old(chains)[key]| - 1] else NO_ROW
    {
      var i := Probe(key, hash(key));
      if slots[i].head == NO_ROW {
        FillSlot(i, key, row);
        return NO_ROW;
      }
      assert Occupied(slots[..], i);
      tail := slots[i].tail;
      MoveTail(i, key, row);
    }

    method FillSlot(i: nat, key: int, row: int)
      requires Probing() && keys < growAt && 0 <= row && i < slots.Length && key !in chains
      requires !Occupied(slots[..], i) && Passed(slots[..], Home(hash, shift, key), i, key)
      modifies slots, this`keys, this`chains, this`at
      ensures Probing() && chains == Append(old(chains), key, row) && keys == old(keys) + 1
    {
      Placed(slots[..], hash, shift, chains, at, key, i, [row]);
      slots[i] := Slot(key, row, row);
      assert slots[..] == old(slots[..])[i := Slot(key, row, row)] && [] + [row] == [row];
      keys, chains, at := keys + 1, chains[key := [row]], at[key := i];
    }

    method MoveTail(i: nat, key: int, row: int)
      requires Probing() && 0 <= row && key in chains && i == at[key]
      modifies slots, this`chains
      ensures Probing() && chains == Append(old(chains), key, row)
    {
      Extended(slots[..], hash, shift, chains, at, key, row);
      slots[i] := slots[i].(tail := row);
      assert slots[..] == old(slots[..])[i := old(slots[..])[i].(tail := row)];
      assert Append(chains, key, row).Keys == chains.Keys;
      chains := Append(chains, key, row);
    }

    /** Doubles the slot array and moves every slot; rows and chains stay put. */
    method Grow()
      requires Valid() && keys == growAt
      modifies this`slots, this`shift, this`growAt, this`at, this`rehashes
      ensures Valid() && fresh(slots) && keys < growAt && rehashes == old(rehashes) + 1
    {
      ghost var e := CapacityExponent();
      var before := slots;
      ghost var shift0 := shift;
      SetCapacity(before.Length * 2, e);
      Reinsert(before, shift0);
      rehashes := rehashes + 1;
    }

    method Reinsert(before: array<Slot>, ghost shift0: nat)
      requires before != slots && Layout(before[..], hash, shift0, chains, at)
      requires |chains| < slots.Length && Pow2(shift) * slots.Length == TWO64
      requires forall i :: 0 <= i < slots.Length ==> !Occupied(slots[..], i)
      modifies slots, this`at
      ensures Layout(slots[..], hash, shift, chains, at)
    {
      ghost var s, at0 := before[..], at;
      MovedNone(s, hash, shift0, chains, at0);
      at := map[];
      for j := 0 to before.Length
        invariant before[..] == s
        invariant Layout(slots[..], hash, shift, Moved(chains, at0, j), at)
      {
        var slot := before[j];
        MovedStep(s, hash, shift0, chains, at0, j);
        if slot.head != NO_ROW {
          Place(slot, Moved(chains, at0, j), chains[slot.key]);
        }
      }
    }

    /** Puts a whole slot at the first free position of its probe. */
    method Place(slot: Slot, ghost m: Chains, ghost rows: seq<int>)
      requires Pow2(shift) * slots.Length == TWO64
      requires Layout(slots[..], hash, shift, m, at) && |m| < slots.Length && slot.key !in m
      requires rows != [] && (forall j :: 0 <= j < |rows| ==> 0 <= rows[j])
      requires slot == Slot(slot.key, rows[0], rows[|rows| - 1])
      modifies slots, this`at
      ensures Layout(slots[..], hash, shift, m[slot.key := rows], at)
    {
      ghost var s := slots[..];
      ghost var e := EmptySlot(s, hash, shift, m, at);
      ghost var home := Home(hash, shift, slot.key);
      HomeInRange(hash, shift, slot.key, slots.Length);
      var i := hash(slot.key) / Pow2(shift);
      while slots[i].head != NO_ROW
        invariant slots[..] == s && at == old(at)
        invariant 0 <= i < slots.Length && Passed(s, home, i, slot.key)
        decreases Dist(home, e, slots.Length) - Dist(home, i, slots.Length)
      {
        assert Occupied(s, i);
        ProbeStep(s, home, i, e, slot.key);
        i := (i + 1) % slots.Length;
      }
      Placed(s, hash, shift, m, at, slot.key, i, rows);
      slots[i] := slot;
      at := at[slot.key := i];
      assert slots[..] == s[i := slot];
    }

    /** A full table holds few enough keys that twice its slots is still a power of
        two below 2^64. */
    lemma {:induction false} CapacityExponent() returns (e: nat)
      requires Valid() && keys == growAt
      ensures slots.Length * 2 == Pow2(e) && e <= 64
    {
      KeysBelowRows(store.n, chains, owner);
      Pow2Of64();
      assert shift > 0;
      Pow2Order(shift, 64);
      Pow2Sum(shift, 64 - shift);
      e := 65 - shift;
      SameFactor(Pow2(shift), slots.Length, Pow2(64 - shift));
    }
  }

  ghost predicate RowsWithin(owner: map<int, (int, nat)>, off: int, i: nat) {
    forall r :: r in owner ==> off <= r < off + i
  }

  /** Links change only at the new row and at rows already owned. */
  lemma {:induction false} OutsideOwn(links: seq<int>, links': seq<int>, owner: map<int, (int, nat)>, off: int, i: nat)
    requires RowsWithin(owner, off, i) && |links| == |links'|
    requires forall r :: 0 <= r < |links| && r != off + i && r !in owner ==> links'[r] == links[r]
    ensures SameOutside(links, links', off, i + 1)
  {
  }

  lemma {:induction false} RowsWithinOwn(owner: map<int, (int, nat)>, m: Chains, key: int, off: int, i: nat)
    requires RowsWithin(owner, off, i)
    ensures RowsWithin(Own(m, owner, key, off + i), off, i + 1)
  {
  }

  /** Each key owns at least one row and no row has two owners. */
  lemma {:induction false} KeysBelowRows(n: nat, m: Chains, owner: map<int, (int, nat)>)
    requires Wellformed(m) && Owned(n, m, owner) && Owners(m, owner)
    ensures |m| <= |owner| <= n
  {
    var heads := map k | k in m :: m[k][0];
    forall k | k in heads ensures heads[k] in owner.Keys && owner[heads[k]] == (k, 0) {
    }
    assert heads.Keys == m.Keys;
    ImageSize(m.Keys, heads, owner.Keys);
    OwnerBound(n, m, owner);
    RowsBelow(owner.Keys, n);
  }

  lemma {:induction false} SameFactor(w: nat, a: nat, b: nat)
    requires w > 0 && w * a == w * b
    ensures a == b
  {
    assert w * (a - b) == 0;
  }

  lemma {:induction false} ImageSize<T, U>(dom: set<T>, f: map<T, U>, codomain: set<U>)
    requires dom <= f.Keys
    requires forall k :: k in dom ==> f[k] in codomain
    requires forall k, l :: k in dom && l in dom && f[k] == f[l] ==> k == l
    ensures |dom| <= |codomain|
  {
    if dom != {} {
      var k :| k in dom;
      ImageSize(dom - {k}, f, codomain - {f[k]});
    }
  }

  /** The chains of the keys that sat in the first j slots. */
  ghost function Moved(m: Chains, at: map<int, int>, j: int): Chains {
    map k | k in m && k in at && at[k] < j :: m[k]
  }

  lemma {:induction false} MovedNone(s: seq<Slot>, hash: int -> Hash, shift: nat, m: Chains, at: map<int, int>)
    requires Layout(s, hash, shift, m, at)
    ensures Moved(m, at, 0) == map[] && Moved(m, at, |s|) == m
  {
    forall k | k in m ensures k in at && 0 <= at[k] < |s| {
      assert k in at.Keys;
    }
  }

  lemma {:induction false} MovedStep(s: seq<Slot>, hash: int -> Hash, shift: nat, m: Chains, at: map<int, int>, j: nat)
    requires Layout(s, hash, shift, m, at) && j < |s|
    ensures |Moved(m, at, j)| <= |m|
    ensures s[j].head == NO_ROW ==> Moved(m, at, j + 1) == Moved(m, at, j)
    ensures s[j].head != NO_ROW ==>
      && s[j].key in m && s[j].key !in Moved(m, at, j) && s[j] == SlotOf(m, s[j].key)
      && Moved(m, at, j + 1) == Moved(m, at, j)[s[j].key := m[s[j].key]]
  {
    SubsetSize(Moved(m, at, j).Keys, m.Keys);
    forall k | k in m && at[k] == j ensures Occupied(s, j) && s[j].key == k {
      assert k in at.Keys && s[at[k]] == SlotOf(m, k);
    }
    if s[j].head != NO_ROW {
      assert Occupied(s, j);
    }
  }
}
