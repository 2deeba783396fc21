/** How often a row occurs in the results of the relational operators: the algebra
    behind comparing plans as multisets. */
module Counting {
  import opened Sql
  import opened Plans
  import opened Seqs

  lemma {:induction false} CountSelect(rows: seq<Row>, e: Expr, sem: Semantics, row: Row)
    ensures Count(Select(rows, e, sem), row) == if True(e, row, sem) then Count(rows, row) else 0
  {
    if rows != [] {
      var last := rows[|rows| - 1];
      CountSelect(rows[..|rows| - 1], e, sem, row);
      CountConcat(Select(rows[..|rows| - 1], e, sem), if True(e, last, sem) then [last] else [], row);
      assert Count([last], row) == if last == row then 1 else 0 by {
        assert [last][..0] == [];
      }
    }
  }

  // ---- Rows over disjoint columns ------------------------------------------------------

  /** Every row has exactly these columns. */
  ghost predicate Over(rows: seq<Row>, names: set<string>) {
    forall i :: 0 <= i < |rows| ==> rows[i].Keys == names
  }

  /** The part of a row within some columns. */
  function On(row: Row, names: set<string>): Row {
    map c | c in row && c in names :: row[c]
  }

  /** A row over X and Y is a merge in exactly one way. */
  lemma {:induction false} MergeUnique(l: Row, r: Row, x: set<string>, y: set<string>, row: Row)
    requires l.Keys == x && r.Keys == y && x !! y
    ensures l + r == row <==> row.Keys == x + y && l == On(row, x) && r == On(row, y)
  {
    if l + r == row {
      assert On(row, x) == l;
      assert On(row, y) == r;
    }
    assert row.Keys == x + y ==> row == On(row, x) + On(row, y);
  }

  lemma {:induction false} CountPairUp(ls: seq<Row>, r: Row, x: set<string>, y: set<string>, row: Row)
    requires Over(ls, x) && r.Keys == y && x !! y
    ensures Count(PairUp(ls, r), row) == if row.Keys == x + y && r == On(row, y) then Count(ls, On(row, x)) else 0
  {
    if ls != [] {
      var n := |ls| - 1;
      CountPairUp(ls[..n], r, x, y, row);
      assert PairUp(ls, r)[..n] == PairUp(ls[..n], r);
      MergeUnique(ls[n], r, x, y, row);
    }
  }

  /** Multiplicities multiply. */
  lemma {:induction false} CountPairs(ls: seq<Row>, rs: seq<Row>, x: set<string>, y: set<string>, row: Row)
    requires Over(ls, x) && Over(rs, y) && x !! y
    ensures Count(Pairs(ls, rs), row) == if row.Keys == x + y then Count(ls, On(row, x)) * Count(rs, On(row, y)) else 0
  {
    if rs != [] {
      var n := |rs| - 1;
      CountPairs(ls, rs[..n], x, y, row);
      CountPairUp(ls, rs[n], x, y, row);
      CountConcat(Pairs(ls, rs[..n]), PairUp(ls, rs[n]), row);
      Distribute(Count(ls, On(row, x)), Count(rs[..n], On(row, y)));
    }
  }

  lemma {:induction false} Distribute(a: nat, b: nat)
    ensures a * b + a == a * (b + 1)
  {
  }

  lemma {:induction false} SelectOver(rows: seq<Row>, e: Expr, sem: Semantics, names: set<string>)
    requires Over(rows, names)
    ensures Over(Select(rows, e, sem), names)
  {
    if rows != [] {
      SelectOver(rows[..|rows| - 1], e, sem, names);
    }
  }

  lemma {:induction false} PairsOver(ls: seq<Row>, rs: seq<Row>, x: set<string>, y: set<string>)
    requires Over(ls, x) && Over(rs, y)
    ensures Over(Pairs(ls, rs), x + y)
  {
    if rs != [] {
      PairsOver(ls, rs[..|rs| - 1], x, y);
      assert Over(PairUp(ls, rs[|rs| - 1]), x + y);
    }
  }

  // ---- Products over tables ------------------------------------------------------------

  /** The columns of the first n tables that are in `tables`. */
  ghost function Keys(names: seq<set<string>>, tables: set<int>, n: nat): set<string>
    requires n <= |names|
  {
    if n == 0 then {} else Keys(names, tables, n - 1) + if n - 1 in tables then names[n - 1] else {}
  }

  /** In how many ways a row is made of one row from each of those tables. */
  ghost function Ways(data: seq<seq<Row>>, names: seq<set<string>>, tables: set<int>, n: nat, row: Row): nat
    requires n <= |data| == |names|
  {
    if n == 0 then 1
    else Ways(data, names, tables, n - 1, row) * if n - 1 in tables then Count(data[n - 1], On(row, names[n - 1]))
        else 1
  }

  ghost predicate Disjoint(names: seq<set<string>>) {
    forall i, j :: 0 <= i < j < |names| ==> names[i] !! names[j]
  }

  lemma {:induction false} KeysMember(names: seq<set<string>>, tables: set<int>, n: nat, c: string)
    requires n <= |names|
    ensures c in Keys(names, tables, n) <==> exists t: nat :: t < n && t in tables && c in names[t]
  {
    if n > 0 {
      KeysMember(names, tables, n - 1, c);
    }
  }

  lemma {:induction false} KeysInsert(names: seq<set<string>>, tables: set<int>, n: nat, t: nat)
    requires t < n <= |names|
    ensures Keys(names, tables + {t}, n) == Keys(names, tables, n) + names[t]
  {
    forall c ensures c in Keys(names, tables + {t}, n) <==> c in Keys(names, tables, n) || c in names[t] {
      KeysMember(names, tables + {t}, n, c);
      KeysMember(names, tables, n, c);
    }
  }

  lemma {:induction false} KeysApart(names: seq<set<string>>, tables: set<int>, n: nat, t: nat)
    requires t < |names| && n <= |names| && Disjoint(names) && t !in tables
    ensures Keys(names, tables, n) !! names[t]
  {
    if n > 0 {
      KeysApart(names, tables, n - 1, t);
    }
  }

  lemma {:induction false} WaysInsert(data: seq<seq<Row>>, names: seq<set<string>>, tables: set<int>, n: nat,
                                      t: nat, row: Row)
    requires n <= |data| == |names| && t < |names| && t !in tables
    ensures t < n ==>
      Ways(data, names, tables + {t}, n, row) == Ways(data, names, tables, n, row) * Count(data[t], On(row, names[t]))
    ensures t >= n ==> Ways(data, names, tables + {t}, n, row) == Ways(data, names, tables, n, row)
  {
    if n > 0 {
      WaysInsert(data, names, tables, n - 1, t, row);
      var f := if n - 1 in tables then Count(data[n - 1], On(row, names[n - 1])) else 1;
      if t < n - 1 {
        Swap(Ways(data, names, tables, n - 1, row), Count(data[t], On(row, names[t])), f);
      }
    }
  }

  lemma {:induction false} Swap(a: nat, b: nat, c: nat)
    ensures a * b * c == a * c * b
  {
  }

  /** Only the columns of those tables matter. */
  lemma {:induction false} WaysFrame(data: seq<seq<Row>>, names: seq<set<string>>, tables: set<int>, n: nat,
                                     row: Row, cols: set<string>)
    requires n <= |data| == |names| && Keys(names, tables, n) <= cols
    ensures Ways(data, names, tables, n, On(row, cols)) == Ways(data, names, tables, n, row)
  {
    if n > 0 {
      WaysFrame(data, names, tables, n - 1, row, cols);
      if n - 1 in tables {
        assert On(On(row, cols), names[n - 1]) == On(row, names[n - 1]);
      }
    }
  }

  /** The reference: every combination of rows, in FROM order. */
  function CrossAll(data: seq<seq<Row>>): seq<Row> {
    if data == [] then [map[]] else Pairs(CrossAll(data[..|data| - 1]), data[|data| - 1])
  }

  function First(n: nat): (tables: set<int>)
    ensures forall i :: i in tables <==> 0 <= i < n
  {
    if n == 0 then {} else First(n - 1) + {n - 1}
  }

  lemma {:induction false} CrossCount(data: seq<seq<Row>>, names: seq<set<string>>, n: nat, row: Row)
    requires n <= |data| == |names| && Disjoint(names) && forall t :: 0 <= t < |data| ==> Over(data[t], names[t])
    ensures Over(CrossAll(data[..n]), Keys(names, First(n), n))
    ensures Count(CrossAll(data[..n]), row) ==
      if row.Keys == Keys(names, First(n), n) then Ways(data, names, First(n), n, row) else 0
  {
    if n == 0 {
      var none: Row := map[];
      assert CrossAll(data[..0]) == [none] && [none][..0] == [];
      assert row.Keys == {} <==> row == map[];
    } else {
      var m := n - 1;
      var x, y := Keys(names, First(m), m), names[m];
      CrossCount(data, names, m, On(row, x));
      assert data[..n][..m] == data[..m];
      KeysFirst(names, n);
      KeysApart(names, First(m), m, m);
      PairsOver(CrossAll(data[..m]), data[m], x, y);
      CountPairs(CrossAll(data[..m]), data[m], x, y, row);
      WaysFrame(data, names, First(m), m, row, x);
      WaysFirst(data, names, n, row);
      assert row.Keys == x + y ==> On(row, x).Keys == x;
    }
  }

  lemma {:induction false} KeysSame(names: seq<set<string>>, s: set<int>, s': set<int>, n: nat)
    requires n <= |names| && forall i: nat :: i < n ==> (i in s <==> i in s')
    ensures Keys(names, s, n) == Keys(names, s', n)
  {
    if n > 0 {
      KeysSame(names, s, s', n - 1);
    }
  }

  lemma {:induction false} KeysFirst(names: seq<set<string>>, n: nat)
    requires 0 < n <= |names|
    ensures Keys(names, First(n), n) == Keys(names, First(n - 1), n - 1) + names[n - 1]
  {
    KeysSame(names, First(n), First(n - 1), n - 1);
  }

  lemma {:induction false} WaysSame(data: seq<seq<Row>>, names: seq<set<string>>, s: set<int>, s': set<int>, n: nat,
                                    row: Row)
    requires n <= |data| == |names| && forall i: nat :: i < n ==> (i in s <==> i in s')
    ensures Ways(data, names, s, n, row) == Ways(data, names, s', n, row)
  {
    if n > 0 {
      WaysSame(data, names, s, s', n - 1, row);
    }
  }

  lemma {:induction false} WaysFirst(data: seq<seq<Row>>, names: seq<set<string>>, n: nat, row: Row)
    requires 0 < n <= |data| == |names|
    ensures Ways(data, names, First(n), n, row) ==
      Ways(data, names, First(n - 1), n - 1, row) * Count(data[n - 1], On(row, names[n - 1]))
  {
    WaysSame(data, names, First(n), First(n - 1), n - 1, row);
  }
}
