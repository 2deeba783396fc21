/** Sequences: flattening, occurrence counts and totals; and the size of subsets. */
module Seqs {

  function Flat<T>(xs: seq<seq<T>>): seq<T> {
    if xs == [] then [] else Flat(xs[..|xs| - 1]) + xs[|xs| - 1]
  }

  lemma {:induction false} FlatConcat<T>(xs: seq<seq<T>>, ys: seq<seq<T>>)
    ensures Flat(xs + ys) == Flat(xs) + Flat(ys)
  {
    if ys == [] {
      assert xs + ys == xs;
    } else {
      assert (xs + ys)[..|xs + ys| - 1] == xs + ys[..|ys| - 1];
      FlatConcat(xs, ys[..|ys| - 1]);
    }
  }

  lemma {:induction false} FlatOne<T>(x: seq<T>)
    ensures Flat([x]) == x
  {
    assert [x][..0] == [];
    assert Flat([x]) == [] + x;
  }

  /** The elements that pass, in order. */
  function Sift<T>(s: seq<T>, passes: T -> bool): (kept: seq<T>)
    ensures |kept| <= |s|
  {
    if s == [] then []
    else Sift(s[..|s| - 1], passes) + if passes(s[|s| - 1]) then [s[|s| - 1]] else []
  }

  lemma {:induction false} SiftConcat<T>(s: seq<T>, t: seq<T>, passes: T -> bool)
    ensures Sift(s + t, passes) == Sift(s, passes) + Sift(t, passes)
  {
    if t == [] {
      assert s + t == s;
    } else {
      assert (s + t)[..|s + t| - 1] == s + t[..|t| - 1];
      SiftConcat(s, t[..|t| - 1], passes);
    }
  }

  /** How often an element occurs. */
  function Count<T(==)>(s: seq<T>, x: T): nat {
    if s == [] then 0
    else Count(s[..|s| - 1], x) + if s[|s| - 1] == x then 1 else 0
  }

  lemma {:induction false} CountIsMultiplicity<T>(s: seq<T>, x: T)
    ensures Count(s, x) == multiset(s)[x]
  {
    if s != [] {
      CountIsMultiplicity(s[..|s| - 1], x);
      assert s == s[..|s| - 1] + [s[|s| - 1]];
    }
  }

  lemma {:induction false} CountConcat<T>(s: seq<T>, t: seq<T>, x: T)
    ensures Count(s + t, x) == Count(s, x) + Count(t, x)
  {
    if t == [] {
      assert s + t == s;
    } else {
      assert (s + t)[..|s + t| - 1] == s + t[..|t| - 1];
      CountConcat(s, t[..|t| - 1], x);
    }
  }

  lemma {:induction false} SameCounts<T>(s: seq<T>, t: seq<T>)
    requires forall x :: Count(s, x) == Count(t, x)
    ensures multiset(s) == multiset(t)
  {
    forall x ensures multiset(s)[x] == multiset(t)[x] {
      CountIsMultiplicity(s, x);
      CountIsMultiplicity(t, x);
    }
  }

  function Total(weights: seq<nat>, n: nat): nat
    requires n <= |weights|
  {
    if n == 0 then 0 else Total(weights, n - 1) + weights[n - 1]
  }

  lemma {:induction false} TotalUpdate(weights: seq<nat>, n: nat, t: nat, w: nat)
    requires n <= |weights| && t < |weights|
    ensures Total(weights[t := w], n) == Total(weights, n) + if t < n then w - weights[t] else 0
  {
    if n > 0 {
      TotalUpdate(weights, n - 1, t, w);
    }
  }

  lemma {:induction false} TotalNothing(weights: seq<nat>, n: nat)
    requires n <= |weights| && forall i :: 0 <= i < |weights| ==> weights[i] == 0
    ensures Total(weights, n) == 0
  {
    if n > 0 {
      TotalNothing(weights, n - 1);
    }
  }

  lemma {:induction false} SubsetSize<T>(a: set<T>, b: set<T>)
    requires a <= b
    ensures |a| <= |b| && (|a| == |b| ==> a == b)
  {
    if a != {} {
      var x :| x in a;
      SubsetSize(a - {x}, b - {x});
    }
  }
}
