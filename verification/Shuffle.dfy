/** The seeded generator and the in-place shuffle every epoch runs. */
module Shuffle {

  /** mulberry32: the state after a step, and what that state emits. */
  const STRIDE: bv32 := 0x6d2b79f5

  function Emit(a: bv32): bv32 {
    var t := (a ^ (a >> 15)) * (a | 1);
    var u := t ^ (t + (t ^ (t >> 7)) * (t | 61));
    u ^ (u >> 14)
  }

  /** What the generator with seed 0 emits first and second. */
  lemma ReferenceValues()
    ensures Emit(STRIDE) == 1144304738 && Emit(STRIDE + STRIDE) == 1416247
  {
  }

  function Unit(x: bv32): (r: real)
    ensures 0.0 <= r < 1.0
  {
    (x as int as real) / 4294967296.0
  }

  class Mulberry32 {
    var a: bv32

    constructor (seed: bv32)
      ensures a == seed
    {
      a := seed;
    }

    method Next() returns (r: real)
      modifies this
      ensures a == old(a) + STRIDE && r == Unit(Emit(a))
      ensures 0.0 <= r < 1.0
    {
      a := a + STRIDE;
      r := Unit(Emit(a));
    }
  }

  /** The generator's state after n draws. */
  ghost function After(a: bv32, n: nat): bv32 {
    if n == 0 then a else After(a, n - 1) + STRIDE
  }

  /** A draw in [0, 1) scaled to i+1 cells lands in 0..i. */
  function Cell(r: real, i: nat): (j: nat)
    requires 0.0 <= r < 1.0
    ensures j <= i && j as real <= r * (i + 1) as real < j as real + 1.0
  {
    var bound := (i + 1) as real;
    assert 0.0 <= r * bound < bound by { ScaledDraw(r, bound); }
    (r * bound).Floor
  }

  lemma ScaledDraw(r: real, bound: real)
    requires 0.0 <= r < 1.0 && bound > 0.0
    ensures 0.0 <= r * bound < bound
  {
    assert (1.0 - r) * bound > 0.0;
  }

  function Swapped<T>(s: seq<T>, i: nat, j: nat): (t: seq<T>)
    requires i < |s| && j < |s|
    ensures |t| == |s|
  {
    s[i := s[j]][j := s[i]]
  }

  /** Draw k swaps entry n-1-k with one of the entries 0..n-1-k. */
  ghost predicate Draws(ds: seq<nat>, n: nat) {
    |ds| <= n && forall k :: 0 <= k < |ds| ==> ds[k] < n - k
  }

  /** Fisher-Yates on the first n entries, from the top down. */
  ghost function FisherYates<T>(s: seq<T>, n: nat, ds: seq<nat>): (t: seq<T>)
    requires n <= |s| && Draws(ds, n)
    ensures |t| == |s|
    decreases |ds|
  {
    if ds == [] then s else FisherYates(Swapped(s, n-1, ds[0]), n-1, ds[1..])
  }

  lemma SwapKeepsMultiset<T>(s: seq<T>, i: nat, j: nat)
    requires i < |s| && j < |s|
    ensures multiset(Swapped(s, i, j)) == multiset(s)
  {
  }

  /** Whatever is drawn, the result is a permutation, and entries from n on are untouched. */
  lemma {:induction false} FisherYatesPermutes<T>(s: seq<T>, n: nat, ds: seq<nat>)
    requires n <= |s| && Draws(ds, n)
    ensures multiset(FisherYates(s, n, ds)) == multiset(s)
    ensures forall k :: n <= k < |s| ==> FisherYates(s, n, ds)[k] == s[k]
    decreases |ds|
  {
    if ds != [] {
      SwapKeepsMultiset(s, n-1, ds[0]);
      FisherYatesPermutes(Swapped(s, n-1, ds[0]), n-1, ds[1..]);
    }
  }

  /** One more draw is one more swap: the loop's step. */
  lemma {:induction false} FisherYatesStep<T>(s: seq<T>, n: nat, ds: seq<nat>, j: nat)
    requires n <= |s| && |ds| < n && Draws(ds, n) && j < n - |ds|
    ensures Draws(ds + [j], n)
    ensures FisherYates(s, n, ds + [j]) == Swapped(FisherYates(s, n, ds), n - 1 - |ds|, j)
    decreases |ds|
  {
    if ds == [] {
      assert FisherYates(Swapped(s, n-1, j), n-1, []) == Swapped(s, n-1, j);
      assert ([] + [j])[1..] == [];
    } else {
      assert (ds + [j])[1..] == ds[1..] + [j];
      FisherYatesStep(Swapped(s, n-1, ds[0]), n-1, ds[1..], j);
    }
  }

  /** Every permutation is reached: no order of the rows is excluded. */
  lemma {:induction false} EveryOrderIsReached<T>(s: seq<T>, n: nat, t: seq<T>) returns (ds: seq<nat>)
    requires 1 <= n <= |s| && |t| == |s|
    requires multiset(t[..n]) == multiset(s[..n]) && t[n..] == s[n..]
    ensures |ds| == n - 1 && Draws(ds, n) && FisherYates(s, n, ds) == t
    decreases n
  {
    if n == 1 {
      ds := [];
      assert s == s[..1] + s[1..] && t == t[..1] + t[1..];
      assert s[..1][0] in multiset(t[..1]);
    } else {
      var j := LastDraw(s, n, t);
      var rest := EveryOrderIsReached(Swapped(s, n-1, j), n-1, t);
      ds := [j] + rest;
      assert ds[1..] == rest;
    }
  }

  /** The top draw that puts t's last entry in place. */
  lemma LastDraw<T>(s: seq<T>, n: nat, t: seq<T>) returns (j: nat)
    requires 1 < n <= |s| && |t| == |s|
    requires multiset(t[..n]) == multiset(s[..n]) && t[n..] == s[n..]
    ensures j < n
    ensures multiset(t[..n-1]) == multiset(Swapped(s, n-1, j)[..n-1]) && t[n-1..] == Swapped(s, n-1, j)[n-1..]
  {
    assert t[n-1] in multiset(s[..n]) by { assert t[..n][n-1] in multiset(t[..n]); }
    j :| j < n && s[j] == t[n-1];
    SwapInPrefix(s, n, j);
    SplitLast(Swapped(s, n-1, j), n, t);
  }

  lemma SwapInPrefix<T>(s: seq<T>, n: nat, j: nat)
    requires 1 <= n <= |s| && j < n
    ensures multiset(Swapped(s, n-1, j)[..n]) == multiset(s[..n]) && Swapped(s, n-1, j)[n..] == s[n..]
    ensures Swapped(s, n-1, j)[n-1] == s[j]
  {
    SwapKeepsMultiset(s[..n], n-1, j);
    assert Swapped(s, n-1, j)[..n] == Swapped(s[..n], n-1, j);
  }

  lemma SplitLast<T>(u: seq<T>, n: nat, t: seq<T>)
    requires 1 <= n <= |u| == |t| && u[n-1] == t[n-1]
    requires multiset(u[..n]) == multiset(t[..n]) && u[n..] == t[n..]
    ensures multiset(u[..n-1]) == multiset(t[..n-1]) && u[n-1..] == t[n-1..]
  {
    assert u[..n] == u[..n-1] + [u[n-1]] && t[..n] == t[..n-1] + [t[n-1]];
    assert multiset(u[..n-1]) == multiset(u[..n]) - multiset{u[n-1]};
    assert multiset(t[..n-1]) == multiset(t[..n]) - multiset{t[n-1]};
    assert u[n-1..] == [u[n-1]] + u[n..] && t[n-1..] == [t[n-1]] + t[n..];
  }

  ghost predicate Distinct<T>(s: seq<T>) {
    forall i, j :: 0 <= i < j < |s| ==> s[i] != s[j]
  }

  /** And by one choice of draws only: distinct draws give distinct orders. */
  lemma {:induction false} DrawsAreDetermined<T>(s: seq<T>, n: nat, a: seq<nat>, b: seq<nat>)
    requires n <= |s| && Draws(a, n) && Draws(b, n) && |a| == |b| && Distinct(s)
    requires FisherYates(s, n, a) == FisherYates(s, n, b)
    ensures a == b
    decreases n
  {
    if a != [] {
      TopDrawIsDetermined(s, n, a, b);
      var u := Swapped(s, n-1, a[0]);
      assert Distinct(u);
      DrawsAreDetermined(u, n-1, a[1..], b[1..]);
      assert a == [a[0]] + a[1..] && b == [b[0]] + b[1..];
    }
  }

  lemma TopDrawIsDetermined<T>(s: seq<T>, n: nat, a: seq<nat>, b: seq<nat>)
    requires n <= |s| && Draws(a, n) && Draws(b, n) && a != [] && b != [] && Distinct(s)
    requires FisherYates(s, n, a) == FisherYates(s, n, b)
    ensures a[0] == b[0]
  {
    hide Distinct, FisherYates;
    TopEntry(s, n, a);
    TopEntry(s, n, b);
    SamePlace(s, a[0], b[0]);
  }

  /** The first draw decides the last entry. */
  lemma TopEntry<T>(s: seq<T>, n: nat, ds: seq<nat>)
    requires n <= |s| && Draws(ds, n) && ds != []
    ensures FisherYates(s, n, ds)[n-1] == s[ds[0]]
  {
    FisherYatesPermutes(Swapped(s, n-1, ds[0]), n-1, ds[1..]);
  }

  lemma SamePlace<T>(s: seq<T>, i: nat, j: nat)
    requires Distinct(s) && i < |s| && j < |s| && s[i] == s[j]
    ensures i == j
  {
  }

  /** The entry that draw k swaps with entry n-1-k. */
  ghost function DrawAt(a: bv32, n: nat, k: nat): (j: nat)
    requires k < n
    ensures j < n - k
  {
    Cell(Unit(Emit(After(a, k + 1))), n - 1 - k)
  }

  /** The entries the first k draws of the generator pick for n entries. */
  ghost function DrawsFrom(a: bv32, n: nat, k: nat): (ds: seq<nat>)
    requires k <= n
    ensures |ds| == k && Draws(ds, n) && forall i :: 0 <= i < k ==> ds[i] == DrawAt(a, n, i)
  {
    seq(k, i requires 0 <= i < k => DrawAt(a, n, i))
  }

  /** How many draws a shuffle of n entries takes. */
  function DrawCount(n: nat): nat {
    if n == 0 then 0 else n - 1
  }

  /** The order the generator in state a puts n entries in. */
  ghost function ShuffledBy<T>(s: seq<T>, a: bv32): (t: seq<T>)
    ensures |t| == |s|
  {
    FisherYates(s, |s|, DrawsFrom(a, |s|, DrawCount(|s|)))
  }

  /** The source's in-place loop: the Fisher-Yates shuffle of exactly the generator's draws. */
  method ShuffleInPlace(order: array<nat>, random: Mulberry32)
    modifies order, random
    ensures order[..] == ShuffledBy(old(order[..]), old(random.a))
    ensures random.a == After(old(random.a), DrawCount(order.Length))
    ensures multiset(order[..]) == multiset(old(order[..]))
  {
    hide Emit, Unit, Cell, FisherYates;
    ghost var start, a := order[..], random.a;
    ghost var ds: seq<nat> := [];
    var i := order.Length - 1;
    NoDraws(start, order.Length);
    while i > 0
      invariant -1 <= i < order.Length && (i == -1 ==> order.Length == 0)
      invariant |ds| == (if order.Length == 0 then 0 else order.Length - 1 - i)
      invariant ds == DrawsFrom(a, order.Length, |ds|) && random.a == After(a, |ds|)
      invariant order[..] == FisherYates(start, order.Length, ds)
    {
      var r := random.Next();
      var j := Cell(r, i);
      assert j == DrawAt(a, order.Length, |ds|);
      FisherYatesStep(start, order.Length, ds, j);
      order[i], order[j] := order[j], order[i];
      ds := ds + [j];
      i := i - 1;
    }
    FisherYatesPermutes(start, order.Length, ds);
  }

  lemma NoDraws<T>(s: seq<T>, n: nat)
    requires n <= |s|
    ensures FisherYates(s, n, []) == s
  {
  }
}
