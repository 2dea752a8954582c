/**
  Sums and weighted sums over real sequences.

  Every product in the heat-field proofs lives in one of the scalar functions below, so inductive
  proofs reason by congruence and only the small scalar lemmas do arithmetic.
 */
module Sums {

  // ---- scalars ----

  function Product(a: real, b: real): real { a * b }

  /** c + k*x: one step of every recurrence and of every weighted sum. */
  function Affine(c: real, k: real, x: real): real { c + k * x }

  lemma AffineAdd(a: real, b: real, k: real, x: real, y: real)
    ensures Affine(a + b, k, x + y) == Affine(a, k, x) + Affine(b, k, y)
  {
  }

  lemma AffineSub(a: real, b: real, k: real, x: real, y: real)
    ensures Affine(a - b, k, x - y) == Affine(a, k, x) - Affine(b, k, y)
  {
  }

  lemma AffineCommutes(c: real, k: real, x: real)
    ensures Affine(c, k, x) == Affine(c, x, k)
  {
  }

  lemma AffineTransfer(c: real, a: real, t: real, f: real)
    ensures Affine(c, a, Product(t, f)) == Affine(c, t, Product(a, f))
  {
  }

  lemma AffineScale(c: real, dot: real, u: real, v: real)
    ensures Affine(Product(c, dot), Product(c, u), v) == Product(c, Affine(dot, u, v))
  {
    assert (c * u) * v == c * (u * v);
  }

  lemma AffineNothing(c: real, v: real)
    ensures Affine(c, 0.0, v) == c && Affine(c, v, 0.0) == c && Affine(0.0, c, v) == Product(c, v)
  {
  }

  // ---- sequences ----

  function Plus(x: seq<real>, y: seq<real>): (z: seq<real>)
    requires |x| == |y|
    ensures |z| == |x| && forall i :: 0 <= i < |z| ==> z[i] == x[i] + y[i]
  {
    seq(|x|, i requires 0 <= i < |x| => x[i] + y[i])
  }

  function Minus(x: seq<real>, y: seq<real>): (z: seq<real>)
    requires |x| == |y|
    ensures |z| == |x| && forall i :: 0 <= i < |z| ==> z[i] == x[i] - y[i]
  {
    seq(|x|, i requires 0 <= i < |x| => x[i] - y[i])
  }

  function Times(x: seq<real>, y: seq<real>): (z: seq<real>)
    requires |x| == |y|
    ensures |z| == |x| && forall i :: 0 <= i < |z| ==> z[i] == Product(x[i], y[i])
  {
    seq(|x|, i requires 0 <= i < |x| => Product(x[i], y[i]))
  }

  function Scaled(c: real, x: seq<real>): (z: seq<real>)
    ensures |z| == |x| && forall i :: 0 <= i < |z| ==> z[i] == Product(c, x[i])
  {
    seq(|x|, i requires 0 <= i < |x| => Product(c, x[i]))
  }

  function Zeros(n: nat): (z: seq<real>)
    ensures |z| == n && forall i :: 0 <= i < n ==> z[i] == 0.0
  {
    seq(n, i => 0.0)
  }

  // ---- sums ----

  /** The sum of u[i]*v[i] over the first n positions. */
  function Dot(u: seq<real>, v: seq<real>, n: nat): real
    requires n <= |u| && n <= |v|
  {
    if n == 0 then 0.0 else Affine(Dot(u, v, n-1), u[n-1], v[n-1])
  }

  /** The sum of the first n entries. */
  function Total(c: seq<real>, n: nat): real
    requires n <= |c|
  {
    if n == 0 then 0.0 else Total(c, n-1) + c[n-1]
  }

  function Inner(u: seq<real>, v: seq<real>): real
    requires |u| == |v|
  {
    Dot(u, v, |u|)
  }

  function Sum(c: seq<real>): real {
    Total(c, |c|)
  }

  // ---- laws ----

  lemma InnerPlus(g: seq<real>, x: seq<real>, y: seq<real>)
    requires |g| == |x| == |y|
    ensures Inner(g, Plus(x, y)) == Inner(g, x) + Inner(g, y)
  {
    DotPlus(g, x, y, |g|);
  }

  lemma {:induction false} DotPlus(g: seq<real>, x: seq<real>, y: seq<real>, n: nat)
    requires |g| == |x| == |y| && n <= |g|
    ensures Dot(g, Plus(x, y), n) == Dot(g, x, n) + Dot(g, y, n)
  {
    hide Affine;
    if n > 0 {
      DotPlus(g, x, y, n-1);
      AffineAdd(Dot(g, x, n-1), Dot(g, y, n-1), g[n-1], x[n-1], y[n-1]);
    }
  }

  lemma InnerMinus(g: seq<real>, x: seq<real>, y: seq<real>)
    requires |g| == |x| == |y|
    ensures Inner(g, Minus(x, y)) == Inner(g, x) - Inner(g, y)
  {
    DotMinus(g, x, y, |g|);
  }

  lemma {:induction false} DotMinus(g: seq<real>, x: seq<real>, y: seq<real>, n: nat)
    requires |g| == |x| == |y| && n <= |g|
    ensures Dot(g, Minus(x, y), n) == Dot(g, x, n) - Dot(g, y, n)
  {
    hide Affine;
    if n > 0 {
      DotMinus(g, x, y, n-1);
      AffineSub(Dot(g, x, n-1), Dot(g, y, n-1), g[n-1], x[n-1], y[n-1]);
    }
  }

  lemma InnerCommutes(u: seq<real>, v: seq<real>)
    requires |u| == |v|
    ensures Inner(u, v) == Inner(v, u)
  {
    DotCommutes(u, v, |u|);
  }

  lemma {:induction false} DotCommutes(u: seq<real>, v: seq<real>, n: nat)
    requires n <= |u| && n <= |v|
    ensures Dot(u, v, n) == Dot(v, u, n)
  {
    hide Affine;
    if n > 0 {
      DotCommutes(u, v, n-1);
      AffineCommutes(Dot(u, v, n-1), u[n-1], v[n-1]);
    }
  }

  /** A factor moves from one side of the sum to the other. */
  lemma InnerTimes(a: seq<real>, t: seq<real>, f: seq<real>)
    requires |a| == |t| == |f|
    ensures Inner(a, Times(t, f)) == Inner(t, Times(a, f))
  {
    DotTimes(a, t, f, |a|);
  }

  lemma {:induction false} DotTimes(a: seq<real>, t: seq<real>, f: seq<real>, n: nat)
    requires |a| == |t| == |f| && n <= |a|
    ensures Dot(a, Times(t, f), n) == Dot(t, Times(a, f), n)
  {
    hide Affine, Product;
    if n > 0 {
      DotTimes(a, t, f, n-1);
      AffineTransfer(Dot(a, Times(t, f), n-1), a[n-1], t[n-1], f[n-1]);
    }
  }

  lemma InnerScaled(c: real, u: seq<real>, v: seq<real>)
    requires |u| == |v|
    ensures Inner(Scaled(c, u), v) == Product(c, Inner(u, v))
  {
    hide Product;
    DotScaled(c, u, v, |u|);
  }

  lemma {:induction false} DotScaled(c: real, u: seq<real>, v: seq<real>, n: nat)
    requires |u| == |v| && n <= |u|
    ensures Dot(Scaled(c, u), v, n) == Product(c, Dot(u, v, n))
  {
    if n > 0 {
      hide Affine, Product;
      DotScaled(c, u, v, n-1);
      AffineScale(c, Dot(u, v, n-1), u[n-1], v[n-1]);
    }
  }

  /** A sum against a sequence with one non-zero entry. */
  lemma InnerUnit(u: seq<real>, v: seq<real>, j: nat)
    requires |u| == |v| && j < |u|
    requires forall i :: 0 <= i < |u| && i != j ==> u[i] == 0.0
    ensures Inner(u, v) == Product(u[j], v[j])
  {
    hide Product;
    DotUnit(u, v, j, |u|);
  }

  lemma {:induction false} DotUnit(u: seq<real>, v: seq<real>, j: nat, n: nat)
    requires |u| == |v| && n <= |u| && j < |u|
    requires forall i :: 0 <= i < |u| && i != j ==> u[i] == 0.0
    ensures Dot(u, v, n) == if j < n then Product(u[j], v[j]) else 0.0
  {
    hide Affine, Product;
    if n > 0 {
      DotUnit(u, v, j, n-1);
      AffineNothing(Dot(u, v, n-1), v[n-1]);
      AffineNothing(u[n-1], v[n-1]);
    }
  }

  lemma {:induction false} DotZero(u: seq<real>, v: seq<real>, n: nat)
    requires n <= |u| && n <= |v|
    requires forall i :: 0 <= i < n ==> u[i] == 0.0
    ensures Dot(u, v, n) == 0.0
  {
    hide Affine;
    if n > 0 {
      DotZero(u, v, n-1);
      AffineNothing(0.0, v[n-1]);
    }
  }

  lemma InnerZero(u: seq<real>, v: seq<real>)
    requires |u| == |v|
    requires forall i :: 0 <= i < |u| ==> u[i] == 0.0
    ensures Inner(u, v) == 0.0
  {
    DotZero(u, v, |u|);
  }

  /** A sum whose every term is a pair of products. */
  lemma SumOfInners(c: seq<real>, u: seq<real>, x: seq<real>, v: seq<real>, y: seq<real>)
    requires |c| == |u| == |x| == |v| == |y|
    requires forall i :: 0 <= i < |c| ==> c[i] == Product(u[i], x[i]) + Product(v[i], y[i])
    ensures Sum(c) == Inner(u, x) + Inner(v, y)
  {
    TotalOfDots(c, u, x, v, y, |c|);
  }

  lemma {:induction false} TotalOfDots(c: seq<real>, u: seq<real>, x: seq<real>, v: seq<real>, y: seq<real>, n: nat)
    requires |c| == |u| == |x| == |v| == |y| && n <= |c|
    requires forall i :: 0 <= i < |c| ==> c[i] == Product(u[i], x[i]) + Product(v[i], y[i])
    ensures Total(c, n) == Dot(u, x, n) + Dot(v, y, n)
  {
    hide Affine, Product;
    if n > 0 {
      TotalOfDots(c, u, x, v, y, n-1);
      AffineIsSum(Dot(u, x, n-1), u[n-1], x[n-1]);
      AffineIsSum(Dot(v, y, n-1), v[n-1], y[n-1]);
    }
  }

  lemma AffineIsSum(c: real, k: real, x: real)
    ensures Affine(c, k, x) == c + Product(k, x)
  {
  }

  lemma SumOfNegation(c: seq<real>, g: seq<real>)
    requires |c| == |g|
    requires forall i :: 0 <= i < |c| ==> c[i] == -g[i]
    ensures Sum(c) == -Sum(g)
  {
    TotalOfNegation(c, g, |c|);
  }

  lemma {:induction false} TotalOfNegation(c: seq<real>, g: seq<real>, n: nat)
    requires |c| == |g| && n <= |c|
    requires forall i :: 0 <= i < |c| ==> c[i] == -g[i]
    ensures Total(c, n) == -Total(g, n)
  {
    if n > 0 {
      TotalOfNegation(c, g, n-1);
    }
  }
}
