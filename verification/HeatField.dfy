/**
  The two-sided heat field over a text and its adjoints, over the reals.

  For heats h and decays d the field is F(i) = h(i) + d(i)*F(i-1) from the left and
  B(i) = h(i) + d(i)*B(i+1) from the right; the score is H = F + B - h.  The adjoints a and b
  run the two recurrences the other way over a weight vector g.  Everything the trainer's
  hand-written gradient relies on is the pair of adjoint identities below.
 */
module HeatField {
  import opened Sums

  /** The forward field after the first `i` characters; F(i) of the source is Forward(h, d, i+1). */
  function Forward(h: seq<real>, d: seq<real>, i: nat): real
    requires |h| == |d| && i <= |h|
  {
    if i == 0 then 0.0 else Affine(h[i-1], d[i-1], Forward(h, d, i-1))
  }

  /** The backward field at `i`; past the end it is zero. */
  function Backward(h: seq<real>, d: seq<real>, i: nat): real
    requires |h| == |d| && i <= |h|
    decreases |h| - i
  {
    if i == |h| then 0.0 else Affine(h[i], d[i], Backward(h, d, i+1))
  }

  function Score(h: seq<real>, d: seq<real>, i: nat): real
    requires |h| == |d| && i < |h|
  {
    Forward(h, d, i+1) + Backward(h, d, i) - h[i]
  }

  /** Adjoint of the forward recurrence. */
  function AdjointForward(g: seq<real>, d: seq<real>, i: nat): real
    requires |g| == |d| && i < |g|
    decreases |g| - i
  {
    if i + 1 < |g| then Affine(g[i], d[i+1], AdjointForward(g, d, i+1)) else g[i]
  }

  /** Adjoint of the backward recurrence. */
  function AdjointBackward(g: seq<real>, d: seq<real>, i: nat): real
    requires |g| == |d| && i < |g|
  {
    if i > 0 then Affine(g[i], d[i-1], AdjointBackward(g, d, i-1)) else g[i]
  }

  function Before(x: seq<real>, i: nat): real
    requires i < |x|
  {
    if i > 0 then x[i-1] else 0.0
  }

  function After(x: seq<real>, i: nat): real
    requires i < |x|
  {
    if i + 1 < |x| then x[i+1] else 0.0
  }

  /** `x` solves the forward recurrence with source term `e` and decays `d`. */
  ghost predicate SolvesForward(x: seq<real>, e: seq<real>, d: seq<real>) {
    |x| == |e| == |d| && forall i :: 0 <= i < |x| ==> x[i] == Affine(e[i], d[i], Before(x, i))
  }

  /** `x` solves the backward recurrence with source term `e` and decays `d`. */
  ghost predicate SolvesBackward(x: seq<real>, e: seq<real>, d: seq<real>) {
    |x| == |e| == |d| && forall i :: 0 <= i < |x| ==> x[i] == Affine(e[i], d[i], After(x, i))
  }

  ghost function ForwardAdjoints(g: seq<real>, d: seq<real>): (a: seq<real>)
    requires |g| == |d|
    ensures |a| == |g| && forall i :: 0 <= i < |a| ==> a[i] == AdjointForward(g, d, i)
  {
    seq(|g|, i requires 0 <= i < |g| => AdjointForward(g, d, i))
  }

  ghost function BackwardAdjoints(g: seq<real>, d: seq<real>): (b: seq<real>)
    requires |g| == |d|
    ensures |b| == |g| && forall i :: 0 <= i < |b| ==> b[i] == AdjointBackward(g, d, i)
  {
    seq(|g|, i requires 0 <= i < |g| => AdjointBackward(g, d, i))
  }

  // ---- the adjoint identities ----

  function Carry(d: real, a: real, x: real): real { d * a * x }

  // One telescoping step, over plain numbers: the term that enters cancels the one that leaves.
  lemma Enters(c: real, adj: real, e: real, d: real, prev: real)
    ensures Affine(c, adj, e) == Affine(c, adj, Affine(e, d, prev)) - Carry(d, adj, prev)
  {
  }

  lemma Leaves(c: real, g: real, x: real, next: (real, real))
    ensures Affine(c, Affine(g, next.0, next.1), x) == Affine(c, g, x) + Carry(next.0, next.1, x)
  {
  }

  lemma Shift(c: real, more: real, k: real, x: real)
    ensures Affine(c + more, k, x) == Affine(c, k, x) + more
  {
  }

  lemma CarryNothing(d: real, a: real, x: real)
    ensures Carry(0.0, a, x) == 0.0 && Carry(d, 0.0, x) == 0.0 && Carry(d, a, 0.0) == 0.0
  {
  }

  /** The decay and adjoint one step on in an adjoint recurrence; zero past its end. */
  ghost function NextForward(g: seq<real>, d: seq<real>, m: nat): (r: (real, real))
    requires |g| == |d| && m <= |g|
  {
    if m < |g| then (d[m], AdjointForward(g, d, m)) else (0.0, 0.0)
  }

  ghost function PrevBackward(g: seq<real>, d: seq<real>, m: nat): (r: (real, real))
    requires |g| == |d| && m <= |g|
  {
    if m > 0 then (d[m-1], AdjointBackward(g, d, m-1)) else (0.0, 0.0)
  }

  /**
    The forward adjoint identity: however a perturbation enters the forward recurrence, its total
    weighted effect is read off the source term by the adjoint.
   */
  lemma ForwardAdjointIdentity(g: seq<real>, d: seq<real>, x: seq<real>, e: seq<real>)
    requires |g| == |d| == |x| && SolvesForward(x, e, d)
    ensures Inner(g, x) == Inner(ForwardAdjoints(g, d), e)
  {
    ForwardTelescopes(g, d, x, e, |g|);
    CarryNothing(0.0, 0.0, if |g| > 0 then x[|g|-1] else 0.0);
  }

  lemma {:induction false} ForwardTelescopes(g: seq<real>, d: seq<real>, x: seq<real>, e: seq<real>, m: nat)
    requires |g| == |d| == |x| && SolvesForward(x, e, d) && m <= |g|
    ensures Dot(ForwardAdjoints(g, d), e, m) ==
            Dot(g, x, m) + Carry(NextForward(g, d, m).0, NextForward(g, d, m).1, if m > 0 then x[m-1] else 0.0)
  {
    hide Affine, Carry;
    if m > 0 {
      ForwardTelescopes(g, d, x, e, m-1);
      var next := NextForward(g, d, m);
      var a := AdjointForward(g, d, m-1);
      AffineNothing(g[m-1], 0.0);
      assert a == Affine(g[m-1], next.0, next.1);
      var before := Carry(d[m-1], a, Before(x, m-1));
      Shift(Dot(g, x, m-1), before, a, e[m-1]);
      Enters(Dot(g, x, m-1), a, e[m-1], d[m-1], Before(x, m-1));
      Leaves(Dot(g, x, m-1), g[m-1], x[m-1], next);
    } else {
      CarryNothing(NextForward(g, d, m).0, NextForward(g, d, m).1, 0.0);
    }
  }

  /** The backward adjoint identity. */
  lemma BackwardAdjointIdentity(g: seq<real>, d: seq<real>, x: seq<real>, e: seq<real>)
    requires |g| == |d| == |x| && SolvesBackward(x, e, d)
    ensures Inner(g, x) == Inner(BackwardAdjoints(g, d), e)
  {
    BackwardTelescopes(g, d, x, e, |g|);
    CarryNothing(PrevBackward(g, d, |g|).0, PrevBackward(g, d, |g|).1, 0.0);
  }

  lemma {:induction false} BackwardTelescopes(g: seq<real>, d: seq<real>, x: seq<real>, e: seq<real>, m: nat)
    requires |g| == |d| == |x| && SolvesBackward(x, e, d) && m <= |g|
    ensures Dot(BackwardAdjoints(g, d), e, m) ==
            Dot(g, x, m) - Carry(PrevBackward(g, d, m).0, PrevBackward(g, d, m).1, if m < |g| then x[m] else 0.0)
  {
    hide Affine, Carry;
    if m > 0 {
      BackwardTelescopes(g, d, x, e, m-1);
      var prev := PrevBackward(g, d, m-1);
      var b := AdjointBackward(g, d, m-1);
      AffineNothing(g[m-1], 0.0);
      assert b == Affine(g[m-1], prev.0, prev.1);
      var behind := Carry(prev.0, prev.1, x[m-1]);
      Shift(Dot(g, x, m-1), -behind, b, e[m-1]);
      Enters(Dot(g, x, m-1), b, e[m-1], d[m-1], After(x, m-1));
      Leaves(Dot(g, x, m-1), g[m-1], x[m-1], prev);
    } else {
      CarryNothing(0.0, 0.0, if m < |g| then x[m] else 0.0);
    }
  }
}
