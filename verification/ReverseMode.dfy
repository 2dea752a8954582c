/**
  The hand-written gradient of the heat field, and the proof that it is the derivative in every direction.
 */
module ReverseMode {
  import opened Sums
  import opened HeatField

  // ---- what the source calls dh and dd ----

  function HeatGradient(g: seq<real>, d: seq<real>, i: nat): real
    requires |g| == |d| && i < |g|
  {
    AdjointForward(g, d, i) + AdjointBackward(g, d, i) - g[i]
  }

  function DecayGradient(g: seq<real>, h: seq<real>, d: seq<real>, i: nat): real
    requires |g| == |d| == |h| && i < |g|
  {
    (if i > 0 then Product(AdjointForward(g, d, i), Forward(h, d, i)) else 0.0) +
    (if i + 1 < |g| then Product(AdjointBackward(g, d, i), Backward(h, d, i+1)) else 0.0)
  }

  ghost function HeatGradients(g: seq<real>, d: seq<real>): (r: seq<real>)
    requires |g| == |d|
    ensures |r| == |g| && forall i :: 0 <= i < |r| ==> r[i] == HeatGradient(g, d, i)
  {
    seq(|g|, i requires 0 <= i < |g| => HeatGradient(g, d, i))
  }

  ghost function DecayGradients(g: seq<real>, h: seq<real>, d: seq<real>): (r: seq<real>)
    requires |g| == |d| == |h|
    ensures |r| == |g| && forall i :: 0 <= i < |r| ==> r[i] == DecayGradient(g, h, d, i)
  {
    seq(|g|, i requires 0 <= i < |g| => DecayGradient(g, h, d, i))
  }

  // ---- the objective, and its forward-mode derivative ----

  ghost function Scores(h: seq<real>, d: seq<real>): (r: seq<real>)
    requires |h| == |d|
    ensures |r| == |h| && forall i :: 0 <= i < |r| ==> r[i] == Score(h, d, i)
  {
    seq(|h|, i requires 0 <= i < |h| => Score(h, d, i))
  }

  /** The objective the gradient differentiates, with the weights g held fixed: the sum of g(i)*H(i). */
  ghost function Objective(g: seq<real>, h: seq<real>, d: seq<real>): real
    requires |g| == |d| == |h|
  {
    Inner(g, Scores(h, d))
  }

  /** The forward-mode tangent of the forward field in direction (th, td): the product rule. */
  ghost function ForwardTangent(h: seq<real>, d: seq<real>, th: seq<real>, td: seq<real>, i: nat): real
    requires |h| == |d| == |th| == |td| && i <= |h|
  {
    if i == 0 then 0.0
    else Affine(Affine(th[i-1], td[i-1], Forward(h, d, i-1)), d[i-1], ForwardTangent(h, d, th, td, i-1))
  }

  ghost function BackwardTangent(h: seq<real>, d: seq<real>, th: seq<real>, td: seq<real>, i: nat): real
    requires |h| == |d| == |th| == |td| && i <= |h|
    decreases |h| - i
  {
    if i == |h| then 0.0
    else Affine(Affine(th[i], td[i], Backward(h, d, i+1)), d[i], BackwardTangent(h, d, th, td, i+1))
  }

  ghost function ForwardTangents(h: seq<real>, d: seq<real>, th: seq<real>, td: seq<real>): (x: seq<real>)
    requires |h| == |d| == |th| == |td|
    ensures |x| == |h| && forall i :: 0 <= i < |x| ==> x[i] == ForwardTangent(h, d, th, td, i+1)
  {
    seq(|h|, i requires 0 <= i < |h| => ForwardTangent(h, d, th, td, i+1))
  }

  ghost function BackwardTangents(h: seq<real>, d: seq<real>, th: seq<real>, td: seq<real>): (x: seq<real>)
    requires |h| == |d| == |th| == |td|
    ensures |x| == |h| && forall i :: 0 <= i < |x| ==> x[i] == BackwardTangent(h, d, th, td, i)
  {
    seq(|h|, i requires 0 <= i < |h| => BackwardTangent(h, d, th, td, i))
  }

  /** The tangent of the score H = F + B - h. */
  ghost function ScoreTangents(h: seq<real>, d: seq<real>, th: seq<real>, td: seq<real>): (x: seq<real>)
    requires |h| == |d| == |th| == |td|
  {
    Minus(Plus(ForwardTangents(h, d, th, td), BackwardTangents(h, d, th, td)), th)
  }

  ghost function ObjectiveTangent(g: seq<real>, h: seq<real>, d: seq<real>, th: seq<real>, td: seq<real>): real
    requires |g| == |h| == |d| == |th| == |td|
  {
    Inner(g, ScoreTangents(h, d, th, td))
  }

  /** The reverse-mode total in direction (th, td), as the source accumulates it. */
  ghost function ReverseTotal(g: seq<real>, h: seq<real>, d: seq<real>, th: seq<real>, td: seq<real>): real
    requires |g| == |h| == |d| == |th| == |td|
  {
    Inner(th, HeatGradients(g, d)) + Inner(td, DecayGradients(g, h, d))
  }

  /** F(i-1) at each i. */
  ghost function LeftFields(h: seq<real>, d: seq<real>): (r: seq<real>)
    requires |h| == |d|
    ensures |r| == |h| && forall i :: 0 <= i < |r| ==> r[i] == Forward(h, d, i)
  {
    seq(|h|, i requires 0 <= i < |h| => Forward(h, d, i))
  }

  /** B(i+1) at each i. */
  ghost function RightFields(h: seq<real>, d: seq<real>): (r: seq<real>)
    requires |h| == |d|
    ensures |r| == |h| && forall i :: 0 <= i < |r| ==> r[i] == Backward(h, d, i+1)
  {
    seq(|h|, i requires 0 <= i < |h| => Backward(h, d, i+1))
  }

  lemma TangentsSolveForward(h: seq<real>, d: seq<real>, th: seq<real>, td: seq<real>)
    requires |h| == |d| == |th| == |td|
    ensures SolvesForward(ForwardTangents(h, d, th, td), Plus(th, Times(td, LeftFields(h, d))), d)
  {
    var x, e := ForwardTangents(h, d, th, td), Plus(th, Times(td, LeftFields(h, d)));
    hide Affine, Product;
    forall i | 0 <= i < |h| ensures x[i] == Affine(e[i], d[i], Before(x, i)) {
      AffineIsSum(th[i], td[i], Forward(h, d, i));
      assert x[i] == Affine(Affine(th[i], td[i], Forward(h, d, i)), d[i], ForwardTangent(h, d, th, td, i));
      assert Before(x, i) == ForwardTangent(h, d, th, td, i);
    }
  }

  lemma TangentsSolveBackward(h: seq<real>, d: seq<real>, th: seq<real>, td: seq<real>)
    requires |h| == |d| == |th| == |td|
    ensures SolvesBackward(BackwardTangents(h, d, th, td), Plus(th, Times(td, RightFields(h, d))), d)
  {
    var x, e := BackwardTangents(h, d, th, td), Plus(th, Times(td, RightFields(h, d)));
    hide Affine, Product;
    forall i | 0 <= i < |h| ensures x[i] == Affine(e[i], d[i], After(x, i)) {
      AffineIsSum(th[i], td[i], Backward(h, d, i+1));
      assert x[i] == Affine(Affine(th[i], td[i], Backward(h, d, i+1)), d[i], BackwardTangent(h, d, th, td, i+1));
      assert After(x, i) == BackwardTangent(h, d, th, td, i+1);
    }
  }

  /**
    Reverse mode equals forward mode: in EVERY direction (th, td) of heats and decays, however many
    positions it touches, the tangent of the objective is the adjoint total the source accumulates.
   */
  lemma ReverseEqualsForward(g: seq<real>, h: seq<real>, d: seq<real>, th: seq<real>, td: seq<real>)
    requires |g| == |h| == |d| == |th| == |td|
    ensures ObjectiveTangent(g, h, d, th, td) == ReverseTotal(g, h, d, th, td)
  {
    var x, y := ForwardTangents(h, d, th, td), BackwardTangents(h, d, th, td);
    var left, right := LeftFields(h, d), RightFields(h, d);
    var p, q := Times(td, left), Times(td, right);
    var a, b := ForwardAdjoints(g, d), BackwardAdjoints(g, d);
    hide Affine, Product, Inner, SolvesForward, SolvesBackward;
    TangentsSolveForward(h, d, th, td);
    TangentsSolveBackward(h, d, th, td);
    ForwardAdjointIdentity(g, d, x, Plus(th, p));
    BackwardAdjointIdentity(g, d, y, Plus(th, q));
    InnerPlus(a, th, p);
    InnerPlus(b, th, q);
    InnerPlus(g, x, y);
    InnerMinus(g, Plus(x, y), th);
    HeatTotalSplits(g, d, th);
    DecayTotalSplits(g, h, d, td);
  }

  lemma HeatTotalSplits(g: seq<real>, d: seq<real>, th: seq<real>)
    requires |g| == |d| == |th|
    ensures Inner(th, HeatGradients(g, d)) ==
            Inner(ForwardAdjoints(g, d), th) + Inner(BackwardAdjoints(g, d), th) - Inner(g, th)
  {
    var a, b := ForwardAdjoints(g, d), BackwardAdjoints(g, d);
    assert HeatGradients(g, d) == Minus(Plus(a, b), g) by {
      hide AdjointForward, AdjointBackward;
    }
    hide Inner;
    InnerPlus(th, a, b);
    InnerMinus(th, Plus(a, b), g);
    InnerCommutes(th, a);
    InnerCommutes(th, b);
    InnerCommutes(th, g);
  }

  lemma DecayTotalSplits(g: seq<real>, h: seq<real>, d: seq<real>, td: seq<real>)
    requires |g| == |h| == |d| == |td|
    ensures Inner(td, DecayGradients(g, h, d)) ==
            Inner(ForwardAdjoints(g, d), Times(td, LeftFields(h, d)))
            + Inner(BackwardAdjoints(g, d), Times(td, RightFields(h, d)))
  {
    var a, b := ForwardAdjoints(g, d), BackwardAdjoints(g, d);
    var left, right := LeftFields(h, d), RightFields(h, d);
    DecayGradientsSplit(g, h, d);
    hide Inner;
    InnerPlus(td, Times(a, left), Times(b, right));
    InnerTimes(a, td, left);
    InnerTimes(b, td, right);
  }

  lemma DecayGradientsSplit(g: seq<real>, h: seq<real>, d: seq<real>)
    requires |g| == |h| == |d|
    ensures DecayGradients(g, h, d) ==
            Plus(Times(ForwardAdjoints(g, d), LeftFields(h, d)), Times(BackwardAdjoints(g, d), RightFields(h, d)))
  {
    var p := Times(ForwardAdjoints(g, d), LeftFields(h, d));
    var q := Times(BackwardAdjoints(g, d), RightFields(h, d));
    hide Affine, Product;
    forall i | 0 <= i < |g| ensures DecayGradients(g, h, d)[i] == p[i] + q[i] {
      ProductNothing(AdjointForward(g, d, i));
      ProductNothing(AdjointBackward(g, d, i));
    }
  }

  lemma ProductNothing(a: real)
    ensures Product(a, 0.0) == 0.0
  {
  }
}
