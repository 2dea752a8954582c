/**
  Finite differences of the heat field: where no decay moves under a moving field, the exact
  derivative of the objective is its change, however large the step.
 */
module HeatDifference {
  import opened Sums
  import opened HeatField
  import opened ReverseMode

  // One step of either recurrence when the decay or the incoming field moves, but not both.
  lemma FieldStep(h: real, h': real, d: real, d': real, was: real, now: real, th: real, td: real, t: real)
    requires h' - h == th && d' - d == td && now - was == t && (td == 0.0 || t == 0.0)
    ensures Affine(h', d', now) - Affine(h, d, was) == Affine(Affine(th, td, was), d, t)
  {
  }

  /** The change from (h, d) to (h', d') is the direction (th, td). */
  ghost predicate Moves(h: seq<real>, d: seq<real>, h': seq<real>, d': seq<real>, th: seq<real>, td: seq<real>) {
    |h| == |d| == |h'| == |d'| == |th| == |td| &&
    forall i :: 0 <= i < |h| ==> h'[i] - h[i] == th[i] && d'[i] - d[i] == td[i]
  }

  /** Where a decay moves, no perturbation arrives from the left, respectively from the right. */
  ghost predicate QuietLeft(h: seq<real>, d: seq<real>, th: seq<real>, td: seq<real>)
    requires |h| == |d| == |th| == |td|
  {
    forall i :: 0 <= i < |h| ==> td[i] == 0.0 || ForwardTangent(h, d, th, td, i) == 0.0
  }

  ghost predicate QuietRight(h: seq<real>, d: seq<real>, th: seq<real>, td: seq<real>)
    requires |h| == |d| == |th| == |td|
  {
    forall i :: 0 <= i < |h| ==> td[i] == 0.0 || BackwardTangent(h, d, th, td, i+1) == 0.0
  }

  lemma {:induction false} ForwardMovesByTangent(h: seq<real>, d: seq<real>, h': seq<real>, d': seq<real>,
                                                 th: seq<real>, td: seq<real>, i: nat)
    requires Moves(h, d, h', d', th, td) && QuietLeft(h, d, th, td) && i <= |h|
    ensures Forward(h', d', i) - Forward(h, d, i) == ForwardTangent(h, d, th, td, i)
  {
    hide Affine;
    if i > 0 {
      ForwardMovesByTangent(h, d, h', d', th, td, i-1);
      FieldStep(h[i-1], h'[i-1], d[i-1], d'[i-1], Forward(h, d, i-1), Forward(h', d', i-1),
                th[i-1], td[i-1], ForwardTangent(h, d, th, td, i-1));
    }
  }

  lemma {:induction false} BackwardMovesByTangent(h: seq<real>, d: seq<real>, h': seq<real>, d': seq<real>,
                                                  th: seq<real>, td: seq<real>, i: nat)
    requires Moves(h, d, h', d', th, td) && QuietRight(h, d, th, td) && i <= |h|
    ensures Backward(h', d', i) - Backward(h, d, i) == BackwardTangent(h, d, th, td, i)
    decreases |h| - i
  {
    hide Affine;
    if i < |h| {
      BackwardMovesByTangent(h, d, h', d', th, td, i+1);
      FieldStep(h[i], h'[i], d[i], d'[i], Backward(h, d, i+1), Backward(h', d', i+1),
                th[i], td[i], BackwardTangent(h, d, th, td, i+1));
    }
  }

  /** When no decay moves under a moving field, the finite difference IS the reverse-mode total. */
  lemma DifferenceIsExact(g: seq<real>, h: seq<real>, d: seq<real>, h': seq<real>, d': seq<real>, th: seq<real>, td: seq<real>)
    requires |g| == |h| && Moves(h, d, h', d', th, td) && QuietLeft(h, d, th, td) && QuietRight(h, d, th, td)
    ensures Objective(g, h', d') - Objective(g, h, d) == ReverseTotal(g, h, d, th, td)
  {
    var now, was := Scores(h', d'), Scores(h, d);
    assert |h| == |h'| == |d| == |d'| == |th| == |td|;
    hide Affine, Forward, Backward, ForwardTangent, BackwardTangent, Moves, QuietLeft, QuietRight, Score;
    forall i | 0 <= i < |h| ensures ScoreTangents(h, d, th, td)[i] == Minus(now, was)[i] {
      ScoreMoves(h, d, h', d', th, td, i);
    }
    assert ScoreTangents(h, d, th, td) == Minus(now, was);
    hide Inner, ReverseTotal, ScoreTangents, Scores;
    InnerMinus(g, now, was);
    ReverseEqualsForward(g, h, d, th, td);
  }

  lemma ScoreMoves(h: seq<real>, d: seq<real>, h': seq<real>, d': seq<real>, th: seq<real>, td: seq<real>, i: nat)
    requires Moves(h, d, h', d', th, td) && QuietLeft(h, d, th, td) && QuietRight(h, d, th, td) && i < |h|
    ensures ScoreTangents(h, d, th, td)[i] == Score(h', d', i) - Score(h, d, i)
  {
    ForwardMovesByTangent(h, d, h', d', th, td, i+1);
    BackwardMovesByTangent(h, d, h', d', th, td, i);
    hide Forward, Backward, ForwardTangent, BackwardTangent, QuietLeft, QuietRight;
  }

  /** A direction that moves only the decay at `j`, by `eps`. */
  ghost function DecayAlone(n: nat, j: nat, eps: real): (td: seq<real>)
    ensures |td| == n && forall i :: 0 <= i < n ==> td[i] == if i == j then eps else 0.0
  {
    seq(n, i => if i == j then eps else 0.0)
  }

  /**
    The decay gradient is exact, not just first order: moving one decay by any eps and recomputing
    both fields moves the objective by exactly eps times the source's dd.
   */
  lemma DecayDifferenceIsExact(g: seq<real>, h: seq<real>, d: seq<real>, j: nat, eps: real)
    requires |g| == |h| == |d| && j < |d|
    ensures Objective(g, h, d[j := d[j] + eps]) - Objective(g, h, d) == eps * DecayGradient(g, h, d, j)
  {
    hide ForwardTangent, BackwardTangent, DecayGradient, Objective, Inner;
    var n := |g|;
    var th, td := Zeros(n), DecayAlone(n, j, eps);
    forall i | 0 <= i <= j ensures ForwardTangent(h, d, th, td, i) == 0.0 {
      QuietBefore(h, d, th, td, i);
    }
    forall i | j < i <= n ensures BackwardTangent(h, d, th, td, i) == 0.0 {
      QuietAfter(h, d, th, td, i);
    }
    DifferenceIsExact(g, h, d, h, d[j := d[j] + eps], th, td);
    InnerZero(th, HeatGradients(g, d));
    InnerUnit(td, DecayGradients(g, h, d), j);
  }

  lemma {:induction false} QuietBefore(h: seq<real>, d: seq<real>, th: seq<real>, td: seq<real>, i: nat)
    requires |h| == |d| == |th| == |td| && i <= |h|
    requires forall k :: 0 <= k < i ==> th[k] == 0.0 && td[k] == 0.0
    ensures ForwardTangent(h, d, th, td, i) == 0.0
  {
    hide Affine;
    if i > 0 {
      QuietBefore(h, d, th, td, i-1);
      AffineNothing(0.0, Forward(h, d, i-1));
      AffineNothing(0.0, d[i-1]);
    }
  }

  lemma {:induction false} QuietAfter(h: seq<real>, d: seq<real>, th: seq<real>, td: seq<real>, i: nat)
    requires |h| == |d| == |th| == |td| && i <= |h|
    requires forall k :: i <= k < |h| ==> th[k] == 0.0 && td[k] == 0.0
    ensures BackwardTangent(h, d, th, td, i) == 0.0
    decreases |h| - i
  {
    hide Affine;
    if i < |h| {
      QuietAfter(h, d, th, td, i+1);
      AffineNothing(0.0, Backward(h, d, i+1));
      AffineNothing(0.0, d[i]);
    }
  }

  /**
    Heats enter linearly: moving the heats along any direction u (one shared parameter may touch many
    positions) moves the objective by exactly eps times the heat-gradient total along u.
   */
  lemma HeatDifferenceIsExact(g: seq<real>, h: seq<real>, h': seq<real>, d: seq<real>, u: seq<real>, eps: real)
    requires |g| == |h| == |h'| == |d| == |u|
    requires forall i :: 0 <= i < |g| ==> h'[i] - h[i] == Product(eps, u[i])
    ensures Objective(g, h', d) - Objective(g, h, d) == eps * Inner(u, HeatGradients(g, d))
  {
    var th, td := Scaled(eps, u), Zeros(|g|);
    assert Moves(h, d, h', d, th, td) by { hide Product; }
    hide Objective, HeatGradient, Inner, Moves, ForwardTangent, BackwardTangent;
    DifferenceIsExact(g, h, d, h', d, th, td);
    InnerZero(td, DecayGradients(g, h, d));
    InnerScaled(eps, u, HeatGradients(g, d));
  }
}
