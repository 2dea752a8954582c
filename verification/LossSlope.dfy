/**
  The gradient a row adds is the derivative of its loss, in every parameter, when the logistic
  function and the logarithm have their slopes.
 */
module LossSlope {
  import opened Wrappers
  import opened Sums
  import opened Slopes
  import opened HeatField
  import opened ReverseMode
  import opened RecognizerTypes
  import opened Fit

  function Inverse(x: real): real { if x == 0.0 then 0.0 else 1.0 / x }

  /** What the logarithm's argument is raised by, so that it is never 0. */
  const GUARD: real := 0.000000000001

  /** The logistic function lies between 0 and 1 and has the slope p(1 - p), the logarithm the slope 1/x. */
  ghost predicate TrueCurves(f: Curves) {
    && (forall x :: 0.0 < f.Sigma(x) < 1.0 && HasSlope(f.sigma, x, Product(f.Sigma(x), 1.0 - f.Sigma(x))))
    && (forall x :: x > 0.0 ==> HasSlope(f.ln, x, Inverse(x)))
  }

  /** The probability given to the label, raised by the guard, and its slope in the score. */
  function Likelihood(y: bool, p: real): real { (if y then p else 1.0 - p) + GUARD }

  function LikelihoodSlope(y: bool, p: real): real { if y then Product(p, 1.0 - p) else -Product(p, 1.0 - p) }

  /** The slope of one position's loss in its score, by the chain rule. */
  function ExactResidual(w: real, y: bool, p: real): real {
    -Product(w, Product(Inverse(Likelihood(y, p)), LikelihoodSlope(y, p)))
  }

  // ---- one position ----

  /** What a position adds to the row's log likelihood, as a function of its score. */
  ghost function TermCurve(f: Curves, w: real, y: bool): (c: real -> real)
    ensures forall z :: c(z) == LogLikelihood(f, w, y, f.Sigma(z))
  {
    (z: real) => LogLikelihood(f, w, y, f.Sigma(z))
  }

  ghost function LikelihoodCurve(f: Curves, y: bool): (c: real -> real)
    ensures forall z :: c(z) == Likelihood(y, f.Sigma(z))
  {
    (z: real) => Likelihood(y, f.Sigma(z))
  }

  lemma LikelihoodHasSlope(f: Curves, y: bool, z: real)
    requires TrueCurves(f)
    ensures HasSlope(LikelihoodCurve(f, y), z, LikelihoodSlope(y, f.Sigma(z)))
  {
    hide HasSlope, Product, TrueCurves, Constant, LikelihoodCurve;
    CurvesAt(f, z);
    var slope := Product(f.Sigma(z), 1.0 - f.Sigma(z));
    if y {
      SlopeOfConstant(Constant(GUARD), z);
      SlopeOfSum(f.sigma, Constant(GUARD), LikelihoodCurve(f, y), z, slope, 0.0);
    } else {
      SlopeOfConstant(Constant(1.0 + GUARD), z);
      DifferenceHasSlope(Constant(1.0 + GUARD), f.sigma, LikelihoodCurve(f, y), z, 0.0, slope);
    }
  }

  lemma CurvesAt(f: Curves, x: real)
    requires TrueCurves(f)
    ensures 0.0 < f.Sigma(x) < 1.0 && HasSlope(f.sigma, x, Product(f.Sigma(x), 1.0 - f.Sigma(x)))
    ensures x > 0.0 ==> HasSlope(f.ln, x, Inverse(x))
  {
    hide HasSlope, Product;
  }

  /** The logarithm of the likelihood, as a function of the score. */
  ghost function LogCurve(f: Curves, y: bool): (c: real -> real)
    ensures forall z :: c(z) == f.ln(LikelihoodCurve(f, y)(z))
  {
    (z: real) => f.ln(LikelihoodCurve(f, y)(z))
  }

  lemma LogHasSlope(f: Curves, y: bool, z: real)
    requires TrueCurves(f)
    ensures var p := f.Sigma(z); HasSlope(LogCurve(f, y), z, Product(Inverse(Likelihood(y, p)), LikelihoodSlope(y, p)))
  {
    hide HasSlope, Product, Likelihood, LikelihoodSlope, TrueCurves, Inverse;
    var p := f.Sigma(z);
    LikelihoodHasSlope(f, y, z);
    CurvesAt(f, z);
    LikelihoodIsPositive(y, p);
    CurvesAt(f, Likelihood(y, p));
    SlopeOfComposite(LikelihoodCurve(f, y), f.ln, LogCurve(f, y), z, LikelihoodSlope(y, p), Inverse(Likelihood(y, p)));
  }

  /** The slope of a position's loss in its score. */
  lemma TermHasSlope(f: Curves, w: real, y: bool, z: real)
    requires TrueCurves(f)
    ensures HasSlope(TermCurve(f, w, y), z, -ExactResidual(w, y, f.Sigma(z)))
  {
    hide HasSlope, Product, Likelihood, LikelihoodSlope, LogLikelihood, TrueCurves, Inverse, TermCurve, LogCurve;
    var p := f.Sigma(z);
    LogHasSlope(f, y, z);
    TermsAreMultiples(f, w, y);
    SlopeOfMultiple(LogCurve(f, y), TermCurve(f, w, y), w, z, Product(Inverse(Likelihood(y, p)), LikelihoodSlope(y, p)));
  }

  lemma LikelihoodIsPositive(y: bool, p: real)
    requires 0.0 < p < 1.0
    ensures Likelihood(y, p) > 0.0
  {
  }

  lemma TermIsMultiple(f: Curves, w: real, y: bool, x: real)
    ensures TermCurve(f, w, y)(x) == Product(w, LogCurve(f, y)(x))
  {
    hide LogLikelihood, Likelihood, Product, TermCurve, LogCurve, LikelihoodCurve;
    TermIsProduct(f, w, y, f.Sigma(x));
  }

  lemma TermsAreMultiples(f: Curves, w: real, y: bool)
    ensures forall x :: TermCurve(f, w, y)(x) == Product(w, LogCurve(f, y)(x))
  {
    hide LogLikelihood, Likelihood, Product, TermCurve, LogCurve, LikelihoodCurve;
    forall x ensures TermCurve(f, w, y)(x) == Product(w, LogCurve(f, y)(x)) {
      TermIsMultiple(f, w, y, x);
    }
  }

  lemma TermIsProduct(f: Curves, w: real, y: bool, p: real)
    ensures LogLikelihood(f, w, y, p) == Product(w, f.ln(Likelihood(y, p)))
  {
    if w == 0.0 {
      NothingTimes(f.ln(Likelihood(y, p)));
    } else {
      assert f.Ln(p + GUARD) == f.ln(p + GUARD) && f.Ln(1.0 - p + GUARD) == f.ln(1.0 - p + GUARD);
    }
  }

  /**
    The code's residual is that slope up to the guard of the logarithm, has its sign, and is positive
    exactly when the probability is above the label.
   */
  lemma ResidualIsSlope(w: real, y: bool, p: real)
    requires 0.0 < p < 1.0
    ensures Product(Residual(w, y, p), if y then p else 1.0 - p) == Product(ExactResidual(w, y, p), Likelihood(y, p))
    ensures w > 0.0 ==> (Residual(w, y, p) > 0.0 <==> p > if y then 1.0 else 0.0)
    ensures Residual(w, y, p) == 0.0 <==> w == 0.0
  {
  }
}
