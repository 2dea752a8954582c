/**
  What one step of the optimizer means: bias-corrected averages of the gradient and its square, a move
  against the first, and a penalty that acts on its own entries only.
 */
module AdamStep {
  import opened Sums
  import opened RecognizerTypes
  import opened Fit
  import opened Training
  import opened Slopes

  function Half(l2: real): real { 0.5 * l2 }

  /** The penalty: half of l2 times the square. */
  ghost function PenaltyCurve(l2: real): (c: real -> real)
    ensures forall t :: c(t) == Product(Product(Half(l2), t), t)
  {
    (t: real) => Product(Product(Half(l2), t), t)
  }

  lemma PenaltyCurveHasSlope(l2: real, x: real)
    ensures HasSlope(PenaltyCurve(l2), x, Product(l2, x))
  {
    hide HasSlope, Product, Line, PenaltyCurve, Half;
    LineHasSlope(Half(l2), x);
    LineHasSlope(1.0, x);
    PenaltyIsProduct(l2);
    SlopeOfProduct(Line(Half(l2)), Line(1.0), PenaltyCurve(l2), x, Half(l2), 1.0);
    HalfTwice(l2, x);
  }

  lemma PenaltyIsProduct(l2: real)
    ensures forall t :: PenaltyCurve(l2)(t) == Product(Line(Half(l2))(t), Line(1.0)(t))
  {
    hide Product, Line, PenaltyCurve, Half;
    forall t ensures PenaltyCurve(l2)(t) == Product(Line(Half(l2))(t), Line(1.0)(t)) {
      NothingTimes(t);
    }
  }

  lemma HalfTwice(l2: real, x: real)
    ensures Product(Half(l2), Line(1.0)(x)) + Product(Line(Half(l2))(x), 1.0) == Product(l2, x)
  {
    hide Line;
  }

  /** What the penalty adds to the gradient of an entry is its derivative. */
  lemma PenaltyHasSlope(opts: Options, j: nat, x: real, g: real, batchWeight: real)
    requires Squared(j)
    ensures HasSlope(PenaltyCurve(opts.l2), x, PenalizedGradient(opts, j, x, g, batchWeight) - g / Max(1.0, batchWeight))
  {
    hide HasSlope, PenaltyCurve, Max;
    PenaltyCurveHasSlope(opts.l2, x);
    PenaltyPart(opts, j, x, g, batchWeight);
  }

  lemma PenaltyPart(opts: Options, j: nat, x: real, g: real, batchWeight: real)
    requires Squared(j)
    ensures PenalizedGradient(opts, j, x, g, batchWeight) - g / Max(1.0, batchWeight) == Product(opts.l2, x)
  {
    hide Max;
  }

  /** The moments after `n` steps that all saw the gradient `s`. */
  ghost predicate SteadyMoments(e: Entry, s: real, n: nat) {
    e.m == Product(s, 1.0 - Pow(0.9, n)) && e.v == Product(Product(s, s), 1.0 - Pow(0.999, n))
  }

  lemma MeanStays(m: real, s: real, p: real)
    requires m == Product(s, 1.0 - p)
    ensures MeanOf(m, s) == Product(s, 1.0 - 0.9 * p)
  {
  }

  lemma SquareMeanStays(v: real, s: real, p: real)
    requires v == Product(Product(s, s), 1.0 - p)
    ensures SquareMeanOf(v, s) == Product(Product(s, s), 1.0 - 0.999 * p)
  {
    var q := s * s;
    assert 0.001 * s * s == 0.001 * q;
    assert 0.999 * (q * (1.0 - p)) == 0.999 * q - q * (0.999 * p);
  }

  lemma CorrectionIsExact(s: real, b: real, step: nat)
    requires 0.0 < b < 1.0 && step >= 1
    ensures Unbiased(Product(s, 1.0 - Pow(b, step)), b, step) == s
  {
    PowBelowOne(b, step);
    DividesOut(s, 1.0 - Pow(b, step));
  }

  lemma DividesOut(s: real, q: real)
    requires q > 0.0
    ensures Product(s, q) / q == s
  {
  }

  /**
    Under a steady gradient the moments stay steady and their corrections are exact: the means come out
    as the gradient and its square at every step, and the entry moves against the gradient by the rate
    times the gradient over the root of its square, before the absolute penalty.
   */
  lemma SteadyStep(f: Curves, opts: Options, ov: Overrides, j: nat, e: Entry, g: real, batchWeight: real, step: nat)
    requires step >= 1 && f.Valid() && !Frozen(j) && (g != 0.0 || e.m != 0.0)
    requires SteadyMoments(e, PenalizedGradient(opts, j, e.x, g, batchWeight), step - 1)
    ensures var s := PenalizedGradient(opts, j, e.x, g, batchWeight);
            var t := Stepped(f, opts, ov, j, e, g, batchWeight, step);
            var x := Moved(e.x, Rate(opts, step), s, f.Root(Product(s, s)));
            && SteadyMoments(t, s, step)
            && t.x == if Sparse(ov, j) then SoftThreshold(x, Pull(opts, step)) else x
  {
    hide SoftThreshold, Pull, Rate, PenalizedGradient, MeanOf, SquareMeanOf, Unbiased, Moved, Product, Frozen, Sparse;
    var s := PenalizedGradient(opts, j, e.x, g, batchWeight);
    assert Pow(0.9, step) == 0.9 * Pow(0.9, step - 1) && Pow(0.999, step) == 0.999 * Pow(0.999, step - 1);
    MeanStays(e.m, s, Pow(0.9, step - 1));
    SquareMeanStays(e.v, s, Pow(0.999, step - 1));
    CorrectionIsExact(s, 0.9, step);
    CorrectionIsExact(Product(s, s), 0.999, step);
  }

  /** At rest before the first step, the moments are those of any steady gradient. */
  lemma RestIsSteady(s: real)
    ensures SteadyMoments(Entry(0.0, 0.0, 0.0), s, 0)
  {
  }

  lemma DirectionOf(rate: real, mean: real, root: real)
    requires rate > 0.0 && root >= 0.0
    ensures mean > 0.0 ==> rate * mean / (root + 0.00000001) > 0.0
    ensures mean == 0.0 ==> rate * mean / (root + 0.00000001) == 0.0
  {
    var c := root + 0.00000001;
    if mean > 0.0 {
      assert rate * mean > 0.0;
    }
  }

  lemma MovesAgainst(x: real, rate: real, mean: real, root: real)
    requires rate > 0.0 && root >= 0.0
    ensures Moved(x, rate, mean, root) < x <==> mean > 0.0
    ensures Moved(x, rate, mean, root) > x <==> mean < 0.0
  {
    DirectionOf(rate, mean, root);
    DirectionOf(rate, -mean, root);
    assert rate * (-mean) / (root + 0.00000001) == -(rate * mean / (root + 0.00000001));
  }

  lemma CorrectionKeepsSign(mean: real, b: real, step: nat)
    requires 0.0 < b < 1.0 && step >= 1
    ensures (Unbiased(mean, b, step) > 0.0 <==> mean > 0.0) && (Unbiased(mean, b, step) < 0.0 <==> mean < 0.0)
  {
    PowBelowOne(b, step);
    SignOfQuotient(mean, 1.0 - Pow(b, step));
  }

  lemma SignOfQuotient(a: real, q: real)
    requires q > 0.0
    ensures (a / q > 0.0 <==> a > 0.0) && (a / q < 0.0 <==> a < 0.0)
  {
  }

  /** Whatever came before, an entry without the absolute penalty moves strictly against its new mean gradient. */
  lemma StepsAgainstMean(f: Curves, opts: Options, ov: Overrides, j: nat, e: Entry, g: real, batchWeight: real, step: nat)
    requires step >= 1 && f.Valid() && !Frozen(j) && (g != 0.0 || e.m != 0.0) && !Sparse(ov, j) && Rate(opts, step) > 0.0
    ensures var t := Stepped(f, opts, ov, j, e, g, batchWeight, step);
            (t.x < e.x <==> t.m > 0.0) && (t.x > e.x <==> t.m < 0.0)
  {
    hide Rate, PenalizedGradient, MeanOf, SquareMeanOf, Unbiased, Moved;
    var grad := PenalizedGradient(opts, j, e.x, g, batchWeight);
    var m, v := MeanOf(e.m, grad), SquareMeanOf(e.v, grad);
    CorrectionKeepsSign(m, 0.9, step);
    MovesAgainst(e.x, Rate(opts, step), Unbiased(m, 0.9, step), f.Root(Unbiased(v, 0.999, step)));
  }

  /** The rate rises over the first fifty steps to the chosen one, and stays there. */
  lemma RateWarmsUp(opts: Options, step: nat)
    requires opts.learningRate > 0.0
    ensures Rate(opts, step) <= Rate(opts, step + 1) <= opts.learningRate
    ensures Rate(opts, step) == opts.learningRate <==> step >= 50
    ensures step <= 50 ==> 50.0 * Rate(opts, step) == opts.learningRate * step as real
  {
  }

  /**
    The two penalties part the vector: what a position reads for its own class, heat or decay, is
    squared, what it reads for its neighbours or for an override is sparse, the threshold is neither.
   */
  lemma PenaltiesPartTheVector(ov: Overrides, row: Row, i: nat, p: nat)
    requires row.Valid() && ov.Valid() && i < |row.cls|
    ensures ReadsHeat(ov, row, i, p) ==> if p == row.cls[i] then Squared(p) && !Sparse(ov, p) else Sparse(ov, p) && !Squared(p)
    ensures ReadsDecay(ov, row, i, p) ==> if p == K + row.cls[i] then Squared(p) && !Sparse(ov, p) else Sparse(ov, p) && !Squared(p)
    ensures p <= ThetaAt(ov) ==> (p == ThetaAt(ov) <==> !Squared(p) && !Sparse(ov, p))
  {
  }
}
