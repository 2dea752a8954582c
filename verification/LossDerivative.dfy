/**
  The derivative of a row's loss in one parameter, by the rules for sums, products and composites,
  and that the gradient a row adds is it, position by position up to the guard of the logarithm.
 */
module LossDerivative {
  import opened Wrappers
  import opened Sums
  import opened Slopes
  import opened HeatField
  import opened ReverseMode
  import opened RecognizerTypes
  import opened Fit
  import opened LossSlope

  /** One entry of the parameter vector, at the place where the derivative is taken. */
  ghost predicate IsEntry(ps: seq<real>, ov: Overrides, row: Row, p: nat) {
    Fits(ps, ov, row) && p < |ps|
  }

  lemma MovedFits(ps: seq<real>, ov: Overrides, row: Row, p: nat, t: real)
    requires IsEntry(ps, ov, row, p)
    ensures Fits(ps[p := t], ov, row) && ps[p := t][p] == t && |ps[p := t]| == |ps|
  {
  }

  // ---- heats and decays along the entry ----

  ghost function HeatCurve(ps: seq<real>, ov: Overrides, row: Row, p: nat, i: nat): real -> real
    requires IsEntry(ps, ov, row, p) && i < |row.cls|
  {
    (t: real) => HeatAt(ps[p := t], ov, row, i)
  }

  ghost function LogitCurve(ps: seq<real>, ov: Overrides, row: Row, p: nat, i: nat): real -> real
    requires IsEntry(ps, ov, row, p) && i < |row.cls|
  {
    (t: real) => LogitAt(ps[p := t], ov, row, i)
  }

  ghost function DecayCurve(f: Curves, ps: seq<real>, ov: Overrides, row: Row, p: nat, i: nat): real -> real
    requires IsEntry(ps, ov, row, p) && i < |row.cls|
  {
    (t: real) => DecayAt(f, ps[p := t], ov, row, i)
  }

  lemma InputsMove(ps: seq<real>, ov: Overrides, row: Row, p: nat, i: nat, t: real)
    requires IsEntry(ps, ov, row, p) && i < |row.cls|
    ensures var by0 := if ReadsHeat(ov, row, i, p) then 1.0 else 0.0;
            HeatAt(ps[p := t], ov, row, i) == HeatAt(ps, ov, row, i) + Product(by0, t - ps[p])
    ensures var by0 := if ReadsDecay(ov, row, i, p) then 1.0 else 0.0;
            LogitAt(ps[p := t], ov, row, i) == LogitAt(ps, ov, row, i) + Product(by0, t - ps[p])
  {
    hide HeatAt, LogitAt, ReadsHeat, ReadsDecay, Product;
    OneEntryMovesItsReaders(ps, ov, row, i, p, t - ps[p]);
    NothingTimes(t - ps[p]);
  }

  lemma HeatHasSlope(ps: seq<real>, ov: Overrides, row: Row, p: nat, i: nat)
    requires IsEntry(ps, ov, row, p) && i < |row.cls|
    ensures HasSlope(HeatCurve(ps, ov, row, p, i), ps[p], HeatDirection(ov, row, p)[i])
  {
    hide HeatAt, LogitAt, ReadsHeat, ReadsDecay, Product, HasSlope;
    var curve := HeatCurve(ps, ov, row, p, i);
    assert ps[p := ps[p]] == ps;
    forall t ensures curve(t) == curve(ps[p]) + Product(HeatDirection(ov, row, p)[i], t - ps[p]) {
      InputsMove(ps, ov, row, p, i, t);
    }
    SlopeOfLine(curve, ps[p], HeatDirection(ov, row, p)[i]);
  }

  lemma LogitHasSlope(ps: seq<real>, ov: Overrides, row: Row, p: nat, i: nat)
    requires IsEntry(ps, ov, row, p) && i < |row.cls|
    ensures HasSlope(LogitCurve(ps, ov, row, p, i), ps[p], if ReadsDecay(ov, row, i, p) then 1.0 else 0.0)
  {
    hide HeatAt, LogitAt, ReadsHeat, ReadsDecay, Product, HasSlope;
    var curve, s := LogitCurve(ps, ov, row, p, i), if ReadsDecay(ov, row, i, p) then 1.0 else 0.0;
    assert ps[p := ps[p]] == ps;
    forall t ensures curve(t) == curve(ps[p]) + Product(s, t - ps[p]) {
      InputsMove(ps, ov, row, p, i, t);
    }
    SlopeOfLine(curve, ps[p], s);
  }

  lemma TailReadsNothing(ov: Overrides, row: Row, p: nat, i: nat)
    requires row.Valid() && ov.Valid() && i < |row.cls| && row.cls[i] == TAIL
    ensures !ReadsDecay(ov, row, i, p)
  {
  }

  lemma LogitSlopeIs(d: real, read: bool)
    ensures Product(Product(d, 1.0 - d), if read then 1.0 else 0.0) == if read then LogitSlope(1.0, d) else 0.0
  {
  }

  lemma DecayHasSlope(f: Curves, ps: seq<real>, ov: Overrides, row: Row, p: nat, i: nat)
    requires IsEntry(ps, ov, row, p) && i < |row.cls| && TrueCurves(f)
    ensures HasSlope(DecayCurve(f, ps, ov, row, p, i), ps[p], DecayDirection(Decays(f, ps, ov, row), ov, row, p)[i])
  {
    hide HeatAt, LogitAt, ReadsHeat, ReadsDecay, Product, HasSlope, LogitSlope, TrueCurves;
    var curve, d := DecayCurve(f, ps, ov, row, p, i), Decays(f, ps, ov, row);
    assert ps[p := ps[p]] == ps;
    if row.cls[i] == TAIL {
      TailReadsNothing(ov, row, p, i);
      SlopeOfConstant(curve, ps[p]);
    } else {
      var read := ReadsDecay(ov, row, i, p);
      LogitHasSlope(ps, ov, row, p, i);
      CurvesAt(f, LogitAt(ps, ov, row, i));
      var logit := LogitCurve(ps, ov, row, p, i);
      assert logit(ps[p]) == LogitAt(ps, ov, row, i);
      SlopeOfComposite(logit, f.sigma, curve, ps[p], if read then 1.0 else 0.0, Product(d[i], 1.0 - d[i]));
      LogitSlopeIs(d[i], read);
    }
  }

  // ---- the fields and the scores ----

  ghost function ForwardCurve(f: Curves, ps: seq<real>, ov: Overrides, row: Row, p: nat, i: nat): real -> real
    requires IsEntry(ps, ov, row, p) && i <= |row.cls|
  {
    (t: real) => Forward(Heats(ps[p := t], ov, row), Decays(f, ps[p := t], ov, row), i)
  }

  ghost function BackwardCurve(f: Curves, ps: seq<real>, ov: Overrides, row: Row, p: nat, i: nat): real -> real
    requires IsEntry(ps, ov, row, p) && i <= |row.cls|
  {
    (t: real) => Backward(Heats(ps[p := t], ov, row), Decays(f, ps[p := t], ov, row), i)
  }

  ghost function Carried(decay: real -> real, field: real -> real): (c: real -> real)
    ensures forall t :: c(t) == Product(decay(t), field(t))
  {
    (t: real) => Product(decay(t), field(t))
  }

  lemma CarriedHasSlope(decay: real -> real, field: real -> real, x: real, td: real, tf: real)
    requires HasSlope(decay, x, td) && HasSlope(field, x, tf)
    ensures HasSlope(Carried(decay, field), x, Product(td, field(x)) + Product(decay(x), tf))
  {
    hide HasSlope, Product, Carried;
    SlopeOfProduct(decay, field, Carried(decay, field), x, td, tf);
  }

  lemma CarriedAt(decay: real -> real, field: real -> real, t: real, heat: real)
    ensures Affine(heat, decay(t), field(t)) == heat + Carried(decay, field)(t)
  {
    hide Product, Affine, Carried;
    AffineIsSum(heat, decay(t), field(t));
  }

  /** One step of either recurrence: a heat plus a decay times the field so far. */
  lemma StepHasSlope(heat: real -> real, decay: real -> real, field: real -> real, next: real -> real, x: real,
                     th: real, td: real, tf: real)
    requires HasSlope(heat, x, th) && HasSlope(decay, x, td) && HasSlope(field, x, tf)
    requires forall t :: next(t) == Affine(heat(t), decay(t), field(t))
    ensures HasSlope(next, x, Affine(Affine(th, td, field(x)), decay(x), tf))
  {
    hide HasSlope, Product, Affine, Carried;
    CarriedHasSlope(decay, field, x, td, tf);
    forall t ensures next(t) == heat(t) + Carried(decay, field)(t) {
      CarriedAt(decay, field, t, heat(t));
    }
    SlopeOfSum(heat, Carried(decay, field), next, x, th, Product(td, field(x)) + Product(decay(x), tf));
    AffineIsSum(th, td, field(x));
    AffineIsSum(Affine(th, td, field(x)), decay(x), tf);
  }

  lemma ForwardCurveStep(f: Curves, ps: seq<real>, ov: Overrides, row: Row, p: nat, i: nat, t: real)
    requires IsEntry(ps, ov, row, p) && i < |row.cls|
    ensures ForwardCurve(f, ps, ov, row, p, i + 1)(t) ==
            Affine(HeatCurve(ps, ov, row, p, i)(t), DecayCurve(f, ps, ov, row, p, i)(t), ForwardCurve(f, ps, ov, row, p, i)(t))
  {
    hide HeatAt, DecayAt, Affine;
  }

  lemma ForwardStepHasSlope(f: Curves, ps: seq<real>, ov: Overrides, row: Row, p: nat, i: nat, tf: real)
    requires IsEntry(ps, ov, row, p) && i < |row.cls| && TrueCurves(f)
    requires HasSlope(ForwardCurve(f, ps, ov, row, p, i), ps[p], tf)
    ensures var h, d := Heats(ps, ov, row), Decays(f, ps, ov, row);
            HasSlope(ForwardCurve(f, ps, ov, row, p, i + 1), ps[p],
                     Affine(Affine(HeatDirection(ov, row, p)[i], DecayDirection(d, ov, row, p)[i], Forward(h, d, i)), d[i], tf))
  {
    hide HeatAt, DecayAt, HasSlope, TrueCurves, Affine, ReadsHeat, ReadsDecay, LogitSlope, Product;
    assert ps[p := ps[p]] == ps;
    HeatHasSlope(ps, ov, row, p, i);
    DecayHasSlope(f, ps, ov, row, p, i);
    var heat, decay, field := HeatCurve(ps, ov, row, p, i), DecayCurve(f, ps, ov, row, p, i), ForwardCurve(f, ps, ov, row, p, i);
    var next, d := ForwardCurve(f, ps, ov, row, p, i + 1), Decays(f, ps, ov, row);
    forall t ensures next(t) == Affine(heat(t), decay(t), field(t)) {
      ForwardCurveStep(f, ps, ov, row, p, i, t);
    }
    StepHasSlope(heat, decay, field, next, ps[p], HeatDirection(ov, row, p)[i], DecayDirection(d, ov, row, p)[i], tf);
  }

  lemma {:induction false} ForwardHasSlope(f: Curves, ps: seq<real>, ov: Overrides, row: Row, p: nat, i: nat)
    requires IsEntry(ps, ov, row, p) && i <= |row.cls| && TrueCurves(f)
    ensures var h, d := Heats(ps, ov, row), Decays(f, ps, ov, row);
            HasSlope(ForwardCurve(f, ps, ov, row, p, i), ps[p],
                     ForwardTangent(h, d, HeatDirection(ov, row, p), DecayDirection(d, ov, row, p), i))
  {
    hide HeatAt, DecayAt, HasSlope, TrueCurves, Affine, ReadsHeat, ReadsDecay, LogitSlope;
    if i == 0 {
      SlopeOfConstant(ForwardCurve(f, ps, ov, row, p, i), ps[p]);
    } else {
      ForwardHasSlope(f, ps, ov, row, p, i - 1);
      var h, d := Heats(ps, ov, row), Decays(f, ps, ov, row);
      ForwardStepHasSlope(f, ps, ov, row, p, i - 1,
                          ForwardTangent(h, d, HeatDirection(ov, row, p), DecayDirection(d, ov, row, p), i - 1));
    }
  }

  lemma {:induction false} BackwardHasSlope(f: Curves, ps: seq<real>, ov: Overrides, row: Row, p: nat, i: nat)
    requires IsEntry(ps, ov, row, p) && i <= |row.cls| && TrueCurves(f)
    ensures var h, d := Heats(ps, ov, row), Decays(f, ps, ov, row);
            HasSlope(BackwardCurve(f, ps, ov, row, p, i), ps[p],
                     BackwardTangent(h, d, HeatDirection(ov, row, p), DecayDirection(d, ov, row, p), i))
    decreases |row.cls| - i
  {
    hide HeatAt, DecayAt, HasSlope, TrueCurves, Affine, ReadsHeat, ReadsDecay, LogitSlope;
    assert ps[p := ps[p]] == ps;
    var next := BackwardCurve(f, ps, ov, row, p, i);
    if i == |row.cls| {
      SlopeOfConstant(next, ps[p]);
    } else {
      BackwardHasSlope(f, ps, ov, row, p, i + 1);
      HeatHasSlope(ps, ov, row, p, i);
      DecayHasSlope(f, ps, ov, row, p, i);
      var heat, decay, field := HeatCurve(ps, ov, row, p, i), DecayCurve(f, ps, ov, row, p, i), BackwardCurve(f, ps, ov, row, p, i + 1);
      forall t ensures next(t) == Affine(heat(t), decay(t), field(t)) {
        MovedFits(ps, ov, row, p, t);
      }
      var d := Decays(f, ps, ov, row);
      StepHasSlope(heat, decay, field, next, ps[p], HeatDirection(ov, row, p)[i], DecayDirection(d, ov, row, p)[i],
                   BackwardTangent(Heats(ps, ov, row), d, HeatDirection(ov, row, p), DecayDirection(d, ov, row, p), i + 1));
    }
  }

  ghost function ScoreCurve(f: Curves, ps: seq<real>, ov: Overrides, row: Row, p: nat, i: nat): real -> real
    requires IsEntry(ps, ov, row, p) && i < |row.cls|
  {
    (t: real) => Score(Heats(ps[p := t], ov, row), Decays(f, ps[p := t], ov, row), i)
  }

  lemma ScoreHasSlope(f: Curves, ps: seq<real>, ov: Overrides, row: Row, p: nat, i: nat)
    requires IsEntry(ps, ov, row, p) && i < |row.cls| && TrueCurves(f)
    ensures var h, d := Heats(ps, ov, row), Decays(f, ps, ov, row);
            HasSlope(ScoreCurve(f, ps, ov, row, p, i), ps[p],
                     ScoreTangents(h, d, HeatDirection(ov, row, p), DecayDirection(d, ov, row, p))[i])
  {
    hide HeatAt, DecayAt, HasSlope, TrueCurves, ReadsHeat, ReadsDecay, LogitSlope, Forward, Backward, ForwardTangent, BackwardTangent;
    var h, d := Heats(ps, ov, row), Decays(f, ps, ov, row);
    var th, td := HeatDirection(ov, row, p), DecayDirection(d, ov, row, p);
    ForwardHasSlope(f, ps, ov, row, p, i + 1);
    BackwardHasSlope(f, ps, ov, row, p, i);
    HeatHasSlope(ps, ov, row, p, i);
    SumHasSlope(ForwardCurve(f, ps, ov, row, p, i + 1), BackwardCurve(f, ps, ov, row, p, i), HeatCurve(ps, ov, row, p, i),
                ScoreCurve(f, ps, ov, row, p, i), ps[p],
                ForwardTangent(h, d, th, td, i + 1), BackwardTangent(h, d, th, td, i), th[i]);
  }

  lemma SumHasSlope(a: real -> real, b: real -> real, c: real -> real, sum: real -> real, x: real, sa: real, sb: real, sc: real)
    requires HasSlope(a, x, sa) && HasSlope(b, x, sb) && HasSlope(c, x, sc) && forall t :: sum(t) == a(t) + b(t) - c(t)
    ensures HasSlope(sum, x, sa + sb - sc)
  {
    hide HasSlope;
    var ab := Added(a, b);
    SlopeOfSum(a, b, ab, x, sa, sb);
    DifferenceHasSlope(ab, c, sum, x, sa + sb, sc);
  }

  ghost function Added(a: real -> real, b: real -> real): (c: real -> real)
    ensures forall t :: c(t) == a(t) + b(t)
  {
    (t: real) => a(t) + b(t)
  }

  // ---- the loss ----

  ghost function ThetaCurve(ps: seq<real>, ov: Overrides, row: Row, p: nat): real -> real
    requires IsEntry(ps, ov, row, p)
  {
    (t: real) => ps[p := t][ThetaAt(ov)]
  }

  lemma ThetaHasSlope(ps: seq<real>, ov: Overrides, row: Row, p: nat)
    requires IsEntry(ps, ov, row, p)
    ensures HasSlope(ThetaCurve(ps, ov, row, p), ps[p], ThetaDirection(ov, p))
  {
    hide HasSlope, Product;
    var curve := ThetaCurve(ps, ov, row, p);
    forall t ensures curve(t) == curve(ps[p]) + Product(ThetaDirection(ov, p), t - ps[p]) {
      NothingTimes(t - ps[p]);
    }
    SlopeOfLine(curve, ps[p], ThetaDirection(ov, p));
  }

  /** A position's score above the threshold. */
  ghost function MarginCurve(f: Curves, ps: seq<real>, ov: Overrides, row: Row, p: nat, i: nat): (c: real -> real)
    requires IsEntry(ps, ov, row, p) && i < |row.cls|
    ensures forall t :: c(t) == ScoreCurve(f, ps, ov, row, p, i)(t) - ThetaCurve(ps, ov, row, p)(t)
  {
    (t: real) => ScoreCurve(f, ps, ov, row, p, i)(t) - ThetaCurve(ps, ov, row, p)(t)
  }

  /** What position `i` adds to the log likelihood, along the entry. */
  ghost function TermOf(f: Curves, ps: seq<real>, ov: Overrides, row: Row, p: nat, i: nat): (c: real -> real)
    requires IsEntry(ps, ov, row, p) && i < |row.cls|
    ensures forall t :: c(t) == LogTerms(f, ps[p := t], ov, row)[i]
  {
    (t: real) => LogTerms(f, ps[p := t], ov, row)[i]
  }

  lemma TermIsOfMargin(f: Curves, ps: seq<real>, ov: Overrides, row: Row, p: nat, i: nat, t: real)
    requires IsEntry(ps, ov, row, p) && i < |row.cls|
    ensures TermOf(f, ps, ov, row, p, i)(t) == TermCurve(f, row.w[i], row.y[i])(MarginCurve(f, ps, ov, row, p, i)(t))
  {
    hide LogLikelihood, Score, Heats, Decays, TermOf, MarginCurve, TermCurve;
  }

  /** The slope of the loss at each position, at the code's probabilities. */
  ghost function ExactResiduals(f: Curves, ps: seq<real>, ov: Overrides, row: Row): (g: seq<real>)
    requires Fits(ps, ov, row)
    ensures |g| == |row.cls|
    ensures forall i :: 0 <= i < |g| ==> g[i] == ExactResidual(row.w[i], row.y[i], Probability(f, ps, ov, row, i))
  {
    seq(|row.cls|, i requires 0 <= i < |row.cls| => ExactResidual(row.w[i], row.y[i], Probability(f, ps, ov, row, i)))
  }

  /** How fast the score of position `i` rises above the threshold, along the entry. */
  ghost function MarginSlope(f: Curves, ps: seq<real>, ov: Overrides, row: Row, p: nat, i: nat): real
    requires IsEntry(ps, ov, row, p) && i < |row.cls|
  {
    var h, d := Heats(ps, ov, row), Decays(f, ps, ov, row);
    ScoreTangents(h, d, HeatDirection(ov, row, p), DecayDirection(d, ov, row, p))[i] - ThetaDirection(ov, p)
  }

  lemma MarginHasSlope(f: Curves, ps: seq<real>, ov: Overrides, row: Row, p: nat, i: nat)
    requires IsEntry(ps, ov, row, p) && i < |row.cls| && TrueCurves(f)
    ensures HasSlope(MarginCurve(f, ps, ov, row, p, i), ps[p], MarginSlope(f, ps, ov, row, p, i))
  {
    hide HasSlope, TrueCurves, MarginCurve, ScoreCurve, ThetaCurve, Heats, Decays, HeatDirection, DecayDirection, ThetaDirection;
    var slope, tt := MarginSlope(f, ps, ov, row, p, i), ThetaDirection(ov, p);
    ScoreHasSlope(f, ps, ov, row, p, i);
    ThetaHasSlope(ps, ov, row, p);
    DifferenceHasSlope(ScoreCurve(f, ps, ov, row, p, i), ThetaCurve(ps, ov, row, p), MarginCurve(f, ps, ov, row, p, i), ps[p], slope + tt, tt);
  }

  lemma TermOfHasSlope(f: Curves, ps: seq<real>, ov: Overrides, row: Row, p: nat, i: nat)
    requires IsEntry(ps, ov, row, p) && i < |row.cls| && TrueCurves(f)
    ensures HasSlope(TermOf(f, ps, ov, row, p, i), ps[p],
                     Product(-ExactResiduals(f, ps, ov, row)[i], MarginSlope(f, ps, ov, row, p, i)))
  {
    hide HasSlope, TrueCurves, Product, ExactResidual, ExactResiduals, LogLikelihood, LogTerms, MarginSlope, Probability, TermOf,
         MarginCurve, TermCurve, ScoreCurve, ThetaCurve;
    var margin, term := MarginCurve(f, ps, ov, row, p, i), TermCurve(f, row.w[i], row.y[i]);
    MarginHasSlope(f, ps, ov, row, p, i);
    MarginHere(f, ps, ov, row, p, i);
    TermHasSlope(f, row.w[i], row.y[i], margin(ps[p]));
    forall t ensures TermOf(f, ps, ov, row, p, i)(t) == term(margin(t)) {
      TermIsOfMargin(f, ps, ov, row, p, i, t);
    }
    SlopeOfComposite(margin, term, TermOf(f, ps, ov, row, p, i), ps[p], MarginSlope(f, ps, ov, row, p, i),
                     -ExactResiduals(f, ps, ov, row)[i]);
  }

  lemma MarginHere(f: Curves, ps: seq<real>, ov: Overrides, row: Row, p: nat, i: nat)
    requires IsEntry(ps, ov, row, p) && i < |row.cls|
    ensures f.Sigma(MarginCurve(f, ps, ov, row, p, i)(ps[p])) == Probability(f, ps, ov, row, i)
  {
    hide Score, Heats, Decays;
    assert ps[p := ps[p]] == ps;
  }

  ghost function MarginSlopes(f: Curves, ps: seq<real>, ov: Overrides, row: Row, p: nat): (x: seq<real>)
    requires IsEntry(ps, ov, row, p)
    ensures |x| == |row.cls| && forall i :: 0 <= i < |x| ==> x[i] == MarginSlope(f, ps, ov, row, p, i)
  {
    seq(|row.cls|, i requires 0 <= i < |row.cls| => MarginSlope(f, ps, ov, row, p, i))
  }

  /** The sum of the first `n` terms, along the entry. */
  ghost function TotalCurve(f: Curves, ps: seq<real>, ov: Overrides, row: Row, p: nat, n: nat): (c: real -> real)
    requires IsEntry(ps, ov, row, p) && n <= |row.cls|
    ensures forall t :: c(t) == Total(LogTerms(f, ps[p := t], ov, row), n)
  {
    (t: real) => Total(LogTerms(f, ps[p := t], ov, row), n)
  }

  lemma TotalStep(f: Curves, ps: seq<real>, ov: Overrides, row: Row, p: nat, n: nat, t: real)
    requires IsEntry(ps, ov, row, p) && n < |row.cls|
    ensures TotalCurve(f, ps, ov, row, p, n + 1)(t) == TotalCurve(f, ps, ov, row, p, n)(t) + TermOf(f, ps, ov, row, p, n)(t)
  {
    hide TotalCurve, TermOf, LogLikelihood, Probability;
  }

  lemma TotalStepHasSlope(f: Curves, ps: seq<real>, ov: Overrides, row: Row, p: nat, n: nat, s: real)
    requires IsEntry(ps, ov, row, p) && n < |row.cls| && TrueCurves(f)
    requires HasSlope(TotalCurve(f, ps, ov, row, p, n), ps[p], s)
    ensures HasSlope(TotalCurve(f, ps, ov, row, p, n + 1), ps[p],
                     s + Product(-ExactResiduals(f, ps, ov, row)[n], MarginSlope(f, ps, ov, row, p, n)))
  {
    hide HasSlope, TrueCurves, Product, LogTerms, TotalCurve, TermOf, MarginSlope, ExactResiduals, ExactResidual, Probability;
    TermOfHasSlope(f, ps, ov, row, p, n);
    forall t ensures TotalCurve(f, ps, ov, row, p, n + 1)(t) == TotalCurve(f, ps, ov, row, p, n)(t) + TermOf(f, ps, ov, row, p, n)(t) {
      TotalStep(f, ps, ov, row, p, n, t);
    }
    SlopeOfSum(TotalCurve(f, ps, ov, row, p, n), TermOf(f, ps, ov, row, p, n), TotalCurve(f, ps, ov, row, p, n + 1), ps[p], s,
               Product(-ExactResiduals(f, ps, ov, row)[n], MarginSlope(f, ps, ov, row, p, n)));
  }

  lemma DotOfNothing(e: seq<real>, x: seq<real>)
    ensures -Dot(e, x, 0) == 0.0
  {
  }

  lemma DotStep(e: seq<real>, x: seq<real>, n: nat)
    requires n < |e| && n < |x|
    ensures -Dot(e, x, n + 1) == -Dot(e, x, n) + Product(-e[n], x[n])
  {
    hide Product, Affine;
    AffineIsSum(Dot(e, x, n), e[n], x[n]);
    Negates(e[n], x[n]);
  }

  lemma {:induction false} TotalHasSlope(f: Curves, ps: seq<real>, ov: Overrides, row: Row, p: nat, n: nat)
    requires IsEntry(ps, ov, row, p) && n <= |row.cls| && TrueCurves(f)
    ensures HasSlope(TotalCurve(f, ps, ov, row, p, n), ps[p],
                     -Dot(ExactResiduals(f, ps, ov, row), MarginSlopes(f, ps, ov, row, p), n))
  {
    hide HasSlope, TrueCurves, Product, TotalCurve, MarginSlope, ExactResiduals, ExactResidual, Probability, Dot;
    var e, x := ExactResiduals(f, ps, ov, row), MarginSlopes(f, ps, ov, row, p);
    if n == 0 {
      NothingTotal(f, ps, ov, row, p);
      DotOfNothing(e, x);
    } else {
      TotalHasSlope(f, ps, ov, row, p, n - 1);
      TotalStepHasSlope(f, ps, ov, row, p, n - 1, -Dot(e, x, n - 1));
      DotStep(e, x, n - 1);
    }
  }

  lemma NothingTotal(f: Curves, ps: seq<real>, ov: Overrides, row: Row, p: nat)
    requires IsEntry(ps, ov, row, p)
    ensures HasSlope(TotalCurve(f, ps, ov, row, p, 0), ps[p], 0.0)
  {
    hide HasSlope, LogTerms, TotalCurve;
    SlopeOfConstant(TotalCurve(f, ps, ov, row, p, 0), ps[p]);
  }

  /** Weights times slopes above the threshold add up to the tangent of the margin. */
  lemma {:induction false} SlopesAddUp(e: seq<real>, x: seq<real>, m: seq<real>, tt: real, n: nat)
    requires |m| == |e| == |x| && n <= |m| && forall i :: 0 <= i < |m| ==> m[i] == x[i] - tt
    ensures Dot(e, m, n) == Dot(e, x, n) - Product(tt, Total(e, n))
  {
    hide Product, Affine;
    NothingTimes(tt);
    Associates(tt, 0.0, 0.0);
    if n > 0 {
      SlopesAddUp(e, x, m, tt, n - 1);
      AffineIsSum(Dot(e, m, n - 1), e[n-1], m[n-1]);
      AffineIsSum(Dot(e, x, n - 1), e[n-1], x[n-1]);
      Distributes(e[n-1], x[n-1], tt);
      Distributes(tt, Total(e, n - 1), e[n-1]);
      Associates(e[n-1], tt, 0.0);
    }
  }

  /** The row's loss as a function of one entry. */
  ghost function LossCurve(f: Curves, ps: seq<real>, ov: Overrides, row: Row, p: nat): (c: real -> real)
    requires IsEntry(ps, ov, row, p)
    ensures forall t :: c(t) == Loss(f, ps[p := t], ov, row)
  {
    (t: real) => Loss(f, ps[p := t], ov, row)
  }

  /**
    The derivative of the row's loss in any entry of the parameter vector is what the row's scatter
    adds to that entry when each position's weight is the exact slope of its loss in its score.
   */
  lemma GradientIsDerivative(f: Curves, ps: seq<real>, ov: Overrides, row: Row, p: nat)
    requires IsEntry(ps, ov, row, p) && TrueCurves(f)
    ensures HasSlope(LossCurve(f, ps, ov, row, p), ps[p],
                     Sum(Contributions(ExactResiduals(f, ps, ov, row), Heats(ps, ov, row), Decays(f, ps, ov, row), ov, row, p)))
  {
    hide HasSlope, TrueCurves, Contributions, TotalCurve, LossCurve, MarginSlopes, MarginSlope, ExactResiduals, MarginTangent, Loss, Sum, Dot;
    var e, x, n := ExactResiduals(f, ps, ov, row), MarginSlopes(f, ps, ov, row, p), |row.cls|;
    TotalHasSlope(f, ps, ov, row, p, n);
    forall t ensures LossCurve(f, ps, ov, row, p)(t) == -TotalCurve(f, ps, ov, row, p, n)(t) {
      LossIsTotal(f, ps, ov, row, p, t);
    }
    NegatedHasSlope(TotalCurve(f, ps, ov, row, p, n), LossCurve(f, ps, ov, row, p), ps[p], -Dot(e, x, n));
    ScatteredSlopes(f, ps, ov, row, p, e);
  }

  lemma LossIsTotal(f: Curves, ps: seq<real>, ov: Overrides, row: Row, p: nat, t: real)
    requires IsEntry(ps, ov, row, p)
    ensures LossCurve(f, ps, ov, row, p)(t) == -TotalCurve(f, ps, ov, row, p, |row.cls|)(t)
  {
    hide LossCurve, TotalCurve, LogLikelihood, Probability;
  }

  /** Any weights times the margin's slopes are what the scatter accumulates with these weights. */
  lemma ScatteredSlopes(f: Curves, ps: seq<real>, ov: Overrides, row: Row, p: nat, e: seq<real>)
    requires IsEntry(ps, ov, row, p) && |e| == |row.cls|
    ensures Dot(e, MarginSlopes(f, ps, ov, row, p), |row.cls|) ==
            Sum(Contributions(e, Heats(ps, ov, row), Decays(f, ps, ov, row), ov, row, p))
  {
    hide Contributions, Heats, Decays, HeatDirection, DecayDirection, ThetaDirection, Product, Dot, Total;
    var h, d := Heats(ps, ov, row), Decays(f, ps, ov, row);
    var x := ScoreTangents(h, d, HeatDirection(ov, row, p), DecayDirection(d, ov, row, p));
    SlopesAddUp(e, x, MarginSlopes(f, ps, ov, row, p), ThetaDirection(ov, p), |row.cls|);
    AccumulatesTangent(e, h, d, ov, row, p);
  }

  /**
    And the weights the row uses are those slopes up to the guard: at every position the code's weight
    times the likelihood is the exact one times the likelihood raised by the guard.
   */
  lemma WeightsAreSlopes(f: Curves, ps: seq<real>, ov: Overrides, row: Row, i: nat)
    requires Fits(ps, ov, row) && i < |row.cls| && TrueCurves(f)
    ensures var p, g := Probability(f, ps, ov, row, i), LossWeights(f, ps, ov, row)[i];
            && Product(g, if row.y[i] then p else 1.0 - p) == Product(ExactResiduals(f, ps, ov, row)[i], Likelihood(row.y[i], p))
            && (row.w[i] > 0.0 ==> (g > 0.0 <==> p > if row.y[i] then 1.0 else 0.0))
            && (g == 0.0 <==> row.w[i] == 0.0)
  {
    hide HasSlope, Product, ExactResidual, Likelihood, Residual, Score, Heats, Decays;
    ResidualIsSlope(row.w[i], row.y[i], Probability(f, ps, ov, row, i));
  }
}
