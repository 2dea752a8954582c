/**
  The trainer's row gradient: the flat parameter layout, the field of one row as a function of the
  parameters, and the accumulation of every parameter's gradient into one flat vector.
 */
module Fit {
  import opened Wrappers
  import opened Sums
  import opened HeatField
  import opened ReverseMode
  import opened HeatDifference
  import opened RecognizerTypes

  // Layout: [heat K][decay K][dheat O][ddecay O][left KK][right KK][theta]
  function OverrideHeatStart(): nat { 2 * K }
  function OverrideDecayStart(ov: Overrides): nat { OverrideHeatStart() + ov.count }
  function LeftStart(ov: Overrides): nat { OverrideDecayStart(ov) + ov.count }
  function RightStart(ov: Overrides): nat { LeftStart(ov) + KK }
  function ThetaAt(ov: Overrides): nat { RightStart(ov) + KK }

  function LeftKey(row: Row, i: nat): (key: nat)
    requires row.Valid() && i < |row.cls|
    ensures key < KK
  {
    row.left[i] * K + row.cls[i]
  }

  function RightKey(row: Row, i: nat): (key: nat)
    requires row.Valid() && i < |row.cls|
    ensures key < KK
  {
    row.cls[i] * K + row.right[i]
  }

  /** A key of the left table names the class before and the own one, a key of the right table the own one and the next. */
  lemma KeysNameClasses(row: Row, i: nat)
    requires row.Valid() && i < |row.cls|
    ensures LeftKey(row, i) / K == row.left[i] && LeftKey(row, i) % K == row.cls[i]
    ensures RightKey(row, i) / K == row.cls[i] && RightKey(row, i) % K == row.right[i]
  {
  }

  ghost predicate Fits(ps: seq<real>, ov: Overrides, row: Row) {
    row.Valid() && ov.Valid() && |ps| == ThetaAt(ov) + 1
  }

  // ---- the row's heats and decays ----

  function HeatAt(ps: seq<real>, ov: Overrides, row: Row, i: nat): real
    requires Fits(ps, ov, row) && i < |row.cls|
  {
    if row.cls[i] == TAIL then 0.0
    else ps[row.cls[i]] + ps[LeftStart(ov) + LeftKey(row, i)] + ps[RightStart(ov) + RightKey(row, i)]
         + match Slot(ov, row, i) { case Some(o) => ps[OverrideHeatStart() + o] case None => 0.0 }
  }

  /** The decay logit; a tail has none. */
  function LogitAt(ps: seq<real>, ov: Overrides, row: Row, i: nat): real
    requires Fits(ps, ov, row) && i < |row.cls|
  {
    if row.cls[i] == TAIL then 0.0
    else ps[K + row.cls[i]] + match Slot(ov, row, i) { case Some(o) => ps[OverrideDecayStart(ov) + o] case None => 0.0 }
  }

  function DecayAt(f: Curves, ps: seq<real>, ov: Overrides, row: Row, i: nat): real
    requires Fits(ps, ov, row) && i < |row.cls|
  {
    if row.cls[i] == TAIL then 1.0 else f.Sigma(LogitAt(ps, ov, row, i))
  }

  function Heats(ps: seq<real>, ov: Overrides, row: Row): (h: seq<real>)
    requires Fits(ps, ov, row)
    ensures |h| == |row.cls| && forall i :: 0 <= i < |h| ==> h[i] == HeatAt(ps, ov, row, i)
  {
    seq(|row.cls|, i requires 0 <= i < |row.cls| => HeatAt(ps, ov, row, i))
  }

  function Decays(f: Curves, ps: seq<real>, ov: Overrides, row: Row): (d: seq<real>)
    requires Fits(ps, ov, row)
    ensures |d| == |row.cls| && forall i :: 0 <= i < |d| ==> d[i] == DecayAt(f, ps, ov, row, i)
  {
    seq(|row.cls|, i requires 0 <= i < |row.cls| => DecayAt(f, ps, ov, row, i))
  }

  /** The predicted probability at i. */
  function Probability(f: Curves, ps: seq<real>, ov: Overrides, row: Row, i: nat): real
    requires Fits(ps, ov, row) && i < |row.cls|
  {
    f.Sigma(Score(Heats(ps, ov, row), Decays(f, ps, ov, row), i) - ps[ThetaAt(ov)])
  }

  /** The derivative of one position's loss in its score. */
  function Residual(w: real, y: bool, p: real): real {
    if w == 0.0 then 0.0 else w * (p - if y then 1.0 else 0.0)
  }

  /** One position's weighted log likelihood. */
  function LogLikelihood(f: Curves, w: real, y: bool, p: real): real {
    if w == 0.0 then 0.0 else w * if y then f.Ln(p + 0.000000000001) else f.Ln(1.0 - p + 0.000000000001)
  }

  /** g of the source: the loss's weight on the score at i. */
  function LossWeight(f: Curves, ps: seq<real>, ov: Overrides, row: Row, i: nat): real
    requires Fits(ps, ov, row) && i < |row.cls|
  {
    Residual(row.w[i], row.y[i], Probability(f, ps, ov, row, i))
  }

  function LossWeights(f: Curves, ps: seq<real>, ov: Overrides, row: Row): (g: seq<real>)
    requires Fits(ps, ov, row)
    ensures |g| == |row.cls| && forall i :: 0 <= i < |g| ==> g[i] == LossWeight(f, ps, ov, row, i)
  {
    seq(|row.cls|, i requires 0 <= i < |row.cls| => LossWeight(f, ps, ov, row, i))
  }

  function LogTerms(f: Curves, ps: seq<real>, ov: Overrides, row: Row): (t: seq<real>)
    requires Fits(ps, ov, row)
    ensures |t| == |row.cls|
    ensures forall i :: 0 <= i < |t| ==>
      t[i] == LogLikelihood(f, row.w[i], row.y[i], Probability(f, ps, ov, row, i))
  {
    seq(|row.cls|, i requires 0 <= i < |row.cls| =>
      LogLikelihood(f, row.w[i], row.y[i], Probability(f, ps, ov, row, i)))
  }

  /** The row's weighted logistic loss. */
  function Loss(f: Curves, ps: seq<real>, ov: Overrides, row: Row): real
    requires Fits(ps, ov, row)
  {
    -Sum(LogTerms(f, ps, ov, row))
  }

  // ---- which parameters a position reads ----

  predicate ReadsHeat(ov: Overrides, row: Row, i: nat, p: nat)
    requires row.Valid() && ov.Valid() && i < |row.cls|
  {
    row.cls[i] != TAIL &&
    (p == row.cls[i] || p == LeftStart(ov) + LeftKey(row, i) || p == RightStart(ov) + RightKey(row, i) ||
     (Slot(ov, row, i).Some? && p == OverrideHeatStart() + Slot(ov, row, i).value))
  }

  predicate ReadsDecay(ov: Overrides, row: Row, i: nat, p: nat)
    requires row.Valid() && ov.Valid() && i < |row.cls|
  {
    row.cls[i] != TAIL &&
    (p == K + row.cls[i] || (Slot(ov, row, i).Some? && p == OverrideDecayStart(ov) + Slot(ov, row, i).value))
  }

  /**
    The layout is disjoint: moving one entry moves the heat, the logit and nothing else, by exactly
    the amount, at exactly the positions that read it - once each, never twice.
   */
  lemma OneEntryMovesItsReaders(ps: seq<real>, ov: Overrides, row: Row, i: nat, p: nat, eps: real)
    requires Fits(ps, ov, row) && i < |row.cls| && p < |ps|
    ensures var qs := ps[p := ps[p] + eps];
      && HeatAt(qs, ov, row, i) == HeatAt(ps, ov, row, i) + (if ReadsHeat(ov, row, i, p) then eps else 0.0)
      && LogitAt(qs, ov, row, i) == LogitAt(ps, ov, row, i) + (if ReadsDecay(ov, row, i, p) then eps else 0.0)
      && !(ReadsHeat(ov, row, i, p) && ReadsDecay(ov, row, i, p))
      && (p == ThetaAt(ov) ==> !ReadsHeat(ov, row, i, p) && !ReadsDecay(ov, row, i, p))
  {
    var qs := ps[p := ps[p] + eps];
    var k, l, r := row.cls[i], LeftStart(ov) + LeftKey(row, i), RightStart(ov) + RightKey(row, i);
    assert k < OverrideHeatStart() && OverrideDecayStart(ov) <= LeftStart(ov) <= l < RightStart(ov) <= r < ThetaAt(ov);
    assert Slot(ov, row, i).Some? ==> k < OverrideHeatStart() <= OverrideHeatStart() + Slot(ov, row, i).value < OverrideDecayStart(ov);
  }

  // ---- the amount a row adds to each entry ----

  /** du of the source: dd carried through the logistic function. */
  function LogitGradient(g: seq<real>, h: seq<real>, d: seq<real>, i: nat): real
    requires |g| == |h| == |d| && i < |g|
  {
    LogitSlope(DecayGradient(g, h, d, i), d[i])
  }

  /** A gradient in the decay carried to its logit: sigma' = sigma*(1 - sigma). */
  function LogitSlope(dd: real, d: real): real {
    dd * d * (1.0 - d)
  }

  /** What position i adds to entry p. */
  function Contribution(g: seq<real>, h: seq<real>, d: seq<real>, ov: Overrides, row: Row, i: nat, p: nat): real
    requires row.Valid() && ov.Valid() && |g| == |h| == |d| == |row.cls| && i < |g|
  {
    if p == ThetaAt(ov) then -g[i]
    else (if ReadsHeat(ov, row, i, p) then HeatGradient(g, d, i) else 0.0)
         + (if ReadsDecay(ov, row, i, p) then LogitGradient(g, h, d, i) else 0.0)
  }

  function Contributions(g: seq<real>, h: seq<real>, d: seq<real>, ov: Overrides, row: Row, p: nat): (c: seq<real>)
    requires row.Valid() && ov.Valid() && |g| == |h| == |d| == |row.cls|
    ensures |c| == |g| && forall i :: 0 <= i < |c| ==> c[i] == Contribution(g, h, d, ov, row, i, p)
  {
    seq(|g|, i requires 0 <= i < |g| => Contribution(g, h, d, ov, row, i, p))
  }

  /** The whole amount a row adds to entry p of the gradient vector. */
  function RowGradient(f: Curves, ps: seq<real>, ov: Overrides, row: Row, p: nat): real
    requires Fits(ps, ov, row)
  {
    Sum(Contributions(LossWeights(f, ps, ov, row), Heats(ps, ov, row), Decays(f, ps, ov, row), ov, row, p))
  }

  // ---- the source's loops ----

  method ForwardBackward(h: array<real>, d: array<real>) returns (F: array<real>, B: array<real>)
    requires h.Length == d.Length
    ensures fresh(F) && fresh(B) && F.Length == h.Length == B.Length
    ensures forall i :: 0 <= i < h.Length ==> F[i] == Forward(h[..], d[..], i+1)
    ensures forall i :: 0 <= i < h.Length ==> B[i] == Backward(h[..], d[..], i)
  {
    var n := h.Length;
    F := new real[n];
    B := new real[n];
    ghost var hs, ds := h[..], d[..];
    hide Affine;
    var acc := 0.0;
    for i := 0 to n
      invariant acc == Forward(hs, ds, i)
      invariant forall j :: 0 <= j < i ==> F[j] == Forward(hs, ds, j+1)
    {
      acc := Affine(h[i], d[i], acc);
      F[i] := acc;
    }
    var b := 0.0;
    for i := n downto 0
      invariant b == Backward(hs, ds, i)
      invariant forall j :: i <= j < n ==> B[j] == Backward(hs, ds, j)
      invariant forall j :: 0 <= j < n ==> F[j] == Forward(hs, ds, j+1)
    {
      b := Affine(h[i], d[i], b);
      B[i] := b;
    }
  }

  method AdjointPasses(g: array<real>, d: array<real>) returns (a: array<real>, bb: array<real>)
    requires g.Length == d.Length
    ensures fresh(a) && fresh(bb) && a.Length == g.Length == bb.Length
    ensures forall i :: 0 <= i < g.Length ==> a[i] == AdjointForward(g[..], d[..], i)
    ensures forall i :: 0 <= i < g.Length ==> bb[i] == AdjointBackward(g[..], d[..], i)
  {
    var n := g.Length;
    a := new real[n];
    bb := new real[n];
    ghost var gs, ds := g[..], d[..];
    hide Affine;
    var acc := 0.0;
    for i := n downto 0
      invariant i < n ==> acc == AdjointForward(gs, ds, i)
      invariant forall j :: i <= j < n ==> a[j] == AdjointForward(gs, ds, j)
    {
      acc := if i + 1 < n then Affine(g[i], d[i+1], acc) else g[i];
      a[i] := acc;
    }
    acc := 0.0;
    for i := 0 to n
      invariant i > 0 ==> acc == AdjointBackward(gs, ds, i-1)
      invariant forall j :: 0 <= j < i ==> bb[j] == AdjointBackward(gs, ds, j)
      invariant forall j :: 0 <= j < n ==> a[j] == AdjointForward(gs, ds, j)
    {
      acc := if i > 0 then Affine(g[i], d[i-1], acc) else g[i];
      bb[i] := acc;
    }
  }

  method InputAt(f: Curves, P: array<real>, ov: Overrides, row: Row, i: nat) returns (heat: real, decay: real)
    requires Fits(P[..], ov, row) && i < |row.cls|
    ensures heat == HeatAt(P[..], ov, row, i) && decay == DecayAt(f, P[..], ov, row, i)
  {
    var k := row.cls[i];
    if k == TAIL {
      return 0.0, 1.0;
    }
    heat := P[k] + P[LeftStart(ov) + LeftKey(row, i)] + P[RightStart(ov) + RightKey(row, i)];
    var logit := P[K + k];
    var slot := Slot(ov, row, i);
    if slot.Some? {
      heat := heat + P[OverrideHeatStart() + slot.value];
      logit := logit + P[OverrideDecayStart(ov) + slot.value];
    }
    decay := f.Sigma(logit);
  }

  method RowInputs(f: Curves, P: array<real>, ov: Overrides, row: Row) returns (h: array<real>, d: array<real>)
    requires Fits(P[..], ov, row)
    ensures fresh(h) && fresh(d)
    ensures h[..] == Heats(P[..], ov, row) && d[..] == Decays(f, P[..], ov, row)
  {
    var n := |row.cls|;
    h := new real[n];
    d := new real[n];
    ghost var ps, hs, ds := P[..], Heats(P[..], ov, row), Decays(f, P[..], ov, row);
    hide HeatAt, DecayAt;
    for i := 0 to n
      invariant P[..] == ps
      invariant forall j :: 0 <= j < i ==> h[j] == hs[j] && d[j] == ds[j]
    {
      h[i], d[i] := InputAt(f, P, ov, row, i);
    }
  }

  method LossAt(f: Curves, ghost ps: seq<real>, ov: Overrides, row: Row, i: nat,
                fwd: real, b: real, hi: real, theta: real) returns (gi: real, term: real)
    requires Fits(ps, ov, row) && i < |row.cls|
    requires fwd == Forward(Heats(ps, ov, row), Decays(f, ps, ov, row), i+1)
    requires b == Backward(Heats(ps, ov, row), Decays(f, ps, ov, row), i)
    requires hi == Heats(ps, ov, row)[i] && theta == ps[ThetaAt(ov)]
    ensures gi == LossWeights(f, ps, ov, row)[i] && term == LogTerms(f, ps, ov, row)[i]
  {
    var wi := row.w[i];
    if wi == 0.0 {
      return 0.0, 0.0;
    }
    var p := f.Sigma(fwd + b - hi - theta);
    hide Forward, Backward, HeatAt, DecayAt, Residual, LogLikelihood;
    assert p == Probability(f, ps, ov, row, i);
    gi, term := Residual(wi, row.y[i], p), LogLikelihood(f, wi, row.y[i], p);
  }

  method LossPass(f: Curves, ghost ps: seq<real>, ov: Overrides, row: Row,
                  h: seq<real>, F: seq<real>, B: seq<real>, theta: real) returns (g: array<real>, loss: real)
    requires Fits(ps, ov, row) && theta == ps[ThetaAt(ov)]
    requires h == Heats(ps, ov, row) && |F| == |B| == |h|
    requires forall i :: 0 <= i < |h| ==> F[i] == Forward(h, Decays(f, ps, ov, row), i+1)
    requires forall i :: 0 <= i < |h| ==> B[i] == Backward(h, Decays(f, ps, ov, row), i)
    ensures fresh(g) && g.Length == |row.cls|
    ensures forall i :: 0 <= i < g.Length ==> g[i] == LossWeights(f, ps, ov, row)[i]
    ensures loss == Loss(f, ps, ov, row)
  {
    hide Forward, Backward, Heats, HeatAt, Decays, DecayAt, LossWeights, LossWeight, LogTerms, LogLikelihood;
    var n := |row.cls|;
    ghost var gs, ts := LossWeights(f, ps, ov, row), LogTerms(f, ps, ov, row);
    g := new real[n];
    loss := 0.0;
    for i := 0 to n
      invariant forall j :: 0 <= j < i ==> g[j] == gs[j]
      invariant loss == -Total(ts, i)
    {
      var gi, term := LossAt(f, ps, ov, row, i, F[i], B[i], h[i], theta);
      loss := loss - term;
      g[i] := gi;
    }
  }

  /** One position's additions to the shared gradient vector; each index is touched at most once. */
  method ScatterPosition(G: array<real>, ov: Overrides, row: Row, i: nat, gi: real, dh: real, du: real)
    requires row.Valid() && ov.Valid() && i < |row.cls| && G.Length == ThetaAt(ov) + 1
    modifies G
    ensures forall p :: 0 <= p < G.Length ==>
      G[p] == old(G[p]) + if p == ThetaAt(ov) then -gi
                          else (if ReadsHeat(ov, row, i, p) then dh else 0.0) + (if ReadsDecay(ov, row, i, p) then du else 0.0)
  {
    G[ThetaAt(ov)] := G[ThetaAt(ov)] - gi;
    var k := row.cls[i];
    if k == TAIL {
      return;
    }
    var lk, rk := LeftStart(ov) + LeftKey(row, i), RightStart(ov) + RightKey(row, i);
    G[k] := G[k] + dh;
    G[K + k] := G[K + k] + du;
    var slot := Slot(ov, row, i);
    if slot.Some? {
      G[OverrideHeatStart() + slot.value] := G[OverrideHeatStart() + slot.value] + dh;
      G[OverrideDecayStart(ov) + slot.value] := G[OverrideDecayStart(ov) + slot.value] + du;
    }
    G[lk] := G[lk] + dh;
    G[rk] := G[rk] + dh;
  }

  method Scatter(G: array<real>, ov: Overrides, row: Row, g: array<real>, d: array<real>, F: array<real>, B: array<real>,
                 a: array<real>, bb: array<real>, ghost hs: seq<real>)
    requires row.Valid() && ov.Valid() && G.Length == ThetaAt(ov) + 1
    requires G !in {g, d, F, B, a, bb}
    requires g.Length == d.Length == F.Length == B.Length == a.Length == bb.Length == |hs| == |row.cls|
    requires forall i :: 0 <= i < g.Length ==> F[i] == Forward(hs, d[..], i+1) && B[i] == Backward(hs, d[..], i)
    requires forall i :: 0 <= i < g.Length ==>
      a[i] == AdjointForward(g[..], d[..], i) && bb[i] == AdjointBackward(g[..], d[..], i)
    modifies G
    ensures forall p :: 0 <= p < G.Length ==>
      G[p] == old(G[p]) + Sum(Contributions(g[..], hs, d[..], ov, row, p))
  {
    var n := g.Length;
    ghost var gs, ds, before := g[..], d[..], G[..];
    hide HeatGradient, LogitGradient, Contribution;
    for i := 0 to n
      invariant forall p :: 0 <= p < G.Length ==> G[p] == before[p] + Total(Contributions(gs, hs, ds, ov, row, p), i)
    {
      var dh, du := PositionGradient(g, d, F, B, a, bb, i, hs);
      ContributionParts(gs, hs, ds, ov, row, i);
      ScatterPosition(G, ov, row, i, g[i], dh, du);
    }
  }

  method PositionGradient(g: array<real>, d: array<real>, F: array<real>, B: array<real>,
                          a: array<real>, bb: array<real>, i: nat, ghost hs: seq<real>) returns (dh: real, du: real)
    requires g.Length == d.Length == F.Length == B.Length == a.Length == bb.Length == |hs| && i < g.Length
    requires forall j :: 0 <= j < g.Length ==> F[j] == Forward(hs, d[..], j+1) && B[j] == Backward(hs, d[..], j)
    requires a[i] == AdjointForward(g[..], d[..], i) && bb[i] == AdjointBackward(g[..], d[..], i)
    ensures dh == HeatGradient(g[..], d[..], i) && du == LogitGradient(g[..], hs, d[..], i)
  {
    var n := g.Length;
    dh := a[i] + bb[i] - g[i];
    hide Product, LogitSlope;
    var dd := (if i > 0 then Product(a[i], F[i-1]) else 0.0) + (if i + 1 < n then Product(bb[i], B[i+1]) else 0.0);
    assert dd == DecayGradient(g[..], hs, d[..], i);
    du := LogitSlope(dd, d[i]);
  }

  lemma ContributionParts(g: seq<real>, h: seq<real>, d: seq<real>, ov: Overrides, row: Row, i: nat)
    requires row.Valid() && ov.Valid() && |g| == |h| == |d| == |row.cls| && i < |g|
    ensures forall p: nat :: (Contribution(g, h, d, ov, row, i, p) ==
      (if p == ThetaAt(ov) then -g[i]
       else (if ReadsHeat(ov, row, i, p) then HeatGradient(g, d, i) else 0.0)
            + (if ReadsDecay(ov, row, i, p) then LogitGradient(g, h, d, i) else 0.0)))
  {
    hide HeatGradient, LogitGradient;
  }

  /** The source's rowGrad: adds the row's gradient to G, entry by entry, and returns its loss. */
  method RowGrad(f: Curves, P: array<real>, ov: Overrides, row: Row, G: array<real>)
    returns (loss: real)
    requires Fits(P[..], ov, row) && G.Length == P.Length && G != P
    modifies G
    ensures forall p :: 0 <= p < G.Length ==> G[p] == old(G[p]) + RowGradient(f, P[..], ov, row, p)
    ensures loss == Loss(f, P[..], ov, row)
  {
    var h, d := RowInputs(f, P, ov, row);
    var F, B := ForwardBackward(h, d);
    assert h.Length == |h[..]| && d.Length == |d[..]|;
    var g;
    g, loss := LossPass(f, P[..], ov, row, h[..], F[..], B[..], P[ThetaAt(ov)]);
    assert g[..] == LossWeights(f, P[..], ov, row);
    var a, bb := AdjointPasses(g, d);
    Scatter(G, ov, row, g, d, F, B, a, bb, h[..]);
  }

  // ---- what the accumulated gradient means ----

  /** The direction in which entry p moves the heats of a row. */
  ghost function HeatDirection(ov: Overrides, row: Row, p: nat): (u: seq<real>)
    requires row.Valid() && ov.Valid()
    ensures |u| == |row.cls|
    ensures forall i :: 0 <= i < |u| ==> u[i] == if ReadsHeat(ov, row, i, p) then 1.0 else 0.0
  {
    seq(|row.cls|, i requires 0 <= i < |row.cls| => if ReadsHeat(ov, row, i, p) then 1.0 else 0.0)
  }

  /** The direction in which entry p moves the decays: sigma' = sigma*(1 - sigma) at its readers. */
  ghost function DecayDirection(d: seq<real>, ov: Overrides, row: Row, p: nat): (u: seq<real>)
    requires row.Valid() && ov.Valid() && |d| == |row.cls|
    ensures |u| == |row.cls|
    ensures forall i :: 0 <= i < |u| ==> u[i] == if ReadsDecay(ov, row, i, p) then LogitSlope(1.0, d[i]) else 0.0
  {
    seq(|row.cls|, i requires 0 <= i < |row.cls| => if ReadsDecay(ov, row, i, p) then LogitSlope(1.0, d[i]) else 0.0)
  }

  /**
    The row's total weighted margin: the sum of g(i)*(F(i) + B(i) - h(i) - theta).
    The trainer's loss has gradient g in the margins, so this is what its parameter gradient differentiates.
   */
  ghost function Margin(g: seq<real>, h: seq<real>, d: seq<real>, theta: real): real
    requires |g| == |h| == |d|
  {
    Objective(g, h, d) - Product(theta, Sum(g))
  }

  /** The tangent of the margin in direction (th, td, tt). */
  ghost function MarginTangent(g: seq<real>, h: seq<real>, d: seq<real>, th: seq<real>, td: seq<real>, tt: real): real
    requires |g| == |h| == |d| == |th| == |td|
  {
    ObjectiveTangent(g, h, d, th, td) - Product(tt, Sum(g))
  }

  /** What a row accumulates in theta. */
  lemma ThetaTotal(g: seq<real>, h: seq<real>, d: seq<real>, ov: Overrides, row: Row)
    requires row.Valid() && ov.Valid() && |g| == |h| == |d| == |row.cls|
    ensures Sum(Contributions(g, h, d, ov, row, ThetaAt(ov))) == -Sum(g)
  {
    hide Sum;
    SumOfNegation(Contributions(g, h, d, ov, row, ThetaAt(ov)), g);
  }

  /** What a row accumulates in any other entry, as sums over the row. */
  lemma EntryTotal(g: seq<real>, h: seq<real>, d: seq<real>, ov: Overrides, row: Row, p: nat)
    requires row.Valid() && ov.Valid() && |g| == |h| == |d| == |row.cls| && p != ThetaAt(ov)
    ensures Sum(Contributions(g, h, d, ov, row, p)) ==
            Inner(HeatDirection(ov, row, p), HeatGradients(g, d))
            + Inner(DecayDirection(d, ov, row, p), DecayGradients(g, h, d))
  {
    var c := Contributions(g, h, d, ov, row, p);
    var u, x := HeatDirection(ov, row, p), HeatGradients(g, d);
    var v, y := DecayDirection(d, ov, row, p), DecayGradients(g, h, d);
    hide Product, LogitSlope, HeatGradient, DecayGradient, ReadsHeat, ReadsDecay, Sum, Inner;
    forall i | 0 <= i < |g| ensures c[i] == Product(u[i], x[i]) + Product(v[i], y[i]) {
      UnitProducts(HeatGradient(g, d, i), DecayGradient(g, h, d, i), d[i]);
    }
    SumOfInners(c, u, x, v, y);
  }

  lemma UnitProducts(dh: real, dd: real, d: real)
    ensures Product(1.0, dh) == dh && Product(0.0, dh) == 0.0 && Product(0.0, dd) == 0.0
    ensures Product(LogitSlope(1.0, d), dd) == LogitSlope(dd, d)
  {
    var s := 1.0 - d;
    assert (d * s) * dd == dd * d * s;
  }

  /** How entry p moves the threshold. */
  function ThetaDirection(ov: Overrides, p: nat): real {
    if p == ThetaAt(ov) then 1.0 else 0.0
  }

  /** Whatever the weights, what a row accumulates in an entry is the tangent of the margin along it. */
  lemma AccumulatesTangent(g: seq<real>, h: seq<real>, d: seq<real>, ov: Overrides, row: Row, p: nat)
    requires row.Valid() && ov.Valid() && |g| == |h| == |d| == |row.cls|
    ensures Sum(Contributions(g, h, d, ov, row, p)) ==
            MarginTangent(g, h, d, HeatDirection(ov, row, p), DecayDirection(d, ov, row, p), ThetaDirection(ov, p))
  {
    var th, td := HeatDirection(ov, row, p), DecayDirection(d, ov, row, p);
    hide ObjectiveTangent, Contribution, Sum, Inner, Product;
    ReverseEqualsForward(g, h, d, th, td);
    UnitProducts(Sum(g), Sum(g), 0.0);
    if p == ThetaAt(ov) {
      ThetaTotal(g, h, d, ov, row);
      ThetaMovesNothing(g, h, d, ov, row);
    } else {
      EntryTotal(g, h, d, ov, row, p);
    }
  }

  /**
    Every entry the row writes is the derivative of the row's margin in that parameter.
    For each of the five blocks and for theta, however many positions share the entry, the amount
    added to G(p) is the forward-mode tangent of the margin in the direction p moves the row.
   */
  lemma EveryEntryIsTheDerivative(f: Curves, ps: seq<real>, ov: Overrides, row: Row, p: nat)
    requires Fits(ps, ov, row) && p < |ps|
    ensures var g, h, d := LossWeights(f, ps, ov, row), Heats(ps, ov, row), Decays(f, ps, ov, row);
      RowGradient(f, ps, ov, row, p) ==
      MarginTangent(g, h, d, HeatDirection(ov, row, p), DecayDirection(d, ov, row, p), ThetaDirection(ov, p))
  {
    AccumulatesTangent(LossWeights(f, ps, ov, row), Heats(ps, ov, row), Decays(f, ps, ov, row), ov, row, p);
  }

  lemma ThetaMovesNothing(g: seq<real>, h: seq<real>, d: seq<real>, ov: Overrides, row: Row)
    requires row.Valid() && ov.Valid() && |g| == |h| == |d| == |row.cls|
    ensures ReverseTotal(g, h, d, HeatDirection(ov, row, ThetaAt(ov)), DecayDirection(d, ov, row, ThetaAt(ov))) == 0.0
  {
    var th, td := HeatDirection(ov, row, ThetaAt(ov)), DecayDirection(d, ov, row, ThetaAt(ov));
    hide LogitSlope, Inner;
    forall i | 0 <= i < |g| ensures th[i] == 0.0 && td[i] == 0.0 {
      ThetaIsNoEntry(ov, row, i);
    }
    InnerZero(th, HeatGradients(g, d));
    InnerZero(td, DecayGradients(g, h, d));
  }

  lemma ThetaIsNoEntry(ov: Overrides, row: Row, i: nat)
    requires row.Valid() && ov.Valid() && i < |row.cls|
    ensures !ReadsHeat(ov, row, i, ThetaAt(ov)) && !ReadsDecay(ov, row, i, ThetaAt(ov))
  {
  }

  /** The entries that enter the margin linearly: heats, override heats, both pair tables, and theta. */
  ghost predicate Linear(ov: Overrides, p: nat) {
    p < K || OverrideHeatStart() <= p < OverrideDecayStart(ov) || LeftStart(ov) <= p
  }

  ghost function RowMargin(g: seq<real>, f: Curves, ps: seq<real>, ov: Overrides, row: Row): real
    requires Fits(ps, ov, row) && |g| == |row.cls|
  {
    Margin(g, Heats(ps, ov, row), Decays(f, ps, ov, row), ps[ThetaAt(ov)])
  }

  /**
    For a linear entry the gradient is exact, not just first order: raising it by any eps,
    with g fixed, moves the margin by exactly eps times the amount the row adds to G(p).
   */
  lemma LinearEntryIsExact(f: Curves, ps: seq<real>, ov: Overrides, row: Row, p: nat, eps: real)
    requires Fits(ps, ov, row) && p < |ps| && Linear(ov, p)
    ensures var g, qs := LossWeights(f, ps, ov, row), ps[p := ps[p] + eps];
      RowMargin(g, f, qs, ov, row) - RowMargin(g, f, ps, ov, row) == eps * RowGradient(f, ps, ov, row, p)
  {
    hide HeatAt, DecayAt, LossWeight, Objective, Contributions, Sum, ReadsDecay, ReadsHeat, LogitSlope, Product,
         RowMargin, RowGradient, Heats, Decays, LossWeights, HeatDirection;
    var qs := ps[p := ps[p] + eps];
    var g, h, d := LossWeights(f, ps, ov, row), Heats(ps, ov, row), Decays(f, ps, ov, row);
    var theta, total, gradient := ps[ThetaAt(ov)], Sum(g), RowGradient(f, ps, ov, row, p);
    LinearEntryMoves(f, ps, ov, row, p, eps);
    UnfoldRow(g, f, ps, ov, row, p);
    UnfoldRow(g, f, qs, ov, row, p);
    if p == ThetaAt(ov) {
      ThetaTotal(g, h, d, ov, row);
      ThetaStep(theta, eps, total, gradient);
    } else {
      HeatEntryMoves(g, h, Heats(qs, ov, row), d, ov, row, p, eps, gradient);
    }
  }

  lemma UnfoldRow(g: seq<real>, f: Curves, ps: seq<real>, ov: Overrides, row: Row, p: nat)
    requires Fits(ps, ov, row) && |g| == |row.cls| && p < |ps|
    ensures var h, d := Heats(ps, ov, row), Decays(f, ps, ov, row);
      && RowMargin(g, f, ps, ov, row) == Objective(g, h, d) - Product(ps[ThetaAt(ov)], Sum(g))
      && RowGradient(f, ps, ov, row, p) == Sum(Contributions(LossWeights(f, ps, ov, row), h, d, ov, row, p))
  {
    hide Objective, Contributions, Sum, Product, Heats, Decays, LossWeights;
  }

  lemma HeatEntryMoves(g: seq<real>, h: seq<real>, h': seq<real>, d: seq<real>, ov: Overrides, row: Row, p: nat, eps: real, total: real)
    requires row.Valid() && ov.Valid() && |g| == |h| == |h'| == |d| == |row.cls| && p != ThetaAt(ov)
    requires forall i :: 0 <= i < |row.cls| ==> h'[i] - h[i] == Product(eps, HeatDirection(ov, row, p)[i])
    requires forall i :: 0 <= i < |row.cls| ==> !ReadsDecay(ov, row, i, p)
    requires total == Sum(Contributions(g, h, d, ov, row, p))
    ensures Objective(g, h', d) - Objective(g, h, d) == eps * total
  {
    var u, x := HeatDirection(ov, row, p), HeatGradients(g, d);
    hide Objective, Contributions, Sum, Inner, Product, ReadsDecay, ReadsHeat, LogitSlope;
    HeatDifferenceIsExact(g, h, h', d, u, eps);
    EntryTotal(g, h, d, ov, row, p);
    InnerZero(DecayDirection(d, ov, row, p), DecayGradients(g, h, d));
    assert total == Inner(u, x);
    hide *;
    SameProduct(eps, total, Inner(u, x));
  }

  lemma SameProduct(eps: real, a: real, b: real)
    requires a == b
    ensures eps * a == eps * b
  {
  }

  lemma ThetaStep(theta: real, eps: real, total: real, gradient: real)
    requires gradient == -total
    ensures Product(theta, total) - Product(theta + eps, total) == eps * gradient
  {
  }

  lemma LinearEntryMoves(f: Curves, ps: seq<real>, ov: Overrides, row: Row, p: nat, eps: real)
    requires Fits(ps, ov, row) && p < |ps| && Linear(ov, p)
    ensures var qs := ps[p := ps[p] + eps];
      && Decays(f, qs, ov, row) == Decays(f, ps, ov, row)
      && (forall i :: 0 <= i < |row.cls| ==>
            Heats(qs, ov, row)[i] - Heats(ps, ov, row)[i] == Product(eps, HeatDirection(ov, row, p)[i]))
      && (forall i :: 0 <= i < |row.cls| ==> !ReadsDecay(ov, row, i, p))
      && (p == ThetaAt(ov) ==> Heats(qs, ov, row) == Heats(ps, ov, row))
  {
    var qs := ps[p := ps[p] + eps];
    forall i | 0 <= i < |row.cls|
      ensures HeatAt(qs, ov, row, i) == HeatAt(ps, ov, row, i) + (if ReadsHeat(ov, row, i, p) then eps else 0.0)
      ensures LogitAt(qs, ov, row, i) == LogitAt(ps, ov, row, i)
      ensures !ReadsDecay(ov, row, i, p)
      ensures p == ThetaAt(ov) ==> !ReadsHeat(ov, row, i, p)
    {
      OneEntryMovesItsReaders(ps, ov, row, i, p, eps);
    }
    hide HeatAt, LogitAt, ReadsHeat, ReadsDecay;
    assert Decays(f, qs, ov, row) == Decays(f, ps, ov, row);
  }
}
