/**
  The training loop around the row gradient: shuffled mini-batches, the Adam step with its proximal
  L1 step, and what they promise over a whole run.
 */
module Training {
  import opened Sums
  import opened RecognizerTypes
  import opened Fit
  import opened Shuffle

  datatype Options = Options(epochs: nat, learningRate: real, l1: real, l2: real)

  const BATCH: nat := 256

  // ---- the proximal step ----

  function Abs(x: real): (r: real)
    ensures r >= 0.0 && (r == x || r == -x)
  {
    if x < 0.0 then -x else x
  }

  function Max(a: real, b: real): real { if a < b then b else a }
  function Min(a: real, b: real): real { if b < a then b else a }

  /** The sign of `x` times `a`. */
  function Signed(x: real, a: real): real { if x > 0.0 then a else if x < 0.0 then -a else 0.0 }

  function SoftThreshold(x: real, lambda: real): real {
    Signed(x, Max(0.0, Abs(x) - lambda))
  }

  /** What the proximal step minimises. */
  ghost function ProximalCost(x: real, lambda: real, y: real): real {
    0.5 * (y - x) * (y - x) + lambda * Abs(y)
  }

  /**
    Soft thresholding is the proximal map of lambda*|y|: it beats every other y by at least half the
    squared distance, so it is the one and only minimiser.
   */
  lemma SoftThresholdIsProximal(x: real, lambda: real, y: real)
    requires lambda >= 0.0
    ensures var z := SoftThreshold(x, lambda);
      ProximalCost(x, lambda, y) >= ProximalCost(x, lambda, z) + 0.5 * (y - z) * (y - z)
  {
  }

  // ---- one parameter's Adam step ----

  datatype Entry = Entry(x: real, m: real, v: real)

  function Pow(b: real, n: nat): real {
    if n == 0 then 1.0 else b * Pow(b, n-1)
  }

  lemma {:induction false} PowBelowOne(b: real, n: nat)
    requires 0.0 < b < 1.0
    ensures 0.0 < Pow(b, n) <= 1.0 && (n > 0 ==> Pow(b, n) < 1.0)
  {
    if n > 0 {
      PowBelowOne(b, n-1);
      var p := Pow(b, n-1);
      assert b * p > 0.0 && (1.0 - b) * p > 0.0;
    }
  }

  function Rate(opts: Options, step: nat): real {
    opts.learningRate * Min(1.0, step as real / 50.0)
  }

  /** Heats and decays of the classes carry a quadratic penalty. */
  predicate Squared(j: nat) { j < OverrideHeatStart() }

  /** Overrides and pair tables carry an absolute one, the threshold neither. */
  predicate Sparse(ov: Overrides, j: nat) { OverrideHeatStart() <= j < ThetaAt(ov) }

  predicate Frozen(j: nat) { j == TAIL || j == K + TAIL }

  /** The gradient of the batch's mean loss with its quadratic penalty. */
  function PenalizedGradient(opts: Options, j: nat, x: real, g: real, batchWeight: real): real {
    g / Max(1.0, batchWeight) + if Squared(j) then opts.l2 * x else 0.0
  }

  /** The running means of the gradient and of its square. */
  function MeanOf(m: real, g: real): real { 0.9 * m + 0.1 * g }
  function SquareMeanOf(v: real, g: real): real { 0.999 * v + 0.001 * g * g }

  /** A running mean corrected for having started at 0. */
  function Unbiased(mean: real, b: real, step: nat): real
    requires 0.0 < b < 1.0 && step >= 1
  {
    PowBelowOne(b, step);
    mean / (1.0 - Pow(b, step))
  }

  function Moved(x: real, rate: real, mean: real, root: real): real
    requires root >= 0.0
  {
    x - rate * mean / (root + 0.00000001)
  }

  /** How far the absolute penalty pulls an entry towards 0. */
  function Pull(opts: Options, step: nat): real { Rate(opts, step) * opts.l1 }

  /** Entry j of the parameters after one step; an entry with no gradient and no momentum is left alone. */
  function Stepped(f: Curves, opts: Options, ov: Overrides, j: nat, e: Entry, g: real, batchWeight: real, step: nat): Entry
    requires step >= 1 && f.Valid()
  {
    if Frozen(j) || (g == 0.0 && e.m == 0.0) then e
    else
      var grad := PenalizedGradient(opts, j, e.x, g, batchWeight);
      var m, v := MeanOf(e.m, grad), SquareMeanOf(e.v, grad);
      var x := Moved(e.x, Rate(opts, step), Unbiased(m, 0.9, step), f.Root(Unbiased(v, 0.999, step)));
      Entry(if Sparse(ov, j) then SoftThreshold(x, Pull(opts, step)) else x, m, v)
  }

  /** Nothing moves the two tail entries. */
  lemma FrozenStays(f: Curves, opts: Options, ov: Overrides, j: nat, e: Entry, g: real, batchWeight: real, step: nat)
    requires step >= 1 && f.Valid() && (j == 48 || j == 49 + 48)
    ensures Stepped(f, opts, ov, j, e, g, batchWeight, step) == e
  {
  }

  method StepParameters(f: Curves, opts: Options, ov: Overrides, P: array<real>, m: array<real>, v: array<real>,
                        G: array<real>, batchWeight: real, step: nat)
    requires step >= 1 && f.Valid()
    requires P.Length == m.Length == v.Length == G.Length
    requires P != m && P != v && m != v && G !in {P, m, v}
    modifies P, m, v
    ensures forall j :: 0 <= j < P.Length ==>
      Entry(P[j], m[j], v[j]) == Stepped(f, opts, ov, j, old(Entry(P[j], m[j], v[j])), G[j], batchWeight, step)
  {
    hide Stepped;
    for j := 0 to P.Length
      invariant forall k :: 0 <= k < j ==>
        Entry(P[k], m[k], v[k]) == Stepped(f, opts, ov, k, old(Entry(P[k], m[k], v[k])), G[k], batchWeight, step)
      invariant forall k :: j <= k < P.Length ==> Entry(P[k], m[k], v[k]) == old(Entry(P[k], m[k], v[k]))
    {
      var e := Stepped(f, opts, ov, j, Entry(P[j], m[j], v[j]), G[j], batchWeight, step);
      P[j], m[j], v[j] := e.x, e.m, e.v;
    }
  }

  // ---- batches ----

  /** What a run is given: the curves, the options, the code points with overrides, and the rows. */
  datatype Setting = Setting(f: Curves, opts: Options, ov: Overrides, rows: seq<Row>) {
    ghost predicate Valid() {
      f.Valid() && ov.Valid() && forall r :: 0 <= r < |rows| ==> rows[r].Valid()
    }
  }

  /** The parameters, both moments, and how many steps were taken. */
  datatype Learner = Learner(ps: seq<real>, ms: seq<real>, vs: seq<real>, step: nat)

  ghost predicate Sized(c: Setting, ps: seq<real>) {
    |ps| == ThetaAt(c.ov) + 1
  }

  ghost predicate Ready(c: Setting, l: Learner) {
    Sized(c, l.ps) && |l.ms| == |l.vs| == |l.ps|
  }

  ghost predicate Within(ids: seq<nat>, n: nat) {
    forall k :: 0 <= k < |ids| ==> ids[k] < n
  }

  /** The gradient of a batch is the sum of its rows' gradients, entry by entry. */
  ghost function BatchGradient(c: Setting, ps: seq<real>, ids: seq<nat>, p: nat): real
    requires c.Valid() && Sized(c, ps) && Within(ids, |c.rows|)
  {
    if ids == [] then 0.0
    else BatchGradient(c, ps, ids[..|ids|-1], p) + RowGradient(c.f, ps, c.ov, c.rows[ids[|ids|-1]], p)
  }

  ghost function BatchLoss(c: Setting, ps: seq<real>, ids: seq<nat>): real
    requires c.Valid() && Sized(c, ps) && Within(ids, |c.rows|)
  {
    if ids == [] then 0.0 else BatchLoss(c, ps, ids[..|ids|-1]) + Loss(c.f, ps, c.ov, c.rows[ids[|ids|-1]])
  }

  ghost function BatchWeight(c: Setting, ids: seq<nat>): real
    requires Within(ids, |c.rows|)
  {
    if ids == [] then 0.0 else BatchWeight(c, ids[..|ids|-1]) + c.rows[ids[|ids|-1]].weightSum
  }

  method BatchGrad(c: Setting, P: array<real>, ids: seq<nat>)
    returns (G: array<real>, loss: real, weight: real)
    requires c.Valid() && Sized(c, P[..]) && Within(ids, |c.rows|)
    ensures fresh(G) && G.Length == P.Length
    ensures forall p :: 0 <= p < G.Length ==> G[p] == BatchGradient(c, P[..], ids, p)
    ensures loss == BatchLoss(c, P[..], ids)
    ensures weight == BatchWeight(c, ids)
  {
    hide RowGradient, Loss;
    G := new real[P.Length](_ => 0.0);
    loss, weight := 0.0, 0.0;
    ghost var ps := P[..];
    for k := 0 to |ids|
      invariant P[..] == ps
      invariant forall p :: 0 <= p < G.Length ==> G[p] == BatchGradient(c, ps, ids[..k], p)
      invariant loss == BatchLoss(c, ps, ids[..k])
      invariant weight == BatchWeight(c, ids[..k])
    {
      var r := c.rows[ids[k]];
      var rowLoss := RowGrad(c.f, P, c.ov, r, G);
      loss := loss + rowLoss;
      weight := weight + r.weightSum;
      assert ids[..k+1][..k] == ids[..k];
    }
    assert ids[..|ids|] == ids;
  }

  // ---- one batch, one epoch, one run, as functions ----

  ghost function SteppedEntry(c: Setting, l: Learner, ids: seq<nat>, j: nat): Entry
    requires c.Valid() && Ready(c, l) && Within(ids, |c.rows|) && j < |l.ps|
  {
    Stepped(c.f, c.opts, c.ov, j, Entry(l.ps[j], l.ms[j], l.vs[j]), BatchGradient(c, l.ps, ids, j), BatchWeight(c, ids), l.step + 1)
  }

  /** One step with the gradient of the given rows, taken at the old parameters. */
  ghost function BatchStep(c: Setting, l: Learner, ids: seq<nat>): (t: Learner)
    requires c.Valid() && Ready(c, l) && Within(ids, |c.rows|)
    ensures Ready(c, t) && t.step == l.step + 1
    ensures forall j :: 0 <= j < |t.ps| ==> Entry(t.ps[j], t.ms[j], t.vs[j]) == SteppedEntry(c, l, ids, j)
  {
    Learner(seq(|l.ps|, j requires 0 <= j < |l.ps| => SteppedEntry(c, l, ids, j).x),
            seq(|l.ps|, j requires 0 <= j < |l.ps| => SteppedEntry(c, l, ids, j).m),
            seq(|l.ps|, j requires 0 <= j < |l.ps| => SteppedEntry(c, l, ids, j).v), l.step + 1)
  }

  /** The part of an order before its last batch; every batch but the last is full. */
  function LastStart(n: nat): nat
    requires n > 0
    ensures LastStart(n) < n && n - LastStart(n) <= BATCH && LastStart(n) % BATCH == 0
  {
    (n - 1) / BATCH * BATCH
  }

  /** The batches of an order one after the other, each at the parameters the one before left. */
  ghost function EpochFold(c: Setting, l: Learner, order: seq<nat>): (t: Learner)
    requires c.Valid() && Ready(c, l) && Within(order, |c.rows|)
    ensures Ready(c, t)
    decreases |order|
  {
    if order == [] then l
    else
      var k := LastStart(|order|);
      BatchStep(c, EpochFold(c, l, order[..k]), order[k..])
  }

  /** The losses of the rows, each at the parameters its batch was taken at. */
  ghost function EpochLoss(c: Setting, l: Learner, order: seq<nat>): real
    requires c.Valid() && Ready(c, l) && Within(order, |c.rows|)
    decreases |order|
  {
    if order == [] then 0.0
    else
      var k := LastStart(|order|);
      EpochLoss(c, l, order[..k]) + BatchLoss(c, EpochFold(c, l, order[..k]).ps, order[k..])
  }

  function Identity(n: nat): (s: seq<nat>)
    ensures |s| == n && forall i :: 0 <= i < n ==> s[i] == i
  {
    seq(n, i requires 0 <= i => i)
  }

  /** Every row exactly once, in some order. */
  ghost predicate VisitsEveryRowOnce(visits: seq<nat>, n: nat) {
    multiset(visits) == multiset(Identity(n))
  }

  lemma VisitsAreRows(visits: seq<nat>, n: nat)
    requires VisitsEveryRowOnce(visits, n)
    ensures Within(visits, n) && |visits| == n
  {
    forall k | 0 <= k < |visits| ensures visits[k] < n {
      assert visits[k] in multiset(visits);
      assert visits[k] in multiset(Identity(n));
    }
    assert |visits| == |multiset(visits)| == |multiset(Identity(n))| == n;
  }

  /** The order of an epoch that starts with the generator in state a. */
  ghost function EpochOrder(c: Setting, a: bv32): (order: seq<nat>)
    ensures VisitsEveryRowOnce(order, |c.rows|) && Within(order, |c.rows|) && |order| == |c.rows|
    ensures order == FisherYates(Identity(|c.rows|), |c.rows|, DrawsFrom(a, |c.rows|, DrawCount(|c.rows|)))
  {
    var n := |c.rows|;
    FisherYatesPermutes(Identity(n), n, DrawsFrom(a, n, DrawCount(n)));
    VisitsAreRows(ShuffledBy(Identity(n), a), n);
    ShuffledBy(Identity(n), a)
  }

  /** The generator's state after some epochs. */
  ghost function EpochSeed(c: Setting, a: bv32, epochs: nat): bv32 {
    if epochs == 0 then a else After(EpochSeed(c, a, epochs - 1), DrawCount(|c.rows|))
  }

  /** The learner after some epochs, each in the order its own draws give. */
  ghost function TrainFold(c: Setting, l: Learner, a: bv32, epochs: nat): (t: Learner)
    requires c.Valid() && Ready(c, l)
    ensures Ready(c, t)
  {
    if epochs == 0 then l
    else EpochFold(c, TrainFold(c, l, a, epochs - 1), EpochOrder(c, EpochSeed(c, a, epochs - 1)))
  }

  /** What each row of a batch adds to an entry, to the loss and to the weight. */
  ghost function GradientsOf(c: Setting, ps: seq<real>, ids: seq<nat>, p: nat): (g: seq<real>)
    requires c.Valid() && Sized(c, ps) && Within(ids, |c.rows|)
    ensures |g| == |ids| && forall k :: 0 <= k < |ids| ==> g[k] == RowGradient(c.f, ps, c.ov, c.rows[ids[k]], p)
  {
    seq(|ids|, k requires 0 <= k < |ids| => RowGradient(c.f, ps, c.ov, c.rows[ids[k]], p))
  }

  ghost function LossesOf(c: Setting, ps: seq<real>, ids: seq<nat>): (g: seq<real>)
    requires c.Valid() && Sized(c, ps) && Within(ids, |c.rows|)
    ensures |g| == |ids| && forall k :: 0 <= k < |ids| ==> g[k] == Loss(c.f, ps, c.ov, c.rows[ids[k]])
  {
    seq(|ids|, k requires 0 <= k < |ids| => Loss(c.f, ps, c.ov, c.rows[ids[k]]))
  }

  ghost function WeightsOf(c: Setting, ids: seq<nat>): (g: seq<real>)
    requires Within(ids, |c.rows|)
    ensures |g| == |ids| && forall k :: 0 <= k < |ids| ==> g[k] == c.rows[ids[k]].weightSum
  {
    seq(|ids|, k requires 0 <= k < |ids| => c.rows[ids[k]].weightSum)
  }

  /** A batch's gradient, loss and weight are the sums over its rows, each row once for each time it is listed. */
  lemma {:induction false} BatchIsSum(c: Setting, ps: seq<real>, ids: seq<nat>, p: nat)
    requires c.Valid() && Sized(c, ps) && Within(ids, |c.rows|)
    ensures BatchGradient(c, ps, ids, p) == Sum(GradientsOf(c, ps, ids, p))
    ensures BatchLoss(c, ps, ids) == Sum(LossesOf(c, ps, ids)) && BatchWeight(c, ids) == Sum(WeightsOf(c, ids))
  {
    hide RowGradient, Loss, Sum;
    if ids == [] {
      NothingSums();
    } else {
      var n := |ids| - 1;
      BatchIsSum(c, ps, ids[..n], p);
      SumSnoc(GradientsOf(c, ps, ids, p), GradientsOf(c, ps, ids[..n], p));
      SumSnoc(LossesOf(c, ps, ids), LossesOf(c, ps, ids[..n]));
      SumSnoc(WeightsOf(c, ids), WeightsOf(c, ids[..n]));
    }
  }

  lemma NothingSums()
    ensures Sum([]) == 0.0
  {
  }

  lemma SumSnoc(s: seq<real>, before: seq<real>)
    requires s != [] && before == s[..|s|-1]
    ensures Sum(s) == Sum(before) + s[|s|-1]
  {
    TotalOfPrefix(s, |s| - 1, |s| - 1);
  }

  lemma {:induction false} TotalOfPrefix(s: seq<real>, n: nat, k: nat)
    requires k <= n <= |s|
    ensures Total(s[..n], k) == Total(s, k)
  {
    if k > 0 {
      TotalOfPrefix(s, n, k - 1);
    }
  }

  // ---- what the folds promise ----

  function BatchCount(n: nat): nat {
    (n + BATCH - 1) / BATCH
  }

  /** An epoch takes one step for every 256 rows or part of them. */
  lemma {:induction false} EpochSteps(c: Setting, l: Learner, order: seq<nat>)
    requires c.Valid() && Ready(c, l) && Within(order, |c.rows|)
    ensures EpochFold(c, l, order).step == l.step + BatchCount(|order|)
    decreases |order|
  {
    hide BatchStep;
    if order != [] {
      EpochSteps(c, l, order[..LastStart(|order|)]);
    }
  }

  /** The steps of a whole run. */
  lemma {:induction false} TrainSteps(c: Setting, l: Learner, a: bv32, epochs: nat)
    requires c.Valid() && Ready(c, l)
    ensures TrainFold(c, l, a, epochs).step == l.step + epochs * BatchCount(|c.rows|)
  {
    hide EpochFold, EpochOrder;
    if epochs > 0 {
      TrainSteps(c, l, a, epochs - 1);
      EpochSteps(c, TrainFold(c, l, a, epochs - 1), EpochOrder(c, EpochSeed(c, a, epochs - 1)));
      OneMoreEpoch(epochs, BatchCount(|c.rows|));
    }
  }

  lemma OneMoreEpoch(epochs: nat, steps: nat)
    requires epochs > 0
    ensures epochs * steps == (epochs - 1) * steps + steps
  {
  }

  /** No position of any row reads entry p. */
  ghost predicate Unread(c: Setting, p: nat)
    requires c.Valid()
  {
    p != ThetaAt(c.ov) &&
    forall r, i :: 0 <= r < |c.rows| && 0 <= i < |c.rows[r].cls| ==>
      !ReadsHeat(c.ov, c.rows[r], i, p) && !ReadsDecay(c.ov, c.rows[r], i, p)
  }

  lemma {:induction false} UnreadGetsNothing(c: Setting, ps: seq<real>, ids: seq<nat>, p: nat)
    requires c.Valid() && Sized(c, ps) && Within(ids, |c.rows|) && Unread(c, p)
    ensures BatchGradient(c, ps, ids, p) == 0.0
  {
    if ids != [] {
      UnreadGetsNothing(c, ps, ids[..|ids|-1], p);
      UnreadInRow(c, ps, ids[|ids|-1], p);
    }
  }

  lemma UnreadInRow(c: Setting, ps: seq<real>, r: nat, p: nat)
    requires c.Valid() && Sized(c, ps) && r < |c.rows| && Unread(c, p)
    ensures RowGradient(c.f, ps, c.ov, c.rows[r], p) == 0.0
  {
    var row := c.rows[r];
    var g, h, d := LossWeights(c.f, ps, c.ov, row), Heats(ps, c.ov, row), Decays(c.f, ps, c.ov, row);
    var t := Contributions(g, h, d, c.ov, row, p);
    forall i | 0 <= i < |t| ensures t[i] == 0.0 {
      assert !ReadsHeat(c.ov, row, i, p) && !ReadsDecay(c.ov, row, i, p);
    }
    ZeroTotal(t, |t|);
  }

  lemma {:induction false} ZeroTotal(c: seq<real>, n: nat)
    requires n <= |c| && forall i :: 0 <= i < n ==> c[i] == 0.0
    ensures Total(c, n) == 0.0
  {
    if n > 0 {
      ZeroTotal(c, n-1);
    }
  }

  lemma UnmovedEntry(f: Curves, opts: Options, ov: Overrides, j: nat, e: Entry, batchWeight: real, step: nat)
    requires step >= 1 && f.Valid() && e.m == 0.0
    ensures Stepped(f, opts, ov, j, e, 0.0, batchWeight, step) == e
  {
  }

  /** An entry as it was, without momentum. */
  ghost predicate Still(c: Setting, l: Learner, t: Learner, p: nat) {
    Ready(c, l) && Ready(c, t) && p < |l.ps| && t.ps[p] == l.ps[p] && t.ms[p] == 0.0
  }

  lemma {:induction false} UnreadStaysInEpoch(c: Setting, l: Learner, order: seq<nat>, p: nat)
    requires c.Valid() && Still(c, l, l, p) && Within(order, |c.rows|) && Unread(c, p)
    ensures Still(c, l, EpochFold(c, l, order), p)
    decreases |order|
  {
    hide Unread, Stepped, BatchGradient, BatchWeight;
    if order != [] {
      var k := LastStart(|order|);
      UnreadStaysInEpoch(c, l, order[..k], p);
      var before := EpochFold(c, l, order[..k]);
      UnreadGetsNothing(c, before.ps, order[k..], p);
      UnmovedEntry(c.f, c.opts, c.ov, p, Entry(before.ps[p], before.ms[p], before.vs[p]), BatchWeight(c, order[k..]), before.step + 1);
      assert Entry(EpochFold(c, l, order).ps[p], EpochFold(c, l, order).ms[p], EpochFold(c, l, order).vs[p])
          == SteppedEntry(c, before, order[k..], p);
    }
  }

  /** Over a whole run an entry that no row reads never moves. */
  lemma {:induction false} UnreadNeverMoves(c: Setting, l: Learner, a: bv32, epochs: nat, p: nat)
    requires c.Valid() && Still(c, l, l, p) && Unread(c, p)
    ensures Still(c, l, TrainFold(c, l, a, epochs), p)
  {
    hide EpochFold, EpochOrder, Unread;
    if epochs > 0 {
      UnreadNeverMoves(c, l, a, epochs - 1, p);
      UnreadStaysInEpoch(c, TrainFold(c, l, a, epochs - 1), EpochOrder(c, EpochSeed(c, a, epochs - 1)), p);
    }
  }

  /** The frozen tail entries are unread by construction. */
  lemma TailIsUnread(c: Setting)
    requires c.Valid()
    ensures Unread(c, TAIL) && Unread(c, K + TAIL)
  {
  }

  // ---- the loops ----

  method Batch(c: Setting, P: array<real>, m: array<real>, v: array<real>, ids: seq<nat>, step: nat) returns (loss: real)
    requires c.Valid() && Sized(c, P[..]) && Within(ids, |c.rows|) && step >= 1
    requires P.Length == m.Length == v.Length && P != m && P != v && m != v
    modifies P, m, v
    ensures Learner(P[..], m[..], v[..], step) == BatchStep(c, old(Learner(P[..], m[..], v[..], step - 1)), ids)
    ensures loss == BatchLoss(c, old(P[..]), ids)
  {
    hide BatchGradient, BatchWeight, BatchLoss, Stepped;
    var G, weight;
    G, loss, weight := BatchGrad(c, P, ids);
    ghost var l := Learner(P[..], m[..], v[..], step - 1);
    StepParameters(c.f, c.opts, c.ov, P, m, v, G, weight, step);
    ghost var t := BatchStep(c, l, ids);
    forall j | 0 <= j < P.Length ensures Entry(P[j], m[j], v[j]) == Entry(t.ps[j], t.ms[j], t.vs[j]) {
      assert Entry(t.ps[j], t.ms[j], t.vs[j]) == SteppedEntry(c, l, ids, j);
    }
    assert P[..] == t.ps && m[..] == t.ms && v[..] == t.vs;
  }

  lemma NextBatch(c: Setting, l: Learner, order: seq<nat>, start: nat, end: nat)
    requires c.Valid() && Ready(c, l) && Within(order, |c.rows|)
    requires start % BATCH == 0 && start < end <= |order| && end - start <= BATCH
    ensures EpochFold(c, l, order[..end]) == BatchStep(c, EpochFold(c, l, order[..start]), order[start..end])
    ensures EpochLoss(c, l, order[..end]) ==
            EpochLoss(c, l, order[..start]) + BatchLoss(c, EpochFold(c, l, order[..start]).ps, order[start..end])
  {
    var prefix := order[..end];
    assert LastStart(end) == start;
    assert prefix[..start] == order[..start] && prefix[start..] == order[start..end];
  }

  /** The batches of 256 of an order, one after the other. */
  method RunBatches(c: Setting, P: array<real>, m: array<real>, v: array<real>, order: seq<nat>, step0: nat)
    returns (step: nat, loss: real)
    requires c.Valid() && Sized(c, P[..]) && Within(order, |c.rows|)
    requires P.Length == m.Length == v.Length && P != m && P != v && m != v
    modifies P, m, v
    ensures var l := old(Learner(P[..], m[..], v[..], step0));
            Learner(P[..], m[..], v[..], step) == EpochFold(c, l, order) && loss == EpochLoss(c, l, order)
  {
    hide BatchStep, BatchLoss, EpochFold, EpochLoss, LastStart;
    ghost var l := Learner(P[..], m[..], v[..], step0);
    step, loss := step0, 0.0;
    var start := 0;
    ghost var done := 0;
    NoBatch(c, l);
    assert order[..0] == [];
    while start < |order|
      invariant start % BATCH == 0 && done == (if start < |order| then start else |order|)
      invariant Learner(P[..], m[..], v[..], step) == EpochFold(c, l, order[..done]) && loss == EpochLoss(c, l, order[..done])
    {
      var end := if start + BATCH < |order| then start + BATCH else |order|;
      NextBatch(c, l, order, start, end);
      step := step + 1;
      var batchLoss := Batch(c, P, m, v, order[start..end], step);
      loss := loss + batchLoss;
      start, done := start + BATCH, end;
    }
    assert order[..done] == order;
  }

  /** One epoch of the source: the fold of its batches of 256 over the order the generator gives. */
  method Epoch(c: Setting, P: array<real>, m: array<real>, v: array<real>, random: Mulberry32, step0: nat)
    returns (step: nat, loss: real)
    requires c.Valid() && Sized(c, P[..])
    requires P.Length == m.Length == v.Length && P != m && P != v && m != v
    modifies P, m, v, random
    ensures var l := old(Learner(P[..], m[..], v[..], step0));
            var order := EpochOrder(c, old(random.a));
            Learner(P[..], m[..], v[..], step) == EpochFold(c, l, order) && loss == EpochLoss(c, l, order)
    ensures random.a == After(old(random.a), DrawCount(|c.rows|))
  {
    hide EpochFold, EpochLoss, EpochOrder, ShuffledBy, After;
    var order := new nat[|c.rows|](i => i);
    assert order[..] == Identity(|c.rows|);
    UnfoldOrder(c, random.a);
    ShuffleInPlace(order, random);
    step, loss := RunBatches(c, P, m, v, order[..], step0);
  }

  lemma UnfoldOrder(c: Setting, a: bv32)
    ensures EpochOrder(c, a) == ShuffledBy(Identity(|c.rows|), a)
  {
  }

  lemma NoBatch(c: Setting, l: Learner)
    requires c.Valid() && Ready(c, l)
    ensures EpochFold(c, l, []) == l && EpochLoss(c, l, []) == 0.0
  {
  }

  /** The source's training loop: the fold of its epochs, each in the order of its own draws. */
  method Train(c: Setting, P: array<real>, random: Mulberry32)
    requires c.Valid() && Sized(c, P[..])
    modifies P, random
    ensures P[..] == TrainFold(c, Learner(old(P[..]), Zeros(P.Length), Zeros(P.Length), 0), old(random.a), c.opts.epochs).ps
  {
    hide EpochFold, EpochOrder;
    ghost var l := Learner(P[..], Zeros(P.Length), Zeros(P.Length), 0);
    var m := new real[P.Length](_ => 0.0);
    var v := new real[P.Length](_ => 0.0);
    assert m[..] == Zeros(P.Length) && v[..] == Zeros(P.Length);
    var step := 0;
    ghost var a := random.a;
    for epoch := 0 to c.opts.epochs
      invariant random.a == EpochSeed(c, a, epoch)
      invariant Learner(P[..], m[..], v[..], step) == TrainFold(c, l, a, epoch)
    {
      var loss;
      step, loss := Epoch(c, P, m, v, random, step);
    }
  }
}
