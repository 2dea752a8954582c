/**
  The recognizer at run time: the sparse tables the trainer hands over, and the in-place score pass
  over a text.  The two must agree with the dense model the trainer fitted.
 */
module Runtime {
  import opened Sums
  import opened HeatField
  import opened RecognizerTypes
  import opened Fit

  datatype Params = Params(heat: seq<real>, decay: seq<real>, overrides: map<nat, (real, real)>,
                           left: map<nat, real>, right: map<nat, real>, theta: real)
  {
    ghost predicate Valid() {
      |heat| == K && |decay| == K
    }
  }

  function Get(table: map<nat, real>, key: nat): real {
    if key in table then table[key] else 0.0
  }

  // ---- extracting the sparse tables ----

  /** The source's `sparse`: the non-zero entries of one pair block, keyed by their offset. */
  method Sparse(P: array<real>, offset: nat) returns (table: map<nat, real>)
    requires offset + KK <= P.Length
    ensures forall key: nat :: key in table <==> key < KK && P[offset + key] != 0.0
    ensures forall key: nat :: key in table ==> table[key] == P[offset + key]
  {
    table := map[];
    for key := 0 to KK
      invariant forall k: nat :: k in table <==> k < key && P[offset + k] != 0.0
      invariant forall k: nat :: k in table ==> table[k] == P[offset + k]
    {
      var x := P[offset + key];
      if x != 0.0 {
        table := table[key := x];
      }
    }
  }

  /** A pair key names one (row, column) pair of classes and no other: dense block and key space correspond. */
  lemma PairKeysAreABijection(key: nat, a: nat, b: nat)
    requires key < KK && b < K
    ensures key / K < K && key % K < K && key == (key / K) * K + key % K
    ensures key == a * K + b <==> a == key / K && b == key % K
  {
  }

  /** The source's override extraction: slots whose two offsets are both zero are dropped. */
  function ExtractOverrides(ps: seq<real>, ov: Overrides): (table: map<nat, (real, real)>)
    requires ov.Valid() && |ps| == ThetaAt(ov) + 1
    ensures forall cp :: cp in table ==>
      cp in ov.index && table[cp] == (ps[OverrideHeatStart() + ov.index[cp]], ps[OverrideDecayStart(ov) + ov.index[cp]])
    ensures forall cp :: cp in ov.index && cp !in table ==>
      ps[OverrideHeatStart() + ov.index[cp]] == 0.0 && ps[OverrideDecayStart(ov) + ov.index[cp]] == 0.0
  {
    map cp | cp in ov.index && (ps[OverrideHeatStart() + ov.index[cp]] != 0.0 || ps[OverrideDecayStart(ov) + ov.index[cp]] != 0.0)
      :: (ps[OverrideHeatStart() + ov.index[cp]], ps[OverrideDecayStart(ov) + ov.index[cp]])
  }

  /** What the trainer returns represents the dense parameter vector. */
  ghost predicate Represents(params: Params, ps: seq<real>, ov: Overrides)
    requires ov.Valid() && |ps| == ThetaAt(ov) + 1
  {
    && params.heat == ps[..K] && params.decay == ps[K..2*K] && params.theta == ps[ThetaAt(ov)]
    && params.overrides == ExtractOverrides(ps, ov)
    && (forall key :: 0 <= key < KK ==> Get(params.left, key) == ps[LeftStart(ov) + key])
    && (forall key :: 0 <= key < KK ==> Get(params.right, key) == ps[RightStart(ov) + key])
  }

  method Extract(P: array<real>, ov: Overrides) returns (params: Params)
    requires ov.Valid() && P.Length == ThetaAt(ov) + 1
    ensures params.Valid() && Represents(params, P[..], ov)
  {
    var left := Sparse(P, LeftStart(ov));
    var right := Sparse(P, RightStart(ov));
    params := Params(P[..K], P[K..2*K], ExtractOverrides(P[..], ov), left, right, P[ThetaAt(ov)]);
  }

  // ---- scoring a text from the sparse tables ----

  function RuntimeHeat(q: Params, row: Row, i: nat): real
    requires q.Valid() && row.Valid() && i < |row.cls|
  {
    if row.cls[i] == TAIL then 0.0
    else q.heat[row.cls[i]] + Get(q.left, LeftKey(row, i)) + Get(q.right, RightKey(row, i))
         + if row.cps[i] != 0 && row.cps[i] in q.overrides then q.overrides[row.cps[i]].0 else 0.0
  }

  function RuntimeDecay(f: Curves, q: Params, row: Row, i: nat): real
    requires q.Valid() && row.Valid() && i < |row.cls|
  {
    if row.cls[i] == TAIL then 1.0
    else f.Sigma(q.decay[row.cls[i]]
                 + if row.cps[i] != 0 && row.cps[i] in q.overrides then q.overrides[row.cps[i]].1 else 0.0)
  }

  function RuntimeHeats(q: Params, row: Row): (h: seq<real>)
    requires q.Valid() && row.Valid()
    ensures |h| == |row.cls| && forall i :: 0 <= i < |h| ==> h[i] == RuntimeHeat(q, row, i)
  {
    seq(|row.cls|, i requires 0 <= i < |row.cls| => RuntimeHeat(q, row, i))
  }

  function RuntimeDecays(f: Curves, q: Params, row: Row): (d: seq<real>)
    requires q.Valid() && row.Valid()
    ensures |d| == |row.cls| && forall i :: 0 <= i < |d| ==> d[i] == RuntimeDecay(f, q, row, i)
  {
    seq(|row.cls|, i requires 0 <= i < |row.cls| => RuntimeDecay(f, q, row, i))
  }

  /** The source's mathScores: both passes share one array, the second overwriting the first. */
  method MathScores(f: Curves, q: Params, row: Row) returns (p: array<real>)
    requires q.Valid() && row.Valid()
    ensures fresh(p) && p.Length == |row.cls|
    ensures forall i :: 0 <= i < p.Length ==>
      p[i] == f.Sigma(Score(RuntimeHeats(q, row), RuntimeDecays(f, q, row), i) - q.theta)
  {
    hide Affine, RuntimeHeat, RuntimeDecay, RuntimeHeats, RuntimeDecays;
    var n := |row.cls|;
    var h, d := RuntimeHeats(q, row), RuntimeDecays(f, q, row);
    p := new real[n];
    var fwd := 0.0;
    for i := 0 to n
      invariant fwd == Forward(h, d, i)
      invariant forall j :: 0 <= j < i ==> p[j] == Forward(h, d, j+1)
    {
      fwd := Affine(h[i], d[i], fwd);
      p[i] := fwd;
    }
    var b := 0.0;
    for i := n downto 0
      invariant b == Backward(h, d, i)
      invariant forall j :: 0 <= j < i ==> p[j] == Forward(h, d, j+1)
      invariant forall j :: i <= j < n ==> p[j] == f.Sigma(Score(h, d, j) - q.theta)
    {
      b := Affine(h[i], d[i], b);
      p[i] := f.Sigma(p[i] + b - h[i] - q.theta);
    }
  }

  /**
    The model that runs is the model that was trained.  On every row, scoring from the
    extracted sparse tables gives exactly the probabilities the trainer computed from the dense
    vector: dropped zero entries, sparse keys and overrides lose nothing.
   */
  lemma RuntimeIsTheTrainedModel(f: Curves, ps: seq<real>, ov: Overrides, q: Params, row: Row)
    requires Fits(ps, ov, row) && q.Valid() && Represents(q, ps, ov)
    ensures forall i :: 0 <= i < |row.cls| ==>
      f.Sigma(Score(RuntimeHeats(q, row), RuntimeDecays(f, q, row), i) - q.theta) == Probability(f, ps, ov, row, i)
  {
    forall i | 0 <= i < |row.cls|
      ensures RuntimeHeat(q, row, i) == HeatAt(ps, ov, row, i) && RuntimeDecay(f, q, row, i) == DecayAt(f, ps, ov, row, i)
    {
      SamePosition(f, ps, ov, q, row, i);
    }
    assert RuntimeHeats(q, row) == Heats(ps, ov, row);
    assert RuntimeDecays(f, q, row) == Decays(f, ps, ov, row);
  }

  lemma SameHeat(ps: seq<real>, ov: Overrides, q: Params, row: Row, i: nat)
    requires Fits(ps, ov, row) && q.Valid() && Represents(q, ps, ov) && i < |row.cls|
    ensures RuntimeHeat(q, row, i) == HeatAt(ps, ov, row, i)
  {
    hide LeftKey, RightKey;
    if row.cls[i] != TAIL {
      assert Get(q.left, LeftKey(row, i)) == ps[LeftStart(ov) + LeftKey(row, i)];
      assert Get(q.right, RightKey(row, i)) == ps[RightStart(ov) + RightKey(row, i)];
      assert q.heat[row.cls[i]] == ps[row.cls[i]];
    }
  }

  lemma SamePosition(f: Curves, ps: seq<real>, ov: Overrides, q: Params, row: Row, i: nat)
    requires Fits(ps, ov, row) && q.Valid() && Represents(q, ps, ov) && i < |row.cls|
    ensures RuntimeHeat(q, row, i) == HeatAt(ps, ov, row, i) && RuntimeDecay(f, q, row, i) == DecayAt(f, ps, ov, row, i)
  {
    hide LeftKey, RightKey, RuntimeHeat, HeatAt;
    SameHeat(ps, ov, q, row, i);
    if row.cls[i] != TAIL {
      assert q.decay[row.cls[i]] == ps[K + row.cls[i]];
    }
  }
}
