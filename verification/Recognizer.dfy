/** Constants and the row type the recognizer and its trainer share. */
module RecognizerTypes {
  import opened Wrappers

  /** Number of character classes, and the class of a surrogate pair's trailing unit. */
  const K: nat := 49
  const TAIL: nat := 48
  const KK: nat := 49 * 49

  /** One prepared row: per UTF-16 unit features, labels and weights. */
  datatype Row = Row(cls: seq<nat>, cps: seq<nat>, left: seq<nat>, right: seq<nat>, y: seq<bool>, w: seq<real>,
                     weightSum: real)
  {
    ghost predicate Valid() {
      |cls| == |cps| == |left| == |right| == |y| == |w| &&
      forall i :: 0 <= i < |cls| ==> cls[i] < K && left[i] < K && right[i] < K
    }
  }

  /** The code points that own an override, each with a slot below `count`. */
  datatype Overrides = Overrides(count: nat, index: map<nat, nat>)
  {
    ghost predicate Valid() {
      forall cp :: cp in index ==> index[cp] < count
    }
  }

  /**
    The transcendental functions: logistic, logarithm and square root.  Only what is said about the
    derivative of the loss depends on which the first two are, and of the root only its sign is used.
   */
  datatype Curves = Curves(sigma: real -> real, ln: real -> real, root: real -> real)
  {
    function Sigma(x: real): real { sigma(x) }
    function Ln(x: real): real { ln(x) }
    function Root(x: real): real { root(x) }
    ghost predicate Valid() { forall x :: Root(x) >= 0.0 }
  }

  /** The override slot of position i; code point 0 never has one. */
  function Slot(ov: Overrides, row: Row, i: nat): (o: Option<nat>)
    requires row.Valid() && ov.Valid() && i < |row.cls|
    ensures o.Some? ==> o.value < ov.count
  {
    if row.cps[i] != 0 && row.cps[i] in ov.index then Some(ov.index[row.cps[i]]) else None
  }
}
