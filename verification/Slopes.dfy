/**
  Derivatives of real functions of one variable, by their definition: near a place the function is
  its value there plus slope times distance, up to any given fraction of the distance.
 */
module Slopes {
  import opened Sums

  function Magnitude(x: real): real { if x < 0.0 then -x else x }

  /** Within distance `d` of `x` the error is at most `e` times the distance. */
  ghost predicate Near(fn: real -> real, x: real, s: real, e: real, d: real) {
    forall y :: Magnitude(y - x) < d ==> Magnitude(fn(y) - fn(x) - Product(s, y - x)) <= Product(e, Magnitude(y - x))
  }

  ghost predicate Close(fn: real -> real, x: real, s: real, e: real) {
    exists d :: d > 0.0 && Near(fn, x, s, e, d)
  }

  ghost predicate HasSlope(fn: real -> real, x: real, s: real) {
    forall e :: e > 0.0 ==> Close(fn, x, s, e)
  }

  // ---- estimates ----

  lemma SumMagnitude(a: real, b: real)
    ensures Magnitude(a + b) <= Magnitude(a) + Magnitude(b)
  {
  }

  lemma Negates(a: real, b: real)
    ensures Product(-a, b) == -Product(a, b) == Product(a, -b)
  {
  }

  lemma NeverNegative(a: real, b: real)
    requires a >= 0.0 && b >= 0.0
    ensures Product(a, b) >= 0.0
  {
  }

  lemma ProductMagnitude(a: real, b: real)
    ensures Magnitude(Product(a, b)) == Product(Magnitude(a), Magnitude(b))
  {
    hide Product;
    var p, q := -a, -b;
    Negates(a, b);
    Negates(p, b);
    if a < 0.0 {
      if b < 0.0 { NeverNegative(p, q); } else { NeverNegative(p, b); }
    } else {
      if b < 0.0 { NeverNegative(a, q); } else { NeverNegative(a, b); }
    }
  }

  lemma Grows(a: real, b: real, c: real)
    requires a <= b && c >= 0.0
    ensures Product(a, c) <= Product(b, c) && Product(c, a) <= Product(c, b)
    ensures a < b && c > 0.0 ==> Product(c, a) < Product(c, b)
  {
    hide Product;
    Distributes(c, b, a);
    Associates(b, c, 0.0);
    Associates(a, c, 0.0);
    NeverNegative(c, b - a);
    if a < b && c > 0.0 { Positive(c, b - a); }
  }

  lemma Positive(a: real, b: real)
    requires a > 0.0 && b > 0.0
    ensures Product(a, b) > 0.0
  {
  }

  lemma Distributes(k: real, a: real, b: real)
    ensures Product(k, a + b) == Product(k, a) + Product(k, b) && Product(k, a - b) == Product(k, a) - Product(k, b)
    ensures Product(a + b, k) == Product(a, k) + Product(b, k)
  {
  }

  lemma Associates(a: real, b: real, c: real)
    ensures Product(a, Product(b, c)) == Product(Product(a, b), c) && Product(a, b) == Product(b, a)
  {
    assert a * (b * c) == (a * b) * c;
  }

  lemma Halves(e: real, h: real)
    ensures Product(e / 2.0, h) + Product(e / 2.0, h) == Product(e, h)
  {
  }

  /** The share of an error that a factor leaves. */
  function Share(e: real, factor: real): real
    requires factor > 0.0
  {
    e / factor
  }

  lemma ShareTimes(e: real, factor: real)
    requires factor > 0.0
    ensures Product(factor, Share(e, factor)) == e == Product(Share(e, factor), factor) && (e > 0.0 ==> Share(e, factor) > 0.0)
  {
  }

  // ---- rules ----

  /** A line has its own slope. */
  lemma SlopeOfLine(fn: real -> real, x: real, s: real)
    requires forall y :: fn(y) == fn(x) + Product(s, y - x)
    ensures HasSlope(fn, x, s)
  {
    hide Product;
    forall e | e > 0.0 ensures Close(fn, x, s, e) {
      forall y | Magnitude(y - x) < 1.0 ensures Magnitude(fn(y) - fn(x) - Product(s, y - x)) <= Product(e, Magnitude(y - x)) {
        Grows(0.0, e, Magnitude(y - x));
        NothingTimes(Magnitude(y - x));
      }
      assert Near(fn, x, s, e, 1.0);
    }
  }

  lemma NothingTimes(a: real)
    ensures Product(0.0, a) == 0.0 && Product(1.0, a) == a && Product(a, 1.0) == a
  {
  }

  lemma SlopeOfConstant(fn: real -> real, x: real)
    requires forall y :: fn(y) == fn(x)
    ensures HasSlope(fn, x, 0.0)
  {
    SlopeOfLine(fn, x, 0.0);
  }

  lemma SlopeOfSame(fn: real -> real, gn: real -> real, x: real, s: real)
    requires HasSlope(fn, x, s) && forall y :: gn(y) == fn(y)
    ensures HasSlope(gn, x, s)
  {
    hide Product;
    forall e | e > 0.0 ensures Close(gn, x, s, e) {
      assert Close(fn, x, s, e);
      var d :| d > 0.0 && Near(fn, x, s, e, d);
      assert Near(gn, x, s, e, d);
    }
  }

  function Min(a: real, b: real): real { if a < b then a else b }

  lemma NearSum(fn: real -> real, gn: real -> real, hn: real -> real, x: real, s: real, t: real, e: real, c: real, d: real)
    requires (forall y :: hn(y) == fn(y) + gn(y)) && Near(fn, x, s, e / 2.0, c) && Near(gn, x, t, e / 2.0, d)
    ensures Near(hn, x, s + t, e, Min(c, d))
  {
    hide Product;
    var u := s + t;
    forall y | Magnitude(y - x) < Min(c, d)
      ensures Magnitude(hn(y) - hn(x) - Product(u, y - x)) <= Product(e, Magnitude(y - x))
    {
      var h := y - x;
      var a, b := fn(y) - fn(x) - Product(s, h), gn(y) - gn(x) - Product(t, h);
      Distributes(h, s, t);
      SumMagnitude(a, b);
      Halves(e, Magnitude(h));
    }
  }

  lemma SlopeOfSum(fn: real -> real, gn: real -> real, hn: real -> real, x: real, s: real, t: real)
    requires HasSlope(fn, x, s) && HasSlope(gn, x, t) && forall y :: hn(y) == fn(y) + gn(y)
    ensures HasSlope(hn, x, s + t)
  {
    hide Near;
    var u := s + t;
    forall e | e > 0.0 ensures Close(hn, x, u, e) {
      assert Close(fn, x, s, e / 2.0) && Close(gn, x, t, e / 2.0);
      var c :| c > 0.0 && Near(fn, x, s, e / 2.0, c);
      var d :| d > 0.0 && Near(gn, x, t, e / 2.0, d);
      NearSum(fn, gn, hn, x, s, t, e, c, d);
    }
  }

  /** How far a function moves within a distance on which it is near its line. */
  lemma MoveIsBounded(fn: real -> real, x: real, s: real, e: real, d: real, y: real)
    requires Near(fn, x, s, e, d) && Magnitude(y - x) < d
    ensures Magnitude(fn(y) - fn(x)) <= Product(Magnitude(s) + e, Magnitude(y - x))
  {
    hide Product;
    var h := y - x;
    SumMagnitude(fn(y) - fn(x) - Product(s, h), Product(s, h));
    ProductMagnitude(s, h);
    Distributes(Magnitude(h), Magnitude(s), e);
  }

  lemma Rearranged(move: real, h: real, s: real, t: real, r: real, q: real)
    requires move == Product(s, h) + r
    ensures (Product(t, move) + q) - Product(Product(t, s), h) == Product(t, r) + q
  {
    hide Product;
    Distributes(t, Product(s, h), r);
    Associates(t, s, h);
  }

  lemma TwoHalves(a: real, b: real, e: real, h: real)
    requires Magnitude(a) <= Product(e / 2.0, h) && Magnitude(b) <= Product(e / 2.0, h)
    ensures Magnitude(a + b) <= Product(e, h)
  {
    hide Product;
    SumMagnitude(a, b);
    Halves(e, h);
  }

  /** An error within its share, times what the share allows for, is within the whole. */
  lemma ShareOfMove(k: real, a: real, e: real, h: real, factor: real)
    requires factor > 0.0 && 0.0 <= a <= Product(Share(e, factor), h) && 0.0 <= k <= factor
    ensures Product(k, a) <= Product(e, h)
  {
    hide Product, Share;
    Grows(k, factor, a);
    Grows(a, Product(Share(e, factor), h), factor);
    Associates(factor, Share(e, factor), h);
    ShareTimes(e, factor);
  }

  /** An error within its share of a move that is itself bounded is within the whole. */
  lemma MoveOfShare(a: real, e: real, move: real, h: real, factor: real)
    requires factor > 0.0 && e > 0.0 && a <= Product(Share(e, factor), move) && move <= Product(factor, h)
    ensures a <= Product(e, h)
  {
    hide Product, Share;
    ShareTimes(e, factor);
    Grows(move, Product(factor, h), Share(e, factor));
    Associates(Share(e, factor), factor, h);
  }

  /** The errors of an inner and an outer function, together. */
  lemma ComposedError(move: real, h: real, s: real, t: real, r: real, q: real, e: real, S: real, T: real)
    requires e > 0.0 && move == Product(s, h) + r && S > 0.0 && T > 0.0 && T >= Magnitude(t)
    requires Magnitude(r) <= Product(Share(e / 2.0, T), Magnitude(h))
    requires Magnitude(q) <= Product(Share(e / 2.0, S), Magnitude(move)) && Magnitude(move) <= Product(S, Magnitude(h))
    ensures Magnitude((Product(t, move) + q) - Product(Product(t, s), h)) <= Product(e, Magnitude(h))
  {
    hide Product, Share;
    Rearranged(move, h, s, t, r, q);
    ProductMagnitude(t, r);
    ShareOfMove(Magnitude(t), Magnitude(r), e / 2.0, Magnitude(h), T);
    MoveOfShare(Magnitude(q), e / 2.0, Magnitude(move), Magnitude(h), S);
    TwoHalves(Product(t, r), q, e, Magnitude(h));
  }

  lemma ComposedNear(inner: real -> real, outer: real -> real, hn: real -> real, x: real, s: real, t: real,
                     e: real, c: real, d: real)
    requires (forall y :: hn(y) == outer(inner(y))) && e > 0.0 && c > 0.0 && d > 0.0
    requires Near(inner, x, s, Min(1.0, Share(e / 2.0, Magnitude(t) + 1.0)), c)
    requires Near(outer, inner(x), t, Share(e / 2.0, Magnitude(s) + 1.0), d)
    ensures Near(hn, x, Product(t, s), e, Min(c, Share(d, Magnitude(s) + 1.0)))
  {
    hide Product, Share;
    var S, T, u := Magnitude(s) + 1.0, Magnitude(t) + 1.0, Product(t, s);
    var k := Min(1.0, Share(e / 2.0, T));
    forall y | Magnitude(y - x) < Min(c, Share(d, S))
      ensures Magnitude(hn(y) - hn(x) - Product(u, y - x)) <= Product(e, Magnitude(y - x))
    {
      var h, move := y - x, inner(y) - inner(x);
      MoveIsBounded(inner, x, s, k, c, y);
      Grows(Magnitude(s) + k, S, Magnitude(h));
      ShareTimes(d, S);
      Grows(Magnitude(h), Share(d, S), S);
      Grows(k, Share(e / 2.0, T), Magnitude(h));
      ComposedError(move, h, s, t, move - Product(s, h), outer(inner(y)) - outer(inner(x)) - Product(t, move), e, S, T);
    }
  }

  /** The chain rule. */
  lemma SlopeOfComposite(inner: real -> real, outer: real -> real, hn: real -> real, x: real, s: real, t: real)
    requires HasSlope(inner, x, s) && HasSlope(outer, inner(x), t) && forall y :: hn(y) == outer(inner(y))
    ensures HasSlope(hn, x, Product(t, s))
  {
    hide Near, Product, Share;
    var S, T, u := Magnitude(s) + 1.0, Magnitude(t) + 1.0, Product(t, s);
    forall e | e > 0.0 ensures Close(hn, x, u, e) {
      ShareTimes(e / 2.0, T);
      ShareTimes(e / 2.0, S);
      var k, l := Min(1.0, Share(e / 2.0, T)), Share(e / 2.0, S);
      assert Close(inner, x, s, k) && Close(outer, inner(x), t, l);
      var c :| c > 0.0 && Near(inner, x, s, k, c);
      var d :| d > 0.0 && Near(outer, inner(x), t, l, d);
      ShareTimes(d, S);
      ComposedNear(inner, outer, hn, x, s, t, e, c, d);
    }
  }

  lemma SlopeOfMultiple(fn: real -> real, hn: real -> real, c: real, x: real, s: real)
    requires HasSlope(fn, x, s) && forall y :: hn(y) == Product(c, fn(y))
    ensures HasSlope(hn, x, Product(c, s))
  {
    hide Product, HasSlope;
    var line := (z: real) => Product(c, z);
    forall z ensures line(z) == line(fn(x)) + Product(c, z - fn(x)) {
      Distributes(c, z, fn(x));
    }
    SlopeOfLine(line, fn(x), c);
    SlopeOfComposite(fn, line, hn, x, s, c);
  }

  ghost function Line(k: real): (c: real -> real)
    ensures forall t {:trigger c(t)} :: c(t) == Product(k, t)
  {
    (t: real) => Product(k, t)
  }

  lemma SlopeOfLinear(fn: real -> real, k: real, x: real)
    requires forall t {:trigger fn(t)} :: fn(t) == Product(k, t)
    ensures HasSlope(fn, x, k)
  {
    hide HasSlope, Product;
    forall t ensures fn(t) == fn(x) + Product(k, t - x) {
      Distributes(k, t, x);
    }
    SlopeOfLine(fn, x, k);
  }

  lemma LineHasSlope(k: real, x: real)
    ensures HasSlope(Line(k), x, k)
  {
    hide HasSlope, Product, Line;
    SlopeOfLinear(Line(k), k, x);
  }

  ghost function Constant(k: real): (c: real -> real)
    ensures forall t :: c(t) == k
  {
    (t: real) => k
  }

  lemma MinusOne(a: real)
    ensures Product(-1.0, a) == -a
  {
  }

  ghost function Negated(a: real -> real): (c: real -> real)
    ensures forall t :: c(t) == -a(t)
  {
    (t: real) => -a(t)
  }

  lemma NegatedHasSlope(a: real -> real, minus: real -> real, x: real, s: real)
    requires HasSlope(a, x, s) && forall t :: minus(t) == -a(t)
    ensures HasSlope(minus, x, -s)
  {
    hide HasSlope, Product;
    forall t ensures minus(t) == Product(-1.0, a(t)) {
      MinusOne(a(t));
    }
    SlopeOfMultiple(a, minus, -1.0, x, s);
    MinusOne(s);
  }

  lemma DifferenceHasSlope(a: real -> real, b: real -> real, difference: real -> real, x: real, sa: real, sb: real)
    requires HasSlope(a, x, sa) && HasSlope(b, x, sb) && forall t :: difference(t) == a(t) - b(t)
    ensures HasSlope(difference, x, sa - sb)
  {
    hide HasSlope, Negated;
    NegatedHasSlope(b, Negated(b), x, sb);
    SlopeOfSum(a, Negated(b), difference, x, sa, -sb);
  }

  function Third(e: real): real { e / 3.0 }

  lemma ThreeThirds(a: real, b: real, c: real, e: real, h: real)
    requires Magnitude(a) <= Product(Third(e), h) && Magnitude(b) <= Product(Third(e), h) && Magnitude(c) <= Product(Third(e), h)
    ensures Magnitude(a + b + c) <= Product(e, h)
  {
    ThirdsOf(e, h);
    hide Product, Third;
    SumMagnitude(a, b);
    SumMagnitude(a + b, c);
  }

  lemma ThirdsOf(e: real, h: real)
    ensures Product(Third(e), h) + Product(Third(e), h) + Product(Third(e), h) == Product(e, h)
  {
  }

  /** A product moves by each factor's move times the other, and by the product of the moves. */
  lemma ProductMoves(f: real, g: real, df: real, dg: real, s: real, t: real, h: real)
    ensures Product(f + df, g + dg) - Product(f, g) - Product(Product(s, g) + Product(f, t), h)
            == Product(g, df - Product(s, h)) + Product(f, dg - Product(t, h)) + Product(df, dg)
  {
    hide Product;
    Distributes(f + df, g, dg);
    Distributes(g, f, df);
    Distributes(dg, f, df);
    Distributes(h, Product(s, g), Product(f, t));
    Distributes(g, df, Product(s, h));
    Distributes(f, dg, Product(t, h));
    Associates(f, t, h);
    Associates(g, s, h);
    Associates(s, g, h);
    Associates(df, g, 0.0);
  }

  /** The moves together are within the third error on a small enough distance. */
  lemma MovesTogether(df: real, dg: real, h: real, S: real, T: real, e: real)
    requires S > 0.0 && T > 0.0 && h >= 0.0 && Magnitude(df) <= Product(S, h) && Magnitude(dg) <= Product(T, h)
    requires h <= Share(Share(e, S), T)
    ensures Magnitude(Product(df, dg)) <= Product(e, h)
  {
    hide Product, Share;
    ProductMagnitude(df, dg);
    Grows(Magnitude(df), Product(S, h), Magnitude(dg));
    NeverNegative(S, h);
    Grows(Magnitude(dg), Product(T, h), Product(S, h));
    Grows(h, Share(Share(e, S), T), T);
    ShareTimes(Share(e, S), T);
    Grows(Product(T, h), Share(e, S), Product(S, h));
    ShareTimes(e, S);
    Associates(Share(e, S), S, h);
    Associates(Product(S, h), Share(e, S), 0.0);
  }

  lemma ProductNear(fn: real -> real, gn: real -> real, hn: real -> real, x: real, s: real, t: real, e: real, c: real, d: real)
    requires (forall y :: hn(y) == Product(fn(y), gn(y))) && e > 0.0
    requires Near(fn, x, s, Min(1.0, Share(Third(e), Magnitude(gn(x)) + 1.0)), c)
    requires Near(gn, x, t, Min(1.0, Share(Third(e), Magnitude(fn(x)) + 1.0)), d)
    ensures Near(hn, x, Product(s, gn(x)) + Product(fn(x), t), e,
                 Min(Min(c, d), Share(Share(Third(e), Magnitude(s) + 1.0), Magnitude(t) + 1.0)))
  {
    hide Product, Share, Third;
    var f, g, S, T := fn(x), gn(x), Magnitude(s) + 1.0, Magnitude(t) + 1.0;
    var k, l := Min(1.0, Share(Third(e), Magnitude(g) + 1.0)), Min(1.0, Share(Third(e), Magnitude(f) + 1.0));
    var u := Product(s, g) + Product(f, t);
    forall y | Magnitude(y - x) < Min(Min(c, d), Share(Share(Third(e), S), T))
      ensures Magnitude(hn(y) - hn(x) - Product(u, y - x)) <= Product(e, Magnitude(y - x))
    {
      var h, df, dg := y - x, fn(y) - f, gn(y) - g;
      var H := Magnitude(h);
      MoveIsBounded(fn, x, s, k, c, y);
      MoveIsBounded(gn, x, t, l, d, y);
      Grows(Magnitude(s) + k, S, H);
      Grows(Magnitude(t) + l, T, H);
      Grows(k, Share(Third(e), Magnitude(g) + 1.0), H);
      Grows(l, Share(Third(e), Magnitude(f) + 1.0), H);
      MovesTogether(df, dg, H, S, T, Third(e));
      ProductMagnitude(g, df - Product(s, h));
      ProductMagnitude(f, dg - Product(t, h));
      ShareOfMove(Magnitude(g), Magnitude(df - Product(s, h)), Third(e), H, Magnitude(g) + 1.0);
      ShareOfMove(Magnitude(f), Magnitude(dg - Product(t, h)), Third(e), H, Magnitude(f) + 1.0);
      ProductMoves(f, g, df, dg, s, t, h);
      ThreeThirds(Product(g, df - Product(s, h)), Product(f, dg - Product(t, h)), Product(df, dg), e, H);
    }
  }

  /** The product rule. */
  lemma SlopeOfProduct(fn: real -> real, gn: real -> real, hn: real -> real, x: real, s: real, t: real)
    requires HasSlope(fn, x, s) && HasSlope(gn, x, t) && forall y :: hn(y) == Product(fn(y), gn(y))
    ensures HasSlope(hn, x, Product(s, gn(x)) + Product(fn(x), t))
  {
    hide Near, Product, Share, Third;
    var u := Product(s, gn(x)) + Product(fn(x), t);
    forall e | e > 0.0 ensures Close(hn, x, u, e) {
      PositiveThird(e);
      ShareTimes(Third(e), Magnitude(gn(x)) + 1.0);
      ShareTimes(Third(e), Magnitude(fn(x)) + 1.0);
      var k := Min(1.0, Share(Third(e), Magnitude(gn(x)) + 1.0));
      var l := Min(1.0, Share(Third(e), Magnitude(fn(x)) + 1.0));
      assert Close(fn, x, s, k) && Close(gn, x, t, l);
      var c :| c > 0.0 && Near(fn, x, s, k, c);
      var d :| d > 0.0 && Near(gn, x, t, l, d);
      ShareTimes(Third(e), Magnitude(s) + 1.0);
      ShareTimes(Share(Third(e), Magnitude(s) + 1.0), Magnitude(t) + 1.0);
      ProductNear(fn, gn, hn, x, s, t, e, c, d);
    }
  }

  lemma PositiveThird(e: real)
    requires e > 0.0
    ensures Third(e) > 0.0
  {
  }

  lemma TooFar(a: real, b: real, h: real)
    requires a != b && h > 0.0
    ensures Product(Magnitude(a - b) / 4.0, h) + Product(Magnitude(a - b) / 4.0, h) < Magnitude(Product(a, h) - Product(b, h))
  {
    hide Product;
    var m := Magnitude(a - b);
    ProductMagnitude(a - b, h);
    Distributes(h, a, b);
    Associates(a, h, 0.0);
    Associates(b, h, 0.0);
    Associates(a - b, h, 0.0);
    Distributes(h, m / 4.0, m / 4.0);
    Positive(m / 2.0, h);
    Distributes(h, m / 2.0, m / 2.0);
  }

  /** A function has at most one slope at a place. */
  lemma SlopeIsUnique(fn: real -> real, x: real, s: real, t: real)
    requires HasSlope(fn, x, s) && HasSlope(fn, x, t)
    ensures s == t
  {
    hide Product;
    if s != t {
      var e := Magnitude(s - t) / 4.0;
      assert Close(fn, x, s, e) && Close(fn, x, t, e);
      var c :| c > 0.0 && Near(fn, x, s, e, c);
      var d :| d > 0.0 && Near(fn, x, t, e, d);
      var h := Min(c, d) / 2.0;
      var y := x + h;
      var a, b := fn(y) - fn(x) - Product(s, y - x), fn(y) - fn(x) - Product(t, y - x);
      assert Magnitude(a) <= Product(e, h) && Magnitude(b) <= Product(e, h);
      SumMagnitude(a, -b);
      TooFar(s, t, h);
    }
  }
}
