/**
 * The running sums of Pearson's formula over two series of reals, the
 * dispersion terms built from them, and the inequality (Cauchy-Schwarz)
 * that bounds the correlation coefficient.
 */
module Statistics {

  /** The accumulators n, sumX, sumY, sumXY, sumX2 and sumY2 of two paired series. */
  datatype Sums = Sums(n: real, sumX: real, sumY: real, sumXY: real, sumX2: real, sumY2: real)

  /** The contribution of one pair (x, y) to every accumulator. */
  function Point(x: real, y: real): Sums {
    Sums(1.0, x, y, x * y, x * x, y * y)
  }

  function Add(a: Sums, b: Sums): Sums {
    Sums(a.n + b.n, a.sumX + b.sumX, a.sumY + b.sumY, a.sumXY + b.sumXY, a.sumX2 + b.sumX2, a.sumY2 + b.sumY2)
  }

  /**
   * The five reductions over `temps` and `energies`, and their common length.
   * The recursion runs through SumsOf, so that a proof that mentions the sums
   * of a series sees them unfolded only where it asks for AccumulateCons.
   */
  function Accumulate(xs: seq<real>, ys: seq<real>): Sums
    requires |xs| == |ys|
    decreases |xs|, 1
  {
    SumsOf(xs, ys)
  }

  function SumsOf(xs: seq<real>, ys: seq<real>): Sums
    requires |xs| == |ys|
    decreases |xs|, 0
  {
    if xs == [] then Sums(0.0, 0.0, 0.0, 0.0, 0.0, 0.0)
    else Add(Point(xs[0], ys[0]), Accumulate(xs[1..], ys[1..]))
  }

  /** The sums of an empty series are all zero. */
  lemma AccumulateNil(xs: seq<real>, ys: seq<real>)
    requires |xs| == |ys| && xs == []
    ensures Accumulate(xs, ys) == Sums(0.0, 0.0, 0.0, 0.0, 0.0, 0.0)
  {
    assert Accumulate(xs, ys) == SumsOf(xs, ys);
  }

  /** The sums of a non-empty series are its first pair's contribution plus the sums of the rest. */
  lemma AccumulateCons(xs: seq<real>, ys: seq<real>)
    requires |xs| == |ys| && xs != []
    ensures Accumulate(xs, ys) == Add(Point(xs[0], ys[0]), Accumulate(xs[1..], ys[1..]))
  {
    assert Accumulate(xs, ys) == SumsOf(xs, ys);
  }

  /** `n * sumX2 - sumX * sumX`: n^2 times the variance of x. */
  function Dxx(s: Sums): real {
    s.n * s.sumX2 - s.sumX * s.sumX
  }

  /** `n * sumY2 - sumY * sumY`: n^2 times the variance of y. */
  function Dyy(s: Sums): real {
    s.n * s.sumY2 - s.sumY * s.sumY
  }

  /** `n * sumXY - sumX * sumY`: n^2 times the covariance of x and y. */
  function Cxy(s: Sums): real {
    s.n * s.sumXY - s.sumX * s.sumY
  }

  /** The sum of squares of p * x_j + q * y_j + c over the series, written in its accumulators. */
  function Spread(s: Sums, p: real, q: real, c: real): real {
    p * p * s.sumX2 + 2.0 * p * q * s.sumXY + q * q * s.sumY2
    + 2.0 * c * (p * s.sumX + q * s.sumY) + s.n * c * c
  }

  /** The count accumulator is the length of the series. */
  lemma {:induction false} AccumulateCount(xs: seq<real>, ys: seq<real>)
    requires |xs| == |ys|
    ensures Accumulate(xs, ys).n == |xs| as real
  {
    if xs == [] {
      AccumulateNil(xs, ys);
    } else {
      AccumulateCons(xs, ys);
      AccumulateCount(xs[1..], ys[1..]);
    }
  }

  /** Adding a pair adds its own square to the spread. */
  lemma SpreadStep(s: Sums, t: Sums, x: real, y: real, p: real, q: real, c: real)
    requires t == Add(Point(x, y), s)
    ensures Spread(t, p, q, c) == (p * x + q * y + c) * (p * x + q * y + c) + Spread(s, p, q, c)
  {
  }

  /** Adding a pair to sums of non-negative spread keeps the spread non-negative. */
  lemma SpreadStepNonNegative(s: Sums, t: Sums, x: real, y: real, p: real, q: real, c: real)
    requires t == Add(Point(x, y), s) && Spread(s, p, q, c) >= 0.0
    ensures Spread(t, p, q, c) >= 0.0
  {
    SpreadStep(s, t, x, y, p, q, c);
    SquareNonNegative(p * x + q * y + c);
  }

  lemma SquareNonNegative(e: real)
    ensures e * e >= 0.0
  {
  }

  /** The spread of real data, a sum of squares, is never negative. */
  lemma {:induction false} SpreadNonNegative(xs: seq<real>, ys: seq<real>, p: real, q: real, c: real)
    requires |xs| == |ys|
    ensures Spread(Accumulate(xs, ys), p, q, c) >= 0.0
  {
    if xs == [] {
      AccumulateNil(xs, ys);
    } else {
      AccumulateCons(xs, ys);
      SpreadNonNegative(xs[1..], ys[1..], p, q, c);
      SpreadStepNonNegative(Accumulate(xs[1..], ys[1..]), Accumulate(xs, ys), xs[0], ys[0], p, q, c);
    }
  }

  /** At the centre c = -(p * sumX + q * sumY) / n, n times the spread is the quadratic form of the dispersions. */
  lemma SpreadAtCentre(s: Sums, p: real, q: real, c: real)
    requires s.n > 0.0 && c * s.n == -(p * s.sumX + q * s.sumY)
    ensures s.n * Spread(s, p, q, c) == p * p * Dxx(s) + 2.0 * p * q * Cxy(s) + q * q * Dyy(s)
  {
  }

  /** The quadratic form p^2 Dxx + 2 p q Cxy + q^2 Dyy of the dispersion terms. */
  function Quadratic(s: Sums, p: real, q: real): real {
    p * p * Dxx(s) + 2.0 * p * q * Cxy(s) + q * q * Dyy(s)
  }

  /** For all p and q the quadratic form of real data is non-negative: it is n times a sum of squares. */
  lemma {:induction false} QuadraticNonNegative(xs: seq<real>, ys: seq<real>, p: real, q: real)
    requires |xs| == |ys|
    ensures Quadratic(Accumulate(xs, ys), p, q) >= 0.0
  {
    var s := Accumulate(xs, ys);
    AccumulateCount(xs, ys);
    if xs != [] {
      var c := -(p * s.sumX + q * s.sumY) / s.n;
      SpreadNonNegative(xs, ys, p, q, c);
      SpreadAtCentre(s, p, q, c);
      PositiveProduct(s.n, Spread(s, p, q, c));
    }
  }

  lemma PositiveProduct(a: real, b: real)
    requires a > 0.0 && b >= 0.0
    ensures a * b >= 0.0
  {
  }

  lemma StrictProduct(a: real, b: real)
    requires a > 0.0 && b > 0.0
    ensures a * b > 0.0
  {
  }

  /** Squaring is strictly increasing on the non-negative reals. */
  lemma SquareMonotone(x: real, y: real)
    requires 0.0 <= x < y
    ensures x * x < y * y
  {
    StrictProduct(y - x, y + x);
    assert y * y - x * x == (y - x) * (y + x);
  }

  /** The quadratic form at (1, 0) and (0, 1) is Dxx and Dyy. */
  lemma QuadraticAtUnits(s: Sums)
    ensures Quadratic(s, 1.0, 0.0) == Dxx(s) && Quadratic(s, 0.0, 1.0) == Dyy(s)
  {
  }

  /** The dispersion of each series is non-negative. */
  lemma DispersionsNonNegative(xs: seq<real>, ys: seq<real>, s: Sums)
    requires |xs| == |ys| && s == Accumulate(xs, ys)
    ensures Dxx(s) >= 0.0 && Dyy(s) >= 0.0
  {
    QuadraticNonNegative(xs, ys, 1.0, 0.0);
    QuadraticNonNegative(xs, ys, 0.0, 1.0);
    QuadraticAtUnits(s);
  }

  /** A non-negative quadratic form with Dxx > 0 has Cxy^2 <= Dxx * Dyy: evaluate it at (Cxy, -Dxx). */
  lemma FormBound(s: Sums)
    requires Dxx(s) > 0.0 && Quadratic(s, Cxy(s), -Dxx(s)) >= 0.0
    ensures Cxy(s) * Cxy(s) <= Dxx(s) * Dyy(s)
  {
    var d, c, e := Dxx(s), Cxy(s), Dyy(s);
    assert Quadratic(s, c, -d) == d * (d * e - c * c);
  }

  /** Cauchy-Schwarz for the dispersion terms: Cxy^2 <= Dxx * Dyy when x varies. */
  lemma CauchySchwarz(xs: seq<real>, ys: seq<real>, s: Sums)
    requires |xs| == |ys| && s == Accumulate(xs, ys) && Dxx(s) > 0.0
    ensures Cxy(s) * Cxy(s) <= Dxx(s) * Dyy(s)
  {
    QuadraticNonNegative(xs, ys, Cxy(s), -Dxx(s));
    FormBound(s);
  }

  /** The accumulators of data on the line y = a * x + b: the y sums are determined by the x sums. */
  predicate OnLine(s: Sums, a: real, b: real) {
    && s.sumY == a * s.sumX + b * s.n
    && s.sumXY == a * s.sumX2 + b * s.sumX
    && s.sumY2 == a * a * s.sumX2 + 2.0 * a * b * s.sumX + b * b * s.n
  }

  /** Adding a pair on the line keeps the accumulators on it. */
  lemma LinearStep(s: Sums, t: Sums, x: real, y: real, a: real, b: real)
    requires t == Add(Point(x, y), s) && y == a * x + b && OnLine(s, a, b)
    ensures OnLine(t, a, b)
  {
  }

  /** The accumulators of data lying on the line y = a * x + b. */
  lemma {:induction false} AccumulateLinear(xs: seq<real>, ys: seq<real>, a: real, b: real)
    requires |xs| == |ys| && forall i :: 0 <= i < |xs| ==> ys[i] == a * xs[i] + b
    ensures OnLine(Accumulate(xs, ys), a, b)
  {
    if xs == [] {
      AccumulateNil(xs, ys);
    } else {
      assert forall i :: 0 <= i < |xs| - 1 ==> ys[1..][i] == a * xs[1..][i] + b by {
        forall i | 0 <= i < |xs| - 1 ensures ys[1..][i] == a * xs[1..][i] + b {
          assert ys[1..][i] == ys[i + 1] && xs[1..][i] == xs[i + 1];
        }
      }
      AccumulateLinear(xs[1..], ys[1..], a, b);
      AccumulateLinearStep(xs, ys, a, b);
    }
  }

  /** A first pair on the line in front of sums on the line keeps them on it. */
  lemma AccumulateLinearStep(xs: seq<real>, ys: seq<real>, a: real, b: real)
    requires |xs| == |ys| && xs != [] && ys[0] == a * xs[0] + b
    requires OnLine(Accumulate(xs[1..], ys[1..]), a, b)
    ensures OnLine(Accumulate(xs, ys), a, b)
  {
    var x, y, rest, all := xs[0], ys[0], Accumulate(xs[1..], ys[1..]), Accumulate(xs, ys);
    AccumulateCons(xs, ys);
    LinearStep(rest, all, x, y, a, b);
  }

  /** On the line y = a * x + b the covariance is a * Dxx and the y dispersion a^2 * Dxx. */
  lemma LinearDispersions(s: Sums, a: real, b: real)
    requires OnLine(s, a, b)
    ensures Cxy(s) == a * Dxx(s) && Dyy(s) == a * a * Dxx(s)
    ensures s.sumY == a * s.sumX + b * s.n
  {
  }

  /** A value that is below or equal to every element and is one of them is the minimum. */
  lemma MinOfUnique(xs: seq<real>, m: real)
    requires xs != [] && (forall i :: 0 <= i < |xs| ==> m <= xs[i]) && (exists i :: 0 <= i < |xs| && xs[i] == m)
    ensures m == MinOf(xs)
  {
  }

  /** A value that is above or equal to every element and is one of them is the maximum. */
  lemma MaxOfUnique(xs: seq<real>, m: real)
    requires xs != [] && (forall i :: 0 <= i < |xs| ==> xs[i] <= m) && (exists i :: 0 <= i < |xs| && xs[i] == m)
    ensures m == MaxOf(xs)
  {
  }

  /** A number whose square is at most root^2 lies in [-root, root]. */
  lemma SquareBound(x: real, root: real)
    requires root > 0.0 && x * x <= root * root
    ensures -root <= x <= root
  {
    var u := if x >= 0.0 then x else -x;
    assert u * u == x * x;
    assert root - u == (root * root - u * u) / (root + u);
  }

  /** The smallest element, `Math.min(...xs)` on a non-empty series. */
  function MinOf(xs: seq<real>): (m: real)
    requires xs != []
    ensures forall i :: 0 <= i < |xs| ==> m <= xs[i]
    ensures exists i :: 0 <= i < |xs| && xs[i] == m
  {
    if |xs| == 1 then xs[0]
    else
      var rest := MinOf(xs[1..]);
      assert forall i :: 1 <= i < |xs| ==> xs[i] == xs[1..][i - 1];
      if xs[0] <= rest then xs[0] else rest
  }

  /** The largest element, `Math.max(...xs)` on a non-empty series. */
  function MaxOf(xs: seq<real>): (m: real)
    requires xs != []
    ensures forall i :: 0 <= i < |xs| ==> xs[i] <= m
    ensures exists i :: 0 <= i < |xs| && xs[i] == m
  {
    if |xs| == 1 then xs[0]
    else
      var rest := MaxOf(xs[1..]);
      assert forall i :: 1 <= i < |xs| ==> xs[i] == xs[1..][i - 1];
      if xs[0] >= rest then xs[0] else rest
  }
}
