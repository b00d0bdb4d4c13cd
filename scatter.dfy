/**
 * The temperature/energy scatter chart (src/components/charts/CorrelationScatter.tsx):
 * the 21 samples of the fitted line, the trend icon, and the guard that shows
 * a notice instead of the chart when there are too few points.
 */
module Scatter {
  import opened Wrappers
  import opened Records
  import opened Statistics
  import opened Analytics

  /** The number of intervals the temperature range is cut into. */
  const Intervals: int := 20

  /** The samples of the fitted line drawn over the points: none without a fit or without points. */
  function RegressionData(correlation: Option<CorrelationResult>, points: seq<ScatterPoint>): (line: seq<LinePoint>)
    ensures line == [] <==> correlation.None? || points == []
    ensures line != [] ==> |line| == Intervals + 1
  {
    if correlation.None? || points == [] then []
    else
      var temps := Temperatures(points);
      var minTemp := MinOf(temps);
      var maxTemp := MaxOf(temps);
      var step := (maxTemp - minTemp) / (Intervals as real);
      seq(Intervals + 1, i => Predict(correlation.value, SampleTemp(minTemp, step, i)))
  }

  /** `minTemp + step * i`. */
  function SampleTemp(lo: real, step: real, i: int): real {
    lo + step * (i as real)
  }

  /** A non-negative factor keeps the order of the other. */
  lemma ScaleMonotone(step: real, a: real, b: real)
    requires step >= 0.0 && a <= b
    ensures step * a <= step * b
  {
    PositiveProductOrZero(step, b - a);
  }

  lemma PositiveProductOrZero(x: real, y: real)
    requires x >= 0.0 && y >= 0.0
    ensures x * y >= 0.0
  {
    if x > 0.0 {
      PositiveProduct(x, y);
    }
  }

  /**
   * The samples start at lo, end at hi, are evenly spaced and non-decreasing,
   * stay inside [lo, hi], and each lies on the fitted line of c.
   */
  predicate EvenlySampled(line: seq<LinePoint>, lo: real, hi: real, c: CorrelationResult) {
    && |line| == Intervals + 1
    && line[0].temp == lo && line[Intervals].temp == hi
    && (forall i :: 0 <= i < Intervals ==> line[i + 1].temp - line[i].temp == (hi - lo) / (Intervals as real))
    && (forall i, j :: 0 <= i <= j <= Intervals ==> line[i].temp <= line[j].temp)
    && (forall i :: 0 <= i <= Intervals ==> lo <= line[i].temp <= hi)
    && (forall i :: 0 <= i <= Intervals ==> line[i].predicted == c.slope * line[i].temp + c.intercept)
  }

  /** With a fit and at least one point, the line is sampled evenly over the lowest to the highest temperature. */
  lemma RegressionSamples(c: CorrelationResult, points: seq<ScatterPoint>)
    requires points != []
    ensures var temps := Temperatures(points);
            EvenlySampled(RegressionData(Some(c), points), MinOf(temps), MaxOf(temps), c)
  {
    var line, temps := RegressionData(Some(c), points), Temperatures(points);
    var lo, hi := MinOf(temps), MaxOf(temps);
    assert lo <= temps[0] <= hi;
    EvenSamples(line, lo, hi, c);
  }

  /** The sample arithmetic for one pair of indices, with step = (hi - lo) / 20. */
  lemma SampleFacts(lo: real, hi: real, step: real, i: int, j: int)
    requires lo <= hi && step == (hi - lo) / (Intervals as real) && 0 <= i <= j <= Intervals
    ensures SampleTemp(lo, step, 0) == lo && SampleTemp(lo, step, Intervals) == hi
    ensures SampleTemp(lo, step, i) <= SampleTemp(lo, step, j)
    ensures lo <= SampleTemp(lo, step, i) <= hi
    ensures SampleTemp(lo, step, i + 1) - SampleTemp(lo, step, i) == step
  {
    SampleEnds(lo, hi, step);
    SampleOrder(lo, step, i, j);
    SampleOrder(lo, step, 0, i);
    SampleOrder(lo, step, i, Intervals);
    SampleSpacing(lo, step, i);
  }

  /** The first sample is lo and the last is hi. */
  lemma SampleEnds(lo: real, hi: real, step: real)
    requires step == (hi - lo) / (Intervals as real)
    ensures SampleTemp(lo, step, 0) == lo && SampleTemp(lo, step, Intervals) == hi
  {
    assert (Intervals as real) == 20.0;
    assert step * 20.0 == hi - lo;
  }

  /** With a non-negative step, later samples are not smaller. */
  lemma SampleOrder(lo: real, step: real, i: int, j: int)
    requires step >= 0.0 && i <= j
    ensures SampleTemp(lo, step, i) <= SampleTemp(lo, step, j)
  {
    ScaleMonotone(step, i as real, j as real);
  }

  /** Consecutive samples are one step apart. */
  lemma SampleSpacing(lo: real, step: real, i: int)
    ensures SampleTemp(lo, step, i + 1) - SampleTemp(lo, step, i) == step
  {
    var x := i as real;
    assert (i + 1) as real == x + 1.0;
    assert step * (x + 1.0) == step * x + step;
  }

  /** The samples of RegressionData, index by index. */
  lemma EvenSamples(line: seq<LinePoint>, lo: real, hi: real, c: CorrelationResult)
    requires lo <= hi && |line| == Intervals + 1
    requires forall i :: 0 <= i <= Intervals ==>
               line[i] == Predict(c, SampleTemp(lo, (hi - lo) / (Intervals as real), i))
    ensures EvenlySampled(line, lo, hi, c)
  {
    var step := (hi - lo) / (Intervals as real);
    assert line[0] == Predict(c, SampleTemp(lo, step, 0));
    assert line[Intervals] == Predict(c, SampleTemp(lo, step, Intervals));
    SampleFacts(lo, hi, step, 0, 0);
    forall i, j | 0 <= i <= j <= Intervals
      ensures line[i].temp <= line[j].temp && lo <= line[i].temp <= hi
    {
      assert line[i] == Predict(c, SampleTemp(lo, step, i));
      assert line[j] == Predict(c, SampleTemp(lo, step, j));
      SampleFacts(lo, hi, step, i, j);
    }
    forall i | 0 <= i < Intervals ensures line[i + 1].temp - line[i].temp == step {
      assert line[i] == Predict(c, SampleTemp(lo, step, i));
      assert line[i + 1] == Predict(c, SampleTemp(lo, step, i + 1));
      SampleFacts(lo, hi, step, i, i);
    }
    forall i | 0 <= i <= Intervals ensures line[i].predicted == c.slope * line[i].temp + c.intercept {
      assert line[i] == Predict(c, SampleTemp(lo, step, i));
    }
  }

  // ---------------------------------------------------------------------------
  // getStrengthIcon

  datatype Icon = TrendingUp | TrendingDown | Minus

  /** Up above r = 0.3, down below r = -0.3, flat in between or without a fit. */
  function StrengthIcon(correlation: Option<CorrelationResult>): (icon: Icon)
    ensures icon == TrendingUp <==> correlation.Some? && correlation.value.r > 0.3
    ensures icon == TrendingDown <==> correlation.Some? && correlation.value.r < -0.3
  {
    if correlation.None? then Minus
    else if correlation.value.r > 0.3 then TrendingUp
    else if correlation.value.r < -0.3 then TrendingDown
    else Minus
  }

  /** A trend arrow always agrees with the label's direction, and appears only for at least a weak correlation. */
  lemma IconAgreesWithLabel(c: CorrelationResult)
    ensures StrengthIcon(Some(c)) == TrendingUp ==>
              Direction(c.r) == "positive" && Rank(InterpretCorrelation(c.r).strength) >= Rank(Weak)
    ensures StrengthIcon(Some(c)) == TrendingDown ==>
              Direction(c.r) == "negative" && Rank(InterpretCorrelation(c.r).strength) >= Rank(Weak)
    ensures InterpretCorrelation(c.r).strength == NoCorrelation ==> StrengthIcon(Some(c)) == Minus
  {
    StrengthBands(c.r);
  }

  // ---------------------------------------------------------------------------
  // The insufficient-data guard

  /** What the component renders: the notice, or the chart with its fit, icon, points and line. */
  datatype View =
    | InsufficientData
    | Chart(correlation: Option<CorrelationResult>, icon: Icon, points: seq<ScatterPoint>, line: seq<LinePoint>)

  /** Fewer than 10 scatter points give the notice; otherwise the chart. */
  function ScatterView(data: seq<HourlyTimeseries>, root: real): (v: View)
    requires root >= 0.0 && root * root == Radicand(data)
    ensures v.InsufficientData? <==> |GetScatterData(data)| < 10
    ensures v.Chart? ==> v.points == GetScatterData(data)
  {
    var correlation := CalculateTempEnergyCorrelation(data, root);
    var points := GetScatterData(data);
    if |points| < 10 then InsufficientData
    else Chart(correlation, StrengthIcon(correlation), points, RegressionData(correlation, points))
  }

  /** When the notice is shown there was no fit either: the notice never hides a correlation. */
  lemma NoticeHidesNoFit(data: seq<HourlyTimeseries>, root: real)
    requires root >= 0.0 && root * root == Radicand(data)
    requires ScatterView(data, root).InsufficientData?
    ensures CalculateTempEnergyCorrelation(data, root).None?
  {
    ScatterCoversValid(data);
  }

  /** A chart with a fit always draws the 21-sample line; a chart without one draws no line and a flat icon. */
  lemma ChartLine(data: seq<HourlyTimeseries>, root: real)
    requires root >= 0.0 && root * root == Radicand(data)
    requires ScatterView(data, root).Chart?
    ensures var v := ScatterView(data, root);
            && (v.correlation.Some? ==> |v.line| == Intervals + 1)
            && (v.correlation.None? ==> v.line == [] && v.icon == Minus)
  {
  }
}
