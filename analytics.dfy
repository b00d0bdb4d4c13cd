/**
 * The analytics engine of the dashboard (src/lib/analytics.ts): Pearson
 * correlation with a least-squares line, its interpretation, the baseload of an
 * hourly profile, the weather reading of an anomaly, and the scatter and
 * regression-line data of the correlation chart.
 */
module Analytics {
  import opened Wrappers
  import opened Seqs
  import opened Records
  import opened Statistics
  import opened Sorting

  // ---------------------------------------------------------------------------
  // calculateTempEnergyCorrelation

  datatype CorrelationResult = CorrelationResult(r: real, rSquared: real, slope: real, intercept: real, n: int)

  /** The filter of calculateTempEnergyCorrelation: a temperature and an energy reading are present. */
  predicate HasReadings(d: HourlyTimeseries) {
    d.temp.Some? && d.energyKwh.Some?
  }

  /** The records the correlation is computed from, in input order. */
  function ValidData(data: seq<HourlyTimeseries>): seq<HourlyTimeseries> {
    Filter(data, HasReadings)
  }

  /** `validData.map((d) => d.temp!)`. */
  function Temps(rows: seq<HourlyTimeseries>): (xs: seq<real>)
    requires forall i :: 0 <= i < |rows| ==> HasReadings(rows[i])
    ensures |xs| == |rows|
  {
    seq(|rows|, i requires 0 <= i < |rows| && HasReadings(rows[i]) => rows[i].temp.value)
  }

  /** `validData.map((d) => d.energy_kwh)`. */
  function Energies(rows: seq<HourlyTimeseries>): (ys: seq<real>)
    requires forall i :: 0 <= i < |rows| ==> HasReadings(rows[i])
    ensures |ys| == |rows|
  {
    seq(|rows|, i requires 0 <= i < |rows| && HasReadings(rows[i]) => rows[i].energyKwh.value)
  }

  /** n, sumX, sumY, sumXY, sumX2 and sumY2 over the valid records. */
  function DataSums(data: seq<HourlyTimeseries>): (s: Sums)
    ensures s.n == |ValidData(data)| as real
  {
    var valid := ValidData(data);
    AccumulateCount(Temps(valid), Energies(valid));
    Accumulate(Temps(valid), Energies(valid))
  }

  /** The argument of `Math.sqrt`: `(n * sumX2 - sumX * sumX) * (n * sumY2 - sumY * sumY)`. */
  function Radicand(data: seq<HourlyTimeseries>): real {
    Dxx(DataSums(data)) * Dyy(DataSums(data))
  }

  /** `root * root == x` with `root >= 0` makes `root` zero exactly when `x` is. */
  lemma RootZero(root: real, x: real)
    requires root >= 0.0 && root * root == x
    ensures root == 0.0 <==> x == 0.0
  {
    if root > 0.0 {
      SquareMonotone(0.0, root);
    }
  }

  /**
   * The coefficients of lines 34-48 from the sums of enough records; `root`
   * is the square root of the product of the two dispersions.
   */
  function Fit(s: Sums, count: int, root: real): (res: Option<CorrelationResult>)
    requires s.n != 0.0 && root >= 0.0 && root * root == Dxx(s) * Dyy(s)
    ensures res.None? <==> Dxx(s) * Dyy(s) == 0.0
    ensures res.Some? ==> res.value.n == count
  {
    RootZero(root, Dxx(s) * Dyy(s));
    var numerator := Cxy(s);
    var denominator := root;
    if denominator == 0.0 then None
    else
      var r := numerator / denominator;
      var slope := numerator / Dxx(s);
      var intercept := (s.sumY - slope * s.sumX) / s.n;
      Some(CorrelationResult(r, r * r, slope, intercept, count))
  }

  /**
   * Pearson's r and the least-squares line of energy on temperature over the
   * records with both readings. `root` is the value `Math.sqrt` returns for
   * the radicand; the sums are exact reals.
   */
  function CalculateTempEnergyCorrelation(data: seq<HourlyTimeseries>, root: real): (res: Option<CorrelationResult>)
    requires root >= 0.0 && root * root == Radicand(data)
    ensures res.None? <==> |ValidData(data)| < 10 || Radicand(data) == 0.0
    ensures res.Some? ==> res.value.n == |ValidData(data)| && res.value.n >= 10
  {
    var valid := ValidData(data);
    if |valid| < 10 then None
    else Fit(DataSums(data), |valid|, root)
  }

  /** The algebra of a ratio c / root with root^2 = d * e >= c^2. */
  lemma RatioFacts(c: real, d: real, e: real, root: real)
    requires d > 0.0 && root > 0.0 && root * root == d * e && c * c <= d * e
    ensures -1.0 <= c / root <= 1.0
    ensures (c / root) * (c / root) * (d * e) == c * c
    ensures (c / d > 0.0 <==> c / root > 0.0) && (c / d < 0.0 <==> c / root < 0.0)
  {
    SquareBound(c, root);
    assert c / root * root == c;
  }

  /** Given Cauchy-Schwarz for the sums, a fit is a correlation: |r| <= 1, rSquared = r^2, slope and r agree in sign. */
  lemma FitBounds(s: Sums, count: int, root: real)
    requires s.n != 0.0 && root >= 0.0 && root * root == Dxx(s) * Dyy(s)
    requires Dxx(s) >= 0.0 && Dyy(s) >= 0.0
    requires Dxx(s) > 0.0 ==> Cxy(s) * Cxy(s) <= Dxx(s) * Dyy(s)
    requires Fit(s, count, root).Some?
    ensures var c := Fit(s, count, root).value;
            && c.rSquared == c.r * c.r
            && -1.0 <= c.r <= 1.0
            && c.rSquared * (Dxx(s) * Dyy(s)) == Cxy(s) * Cxy(s)
            && (c.slope > 0.0 <==> c.r > 0.0) && (c.slope < 0.0 <==> c.r < 0.0)
  {
    RootZero(root, Dxx(s) * Dyy(s));
    RatioFacts(Cxy(s), Dxx(s), Dyy(s), root);
  }

  /**
   * On success the coefficient is a correlation: r^2 is rSquared, r lies in
   * [-1, 1], rSquared times the radicand is the squared numerator, and the
   * slope has the sign of r.
   */
  lemma CorrelationBounds(data: seq<HourlyTimeseries>, root: real)
    requires root >= 0.0 && root * root == Radicand(data)
    requires CalculateTempEnergyCorrelation(data, root).Some?
    ensures var c := CalculateTempEnergyCorrelation(data, root).value;
            && c.rSquared == c.r * c.r
            && -1.0 <= c.r <= 1.0
            && c.rSquared * Radicand(data) == Cxy(DataSums(data)) * Cxy(DataSums(data))
            && (c.slope > 0.0 <==> c.r > 0.0) && (c.slope < 0.0 <==> c.r < 0.0)
  {
    var s, count := DataSums(data), |ValidData(data)|;
    DataSumsBounds(data, s);
    FitBounds(s, count, root);
  }

  /** The dispersions of the valid records are non-negative and bound the squared covariance. */
  lemma DataSumsBounds(data: seq<HourlyTimeseries>, s: Sums)
    requires s == DataSums(data)
    ensures Dxx(s) >= 0.0 && Dyy(s) >= 0.0
    ensures Dxx(s) > 0.0 ==> Cxy(s) * Cxy(s) <= Dxx(s) * Dyy(s)
  {
    var valid := ValidData(data);
    var xs, ys := Temps(valid), Energies(valid);
    assert s == Accumulate(xs, ys);
    DispersionsNonNegative(xs, ys, s);
    if Dxx(s) > 0.0 {
      CauchySchwarz(xs, ys, s);
    }
  }

  /** The intercept of lines 45-46 puts the mean point on the line. */
  lemma MeanIdentity(slope: real, sx: real, sy: real, n: real)
    requires n != 0.0
    ensures slope * (sx / n) + (sy - slope * sx) / n == sy / n
  {
    assert slope * (sx / n) == (slope * sx) / n;
  }

  /** The fitted line passes through the means: slope * mean(x) + intercept == mean(y). */
  lemma RegressionThroughMeans(data: seq<HourlyTimeseries>, root: real)
    requires root >= 0.0 && root * root == Radicand(data)
    requires CalculateTempEnergyCorrelation(data, root).Some?
    ensures var c := CalculateTempEnergyCorrelation(data, root).value;
            var s := DataSums(data);
            c.slope * (s.sumX / c.n as real) + c.intercept == s.sumY / c.n as real
  {
    var s := DataSums(data);
    var c := CalculateTempEnergyCorrelation(data, root).value;
    MeanIdentity(c.slope, s.sumX, s.sumY, s.n);
  }

  /** The result depends on the data only through its valid records. */
  lemma SameValidData(d1: seq<HourlyTimeseries>, d2: seq<HourlyTimeseries>, root: real)
    requires ValidData(d1) == ValidData(d2)
    requires root >= 0.0 && root * root == Radicand(d1)
    ensures Radicand(d1) == Radicand(d2)
    ensures CalculateTempEnergyCorrelation(d1, root) == CalculateTempEnergyCorrelation(d2, root)
  {
    assert DataSums(d1) == DataSums(d2);
  }

  /** A record without both readings, inserted anywhere, changes nothing. */
  lemma InvalidRecordIgnored(a: seq<HourlyTimeseries>, x: HourlyTimeseries, b: seq<HourlyTimeseries>, root: real)
    requires !HasReadings(x)
    requires root >= 0.0 && root * root == Radicand(a + [x] + b)
    ensures Radicand(a + b) == Radicand(a + [x] + b)
    ensures CalculateTempEnergyCorrelation(a + [x] + b, root) == CalculateTempEnergyCorrelation(a + b, root)
  {
    FilterAppend(a + [x], b, HasReadings);
    FilterAppend(a, [x], HasReadings);
    FilterAppend(a, b, HasReadings);
    FilterCons([x], HasReadings);
    FilterNil([x][1..], HasReadings);
    assert ValidData(a + [x] + b) == ValidData(a + b);
    SameValidData(a + [x] + b, a + b, root);
  }

  /** Every record with both readings has energy a * temp + b. */
  predicate Linear(data: seq<HourlyTimeseries>, a: real, b: real) {
    forall d :: d in data && HasReadings(d) ==> d.energyKwh.value == a * d.temp.value + b
  }

  /** The ratios of exactly linear sums: root = |a| d, so c / d = a and c / root = sign(a). */
  lemma LinearRatios(c: real, d: real, e: real, root: real, a: real)
    requires d > 0.0 && a != 0.0 && c == a * d && e == a * a * d && root >= 0.0 && root * root == d * e
    ensures root > 0.0 && c / d == a && c / root == (if a > 0.0 then 1.0 else -1.0)
  {
    var m := if a > 0.0 then a else -a;
    var md := m * d;
    assert md > 0.0;
    assert root * root == md * md;
    if root < md {
      SquareMonotone(root, md);
    } else if root > md {
      SquareMonotone(md, root);
    }
    assert root == md;
    assert c == (if a > 0.0 then md else -md);
  }

  /** Sums of points on the line y = a * x + b, with a != 0 and Dxx > 0, fit that line with r = sign(a). */
  lemma FitLinear(s: Sums, count: int, root: real, a: real, b: real)
    requires OnLine(s, a, b) && a != 0.0 && s.n != 0.0 && Dxx(s) > 0.0
    requires root >= 0.0 && root * root == Dxx(s) * Dyy(s)
    ensures Fit(s, count, root).Some?
    ensures Fit(s, count, root).value.slope == a && Fit(s, count, root).value.intercept == b
    ensures Fit(s, count, root).value.r == (if a > 0.0 then 1.0 else -1.0)
  {
    LinearDispersions(s, a, b);
    FitOfLinearSums(s, count, root, a, b);
  }

  /** The fit of sums whose dispersions and first accumulator are those of the line y = a * x + b. */
  lemma FitOfLinearSums(s: Sums, count: int, root: real, a: real, b: real)
    requires a != 0.0 && s.n != 0.0 && Dxx(s) > 0.0
    requires Cxy(s) == a * Dxx(s) && Dyy(s) == a * a * Dxx(s) && s.sumY == a * s.sumX + b * s.n
    requires root >= 0.0 && root * root == Dxx(s) * Dyy(s)
    ensures Fit(s, count, root).Some?
    ensures Fit(s, count, root).value.slope == a && Fit(s, count, root).value.intercept == b
    ensures Fit(s, count, root).value.r == (if a > 0.0 then 1.0 else -1.0)
  {
    LinearCoefficients(Cxy(s), Dxx(s), Dyy(s), root, a, b, s.sumY, s.sumX, s.n);
    FitCoefficients(s, count, root);
  }

  /** The coefficient formulas on sums of a line: slope a, intercept b, and r the sign of a. */
  lemma LinearCoefficients(c: real, d: real, e: real, root: real, a: real, b: real, sumY: real, sumX: real, n: real)
    requires d > 0.0 && a != 0.0 && c == a * d && e == a * a * d && root >= 0.0 && root * root == d * e
    requires n != 0.0 && sumY == a * sumX + b * n
    ensures root > 0.0 && c / d == a && (sumY - c / d * sumX) / n == b
    ensures c / root == (if a > 0.0 then 1.0 else -1.0)
  {
    LinearRatios(c, d, e, root, a);
    InterceptOnLine(sumY, sumX, n, a, b);
  }

  /** The coefficients of a fit with a positive denominator, term by term. */
  lemma FitCoefficients(s: Sums, count: int, root: real)
    requires s.n != 0.0 && root > 0.0 && root * root == Dxx(s) * Dyy(s)
    ensures Fit(s, count, root).Some?
    ensures Fit(s, count, root).value.r == Cxy(s) / root
    ensures Fit(s, count, root).value.slope == Cxy(s) / Dxx(s)
    ensures Fit(s, count, root).value.intercept == (s.sumY - Cxy(s) / Dxx(s) * s.sumX) / s.n
  {
    RootZero(root, Dxx(s) * Dyy(s));
  }

  /** The intercept formula of line 46 recovers b from sums on the line y = a * x + b. */
  lemma InterceptOnLine(sumY: real, sumX: real, n: real, a: real, b: real)
    requires n != 0.0 && sumY == a * sumX + b * n
    ensures (sumY - a * sumX) / n == b
  {
    assert sumY - a * sumX == b * n;
  }

  /**
   * For data on the line energy = a * temp + b, with a != 0 and varying
   * temperatures, the result is the line itself and r is the sign of a.
   */
  lemma LinearDataFit(data: seq<HourlyTimeseries>, a: real, b: real, root: real)
    requires Linear(data, a, b) && a != 0.0
    requires |ValidData(data)| >= 10 && Dxx(DataSums(data)) > 0.0
    requires root >= 0.0 && root * root == Radicand(data)
    ensures CalculateTempEnergyCorrelation(data, root).Some?
    ensures var c := CalculateTempEnergyCorrelation(data, root).value;
            c.slope == a && c.intercept == b && c.r == (if a > 0.0 then 1.0 else -1.0)
  {
    var s, count := DataSums(data), |ValidData(data)|;
    LinearDataOnLine(data, a, b);
    FitLinear(s, count, root, a, b);
  }

  /** The sums of data on the line energy = a * temp + b lie on that line. */
  lemma LinearDataOnLine(data: seq<HourlyTimeseries>, a: real, b: real)
    requires Linear(data, a, b)
    ensures OnLine(DataSums(data), a, b)
  {
    var valid := ValidData(data);
    var xs, ys := Temps(valid), Energies(valid);
    forall i | 0 <= i < |xs| ensures ys[i] == a * xs[i] + b {
      FilterMembership(data, HasReadings, valid[i]);
    }
    AccumulateLinear(xs, ys, a, b);
  }

  // ---------------------------------------------------------------------------
  // interpretCorrelation

  datatype Strength = Strong | Moderate | Weak | NoCorrelation

  datatype Interpretation = Interpretation(strength: Strength, labelText: string, description: string)

  function Abs(r: real): real {
    if r < 0.0 then -r else r
  }

  /** Position of a strength in the order none < weak < moderate < strong. */
  function Rank(s: Strength): nat {
    match s
    case NoCorrelation => 0
    case Weak => 1
    case Moderate => 2
    case Strong => 3
  }

  function Direction(r: real): string {
    if r > 0.0 then "positive" else "negative"
  }

  /** The descriptions interpretCorrelation gives, one per band (two for a strong correlation). */
  const CoolingLoad: string := "Energy consumption increases significantly with temperature (cooling load)"
  const HeatingLoad: string := "Energy consumption increases significantly as temperature drops (heating load)"
  const NotableEffect: string := "Temperature has a notable but not dominant effect on consumption"
  const MinimalImpact: string := "Temperature has minimal impact on this building's energy use"
  const Independent: string := "Energy use is independent of outdoor temperature"

  /** First match on |r|: >= 0.7 strong, >= 0.4 moderate, >= 0.2 weak, otherwise none. */
  function InterpretCorrelation(r: real): Interpretation {
    var absR := Abs(r);
    var direction := Direction(r);
    if absR >= 0.7 then
      Interpretation(Strong, "Strong " + direction, if r > 0.0 then CoolingLoad else HeatingLoad)
    else if absR >= 0.4 then
      Interpretation(Moderate, "Moderate " + direction, NotableEffect)
    else if absR >= 0.2 then
      Interpretation(Weak, "Weak " + direction, MinimalImpact)
    else
      Interpretation(NoCorrelation, "No correlation", Independent)
  }

  /** Each strength is the band of |r| it names. */
  lemma StrengthBands(r: real)
    ensures InterpretCorrelation(r).strength == Strong <==> Abs(r) >= 0.7
    ensures InterpretCorrelation(r).strength == Moderate <==> 0.4 <= Abs(r) < 0.7
    ensures InterpretCorrelation(r).strength == Weak <==> 0.2 <= Abs(r) < 0.4
    ensures InterpretCorrelation(r).strength == NoCorrelation <==> Abs(r) < 0.2
  {
  }

  /** The strength depends on |r| only, and never decreases as |r| grows. */
  lemma StrengthMonotone(r1: real, r2: real)
    requires Abs(r1) <= Abs(r2)
    ensures Rank(InterpretCorrelation(r1).strength) <= Rank(InterpretCorrelation(r2).strength)
  {
  }

  lemma StrengthOfMagnitude(r: real)
    ensures InterpretCorrelation(r).strength == InterpretCorrelation(-r).strength
  {
    assert Abs(r) == Abs(-r);
  }

  /** The labels of a positive correlation. */
  predicate PositiveLabel(l: string) {
    l in {"Strong positive", "Moderate positive", "Weak positive"}
  }

  /** The labels of a negative correlation. */
  predicate NegativeLabel(l: string) {
    l in {"Strong negative", "Moderate negative", "Weak negative"}
  }

  /** The label says "positive" exactly when r > 0 and the correlation is at least weak. */
  lemma LabelDirection(r: real)
    ensures PositiveLabel(InterpretCorrelation(r).labelText) <==> r > 0.0 && Abs(r) >= 0.2
    ensures NegativeLabel(InterpretCorrelation(r).labelText) <==> r <= 0.0 && Abs(r) >= 0.2
    ensures InterpretCorrelation(r).labelText == "No correlation" <==> Abs(r) < 0.2
  {
    var l := InterpretCorrelation(r).labelText;
    LabelKinds();
    if Abs(r) >= 0.7 {
      assert l == if r > 0.0 then "Strong positive" else "Strong negative";
    } else if Abs(r) >= 0.4 {
      assert l == if r > 0.0 then "Moderate positive" else "Moderate negative";
    } else if Abs(r) >= 0.2 {
      assert l == if r > 0.0 then "Weak positive" else "Weak negative";
    } else {
      assert l == "No correlation";
    }
  }

  /** Which of the seven labels are positive and which negative. */
  lemma LabelKinds()
    ensures PositiveLabel("Strong positive") && !NegativeLabel("Strong positive")
    ensures PositiveLabel("Moderate positive") && !NegativeLabel("Moderate positive")
    ensures PositiveLabel("Weak positive") && !NegativeLabel("Weak positive")
    ensures NegativeLabel("Strong negative") && !PositiveLabel("Strong negative")
    ensures NegativeLabel("Moderate negative") && !PositiveLabel("Moderate negative")
    ensures NegativeLabel("Weak negative") && !PositiveLabel("Weak negative")
    ensures !PositiveLabel("No correlation") && !NegativeLabel("No correlation")
  {
    assert "Strong positive"[7] != "Strong negative"[7];
    assert "Moderate positive"[9] != "Moderate negative"[9];
    assert "Weak positive"[5] != "Weak negative"[5];
  }

  // ---------------------------------------------------------------------------
  // calculateBaseload

  /** The result of calculateBaseload; `ratio` is None where the division by a zero peak gives no number. */
  datatype Baseload = Baseload(baseloadKwh: real, peakKwh: real, peakHour: int, ratio: Option<real>)

  function Kwhs(profile: seq<HourlyProfile>): (v: seq<real>)
    ensures |v| == |profile| && forall i :: 0 <= i < |profile| ==> v[i] == profile[i].avgKwh
  {
    seq(|profile|, i requires 0 <= i < |profile| => profile[i].avgKwh)
  }

  function AvgKwh(p: HourlyProfile): real {
    p.avgKwh
  }

  /**
   * The ends of a sorted copy of a profile: the first entry has the smallest
   * avg_kwh, the last the largest, and both are entries of the profile.
   */
  lemma SortedProfileEnds(profile: seq<HourlyProfile>, sorted: seq<HourlyProfile>)
    requires profile != [] && multiset(sorted) == multiset(profile) && SortedBy(sorted, AvgKwh)
    ensures |sorted| == |profile|
    ensures sorted[0].avgKwh == MinOf(Kwhs(profile)) && sorted[|sorted| - 1].avgKwh == MaxOf(Kwhs(profile))
    ensures sorted[0] in profile && sorted[|sorted| - 1] in profile
  {
    assert |sorted| == |multiset(sorted)| == |profile|;
    var low, peak := sorted[0], sorted[|sorted| - 1];
    var kwhs := Kwhs(profile);
    forall i | 0 <= i < |profile| ensures low.avgKwh <= kwhs[i] <= peak.avgKwh {
      assert profile[i] in multiset(sorted);
      var k :| 0 <= k < |sorted| && sorted[k] == profile[i];
      assert AvgKwh(low) <= AvgKwh(sorted[k]) <= AvgKwh(peak);
    }
    assert low in multiset(profile);
    var lo :| 0 <= lo < |profile| && profile[lo] == low;
    assert peak in multiset(profile);
    var hi :| 0 <= hi < |profile| && profile[hi] == peak;
    MinOfUnique(kwhs, low.avgKwh);
    MaxOfUnique(kwhs, peak.avgKwh);
  }

  /**
   * Sorts a copy of the profile by avg_kwh and reads its ends: the baseload is
   * the smallest reading, the peak the largest, with the hour of a peak entry.
   */
  method CalculateBaseload(profile: seq<HourlyProfile>) returns (b: Baseload)
    ensures profile == [] ==> b == Baseload(0.0, 0.0, 0, Some(0.0))
    ensures profile != [] ==>
              && b.baseloadKwh == MinOf(Kwhs(profile))
              && b.peakKwh == MaxOf(Kwhs(profile))
              && (exists i :: 0 <= i < |profile| && profile[i].avgKwh == b.peakKwh && profile[i].hour == b.peakHour)
              && b.ratio == (if b.peakKwh == 0.0 then None else Some(b.baseloadKwh / b.peakKwh))
    ensures b.baseloadKwh <= b.peakKwh
    ensures (forall i :: 0 <= i < |profile| ==> profile[i].avgKwh >= 0.0) && b.peakKwh > 0.0
            ==> b.ratio.Some? && 0.0 <= b.ratio.value <= 1.0
  {
    if |profile| == 0 {
      return Baseload(0.0, 0.0, 0, Some(0.0));
    }
    var sorted := new HourlyProfile[|profile|](i requires 0 <= i < |profile| => profile[i]);
    assert sorted[..] == profile;
    SortByKey(sorted, AvgKwh);
    var low := sorted[0];
    var peakEntry := sorted[sorted.Length - 1];
    var baseloadKwh := low.avgKwh;
    var peakKwh := peakEntry.avgKwh;
    var peakHour := peakEntry.hour;
    var ratio := if peakKwh == 0.0 then None else Some(baseloadKwh / peakKwh);
    ghost var s := sorted[..];
    assert s[0] == low && s[|s| - 1] == peakEntry;
    SortedProfileEnds(profile, s);
    ghost var hi :| 0 <= hi < |profile| && profile[hi] == peakEntry;
    if peakKwh > 0.0 && forall i :: 0 <= i < |profile| ==> profile[i].avgKwh >= 0.0 {
      assert baseloadKwh >= 0.0;
      UnitRatio(baseloadKwh, peakKwh);
    }
    b := Baseload(baseloadKwh, peakKwh, peakHour, ratio);
  }

  /** A ratio of a non-negative value to a larger positive one lies in [0, 1]. */
  lemma UnitRatio(lo: real, hi: real)
    requires 0.0 <= lo <= hi && hi > 0.0
    ensures 0.0 <= lo / hi <= 1.0
  {
    assert lo / hi * hi == lo;
  }

  // ---------------------------------------------------------------------------
  // interpretAnomalyWeather

  datatype Cause = ColdSnap | HeatWave | Precipitation | UnknownCause

  datatype WeatherContext = WeatherContext(cause: Cause, labelText: string)

  /** First match: freezing temperature, then extreme heat, then heavy precipitation. */
  function InterpretAnomalyWeather(a: Anomaly): WeatherContext {
    var temp := a.avgTemp;
    var precip := a.totalPrecip;
    if temp.Some? && temp.value <= 32.0 then WeatherContext(ColdSnap, "Cold snap - likely heating load")
    else if temp.Some? && temp.value >= 85.0 then WeatherContext(HeatWave, "Heat wave - likely cooling load")
    else if precip.Some? && precip.value >= 1.0 then WeatherContext(Precipitation, "Heavy precipitation event")
    else WeatherContext(UnknownCause, "Investigate - no clear weather driver")
  }

  /** A freezing day, whatever its precipitation. */
  predicate Freezing(a: Anomaly) {
    a.avgTemp.Some? && a.avgTemp.value <= 32.0
  }

  predicate Hot(a: Anomaly) {
    a.avgTemp.Some? && a.avgTemp.value >= 85.0
  }

  predicate Wet(a: Anomaly) {
    a.totalPrecip.Some? && a.totalPrecip.value >= 1.0
  }

  /** The cause is the first of freezing, hot and wet that holds; a missing reading satisfies none. */
  lemma CauseCharacterisation(a: Anomaly)
    ensures InterpretAnomalyWeather(a).cause == ColdSnap <==> Freezing(a)
    ensures InterpretAnomalyWeather(a).cause == HeatWave <==> Hot(a)
    ensures InterpretAnomalyWeather(a).cause == Precipitation <==> !Freezing(a) && !Hot(a) && Wet(a)
    ensures InterpretAnomalyWeather(a).cause == UnknownCause <==> !Freezing(a) && !Hot(a) && !Wet(a)
  {
  }

  // ---------------------------------------------------------------------------
  // getScatterData and getRegressionLine

  datatype ScatterPoint = ScatterPoint(temp: real, energyKwh: Option<real>, timestamp: string)

  predicate HasTemp(d: HourlyTimeseries) {
    d.temp.Some?
  }

  function ToPoint(d: HourlyTimeseries): ScatterPoint
    requires HasTemp(d)
  {
    ScatterPoint(d.temp.value, d.energyKwh, d.timestampHour)
  }

  /** One point per record with a temperature, in input order. */
  function GetScatterData(data: seq<HourlyTimeseries>): (pts: seq<ScatterPoint>)
    ensures |pts| == |Filter(data, HasTemp)|
  {
    var kept := Filter(data, HasTemp);
    seq(|kept|, i requires 0 <= i < |kept| => ToPoint(kept[i]))
  }

  /** Scatter data of a concatenation is the concatenation of the scatter data. */
  lemma ScatterAppend(a: seq<HourlyTimeseries>, b: seq<HourlyTimeseries>)
    ensures GetScatterData(a + b) == GetScatterData(a) + GetScatterData(b)
  {
    FilterAppend(a, b, HasTemp);
    var ka, kb := Filter(a, HasTemp), Filter(b, HasTemp);
    var lhs, rhs := GetScatterData(a + b), GetScatterData(a) + GetScatterData(b);
    forall i | 0 <= i < |lhs| ensures lhs[i] == rhs[i] {
      if i < |ka| {
        assert lhs[i] == ToPoint(ka[i]);
      } else {
        assert lhs[i] == ToPoint(kb[i - |ka|]);
      }
    }
  }

  /** A single record gives its point when it has a temperature and nothing otherwise. */
  lemma ScatterSingleton(d: HourlyTimeseries)
    ensures GetScatterData([d]) == if HasTemp(d) then [ToPoint(d)] else []
  {
    FilterCons([d], HasTemp);
    FilterNil([d][1..], HasTemp);
  }

  /** Every record the correlation uses is also a scatter point, so there are at least as many points. */
  lemma ScatterCoversValid(data: seq<HourlyTimeseries>)
    ensures |ValidData(data)| <= |GetScatterData(data)|
  {
    FilterMonotone(data, HasReadings, HasTemp);
  }

  datatype LinePoint = LinePoint(temp: real, predicted: real)

  function Temperatures(points: seq<ScatterPoint>): (t: seq<real>)
    ensures |t| == |points| && forall i :: 0 <= i < |points| ==> t[i] == points[i].temp
  {
    seq(|points|, i requires 0 <= i < |points| => points[i].temp)
  }

  function Predict(c: CorrelationResult, t: real): LinePoint {
    LinePoint(t, c.slope * t + c.intercept)
  }

  /** The fitted line at the lowest and the highest temperature, or [] without points. */
  function GetRegressionLine(points: seq<ScatterPoint>, c: CorrelationResult): (line: seq<LinePoint>)
    ensures points == [] <==> line == []
    ensures points != [] ==> |line| == 2
  {
    if points == [] then []
    else
      var temps := Temperatures(points);
      var minTemp := MinOf(temps);
      var maxTemp := MaxOf(temps);
      [Predict(c, minTemp), Predict(c, maxTemp)]
  }

  /**
   * The two points of the regression line sit at the lowest and the highest
   * temperature of the input, which bound every point.
   */
  lemma RegressionLineEnds(points: seq<ScatterPoint>, c: CorrelationResult, line: seq<LinePoint>)
    requires points != [] && line == GetRegressionLine(points, c)
    ensures line[0].temp <= line[1].temp
    ensures forall i :: 0 <= i < |points| ==> line[0].temp <= points[i].temp <= line[1].temp
    ensures exists i :: 0 <= i < |points| && points[i].temp == line[0].temp
    ensures exists i :: 0 <= i < |points| && points[i].temp == line[1].temp
  {
    var temps := Temperatures(points);
    var lo, hi := MinOf(temps), MaxOf(temps);
    assert line[0].temp == lo && line[1].temp == hi;
    TemperatureRange(points, lo, hi);
  }

  /** Both points of the regression line lie on the fitted line. */
  lemma RegressionLineOnFit(points: seq<ScatterPoint>, c: CorrelationResult, line: seq<LinePoint>)
    requires points != [] && line == GetRegressionLine(points, c)
    ensures forall k :: 0 <= k < |line| ==> line[k].predicted == c.slope * line[k].temp + c.intercept
  {
    var temps := Temperatures(points);
    var lo, hi := MinOf(temps), MaxOf(temps);
    assert line == [Predict(c, lo), Predict(c, hi)];
    PredictedPoints(c, lo, hi, line);
  }

  /** Points predicted by a fit lie on its line. */
  lemma PredictedPoints(c: CorrelationResult, lo: real, hi: real, line: seq<LinePoint>)
    requires line == [Predict(c, lo), Predict(c, hi)]
    ensures forall k :: 0 <= k < |line| ==> line[k].predicted == c.slope * line[k].temp + c.intercept
  {
  }

  /** The lowest and highest temperatures of the points bound every point and are both taken. */
  lemma TemperatureRange(points: seq<ScatterPoint>, lo: real, hi: real)
    requires points != [] && lo == MinOf(Temperatures(points)) && hi == MaxOf(Temperatures(points))
    ensures lo <= hi
    ensures forall i :: 0 <= i < |points| ==> lo <= points[i].temp <= hi
    ensures exists i :: 0 <= i < |points| && points[i].temp == lo
    ensures exists i :: 0 <= i < |points| && points[i].temp == hi
  {
    var temps := Temperatures(points);
    assert lo <= temps[0] <= hi;
    var a :| 0 <= a < |temps| && temps[a] == lo;
    var b :| 0 <= b < |temps| && temps[b] == hi;
    assert points[a].temp == lo && points[b].temp == hi;
  }
}
