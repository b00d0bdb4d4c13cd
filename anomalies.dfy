/**
 * The anomalies page (src/pages/Anomalies.tsx) and its table
 * (src/components/AnomaliesTable.tsx): the list sorted by deviation, the
 * summary figures, the severity tier of a row, and the page a row opens.
 */
module Anomalies {
  import opened Wrappers
  import opened Records
  import opened Statistics
  import opened Sorting

  // ---------------------------------------------------------------------------
  // getAnomalySeverity

  datatype Severity = Low | Medium | High

  function SeverityRank(s: Severity): nat {
    match s
    case Low => 0
    case Medium => 1
    case High => 2
  }

  /** First match: at least 150 % over the median is high, at least 100 % medium, anything else low. */
  function GetAnomalySeverity(pctOver: real): (s: Severity)
    ensures s == High <==> pctOver >= 150.0
    ensures s == Medium <==> 100.0 <= pctOver < 150.0
    ensures s == Low <==> pctOver < 100.0
  {
    if pctOver >= 150.0 then High
    else if pctOver >= 100.0 then Medium
    else Low
  }

  /** The tier never drops as the deviation grows. */
  lemma SeverityMonotone(p1: real, p2: real)
    requires p1 <= p2
    ensures SeverityRank(GetAnomalySeverity(p1)) <= SeverityRank(GetAnomalySeverity(p2))
  {
  }

  // ---------------------------------------------------------------------------
  // The row-click target

  const DeepDivePrefix: string := "/deep-dive?building="

  /** `/deep-dive?building=${buildingId}`, with the id inserted as it is. */
  function DeepDiveLink(buildingId: string): (url: string)
    ensures |url| == |DeepDivePrefix| + |buildingId|
    ensures url[..|DeepDivePrefix|] == DeepDivePrefix && url[|DeepDivePrefix|..] == buildingId
  {
    DeepDivePrefix + buildingId
  }

  /** Different buildings open different pages. */
  lemma DeepDiveLinkInjective(a: string, b: string)
    requires DeepDiveLink(a) == DeepDiveLink(b)
    ensures a == b
  {
    assert a == DeepDiveLink(a)[|DeepDivePrefix|..];
  }

  // ---------------------------------------------------------------------------
  // sortedAnomalies

  function NegatedPct(a: Anomaly): real {
    -a.pctOverMedian
  }

  /** The list is in non-increasing order of pct_over_median. */
  predicate Descending(s: seq<Anomaly>) {
    forall i, j :: 0 <= i < j < |s| ==> s[i].pctOverMedian >= s[j].pctOverMedian
  }

  /**
   * `[...anomalies].sort((a, b) => b.pct_over_median - a.pct_over_median)`, or
   * [] while there is no list: a copy, so the list it came from keeps its order.
   */
  method SortedAnomalies(anomalies: Option<seq<Anomaly>>) returns (sorted: seq<Anomaly>)
    ensures anomalies.None? ==> sorted == []
    ensures anomalies.Some? ==> multiset(sorted) == multiset(anomalies.value) && Descending(sorted)
  {
    if anomalies.None? {
      return [];
    }
    var list := anomalies.value;
    var copy := new Anomaly[|list|](i requires 0 <= i < |list| => list[i]);
    assert copy[..] == list;
    SortByKey(copy, NegatedPct);
    sorted := copy[..];
    forall i, j | 0 <= i < j < |sorted| ensures sorted[i].pctOverMedian >= sorted[j].pctOverMedian {
      assert NegatedPct(sorted[i]) <= NegatedPct(sorted[j]);
    }
  }

  // ---------------------------------------------------------------------------
  // The summary cards

  function Pcts(s: seq<Anomaly>): (p: seq<real>)
    ensures |p| == |s| && forall i :: 0 <= i < |s| ==> p[i] == s[i].pctOverMedian
  {
    seq(|s|, i requires 0 <= i < |s| => s[i].pctOverMedian)
  }

  /** `reduce((acc, a) => acc + a, 0)`: the sum, added from the left. */
  function Sum(xs: seq<real>): real {
    if xs == [] then 0.0 else Sum(xs[..|xs| - 1]) + xs[|xs| - 1]
  }

  datatype Summary = Summary(total: int, highest: real, average: real)

  /** The three cards, shown only for a non-empty list: the count, the first row's deviation, and the mean. */
  function AnomalySummary(sorted: seq<Anomaly>): (s: Option<Summary>)
    ensures s.None? <==> sorted == []
    ensures s.Some? ==> s.value.total == |sorted| >= 1
  {
    if sorted == [] then None
    else Some(Summary(|sorted|, sorted[0].pctOverMedian, Sum(Pcts(sorted)) / (|sorted| as real)))
  }

  /** A sum of n values each between lo and hi lies between n * lo and n * hi. */
  lemma {:induction false} SumBounds(xs: seq<real>, lo: real, hi: real)
    requires forall i :: 0 <= i < |xs| ==> lo <= xs[i] <= hi
    ensures (|xs| as real) * lo <= Sum(xs) <= (|xs| as real) * hi
  {
    if xs != [] {
      var init := xs[..|xs| - 1];
      assert forall i :: 0 <= i < |init| ==> init[i] == xs[i];
      SumBounds(init, lo, hi);
      assert (|xs| as real) * lo == (|init| as real) * lo + lo;
      assert (|xs| as real) * hi == (|init| as real) * hi + hi;
    }
  }

  /** A total between n * lo and n * hi gives a mean between lo and hi. */
  lemma MeanBounds(total: real, n: real, lo: real, hi: real)
    requires n > 0.0 && n * lo <= total <= n * hi
    ensures lo <= total / n <= hi
  {
    assert total / n - lo == (total - n * lo) / n;
    assert hi - total / n == (n * hi - total) / n;
  }

  /** The first row of the sorted copy holds the largest deviation of the list, the last row the smallest. */
  lemma SortedExtremes(anomalies: seq<Anomaly>, sorted: seq<Anomaly>)
    requires anomalies != [] && multiset(sorted) == multiset(anomalies) && Descending(sorted)
    ensures |sorted| == |anomalies|
    ensures sorted[0].pctOverMedian == MaxOf(Pcts(anomalies))
    ensures sorted[|sorted| - 1].pctOverMedian == MinOf(Pcts(anomalies))
  {
    assert |sorted| == |multiset(sorted)| == |anomalies|;
    var first, last := sorted[0], sorted[|sorted| - 1];
    var p := Pcts(anomalies);
    forall j | 0 <= j < |anomalies| ensures last.pctOverMedian <= p[j] <= first.pctOverMedian {
      assert anomalies[j] in multiset(sorted);
      var k :| 0 <= k < |sorted| && sorted[k] == anomalies[j];
    }
    assert first in multiset(anomalies);
    var a :| 0 <= a < |anomalies| && anomalies[a] == first;
    assert last in multiset(anomalies);
    var b :| 0 <= b < |anomalies| && anomalies[b] == last;
    MaxOfUnique(p, first.pctOverMedian);
    MinOfUnique(p, last.pctOverMedian);
  }

  /** The mean of a list in non-increasing order lies between its last and its first deviation. */
  lemma MeanBetweenEnds(sorted: seq<Anomaly>)
    requires sorted != [] && Descending(sorted)
    ensures sorted[|sorted| - 1].pctOverMedian <= Sum(Pcts(sorted)) / (|sorted| as real) <= sorted[0].pctOverMedian
  {
    var hi, lo := sorted[0].pctOverMedian, sorted[|sorted| - 1].pctOverMedian;
    var q := Pcts(sorted);
    assert forall i :: 0 <= i < |q| ==> lo <= q[i] <= hi;
    SumBounds(q, lo, hi);
    MeanBounds(Sum(q), |sorted| as real, lo, hi);
  }

  /**
   * The cards of the sorted copy of a non-empty list: the count of the list,
   * its largest deviation, and a mean between its smallest and largest.
   */
  lemma SummaryOfSorted(anomalies: seq<Anomaly>, sorted: seq<Anomaly>)
    requires anomalies != [] && multiset(sorted) == multiset(anomalies) && Descending(sorted)
    ensures var s := AnomalySummary(sorted);
            && s.Some? && s.value.total == |anomalies|
            && s.value.highest == MaxOf(Pcts(anomalies))
            && MinOf(Pcts(anomalies)) <= s.value.average <= s.value.highest
  {
    SortedExtremes(anomalies, sorted);
    MeanBetweenEnds(sorted);
  }
}
