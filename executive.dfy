/**
 * The key findings of the overview (src/components/ExecutiveSummary.tsx):
 * which cards appear, what they count, and where they lead.
 */
module Executive {
  import opened Wrappers
  import opened Seqs
  import opened Records
  import opened Analytics
  import opened Anomalies
  import Insights

  /** The first building uses more than twice the energy of the second. */
  predicate HasOutlier(top10Kwh: Option<seq<BuildingKwh>>) {
    top10Kwh.Some? && |top10Kwh.value| >= 2 && top10Kwh.value[0].totalKwh > 2.0 * top10Kwh.value[1].totalKwh
  }

  /** The anomalies of freezing days, in their original order; absent while there is no list. */
  function ColdSnapAnomalies(anomalies: Option<seq<Anomaly>>): (cold: Option<seq<Anomaly>>)
    ensures cold.None? <==> anomalies.None?
  {
    if anomalies.None? then None else Some(Filter(anomalies.value, Freezing))
  }

  /** The cold-snap list holds exactly the freezing anomalies of the list. */
  lemma ColdSnapMembers(anomalies: seq<Anomaly>, a: Anomaly)
    ensures a in ColdSnapAnomalies(Some(anomalies)).value <==> a in anomalies && Freezing(a)
  {
    FilterMembership(anomalies, Freezing, a);
  }

  datatype Outlier = Outlier(buildingName: string, factor: real, target: string)

  datatype ColdAlert = ColdAlert(events: nat, target: string)

  datatype TopDeviation = TopDeviation(buildingName: string, pctOverMedian: real, day: string, target: string)

  /** The cards that appear, in display order; the weather card carries its navigation target. */
  datatype Findings = Findings(outlier: Option<Outlier>, weather: Option<string>, cold: Option<ColdAlert>,
                               top: Option<TopDeviation>, efficiency: bool)

  /** `top10Kwh[1]?.total_kwh || 1`: the second consumption, with 0 replaced by 1. */
  function Divisor(top10Kwh: seq<BuildingKwh>): real
    requires |top10Kwh| >= 2
  {
    if top10Kwh[1].totalKwh == 0.0 then 1.0 else top10Kwh[1].totalKwh
  }

  /** Nothing without KPIs; otherwise each card under its own condition. */
  function KeyFindings(kpis: Option<Kpis>, top10Kwh: Option<seq<BuildingKwh>>, anomalies: Option<seq<Anomaly>>)
    : (f: Option<Findings>)
    ensures f.None? <==> kpis.None?
    ensures f.Some? ==>
              && (f.value.outlier.Some? <==> HasOutlier(top10Kwh))
              && (f.value.weather.Some? <==> kpis.value.pctWithWeather >= 80.0)
              && (f.value.cold.Some? <==> anomalies.Some? && Filter(anomalies.value, Freezing) != [])
              && (f.value.top.Some? <==> anomalies.Some? && anomalies.value != [])
              && (f.value.efficiency <==> kpis.value.avgIntensity > 15.0)
  {
    if kpis.None? then None
    else
      var k := kpis.value;
      var cold := ColdSnapAnomalies(anomalies);
      Some(Findings(
        if top10Kwh.Some? && top10Kwh.value != [] && HasOutlier(top10Kwh) then
          var top := top10Kwh.value;
          Some(Outlier(top[0].buildingName, top[0].totalKwh / Divisor(top), DeepDiveLink(top[0].buildingId)))
        else None,
        if k.pctWithWeather >= 80.0 then Some("/insights") else None,
        if cold.Some? && |cold.value| > 0 then Some(ColdAlert(|cold.value|, "/anomalies")) else None,
        if anomalies.Some? && anomalies.value != [] then
          var a := anomalies.value[0];
          Some(TopDeviation(a.buildingName, a.pctOverMedian, a.day, DeepDiveLink(a.buildingId)))
        else None,
        k.avgIntensity > 15.0))
  }

  /**
   * The outlier card names the first building, leads to its deep dive, and
   * states a factor above 2 whenever the second building used a positive amount.
   */
  lemma OutlierCard(kpis: Kpis, top10Kwh: seq<BuildingKwh>, anomalies: Option<seq<Anomaly>>)
    requires HasOutlier(Some(top10Kwh))
    ensures var o := KeyFindings(Some(kpis), Some(top10Kwh), anomalies).value.outlier;
            && o.Some? && o.value.buildingName == top10Kwh[0].buildingName
            && o.value.target == DeepDiveLink(top10Kwh[0].buildingId)
            && (top10Kwh[1].totalKwh > 0.0 ==> o.value.factor > 2.0)
  {
    var first, second := top10Kwh[0].totalKwh, top10Kwh[1].totalKwh;
    if second > 0.0 {
      Insights.RatioThreshold(first, second, 2.0);
    }
  }

  /** The cold-weather card counts the same events as the insights page's cold-snap card. */
  lemma ColdAlertMatchesInsights(kpis: Kpis, top10Kwh: Option<seq<BuildingKwh>>, anomalies: Option<seq<Anomaly>>)
    requires Insights.ColdSnapCount(anomalies) > 0
    ensures var c := KeyFindings(Some(kpis), top10Kwh, anomalies).value.cold;
            && c.Some? && c.value.events == Insights.ColdSnapCount(anomalies) && c.value.target == "/anomalies"
  {
  }

  /** The highest-deviation card shows the first anomaly and leads to its building's deep dive. */
  lemma TopDeviationCard(kpis: Kpis, top10Kwh: Option<seq<BuildingKwh>>, anomalies: seq<Anomaly>)
    requires anomalies != []
    ensures var t := KeyFindings(Some(kpis), top10Kwh, Some(anomalies)).value.top;
            && t.Some? && t.value.pctOverMedian == anomalies[0].pctOverMedian
            && t.value.target == DeepDiveLink(anomalies[0].buildingId)
  {
  }
}
