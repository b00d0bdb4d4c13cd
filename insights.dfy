/**
 * The insights page (src/pages/Insights.tsx): which building is analysed, the
 * campus-wide cold-snap and heat-wave counts, the variants of its cards, and
 * the recommendation it gives.
 */
module Insights {
  import opened Wrappers
  import opened Seqs
  import opened Records
  import opened Analytics

  // ---------------------------------------------------------------------------
  // The building under analysis

  /** `selectedBuildingId || String(firstBuilding?.building_id || "")`. */
  function ActiveBuildingId(selected: string, buildings: Option<seq<Building>>): (id: string)
    ensures selected != "" ==> id == selected
    ensures selected == "" && buildings.Some? && buildings.value != [] ==> id == buildings.value[0].buildingId
    ensures selected == "" && (buildings.None? || buildings.value == []) ==> id == ""
  {
    if selected != "" then selected
    else if buildings.Some? && buildings.value != [] then buildings.value[0].buildingId
    else ""
  }

  /** `find`: the first building with the id, or None when no building has it. */
  function FindBuilding(buildings: seq<Building>, id: string): (b: Option<Building>)
    ensures b.None? <==> forall i :: 0 <= i < |buildings| ==> buildings[i].buildingId != id
    ensures b.Some? ==> exists i :: 0 <= i < |buildings| && buildings[i] == b.value && b.value.buildingId == id
                                    && forall j :: 0 <= j < i ==> buildings[j].buildingId != id
  {
    if buildings == [] then None
    else if buildings[0].buildingId == id then Some(buildings[0])
    else
      var rest := FindBuilding(buildings[1..], id);
      assert forall i :: 1 <= i < |buildings| ==> buildings[i] == buildings[1..][i - 1];
      rest
  }

  /** The building whose analysis is shown; nothing is shown without one. */
  function SelectedBuilding(selected: string, buildings: Option<seq<Building>>): Option<Building> {
    if buildings.None? then None else FindBuilding(buildings.value, ActiveBuildingId(selected, buildings))
  }

  /** Until the user picks one, the first building of a non-empty list is analysed. */
  lemma DefaultSelection(buildings: seq<Building>)
    requires buildings != []
    ensures SelectedBuilding("", Some(buildings)) == Some(buildings[0])
  {
  }

  /** A picked id of a listed building selects the first building with that id. */
  lemma PickedSelection(selected: string, buildings: seq<Building>, k: int)
    requires selected != "" && 0 <= k < |buildings| && buildings[k].buildingId == selected
    ensures SelectedBuilding(selected, Some(buildings)).Some?
    ensures SelectedBuilding(selected, Some(buildings)).value.buildingId == selected
  {
  }

  // ---------------------------------------------------------------------------
  // Campus-wide counts

  /** `anomalies?.filter(freezing).length || 0`. */
  function ColdSnapCount(anomalies: Option<seq<Anomaly>>): nat {
    if anomalies.None? then 0 else |Filter(anomalies.value, Freezing)|
  }

  /** `anomalies?.filter(hot).length || 0`. */
  function HeatWaveCount(anomalies: Option<seq<Anomaly>>): nat {
    if anomalies.None? then 0 else |Filter(anomalies.value, Hot)|
  }

  /** The two counts never exceed the number of anomalies, since no reading is both freezing and hot. */
  lemma CountsBounded(anomalies: Option<seq<Anomaly>>)
    ensures ColdSnapCount(anomalies) + HeatWaveCount(anomalies) <= if anomalies.None? then 0 else |anomalies.value|
  {
    if anomalies.Some? {
      FilterDisjoint(anomalies.value, Freezing, Hot);
    }
  }

  function IsColdSnap(a: Anomaly): bool {
    InterpretAnomalyWeather(a).cause == ColdSnap
  }

  function IsHeatWave(a: Anomaly): bool {
    InterpretAnomalyWeather(a).cause == HeatWave
  }

  /** The counts are those of the anomalies the weather reading labels a cold snap and a heat wave. */
  lemma CountsMatchWeatherReading(anomalies: seq<Anomaly>)
    ensures ColdSnapCount(Some(anomalies)) == |Filter(anomalies, IsColdSnap)|
    ensures HeatWaveCount(Some(anomalies)) == |Filter(anomalies, IsHeatWave)|
  {
    forall i | 0 <= i < |anomalies|
      ensures (Freezing(anomalies[i]) <==> IsColdSnap(anomalies[i]))
           && (Hot(anomalies[i]) <==> IsHeatWave(anomalies[i]))
    {
      CauseCharacterisation(anomalies[i]);
    }
    FilterAgree(anomalies, Freezing, IsColdSnap);
    FilterAgree(anomalies, Hot, IsHeatWave);
  }

  // ---------------------------------------------------------------------------
  // Card variants

  datatype Variant = Default | Warning | Info | Success

  /** The count cards warn above three events. */
  function CountVariant(count: int): (v: Variant)
    ensures v == Warning <==> count > 3
    ensures v == Warning || v == Default
  {
    if count > 3 then Warning else Default
  }

  /** The weather-sensitivity card: shown with a fit; warning when strong, info when moderate. */
  function CorrelationCard(correlation: Option<CorrelationResult>): (card: Option<Variant>)
    ensures card.None? <==> correlation.None?
  {
    if correlation.None? then None
    else
      var strength := InterpretCorrelation(correlation.value.r).strength;
      Some(if strength == Strong then Warning else if strength == Moderate then Info else Default)
  }

  /** The card variant follows the bands of |r|. */
  lemma CorrelationCardBands(c: CorrelationResult)
    ensures CorrelationCard(Some(c)) == Some(Warning) <==> Abs(c.r) >= 0.7
    ensures CorrelationCard(Some(c)) == Some(Info) <==> 0.4 <= Abs(c.r) < 0.7
    ensures CorrelationCard(Some(c)) == Some(Default) <==> Abs(c.r) < 0.4
  {
    StrengthBands(c.r);
  }

  /** `ratio > t` in JavaScript: false when the division gave no number. */
  predicate RatioAbove(b: Baseload, t: real) {
    b.ratio.Some? && b.ratio.value > t
  }

  /** The baseload card: shown only for a positive peak; warning when the ratio is above 0.5, success otherwise. */
  function BaseloadCard(baseload: Option<Baseload>): (card: Option<Variant>)
    ensures card.Some? <==> baseload.Some? && baseload.value.peakKwh > 0.0
    ensures card.Some? ==> (card.value == Warning <==> RatioAbove(baseload.value, 0.5))
    ensures card.Some? ==> (card.value == Warning || card.value == Variant.Success)
  {
    if baseload.Some? && baseload.value.peakKwh > 0.0 then
      Some(if RatioAbove(baseload.value, 0.5) then Warning else Variant.Success)
    else None
  }

  /** For a baseload as calculateBaseload returns it, the card warns when the minimum exceeds half the peak. */
  lemma BaseloadWarningMeansHighMinimum(b: Baseload)
    requires b.peakKwh > 0.0 && b.ratio == Some(b.baseloadKwh / b.peakKwh)
    ensures BaseloadCard(Some(b)) == Some(Warning) <==> b.baseloadKwh > 0.5 * b.peakKwh
  {
    RatioThreshold(b.baseloadKwh, b.peakKwh, 0.5);
  }

  /** lo / hi > t exactly when lo > t * hi, for a positive hi. */
  lemma RatioThreshold(lo: real, hi: real, t: real)
    requires hi > 0.0
    ensures lo / hi > t <==> lo > t * hi
  {
    assert lo / hi - t == (lo - t * hi) / hi;
  }

  // ---------------------------------------------------------------------------
  // The recommendation

  datatype Advice = UpgradeHvac | AuditBaseload(ratio: real) | PeakShaving(peakHour: int)

  /**
   * Shown with both a fit and a baseload: a strong correlation asks for HVAC
   * work; otherwise a ratio above 0.4 asks for a baseload audit; otherwise
   * peak shaving at the peak hour.
   */
  function Recommendation(correlation: Option<CorrelationResult>, baseload: Option<Baseload>): (advice: Option<Advice>)
    ensures advice.None? <==> correlation.None? || baseload.None?
    ensures advice == Some(UpgradeHvac) <==>
              correlation.Some? && baseload.Some? && InterpretCorrelation(correlation.value.r).strength == Strong
    ensures advice.Some? && advice.value.AuditBaseload? <==>
              && correlation.Some? && baseload.Some?
              && InterpretCorrelation(correlation.value.r).strength != Strong && RatioAbove(baseload.value, 0.4)
    ensures advice.Some? && advice.value.PeakShaving? <==>
              && correlation.Some? && baseload.Some?
              && InterpretCorrelation(correlation.value.r).strength != Strong && !RatioAbove(baseload.value, 0.4)
    ensures advice.Some? && advice.value.PeakShaving? ==> advice.value.peakHour == baseload.value.peakHour
  {
    if correlation.None? || baseload.None? then None
    else if InterpretCorrelation(correlation.value.r).strength == Strong then Some(UpgradeHvac)
    else if RatioAbove(baseload.value, 0.4) then Some(AuditBaseload(baseload.value.ratio.value))
    else Some(PeakShaving(baseload.value.peakHour))
  }

  /** A warning baseload card under a correlation that is not strong always comes with the audit advice. */
  lemma WarningCardMeansAudit(c: CorrelationResult, b: Baseload)
    requires BaseloadCard(Some(b)) == Some(Warning) && InterpretCorrelation(c.r).strength != Strong
    ensures Recommendation(Some(c), Some(b)) == Some(AuditBaseload(b.ratio.value))
  {
  }

  /** Below |r| = 0.7 a profile whose peak is 0 (ratio not a number) is always sent to peak shaving. */
  lemma ZeroPeakMeansPeakShaving(c: CorrelationResult, b: Baseload)
    requires b.ratio.None? && Abs(c.r) < 0.7
    ensures Recommendation(Some(c), Some(b)) == Some(PeakShaving(b.peakHour))
  {
    StrengthBands(c.r);
  }
}
