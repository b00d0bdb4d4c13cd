/**
 * Where the dashboard's views live: the schema of src/lib/databricks.ts, the
 * eight views it reads, and how their qualified names meet the gateway's
 * allow-list.
 */
module Catalog {
  import opened Text
  import Gateway

  /** The catalog and schema every view lives in. */
  const Schema: string := "workspace.hackathon"

  /** `${SCHEMA}.<view>`. */
  function Table(view: string): string {
    Schema + "." + view
  }

  /** The eight views, in the order of the gateway's allow-list. */
  const Views: seq<string> := [
    "ui_kpis", "ui_top10_total_kwh", "ui_top10_intensity", "ui_buildings",
    "ui_hourly_timeseries", "ui_building_hourly_profile", "ui_building_heatmap", "ui_top_anomalies"
  ]

  /** Each view's allow-list entry is "hackathon." followed by the view. */
  lemma AllowListNamesView(i: int)
    requires 0 <= i < 8
    ensures Gateway.AllowedTables[i] == "hackathon." + Views[i]
  {
    if i == 0 {
      AllowListNamesKpis();
    } else if i == 1 {
      AllowListNamesTop10Kwh();
    } else if i == 2 {
      AllowListNamesTop10Intensity();
    } else if i == 3 {
      AllowListNamesBuildings();
    } else if i == 4 {
      AllowListNamesHourlyTimeseries();
    } else if i == 5 {
      AllowListNamesHourlyProfile();
    } else if i == 6 {
      AllowListNamesHeatmap();
    } else {
      AllowListNamesAnomalies();
    }
  }

  // One lemma per entry of the allow-list. Each compares two string literals,
  // which the solver decides faster one index at a time than in a single
  // proof over all eight; they exist only to split AllowListNamesView.

  lemma AllowListNamesKpis()
    ensures Gateway.AllowedTables[0] == "hackathon." + Views[0]
  {
  }

  lemma AllowListNamesTop10Kwh()
    ensures Gateway.AllowedTables[1] == "hackathon." + Views[1]
  {
  }

  lemma AllowListNamesTop10Intensity()
    ensures Gateway.AllowedTables[2] == "hackathon." + Views[2]
  {
  }

  lemma AllowListNamesBuildings()
    ensures Gateway.AllowedTables[3] == "hackathon." + Views[3]
  {
  }

  lemma AllowListNamesHourlyTimeseries()
    ensures Gateway.AllowedTables[4] == "hackathon." + Views[4]
  {
  }

  lemma AllowListNamesHourlyProfile()
    ensures Gateway.AllowedTables[5] == "hackathon." + Views[5]
  {
    var view, entry := Views[5], Gateway.AllowedTables[5];
    assert view == "ui_building_hourly_profile";
    assert entry == "hackathon.ui_building_hourly_profile";
  }

  lemma AllowListNamesHeatmap()
    ensures Gateway.AllowedTables[6] == "hackathon." + Views[6]
  {
  }

  lemma AllowListNamesAnomalies()
    ensures Gateway.AllowedTables[7] == "hackathon." + Views[7]
  {
  }

  /** Text around the qualified name of an allowed view passes the allow-list. */
  lemma ReferencesAllowedView(q: string, pre: string, view: string, post: string, i: int)
    requires 0 <= i < |Gateway.AllowedTables| && Gateway.AllowedTables[i] == "hackathon." + view
    requires q == pre + Table(view) + post
    ensures Gateway.HasValidTable(q)
  {
    var name := Gateway.AllowedTables[i];
    assert Table(view) == "workspace." + name;
    var a := |pre| + 10;
    assert q[a..a + |name|] == name;
    LowerContainsLowerSlice(q, a, a + |name|);
  }
}
