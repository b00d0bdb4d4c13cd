/**
 * The dashboard's side of the warehouse connection (src/lib/databricks.ts): the
 * SQL text of each fetch, and the mapping of the edge function's answer to rows
 * or an error.
 */
module Client {
  import opened Wrappers
  import opened Text
  import Gateway
  import opened Catalog

  /** The condition fetchHourlyTimeseries adds for building 53. */
  const DateFilter: string := " AND timestamp_hour < '2025-04-01'"

  /** The extra condition of the timeseries query: present exactly for building "53". */
  function DateFilterFor(buildingId: string): (f: string)
    ensures f == DateFilter <==> buildingId == "53"
    ensures f == "" <==> buildingId != "53"
  {
    if buildingId == "53" then DateFilter else ""
  }

  /** The fetch functions; the per-building ones carry the id they are called with. */
  datatype Fetch =
    | FetchKPIs
    | FetchTop10Kwh
    | FetchTop10Intensity
    | FetchBuildings
    | FetchHourlyTimeseries(buildingId: string)
    | FetchHourlyProfile(buildingId: string)
    | FetchHeatmapData(buildingId: string)
    | FetchAnomalies

  /** The position in Views of the view each fetch reads. */
  function ViewIndex(f: Fetch): (i: nat)
    ensures i < |Views|
  {
    match f
    case FetchKPIs => 0
    case FetchTop10Kwh => 1
    case FetchTop10Intensity => 2
    case FetchBuildings => 3
    case FetchHourlyTimeseries(_) => 4
    case FetchHourlyProfile(_) => 5
    case FetchHeatmapData(_) => 6
    case FetchAnomalies => 7
  }

  function ViewOf(f: Fetch): string {
    Views[ViewIndex(f)]
  }

  /** The column list before `FROM`. */
  function SelectPart(f: Fetch): string {
    match f
    case FetchKPIs => "SELECT total_kwh, n_buildings, pct_with_weather, avg_intensity FROM "
    case FetchTop10Kwh => "SELECT building_id, building_name, total_kwh FROM "
    case FetchTop10Intensity => "SELECT building_id, building_name, avg_intensity FROM "
    case FetchBuildings => "SELECT building_id, building_name, campusname FROM "
    case FetchHourlyTimeseries(_) => "SELECT timestamp_hour, building_id, energy_kwh, temp FROM "
    case FetchHourlyProfile(_) => "SELECT building_id, hour, avg_kwh FROM "
    case FetchHeatmapData(_) => "SELECT building_id, day_of_week, hour, avg_kwh FROM "
    case FetchAnomalies =>
      "SELECT day, building_id, building_name, campusname, pct_over_median, daily_kwh, "
      + "baseline_median_daily_kwh, avg_temp, total_precip FROM "
  }

  /** The opening of the condition of a per-building query, up to the quote before the id. */
  const WhereBuilding: string := " WHERE building_id = '"

  /** What follows the id in a per-building query. */
  function TailAfterId(f: Fetch): string
    requires f.FetchHourlyTimeseries? || f.FetchHourlyProfile? || f.FetchHeatmapData?
  {
    match f
    case FetchHourlyTimeseries(id) => "'" + DateFilterFor(id) + " ORDER BY timestamp_hour"
    case FetchHourlyProfile(_) => "' ORDER BY hour"
    case FetchHeatmapData(_) => "'"
  }

  /** The text after the view name, with the building id placed between quotes as it is. */
  function RestPart(f: Fetch): string {
    match f
    case FetchKPIs => " LIMIT 1"
    case FetchTop10Kwh => " WHERE building_id != '53' ORDER BY total_kwh DESC LIMIT 10"
    case FetchTop10Intensity => " WHERE building_id != '53' ORDER BY avg_intensity DESC LIMIT 10"
    case FetchBuildings => " ORDER BY building_name"
    case FetchHourlyTimeseries(id) => WhereBuilding + id + TailAfterId(f)
    case FetchHourlyProfile(id) => WhereBuilding + id + TailAfterId(f)
    case FetchHeatmapData(id) => WhereBuilding + id + TailAfterId(f)
    case FetchAnomalies => " WHERE NOT (building_id = '53' AND day >= '2025-04-01') ORDER BY pct_over_median DESC"
  }

  /** The SQL text each fetch sends: `SELECT ... FROM ${SCHEMA}.<view>...`. */
  function QueryOf(f: Fetch): string {
    SelectPart(f) + Table(ViewOf(f)) + RestPart(f)
  }

  /** Every query the dashboard builds, for every building id, passes the gateway's allow-list. */
  lemma EveryQueryAllowed(f: Fetch)
    ensures Gateway.HasValidTable(QueryOf(f))
  {
    QueryOnView(QueryOf(f), SelectPart(f), RestPart(f), ViewIndex(f));
  }

  /** A query that reads one of the eight views passes the allow-list, whatever surrounds the view. */
  lemma QueryOnView(q: string, pre: string, post: string, i: int)
    requires 0 <= i < |Views| && q == pre + Table(Views[i]) + post
    ensures Gateway.HasValidTable(q)
  {
    AllowListNamesView(i);
    ReferencesAllowedView(q, pre, Views[i], post, i);
  }

  /** The text before the building id in a per-building query. */
  function HeadFor(f: Fetch): string {
    SelectPart(f) + Table(ViewOf(f)) + WhereBuilding
  }

  /**
   * A per-building query is the same text for every id up to the id, then the
   * id exactly as given, with nothing escaped.
   */
  lemma BuildingIdVerbatim(f: Fetch, other: string)
    requires f.FetchHourlyTimeseries? || f.FetchHourlyProfile? || f.FetchHeatmapData?
    ensures var q, h, id := QueryOf(f), HeadFor(f), f.buildingId;
            && |h| + |id| <= |q| && q[..|h|] == h && q[|h|..|h| + |id|] == id
            && q[|h| + |id|..] == TailAfterId(f)
            && HeadFor(f.(buildingId := other)) == h
  {
    var h, id, t := HeadFor(f), f.buildingId, TailAfterId(f);
    assert RestPart(f) == WhereBuilding + id + t;
    Regroup(SelectPart(f) + Table(ViewOf(f)), WhereBuilding, id, t);
    ThreeParts(h, id, t);
    assert SelectPart(f.(buildingId := other)) == SelectPart(f);
    assert ViewIndex(f.(buildingId := other)) == ViewIndex(f);
  }

  /** Concatenation regrouped. */
  lemma Regroup(a: string, w: string, id: string, t: string)
    ensures a + (w + id + t) == a + w + id + t
  {
  }

  /** The pieces of a concatenation of three strings are its slices. */
  lemma ThreeParts(h: string, id: string, t: string)
    ensures var q := h + id + t;
            && q[..|h|] == h && q[|h|..|h| + |id|] == id && q[|h| + |id|..] == t
  {
  }

  /** The date filter follows the id in the timeseries query exactly for building "53". */
  lemma DateFilterOnlyFor53(id: string)
    ensures Contains(TailAfterId(FetchHourlyTimeseries(id)), DateFilter) <==> id == "53"
  {
    var t := TailAfterId(FetchHourlyTimeseries(id));
    if id == "53" {
      assert t[1..1 + |DateFilter|] == DateFilter;
      assert OccursAt(t, DateFilter, 1);
    } else {
      assert |t| < |DateFilter|;
    }
  }

  // ---------------------------------------------------------------------------
  // queryDatabricks

  /** What the function invocation hands back: a transport error, or the body the edge function returned. */
  datatype InvokeError = InvokeError(message: string)

  datatype InvokeBody<T> = InvokeBody(success: bool, error: string, data: seq<T>)

  /**
   * A transport error throws its message (or 'Failed to query Databricks'); an
   * unsuccessful body throws its error (or 'Query failed'); otherwise the rows.
   */
  function QueryDatabricks<T>(error: Option<InvokeError>, body: InvokeBody<T>): (res: Result<seq<T>>)
    ensures res.Success? <==> error.None? && body.success
    ensures res.Success? ==> res.value == body.data
    ensures res.Failure? ==> res.error != ""
  {
    if error.Some? then Failure(if error.value.message != "" then error.value.message else "Failed to query Databricks")
    else if !body.success then Failure(if body.error != "" then body.error else "Query failed")
    else Success(body.data)
  }

  /** The failure message is the first non-empty message on the way, or the default of the layer that failed. */
  lemma QueryDatabricksMessages<T>(error: Option<InvokeError>, body: InvokeBody<T>)
    ensures error.Some? && error.value.message != "" ==> QueryDatabricks(error, body) == Failure(error.value.message)
    ensures error == Some(InvokeError("")) ==> QueryDatabricks(error, body) == Failure("Failed to query Databricks")
    ensures error.None? && !body.success && body.error != "" ==> QueryDatabricks(error, body) == Failure(body.error)
    ensures error.None? && !body.success && body.error == "" ==> QueryDatabricks(error, body) == Failure("Query failed")
  {
  }

  /** `result[0]`: the first row, or None (undefined) when there is none. */
  function FetchKpisResult<T>(rows: Result<seq<T>>): (res: Result<Option<T>>)
    ensures res.Failure? <==> rows.Failure?
    ensures rows.Success? && rows.value != [] ==> res == Success(Some(rows.value[0]))
    ensures rows.Success? && rows.value == [] ==> res == Success(None)
  {
    match rows
    case Failure(e) => Failure(e)
    case Success(r) => Success(if r == [] then None else Some(r[0]))
  }
}
