/**
 * The rows the dashboard reads from the warehouse views, one datatype per view.
 * Numbers are exact reals; a field the code compares against `null` is an `Option`.
 */
module Records {
  import opened Wrappers

  /** A row of `ui_kpis`. */
  datatype Kpis = Kpis(totalKwh: real, nBuildings: real, pctWithWeather: real, avgIntensity: real)

  /** A row of `ui_top10_total_kwh`. */
  datatype BuildingKwh = BuildingKwh(buildingId: string, buildingName: string, totalKwh: real)

  /** A row of `ui_top10_intensity`. */
  datatype BuildingIntensity = BuildingIntensity(buildingId: string, buildingName: string, avgIntensity: real)

  /** A row of `ui_buildings`. */
  datatype Building = Building(buildingId: string, buildingName: string, campusName: string)

  /** A row of `ui_hourly_timeseries`; `temp` is optional and `energyKwh` may be null. */
  datatype HourlyTimeseries = HourlyTimeseries(timestampHour: string, buildingId: string,
                                               energyKwh: Option<real>, temp: Option<real>)

  /** A row of `ui_building_hourly_profile`. */
  datatype HourlyProfile = HourlyProfile(buildingId: string, hour: int, avgKwh: real)

  /** A row of `ui_building_heatmap` as the heatmap receives it: every field may be null. */
  datatype HeatmapCell = HeatmapCell(dayOfWeek: Option<int>, hour: Option<int>, avgKwh: Option<real>)

  /** A row of `ui_top_anomalies`; the weather fields are compared against null by the code. */
  datatype Anomaly = Anomaly(day: string, buildingId: string, buildingName: string, campusName: string,
                             pctOverMedian: real, dailyKwh: real, baselineMedianDailyKwh: real,
                             avgTemp: Option<real>, totalPrecip: Option<real>)
}
