# Campus energy dashboard: analytics, query gateway and decision rules

This project models the logic of a campus energy dashboard and proves properties of that model. The dashboard reads pre-aggregated views from a SQL warehouse and turns them into charts and insight cards. The model covers three parts:

- **Analytics engine** (`src/lib/analytics.ts`):
  - the Pearson correlation of hourly temperature and energy, with its least-squares line;
  - the strength label of a correlation;
  - the baseload and peak of an hourly profile;
  - the weather cause of an anomaly;
  - the scatter points and the two-point regression line.
- **Query gateway** (`supabase/functions/databricks-query/index.ts`), the edge function that takes a SQL text and forwards it to the warehouse. The model covers:
  - the configuration and query checks;
  - the case-insensitive allow-list of eight views;
  - the warehouse id taken from the HTTP path by `/warehouses\/([a-z0-9]+)/i`;
  - one POST, with the HTTP exchange as a function parameter;
  - the failure check on the statement response;
  - the decoding of `data_array` rows into records keyed by column name, converted by column type.
- **Decision rules around them**:
  - the building exclusions;
  - the SQL text every fetch function builds, and the client-side handling of the gateway's answer;
  - the 7 × 24 heatmap matrix filled in place, with its colour scale;
  - the 21 samples of the fitted line and the trend icon of the scatter chart;
  - anomaly severity, the sorted anomaly list and its summary cards;
  - the insights page's counts, card variants and recommendation;
  - the executive summary's key-finding cards.

Numbers are exact `real`s. Strings are `seq<char>`.

`Math.sqrt` does not exist in the model. `CalculateTempEnergyCorrelation` instead takes the value `root` that `Math.sqrt` returns, with `root >= 0 && root * root == Radicand(data)`. The fact that |r| ≤ 1 follows from a Cauchy–Schwarz lemma over the accumulated sums (`Statistics.CauchySchwarz`).

The model has one module per source file, plus shared modules:

| module | what it holds |
|---|---|
| `Wrappers` | `Option`, `Result` |
| `Text` | ASCII lower-casing, substring search, decimal rendering |
| `Seqs` | `filter` and its laws |
| `Statistics` | sums, dispersions, Cauchy–Schwarz, min/max |
| `Sorting` | an in-place insertion sort standing for `Array.prototype.sort` with a numeric comparator |
| `Records` | the row types of the views |
| `Catalog` | the schema and the eight views |

## Gateway and filter behaviour


- **Single POST.** The edge function makes a single POST with `wait_timeout: '30s'` and never re-fetches the statement. A response still PENDING or RUNNING, with no result, decodes to no rows (`Gateway.MissingResultIsEmpty`). There is no retry, attempt limit or timeout error.
- **Allow-list names.** The allow-list holds `hackathon.<view>` names. The queries name `workspace.hackathon.<view>` and pass because they contain the listed name as a substring.
- **Correlation filter.** The correlation keeps the records that have both a temperature and an energy reading.

## Model

| member | source | states |
|---|---|---|
| Analytics.CalculateTempEnergyCorrelation | src/lib/analytics.ts:14-49 | No result exactly when fewer than 10 records carry both a temperature and an energy reading, or when the product of the two dispersions is 0. Otherwise n is the number of retained records, so n ≥ 10. |
| Analytics.Fit | src/lib/analytics.ts:34-48 | Given enough records, no result exactly when the denominator (the root of the dispersion product) is 0. The count is passed through as n. |
| Analytics.FitBounds | src/lib/analytics.ts:34-48 | When the sums satisfy Cauchy–Schwarz, a fit has rSquared = r·r and −1 ≤ r ≤ 1. rSquared times the radicand is the squared numerator. The slope is positive or negative exactly when r is. |
| Analytics.CorrelationBounds | src/lib/analytics.ts:22-48 | Every successful result: rSquared = r·r, −1 ≤ r ≤ 1, rSquared·radicand = numerator², and slope and r have the same sign. |
| Statistics.CauchySchwarz | src/lib/analytics.ts:28-37 | For sums of paired series with a positive x-dispersion, (n·Σxy − Σx·Σy)² ≤ (n·Σx² − (Σx)²)·(n·Σy² − (Σy)²). This is what bounds r. |
| Statistics.DispersionsNonNegative | src/lib/analytics.ts:35-37 | Both dispersions under the square root are non-negative. |
| Analytics.RegressionThroughMeans | src/lib/analytics.ts:45-46 | The fitted line passes through the mean point: slope·(Σx/n) + intercept = Σy/n. |
| Analytics.SameValidData | src/lib/analytics.ts:18-20 | Two inputs with the same records having both readings give the same radicand and the same result. |
| Analytics.InvalidRecordIgnored | src/lib/analytics.ts:18-20 | A record lacking a reading, inserted anywhere, changes neither the radicand nor the result. |
| Analytics.LinearDataFit | src/lib/analytics.ts:34-46 | For data on energy = a·temp + b, with a ≠ 0, non-constant temperatures and at least 10 records, the result has slope a, intercept b and r = sign(a). |
| Analytics.StrengthBands | src/lib/analytics.ts:59-90 | The strength is strong exactly for \|r\| ≥ 0.7, moderate for 0.4 ≤ \|r\| < 0.7, weak for 0.2 ≤ \|r\| < 0.4, and none below 0.2. |
| Analytics.StrengthMonotone | src/lib/analytics.ts:59-90 | A larger \|r\| never gets a lower strength. |
| Analytics.StrengthOfMagnitude | src/lib/analytics.ts:59-62 | r and −r get the same strength. |
| Analytics.LabelDirection | src/lib/analytics.ts:60-90 | The label is "Strong/Moderate/Weak positive" exactly when r > 0 and \|r\| ≥ 0.2. It is one of the negative labels exactly when r ≤ 0 and \|r\| ≥ 0.2. It is "No correlation" exactly when \|r\| < 0.2. |
| Analytics.CalculateBaseload | src/lib/analytics.ts:96-114 | An empty profile gives a baseload of 0, a peak of 0, a peak hour of 0 and a ratio of 0. Otherwise the baseload is the minimum avg_kwh and the peak the maximum. The peak hour is the hour of an entry attaining the maximum. The ratio is baseload/peak, and is absent (not a number) when the peak is 0. Baseload ≤ peak always holds. With non-negative readings and a positive peak, the ratio lies in [0, 1]. |
| Analytics.SortedProfileEnds | src/lib/analytics.ts:106-108 | A sorted copy of a non-empty profile starts with an entry of minimum avg_kwh and ends with one of maximum avg_kwh, and both are entries of the profile. |
| Analytics.CauseCharacterisation | src/lib/analytics.ts:119-153 | First match: a cold snap exactly when the temperature is present and ≤ 32, whatever the precipitation. Then a heat wave exactly when it is ≥ 85. Then precipitation when neither holds and precipitation is present and ≥ 1. Unknown otherwise. A missing reading satisfies no branch. |
| Analytics.GetScatterData | src/lib/analytics.ts:158-168 | One point per record with a temperature. |
| Analytics.ScatterAppend | src/lib/analytics.ts:161-167 | The scatter data of a concatenation is the concatenation of the scatter data, so the input order is kept. |
| Analytics.ScatterSingleton | src/lib/analytics.ts:161-167 | A single record gives its own point when it has a temperature, and nothing otherwise. |
| Analytics.ScatterCoversValid | src/lib/analytics.ts:18-20 | Every record the correlation uses is also a scatter point. |
| Analytics.GetRegressionLine | src/lib/analytics.ts:173-187 | Empty input gives [], and only empty input does. Otherwise there are exactly two points. |
| Analytics.RegressionLineEnds | src/lib/analytics.ts:176-186 | For a non-empty input, the first point is at the lowest temperature and the second at the highest. Both are temperatures of input points, and every input point lies between them. |
| Analytics.RegressionLineOnFit | src/lib/analytics.ts:180-186 | Both points lie on slope·t + intercept. |
| Gateway.PrepareRequest | supabase/functions/databricks-query/index.ts:31-90 | The checks run in the source's order, each with its own error. A missing or empty host, path or token gives "Missing Databricks configuration". Then a missing or empty query gives "Query is required". Then a query naming no allowed view gives "Invalid query: must reference an allowed table". Then a path with no warehouse id gives "Invalid HTTP path format". Success exactly when all four pass. The request then carries the configured host and token, the query unchanged, the extracted warehouse id and wait_timeout "30s". |
| Gateway.HasValidTableLower | supabase/functions/databricks-query/index.ts:59-62 | Acceptance does not depend on letter case. |
| Gateway.HasValidTableMonotone | supabase/functions/databricks-query/index.ts:59-62 | Any text containing an accepted query is accepted. The check is containment, not parsing. |
| Gateway.ExtractWarehouseId | supabase/functions/databricks-query/index.ts:72-76 | None exactly when no position matches "warehouses/" in any case followed by a letter or digit. Otherwise the id is the maximal alphanumeric run after the leftmost match. |
| Gateway.WarehouseIdCharacterised | supabase/functions/databricks-query/index.ts:72-76 | Conversely, the maximal run after the leftmost match is exactly the id returned. |
| Gateway.FirstMatchUnique | supabase/functions/databricks-query/index.ts:72 | There is only one leftmost match. |
| Gateway.CapturedUnique | supabase/functions/databricks-query/index.ts:72 | The captured group at a position is unique. |
| Gateway.WarehouseIdExample | supabase/functions/databricks-query/index.ts:71-76 | "/sql/1.0/warehouses/abc123" gives "abc123". |
| Gateway.CheckExecution | supabase/functions/databricks-query/index.ts:100-102 | A failure exactly when the state is FAILED or an error object is present. The failure carries the error's message, or "Query execution failed" when the message is missing or empty. |
| Gateway.Convert | supabase/functions/databricks-query/index.ts:111-117 | A null stays null. A DOUBLE/FLOAT/DECIMAL cell is parsed as a float and an INT/LONG/BIGINT cell as a base-10 integer. Any other type name passes the cell through. |
| Gateway.RowRecordKeys | supabase/functions/databricks-query/index.ts:108-120 | A decoded record has exactly one key per column name. |
| Gateway.RowRecordLastWins | supabase/functions/databricks-query/index.ts:110-119 | With duplicate column names, each key holds the value of the last column of that name. |
| Gateway.DecodeRow | supabase/functions/databricks-query/index.ts:109-120 | The loop that assigns keys column by column yields the record of the row. Its keys are the column names, and each key holds the converted cell of the last column with that name. A cell past the end of the row is undefined. |
| Gateway.Decode | supabase/functions/databricks-query/index.ts:105-121 | There is one record per row of data_array, in row order. A missing manifest or result counts as empty. |
| Gateway.MissingResultIsEmpty | supabase/functions/databricks-query/index.ts:100-106 | A response with no result, whatever its state (PENDING and RUNNING included), decodes to no data. |
| Gateway.HandleQuery | supabase/functions/databricks-query/index.ts:31-139 | A failed check returns its error without calling send. Otherwise one call to send follows: a non-ok reply fails with "Databricks API error: <status> - <text>", and a failed execution with its message. Otherwise the result is the decoded rows. |
| Exclusions.IsExcludedBuildingId | src/lib/buildingExclusions.ts:1-9 | False for null and undefined. A string id is excluded exactly when it is "1926" or "53". |
| Exclusions.RenderedExclusions | src/lib/buildingExclusions.ts:1 | `String` renders 1926 and 53 as "1926" and "53". |
| Exclusions.NumericIdExcluded | src/lib/buildingExclusions.ts:1-8 | A numeric id is excluded exactly when it is 1926 or 53, the same answer as its string form gets. |
| Exclusions.IsExcludedBuilding | src/lib/buildingExclusions.ts:11-19 | An excluded id excludes the building whatever its name. Otherwise the building is excluded exactly when its lower-cased name contains "hoop greenhouse" or "mcpherson". |
| Exclusions.NameMatchCaseInsensitive | src/lib/buildingExclusions.ts:17-18 | The name match ignores letter case. |
| Exclusions.BlankNameNotExcluded | src/lib/buildingExclusions.ts:17-18 | A missing or empty name never matches, so only the id decides. |
| Exclusions.NameContainingMatchExcluded | src/lib/buildingExclusions.ts:17-18 | A name containing a matching name excludes its building. |
| Catalog.AllowListNamesView | src/lib/databricks.ts:14 | Each of the eight views read by the fetch functions has "hackathon." followed by the view's name as its entry in the gateway's allow-list. |
| Catalog.ReferencesAllowedView | src/lib/databricks.ts:14 | Any text around "workspace.hackathon.<view>" of an allowed view passes the allow-list. |
| Client.DateFilterFor | src/lib/databricks.ts:62 | The date condition is present exactly for building "53", and empty for every other id. |
| Client.ViewIndex | src/lib/databricks.ts:33-91 | Every fetch function reads one of the eight views. |
| Client.EveryQueryAllowed | src/lib/databricks.ts:14-89 | The SQL text of every fetch function, for every building id, passes the gateway's allow-list (index.ts:47-62). |
| Client.BuildingIdVerbatim | src/lib/databricks.ts:62-82 | A per-building query is a head that does not depend on the id, then the id as given with nothing escaped, then the fetch's fixed tail. |
| Client.DateFilterOnlyFor53 | src/lib/databricks.ts:62-64 | The text after the id in the timeseries query contains " AND timestamp_hour < '2025-04-01'" exactly when the id is "53". |
| Client.QueryDatabricks | src/lib/databricks.ts:16-31 | The rows exactly when there is no invoke error and the body reports success. Otherwise it is a failure with a non-empty message. |
| Client.QueryDatabricksMessages | src/lib/databricks.ts:21-28 | A transport error gives its message, or "Failed to query Databricks" when that is empty. An unsuccessful body gives its error, or "Query failed". |
| Client.FetchKpisResult | src/lib/databricks.ts:33-38 | A failure passes through. Otherwise the result is the first row, or none when the result is empty. |
| Heatmap.DayIndex | src/components/charts/Heatmap.tsx:35-44 | A day number lands on a row of the matrix exactly when it is 0 to 7. ISO day 7 (Sunday) goes to row 0, and days 0 to 6 keep their number. |
| Heatmap.DayIndexInjective | src/components/charts/Heatmap.tsx:35-39 | Distinct ISO days 1 to 7 get distinct rows. |
| Heatmap.BuildHeatmap | src/components/charts/Heatmap.tsx:15-56 | The matrix is a fresh 7 × 24 array. Each cell holds the value of the last accepted entry for that (day, hour), or 0. minVal and maxVal are the minimum and maximum of the accepted values, or 0 when there are none. |
| Heatmap.LowestAppend | src/components/charts/Heatmap.tsx:46 | One accepted value updates the running minimum as Math.min does from the Infinity start. |
| Heatmap.HighestAppend | src/components/charts/Heatmap.tsx:47 | One accepted value updates the running maximum as Math.max does from the −Infinity start. |
| Heatmap.SkippedEntryIgnored | src/components/charts/Heatmap.tsx:26-48 | An entry with a field missing, or out of range, changes neither any cell nor the bounds. |
| Heatmap.AcceptedEntryWritesOwnCell | src/components/charts/Heatmap.tsx:45 | An accepted entry writes its own cell and leaves every other cell unchanged. |
| Heatmap.LastAtAccepted | src/components/charts/Heatmap.tsx:45-47 | A written cell holds one of the accepted values. |
| Heatmap.BoundsEnclose | src/components/charts/Heatmap.tsx:46-53 | minVal ≤ maxVal, and every written cell lies between them. |
| Heatmap.NothingAccepted | src/components/charts/Heatmap.tsx:17-53 | With no accepted entry, every cell is 0 and both bounds are 0. |
| Heatmap.OutsideNeverWritten | src/components/charts/Heatmap.tsx:44 | No entry writes a position outside the 7 × 24 matrix. |
| Heatmap.GetColor | src/components/charts/Heatmap.tsx:58-64 | The colour is muted exactly when the value is 0 or the range is flat. |
| Heatmap.ColorRange | src/components/charts/Heatmap.tsx:60-62 | For a value in [min, max] the teal lightness lies in [40, 85]: 85 at the minimum and 40 at the maximum. |
| Heatmap.ColorMonotone | src/components/charts/Heatmap.tsx:60-62 | A larger value is never lighter. |
| Scatter.RegressionData | src/components/charts/CorrelationScatter.tsx:39-54 | Empty exactly when there is no fit or no point. Otherwise it has 21 samples. |
| Scatter.RegressionSamples | src/components/charts/CorrelationScatter.tsx:42-51 | With a fit and points, the samples run from the lowest to the highest temperature in 20 equal steps. They are non-decreasing, stay within that range, and each lies on slope·t + intercept. |
| Scatter.StrengthIcon | src/components/charts/CorrelationScatter.tsx:69-74 | The icon is up exactly when r > 0.3 and down exactly when r < −0.3. It is flat otherwise, and always flat without a fit. |
| Scatter.IconAgreesWithLabel | src/components/charts/CorrelationScatter.tsx:69-74 | An arrow agrees with the direction in the label (analytics.ts:60) and appears only for at least a weak correlation. A "none" strength always shows the flat icon. |
| Scatter.ScatterView | src/components/charts/CorrelationScatter.tsx:76-84 | The insufficient-data notice is shown exactly when there are fewer than 10 scatter points. Otherwise the chart shows those points. |
| Scatter.NoticeHidesNoFit | src/components/charts/CorrelationScatter.tsx:76-84 | Whenever the notice is shown, there was no fit to hide either. |
| Scatter.ChartLine | src/components/charts/CorrelationScatter.tsx:39-54 | A chart with a fit draws the 21-sample line. A chart without one draws no line and the flat icon. |
| Anomalies.GetAnomalySeverity | src/components/AnomaliesTable.tsx:24-28 | High exactly for ≥ 150, medium exactly for [100, 150), low exactly below 100. |
| Anomalies.SeverityMonotone | src/components/AnomaliesTable.tsx:24-28 | The tier never drops as the deviation grows. |
| Anomalies.DeepDiveLink | src/components/AnomaliesTable.tsx:20-22 | The target is "/deep-dive?building=" followed by the building id as it is. |
| Anomalies.DeepDiveLinkInjective | src/components/AnomaliesTable.tsx:20-22 | Different buildings open different pages. |
| Anomalies.SortedAnomalies | src/pages/Anomalies.tsx:8-10 | No list gives []. Otherwise the result is a permutation of the list in non-increasing order of pct_over_median. The sort works on a copy, and the given list is a value the method cannot change. |
| Anomalies.AnomalySummary | src/pages/Anomalies.tsx:40-63 | The cards appear exactly for a non-empty list, so the average divides by a positive count. The count is the length of the list. |
| Anomalies.SumBounds | src/pages/Anomalies.tsx:61 | The reduce sum of n values in [lo, hi] lies in [n·lo, n·hi]. |
| Anomalies.MeanBetweenEnds | src/pages/Anomalies.tsx:60-63 | The mean of a list in non-increasing order lies between its last and its first deviation. |
| Anomalies.SortedExtremes | src/pages/Anomalies.tsx:9 | The sorted copy starts with the largest deviation of the list and ends with the smallest. |
| Anomalies.SummaryOfSorted | src/pages/Anomalies.tsx:40-63 | For the sorted copy of a non-empty list: the count of the list, "highest" equal to the largest deviation in the list, and an average between the smallest and largest deviation. |
| Insights.ActiveBuildingId | src/pages/Insights.tsx:25-26 | The selected id when it is non-empty. Otherwise the first building's id, or "" without buildings. |
| Insights.FindBuilding | src/pages/Insights.tsx:33-35 | The first building with the id, or none exactly when no building has it. |
| Insights.DefaultSelection | src/pages/Insights.tsx:22-35 | Before a pick, the first building of a non-empty list is the one analysed. |
| Insights.PickedSelection | src/pages/Insights.tsx:33-35 | A picked id of a listed building selects a building with that id. |
| Insights.CountsBounded | src/pages/Insights.tsx:46-49 | The cold-snap and heat-wave counts together never exceed the number of anomalies, and both are 0 without a list. |
| Insights.CountsMatchWeatherReading | src/pages/Insights.tsx:46-49 | The counts equal the numbers of anomalies that the weather reading (analytics.ts:127-140) labels a cold snap and a heat wave. |
| Insights.CountVariant | src/pages/Insights.tsx:101-108 | A count card warns exactly above three events, and is default otherwise. |
| Insights.CorrelationCard | src/pages/Insights.tsx:145-158 | The weather-sensitivity card is shown exactly when there is a fit. |
| Insights.CorrelationCardBands | src/pages/Insights.tsx:151-157 | Warning exactly for \|r\| ≥ 0.7, info exactly for 0.4 ≤ \|r\| < 0.7, and default below 0.4. |
| Insights.BaseloadCard | src/pages/Insights.tsx:162-174 | Shown exactly for a positive peak. It is a warning exactly when the ratio is a number above 0.5, and success otherwise. |
| Insights.BaseloadWarningMeansHighMinimum | src/pages/Insights.tsx:162-172 | For a positive peak, the card warns exactly when the minimum exceeds half the peak. |
| Insights.RatioThreshold | src/pages/Insights.tsx:172 | With hi > 0: lo/hi > t exactly when lo > t·hi. |
| Insights.Recommendation | src/pages/Insights.tsx:177-201 | Shown exactly with both a fit and a baseload. Then, by priority: HVAC advice exactly for a strong correlation; otherwise the audit exactly when the ratio is above 0.4; otherwise peak shaving at the peak hour. |
| Insights.WarningCardMeansAudit | src/pages/Insights.tsx:172-189 | A warning baseload card with a correlation that is not strong always comes with the audit advice. |
| Insights.ZeroPeakMeansPeakShaving | src/pages/Insights.tsx:189-200 | A ratio that is not a number (zero peak) with \|r\| < 0.7 always leads to peak shaving. |
| Executive.ColdSnapAnomalies | src/components/ExecutiveSummary.tsx:28-30 | The list is absent exactly when the anomalies are. |
| Executive.ColdSnapMembers | src/components/ExecutiveSummary.tsx:28-30 | The cold-snap list holds exactly the freezing anomalies of the list. |
| Executive.KeyFindings | src/components/ExecutiveSummary.tsx:26-112 | Nothing is rendered exactly without KPIs. Each card shows on its own condition: the outlier card exactly when hasOutlier holds; the weather card exactly when pct_with_weather ≥ 80; the cold card exactly for a non-empty cold-snap list; the top-deviation card exactly for a non-empty list; the efficiency card exactly when avg_intensity > 15. |
| Executive.OutlierCard | src/components/ExecutiveSummary.tsx:46-61 | The outlier card names the first building and leads to its deep dive. When the second building's total is positive, the factor shown is above 2. |
| Executive.ColdAlertMatchesInsights | src/components/ExecutiveSummary.tsx:79-90 | The cold card counts the same events as the insights page's cold-snap card and leads to "/anomalies". |
| Executive.TopDeviationCard | src/components/ExecutiveSummary.tsx:94-109 | The top-deviation card shows the first anomaly's deviation and leads to its building's deep dive. |

## Left out

- HTTP and I/O in the gateway are not modelled: CORS, `serve`, the OPTIONS preflight, `Deno.env.get`, `req.json()`, the response serialisation and the 500 status. The environment is a `Config` value and the POST is a function parameter `send` of `Gateway.HandleQuery`. `params || []` is not modelled, because parameters are never inspected.
- Gateway.PrepareRequest: the query is an optional string. A body whose `query` is truthy but not a string (a number, `true`, an array, an object) passes the presence check and then throws a TypeError at `query.toLowerCase()`, which the outer catch reports. That error path is not modelled, because the engine's TypeError text is not part of the code.
- Gateway.HandleQuery: only the message of a thrown error is modelled. The `Unknown error` fallback for a non-Error throw is not.
- Gateway.Convert: `parseFloat` and `parseInt` are symbolic (`FloatOf(cell)`, `IntOf(cell)`). Parsing of decimal text, and the NaN produced for malformed text, are not modelled.
- The link from `supabase.functions.invoke` to the gateway is not modelled, because it is a foreign call. `Client.QueryDatabricks` takes the invoke error and body as inputs.
- Text.Lower is ASCII only. JavaScript's `toLowerCase` is Unicode-aware, so non-ASCII letters that lower-case to ASCII (the Kelvin sign, for example) are not captured.
- Analytics.CalculateTempEnergyCorrelation takes the square root as a parameter `root` with `root * root` equal to the radicand. Floating-point rounding, overflow and NaN are not modelled.
- Analytics.ValidData: the source keeps a record whose energy_kwh is `undefined`, which then poisons the sums with NaN. The model has a single "absent" value for energy, so it drops such a record.
- Analytics.CalculateBaseload: the source divides by a zero peak without a guard, which yields NaN or −Infinity. The model writes that result as `ratio == None` rather than requiring a non-zero peak, because the callers do reach this case. Insights.tsx compares the ratio with 0.4 and 0.5, and every comparison with NaN is false; `Insights.RatioAbove` is false for `None` in the same way.
- Analytics.CalculateBaseload: the peak hour is stated only as the hour of an entry attaining the maximum. It is not pinned to the entry that the stable sort puts last on a tie.
- The `icon` field of interpretAnomalyWeather (an emoji) is not modelled. The label and description texts of both interpreters are modelled, but only the label directions are proved about them.
- getStrengthColor (CorrelationScatter.tsx:56-67) is not modelled: it maps a strength to a CSS class and decides nothing.
- Number formatting is not modelled: `toFixed`, `Math.round` of the average, "k kWh" scaling, and the interpolated card texts.
- Heatmap.BuildHeatmap: day and hour are integers in the model. A fractional index (a JavaScript array property) is not modelled.
- Insights.ActiveBuildingId: building ids are strings. `String(building_id || "")` for a numeric id 0 is not modelled.
- Not modelled: the buildings-count card (Insights.tsx:113), the loading, error and empty-timeseries guards of the insights and anomalies pages, and the `selectedBuilding` existence guard around the building analysis. These are rendering conditions with no rule beyond a presence test.
- Mock-data generators, React hooks and caching, routing, and the purely presentational components are not modelled.
