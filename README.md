# co2-analyser: a verified model of the request logic

co2-analyser is a carbon-footprint tracker. An Express/MySQL backend stores
CO2 estimates, sensor readings and users. A React frontend calculates
estimates, shows them as a trend chart and keeps a per-user dashboard. This
project models the parts of it that make decisions, and proves what they
guarantee:

- `filter_query.dfy` (`FilterQuery`): the filtered-estimates route. It grows
  the SQL text and the parameter list over eight conditionals, modelled as a
  method with one step method per conditional. The method is proved against
  `FilterSql`/`FilterParams`. Lemmas show that `?` count equals parameter
  count, that the clause order is fixed, that absent filters are omitted, and
  that the SQL text depends only on which filters are present.
- `emissions.dfy` (`Emissions`): the two emission calculators, the
  activity-factor `/calculate` route and the unit-factor conversion of
  `addEnergyEmission`. It also proves that they never agree on a non-zero
  energy.
- `estimate_store.dfy` (`EstimateStore`): the inserts (`/store-estimate`,
  `addEnergyEmission`, `addCO2Data`) as methods of a class holding the
  estimate and sensor tables, with auto-increment ids as the class invariant.
- `estimate_queries.dfy` (`EstimateQueries`): the read side over a sequence
  of rows:
  - newest-first listings and the per-user filter;
  - the sensor read capped at 100 rows;
  - `SUM/AVG/MAX/MIN/COUNT`;
  - the `GROUP BY activity_type` breakdown, which sums to the total.
- `aggregates.dfy` (`Aggregates`): SQL `SUM`, `MAX`, `MIN` and `AVG` over a
  column of reals.
- `auth.dfy` (`Auth`): the guard chains of register, login, refresh-token,
  profile, save-goal and save-theme. The users table is a class whose methods
  insert and update rows. bcrypt and JWT are function parameters together with
  the properties the handlers rely on. The token lifecycle is proved from
  login through refresh to the protected routes.
- `client_api.dfy` (`ClientApi`): the frontend service. It covers:
  - the query string of `getFilteredCO2Data`, built step by step and proved to
    agree with what the server route reads back;
  - the record normalisation maps;
  - the `saveCO2Estimate` payload;
  - the emission-factor lookup;
  - the fallback selection of `getRealTimeCO2Data`.
- `trend_chart.dfy` (`TrendChart`): the chart's no-data check, the date
  fallback chain, the per-record point conversion and the energy-line choice.
- `home.dfy` (`Home`): the animated counter, as a loop over interval ticks,
  plus the goal progress, the tip of the day, the pie slices of the breakdown
  and the badge thresholds.
- `js_values.dfy` (`JsValues`) and `wrappers.dfy` (`Wrappers`): JavaScript
  values with `undefined`, `null`, truthiness, `||`, `&&`, property access and
  the `Number`/`parseFloat` conversions, plus an `Option` type.

Foreign pieces are inputs:

- the database's error reports are `dbFails: bool`;
- `NOW()` and the clock are `now`;
- bcrypt is a `Hasher`, JWT a `Jwt`, and `Date` and locale formatting a
  `Calendar` or a `dateText` function;
- string-to-number parsing is a `parse`/`toNumber` function;
- each HTTP call is an `Option<Value>` result (`None` when it throws).

## Model

| member | source | states |
|---|---|---|
| FilterQuery.BuildFilterQuery | backend/routes/co2Routes.js:117-160 | the SQL text is the base query, then the fragment of each present filter in route order, then the ORDER BY clause; the parameters are the binds of the same filters in the same order |
| FilterQuery.ApplyFilter | backend/routes/co2Routes.js:120-158 | one conditional: a present filter appends exactly its fragment and pushes exactly its parameter; an absent one changes neither |
| FilterQuery.NoFilters | backend/routes/co2Routes.js:117-160 | with no truthy filter the SQL is exactly the base query plus ` ORDER BY e.created_at DESC` and the parameter list is empty |
| FilterQuery.PlaceholdersMatchParams | backend/routes/co2Routes.js:117-160 | the number of `?` in the SQL text always equals the number of bound parameters |
| FilterQuery.WithClausesPlaceholders | backend/routes/co2Routes.js:120-158 | appending the fragments of n filters adds exactly n placeholders |
| FilterQuery.FragmentPlaceholders | backend/routes/co2Routes.js:120-158 | each filter's fragment carries exactly one `?`, at its end |
| FilterQuery.BasePlaceholders | backend/routes/co2Routes.js:117-118 | the base query carries no placeholder |
| FilterQuery.SelectedMembers | backend/routes/co2Routes.js:120-158 | a filter contributes a clause exactly when it is tested and its value is truthy; an absent or empty one contributes nothing |
| FilterQuery.SelectedOrdered | backend/routes/co2Routes.js:120-158 | the selected filters keep the route's order: location, minEmission, maxEmission, minTemp, maxTemp, startDate, endDate, activityType |
| FilterQuery.DimensionsInRouteOrder | backend/routes/co2Routes.js:120-158 | the route's own sequence of tests is in strictly increasing order, so no filter is tested twice |
| FilterQuery.BindsShape | backend/routes/co2Routes.js:121-157 | one parameter per selected filter, the i-th bound from the i-th filter |
| FilterQuery.FilterParamsShape | backend/routes/co2Routes.js:121-157 | the emission and temperature bounds are bound as `parseFloat` of the input; location, dates and activity type are bound unchanged; one parameter per present filter, in route order |
| FilterQuery.SqlDependsOnlyOnPresence | backend/routes/co2Routes.js:121-157 | two requests with the same filters present select the same filters and build the same text, so request values never enter the SQL text |
| FilterQuery.SameShapeSameSql | backend/routes/co2Routes.js:117-160 | the full SQL text is the same for any two requests with the same filters present |
| Emissions.ActivityFactor | backend/routes/co2Routes.js:65 | the factor is 0.5 exactly for "electricity", 0.3 exactly for "car", 0.2 otherwise, by strict equality |
| Emissions.Calculate | backend/routes/co2Routes.js:55-70 | 400 exactly when energy, energy_unit or activity_type is falsy; otherwise co2e is the energy's number conversion times the activity factor, in "kg" |
| Emissions.CalculateBounds | backend/routes/co2Routes.js:60-69 | a positive energy gives a positive estimate of at most half of it, and electricity > car > any other (truthy) activity |
| Emissions.UnitFactor | backend/controllers/emissionsController.js:28-33 | the factor is 0.4 exactly for "kWh", 400 exactly for "MWh", 1 for any other unit |
| Emissions.EnergyToCo2e | backend/controllers/emissionsController.js:28-33 | the result is `parseFloat(energy)` scaled by the unit factor, NaN staying NaN |
| Emissions.OtherUnitUnchanged | backend/controllers/emissionsController.js:28-33 | for a unit other than kWh and MWh the parsed energy passes through unchanged |
| Emissions.MwhIsThousandKwh | backend/controllers/emissionsController.js:30-32 | for the same energy the MWh result is exactly 1000 times the kWh result, and both are NaN together |
| Emissions.CalculatorsNeverAgree | backend/routes/co2Routes.js:65-66 | for a finite non-zero energy the `/calculate` answer never equals the `addEnergyEmission` conversion, whatever the unit and activity |
| EstimateStore.EstimateTable.StoreEstimate | backend/routes/co2Routes.js:6-37 | 400 and no change when energy or co2e is falsy (so 0 is rejected); 500 and no change on an insert error; otherwise exactly one row is appended with the next id, the activity defaulting to electricity and an integer temperature in [24, 29], and the new id is answered |
| EstimateStore.EstimateTable.AddEnergyEmission | backend/controllers/emissionsController.js:23-60 | 500 and no change without `req.user` or when the INSERT fails; otherwise one row with co2e = parsed energy × unit factor, unit "kg", the given energy, unit, activity and temperature and the caller's id is appended; it is answered with 201, or with 500 when the read-back SELECT fails, the row staying stored |
| EstimateStore.EstimateTable.AddCO2Data | backend/controllers/emissionsController.js:80-98 | 500 and no change when the INSERT fails; otherwise one reading stamped with the database time is appended; it is answered with 201, or with 500 when the read-back SELECT fails, the reading staying stored |
| EstimateStore.EstimateTable.IdsUnique | backend/routes/co2Routes.js:25-34 | the auto-increment invariant makes every stored row's id unique |
| EstimateQueries.SortDesc | backend/routes/co2Routes.js:43 | `ORDER BY … DESC` returns a permutation of the rows in non-increasing key order |
| EstimateQueries.AllEstimates | backend/routes/co2Routes.js:40-52 | `/estimates` (and `/data`) return every estimate exactly once, newest first |
| EstimateQueries.Latest | backend/routes/co2Routes.js:88-100 | null exactly for an empty table; otherwise a stored row no older than any other |
| EstimateQueries.OfUser | backend/controllers/emissionsController.js:4-20 | `WHERE user_id = ?` keeps exactly the caller's rows, and no more of them than the table holds |
| EstimateQueries.OfUserCounts | backend/controllers/emissionsController.js:4-20 | each of the caller's rows is kept as many times as it is stored, and no other row at all |
| EstimateQueries.UserEmissions | backend/controllers/emissionsController.js:4-20 | `getUserEmissions` returns exactly the caller's rows, each once, ordered by created_at descending |
| EstimateQueries.RecentReadings | backend/controllers/emissionsController.js:63-77 | `getCO2Data` returns min(n, 100) of the stored readings, newest timestamp first |
| EstimateQueries.RecentReadingsAreNewest | backend/controllers/emissionsController.js:65-70 | no reading left out of the capped read is newer than one it returns |
| EstimateQueries.EmissionStats | backend/controllers/emissionsController.js:106-116 | count is the number of the caller's rows; SUM, AVG, MAX and MIN are null exactly when count is 0, and otherwise the sum and the mean of the caller's emissions |
| Aggregates.SumBounds | backend/controllers/emissionsController.js:108 | a `SUM` over n values each between lo and hi lies between n·lo and n·hi |
| Aggregates.Max | backend/controllers/emissionsController.js:110 | `MAX` is at least every value of the column and is one of them |
| Aggregates.Min | backend/controllers/emissionsController.js:111 | `MIN` is at most every value of the column and is one of them |
| Aggregates.Mean | backend/controllers/emissionsController.js:109 | `AVG` lies between the column's MIN and MAX |
| EstimateQueries.StatsOrdered | backend/controllers/emissionsController.js:106-116 | when count > 0, min ≤ avg ≤ max |
| EstimateQueries.StatsExtremes | backend/controllers/emissionsController.js:106-116 | every one of the caller's emissions lies between min and max, and both are emissions of the caller |
| EstimateQueries.EmissionsExtremes | backend/controllers/emissionsController.js:108-111 | MIN and MAX over a non-empty selection bound every selected row's co2e and are each the co2e of a selected row |
| EstimateQueries.BreakdownSize | backend/controllers/emissionsController.js:119-125 | the `GROUP BY` gives no more groups than rows, and no group exactly when there are no rows |
| EstimateQueries.BreakdownSpec | backend/controllers/emissionsController.js:119-125 | the `GROUP BY activity_type` rows have one entry per distinct activity type present, each with the sum for that type, and together they sum to the sum of all emissions |
| EstimateQueries.EmissionStatsResponse | backend/controllers/emissionsController.js:101-136 | the response is the statistics row of the caller's rows with the breakdown of the same rows attached |
| EstimateQueries.BreakdownMatchesStats | backend/controllers/emissionsController.js:101-136 | the breakdown covers exactly the caller's activity types, each with its own sum, and its totals add up to total_emissions (and it is empty when count is 0) |
| Auth.ConfiguredSecret | backend/routes/authRoutes.js:7-8 | an unset or empty environment variable gives the built-in fallback, otherwise its value |
| Auth.RouteSecrets | backend/routes/authRoutes.js:7-8 | with neither variable set, the access and refresh secrets differ |
| Auth.CookieMatchesRefreshLifetime | backend/routes/authRoutes.js:67-75 | the refresh cookie's maxAge equals the refresh token's 7-day lifetime, which is longer than the access token's hour |
| Auth.FindByEmail | backend/routes/authRoutes.js:46-56 | `results[0]` of `WHERE email = ?`: the first row with that email, or none when no row has it |
| Auth.FindById | backend/routes/authRoutes.js:120-126 | a row whose id is the token's id, or none when no row has it |
| Auth.Login | backend/routes/authRoutes.js:41-88 | each status holds exactly when its guard is the first to fail: missing field 400, query error 500, unknown email 400, a password bcrypt cannot take 500, hash mismatch 400; on success both tokens are signed over the stored row's {id, email, role}, for 1h and 7d, and the body carries the row's role and id |
| Auth.LoginTokensShareClaims | backend/routes/authRoutes.js:64-73 | the access and refresh tokens of a login carry identical claims, the stored row's id, email and role; assuming each token verifies under its own secret exactly before it expires, the access token verifies for an hour and the refresh token for a week |
| Auth.Refresh | backend/routes/authRoutes.js:91-108 | no cookie gives 401; a cookie that fails verification gives 403; otherwise a new access token over the decoded id, email and role |
| Auth.SoundTokensExist | backend/routes/authRoutes.js:64-73 | the token assumption of the lemmas below can be met: one signer serves a login's access and refresh tokens, each verifying under its own secret exactly until it expires |
| Auth.RefreshKeepsClaims | backend/routes/authRoutes.js:96-106 | a login's refresh token presented within its week yields an access token with the login's id, email and role |
| Auth.Split | backend/routes/authRoutes.js:112 | `split(" ")` gives one part exactly when there is no space, and the first part is the text before the first space |
| Auth.BearerToken | backend/routes/authRoutes.js:112 | `authorization?.split(" ")[1]`: undefined without a header or without a space; otherwise the text after the first space up to the next space or the end |
| Auth.BearerRoundTrip | backend/routes/authRoutes.js:112 | the header `scheme token` gives back exactly the token |
| Auth.Authenticate | backend/routes/authRoutes.js:149-157 | a missing token and a token that fails verification are both rejected; otherwise the verified claims are used |
| Auth.AccessTokenAuthenticates | backend/routes/authRoutes.js:112-118 | an unexpired access token from a login, sent as `Bearer <token>`, authenticates with the login's claims |
| Auth.RefreshTokenIsNotAccessToken | backend/routes/authRoutes.js:149-157 | with distinct secrets a refresh token is never accepted by the protected routes |
| Auth.GetProfile | backend/routes/authRoutes.js:111-142 | 401 exactly when authentication fails; 500 on a query error; 404 when no row has the token's id; otherwise that row's columns with the city of its location, or null for an unknown location |
| Auth.SetGoal | backend/routes/authRoutes.js:164-165 | `UPDATE users SET co2_goal = ? WHERE id = ?`: the rows with that id get the new goal, all other rows are unchanged |
| Auth.SetTheme | backend/routes/authRoutes.js:193-194 | `UPDATE users SET theme = ? WHERE id = ?`: the rows with that id get the new theme, all other rows are unchanged |
| Auth.SetGoalTouchesOneColumn | backend/routes/authRoutes.js:164-170 | the update changes only the co2_goal column, and only in the token user's row |
| Auth.UserTable.Register | backend/routes/authRoutes.js:11-38 | 400 unless name, email, password, mobile, age and role are all truthy (location is not required); 500 for a password bcrypt cannot take, for a database error or for an email already stored; otherwise exactly one row is appended holding the hash, not the password, and location 1 whatever was sent |
| Auth.UserTable.SaveGoal | backend/routes/authRoutes.js:148-172 | 401 and no change when authentication fails; 400 only for an undefined goal (0 and "" are saved); 500 and no change on an error; otherwise the token user's goal is updated and echoed back |
| Auth.UserTable.SaveTheme | backend/routes/authRoutes.js:177-201 | 401 and no change when authentication fails; 400 for any falsy theme; 500 and no change on an error; otherwise the token user's theme is updated and echoed back |
| Auth.LoginAfterRegister | backend/routes/authRoutes.js:20-62 | after a row is stored with the hash of a password, that email and password log in, and the answer names the new user and role |
| ClientApi.BuildQueryParams | frontend/src/services/api.js:167-175 | the eight appends build exactly the pairs of the truthy filters, in the order location … activityType |
| ClientApi.AppendIfSent | frontend/src/services/api.js:168-175 | one `if … append`: a truthy filter appends its key and string value, a falsy one changes nothing |
| ClientApi.AppendedMembers | frontend/src/services/api.js:168-175 | a key is sent exactly when its filter value is truthy |
| ClientApi.QueryKeysInOrder | frontend/src/services/api.js:167-175 | the keys are sent in the server's fixed order, each at most once |
| ClientApi.ClientServerAgree | frontend/src/services/api.js:165-179 | the server route sees a filter as present exactly when the client sent it, with the text the client sent, and selects the same filters in the same order |
| ClientApi.AgreeOn | frontend/src/services/api.js:167-178 | for each filter the server reads back the client's string, or undefined when the client did not send it |
| ClientApi.Normalise | frontend/src/services/api.js:14-25 | co2_level and co2e are both `record.co2e`; co2e_unit defaults to "kg", temperature to "N/A" and activity/activity_type to "electricity", each applied to exactly the falsy values |
| ClientApi.NormaliseFiltered | frontend/src/services/api.js:181-193 | the same fields as the plain map, plus a location defaulting to "Unknown" |
| ClientApi.ZeroTemperatureIsNA | frontend/src/services/api.js:22 | a measured temperature of 0 is shown as "N/A" by both maps |
| ClientApi.AsObject | frontend/src/services/api.js:181-193 | the normalised record carries date, co2_level, co2e and energy, and has no created_at or timestamp field |
| ClientApi.NormaliseAll | frontend/src/services/api.js:14-25 | the map keeps the record count and order, one normalised record per input record |
| ClientApi.NormaliseResponse | frontend/src/services/api.js:7-35 | [] when the request throws, the data is not an array or an element cannot be read; otherwise the order-preserving map |
| ClientApi.GetCO2Data | frontend/src/services/api.js:7-35 | one record per element, co2_level and co2e both the element's co2e; [] when the data is not an array or the request throws |
| ClientApi.GetFilteredCO2Data | frontend/src/services/api.js:165-199 | a null filter object gives []; otherwise the normalised answer to the query string of the truthy filters |
| ClientApi.SaveRecord | frontend/src/services/api.js:108-114 | the record saved after an external answer has exactly the five fields: the energy as `Number(energy)`, the unit, the answer's co2e, its co2e_unit or "kg" when that is falsy, and the activity |
| ClientApi.SavePayload | frontend/src/services/api.js:43-47 | every input field is kept, user_id is the stored id or null, and activity_type is the input's when truthy and otherwise "electricity" |
| ClientApi.PayloadActivityAsStored | frontend/src/services/api.js:43-47 | the activity the server stores for the payload is the one it would have stored for the original data |
| ClientApi.EmissionFactorId | frontend/src/services/api.js:81-86 | car and flight get their own factor ids, and any other activity gets the electricity id |
| ClientApi.LocalResult | frontend/src/services/api.js:59-71 | `calculateLocalCO2` throws exactly when `/calculate` answers 400, and otherwise returns its co2e in "kg" |
| ClientApi.Fallback | frontend/src/services/api.js:123-157 | the local result is returned, and the same co2e is what is saved; it throws exactly when the local calculation throws |
| ClientApi.RealTime | frontend/src/services/api.js:74-163 | defaults 100 / "kWh" / "electricity"; without a key, or when the external call throws or answers nothing, the value is the local calculation's; otherwise it is the external answer; the save's outcome never changes the value |
| ClientApi.LocalAnswerIsCalculate | frontend/src/services/api.js:141-157 | without a key a non-zero energy gets energy × the activity factor of `/calculate`, and the saved record carries that co2e in kg with the given activity |
| ClientApi.ExternalFailureFallsBack | frontend/src/services/api.js:123-140 | a failing external service gives the same outcome as having no key |
| TrendChart.FirstTruthy | frontend/src/pages/CO2TrendChart.jsx:23-32 | an `a ‖ b ‖ …` chain gives the first truthy candidate, or the last candidate when none is truthy |
| TrendChart.DateValue | frontend/src/pages/CO2TrendChart.jsx:23-32 | the date is the first truthy of created_at, timestamp, date, day, recorded_at, time, datetime, meta.date and meta.timestamp, and the last candidate when none is truthy |
| TrendChart.ParsedTime | frontend/src/pages/CO2TrendChart.jsx:40-48 | a numeric date is read as milliseconds and, when that gives a year before 2000, re-read as seconds (× 1000); NaN gives no date; a non-numeric date is parsed as given |
| TrendChart.DateString | frontend/src/pages/CO2TrendChart.jsx:36-56 | "unknown" when there is no date or it does not parse, otherwise the locale date of the parsed time |
| TrendChart.Co2Source | frontend/src/pages/CO2TrendChart.jsx:58-63 | co2_level if defined, else co2e if defined, else 0 |
| TrendChart.FormatRecord | frontend/src/pages/CO2TrendChart.jsx:35-70 | the point's timestamp comes from the date chain, its co2_level is `parseFloat` of the CO2 source, and its energy is 0 when record.energy is falsy |
| TrendChart.FormattedData | frontend/src/pages/CO2TrendChart.jsx:35-72 | one point per record, same length and order as the input (not sorted) |
| TrendChart.RenderChart | frontend/src/pages/CO2TrendChart.jsx:13-126 | the no-data message exactly for missing or empty data; a chart exactly when the records can be mapped; the energy line exactly when some point's energy is > 0 |
| TrendChart.EnergyLineIffPositiveEnergy | frontend/src/pages/CO2TrendChart.jsx:126 | the energy line is drawn exactly when some record has a truthy energy that parses to a positive number |
| TrendChart.UnknownWithoutDate | frontend/src/pages/CO2TrendChart.jsx:37-56 | a record with none of the nine date fields gets the timestamp "unknown" |
| TrendChart.ChartReadsNormalised | frontend/src/pages/CO2TrendChart.jsx:23-67 | a record normalised by the service is dated by its `date` field and charted by its co2e |
| Home.Step | frontend/src/pages/Home.jsx:41 | `Math.ceil(co2Saved / 40)`: a whole number, at least 1, less than co2Saved / 40 + 1, and 40 steps reach co2Saved |
| Home.AnimateCounter | frontend/src/pages/Home.jsx:38-55 | for co2Saved ≤ 0 (or not a number) 0 is shown once; otherwise each tick shows the running sum of steps while it is below co2Saved, and then co2Saved exactly, and the loop stops |
| Home.RisingIsMultiple | frontend/src/pages/Home.jsx:42-49 | below co2Saved the k-th value shown is (k+1) × step |
| Home.RampLength | frontend/src/pages/Home.jsx:41-50 | the counter reaches co2Saved within 40 ticks |
| Home.RampBounded | frontend/src/pages/Home.jsx:39-54 | every value shown is positive and never above co2Saved, and the values rise strictly |
| Home.Progress | frontend/src/pages/Home.jsx:99-100 | progress is min(co2Saved / 500 × 100, 100): never above 100, exactly 100 from 500 kg on, proportional below; NaN stays NaN |
| Home.GoalAchievedIffGoalReached | frontend/src/pages/Home.jsx:161 | "Goal achieved" shows exactly when co2Saved is a number ≥ 500 |
| Home.TipIndex | frontend/src/pages/Home.jsx:96 | the day of the month mod 5 is always a valid index into the five tips |
| Home.TipRotates | frontend/src/pages/Home.jsx:96 | within a month consecutive days show different tips, and a tip comes back after five days |
| Home.MonthWrapRepeats | frontend/src/pages/Home.jsx:95-96 | the rotation stalls across the end of a 31-day month: the 31st and the next 1st show the same tip |
| Home.Capitalise | frontend/src/pages/Home.jsx:105 | the first character is upper-cased and the rest kept |
| Home.PieSlices | frontend/src/pages/Home.jsx:103-108 | one slice per breakdown entry, in order, named by the capitalised activity type, valued at the entry's total and coloured `COLORS[idx % 5]` |
| Home.PieShowsGrandTotal | frontend/src/pages/Home.jsx:104-108 | the slices together show the breakdown's grand total |
| Home.NeighboursDiffer | frontend/src/pages/Home.jsx:107 | consecutive slices in breakdown order never share a colour; the first and last slices, which touch in the pie, share one exactly when there are 1 more than a multiple of five slices (6, 11, …) |
| Home.BadgeFor | frontend/src/pages/Home.jsx:192-196 | total > 1000 gives the one-ton message, else total > 100 gives the 100 kg message, else the generic message |
| Home.BadgeMonotone | frontend/src/pages/Home.jsx:192-196 | a larger total never earns a lesser badge |
| Home.StatsBody | backend/controllers/emissionsController.js:128-131 | the stats body spreads the statistics row (NULL aggregates as null, count as a number) and adds the breakdown |
| Home.ShowsBadgeIffCounted | frontend/src/pages/Home.jsx:183 | the badge card shows on a stats body exactly when its count is positive |
| Home.BadgeShownIffEstimates | frontend/src/pages/Home.jsx:183-197 | on the stats of a user's rows the badge shows exactly when the user has a stored estimate, and its message is chosen from the sum of the user's emissions |

## Left out

- The MySQL engine and its type coercions. Rows on the read side are typed
  (`real` co2e, `int` times), and rows on the insert side keep the JavaScript
  values the handler binds. The driver's conversions, such as DECIMAL
  returned as text or a bool bound as a number, are not modelled. Nor is
  the driver's formatting of a NaN parameter as the bare text `NaN`, which
  MySQL rejects: `AddEnergyEmission` with an unparseable or absent energy
  stores a NaN co2e and answers 201 unless `insertFails` is set, where the
  source answers 500.
- Database errors on the read queries of `EstimateQueries` (`/estimates`,
  `/data`, `/latest`, `getUserEmissions`, `getCO2Data`, `getEmissionStats`).
  Each answers 500 and is not modelled. In `Auth` the read errors are modelled
  as `dbFails`.
- `EstimateQueries.UserEmissions` and `EstimateQueries.EmissionStatsResponse`:
  the 500 a missing `req.user` causes (the read of `req.user.id` throws and
  the catch answers 500) is not modelled. Both are stated for a known caller
  id.
- NULL columns on the read side. The rows of `EstimateQueries` carry a
  `nat` user id, a `real` co2e and a `string` activity type, so rows holding
  NULL in any of these are outside the model. What SQL does with them, and
  the model does not capture:
  - `/store-estimate` without a user_id stores a NULL `user_id`
    (backend/routes/co2Routes.js:7,27). Such anonymous rows are returned by
    `/estimates` and `/data`, but `AllEstimates` never sees them.
  - `addEnergyEmission` without `activity_type` stores a NULL activity type
    (backend/controllers/emissionsController.js:25,45). `GROUP BY
    activity_type` puts all such rows into one group whose `activity_type`
    is null. The Home page's `item.activity_type.charAt(0)`
    (frontend/src/pages/Home.jsx:105) then throws on that group, which
    `EstimateQueries.Entry` and `Home.PieSlices` cannot represent.
  - `SUM`, `AVG`, `MAX` and `MIN` skip a NULL co2e, but `COUNT(*)` counts its
    row, so in the source `count > 0` does not imply a non-null total.
- The order of the `GROUP BY` rows. SQL does not fix it; the model lists the
  groups in order of first appearance, and every proved property is
  independent of that order.
- IEEE floating point and infinities. Numbers are `real` or NaN, and the
  factors multiply exactly.
- `parseFloat`, `Number` on strings, `String` of a value, `new Date`,
  `getFullYear`, `toLocaleDateString` and `getDate`. They are function
  parameters (`parse`, `toNumber`, `str`, `Calendar`, `dateText`, the day of
  the month).
- JsValues.ParseFloat and JsValues.ToNumber: arrays and objects give NaN,
  where JavaScript converts them through their string form. A repeated query
  key (`?minEmission=5&minEmission=9`) arrives as an array that `parseFloat`
  reads as 5, and `{"energy": [5]}` multiplies as 5 in `/calculate`; the
  model does not capture these.
- `toUpperCase` is modelled for ASCII letters only. Other characters are kept
  as they are.
- `Math.random`: `/store-estimate` picks its temperature by a
  non-deterministic choice in [24, 29], not by a distribution.
- bcrypt and JWT internals are left out. They are the `Hasher` and `Jwt`
  parameters. The lemmas assume only that a password matches its own hash,
  and that each token they use (`SoundToken`) verifies exactly under its own
  secret and before its expiry, decoding to the claims it was signed with.
- The refresh cookie itself (`httpOnly`, `secure`) is left out. The cookie's
  value is an input of `Refresh`.
- The model assumes a promise-returning database client. backend/db.js
  exports the callback-style `mysql2` pool, whose `query` without a callback
  returns an emitter that is neither a promise nor iterable. As written, the
  emissions controller's `const [rows] = await db.query(…)` would then throw
  and answer 500, in the two insert handlers after the INSERT was sent.
- The model assumes a cookie parser fills `req.cookies`. backend/server.js
  loads none, so as written `req.cookies` is undefined, the read at
  backend/routes/authRoutes.js:92 throws and `/refresh-token` answers 500.
- MySQL's case-insensitive email comparison is not modelled. Emails compare
  as exact values.
- The users table is a sequence, so that the first matching row
  (`results[0]`) is determined.
- The `co2_goal` and `theme` column defaults are not modelled. A new user
  row stores null for both.
- Timers: `setInterval` in the counter effect is a sequence of ticks, so the
  20 ms period and the cleanup on unmount are not modelled.
- Request failures of `calculateLocalCO2` other than a 400 from `/calculate`
  (network errors) are not modelled.
- A failed save inside `getRealTimeCO2Data` is caught and does not change the
  returned value, so its outcome is not an input.
- The request bodies' JSON serialisation is not modelled. The Climatiq
  request is a function of the factor id, the energy and the unit.
- Prototype keys in the `activityIds` lookup (such as `"constructor"`) and
  keys coerced from non-strings are not modelled. Only the three listed keys
  are recognised.
- Spreading a non-object `data` in `saveCO2Estimate` is not modelled. The
  data is a map.
- `saveUserGoal` and `saveUserTheme` in the service file only post to the
  auth routes. They are not modelled beyond those routes.
- The server bootstrap, the connection pool, the duplicate profile route in
  backend/server.js and the older copies of the pages are not part of this
  model.
- The emissions controller is not mounted by backend/server.js and reads
  `req.user`, which no middleware sets. Its logic is modelled as written,
  without assuming it is reachable. The Home page's request to
  `/api/co2/stats` (frontend/src/pages/Home.jsx:87) reaches no router;
  `Home.BadgeShownIffEstimates` states what the badge would show for a body
  of the `getEmissionStats` shape.
- JSX rendering, animation and chart drawing are not modelled. Only the
  values given to them are.
