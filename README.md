# CrimeInMyArea: the crime-data service as a Dafny model

CrimeInMyArea is a mobile app. It shows the street crime that the UK police
data provider reports around the device's position. All the logic behind the
page is in one service, `CrimeDataService`. Given a coordinate, it works out
the latest month the provider has data for and the police force and
neighbourhood the coordinate falls in. It then returns the cached
`CrimeReport` if the configured granularity (street, neighbourhood or force)
still considers it fresh. Otherwise it builds a new report: at neighbourhood
granularity it first fetches the neighbourhood boundary, then it asks for that
month's incidents, turns the answer or the error into a summary, and stores
the report. The service caches the month for 24 hours, the boundary per
neighbourhood, and the ids and coordinates of the last fetch.

This project models that service and the data types it exchanges.

| file | module | contents |
|---|---|---|
| models.dfy | `Models` | The records of `Models.cs`. Summaries are a datatype: one case per text the service writes. Also the report's constructor defaults and the distance label of an incident. |
| strings.dfy | `Strings` | `string.Join` and `String.Split(char)` over `seq<char>`, with their round trip. |
| polygon.dfy | `Polygon` | `FormatPolygon`, the boundary serialised as the `poly` field, including the exception a null vertex raises. |
| cache_model.dfy | `CacheModel` | Every operation of the service as a pure function. Each maps the cache fields (`CacheState`), the arguments and the outcomes of the network requests to a `Step`: the new fields, the result, and the requests sent, in order. |
| cache_properties.dfy | `CacheProperties` | The service's promises, stated and proved as lemmas about those functions. |
| crime_data_service.dfy | `Services` | The class `CrimeDataService`. Its fields are the private fields of the C# class. Its methods update them step by step, in the same order and on the same branches as the C# code. Each method is proved to leave exactly the state, result and request log given by the `CacheModel` function of the same operation, so every lemma in `CacheProperties` holds of the class. |

The environment is passed in from outside:
- **Network requests.** Each request's outcome is an argument: `Fetch<T>` (failed, or a possibly-null body) or `IncidentResponse` (one case per catch clause). The methods append the requests they send to the ghost log `requests`.
- **Clock.** `DateTime.UtcNow` is an integer tick count (100 ns ticks). The month step reads the clock twice, so it takes two ticks: `now` for the 24-hour test (line 66), and `answeredAt`, read after the request's answer has been parsed (line 94), which a successful fetch stores as the check time. The 24-hour test is written out in ticks.
- **Distance.** The haversine distance is a function `distance: (Coord, Coord) -> real`, given to the constructor. `HasMovedSignificantly` keeps the strict comparison `distance > threshold`.
- **Months.** A `yyyy-MM` month is a `Period(year, month)`. An upstream entry whose date is null or does not parse is `None`; parsing it throws in the source. A null entry of the list also throws there, in the sort key, and is modelled as the same `None`.
- **Boundaries.** A boundary is the provider's list as JSON gives it, `seq<Option<BoundaryPoint>>`: an element may be null.

## Model

| member | source | states |
|---|---|---|
| Services.CrimeDataService.constructor | Shared_Code/Services/CrimeDataService.cs:13-37 | A new service has neighbourhood granularity, a 1.6 km radius, and every other field at its default (the initial cache); no request has been sent. |
| Services.CrimeDataService.Configure | Shared_Code/Services/CrimeDataService.cs:45-58 | The new fields are those of `Configured` on the old ones (see `CacheProperties.ConfigureEffect`); no request is sent. |
| Services.CrimeDataService.GetLatestAvailableCrimeMonth | Shared_Code/Services/CrimeDataService.cs:60-112 | The fields, the returned month and the requests sent are exactly those of `CacheModel.GetLatestMonth` on the old fields, with the test clock `now` and the stored clock `answeredAt`. |
| Services.CrimeDataService.GetForceAndNeighbourhood | Shared_Code/Services/CrimeDataService.cs:114-153 | Returns the ids of a successful, non-null answer and null on any failure. No cache field changes. Exactly one locate request is sent. |
| Services.CrimeDataService.GetNeighbourhoodBoundary | Shared_Code/Services/CrimeDataService.cs:155-208 | The fields, the returned boundary and the requests sent are exactly those of `CacheModel.GetBoundary` on the old fields. |
| Services.CrimeDataService.GetCrimeData | Shared_Code/Services/CrimeDataService.cs:247-525 | The fields, the returned report and the requests sent are exactly those of `CacheModel.GetCrimeData` on the old fields. Every property below about that function therefore holds of the method. |
| Services.CrimeDataService.ReportForMonth | Shared_Code/Services/CrimeDataService.cs:281-296 | Once the month is known: the locate request, then either the area fallback or the reuse-or-fetch decision, as `CacheModel.ReportForMonth` gives. |
| Services.CrimeDataService.ReuseOrFetchReport | Shared_Code/Services/CrimeDataService.cs:297-354 | The staleness switch of the configured granularity, then the cached report or a new fetch, as `CacheModel.ReuseOrFetch` gives. |
| Services.CrimeDataService.FetchNewReport | Shared_Code/Services/CrimeDataService.cs:356-447 | Records the located ids, builds the default report for the month and granularity, and runs the granularity's fetch, as `CacheModel.FetchReport` gives. |
| Services.CrimeDataService.FetchStreetReport | Shared_Code/Services/CrimeDataService.cs:382-393 | Stamps the street coordinate and force id, then asks for the incidents at the coordinate, as `CacheModel.StreetFetch` gives. |
| Services.CrimeDataService.FetchNeighbourhoodReport | Shared_Code/Services/CrimeDataService.cs:395-433 | With `CacheModel.NeighbourhoodFetch`: fetches the boundary. If it is non-empty and formats, stamps the ids and posts the polygon query. If a vertex is null, stores the exception's report. Otherwise stores the boundary explanation. |
| Services.CrimeDataService.FetchForceReport | Shared_Code/Services/CrimeDataService.cs:435-446 | Stamps the force id and the coordinate, then asks for the incidents around the coordinate, as `CacheModel.ForceFetch` gives. |
| Services.CrimeDataService.SendIncidentRequest | Shared_Code/Services/CrimeDataService.cs:449-524 | Sends exactly the given incident request, returns the completed report, and stores it as the last report. Nothing else changes. |
| Services.CrimeDataService.CompleteReport | Shared_Code/Services/CrimeDataService.cs:472-517 | Applies the catch clauses and then the summary step, including the source's own "empty or default text" test, and agrees with `CacheModel.Completed` for every outcome. |
| Models.PeriodLe | Shared_Code/Services/CrimeDataService.cs:88-92 | The order of the parsed months that `OrderByDescending` sorts by: earlier years first, then earlier months within a year. `CacheProperties.MaxPeriodIsLatest` uses it to state that no listed month is later than the chosen one. |
| Models.Text | Shared_Code/Services/CrimeDataService.cs:265-496 | The exact texts the service writes for the fixed summaries: the two fallbacks (lines 268, 294), the boundary explanation (429), the API error with its optional status (477-481), the processing error (488) and the unexpected error (495). `Models.OnlyDefaultIsReplaced` rests on these texts. |
| Models.ReplacesDefault | Shared_Code/Services/CrimeDataService.cs:513 | The line-513 test for a summary nobody has set: empty, or the constructor's default text. `Models.OnlyDefaultIsReplaced` proves it holds of the default summary only. |
| Models.LabelText | Shared_Code/Models/Models.cs:89 | The two distance labels that embed no number, `N/A` and `< 100 m`; `Models.DistanceDisplay` states which distances get them. |
| Models.DefaultReport | Shared_Code/Models/Models.cs:19-24 | A new report has the summary "No data available.", a count of 0, an empty incident list and no area label. |
| Models.OnlyDefaultIsReplaced | Shared_Code/Services/CrimeDataService.cs:513 | The "summary is still unset" test (empty, or the default text) holds of the default summary and of no summary the service can write. |
| Models.DistanceDisplay | Shared_Code/Models/Models.cs:89 | "N/A" exactly for a negative distance; "< 100 m" exactly for 0 to under 0.1 km; the kilometre label, carrying the distance, exactly from 0.1 km up. |
| Strings.Split | Shared_Code/Services/CrimeDataService.cs:477 | Splitting always yields at least one piece, so the first piece always exists. |
| Strings.FirstPiece | Shared_Code/Services/CrimeDataService.cs:477 | The first piece of `Split` is the longest separator-free prefix of the string. |
| Strings.CountAppend | Shared_Code/Services/CrimeDataService.cs:214 | Occurrences of a character add up over concatenation. |
| Strings.CountAbsent | Shared_Code/Services/CrimeDataService.cs:214 | A string without the character has no occurrences of it. |
| Strings.SplitPrefix | Shared_Code/Services/CrimeDataService.cs:214 | A separator-free prefix stays glued to the first piece when splitting. |
| Strings.SplitJoin | Shared_Code/Services/CrimeDataService.cs:214 | Splitting a join of separator-free parts on the same separator gives the parts back. |
| Strings.Join | Shared_Code/Services/CrimeDataService.cs:214 | `string.Join` with a one-character separator: the parts in order, one separator between neighbours. Its meaning is fixed by the round trip `Strings.SplitJoin` and the count `Strings.JoinSeparatorCount`. |
| Strings.JoinSeparatorCount | Shared_Code/Services/CrimeDataService.cs:214 | Joining n separator-free parts puts exactly n - 1 separators in the text. |
| Polygon.Interpolated | Shared_Code/Services/CrimeDataService.cs:214 | A null coordinate string interpolates as the empty string. |
| Polygon.PairText | Shared_Code/Services/CrimeDataService.cs:214 | One vertex as its latitude text, a comma, and its longitude text; `Polygon.PairTextColonFree` and `Polygon.FormatPolygonPairs` state what the polygon text then contains. |
| Polygon.Pairs | Shared_Code/Services/CrimeDataService.cs:214 | One `lat,lon` text per vertex, in the boundary's order. |
| Polygon.Vertices | Shared_Code/Services/CrimeDataService.cs:214 | The vertices of a boundary, defined only when no element is null (reading a null element throws); one per element. |
| Polygon.VerticesPresent | Shared_Code/Services/CrimeDataService.cs:214 | The vertices exist exactly when no element is null, and are then the elements in order. |
| Polygon.FormatPolygon | Shared_Code/Services/CrimeDataService.cs:210-215 | A null or empty boundary gives the empty string. Otherwise the pairs joined by `:`, or the exception when an element is null (see `Polygon.FormatPolygonFails` and `Polygon.FormatPolygonPairs`). |
| Polygon.FormatPolygonFails | Shared_Code/Services/CrimeDataService.cs:212-214 | A non-empty boundary fails to format exactly when one of its elements is null. |
| Polygon.PairTextColonFree | Shared_Code/Services/CrimeDataService.cs:214 | A vertex whose coordinates hold no `:` gives a pair text without `:`. |
| Polygon.FormatPolygonPairs | Shared_Code/Services/CrimeDataService.cs:210-215 | For n non-null vertices with `:`-free coordinates, splitting the text on `:` gives each vertex's `lat,lon` text in input order, and the text holds exactly n - 1 separators. |
| CacheModel.InitialCache | Shared_Code/Services/CrimeDataService.cs:13-37 | A new service has neighbourhood granularity, the 1.6 km default radius, and no month, report or boundary cached. |
| CacheModel.Periods | Shared_Code/Services/CrimeDataService.cs:88-93 | When every date parses, there is one month per entry. |
| CacheModel.MaxPeriod | Shared_Code/Services/CrimeDataService.cs:88-92 | The latest month of a non-empty list is one of its months; `CacheProperties.MaxPeriodIsLatest` adds that no month of the list is later. |
| CacheModel.LatestOf | Shared_Code/Services/CrimeDataService.cs:81-97 | A month is named only by a successful, non-null, non-empty answer whose entries all parse, and it is one of the listed months. |
| CacheModel.MonthCacheHit | Shared_Code/Services/CrimeDataService.cs:63-67 | The month cache answers exactly when the call is not forced, a month is cached and it was checked less than 24 hours ago; `CacheProperties.MonthCacheHitSendsNothing` states the outcome. |
| CacheModel.GetLatestMonth | Shared_Code/Services/CrimeDataService.cs:60-112 | The month step: a cache hit, or one request whose parsed maximum is cached with the clock read after the answer (`answeredAt`) as the check time, or the old month unchanged. Stated by `CacheProperties.MonthCacheHitSendsNothing`, `CacheProperties.MonthFetchPicksLatest`, `CacheProperties.MonthFetchFailureKeepsCache` and `CacheProperties.MonthStepKeepsReportFields`. |
| CacheModel.Located | Shared_Code/Services/CrimeDataService.cs:120-152 | The ids of a successful, non-null locate answer, null on any failure; the class method `Services.CrimeDataService.GetForceAndNeighbourhood` states it. |
| CacheModel.BoundaryCacheHit | Shared_Code/Services/CrimeDataService.cs:162-166 | The boundary cache answers exactly when the call is not forced, a boundary is cached and its owner is the requested neighbourhood; `CacheProperties.BoundaryHitExactly` states the outcome. |
| CacheModel.GetBoundary | Shared_Code/Services/CrimeDataService.cs:155-208 | The boundary step: hit, cached fetch, or cleared failure. Stated by `CacheProperties.BoundaryHitExactly`, `CacheProperties.BoundaryFetchCaches` and `CacheProperties.BoundaryFailureClears`. |
| CacheModel.HasMovedSignificantly | Shared_Code/Services/CrimeDataService.cs:217-245 | Moved exactly when the distance between the two points is strictly greater than the threshold; the distance itself is a parameter of the model. |
| CacheModel.Stale | Shared_Code/Services/CrimeDataService.cs:300-348 | The per-granularity staleness test, keeping the source's argument order. Stated by `CacheProperties.MovementThresholds` and `CacheProperties.NeighbourhoodIgnoresMovement`. |
| CacheModel.FallbackReport | Shared_Code/Services/CrimeDataService.cs:265-269 | The previous report, else a new report carrying the explanation; its cases are stated by `CacheProperties.UnknownPeriodFallsBack` and `CacheProperties.UnknownAreaFallsBack`. |
| CacheModel.CaughtSummary | Shared_Code/Services/CrimeDataService.cs:472-496 | A received answer leaves the summary as it was. A failure replaces it with an error text that is never the default summary, so the summary step after it keeps the error. |
| CacheModel.Completed | Shared_Code/Services/CrimeDataService.cs:498-517 | The report after the incident answer. `CacheProperties.CompletedSummary` states every outcome; `Services.CrimeDataService.CompleteReport` shows that the source's own empty-or-default test gives the same report. |
| CacheModel.FetchReport | Shared_Code/Services/CrimeDataService.cs:356-447 | A new report: the located ids become current, then the granularity's branch. Stated by `CacheProperties.FetchStoresReport`, `CacheProperties.IncidentRequestStampsMarkers`, `CacheProperties.MissingBoundaryShortCircuits` and `CacheProperties.NullVertexAbortsFetch`. |
| CacheModel.StreetFetch | Shared_Code/Services/CrimeDataService.cs:382-393 | The street branch: the coordinate and the force id are stamped before the point query, and the completed report is stored; stated by `CacheProperties.IncidentRequestStampsMarkers`. |
| CacheModel.NeighbourhoodFetch | Shared_Code/Services/CrimeDataService.cs:395-433 | The neighbourhood branch: the boundary, then the polygon query with the ids stamped, the boundary explanation, or the null-vertex error. Stated by `CacheProperties.NeighbourhoodFetchStores` and the lemmas named for `CacheModel.FetchReport`. |
| CacheModel.ForceFetch | Shared_Code/Services/CrimeDataService.cs:435-446 | The force branch: the force id and the coordinate are stamped before the point query, and the completed report is stored; stated by `CacheProperties.IncidentRequestStampsMarkers`. |
| CacheModel.MonthForcesFetch | Shared_Code/Services/CrimeDataService.cs:254-279 | A fetch is due before any staleness test exactly when the caller forces it or the month differs from the cached report's; `CacheProperties.NewMonthForcesFetch` states the consequence. |
| CacheModel.NeedsDataFetch | Shared_Code/Services/CrimeDataService.cs:254-348 | Whether a call with a known month and area fetches: the month condition or the staleness test. `CacheProperties.FreshReportIsReused` and `CacheProperties.NeededFetchBuildsReport` state both outcomes. |
| CacheModel.ReuseOrFetch | Shared_Code/Services/CrimeDataService.cs:300-354 | The cached report itself when nothing asks for a fetch and one exists, else a new report; stated by `CacheProperties.FreshReportIsReused` and `CacheProperties.NeededFetchBuildsReport`. |
| CacheModel.ReportForMonth | Shared_Code/Services/CrimeDataService.cs:281-354 | Once the month is known: one locate request, then the area fallback or the reuse-or-fetch decision; stated by `CacheProperties.UnknownAreaFallsBack`. |
| CacheModel.GetCrimeData | Shared_Code/Services/CrimeDataService.cs:247-525 | One call of the public operation. The lemmas of `CacheProperties` from `CacheProperties.UnknownPeriodFallsBack` to `CacheProperties.ConfigureForcesRefetch` state what it returns, stores and sends. |
| CacheModel.Configured | Shared_Code/Services/CrimeDataService.cs:45-58 | The fields after `Configure`; stated field by field by `CacheProperties.ConfigureEffect`. |
| CacheProperties.ConfigureEffect | Shared_Code/Services/CrimeDataService.cs:45-58 | Configuring sets the granularity and clears the report and both id markers. The radius changes only when one is given with force granularity. The month cache, boundary cache, current ids and saved coordinates are untouched. |
| CacheProperties.MonthCacheHitSendsNothing | Shared_Code/Services/CrimeDataService.cs:63-71 | Not forced, a month cached and checked less than 24 hours ago: the cached month is returned, no request is sent and nothing changes. |
| CacheProperties.MonthFetchPicksLatest | Shared_Code/Services/CrimeDataService.cs:73-97 | Otherwise one request is sent. On a non-empty list that parses, the result is one of the listed months and no listed month is later. The cached month and check time become that month and `answeredAt`, the clock read after the answer, not the `now` of the 24-hour test. |
| CacheProperties.MonthWindowStartsAtAnswer | Shared_Code/Services/CrimeDataService.cs:63-94 | After a successful fetch answered at `answeredAt`, an unforced call at `later` sends no request, and returns the fetched month with nothing changed, exactly when `later` is less than 24 hours after `answeredAt`. |
| CacheProperties.PeriodsParsesAll | Shared_Code/Services/CrimeDataService.cs:88-93 | The list of months exists exactly when every entry parses, and then holds the entries' months in order. |
| CacheProperties.MaxPeriodIsLatest | Shared_Code/Services/CrimeDataService.cs:88-92 | The maximum belongs to the list and no month of the list is later. |
| CacheProperties.MonthFetchFailureKeepsCache | Shared_Code/Services/CrimeDataService.cs:98-111 | A failed request, a null or empty list, or an entry that does not parse: both month fields keep their values, the old month (possibly none) is returned, and one request was sent. |
| CacheProperties.BoundaryHitExactly | Shared_Code/Services/CrimeDataService.cs:162-176 | No request is sent exactly when the call is not forced, a boundary is cached and its owner is the requested neighbourhood. Then the cached boundary is returned unchanged; otherwise exactly one boundary request for the given ids is sent. |
| CacheProperties.BoundaryFetchCaches | Shared_Code/Services/CrimeDataService.cs:185-191 | On a miss whose answer is a list, even an empty one, the cache becomes that list with its owner, and the list is returned. |
| CacheProperties.BoundaryFailureClears | Shared_Code/Services/CrimeDataService.cs:192-207 | On a miss whose request fails or yields null, both boundary fields are cleared and null is returned. |
| CacheProperties.BoundaryRefreshFlagIsRedundant | Shared_Code/Services/CrimeDataService.cs:396-400 | The refresh flag the report fetch passes ("the id differs from the cached owner") never changes the boundary step's outcome. |
| CacheProperties.NeighbourhoodIgnoresMovement | Shared_Code/Services/CrimeDataService.cs:319-327 | At neighbourhood granularity, staleness depends on neither the coordinate nor the distance function: it is "no report, or a different neighbourhood id". |
| CacheProperties.MovementThresholds | Shared_Code/Services/CrimeDataService.cs:304-343 | With a report and an unchanged force id: a street report is stale exactly beyond 200 m, and a force report exactly beyond the radius times 50. |
| CacheProperties.UnknownPeriodFallsBack | Shared_Code/Services/CrimeDataService.cs:260-270 | No month: the previous report, or a new report saying the period is unknown with no incidents. The cache is unchanged, and only the month request was sent. |
| CacheProperties.UnknownAreaFallsBack | Shared_Code/Services/CrimeDataService.cs:281-296 | Month known but no area: the previous report, or a new report saying the area is unknown. Only the month step may have changed the cache; the requests are the month step's plus one locate request. |
| CacheProperties.FreshReportIsReused | Shared_Code/Services/CrimeDataService.cs:300-354 | Month and area known and no fetch needed: a report was cached, and that same report comes back. The cache is as the month step left it; no boundary or incident request is sent. |
| CacheProperties.NeededFetchBuildsReport | Shared_Code/Services/CrimeDataService.cs:356-366 | Month and area known and a fetch needed: the returned report is built for the resolved month and the configured granularity and is stored, and the located ids become current. |
| CacheProperties.NewMonthForcesFetch | Shared_Code/Services/CrimeDataService.cs:272-279 | A resolved month that differs from the cached report's forces a new, stored report, whatever the flag and the staleness tests say. |
| CacheProperties.FetchStoresReport | Shared_Code/Services/CrimeDataService.cs:356-432 | Every fetch, however it ends, stores the report it returns. The report is built for the given month and the configured granularity, and the located ids become current. |
| CacheProperties.NeighbourhoodFetchStores | Shared_Code/Services/CrimeDataService.cs:395-432 | The same for the neighbourhood branch, which also keeps the granularity and the current ids. |
| CacheProperties.MissingBoundaryShortCircuits | Shared_Code/Services/CrimeDataService.cs:401-432 | Neighbourhood granularity with a null or empty boundary: the stored report says the boundary is unavailable and has no incidents. No incident request is sent, and neither "last fetched" id marker is stamped. |
| CacheProperties.NullVertexAbortsFetch | Shared_Code/Services/CrimeDataService.cs:401-496 | Neighbourhood granularity with a boundary holding a null vertex: formatting throws before the area label and the markers are set. The stored report carries the unexpected-error summary naming `NullReferenceException` and has no area label and no incidents. No incident request is sent, neither id marker is stamped, and the boundary stays cached. |
| CacheProperties.ForcedRefreshKeepsBoundary | Shared_Code/Services/CrimeDataService.cs:396-400 | A forced call at neighbourhood granularity with a formattable boundary cached for the located neighbourhood sends the month, locate and polygon requests and no boundary request; the boundary cache is kept. |
| CacheProperties.BoundaryFailureIsRetried | Shared_Code/Services/CrimeDataService.cs:319-327 | After a fetch that found no usable boundary, a later neighbourhood staleness test fails exactly when the neighbourhood equals the marker as it was before that fetch. When the boundary step returned null, the boundary cache cannot answer the next boundary step. |
| CacheProperties.IncidentRequestStampsMarkers | Shared_Code/Services/CrimeDataService.cs:381-446 | Once the incident request is sent, the report is stored whatever the outcome, and the granularity's markers are stamped. The request is the granularity's own: a point query at the coordinate for street and force, the cached boundary's polygon for neighbourhood, whose formatting then succeeds. |
| CacheProperties.CompletedSummary | Shared_Code/Services/CrimeDataService.cs:472-517 | After the incident request, for each outcome. Incidents received: their count and list, with the "crime(s) reported" or "No crimes" summary. Null: "No crime data found". HTTP error: the message up to its first period, with the status. JSON error: the processing error. Any other error: the unexpected error naming the exception type. |
| CacheProperties.ApiErrorKeepsFirstSentence | Shared_Code/Services/CrimeDataService.cs:477 | The text of an API error keeps the exception message up to, and not including, its first period. |
| CacheProperties.StampedFetchIsFresh | Shared_Code/Services/CrimeDataService.cs:304-343 | A fetch that sent its incident request leaves a cache in which the same area and coordinate are not stale. This holds when a point's distance to itself is 0 and the radius is not negative. |
| CacheProperties.RepeatedCallReusesReport | Shared_Code/Services/CrimeDataService.cs:247-354 | Two calls for the same coordinate with the same month and area, the second not forced: if the first sent its incident request, the second returns the same report and sends no incident request. It sends only the locate request, plus the month request when that cache has expired. |
| CacheProperties.IncidentRequestMeansFetch | Shared_Code/Services/CrimeDataService.cs:260-366 | A call that sent an incident request resolved its month and its area, and its result and new cache are those of the fetch. |
| CacheProperties.NoIncidentAppend | Shared_Code/Services/CrimeDataService.cs:247-525 | A sequence of requests contains no incident request exactly when neither of its two parts does. |
| CacheProperties.MonthStepKeepsReportFields | Shared_Code/Services/CrimeDataService.cs:60-112 | The month step changes the two month fields and nothing else. |
| CacheProperties.ConfigureForcesRefetch | Shared_Code/Services/CrimeDataService.cs:55-57 | After a reconfiguration, the next call that resolves a month and an area builds and stores a new report at the new granularity. |

## Left out

- HTTP transport, JSON reading, URLs and form encoding are replaced by outcome arguments. A request is recorded by what it asks for (kind, month, coordinate, ids, polygon text), not by its URL. Coordinates in URLs are rounded to five decimals by `F5` formatting; the model keeps exact values.
- `async`/`await`: every call is sequential. The service has no concurrency of its own.
- The haversine trigonometry of `HasMovedSignificantly` is floating point. The distance is a parameter of the model; only the comparison against the threshold is modelled.
- `DateTime.UtcNow` and `TotalHours` are replaced by an integer tick count and a tick comparison. Calendar arithmetic is not modelled.
- The `yyyy-MM` grammar of `DateTime.ParseExact` is not modelled: each entry arrives as a parsed month or as "does not parse". The comparison of the new month with `DataMonth.ToString("yyyy-MM")` becomes equality of months. This assumes two things. First, the provider sends canonical `yyyy-MM` strings. Second, the current culture uses the Gregorian calendar: `ToString` formats with the current culture's calendar, and under another calendar the two months never match, so every call would refetch.
- Formatting: the summaries that embed a count, an area label (`F3` coordinates) or a month (`MMMM yyyy`) are datatype cases that carry those values, not strings. Area labels are carried as values too.
- Exception types outside the three catch clauses are identified by their type name only.
- Floating-point arithmetic: distances, radii and coordinates are `real`, so `radius * 50` is exact.
- Object identity: "the identical report object is returned" is modelled as an equal value. The service never mutates a report after storing it.
- `LogDebug` and the request URL kept for logging are diagnostics only. `Shared_Code/Services/LogService.cs` is not part of this model.
- The UI files `CrimeInMyArea/MainPage.xaml.cs`, `CrimeInMyArea/LogPage.xaml.cs` and `CrimeInMyArea/MauiProgram.cs` are not part of this model.
- `CrimeCategoryCount` has no behaviour and is not modelled. `NotificationGranularity` is the datatype `Granularity`, with its three cases.
- Models.DistanceDisplay: selects the label and carries the distance; the `F1` kilometre text itself is not modelled.
- CacheModel.Periods: its own contract gives only the length. Parsing all entries, and the order of the months, are stated by `CacheProperties.PeriodsParsesAll`.
- Polygon.FormatPolygon: its own contract covers only the empty case. The non-empty cases are stated by `Polygon.FormatPolygonPairs` and `Polygon.FormatPolygonFails`.

Behaviour of the code a reader may not expect, which the model keeps:
- A boundary request that returns an empty, non-null list caches that list (lines 185-190). The fetch then falls back to the boundary explanation without clearing the cache.
- Every call that resolves a month sends a locate request (lines 281-284), even when the cached report is then reused. `RepeatedCallReusesReport` states this.
- At force granularity the query is a plain GET with `lat`/`lng` (lines 436-437). No polygon is built.
- The force movement threshold is the radius in kilometres times 50, taken as metres (line 337). For the default 1.6 km radius this is 80 m, smaller than the 200 m street threshold. `MovementThresholds` states the rule as written.
- A boundary list holding a null element is cached like any other (lines 185-190) and passes the non-empty test (line 401). `FormatPolygon` then throws `NullReferenceException` (line 214), which the generic catch turns into the unexpected-error summary (lines 490-496). No incident request is sent, the area label stays null, the markers of lines 407-408 are not stamped, and the report is stored (line 522). `NullVertexAbortsFetch` states this.
- A forced refresh does not refetch a cached boundary. The boundary step is passed "the id differs from the cached owner" (line 399), not the caller's refresh flag. So a forced call with a boundary cached for the located neighbourhood posts the polygon query without any boundary request. `BoundaryRefreshFlagIsRedundant` and `ForcedRefreshKeepsBoundary` state this.
- A boundary failure stamps no marker (line 407 does not run). The next neighbourhood staleness test (lines 319-327) compares against the marker left by an earlier fetch. The usual case is that the marker names a different neighbourhood, or none: then the same spot is fetched again, and when the failed step cleared the cache the boundary is requested again. The other case is that the old marker already names the neighbourhood, for example after a move away and back: the stored "Could not fetch neighbourhood boundary." report is returned as fresh. A failure with a non-null empty list leaves that list cached, so the retry reuses it and ends with the same explanation, without a new boundary request. `BoundaryFailureIsRetried` states the staleness condition and the cleared cache.
- The month's 24-hour window starts when the month request is answered, not when the call starts: line 94 reads the clock again after both awaits of the request and stores that value, while line 66 tests with the clock read at the start of the call. `MonthWindowStartsAtAnswer` states the window from the stored time.
- The movement test is called with the new coordinate in the "previous" position (lines 308-313, 332-337). The model keeps this argument order. It does not matter for a symmetric distance.
