/** The fetch-and-cache engine of the crime-report service
    (Shared_Code/Services/CrimeDataService.cs) as pure functions over a
    snapshot of its cache fields. Each operation maps the old snapshot, its
    arguments and the outcome of the network requests it makes to the new
    snapshot, its result and the list of requests it issued. The class in
    module Services is proved to do exactly this. */
module CacheModel {
  import opened Models
  import opened Strings
  import opened Polygon

  /** `DateTime` ticks are 100 ns; the month cache lives for 24 hours. */
  const TicksPerHour: int := 36_000_000_000
  const MonthCacheTicks: int := 24 * TicksPerHour

  /** Movement beyond which a street-level report is refetched, in metres. */
  const StreetThresholdMeters: real := 200.0
  /** The force-level movement threshold is the configured radius times this. */
  const ForceRadiusMultiplier: real := 50.0
  const DefaultForceRadiusKm: real := 1.6

  /** The type name the generic catch reports when a boundary holds a null
      vertex. */
  const NullReferenceName: string := "NullReferenceException"

  /** The outcome of a GET whose body is read as JSON: `Failed` stands for
      any exception on the way (transport, non-success status, malformed
      body); `Fetched(None)` for a body that reads as JSON `null`. */
  datatype Fetch<T> = Failed | Fetched(body: T)

  /** The outcome of the incident request, one case per catch clause. */
  datatype IncidentResponse =
    | Received(body: Option<seq<CrimeIncident>>)
    | HttpFailure(message: string, status: Option<string>)
    | JsonFailure
    | OtherFailure(typeName: string)

  /** The requests the service sends to the provider. Coordinates are sent
      with five decimals and the month as `yyyy-MM`. */
  datatype Request =
    | AvailableMonths
    | LocateNeighbourhood(at: Coord)
    | NeighbourhoodBoundary(force: Option<string>, neighbourhood: Option<string>)
    | CrimesAtLocation(date: Period, at: Coord)
    | CrimesInPolygon(date: Period, poly: string)
    | CrimesNearPoint(date: Period, at: Coord)

  predicate IsIncidentRequest(q: Request)
  {
    q.CrimesAtLocation? || q.CrimesInPolygon? || q.CrimesNearPoint?
  }

  /** No request of the list asks for incidents. */
  predicate NoIncidentRequest(qs: seq<Request>)
  {
    forall i :: 0 <= i < |qs| ==> !IsIncidentRequest(qs[i])
  }

  /** The service's private fields. */
  datatype CacheState = CacheState(
    granularity: Granularity,
    forceRadiusKm: real,
    latestMonth: Option<Period>,
    lastCheckedMonth: int,
    currentForceId: Option<string>,
    currentNeighbourhoodId: Option<string>,
    boundaryCache: Option<Boundary>,
    boundaryOwner: Option<string>,
    lastStreet: Coord,
    lastNeighbourhoodIdForData: Option<string>,
    lastForceIdForData: Option<string>,
    lastForceRadius: Coord,
    lastReport: Option<CrimeReport>)

  /** What an operation leaves behind: the new cache, its result, and the
      requests it sent, in order. */
  datatype Step<T> = Step(cache: CacheState, value: T, issued: seq<Request>)

  /** A new service: neighbourhood granularity, a 1.6 km radius, everything
      else at the C# defaults. */
  function InitialCache(): (c: CacheState)
    ensures c.granularity == Neighbourhood && c.forceRadiusKm == DefaultForceRadiusKm
    ensures c.latestMonth == None && c.lastReport == None && c.boundaryCache == None
  {
    CacheState(Neighbourhood, DefaultForceRadiusKm, None, 0, None, None, None, None,
               Coord(0.0, 0.0), None, None, Coord(0.0, 0.0), None)
  }

  // ---------------------------------------------------------------- Configure

  function Configured(c: CacheState, g: Granularity, radiusKm: Option<real>): CacheState
  {
    c.(granularity := g,
       forceRadiusKm := if radiusKm.Some? && g == Force then radiusKm.value else c.forceRadiusKm,
       lastReport := None,
       lastForceIdForData := None,
       lastNeighbourhoodIdForData := None)
  }

  // ------------------------------------------------------------- Latest month

  /** The months of the list, when every entry parses. */
  function Periods(dates: seq<AvailableDate>): (r: Option<seq<Period>>)
    ensures r.Some? ==> |r.value| == |dates|
  {
    if |dates| == 0 then Some([])
    else
      var rest := Periods(dates[1..]);
      if dates[0].date.None? || rest.None? then None
      else Some([dates[0].date.value] + rest.value)
  }

  /** The latest month of a non-empty list. */
  function MaxPeriod(ps: seq<Period>): (r: Period)
    requires |ps| > 0
    ensures r in ps
  {
    if |ps| == 1 then ps[0]
    else
      var m := MaxPeriod(ps[1..]);
      if PeriodLe(ps[0], m) then m else ps[0]
  }

  /** The month a successful answer names: the latest entry, or `None` when
      the list is null, empty, or holds an entry that does not parse. */
  function LatestOf(resp: Fetch<Option<seq<AvailableDate>>>): (r: Option<Period>)
    ensures r.Some? ==> resp.Fetched? && resp.body.Some? && |resp.body.value| > 0
    ensures r.Some? ==> Periods(resp.body.value).Some? && r.value in Periods(resp.body.value).value
  {
    if resp.Failed? || resp.body.None? || |resp.body.value| == 0 then None
    else
      var ps := Periods(resp.body.value);
      if ps.None? then None else Some(MaxPeriod(ps.value))
  }

  predicate MonthCacheHit(c: CacheState, forceRefresh: bool, now: int)
  {
    !forceRefresh && c.latestMonth.Some? && now - c.lastCheckedMonth < MonthCacheTicks
  }

  /** The month step. The source reads the clock twice: `now` for the
      24-hour test, and `answeredAt` after the request's answer has been read,
      which a successful fetch stores as the new check time. */
  function GetLatestMonth(c: CacheState, forceRefresh: bool, now: int, answeredAt: int,
                          resp: Fetch<Option<seq<AvailableDate>>>): Step<Option<Period>>
  {
    if MonthCacheHit(c, forceRefresh, now) then Step(c, c.latestMonth, [])
    else
      var latest := LatestOf(resp);
      if latest.Some? then Step(c.(latestMonth := latest, lastCheckedMonth := answeredAt), latest, [AvailableMonths])
      else Step(c, c.latestMonth, [AvailableMonths])
  }

  // ------------------------------------------------------ Force/neighbourhood

  /** The pair of ids the locate request yields; `None` on any failure or a
      null body. The ids themselves may be null. */
  function Located(resp: Fetch<Option<NeighbourhoodLocation>>): Option<NeighbourhoodLocation>
  {
    if resp.Fetched? then resp.body else None
  }

  // ----------------------------------------------------------------- Boundary

  predicate BoundaryCacheHit(c: CacheState, neighbourhood: Option<string>, forceRefresh: bool)
  {
    !forceRefresh && c.boundaryCache.Some? && c.boundaryOwner == neighbourhood
  }

  function GetBoundary(c: CacheState, force: Option<string>, neighbourhood: Option<string>,
                       forceRefresh: bool, resp: Fetch<Option<Boundary>>)
    : Step<Option<Boundary>>
  {
    if BoundaryCacheHit(c, neighbourhood, forceRefresh) then Step(c, c.boundaryCache, [])
    else if resp.Fetched? && resp.body.Some? then
      Step(c.(boundaryCache := resp.body, boundaryOwner := neighbourhood), resp.body,
           [NeighbourhoodBoundary(force, neighbourhood)])
    else
      Step(c.(boundaryCache := None, boundaryOwner := None), None,
           [NeighbourhoodBoundary(force, neighbourhood)])
  }

  // ---------------------------------------------------------------- Staleness

  /** The haversine test, over a distance function supplied by the caller:
      moved when the distance exceeds the threshold. */
  predicate HasMovedSignificantly(distance: (Coord, Coord) -> real, previous: Coord,
                                  current: Coord, thresholdMeters: real)
  {
    distance(previous, current) > thresholdMeters
  }

  /** Whether the cached report is out of date for the configured
      granularity. The service passes the new coordinate as the first
      argument of the movement test. */
  predicate Stale(c: CacheState, distance: (Coord, Coord) -> real,
                  area: NeighbourhoodLocation, at: Coord)
  {
    match c.granularity
    case Street =>
      c.lastReport.None? || area.force != c.lastForceIdForData
      || HasMovedSignificantly(distance, at, c.lastStreet, StreetThresholdMeters)
    case Neighbourhood =>
      c.lastReport.None? || area.neighbourhood != c.lastNeighbourhoodIdForData
    case Force =>
      c.lastReport.None? || area.force != c.lastForceIdForData
      || HasMovedSignificantly(distance, at, c.lastForceRadius, c.forceRadiusKm * ForceRadiusMultiplier)
  }

  // ------------------------------------------------------------------ Reports

  /** The previous report if there is one, else a fresh report carrying the
      given explanation. */
  function FallbackReport(last: Option<CrimeReport>, why: Summary): (r: CrimeReport)
  {
    if last.Some? then last.value else DefaultReport().(summary := why)
  }

  /** The summary the catch clauses leave: an error text for a failed
      request, else the summary as it was. */
  function CaughtSummary(s: Summary, resp: IncidentResponse): (r: Summary)
    ensures resp.Received? ==> r == s
    ensures HasFixedText(s) ==> HasFixedText(r)
    ensures !resp.Received? ==> r != NoDataAvailable
  {
    match resp
    case Received(_) => s
    case HttpFailure(message, status) => ApiError(Split(message, '.')[0], status)
    case JsonFailure => ProcessingError
    case OtherFailure(name) => UnexpectedError(name)
  }

  /** The report once the incident request has answered. The service tests
      for an unset summary with `ReplacesDefault`, which holds of the default
      summary and of no other (`OnlyDefaultIsReplaced`); the test is written
      here as that equality. */
  function Completed(report: CrimeReport, resp: IncidentResponse): CrimeReport
    requires report.areaIdentifier.Some? && HasFixedText(report.summary)
  {
    var area := report.areaIdentifier.value;
    var s := CaughtSummary(report.summary, resp);
    if resp.Received? && resp.body.Some? then
      var list := resp.body.value;
      report.(incidents := list, crimeCount := |list|,
              summary := if |list| > 0 then CrimesReported(|list|, area, report.dataMonth)
                         else NoCrimesReported(area, report.dataMonth))
    else if s == NoDataAvailable then report.(summary := NoCrimeDataFound(area, report.dataMonth))
    else report.(summary := s)
  }

  /** The fetch itself, once a new report is needed: record the located ids
      as current, then the branch of the configured granularity. */
  function FetchReport(c: CacheState, area: NeighbourhoodLocation, at: Coord, month: Period,
                       boundary: Fetch<Option<Boundary>>, incidents: IncidentResponse)
    : Step<CrimeReport>
  {
    var c1 := c.(currentForceId := area.force, currentNeighbourhoodId := area.neighbourhood);
    var report := DefaultReport().(granularity := c1.granularity, dataMonth := month);
    match c1.granularity
    case Street => StreetFetch(c1, report, at, month, incidents)
    case Neighbourhood => NeighbourhoodFetch(c1, area, report, month, boundary, incidents)
    case Force => ForceFetch(c1, report, at, month, incidents)
  }

  /** The street branch: stamp the coordinate and the force, ask for the
      incidents at the coordinate, store the report. */
  function StreetFetch(c1: CacheState, report: CrimeReport, at: Coord, month: Period,
                       incidents: IncidentResponse): Step<CrimeReport>
    requires HasFixedText(report.summary)
  {
    var r := Completed(report.(areaIdentifier := Some(StreetAt(at))), incidents);
    Step(c1.(lastStreet := at, lastForceIdForData := c1.currentForceId, lastReport := Some(r)),
         r, [CrimesAtLocation(month, at)])
  }

  /** The force branch: stamp the force and the coordinate, ask for the
      incidents around the coordinate, store the report. */
  function ForceFetch(c1: CacheState, report: CrimeReport, at: Coord, month: Period,
                      incidents: IncidentResponse): Step<CrimeReport>
    requires HasFixedText(report.summary)
  {
    var r := Completed(report.(areaIdentifier := Some(ForceAround(c1.currentForceId, at))), incidents);
    Step(c1.(lastForceIdForData := c1.currentForceId, lastForceRadius := at, lastReport := Some(r)),
         r, [CrimesNearPoint(month, at)])
  }

  /** The neighbourhood branch of the fetch: the boundary first, then the
      polygon query; a stored explanation when there is no boundary, or a
      stored error when the boundary holds a null vertex. */
  function NeighbourhoodFetch(c1: CacheState, area: NeighbourhoodLocation, report: CrimeReport,
                              month: Period, boundary: Fetch<Option<Boundary>>,
                              incidents: IncidentResponse): Step<CrimeReport>
    requires HasFixedText(report.summary)
  {
    var b := GetBoundary(c1, c1.currentForceId, c1.currentNeighbourhoodId,
                         area.neighbourhood != c1.boundaryOwner, boundary);
    if b.value.Some? && |b.value.value| > 0 then
      var poly := FormatPolygon(b.value);
      if poly.None? then
        // A null vertex: the generic catch names the exception, and the
        // summary test after the request keeps that error text.
        var r := report.(summary := UnexpectedError(NullReferenceName));
        Step(b.cache.(lastReport := Some(r)), r, b.issued)
      else
        var r := Completed(report.(areaIdentifier :=
                   Some(NeighbourhoodArea(c1.currentNeighbourhoodId, c1.currentForceId))), incidents);
        Step(b.cache.(lastNeighbourhoodIdForData := c1.currentNeighbourhoodId,
                      lastForceIdForData := c1.currentForceId, lastReport := Some(r)),
             r, b.issued + [CrimesInPolygon(month, poly.value)])
    else
      var r := report.(summary := BoundaryUnavailable);
      Step(b.cache.(lastReport := Some(r)), r, b.issued)
  }

  /** Whether the call must fetch: forced, a new month, or stale. */
  predicate NeedsDataFetch(c: CacheState, distance: (Coord, Coord) -> real, forceRefresh: bool,
                           month: Period, area: NeighbourhoodLocation, at: Coord)
  {
    MonthForcesFetch(c, forceRefresh, month) || Stale(c, distance, area, at)
  }

  /** The decision once the month and the area are known: the cached report
      when neither `needed` (the refresh flag or a change of month) nor the
      staleness test asks for a fetch, else a new report. */
  function ReuseOrFetch(c: CacheState, distance: (Coord, Coord) -> real, needed: bool,
                        month: Period, area: NeighbourhoodLocation, at: Coord,
                        boundary: Fetch<Option<Boundary>>,
                        incidents: IncidentResponse): Step<CrimeReport>
  {
    if !(needed || Stale(c, distance, area, at)) && c.lastReport.Some? then
      Step(c, c.lastReport.value, [])
    else
      FetchReport(c, area, at, month, boundary, incidents)
  }

  /** A fetch is due before any staleness test when the caller forces one
      or the month differs from the cached report's. */
  predicate MonthForcesFetch(c: CacheState, forceRefresh: bool, month: Period)
  {
    forceRefresh || (c.lastReport.Some? && month != c.lastReport.value.dataMonth)
  }

  /** The call once the month is known: locate the coordinate, then reuse
      or fetch; the previous report, or the area explanation, when the
      coordinate cannot be placed. */
  function ReportForMonth(c: CacheState, distance: (Coord, Coord) -> real, needed: bool,
                          month: Period, at: Coord,
                          locate: Fetch<Option<NeighbourhoodLocation>>,
                          boundary: Fetch<Option<Boundary>>,
                          incidents: IncidentResponse): Step<CrimeReport>
  {
    var area := Located(locate);
    if area.None? then
      Step(c, FallbackReport(c.lastReport, AreaUnknown), [LocateNeighbourhood(at)])
    else
      var d := ReuseOrFetch(c, distance, needed, month, area.value, at, boundary, incidents);
      Step(d.cache, d.value, [LocateNeighbourhood(at)] + d.issued)
  }

  /** One call of the public operation: resolve the month and the area, then
      return the cached report or fetch a new one. */
  function GetCrimeData(c: CacheState, distance: (Coord, Coord) -> real, at: Coord,
                        forceRefresh: bool, now: int, answeredAt: int,
                        months: Fetch<Option<seq<AvailableDate>>>,
                        locate: Fetch<Option<NeighbourhoodLocation>>,
                        boundary: Fetch<Option<Boundary>>,
                        incidents: IncidentResponse): Step<CrimeReport>
  {
    var m := GetLatestMonth(c, forceRefresh, now, answeredAt, months);
    if m.value.None? then
      Step(m.cache, FallbackReport(m.cache.lastReport, PeriodUnknown), m.issued)
    else
      var month := m.value.value;
      var r := ReportForMonth(m.cache, distance, MonthForcesFetch(m.cache, forceRefresh, month),
                              month, at, locate, boundary, incidents);
      Step(r.cache, r.value, m.issued + r.issued)
  }
}
