/** The crime-report service (Shared_Code/Services/CrimeDataService.cs) as a
    class: its private cache fields, updated step by step by its methods.
    Every network request is replaced by an argument carrying its outcome,
    the clock by a tick count, and the haversine distance by a function
    given at construction. A ghost log records the requests sent. Each
    method is proved to do exactly what the function of the same operation
    in module CacheModel describes; the properties proved there therefore
    hold of the class. */
module Services {
  import opened Models
  import opened Strings
  import opened Polygon
  import opened CacheModel

  class CrimeDataService {
    /** Great-circle distance in metres between two coordinates. */
    const distance: (Coord, Coord) -> real

    var currentGranularity: Granularity
    var forceLevelRadiusKm: real

    var latestAvailableCrimeMonth: Option<Period>
    var lastCheckedCrimeMonthDate: int

    var currentForceId: Option<string>
    var currentNeighbourhoodId: Option<string>
    var currentNeighbourhoodBoundaryCache: Option<Boundary>
    var cachedBoundaryForNeighbourhoodId: Option<string>

    var lastFetchedLatForStreet: real
    var lastFetchedLngForStreet: real
    var lastFetchedNeighbourhoodIdForData: Option<string>
    var lastFetchedForceIdForData: Option<string>
    var lastFetchedLatForForceRadius: real
    var lastFetchedLngForForceRadius: real

    var lastCrimeReport: Option<CrimeReport>

    /** The requests sent to the provider so far, oldest first. */
    ghost var requests: seq<Request>

    /** The fields as one value. */
    function State(): CacheState
      reads this
    {
      CacheState(currentGranularity, forceLevelRadiusKm,
                 latestAvailableCrimeMonth, lastCheckedCrimeMonthDate,
                 currentForceId, currentNeighbourhoodId,
                 currentNeighbourhoodBoundaryCache, cachedBoundaryForNeighbourhoodId,
                 Coord(lastFetchedLatForStreet, lastFetchedLngForStreet),
                 lastFetchedNeighbourhoodIdForData, lastFetchedForceIdForData,
                 Coord(lastFetchedLatForForceRadius, lastFetchedLngForForceRadius),
                 lastCrimeReport)
    }

    constructor (distance: (Coord, Coord) -> real)
      ensures this.distance == distance
      ensures State() == InitialCache() && requests == []
    {
      this.distance := distance;
      currentGranularity := Neighbourhood;
      forceLevelRadiusKm := DefaultForceRadiusKm;
      latestAvailableCrimeMonth := None;
      lastCheckedCrimeMonthDate := 0;
      currentForceId := None;
      currentNeighbourhoodId := None;
      currentNeighbourhoodBoundaryCache := None;
      cachedBoundaryForNeighbourhoodId := None;
      lastFetchedLatForStreet, lastFetchedLngForStreet := 0.0, 0.0;
      lastFetchedNeighbourhoodIdForData := None;
      lastFetchedForceIdForData := None;
      lastFetchedLatForForceRadius, lastFetchedLngForForceRadius := 0.0, 0.0;
      lastCrimeReport := None;
      requests := [];
    }

    method Configure(granularity: Granularity, forceLevelRadiusKm: Option<real>)
      modifies this
      ensures State() == Configured(old(State()), granularity, forceLevelRadiusKm)
      ensures requests == old(requests)
    {
      currentGranularity := granularity;
      if forceLevelRadiusKm.Some? && granularity == Force {
        this.forceLevelRadiusKm := forceLevelRadiusKm.value;
      }
      lastCrimeReport := None;
      lastFetchedForceIdForData := None;
      lastFetchedNeighbourhoodIdForData := None;
    }

    method GetLatestAvailableCrimeMonth(forceRefresh: bool, now: int, answeredAt: int,
                                        resp: Fetch<Option<seq<AvailableDate>>>)
      returns (month: Option<Period>)
      modifies this
      ensures var s := GetLatestMonth(old(State()), forceRefresh, now, answeredAt, resp);
        State() == s.cache && month == s.value && requests == old(requests) + s.issued
    {
      if !forceRefresh && latestAvailableCrimeMonth.Some?
         && now - lastCheckedCrimeMonthDate < MonthCacheTicks {
        return latestAvailableCrimeMonth;
      }
      requests := requests + [AvailableMonths];
      if resp.Fetched? && resp.body.Some? && |resp.body.value| > 0 {
        var periods := Periods(resp.body.value);
        if periods.Some? {
          latestAvailableCrimeMonth := Some(MaxPeriod(periods.value));
          lastCheckedCrimeMonthDate := answeredAt;
          return latestAvailableCrimeMonth;
        }
      }
      return latestAvailableCrimeMonth;
    }

    method GetForceAndNeighbourhood(at: Coord, resp: Fetch<Option<NeighbourhoodLocation>>)
      returns (ids: Option<NeighbourhoodLocation>)
      modifies this`requests
      ensures ids == Located(resp)
      ensures State() == old(State())
      ensures requests == old(requests) + [LocateNeighbourhood(at)]
    {
      requests := requests + [LocateNeighbourhood(at)];
      if resp.Fetched? && resp.body.Some? {
        return resp.body;
      }
      return None;
    }

    method GetNeighbourhoodBoundary(forceId: Option<string>, neighbourhoodId: Option<string>,
                                    forceRefresh: bool, resp: Fetch<Option<Boundary>>)
      returns (boundary: Option<Boundary>)
      modifies this
      ensures var s := GetBoundary(old(State()), forceId, neighbourhoodId, forceRefresh, resp);
        State() == s.cache && boundary == s.value && requests == old(requests) + s.issued
    {
      if !forceRefresh && currentNeighbourhoodBoundaryCache.Some?
         && cachedBoundaryForNeighbourhoodId == neighbourhoodId {
        return currentNeighbourhoodBoundaryCache;
      }
      requests := requests + [NeighbourhoodBoundary(forceId, neighbourhoodId)];
      if resp.Fetched? && resp.body.Some? {
        currentNeighbourhoodBoundaryCache := resp.body;
        cachedBoundaryForNeighbourhoodId := neighbourhoodId;
        return resp.body;
      }
      currentNeighbourhoodBoundaryCache := None;
      cachedBoundaryForNeighbourhoodId := None;
      return None;
    }

    method GetCrimeData(at: Coord, forceDataRefresh: bool, now: int, answeredAt: int,
                        months: Fetch<Option<seq<AvailableDate>>>,
                        locate: Fetch<Option<NeighbourhoodLocation>>,
                        boundary: Fetch<Option<Boundary>>,
                        incidents: IncidentResponse)
      returns (report: CrimeReport)
      modifies this
      ensures var s := CacheModel.GetCrimeData(old(State()), distance, at, forceDataRefresh, now, answeredAt,
                                               months, locate, boundary, incidents);
        State() == s.cache && report == s.value && requests == old(requests) + s.issued
    {
      var newLatestCrimeMonth := GetLatestAvailableCrimeMonth(forceDataRefresh, now, answeredAt, months);
      if newLatestCrimeMonth.None? {
        return FallbackReport(lastCrimeReport, PeriodUnknown);
      }
      var month := newLatestCrimeMonth.value;
      var needsDataFetch := forceDataRefresh;
      if lastCrimeReport.Some? && month != lastCrimeReport.value.dataMonth {
        needsDataFetch := true;
      }
      assert needsDataFetch == MonthForcesFetch(State(), forceDataRefresh, month);

      ghost var c1, log1 := State(), requests;
      report := ReportForMonth(needsDataFetch, month, at, locate, boundary, incidents);
      AppendAssoc(old(requests), log1[|old(requests)|..],
                  CacheModel.ReportForMonth(c1, distance, needsDataFetch, month, at, locate, boundary, incidents).issued);
    }

    /** The rest of `GetCrimeData` once the month is known. */
    method ReportForMonth(needed: bool, month: Period, at: Coord,
                          locate: Fetch<Option<NeighbourhoodLocation>>,
                          boundary: Fetch<Option<Boundary>>,
                          incidents: IncidentResponse)
      returns (report: CrimeReport)
      modifies this
      ensures var s := CacheModel.ReportForMonth(old(State()), distance, needed, month, at,
                                                 locate, boundary, incidents);
        State() == s.cache && report == s.value && requests == old(requests) + s.issued
    {
      var locationIds := GetForceAndNeighbourhood(at, locate);
      if locationIds.None? {
        return FallbackReport(lastCrimeReport, AreaUnknown);
      }
      ghost var c1 := State();
      report := ReuseOrFetchReport(needed, locationIds.value, at, month, boundary, incidents);
      AppendAssoc(old(requests), [LocateNeighbourhood(at)],
                  ReuseOrFetch(c1, distance, needed, month, locationIds.value, at, boundary, incidents).issued);
    }

    /** The rest of `GetCrimeData` once the month and the area are known:
        the staleness test of the configured granularity, then the cached
        report or a new one. */
    method ReuseOrFetchReport(needed: bool, area: NeighbourhoodLocation, at: Coord, month: Period,
                              boundary: Fetch<Option<Boundary>>, incidents: IncidentResponse)
      returns (report: CrimeReport)
      modifies this
      ensures var s := ReuseOrFetch(old(State()), distance, needed, month, area, at, boundary, incidents);
        State() == s.cache && report == s.value && requests == old(requests) + s.issued
    {
      var needsDataFetch := needed;
      var newForceId := area.force;
      var newNeighbourhoodId := area.neighbourhood;
      if !needsDataFetch {
        match currentGranularity {
        case Street =>
          if lastCrimeReport.None? || newForceId != lastFetchedForceIdForData
             || HasMovedSignificantly(distance, at, Coord(lastFetchedLatForStreet, lastFetchedLngForStreet),
                                      StreetThresholdMeters) {
            needsDataFetch := true;
          }
        case Neighbourhood =>
          if lastCrimeReport.None? || newNeighbourhoodId != lastFetchedNeighbourhoodIdForData {
            needsDataFetch := true;
          }
        case Force =>
          if lastCrimeReport.None? || newForceId != lastFetchedForceIdForData
             || HasMovedSignificantly(distance, at, Coord(lastFetchedLatForForceRadius, lastFetchedLngForForceRadius),
                                      forceLevelRadiusKm * ForceRadiusMultiplier) {
            needsDataFetch := true;
          }
        }
      }
      if !needsDataFetch && lastCrimeReport.Some? {
        return lastCrimeReport.value;
      }
      report := FetchNewReport(area, at, month, boundary, incidents);
    }

    /** The second half of `GetCrimeData`, once a new report is needed. */
    method FetchNewReport(area: NeighbourhoodLocation, at: Coord, month: Period,
                          boundary: Fetch<Option<Boundary>>, incidents: IncidentResponse)
      returns (report: CrimeReport)
      modifies this
      ensures var s := FetchReport(old(State()), area, at, month, boundary, incidents);
        State() == s.cache && report == s.value && requests == old(requests) + s.issued
    {
      currentForceId := area.force;
      currentNeighbourhoodId := area.neighbourhood;
      var report0 := DefaultReport().(granularity := currentGranularity, dataMonth := month);
      match currentGranularity {
      case Street =>
        report := FetchStreetReport(report0, at, month, incidents);
      case Neighbourhood =>
        report := FetchNeighbourhoodReport(area, report0, month, boundary, incidents);
      case Force =>
        report := FetchForceReport(report0, at, month, incidents);
      }
    }

    /** The street case of `FetchNewReport`. */
    method FetchStreetReport(report0: CrimeReport, at: Coord, month: Period, incidents: IncidentResponse)
      returns (report: CrimeReport)
      requires HasFixedText(report0.summary)
      modifies this
      ensures var s := StreetFetch(old(State()), report0, at, month, incidents);
        State() == s.cache && report == s.value && requests == old(requests) + s.issued
    {
      report := report0.(areaIdentifier := Some(StreetAt(at)));
      lastFetchedLatForStreet, lastFetchedLngForStreet := at.lat, at.lng;
      lastFetchedForceIdForData := currentForceId;
      report := SendIncidentRequest(CrimesAtLocation(month, at), report, incidents);
    }

    /** The force case of `FetchNewReport`. */
    method FetchForceReport(report0: CrimeReport, at: Coord, month: Period, incidents: IncidentResponse)
      returns (report: CrimeReport)
      requires HasFixedText(report0.summary)
      modifies this
      ensures var s := ForceFetch(old(State()), report0, at, month, incidents);
        State() == s.cache && report == s.value && requests == old(requests) + s.issued
    {
      report := report0.(areaIdentifier := Some(ForceAround(currentForceId, at)));
      lastFetchedForceIdForData := currentForceId;
      lastFetchedLatForForceRadius, lastFetchedLngForForceRadius := at.lat, at.lng;
      report := SendIncidentRequest(CrimesNearPoint(month, at), report, incidents);
    }

    /** The neighbourhood case of `FetchNewReport`. */
    method FetchNeighbourhoodReport(area: NeighbourhoodLocation, report0: CrimeReport, month: Period,
                                    boundary: Fetch<Option<Boundary>>,
                                    incidents: IncidentResponse)
      returns (report: CrimeReport)
      requires HasFixedText(report0.summary)
      modifies this
      ensures var s := NeighbourhoodFetch(old(State()), area, report0, month, boundary, incidents);
        State() == s.cache && report == s.value && requests == old(requests) + s.issued
    {
      report := report0;
      ghost var c1, log0 := State(), requests;
      var points := GetNeighbourhoodBoundary(currentForceId, currentNeighbourhoodId,
                                             area.neighbourhood != cachedBoundaryForNeighbourhoodId, boundary);
      if points.Some? && |points.value| > 0 {
        var poly := FormatPolygon(points);
        if poly.None? {
          report := report.(summary := UnexpectedError(NullReferenceName));
          lastCrimeReport := Some(report);
          return;
        }
        report := report.(areaIdentifier := Some(NeighbourhoodArea(currentNeighbourhoodId, currentForceId)));
        lastFetchedNeighbourhoodIdForData := currentNeighbourhoodId;
        lastFetchedForceIdForData := currentForceId;
        ghost var log1 := requests;
        report := SendIncidentRequest(CrimesInPolygon(month, poly.value), report, incidents);
        AppendAssoc(log0, log1[|log0|..], [CrimesInPolygon(month, poly.value)]);
      } else {
        report := report.(summary := BoundaryUnavailable);
        lastCrimeReport := Some(report);
      }
    }

    /** The tail shared by the three granularities: send the incident
        request, read its outcome into the report, store the report. */
    method SendIncidentRequest(q: Request, report0: CrimeReport, incidents: IncidentResponse)
      returns (report: CrimeReport)
      requires report0.areaIdentifier.Some? && HasFixedText(report0.summary)
      modifies this
      ensures report == Completed(report0, incidents)
      ensures State() == old(State()).(lastReport := Some(report))
      ensures requests == old(requests) + [q]
    {
      requests := requests + [q];
      report := CompleteReport(report0, incidents);
      lastCrimeReport := Some(report);
    }

    /** The report once the incident request has answered: the catch
        clauses, then the summary. */
    static method CompleteReport(report0: CrimeReport, incidents: IncidentResponse)
      returns (report: CrimeReport)
      requires report0.areaIdentifier.Some? && HasFixedText(report0.summary)
      ensures report == Completed(report0, incidents)
    {
      report := report0;
      var received: Option<seq<CrimeIncident>> := None;
      match incidents {
      case Received(body) =>
        received := body;
      case HttpFailure(message, status) =>
        report := report.(summary := ApiError(Split(message, '.')[0], status));
      case JsonFailure =>
        report := report.(summary := ProcessingError);
      case OtherFailure(name) =>
        report := report.(summary := UnexpectedError(name));
      }

      if received.Some? {
        report := report.(incidents := received.value, crimeCount := |received.value|);
        if report.crimeCount > 0 {
          report := report.(summary := CrimesReported(|received.value|, report.areaIdentifier.value, report.dataMonth));
        } else {
          report := report.(summary := NoCrimesReported(report.areaIdentifier.value, report.dataMonth));
        }
      } else if ReplacesDefault(report.summary) {
        OnlyDefaultIsReplaced(report.summary);
        report := report.(summary := NoCrimeDataFound(report.areaIdentifier.value, report.dataMonth));
      }
    }
  }

  /** Appending a batch of requests to the log in two steps or in one. */
  lemma AppendAssoc(a: seq<Request>, b: seq<Request>, c: seq<Request>)
    ensures a + b + c == a + (b + c)
  {
  }
}
