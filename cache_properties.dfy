/** What the crime-report service promises, stated and proved about the
    pure model of its operations in module CacheModel. */
module CacheProperties {
  import opened Models
  import opened Strings
  import opened Polygon
  import opened CacheModel

  // ---------------------------------------------------------------- Configure

  /** Configuring sets the granularity and clears the report and the two id
      markers; the radius changes only when one is given for force
      granularity. The month cache, the boundary cache, the current ids and
      the saved coordinates stay as they were. */
  lemma ConfigureEffect(c: CacheState, g: Granularity, radiusKm: Option<real>)
    ensures var c' := Configured(c, g, radiusKm);
      && c'.granularity == g
      && c'.lastReport == None
      && c'.lastForceIdForData == None
      && c'.lastNeighbourhoodIdForData == None
      && c'.forceRadiusKm == (if radiusKm.Some? && g == Force then radiusKm.value else c.forceRadiusKm)
      && c'.latestMonth == c.latestMonth && c'.lastCheckedMonth == c.lastCheckedMonth
      && c'.boundaryCache == c.boundaryCache && c'.boundaryOwner == c.boundaryOwner
      && c'.currentForceId == c.currentForceId && c'.currentNeighbourhoodId == c.currentNeighbourhoodId
      && c'.lastStreet == c.lastStreet && c'.lastForceRadius == c.lastForceRadius
  {
  }

  // ------------------------------------------------------------- Latest month

  /** Not forced, a month cached and checked less than 24 hours ago: the
      cached month comes back and no request is sent. */
  lemma MonthCacheHitSendsNothing(c: CacheState, forceRefresh: bool, now: int, answeredAt: int,
                                  resp: Fetch<Option<seq<AvailableDate>>>)
    requires !forceRefresh && c.latestMonth.Some? && now - c.lastCheckedMonth < MonthCacheTicks
    ensures GetLatestMonth(c, forceRefresh, now, answeredAt, resp) == Step(c, c.latestMonth, [])
  {
  }

  /** Otherwise one request is sent. When it yields a non-empty list whose
      entries all parse, the result is the latest month of the list and the
      check time becomes `answeredAt`, the clock read after the answer came
      back, not the `now` of the 24-hour test. */
  lemma MonthFetchPicksLatest(c: CacheState, forceRefresh: bool, now: int, answeredAt: int,
                              dates: seq<AvailableDate>)
    requires !MonthCacheHit(c, forceRefresh, now)
    requires |dates| > 0 && forall i :: 0 <= i < |dates| ==> dates[i].date.Some?
    ensures var s := GetLatestMonth(c, forceRefresh, now, answeredAt, Fetched(Some(dates)));
      && s.value.Some?
      && (exists i :: 0 <= i < |dates| && dates[i].date == s.value)
      && (forall i :: 0 <= i < |dates| ==> PeriodLe(dates[i].date.value, s.value.value))
      && s.cache == c.(latestMonth := s.value, lastCheckedMonth := answeredAt)
      && s.issued == [AvailableMonths]
  {
    PeriodsParsesAll(dates);
    var ps := Periods(dates).value;
    var m := MaxPeriod(ps);
    MaxPeriodIsLatest(ps);
    var i :| 0 <= i < |ps| && ps[i] == m;
    assert dates[i].date == Some(m);
  }

  /** The list of months exists exactly when every entry parses, and then
      holds the entries' months in order. */
  lemma {:induction false} PeriodsParsesAll(dates: seq<AvailableDate>)
    ensures Periods(dates).Some? <==> forall i :: 0 <= i < |dates| ==> dates[i].date.Some?
    ensures Periods(dates).Some? ==>
              forall i :: 0 <= i < |dates| ==> Periods(dates).value[i] == dates[i].date.value
  {
    if |dates| > 0 {
      PeriodsParsesAll(dates[1..]);
      assert forall i :: 1 <= i < |dates| ==> dates[i] == dates[1..][i - 1];
    }
  }

  /** The maximum is one of the months and no month is later. */
  lemma {:induction false} MaxPeriodIsLatest(ps: seq<Period>)
    requires |ps| > 0
    ensures MaxPeriod(ps) in ps
    ensures forall i :: 0 <= i < |ps| ==> PeriodLe(ps[i], MaxPeriod(ps))
  {
    if |ps| > 1 {
      MaxPeriodIsLatest(ps[1..]);
      assert forall i :: 1 <= i < |ps| ==> ps[i] == ps[1..][i - 1];
    }
  }

  /** The 24-hour window of a fetched month starts when the answer came back:
      an unforced call at `later` reuses the month, sending nothing, exactly
      when `later` is less than 24 hours after `answeredAt`. */
  lemma MonthWindowStartsAtAnswer(c: CacheState, forceRefresh: bool, now: int, answeredAt: int,
                                  dates: seq<AvailableDate>, later: int, laterAnswer: int,
                                  resp: Fetch<Option<seq<AvailableDate>>>)
    requires !MonthCacheHit(c, forceRefresh, now)
    requires LatestOf(Fetched(Some(dates))).Some?
    ensures var s1 := GetLatestMonth(c, forceRefresh, now, answeredAt, Fetched(Some(dates)));
      var s2 := GetLatestMonth(s1.cache, false, later, laterAnswer, resp);
      (s2.issued == [] <==> later - answeredAt < MonthCacheTicks)
      && (s2.issued == [] ==> s2 == Step(s1.cache, s1.value, []))
  {
  }

  /** A failed request, a null or empty list, or an entry that does not
      parse: both month fields stay as they were and the old month, possibly
      none, is returned. */
  lemma MonthFetchFailureKeepsCache(c: CacheState, forceRefresh: bool, now: int, answeredAt: int,
                                    resp: Fetch<Option<seq<AvailableDate>>>)
    requires !MonthCacheHit(c, forceRefresh, now)
    requires resp.Failed? || resp.body.None? || |resp.body.value| == 0
             || exists i :: 0 <= i < |resp.body.value| && resp.body.value[i].date.None?
    ensures GetLatestMonth(c, forceRefresh, now, answeredAt, resp) == Step(c, c.latestMonth, [AvailableMonths])
  {
    if resp.Fetched? && resp.body.Some? {
      PeriodsParsesAll(resp.body.value);
    }
  }

  // ----------------------------------------------------------------- Boundary

  /** The boundary cache answers, without a request, exactly when the call is
      not forced, a boundary is cached and it belongs to the requested
      neighbourhood; it then returns the cached boundary. */
  lemma BoundaryHitExactly(c: CacheState, force: Option<string>, neighbourhood: Option<string>,
                           forceRefresh: bool, resp: Fetch<Option<Boundary>>)
    ensures var s := GetBoundary(c, force, neighbourhood, forceRefresh, resp);
      && (s.issued == [] <==> !forceRefresh && c.boundaryCache.Some? && c.boundaryOwner == neighbourhood)
      && (s.issued == [] ==> s.cache == c && s.value == c.boundaryCache)
      && (s.issued != [] ==> s.issued == [NeighbourhoodBoundary(force, neighbourhood)])
  {
  }

  /** A miss that fetches a list caches it, with its owner, even when the
      list is empty. */
  lemma BoundaryFetchCaches(c: CacheState, force: Option<string>, neighbourhood: Option<string>,
                            forceRefresh: bool, points: Boundary)
    requires !BoundaryCacheHit(c, neighbourhood, forceRefresh)
    ensures var s := GetBoundary(c, force, neighbourhood, forceRefresh, Fetched(Some(points)));
      && s.value == Some(points)
      && s.cache == c.(boundaryCache := Some(points), boundaryOwner := neighbourhood)
  {
  }

  /** A miss whose request fails or yields null clears both boundary fields
      and returns null. */
  lemma BoundaryFailureClears(c: CacheState, force: Option<string>, neighbourhood: Option<string>,
                              forceRefresh: bool, resp: Fetch<Option<Boundary>>)
    requires !BoundaryCacheHit(c, neighbourhood, forceRefresh)
    requires resp.Failed? || resp.body.None?
    ensures var s := GetBoundary(c, force, neighbourhood, forceRefresh, resp);
      && s.value == None
      && s.cache == c.(boundaryCache := None, boundaryOwner := None)
  {
  }

  /** The report fetch passes "the id differs from the cached owner" as the
      refresh flag; that flag never changes the outcome, since a differing
      id already misses. */
  lemma BoundaryRefreshFlagIsRedundant(c: CacheState, force: Option<string>,
                                       neighbourhood: Option<string>,
                                       resp: Fetch<Option<Boundary>>)
    ensures GetBoundary(c, force, neighbourhood, neighbourhood != c.boundaryOwner, resp)
         == GetBoundary(c, force, neighbourhood, false, resp)
  {
  }

  // ---------------------------------------------------------------- Staleness

  /** At neighbourhood granularity staleness never looks at coordinates or
      distances. */
  lemma NeighbourhoodIgnoresMovement(c: CacheState, d1: (Coord, Coord) -> real,
                                     d2: (Coord, Coord) -> real,
                                     area: NeighbourhoodLocation, at1: Coord, at2: Coord)
    requires c.granularity == Neighbourhood
    ensures Stale(c, d1, area, at1) == Stale(c, d2, area, at2)
    ensures Stale(c, d1, area, at1) <==>
              c.lastReport.None? || area.neighbourhood != c.lastNeighbourhoodIdForData
  {
  }

  /** Street and force granularity go stale on a new force id or on movement
      beyond 200 m, respectively beyond the radius times 50. */
  lemma MovementThresholds(c: CacheState, d: (Coord, Coord) -> real,
                           area: NeighbourhoodLocation, at: Coord)
    requires c.lastReport.Some? && area.force == c.lastForceIdForData
    ensures c.granularity == Street ==>
              (Stale(c, d, area, at) <==> d(at, c.lastStreet) > 200.0)
    ensures c.granularity == Force ==>
              (Stale(c, d, area, at) <==> d(at, c.lastForceRadius) > c.forceRadiusKm * 50.0)
  {
  }

  // --------------------------------------------------- The public operation

  /** No month can be determined: the previous report comes back, or, when
      there is none, a fresh report saying so; the cache is untouched and
      nothing but the month request is sent. */
  lemma UnknownPeriodFallsBack(c: CacheState, distance: (Coord, Coord) -> real, at: Coord,
                               forceRefresh: bool, now: int, answeredAt: int,
                               months: Fetch<Option<seq<AvailableDate>>>,
                               locate: Fetch<Option<NeighbourhoodLocation>>,
                               boundary: Fetch<Option<Boundary>>,
                               incidents: IncidentResponse)
    requires GetLatestMonth(c, forceRefresh, now, answeredAt, months).value.None?
    ensures var s := GetCrimeData(c, distance, at, forceRefresh, now, answeredAt, months, locate, boundary, incidents);
      && s.cache == c
      && (c.lastReport.Some? ==> s.value == c.lastReport.value)
      && (c.lastReport.None? ==> s.value.summary == PeriodUnknown && s.value.crimeCount == 0
                                  && s.value.incidents == [])
      && s.issued == [AvailableMonths]
  {
  }

  /** The month is known but the area is not: the same fallback, with the
      area explanation; only the month step may have changed the cache. */
  lemma UnknownAreaFallsBack(c: CacheState, distance: (Coord, Coord) -> real, at: Coord,
                             forceRefresh: bool, now: int, answeredAt: int,
                             months: Fetch<Option<seq<AvailableDate>>>,
                             locate: Fetch<Option<NeighbourhoodLocation>>,
                             boundary: Fetch<Option<Boundary>>,
                             incidents: IncidentResponse)
    requires GetLatestMonth(c, forceRefresh, now, answeredAt, months).value.Some?
    requires Located(locate).None?
    ensures var m := GetLatestMonth(c, forceRefresh, now, answeredAt, months);
      var s := GetCrimeData(c, distance, at, forceRefresh, now, answeredAt, months, locate, boundary, incidents);
      && s.cache == m.cache
      && (c.lastReport.Some? ==> s.value == c.lastReport.value)
      && (c.lastReport.None? ==> s.value.summary == AreaUnknown && s.value.crimeCount == 0
                                  && s.value.incidents == [])
      && s.issued == m.issued + [LocateNeighbourhood(at)]
  {
  }

  /** Month and area known and nothing stale: the cached report itself comes
      back, the cache is as the month step left it, and nothing beyond the
      month and locate requests is sent. */
  lemma FreshReportIsReused(c: CacheState, distance: (Coord, Coord) -> real, at: Coord,
                            forceRefresh: bool, now: int, answeredAt: int,
                            months: Fetch<Option<seq<AvailableDate>>>,
                            locate: Fetch<Option<NeighbourhoodLocation>>,
                            boundary: Fetch<Option<Boundary>>,
                            incidents: IncidentResponse)
    requires var m := GetLatestMonth(c, forceRefresh, now, answeredAt, months);
      && m.value.Some? && Located(locate).Some?
      && !NeedsDataFetch(m.cache, distance, forceRefresh, m.value.value, Located(locate).value, at)
    ensures var m := GetLatestMonth(c, forceRefresh, now, answeredAt, months);
      var s := GetCrimeData(c, distance, at, forceRefresh, now, answeredAt, months, locate, boundary, incidents);
      && c.lastReport.Some?
      && s.value == c.lastReport.value
      && s.cache == m.cache
      && s.issued == m.issued + [LocateNeighbourhood(at)]
  {
  }

  /** Month and area known and a fetch needed: a new report is built for the
      resolved month and the configured granularity, and stored. */
  lemma NeededFetchBuildsReport(c: CacheState, distance: (Coord, Coord) -> real, at: Coord,
                                forceRefresh: bool, now: int, answeredAt: int,
                                months: Fetch<Option<seq<AvailableDate>>>,
                                locate: Fetch<Option<NeighbourhoodLocation>>,
                                boundary: Fetch<Option<Boundary>>,
                                incidents: IncidentResponse)
    requires var m := GetLatestMonth(c, forceRefresh, now, answeredAt, months);
      && m.value.Some? && Located(locate).Some?
      && NeedsDataFetch(m.cache, distance, forceRefresh, m.value.value, Located(locate).value, at)
    ensures var m := GetLatestMonth(c, forceRefresh, now, answeredAt, months);
      var s := GetCrimeData(c, distance, at, forceRefresh, now, answeredAt, months, locate, boundary, incidents);
      && s.cache.lastReport == Some(s.value)
      && s.value.dataMonth == m.value.value
      && s.value.granularity == c.granularity
      && s.cache.currentForceId == Located(locate).value.force
      && s.cache.currentNeighbourhoodId == Located(locate).value.neighbourhood
  {
    var m := GetLatestMonth(c, forceRefresh, now, answeredAt, months);
    FetchStoresReport(m.cache, Located(locate).value, at, m.value.value, boundary, incidents);
  }

  /** A resolved month that differs from the cached report's forces a new
      report, whatever the refresh flag and the staleness tests say. */
  lemma NewMonthForcesFetch(c: CacheState, distance: (Coord, Coord) -> real, at: Coord,
                            forceRefresh: bool, now: int, answeredAt: int,
                            months: Fetch<Option<seq<AvailableDate>>>,
                            locate: Fetch<Option<NeighbourhoodLocation>>,
                            boundary: Fetch<Option<Boundary>>,
                            incidents: IncidentResponse)
    requires var m := GetLatestMonth(c, forceRefresh, now, answeredAt, months);
      && m.value.Some? && Located(locate).Some?
      && c.lastReport.Some? && c.lastReport.value.dataMonth != m.value.value
    ensures var s := GetCrimeData(c, distance, at, forceRefresh, now, answeredAt, months, locate, boundary, incidents);
      && s.value != c.lastReport.value
      && s.cache.lastReport == Some(s.value)
  {
    NeededFetchBuildsReport(c, distance, at, forceRefresh, now, answeredAt, months, locate, boundary, incidents);
  }

  /** Every fetch, whichever way it ends, stores the report it returns,
      built for the given month and the configured granularity, and records
      the located ids as current. */
  lemma FetchStoresReport(c: CacheState, area: NeighbourhoodLocation, at: Coord, month: Period,
                          boundary: Fetch<Option<Boundary>>, incidents: IncidentResponse)
    ensures var f := FetchReport(c, area, at, month, boundary, incidents);
      && f.cache.lastReport == Some(f.value)
      && f.value.dataMonth == month
      && f.value.granularity == c.granularity
      && f.cache.granularity == c.granularity
      && f.cache.currentForceId == area.force
      && f.cache.currentNeighbourhoodId == area.neighbourhood
  {
    var c1 := c.(currentForceId := area.force, currentNeighbourhoodId := area.neighbourhood);
    var report := DefaultReport().(granularity := c1.granularity, dataMonth := month);
    if c.granularity == Neighbourhood {
      NeighbourhoodFetchStores(c1, area, report, month, boundary, incidents);
    }
  }

  /** The same for the neighbourhood branch, which keeps every field it does
      not own. */
  lemma NeighbourhoodFetchStores(c1: CacheState, area: NeighbourhoodLocation, report: CrimeReport,
                                 month: Period, boundary: Fetch<Option<Boundary>>,
                                 incidents: IncidentResponse)
    requires HasFixedText(report.summary)
    ensures var f := NeighbourhoodFetch(c1, area, report, month, boundary, incidents);
      && f.cache.lastReport == Some(f.value)
      && f.value.dataMonth == report.dataMonth
      && f.value.granularity == report.granularity
      && f.cache.granularity == c1.granularity
      && f.cache.currentForceId == c1.currentForceId
      && f.cache.currentNeighbourhoodId == c1.currentNeighbourhoodId
  {
  }

  /** Neighbourhood granularity with a null or empty boundary: a report with
      the boundary explanation and no incidents is stored, no incident
      request is sent, and the id markers keep their old values. */
  lemma MissingBoundaryShortCircuits(c: CacheState, area: NeighbourhoodLocation, at: Coord,
                                     month: Period, boundary: Fetch<Option<Boundary>>,
                                     incidents: IncidentResponse)
    requires c.granularity == Neighbourhood
    requires var c1 := c.(currentForceId := area.force, currentNeighbourhoodId := area.neighbourhood);
      var b := GetBoundary(c1, area.force, area.neighbourhood, area.neighbourhood != c.boundaryOwner, boundary);
      b.value.None? || b.value.value == []
    ensures var s := FetchReport(c, area, at, month, boundary, incidents);
      && s.value.summary == BoundaryUnavailable
      && s.value.crimeCount == 0 && s.value.incidents == []
      && s.cache.lastReport == Some(s.value)
      && NoIncidentRequest(s.issued)
      && s.cache.lastNeighbourhoodIdForData == c.lastNeighbourhoodIdForData
      && s.cache.lastForceIdForData == c.lastForceIdForData
  {
  }

  /** Neighbourhood granularity with a boundary that holds a null vertex:
      formatting the polygon throws, the generic catch names the exception,
      and that error report is stored. It has no area label and no
      incidents. No incident request is sent, neither id marker is stamped,
      and the boundary stays cached. */
  lemma NullVertexAbortsFetch(c: CacheState, area: NeighbourhoodLocation, at: Coord,
                              month: Period, boundary: Fetch<Option<Boundary>>,
                              incidents: IncidentResponse)
    requires c.granularity == Neighbourhood
    requires var c1 := c.(currentForceId := area.force, currentNeighbourhoodId := area.neighbourhood);
      var b := GetBoundary(c1, area.force, area.neighbourhood, area.neighbourhood != c.boundaryOwner, boundary);
      && b.value.Some? && |b.value.value| > 0
      && exists i :: 0 <= i < |b.value.value| && b.value.value[i].None?
    ensures var s := FetchReport(c, area, at, month, boundary, incidents);
      && s.value.summary == UnexpectedError("NullReferenceException")
      && s.value.areaIdentifier == None
      && s.value.crimeCount == 0 && s.value.incidents == []
      && s.cache.lastReport == Some(s.value)
      && s.cache.boundaryCache.Some? && |s.cache.boundaryCache.value| > 0
      && NoIncidentRequest(s.issued)
      && s.cache.lastNeighbourhoodIdForData == c.lastNeighbourhoodIdForData
      && s.cache.lastForceIdForData == c.lastForceIdForData
  {
    var c1 := c.(currentForceId := area.force, currentNeighbourhoodId := area.neighbourhood);
    var b := GetBoundary(c1, area.force, area.neighbourhood, area.neighbourhood != c.boundaryOwner, boundary);
    FormatPolygonFails(b.value.value);
  }

  /** Once the incident request is sent, the markers of the granularity are
      stamped whatever the request's outcome, the report is stored, and the
      request sent is the granularity's own: a point query for street and
      force, the formatted boundary for neighbourhood. */
  lemma IncidentRequestStampsMarkers(c: CacheState, area: NeighbourhoodLocation, at: Coord,
                                     month: Period, boundary: Fetch<Option<Boundary>>,
                                     incidents: IncidentResponse)
    ensures var s := FetchReport(c, area, at, month, boundary, incidents);
      !NoIncidentRequest(s.issued) ==>
        && s.cache.lastReport == Some(s.value)
        && s.cache.granularity == c.granularity
        && s.value.dataMonth == month
        && (c.granularity != Neighbourhood ==> s.cache.lastForceIdForData == area.force)
        && (c.granularity == Street ==>
              s.cache.lastStreet == at && s.issued == [CrimesAtLocation(month, at)])
        && (c.granularity == Force ==>
              s.cache.lastForceRadius == at && s.issued == [CrimesNearPoint(month, at)])
        && (c.granularity == Neighbourhood ==>
              && s.cache.lastNeighbourhoodIdForData == area.neighbourhood
              && s.cache.lastForceIdForData == area.force
              && s.cache.boundaryCache.Some? && |s.cache.boundaryCache.value| > 0
              && FormatPolygon(s.cache.boundaryCache).Some?
              && s.issued[|s.issued| - 1] == CrimesInPolygon(month, FormatPolygon(s.cache.boundaryCache).value))
  {
    var c1 := c.(currentForceId := area.force, currentNeighbourhoodId := area.neighbourhood);
    if c.granularity == Neighbourhood {
      var b := GetBoundary(c1, area.force, area.neighbourhood, area.neighbourhood != c1.boundaryOwner, boundary);
      if !(b.value.Some? && |b.value.value| > 0) || FormatPolygon(b.value).None? {
        assert NoIncidentRequest(b.issued);
      }
    }
  }

  /** The summary after the incident request. Incidents received: their
      count and the "crime(s)" or "No crimes" variant. Otherwise the error of
      the catch clause, or, when no error was recorded, the "no crime data
      found" variant in place of the default; the count stays 0. */
  lemma CompletedSummary(report: CrimeReport, resp: IncidentResponse)
    requires report.areaIdentifier.Some? && report.summary == NoDataAvailable
    requires report.crimeCount == 0 && report.incidents == []
    ensures var r := Completed(report, resp);
      var area := report.areaIdentifier.value;
      && r.dataMonth == report.dataMonth && r.areaIdentifier == report.areaIdentifier
      && match resp
         case Received(Some(list)) =>
           && r.incidents == list && r.crimeCount == |list|
           && r.summary == (if |list| > 0 then CrimesReported(|list|, area, report.dataMonth)
                            else NoCrimesReported(area, report.dataMonth))
         case Received(None) =>
           r.summary == NoCrimeDataFound(area, report.dataMonth) && r.crimeCount == 0 && r.incidents == []
         case HttpFailure(message, status) =>
           r.summary == ApiError(Split(message, '.')[0], status) && r.crimeCount == 0 && r.incidents == []
         case JsonFailure =>
           r.summary == ProcessingError && r.crimeCount == 0 && r.incidents == []
         case OtherFailure(name) =>
           r.summary == UnexpectedError(name) && r.crimeCount == 0 && r.incidents == []
  {
  }

  /** The text of an API error keeps the exception message up to its first
      period. */
  lemma ApiErrorKeepsFirstSentence(message: string, status: Option<string>)
    ensures var head := ApiError(Split(message, '.')[0], status).messageHead;
      && '.' !in head && head <= message && (head == message || message[|head|] == '.')
  {
    FirstPiece(message, '.');
  }

  // ------------------------------------------------------- Repeated calls

  /** A fetch that sent its incident request leaves a cache in which the same
      area and coordinate are not stale (the distance of a point to itself
      being 0 and the radius not negative). */
  lemma StampedFetchIsFresh(c: CacheState, distance: (Coord, Coord) -> real,
                            area: NeighbourhoodLocation, at: Coord, month: Period,
                            boundary: Fetch<Option<Boundary>>,
                            incidents: IncidentResponse)
    requires distance(at, at) == 0.0
    requires c.forceRadiusKm >= 0.0
    requires !NoIncidentRequest(FetchReport(c, area, at, month, boundary, incidents).issued)
    ensures var f := FetchReport(c, area, at, month, boundary, incidents);
      && !Stale(f.cache, distance, area, at)
      && f.cache.lastReport == Some(f.value)
      && f.value.dataMonth == month
  {
    IncidentRequestStampsMarkers(c, area, at, month, boundary, incidents);
  }

  /** Two calls for the same coordinate and granularity, the second not
      forced, with the month and the area unchanged: when the first call sent
      its incident request, the second returns the very same report and sends
      no incident request (the locate request, and the month request when the
      month cache has expired, are still sent). */
  lemma RepeatedCallReusesReport(c: CacheState, distance: (Coord, Coord) -> real, at: Coord,
                                 forceRefresh: bool, now1: int, answeredAt1: int, now2: int, answeredAt2: int,
                                 months1: Fetch<Option<seq<AvailableDate>>>,
                                 months2: Fetch<Option<seq<AvailableDate>>>,
                                 locate1: Fetch<Option<NeighbourhoodLocation>>,
                                 locate2: Fetch<Option<NeighbourhoodLocation>>,
                                 boundary1: Fetch<Option<Boundary>>,
                                 boundary2: Fetch<Option<Boundary>>,
                                 incidents1: IncidentResponse, incidents2: IncidentResponse)
    requires distance(at, at) == 0.0
    requires c.forceRadiusKm >= 0.0
    requires var s1 := GetCrimeData(c, distance, at, forceRefresh, now1, answeredAt1, months1, locate1, boundary1, incidents1);
      && !NoIncidentRequest(s1.issued)
      && GetLatestMonth(s1.cache, false, now2, answeredAt2, months2).value == Some(s1.value.dataMonth)
      && Located(locate2) == Located(locate1)
    ensures var s1 := GetCrimeData(c, distance, at, forceRefresh, now1, answeredAt1, months1, locate1, boundary1, incidents1);
      var s2 := GetCrimeData(s1.cache, distance, at, false, now2, answeredAt2, months2, locate2, boundary2, incidents2);
      var m2 := GetLatestMonth(s1.cache, false, now2, answeredAt2, months2);
      && s2.value == s1.value
      && s2.issued == m2.issued + [LocateNeighbourhood(at)]
      && NoIncidentRequest(s2.issued)
  {
    var m1 := GetLatestMonth(c, forceRefresh, now1, answeredAt1, months1);
    var s1 := GetCrimeData(c, distance, at, forceRefresh, now1, answeredAt1, months1, locate1, boundary1, incidents1);
    IncidentRequestMeansFetch(c, distance, at, forceRefresh, now1, answeredAt1, months1, locate1, boundary1, incidents1);
    var area := Located(locate1).value;
    StampedFetchIsFresh(m1.cache, distance, area, at, m1.value.value, boundary1, incidents1);
    var m2 := GetLatestMonth(s1.cache, false, now2, answeredAt2, months2);
    MonthStepKeepsReportFields(s1.cache, false, now2, answeredAt2, months2);
    assert !Stale(m2.cache, distance, area, at);
    FreshReportIsReused(s1.cache, distance, at, false, now2, answeredAt2, months2, locate2, boundary2, incidents2);
    assert m2.issued == [] || m2.issued == [AvailableMonths];
  }

  /** Only the fetch path sends an incident request: a call that sent one
      resolved its month and area and returns what the fetch built. */
  lemma IncidentRequestMeansFetch(c: CacheState, distance: (Coord, Coord) -> real, at: Coord,
                                  forceRefresh: bool, now: int, answeredAt: int,
                                  months: Fetch<Option<seq<AvailableDate>>>,
                                  locate: Fetch<Option<NeighbourhoodLocation>>,
                                  boundary: Fetch<Option<Boundary>>,
                                  incidents: IncidentResponse)
    ensures var m := GetLatestMonth(c, forceRefresh, now, answeredAt, months);
      var s := GetCrimeData(c, distance, at, forceRefresh, now, answeredAt, months, locate, boundary, incidents);
      !NoIncidentRequest(s.issued) ==>
        && m.value.Some? && Located(locate).Some?
        && var f := FetchReport(m.cache, Located(locate).value, at, m.value.value, boundary, incidents);
           && s.cache == f.cache && s.value == f.value && !NoIncidentRequest(f.issued)
  {
    var m := GetLatestMonth(c, forceRefresh, now, answeredAt, months);
    var s := GetCrimeData(c, distance, at, forceRefresh, now, answeredAt, months, locate, boundary, incidents);
    assert m.issued == [] || m.issued == [AvailableMonths];
    if m.value.Some? {
      var month := m.value.value;
      var needed := MonthForcesFetch(m.cache, forceRefresh, month);
      var r := ReportForMonth(m.cache, distance, needed, month, at, locate, boundary, incidents);
      assert s.issued == m.issued + r.issued;
      NoIncidentAppend(m.issued, r.issued);
      if Located(locate).Some? {
        var d := ReuseOrFetch(m.cache, distance, needed, month, Located(locate).value, at, boundary, incidents);
        assert r.issued == [LocateNeighbourhood(at)] + d.issued;
        NoIncidentAppend([LocateNeighbourhood(at)], d.issued);
      }
    }
  }

  /** A list of requests asks for incidents when one of its parts does. */
  lemma NoIncidentAppend(a: seq<Request>, b: seq<Request>)
    ensures NoIncidentRequest(a + b) <==> NoIncidentRequest(a) && NoIncidentRequest(b)
  {
    if NoIncidentRequest(a) && NoIncidentRequest(b) {
      forall k | 0 <= k < |a + b| ensures !IsIncidentRequest((a + b)[k]) {
        if k >= |a| { assert (a + b)[k] == b[k - |a|]; }
      }
    }
    if NoIncidentRequest(a + b) {
      forall k | 0 <= k < |a| ensures !IsIncidentRequest(a[k]) {
        assert (a + b)[k] == a[k];
      }
      forall k | 0 <= k < |b| ensures !IsIncidentRequest(b[k]) {
        assert (a + b)[|a| + k] == b[k];
      }
    }
  }

  /** The month step touches the month fields only. */
  lemma MonthStepKeepsReportFields(c: CacheState, forceRefresh: bool, now: int, answeredAt: int,
                                   months: Fetch<Option<seq<AvailableDate>>>)
    ensures var m := GetLatestMonth(c, forceRefresh, now, answeredAt, months);
      m.cache == c.(latestMonth := m.cache.latestMonth, lastCheckedMonth := m.cache.lastCheckedMonth)
  {
  }

  /** After a change of configuration the next call that resolves a month
      and an area always builds and stores a new report: there is no cached
      report left to return. */
  lemma ConfigureForcesRefetch(c: CacheState, g: Granularity, radiusKm: Option<real>,
                               distance: (Coord, Coord) -> real, at: Coord,
                               forceRefresh: bool, now: int, answeredAt: int,
                               months: Fetch<Option<seq<AvailableDate>>>,
                               locate: Fetch<Option<NeighbourhoodLocation>>,
                               boundary: Fetch<Option<Boundary>>,
                               incidents: IncidentResponse)
    requires GetLatestMonth(Configured(c, g, radiusKm), forceRefresh, now, answeredAt, months).value.Some?
    requires Located(locate).Some?
    ensures var s := GetCrimeData(Configured(c, g, radiusKm), distance, at, forceRefresh, now, answeredAt,
                                  months, locate, boundary, incidents);
      && s.cache.lastReport == Some(s.value)
      && s.value.granularity == g
  {
    NeededFetchBuildsReport(Configured(c, g, radiusKm), distance, at, forceRefresh, now, answeredAt,
                            months, locate, boundary, incidents);
  }

  // ------------------------------------------------------ Boundary behaviour

  /** A forced refresh does not refetch a cached boundary: the boundary step
      is told only whether the id differs from the cached owner. With a
      boundary cached for the located neighbourhood, a forced call sends the
      month, locate and polygon requests and no boundary request. */
  lemma ForcedRefreshKeepsBoundary(c: CacheState, distance: (Coord, Coord) -> real, at: Coord,
                                   now: int, answeredAt: int, months: Fetch<Option<seq<AvailableDate>>>,
                                   locate: Fetch<Option<NeighbourhoodLocation>>,
                                   boundary: Fetch<Option<Boundary>>,
                                   incidents: IncidentResponse)
    requires c.granularity == Neighbourhood
    requires GetLatestMonth(c, true, now, answeredAt, months).value.Some?
    requires Located(locate).Some?
    requires c.boundaryCache.Some? && |c.boundaryCache.value| > 0
    requires FormatPolygon(c.boundaryCache).Some?
    requires c.boundaryOwner == Located(locate).value.neighbourhood
    ensures var s := GetCrimeData(c, distance, at, true, now, answeredAt, months, locate, boundary, incidents);
      && s.issued == [AvailableMonths, LocateNeighbourhood(at),
                      CrimesInPolygon(GetLatestMonth(c, true, now, answeredAt, months).value.value,
                                      FormatPolygon(c.boundaryCache).value)]
      && s.cache.boundaryCache == c.boundaryCache
  {
    MonthStepKeepsReportFields(c, true, now, answeredAt, months);
  }

  /** After a neighbourhood fetch that found no usable boundary, the stored
      explanation stamped no marker. A later test at neighbourhood
      granularity finds it stale exactly when the neighbourhood differs from
      the marker as it was before the fetch. So the same spot is fetched
      again unless that old marker already named it, and then the
      explanation is returned as fresh. When the boundary step came back
      null, the boundary cache is empty, so the retry requests the boundary
      again. */
  lemma BoundaryFailureIsRetried(c: CacheState, area: NeighbourhoodLocation, at: Coord,
                                 month: Period, boundary: Fetch<Option<Boundary>>,
                                 incidents: IncidentResponse, distance: (Coord, Coord) -> real,
                                 next: NeighbourhoodLocation, nextAt: Coord)
    requires c.granularity == Neighbourhood
    requires var c1 := c.(currentForceId := area.force, currentNeighbourhoodId := area.neighbourhood);
      var b := GetBoundary(c1, area.force, area.neighbourhood, area.neighbourhood != c.boundaryOwner, boundary);
      b.value.None? || b.value.value == []
    ensures var f := FetchReport(c, area, at, month, boundary, incidents);
      Stale(f.cache, distance, next, nextAt) <==> next.neighbourhood != c.lastNeighbourhoodIdForData
    ensures var c1 := c.(currentForceId := area.force, currentNeighbourhoodId := area.neighbourhood);
      var b := GetBoundary(c1, area.force, area.neighbourhood, area.neighbourhood != c.boundaryOwner, boundary);
      var f := FetchReport(c, area, at, month, boundary, incidents);
      b.value.None? ==> !BoundaryCacheHit(f.cache, next.neighbourhood, false)
  {
  }
}
