/** The data model shared by the crime-report service and its callers
    (Shared_Code/Models/Models.cs): the granularity setting, the upstream
    payloads, and the report the service hands back. */
module Models {

  /** A nullable reference: `None` stands for C#'s `null`. */
  datatype Option<+T> = None | Some(value: T)

  /** The spatial precision at which crime data is requested and cached. */
  datatype Granularity = Street | Neighbourhood | Force

  /** A reporting month (`yyyy-MM` upstream, a first-of-month `DateTime` in a
      report). */
  datatype Period = Period(year: int, month: int)

  /** Calendar order on months: by year, then by month. */
  predicate PeriodLe(a: Period, b: Period)
  {
    a.year < b.year || (a.year == b.year && a.month <= b.month)
  }

  /** A latitude/longitude pair in degrees. */
  datatype Coord = Coord(lat: real, lng: real)

  /** One entry of the list of months the provider has data for. `date` is
      `None` when the upstream string is null or is not a `yyyy-MM` month, so
      that parsing it fails. */
  datatype AvailableDate = AvailableDate(date: Option<Period>)

  /** The force and neighbourhood the provider places a coordinate in; either
      id may be missing from the answer. */
  datatype NeighbourhoodLocation =
    NeighbourhoodLocation(force: Option<string>, neighbourhood: Option<string>)

  /** One vertex of a neighbourhood's boundary, coordinates as the provider's
      strings. */
  datatype BoundaryPoint = BoundaryPoint(latitude: Option<string>, longitude: Option<string>)

  /** A neighbourhood's boundary as the provider's JSON list gives it: any
      element may be `null`. */
  type Boundary = seq<Option<BoundaryPoint>>

  datatype StreetInfo = StreetInfo(id: int, name: Option<string>)

  datatype Location =
    Location(latitude: Option<string>, longitude: Option<string>, street: Option<StreetInfo>)

  datatype OutcomeStatus = OutcomeStatus(category: Option<string>, date: Option<string>)

  /** One incident as the provider reports it; the service passes it through
      without looking inside. */
  datatype CrimeIncident = CrimeIncident(
    category: Option<string>,
    locationType: Option<string>,
    location: Option<Location>,
    context: Option<string>,
    outcomeStatus: Option<OutcomeStatus>,
    persistentId: Option<string>,
    id: int,
    locationSubtype: Option<string>,
    month: Option<string>)

  /** The label of the area a report covers. The service formats the
      coordinates with three decimals; the model keeps the values. */
  datatype AreaIdentifier =
    | StreetAt(at: Coord)
    | NeighbourhoodArea(neighbourhood: Option<string>, force: Option<string>)
    | ForceAround(force: Option<string>, around: Coord)

  /** The summary line of a report. The last three embed a count, an area
      label and a formatted month; every other one has a fixed text, given
      by `Text`. */
  datatype Summary =
    | NoDataAvailable
    | PeriodUnknown
    | AreaUnknown
    | BoundaryUnavailable
    | ApiError(messageHead: string, status: Option<string>)
    | ProcessingError
    | UnexpectedError(typeName: string)
    | CrimesReported(count: nat, area: AreaIdentifier, month: Period)
    | NoCrimesReported(area: AreaIdentifier, month: Period)
    | NoCrimeDataFound(area: AreaIdentifier, month: Period)

  const DefaultSummaryText := "No data available."

  predicate HasFixedText(s: Summary)
  {
    !(s.CrimesReported? || s.NoCrimesReported? || s.NoCrimeDataFound?)
  }

  /** The text of a summary that embeds no formatted count, area or month. */
  function Text(s: Summary): string
    requires HasFixedText(s)
  {
    match s
    case NoDataAvailable => DefaultSummaryText
    case PeriodUnknown => "Could not determine latest crime data period."
    case AreaUnknown => "Could not determine current police force/neighbourhood."
    case BoundaryUnavailable => "Could not fetch neighbourhood boundary."
    case ApiError(head, status) =>
      "API Error: " + head + "." + (if status.Some? then " (Status: " + status.value + ")" else "")
    case ProcessingError => "Error processing crime data."
    case UnexpectedError(name) => "An unexpected error (" + name + ") occurred."
  }

  /** The service's test for a summary nobody has set yet: empty, or the
      constructor's default text. */
  predicate ReplacesDefault(s: Summary)
    requires HasFixedText(s)
  {
    |Text(s)| == 0 || Text(s) == DefaultSummaryText
  }

  /** That test is passed by the default summary and by no other one. */
  lemma OnlyDefaultIsReplaced(s: Summary)
    requires HasFixedText(s)
    ensures ReplacesDefault(s) <==> s == NoDataAvailable
  {
    if s != NoDataAvailable {
      var t := Text(s);
      assert |t| > 0 && t != DefaultSummaryText by {
        assert |DefaultSummaryText| == 18 && DefaultSummaryText[0] == 'N';
        match s
        case PeriodUnknown => assert |t| == 45;
        case AreaUnknown => assert |t| == 55;
        case BoundaryUnavailable => assert |t| == 39;
        case ApiError(head, status) =>
          var rest := head + "." + (if status.Some? then " (Status: " + status.value + ")" else "");
          assert t == "API Error: " + rest;
          assert t[0] == 'A';
        case ProcessingError => assert |t| == 28;
        case UnexpectedError(name) =>
          assert t == "An unexpected error (" + (name + ") occurred.");
          assert t[0] == 'A';
      }
    }
  }

  /** The aggregate the service returns for one fetch cycle. */
  datatype CrimeReport = CrimeReport(
    summary: Summary,
    crimeCount: int,
    dataMonth: Period,
    granularity: Granularity,
    areaIdentifier: Option<AreaIdentifier>,
    incidents: seq<CrimeIncident>)

  /** A report as its constructor leaves it. The properties it does not set
      take the C# defaults: the first enumerator for the granularity,
      January of year 1 for the month, null for the area label. */
  function DefaultReport(): (r: CrimeReport)
    ensures r.summary == NoDataAvailable && Text(r.summary) == "No data available."
    ensures r.crimeCount == 0
    ensures r.incidents == []
    ensures r.areaIdentifier == None
  {
    CrimeReport(NoDataAvailable, 0, Period(1, 1), Street, None, [])
  }

  /** The three ways an incident's distance is shown. */
  datatype DistanceLabel = NotAvailable | UnderHundredMetres | Kilometres(km: real)

  /** The text of the two labels that embed no number. */
  function LabelText(d: DistanceLabel): string
    requires !d.Kilometres?
  {
    if d.NotAvailable? then "N/A" else "< 100 m"
  }

  /** An incident as the page lists it. */
  datatype CrimeIncidentDisplay = CrimeIncidentDisplay(
    category: Option<string>,
    streetInfo: Option<string>,
    outcomeInfo: Option<string>,
    month: Option<string>,
    distanceKm: real)

  /** Which of the three labels an incident's distance gets. */
  function DistanceDisplay(d: CrimeIncidentDisplay): (r: DistanceLabel)
    ensures r == NotAvailable <==> d.distanceKm < 0.0
    ensures r == UnderHundredMetres <==> 0.0 <= d.distanceKm < 0.1
    ensures r.Kilometres? <==> d.distanceKm >= 0.1
    ensures r.Kilometres? ==> r.km == d.distanceKm
    ensures !r.Kilometres? ==> LabelText(r) == (if d.distanceKm < 0.0 then "N/A" else "< 100 m")
  {
    if d.distanceKm < 0.0 then NotAvailable
    else if d.distanceKm < 0.1 then UnderHundredMetres
    else Kilometres(d.distanceKm)
  }
}
