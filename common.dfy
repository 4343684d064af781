/**
 * The shared vocabulary of the metrics engine: the sentinel group key, the
 * breakdown dimensions, the sortable metric names and the record and result
 * types. The Go source declares all of these twice, in kit/common and again in
 * kit/model, with identical values; this module is the one definition of both.
 */
module Common {
  import opened Wrappers

  /** The value the analytics export uses for a dimension it could not determine. */
  const NotSet: string := "(not set)"

  /**
   * The four dimensions a dataset can be broken down by. In Go the type is an
   * open string type; each constant's string is the name of the record field it
   * selects.
   */
  datatype Breakdown = Country | Device | Page | Medium {

    function FieldName(): string {
      match this
      case Country => "Country"
      case Device => "DeviceCategory"
      case Page => "LandingPage"
      case Medium => "SessionMedium"
    }

    /** The value of the record field this dimension names. */
    function Select(r: Insight): string {
      match this
      case Country => r.Country
      case Device => r.DeviceCategory
      case Page => r.LandingPage
      case Medium => r.SessionMedium
    }
  }

  /** Resolves a Go Breakdown string to the dimension it names, if any. */
  function BreakdownFromName(s: string): (b: Option<Breakdown>)
    ensures b.Some? ==> b.value.FieldName() == s
    ensures b.None? <==> forall d: Breakdown :: d.FieldName() != s
  {
    if s == Country.FieldName() then Some(Country)
    else if s == Device.FieldName() then Some(Device)
    else if s == Page.FieldName() then Some(Page)
    else if s == Medium.FieldName() then Some(Medium)
    else None
  }

  /** The ten fields of AggregatedMetrics a list can be sorted by. */
  datatype Metric =
    | Name | AvgEngagementRate | TotalSessions | TotalPageViews | AvgSessionDuration
    | BounceRate | TotalNewUsers | TotalUsers | AvgEngagementDuration | DataPointCount
  {
    function FieldName(): string {
      match this
      case Name => "Name"
      case AvgEngagementRate => "AverageEngagementRate"
      case TotalSessions => "TotalSessions"
      case TotalPageViews => "TotalPageViews"
      case AvgSessionDuration => "AverageSessionDuration"
      case BounceRate => "BounceRate"
      case TotalNewUsers => "TotalNewUsers"
      case TotalUsers => "TotalUsers"
      case AvgEngagementDuration => "AverageEngagementDuration"
      case DataPointCount => "DataPointCount"
    }
  }

  /** Resolves a Go Metric string to the field it names, if any. */
  function MetricFromName(s: string): (m: Option<Metric>)
    ensures m.Some? ==> m.value.FieldName() == s
    ensures m.None? <==> forall f: Metric :: f.FieldName() != s
  {
    if s == Name.FieldName() then Some(Name)
    else if s == AvgEngagementRate.FieldName() then Some(AvgEngagementRate)
    else if s == TotalSessions.FieldName() then Some(TotalSessions)
    else if s == TotalPageViews.FieldName() then Some(TotalPageViews)
    else if s == AvgSessionDuration.FieldName() then Some(AvgSessionDuration)
    else if s == BounceRate.FieldName() then Some(BounceRate)
    else if s == TotalNewUsers.FieldName() then Some(TotalNewUsers)
    else if s == TotalUsers.FieldName() then Some(TotalUsers)
    else if s == AvgEngagementDuration.FieldName() then Some(AvgEngagementDuration)
    else if s == DataPointCount.FieldName() then Some(DataPointCount)
    else None
  }

  /** Sort orders; any string other than Desc sorts ascending. */
  const Desc: string := "DESC"
  const Asc: string := "ASC"

  /** One exported analytics row. The engagement rate is kept as the exported text. */
  datatype Insight = Insight(
    Country: string,
    DeviceCategory: string,
    EngagementRate: string,
    LandingPage: string,
    NewUsers: int,
    ScreenPageViews: int,
    SessionMedium: string,
    Sessions: int,
    TotalUsers: int,
    UserEngagementDuration: int,
    Date: string)

  /**
   * The statistics of one group. Go stores AverageSessionDuration and
   * BounceRate as float64 quotients by the group's total sessions without a
   * guard; here they are None exactly when that total is 0 (where Go holds an
   * infinity or NaN).
   */
  datatype AggregatedMetrics = AggregatedMetrics(
    Name: string,
    AverageEngagementRate: real,
    TotalSessions: int,
    TotalPageViews: int,
    AverageSessionDuration: Option<real>,
    BounceRate: Option<real>,
    TotalNewUsers: int,
    TotalUsers: int,
    AverageEngagementDuration: real,
    DataPointCount: int)

  /** Dataset-wide statistics; every ratio is guarded, so all are plain reals. */
  datatype OverallMetrics = OverallMetrics(
    OverallEngagementRate: real,
    AverageSessionDuration: real,
    BounceRate: real,
    PagesPerSession: real,
    NewUserPercentage: real,
    SessionPerUser: real)

  /** The report handed to the prompt builder. */
  datatype UserMetrics = UserMetrics(
    OverallMetrics: OverallMetrics,
    Top5CountriesWithHighestEngagementRate: seq<AggregatedMetrics>,
    Top5CountriesWithLowestEngagementRate: seq<AggregatedMetrics>,
    BounceRatesByDevices: seq<AggregatedMetrics>,
    Top5PagesWithHighestNoOfSessions: seq<AggregatedMetrics>,
    Top5PagesWithLowestNoOfSessions: seq<AggregatedMetrics>,
    AverageSessionDurationsByDevices: seq<AggregatedMetrics>)

  /** Resolving a breakdown's own name gives the breakdown back. */
  lemma BreakdownNameRoundTrip(b: Breakdown)
    ensures BreakdownFromName(b.FieldName()) == Some(b)
  {
  }

  /** Resolving a metric's own name gives the metric back. */
  lemma MetricNameRoundTrip(m: Metric)
    ensures MetricFromName(m.FieldName()) == Some(m)
  {
  }
}
