/**
 * The report pipeline: overall statistics, then the four breakdowns with a
 * fixed minimum group size, each sorted descending by one field, with the
 * country and page lists cut to their first and last few entries.
 */
module KeyMetrics {
  import opened Wrappers
  import opened Common
  import opened Util
  import opened Aggregated
  import opened Overall
  import opened Sort

  /** Groups with fewer records than this are left out of the report. */
  const ThresholdDataPointNumber: int := 100
  /** How many entries the top and bottom lists hold. */
  const TopBottomCount: int := 5

  /**
   * The report, or the slice-bounds panic Go raises when the country or page
   * breakdown has fewer than TopBottomCount qualifying groups.
   */
  datatype KeyMetricsResult = Report(metrics: UserMetrics) | SliceOutOfRange

  predicate AllQualify(s: seq<AggregatedMetrics>, threshold: int) {
    forall e :: e in s ==> e.DataPointCount >= threshold && e.Name != NotSet
  }

  /** One breakdown of the report: aggregated with the fixed threshold, then sorted descending in place by the field. */
  method SortedBreakdown(data: seq<Insight>, breakdown: Breakdown, field: Metric, parseFloat: ParseFn)
    returns (sorted: seq<AggregatedMetrics>)
    ensures IsAggregation(data, breakdown.FieldName(), ThresholdDataPointNumber, parseFloat, sorted)
    ensures SortedDescending(sorted, Some(field))
    ensures |sorted| == |QualifyingNames(data, breakdown.FieldName(), ThresholdDataPointNumber)|
    ensures AllQualify(sorted, ThresholdDataPointNumber)
  {
    var metrics := AggregateMetricsByBreakdown(data, breakdown.FieldName(), ThresholdDataPointNumber, parseFloat);
    var list := new AggregatedMetrics[|metrics|](i requires 0 <= i < |metrics| => metrics[i]);
    assert list[..] == metrics;
    MetricNameRoundTrip(field);
    SortByField(list, field.FieldName(), Desc);
    sorted := list[..];
    AggregationPermutation(data, breakdown.FieldName(), ThresholdDataPointNumber, parseFloat, metrics, sorted);
    AggregationSize(data, breakdown.FieldName(), ThresholdDataPointNumber, parseFloat, sorted);
    EntriesQualify(data, breakdown.FieldName(), ThresholdDataPointNumber, parseFloat, sorted);
  }

  /**
   * Builds the report. The full sorted country and page lists, from which the
   * top and bottom lists are cut, are returned alongside as ghost values.
   */
  method CalculateKeyMetrics(data: seq<Insight>, parseFloat: ParseFn)
    returns (r: KeyMetricsResult, ghost byCountry: seq<AggregatedMetrics>, ghost byPage: seq<AggregatedMetrics>)
    ensures IsAggregation(data, Country.FieldName(), ThresholdDataPointNumber, parseFloat, byCountry)
    ensures SortedDescending(byCountry, Some(AvgEngagementRate))
    ensures IsAggregation(data, Page.FieldName(), ThresholdDataPointNumber, parseFloat, byPage)
    ensures SortedDescending(byPage, Some(TotalSessions))
    ensures r.Report? <==> |byCountry| >= TopBottomCount && |byPage| >= TopBottomCount
    ensures r.Report? <==>
              && |QualifyingNames(data, Country.FieldName(), ThresholdDataPointNumber)| >= TopBottomCount
              && |QualifyingNames(data, Page.FieldName(), ThresholdDataPointNumber)| >= TopBottomCount
    ensures r.Report? ==>
              var m := r.metrics;
              && m.OverallMetrics == OverallMetricsOf(data, parseFloat)
              && m.Top5CountriesWithHighestEngagementRate == GetTopElements(byCountry, TopBottomCount)
              && m.Top5CountriesWithLowestEngagementRate == GetBottomElements(byCountry, TopBottomCount)
              && IsAggregation(data, Device.FieldName(), ThresholdDataPointNumber, parseFloat, m.BounceRatesByDevices)
              && SortedDescending(m.BounceRatesByDevices, Some(BounceRate))
              && m.Top5PagesWithHighestNoOfSessions == GetTopElements(byPage, TopBottomCount)
              && m.Top5PagesWithLowestNoOfSessions == GetBottomElements(byPage, TopBottomCount)
              && IsAggregation(data, Medium.FieldName(), ThresholdDataPointNumber, parseFloat,
                               m.AverageSessionDurationsByDevices)
              && SortedDescending(m.AverageSessionDurationsByDevices, Some(AvgSessionDuration))
    ensures r.Report? ==>
              var m := r.metrics;
              && AllQualify(m.Top5CountriesWithHighestEngagementRate, ThresholdDataPointNumber)
              && AllQualify(m.Top5CountriesWithLowestEngagementRate, ThresholdDataPointNumber)
              && AllQualify(m.BounceRatesByDevices, ThresholdDataPointNumber)
              && AllQualify(m.Top5PagesWithHighestNoOfSessions, ThresholdDataPointNumber)
              && AllQualify(m.Top5PagesWithLowestNoOfSessions, ThresholdDataPointNumber)
              && AllQualify(m.AverageSessionDurationsByDevices, ThresholdDataPointNumber)
  {
    var overallMetrics := CalculateOverallMetrics(data, parseFloat);
    var metricsByCountry := SortedBreakdown(data, Country, AvgEngagementRate, parseFloat);
    var metricsByDevices := SortedBreakdown(data, Device, BounceRate, parseFloat);
    var metricsByPages := SortedBreakdown(data, Page, TotalSessions, parseFloat);
    var metricsByMedium := SortedBreakdown(data, Medium, AvgSessionDuration, parseFloat);
    byCountry, byPage := metricsByCountry, metricsByPages;

    if |metricsByCountry| < TopBottomCount || |metricsByPages| < TopBottomCount {
      r := SliceOutOfRange;
      return;
    }
    var topCountries := GetTopElements(metricsByCountry, TopBottomCount);
    var bottomCountries := GetBottomElements(metricsByCountry, TopBottomCount);
    var topPages := GetTopElements(metricsByPages, TopBottomCount);
    var bottomPages := GetBottomElements(metricsByPages, TopBottomCount);
    assert forall e :: e in topCountries || e in bottomCountries ==> e in metricsByCountry;
    assert forall e :: e in topPages || e in bottomPages ==> e in metricsByPages;
    r := Report(UserMetrics(
      OverallMetrics := overallMetrics,
      Top5CountriesWithHighestEngagementRate := topCountries,
      Top5CountriesWithLowestEngagementRate := bottomCountries,
      BounceRatesByDevices := metricsByDevices,
      Top5PagesWithHighestNoOfSessions := topPages,
      Top5PagesWithLowestNoOfSessions := bottomPages,
      AverageSessionDurationsByDevices := metricsByMedium));
  }
}
