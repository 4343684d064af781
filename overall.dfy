/** Dataset-wide statistics, computed in one pass with every ratio guarded. */
module Overall {
  import opened Wrappers
  import opened Common
  import opened Util
  import opened Accumulate

  /**
   * The statistics the single pass produces. Session-based ratios are 0 when
   * the total sessions are not positive, user-based ones when the total users
   * are not positive.
   */
  function OverallMetricsOf(data: seq<Insight>, parseFloat: ParseFn): OverallMetrics {
    var sessions := Total(data, SessionsOf);
    var users := Total(data, UsersOf);
    var s := sessions as real;
    var u := users as real;
    OverallMetrics(
      OverallEngagementRate := if sessions > 0 then WeightedRateTotal(data, parseFloat) / s else 0.0,
      AverageSessionDuration := if sessions > 0 then Total(data, DurationOf) as real / s else 0.0,
      BounceRate := if sessions > 0 then (SinglePageSessions(data) as real / s) * 100.0 else 0.0,
      PagesPerSession := if sessions > 0 then Total(data, PageViewsOf) as real / s else 0.0,
      NewUserPercentage := if users > 0 then (Total(data, NewUsersOf) as real / u) * 100.0 else 0.0,
      SessionPerUser := if users > 0 then s / u else 0.0)
  }

  /** The single accumulation loop followed by the guarded divisions. */
  method CalculateOverallMetrics(data: seq<Insight>, parseFloat: ParseFn) returns (m: OverallMetrics)
    ensures m == OverallMetricsOf(data, parseFloat)
  {
    var totalEngagementRate, totalSessionDuration := 0.0, 0.0;
    var totalSessions, totalPageViews, totalNewUsers, totalUsers, singlePageSessions := 0, 0, 0, 0, 0;
    for i := 0 to |data|
      invariant totalEngagementRate == WeightedRateTotal(data[..i], parseFloat)
      invariant totalSessionDuration == Total(data[..i], DurationOf) as real
      invariant singlePageSessions == SinglePageSessions(data[..i])
      invariant totalPageViews == Total(data[..i], PageViewsOf)
      invariant totalSessions == Total(data[..i], SessionsOf)
      invariant totalNewUsers == Total(data[..i], NewUsersOf)
      invariant totalUsers == Total(data[..i], UsersOf)
    {
      var insight := data[i];
      assert data[..i + 1][..i] == data[..i];
      var engagementRate := ParseStringToFloat(insight.EngagementRate, parseFloat);
      totalEngagementRate := totalEngagementRate + engagementRate * insight.Sessions as real;
      totalSessionDuration := totalSessionDuration + insight.UserEngagementDuration as real;
      if insight.Sessions > 0 && insight.ScreenPageViews == SinglePageView {
        singlePageSessions := singlePageSessions + insight.Sessions;
      }
      totalPageViews := totalPageViews + insight.ScreenPageViews;
      totalSessions := totalSessions + insight.Sessions;
      totalNewUsers := totalNewUsers + insight.NewUsers;
      totalUsers := totalUsers + insight.TotalUsers;
    }
    assert data[..|data|] == data;

    var overallEngagementRate, averageSessionDuration, bounceRate, pagesPerSession := 0.0, 0.0, 0.0, 0.0;
    var newUserPercentage, sessionPerUser := 0.0, 0.0;
    if totalSessions > 0 {
      overallEngagementRate := totalEngagementRate / totalSessions as real;
      averageSessionDuration := totalSessionDuration / totalSessions as real;
      bounceRate := (singlePageSessions as real / totalSessions as real) * 100.0;
      pagesPerSession := totalPageViews as real / totalSessions as real;
    }
    if totalUsers > 0 {
      newUserPercentage := (totalNewUsers as real / totalUsers as real) * 100.0;
      sessionPerUser := totalSessions as real / totalUsers as real;
    }
    m := OverallMetrics(
      OverallEngagementRate := overallEngagementRate,
      AverageSessionDuration := averageSessionDuration,
      BounceRate := bounceRate,
      PagesPerSession := pagesPerSession,
      NewUserPercentage := newUserPercentage,
      SessionPerUser := sessionPerUser);
  }

  /** An empty dataset gives all six statistics equal to 0, with no division performed. */
  lemma EmptyDataAllZero(parseFloat: ParseFn)
    ensures OverallMetricsOf([], parseFloat) == OverallMetrics(0.0, 0.0, 0.0, 0.0, 0.0, 0.0)
  {
  }

  /** Without positive total sessions the four session-based ratios are 0; without positive total users the two user-based ones are. */
  lemma GuardedRatiosZero(data: seq<Insight>, parseFloat: ParseFn)
    ensures var m := OverallMetricsOf(data, parseFloat);
      Total(data, SessionsOf) <= 0 ==>
        m.OverallEngagementRate == 0.0 && m.AverageSessionDuration == 0.0
        && m.BounceRate == 0.0 && m.PagesPerSession == 0.0
    ensures var m := OverallMetricsOf(data, parseFloat);
      Total(data, UsersOf) <= 0 ==> m.NewUserPercentage == 0.0 && m.SessionPerUser == 0.0
  {
  }

  /**
   * The overall engagement rate is a session-weighted mean: with no negative
   * session counts it lies within the range of the records' parsed rates, and
   * in particular equals their common rate when they all share one.
   */
  lemma EngagementRateIsWeightedMean(data: seq<Insight>, parseFloat: ParseFn, lo: real, hi: real)
    requires RatesWithin(data, parseFloat, lo, hi) && NonNegativeSessions(data)
    requires Total(data, SessionsOf) > 0
    ensures lo <= OverallMetricsOf(data, parseFloat).OverallEngagementRate <= hi
  {
    WeightedRateTotalBounded(data, parseFloat, lo, hi);
    MeanWithin(WeightedRateTotal(data, parseFloat), Total(data, SessionsOf) as real, lo, hi);
  }

  /** With no negative session counts the overall bounce rate lies in [0, 100]. */
  lemma BounceRateBounded(data: seq<Insight>, parseFloat: ParseFn)
    requires NonNegativeSessions(data)
    ensures 0.0 <= OverallMetricsOf(data, parseFloat).BounceRate <= 100.0
  {
    BounceCountsBounded(data);
    var b, s := SinglePageSessions(data) as real, Total(data, SessionsOf) as real;
    if s > 0.0 {
      FractionWithin(b, s);
    }
  }

  /** When each record's new users lie between 0 and its users, the new-user percentage lies in [0, 100]. */
  lemma NewUserPercentageBounded(data: seq<Insight>, parseFloat: ParseFn)
    requires NewUsersWithinUsers(data)
    ensures 0.0 <= OverallMetricsOf(data, parseFloat).NewUserPercentage <= 100.0
  {
    NewUsersBounded(data);
    var n, u := Total(data, NewUsersOf) as real, Total(data, UsersOf) as real;
    if u > 0.0 {
      FractionWithin(n, u);
    }
  }
}
