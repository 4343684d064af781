/**
 * Group-and-filter aggregation: records are grouped by one breakdown
 * dimension, groups that are too small or keyed by the sentinel are dropped,
 * and each surviving group is summarised by its totals and ratios.
 */
module Aggregated {
  import opened Wrappers
  import opened Common
  import opened Util
  import opened Accumulate

  /** The group key of a record: the selected field, or "" when the breakdown string names no dimension. */
  function KeyOf(r: Insight, breakdown: string): string {
    match BreakdownFromName(breakdown)
    case Some(d) => d.Select(r)
    case None => ""
  }

  /** The records whose key is k, in input order. */
  function GroupOf(s: seq<Insight>, breakdown: string, k: string): seq<Insight> {
    if s == [] then []
    else
      var r := s[|s| - 1];
      GroupOf(s[..|s| - 1], breakdown, k) + (if KeyOf(r, breakdown) == k then [r] else [])
  }

  /** The keys that occur in the records: exactly those with a non-empty group. */
  function KeysOf(s: seq<Insight>, breakdown: string): set<string> {
    if s == [] then {} else KeysOf(s[..|s| - 1], breakdown) + {KeyOf(s[|s| - 1], breakdown)}
  }

  /** The keys that occur in the records are exactly those with a non-empty group. */
  lemma {:induction false} KeysAreNonEmptyGroups(s: seq<Insight>, breakdown: string)
    ensures forall k :: k in KeysOf(s, breakdown) <==> |GroupOf(s, breakdown, k)| > 0
  {
    if s != [] {
      KeysAreNonEmptyGroups(s[..|s| - 1], breakdown);
    }
  }

  /** Taking one more record extends its key's group by that record and leaves every other group as it was. */
  lemma GroupsStep(s: seq<Insight>, n: nat, breakdown: string)
    requires n < |s|
    ensures KeysOf(s[..n + 1], breakdown) == KeysOf(s[..n], breakdown) + {KeyOf(s[n], breakdown)}
    ensures forall k :: GroupOf(s[..n + 1], breakdown, k)
                        == GroupOf(s[..n], breakdown, k) + (if KeyOf(s[n], breakdown) == k then [s[n]] else [])
  {
    assert s[..n + 1][..n] == s[..n];
  }

  /** The keys that must appear in the output: present, not the sentinel, and with at least threshold records. */
  function QualifyingNames(s: seq<Insight>, breakdown: string, threshold: int): set<string> {
    set k | k in KeysOf(s, breakdown) && k != NotSet && |GroupOf(s, breakdown, k)| >= threshold
  }

  /** The number of input positions whose record has key k. */
  function CountWithKey(s: seq<Insight>, breakdown: string, k: string): nat {
    |KeyPositions(s, breakdown, k)|
  }

  function KeyPositions(s: seq<Insight>, breakdown: string, k: string): set<int> {
    set i | 0 <= i < |s| && KeyOf(s[i], breakdown) == k
  }

  /** Go's float quotient num / den, undefined (an infinity or NaN in Go) when den is 0. */
  function Quotient(num: real, den: int): Option<real> {
    if den == 0 then None else Some(num / den as real)
  }

  /** The statistics of one non-empty group, as the Go loop computes them. */
  function Summarize(name: string, group: seq<Insight>, parseFloat: ParseFn): AggregatedMetrics
    requires |group| > 0
  {
    var sessions := Total(group, SessionsOf);
    var pageViews := Total(group, PageViewsOf);
    var duration := Total(group, DurationOf) as real;
    AggregatedMetrics(
      Name := name,
      AverageEngagementRate := RateTotal(group, parseFloat) / |group| as real,
      TotalSessions := sessions,
      TotalPageViews := pageViews,
      AverageSessionDuration := Quotient(duration, sessions),
      BounceRate := match Quotient(BounceRecords(group) as real, sessions)
                    case None => None
                    case Some(q) => Some(q * 100.0),
      TotalNewUsers := Total(group, NewUsersOf),
      TotalUsers := Total(group, UsersOf),
      AverageEngagementDuration := if pageViews > 0 then duration / pageViews as real else 0.0,
      DataPointCount := |group|)
  }

  function Names(out: seq<AggregatedMetrics>): set<string> {
    set e | e in out :: e.Name
  }

  predicate DistinctNames(out: seq<AggregatedMetrics>) {
    forall i, j :: 0 <= i < j < |out| ==> out[i].Name != out[j].Name
  }

  /**
   * What a correct aggregation output is, in any order: one entry per
   * qualifying key and no other, each the summary of that key's group.
   */
  ghost predicate IsAggregation(data: seq<Insight>, breakdown: string, threshold: int,
                                parseFloat: ParseFn, out: seq<AggregatedMetrics>)
  {
    && DistinctNames(out)
    && Names(out) == QualifyingNames(data, breakdown, threshold)
    && forall e :: e in out ==>
         |GroupOf(data, breakdown, e.Name)| > 0
         && e == Summarize(e.Name, GroupOf(data, breakdown, e.Name), parseFloat)
  }

  /** Folds one group into its statistics: the inner accumulation loop of the source. */
  method AggregateGroup(name: string, insights: seq<Insight>, parseFloat: ParseFn)
    returns (m: AggregatedMetrics)
    requires |insights| > 0
    ensures m == Summarize(name, insights, parseFloat)
  {
    var totalEngagementRate, totalSessionDuration, totalBounceRate := 0.0, 0.0, 0.0;
    var totalSessions, totalPageViews, totalNewUsers, totalUsers := 0, 0, 0, 0;
    for i := 0 to |insights|
      invariant totalEngagementRate == RateTotal(insights[..i], parseFloat)
      invariant totalSessionDuration == Total(insights[..i], DurationOf) as real
      invariant totalBounceRate == BounceRecords(insights[..i]) as real
      invariant totalPageViews == Total(insights[..i], PageViewsOf)
      invariant totalSessions == Total(insights[..i], SessionsOf)
      invariant totalNewUsers == Total(insights[..i], NewUsersOf)
      invariant totalUsers == Total(insights[..i], UsersOf)
    {
      var insight := insights[i];
      assert insights[..i + 1][..i] == insights[..i];
      totalEngagementRate := totalEngagementRate + ParseStringToFloat(insight.EngagementRate, parseFloat);
      totalSessionDuration := totalSessionDuration + insight.UserEngagementDuration as real;
      if insight.Sessions > 0 && insight.ScreenPageViews == SinglePageView {
        totalBounceRate := totalBounceRate + 1.0;
      }
      totalPageViews := totalPageViews + insight.ScreenPageViews;
      totalSessions := totalSessions + insight.Sessions;
      totalNewUsers := totalNewUsers + insight.NewUsers;
      totalUsers := totalUsers + insight.TotalUsers;
    }
    assert insights[..|insights|] == insights;

    var averageEngagementRate := totalEngagementRate / |insights| as real;
    var averageSessionDuration := Quotient(totalSessionDuration, totalSessions);
    var bounceRate := if totalSessions == 0 then None else Some((totalBounceRate / totalSessions as real) * 100.0);
    var averageEngagementDuration := 0.0;
    if totalPageViews > 0 {
      averageEngagementDuration := totalSessionDuration / totalPageViews as real;
    }
    m := AggregatedMetrics(
      Name := name,
      AverageEngagementRate := averageEngagementRate,
      TotalSessions := totalSessions,
      TotalPageViews := totalPageViews,
      AverageSessionDuration := averageSessionDuration,
      BounceRate := bounceRate,
      TotalNewUsers := totalNewUsers,
      TotalUsers := totalUsers,
      AverageEngagementDuration := averageEngagementDuration,
      DataPointCount := |insights|);
  }

  /** Builds the map from each key to its records, in input order: the first loop of the source. */
  method GroupByKey(data: seq<Insight>, breakdown: string) returns (metricsMap: map<string, seq<Insight>>)
    ensures metricsMap.Keys == KeysOf(data, breakdown)
    ensures forall k :: k in metricsMap ==> metricsMap[k] == GroupOf(data, breakdown, k)
    ensures forall k :: k in metricsMap ==> |metricsMap[k]| > 0
  {
    metricsMap := map[];
    for i := 0 to |data|
      invariant metricsMap.Keys == KeysOf(data[..i], breakdown)
      invariant forall k :: k in metricsMap ==> metricsMap[k] == GroupOf(data[..i], breakdown, k)
      invariant forall k :: k in metricsMap ==> |metricsMap[k]| > 0
      invariant forall k :: k !in metricsMap ==> GroupOf(data[..i], breakdown, k) == []
    {
      GroupsStep(data, i, breakdown);
      var key := KeyOf(data[i], breakdown);
      var group := if key in metricsMap then metricsMap[key] else [];
      metricsMap := metricsMap[key := group + [data[i]]];
    }
    assert data[..|data|] == data;
  }

  /**
   * Groups the records by the breakdown, keeps the groups with at least
   * threshold records whose key is not the sentinel, and summarises each.
   * Go visits the groups in map order; here any order may come out.
   */
  method AggregateMetricsByBreakdown(data: seq<Insight>, breakdown: string, threshold: int, parseFloat: ParseFn)
    returns (aggregatedMetrics: seq<AggregatedMetrics>)
    ensures IsAggregation(data, breakdown, threshold, parseFloat, aggregatedMetrics)
    ensures forall e :: e in aggregatedMetrics ==> e.DataPointCount >= threshold && e.Name != NotSet
    ensures threshold > |data| ==> aggregatedMetrics == []
  {
    var metricsMap := GroupByKey(data, breakdown);
    var pending := metricsMap.Keys;
    aggregatedMetrics := [];
    while pending != {}
      invariant pending <= metricsMap.Keys
      invariant DistinctNames(aggregatedMetrics)
      invariant forall e :: e in aggregatedMetrics ==> e.Name !in pending
      invariant Names(aggregatedMetrics) == QualifyingNames(data, breakdown, threshold) - pending
      invariant forall e :: e in aggregatedMetrics ==>
                  |GroupOf(data, breakdown, e.Name)| > 0
                  && e == Summarize(e.Name, GroupOf(data, breakdown, e.Name), parseFloat)
      decreases pending
    {
      var name :| name in pending;
      pending := pending - {name};
      var insights := metricsMap[name];
      if |insights| >= threshold && name != NotSet {
        var entry := AggregateGroup(name, insights, parseFloat);
        NamesAppend(aggregatedMetrics, entry);
        aggregatedMetrics := aggregatedMetrics + [entry];
      }
    }
    QualifyingNamesBounded(data, breakdown, threshold);
    NoNamesNoEntries(aggregatedMetrics);
    EntriesQualify(data, breakdown, threshold, parseFloat, aggregatedMetrics);
  }

  /**
   * Every entry of an aggregation counts exactly the input records that carry
   * its name, at least threshold of them, and is never the sentinel group.
   */
  lemma EntriesQualify(data: seq<Insight>, breakdown: string, threshold: int,
                       parseFloat: ParseFn, out: seq<AggregatedMetrics>)
    requires IsAggregation(data, breakdown, threshold, parseFloat, out)
    ensures forall e :: e in out ==>
              && e.DataPointCount == CountWithKey(data, breakdown, e.Name)
              && e.DataPointCount >= threshold
              && e.Name != NotSet
  {
    forall e | e in out
      ensures e.DataPointCount == CountWithKey(data, breakdown, e.Name)
      ensures e.DataPointCount >= threshold && e.Name != NotSet
    {
      assert e.Name in Names(out);
      GroupSizeIsCount(data, breakdown, e.Name);
    }
  }

  /** A group holds exactly as many records as there are input positions with its key. */
  lemma {:induction false} GroupSizeIsCount(s: seq<Insight>, breakdown: string, k: string)
    ensures |GroupOf(s, breakdown, k)| == CountWithKey(s, breakdown, k)
  {
    if s == [] {
      assert KeyPositions(s, breakdown, k) == {};
    } else {
      GroupSizeIsCount(s[..|s| - 1], breakdown, k);
      KeyPositionsSnoc(s, breakdown, k);
    }
  }

  lemma KeyPositionsSnoc(s: seq<Insight>, breakdown: string, k: string)
    requires s != []
    ensures var n := |s| - 1;
            KeyPositions(s, breakdown, k)
            == KeyPositions(s[..n], breakdown, k) + (if KeyOf(s[n], breakdown) == k then {n} else {})
  {
    var n := |s| - 1;
    var p := s[..n];
    forall i
      ensures i in KeyPositions(s, breakdown, k) <==> i in KeyPositions(p, breakdown, k) || (i == n && KeyOf(s[n], breakdown) == k)
    {
      if 0 <= i < n {
        assert p[i] == s[i];
      }
    }
  }

  lemma NamesAppend(out: seq<AggregatedMetrics>, e: AggregatedMetrics)
    ensures Names(out + [e]) == Names(out) + {e.Name}
  {
    assert forall x :: x in out + [e] <==> x in out || x == e;
  }

  lemma NoNamesNoEntries(out: seq<AggregatedMetrics>)
    ensures Names(out) == {} <==> out == []
  {
    if out != [] {
      assert out[0].Name in Names(out);
    }
  }

  /** No group is larger than the input, so a threshold above the input size admits nothing. */
  lemma QualifyingNamesBounded(data: seq<Insight>, breakdown: string, threshold: int)
    ensures threshold > |data| ==> QualifyingNames(data, breakdown, threshold) == {}
  {
    if threshold > |data| {
      forall k ensures |GroupOf(data, breakdown, k)| <= |data| {
        GroupAtMostData(data, breakdown, k);
      }
    }
  }

  lemma {:induction false} GroupAtMostData(s: seq<Insight>, breakdown: string, k: string)
    ensures |GroupOf(s, breakdown, k)| <= |s|
  {
    if s != [] {
      GroupAtMostData(s[..|s| - 1], breakdown, k);
    }
  }

  /** A group holds exactly the input records that carry its key. */
  lemma {:induction false} GroupMembers(s: seq<Insight>, breakdown: string, k: string)
    ensures forall r :: r in GroupOf(s, breakdown, k) <==> r in s && KeyOf(r, breakdown) == k
  {
    if s != [] {
      var p := s[..|s| - 1];
      GroupMembers(p, breakdown, k);
      assert s == p + [s[|s| - 1]];
    }
  }

  /** Names are distinct exactly when there are as many names as entries. */
  lemma {:induction false} DistinctNamesCardinality(out: seq<AggregatedMetrics>)
    ensures |Names(out)| <= |out|
    ensures DistinctNames(out) <==> |Names(out)| == |out|
  {
    if out != [] {
      var p, e := out[..|out| - 1], out[|out| - 1];
      DistinctNamesCardinality(p);
      assert out == p + [e];
      NamesAppend(p, e);
      if DistinctNames(out) {
        assert DistinctNames(p);
        assert forall i :: 0 <= i < |p| ==> p[i].Name != e.Name by {
          forall i | 0 <= i < |p| ensures p[i].Name != e.Name {
            assert out[i] == p[i];
          }
        }
      } else if |Names(out)| == |out| {
        assert e.Name !in Names(p);
        assert DistinctNames(p);
        forall i, j | 0 <= i < j < |out|
          ensures out[i].Name != out[j].Name
        {
          if j == |out| - 1 {
            assert out[i] in p;
          } else {
            assert out[i] == p[i] && out[j] == p[j];
          }
        }
      }
    }
  }

  /** An aggregation has one entry per qualifying key. */
  lemma AggregationSize(data: seq<Insight>, breakdown: string, threshold: int,
                        parseFloat: ParseFn, out: seq<AggregatedMetrics>)
    requires IsAggregation(data, breakdown, threshold, parseFloat, out)
    ensures |out| == |QualifyingNames(data, breakdown, threshold)|
  {
    DistinctNamesCardinality(out);
  }

  /**
   * Any two aggregations of the same input hold the same entries and the same
   * number of them: only their order can differ.
   */
  lemma AggregationUnique(data: seq<Insight>, breakdown: string, threshold: int, parseFloat: ParseFn,
                          out1: seq<AggregatedMetrics>, out2: seq<AggregatedMetrics>)
    requires IsAggregation(data, breakdown, threshold, parseFloat, out1)
    requires IsAggregation(data, breakdown, threshold, parseFloat, out2)
    ensures |out1| == |out2|
    ensures forall e :: e in out1 <==> e in out2
  {
    AggregationSize(data, breakdown, threshold, parseFloat, out1);
    AggregationSize(data, breakdown, threshold, parseFloat, out2);
    forall e | e in out1 ensures e in out2 {
      assert e.Name in Names(out2);
      var e' :| e' in out2 && e'.Name == e.Name;
    }
    forall e | e in out2 ensures e in out1 {
      assert e.Name in Names(out1);
      var e' :| e' in out1 && e'.Name == e.Name;
    }
  }

  /** Rearranging an aggregation, as sorting does, leaves an aggregation. */
  lemma AggregationPermutation(data: seq<Insight>, breakdown: string, threshold: int, parseFloat: ParseFn,
                               out: seq<AggregatedMetrics>, rearranged: seq<AggregatedMetrics>)
    requires IsAggregation(data, breakdown, threshold, parseFloat, out)
    requires multiset(rearranged) == multiset(out)
    ensures IsAggregation(data, breakdown, threshold, parseFloat, rearranged)
  {
    assert |rearranged| == |out| by {
      assert |multiset(rearranged)| == |multiset(out)|;
    }
    assert forall e :: e in rearranged <==> e in out by {
      forall e ensures e in rearranged <==> e in out {
        assert e in rearranged <==> e in multiset(rearranged);
        assert e in out <==> e in multiset(out);
      }
    }
    assert Names(rearranged) == Names(out);
    DistinctNamesCardinality(out);
    DistinctNamesCardinality(rearranged);
  }

  /** With a threshold of at most one, every present key other than the sentinel qualifies. */
  lemma LowThresholdAdmitsAllKeys(data: seq<Insight>, breakdown: string, threshold: int)
    requires threshold <= 1
    ensures QualifyingNames(data, breakdown, threshold) == KeysOf(data, breakdown) - {NotSet}
  {
    KeysAreNonEmptyGroups(data, breakdown);
  }

  /**
   * A breakdown string that names no dimension puts every record under the
   * empty key, so at most one group, named "", can come out.
   */
  lemma UnknownBreakdownSingleGroup(data: seq<Insight>, breakdown: string, threshold: int)
    requires BreakdownFromName(breakdown).None?
    ensures QualifyingNames(data, breakdown, threshold) <= {""}
    ensures data != [] && threshold <= |data| ==> QualifyingNames(data, breakdown, threshold) == {""}
  {
    KeysAreNonEmptyGroups(data, breakdown);
    forall k | k in KeysOf(data, breakdown) ensures k == "" {
      GroupMembers(data, breakdown, k);
      var r := GroupOf(data, breakdown, k)[0];
      assert r in GroupOf(data, breakdown, k);
    }
    if data != [] && threshold <= |data| {
      GroupMembers(data, breakdown, "");
      assert data[0] in GroupOf(data, breakdown, "");
      assert GroupOf(data, breakdown, "") == data by {
        AllOneGroup(data, breakdown);
      }
    }
  }

  lemma {:induction false} AllOneGroup(s: seq<Insight>, breakdown: string)
    requires BreakdownFromName(breakdown).None?
    ensures GroupOf(s, breakdown, "") == s
  {
    if s != [] {
      AllOneGroup(s[..|s| - 1], breakdown);
    }
  }

  /**
   * A group's bounce rate, when defined, lies in [0, 100] provided no record
   * has a negative session count: each bounce record carries at least one
   * session.
   */
  lemma GroupBounceRateBounded(name: string, group: seq<Insight>, parseFloat: ParseFn)
    requires |group| > 0 && NonNegativeSessions(group)
    ensures Summarize(name, group, parseFloat).BounceRate.Some? <==> Total(group, SessionsOf) != 0
    ensures Summarize(name, group, parseFloat).BounceRate.Some? ==>
              0.0 <= Summarize(name, group, parseFloat).BounceRate.value <= 100.0
  {
    BounceCountsBounded(group);
    var b, t := BounceRecords(group) as real, Total(group, SessionsOf) as real;
    if t != 0.0 {
      FractionWithin(b, t);
    }
  }

  /** A group's average engagement rate lies within the range of its parsed rates. */
  lemma GroupEngagementRateWithin(name: string, group: seq<Insight>, parseFloat: ParseFn, lo: real, hi: real)
    requires |group| > 0 && RatesWithin(group, parseFloat, lo, hi)
    ensures lo <= Summarize(name, group, parseFloat).AverageEngagementRate <= hi
  {
    RateTotalBounded(group, parseFloat, lo, hi);
    MeanWithin(RateTotal(group, parseFloat), |group| as real, lo, hi);
  }

  /** Each named breakdown keys a record by the field of the same name; the lookup is the source's switch. */
  lemma KeyOfSelects(r: Insight, d: Breakdown)
    ensures KeyOf(r, d.FieldName()) == d.Select(r)
  {
    BreakdownNameRoundTrip(d);
  }

  /**
   * The group's session-based ratios are undefined exactly when its total
   * sessions are 0; the engagement duration is guarded to 0 instead.
   */
  lemma GroupRatioGuards(name: string, group: seq<Insight>, parseFloat: ParseFn)
    requires |group| > 0
    ensures var e := Summarize(name, group, parseFloat);
      && (e.AverageSessionDuration.None? <==> e.TotalSessions == 0)
      && (e.BounceRate.None? <==> e.TotalSessions == 0)
      && (e.TotalPageViews <= 0 ==> e.AverageEngagementDuration == 0.0)
  {
  }
}
