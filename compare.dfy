/**
 * Comparisons between the two calculators: the per-group summary and the
 * overall pass computed over the same records.
 */
module Compare {
  import opened Wrappers
  import opened Common
  import opened Util
  import opened Accumulate
  import opened Overall
  import Aggregated

  /**
   * The two calculators count bounces differently: a group counts bounce
   * records, the overall pass counts their sessions. Over the same records
   * with no negative session counts, the group's bounce rate is therefore
   * never above the overall one.
   */
  lemma GroupBounceAtMostOverallBounce(name: string, group: seq<Insight>, parseFloat: ParseFn)
    requires |group| > 0 && NonNegativeSessions(group) && Total(group, SessionsOf) > 0
    ensures Aggregated.Summarize(name, group, parseFloat).BounceRate.Some?
    ensures Aggregated.Summarize(name, group, parseFloat).BounceRate.value
            <= OverallMetricsOf(group, parseFloat).BounceRate
  {
    BounceCountsBounded(group);
    var b, p, s := BounceRecords(group) as real, SinglePageSessions(group) as real, Total(group, SessionsOf) as real;
    assert b / s <= p / s;
  }

  /** Over the same records with positive sessions, both calculators agree on the average session duration. */
  lemma SessionDurationAgrees(name: string, group: seq<Insight>, parseFloat: ParseFn)
    requires |group| > 0 && Total(group, SessionsOf) > 0
    ensures Aggregated.Summarize(name, group, parseFloat).AverageSessionDuration
            == Some(OverallMetricsOf(group, parseFloat).AverageSessionDuration)
  {
  }

  /**
   * Where every record is a bounce with the same k sessions, the overall
   * bounce rate is 100 while the group bounce rate of the same records is
   * 100 / k: the group divides a number of records by a number of sessions.
   */
  lemma UniformBounceGroup(name: string, group: seq<Insight>, parseFloat: ParseFn, k: int)
    requires |group| > 0 && k > 0
    requires forall i :: 0 <= i < |group| ==> IsBounce(group[i]) && group[i].Sessions == k
    ensures OverallMetricsOf(group, parseFloat).BounceRate == 100.0
    ensures Aggregated.Summarize(name, group, parseFloat).BounceRate == Some(100.0 / k as real)
  {
    UniformBounceCounts(group, k);
    var n, kr := |group| as real, k as real;
    assert Total(group, SessionsOf) as real == n * kr;
    assert SinglePageSessions(group) as real == n * kr;
    QuotientCancels(n, kr);
  }

  lemma QuotientCancels(n: real, k: real)
    requires n > 0.0 && k > 0.0
    ensures (n * k) / (n * k) == 1.0
    ensures (n / (n * k)) * 100.0 == 100.0 / k
  {
    assert n / (n * k) == 1.0 / k;
  }

  lemma {:induction false} UniformBounceCounts(s: seq<Insight>, k: int)
    requires forall i :: 0 <= i < |s| ==> IsBounce(s[i]) && s[i].Sessions == k
    ensures BounceRecords(s) == |s|
    ensures SinglePageSessions(s) == Total(s, SessionsOf) == |s| * k
  {
    if s != [] {
      UniformBounceCounts(s[..|s| - 1], k);
    }
  }
}
