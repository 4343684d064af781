/**
 * The running sums both calculators accumulate over a list of records, each
 * defined over a prefix so that a left-to-right loop can keep it as an
 * invariant, and the bounds those sums obey.
 */
module Accumulate {
  import opened Common
  import opened Util

  /** A record is a bounce when it has sessions and exactly one page view. */
  const SinglePageView: int := 1

  predicate IsBounce(r: Insight) {
    r.Sessions > 0 && r.ScreenPageViews == SinglePageView
  }

  function SessionsOf(r: Insight): int { r.Sessions }
  function PageViewsOf(r: Insight): int { r.ScreenPageViews }
  function NewUsersOf(r: Insight): int { r.NewUsers }
  function UsersOf(r: Insight): int { r.TotalUsers }
  function DurationOf(r: Insight): int { r.UserEngagementDuration }

  /** The sum of one integer field over the records. */
  function Total(s: seq<Insight>, f: Insight -> int): int {
    if s == [] then 0 else Total(s[..|s| - 1], f) + f(s[|s| - 1])
  }

  /** The number of bounce records. */
  function BounceRecords(s: seq<Insight>): int {
    if s == [] then 0
    else BounceRecords(s[..|s| - 1]) + (if IsBounce(s[|s| - 1]) then 1 else 0)
  }

  /** The sessions of the bounce records. */
  function SinglePageSessions(s: seq<Insight>): int {
    if s == [] then 0
    else SinglePageSessions(s[..|s| - 1]) + (if IsBounce(s[|s| - 1]) then s[|s| - 1].Sessions else 0)
  }

  /** The engagement rate of one record, 0 when its text does not parse. */
  function RateOf(r: Insight, parseFloat: ParseFn): real {
    ParseStringToFloat(r.EngagementRate, parseFloat)
  }

  /** The sum of the parsed engagement rates. */
  function RateTotal(s: seq<Insight>, parseFloat: ParseFn): real {
    if s == [] then 0.0 else RateTotal(s[..|s| - 1], parseFloat) + RateOf(s[|s| - 1], parseFloat)
  }

  /** The sum of each parsed engagement rate times the record's sessions. */
  function WeightedRateTotal(s: seq<Insight>, parseFloat: ParseFn): real {
    if s == [] then 0.0
    else
      var r := s[|s| - 1];
      WeightedRateTotal(s[..|s| - 1], parseFloat) + RateOf(r, parseFloat) * (r.Sessions as real)
  }

  predicate NonNegativeSessions(s: seq<Insight>) {
    forall i :: 0 <= i < |s| ==> s[i].Sessions >= 0
  }

  /**
   * With no negative session counts, the bounce records number at most the
   * sessions they carry, and those sessions are at most all the sessions.
   */
  lemma {:induction false} BounceCountsBounded(s: seq<Insight>)
    requires NonNegativeSessions(s)
    ensures 0 <= BounceRecords(s) <= SinglePageSessions(s) <= Total(s, SessionsOf)
  {
    if s != [] {
      BounceCountsBounded(s[..|s| - 1]);
    }
  }

  /** The bounce records are never more than the records. */
  lemma {:induction false} BounceRecordsAtMostRecords(s: seq<Insight>)
    ensures 0 <= BounceRecords(s) <= |s|
  {
    if s != [] {
      BounceRecordsAtMostRecords(s[..|s| - 1]);
    }
  }

  predicate RatesWithin(s: seq<Insight>, parseFloat: ParseFn, lo: real, hi: real) {
    forall i :: 0 <= i < |s| ==> lo <= RateOf(s[i], parseFloat) <= hi
  }

  /** When every parsed rate lies in [lo, hi], their sum over n records lies in [lo·n, hi·n]. */
  lemma {:induction false} RateTotalBounded(s: seq<Insight>, parseFloat: ParseFn, lo: real, hi: real)
    requires RatesWithin(s, parseFloat, lo, hi)
    ensures lo * (|s| as real) <= RateTotal(s, parseFloat) <= hi * (|s| as real)
  {
    if s != [] {
      var p, r := s[..|s| - 1], s[|s| - 1];
      assert RatesWithin(p, parseFloat, lo, hi) by {
        forall i | 0 <= i < |p| ensures lo <= RateOf(p[i], parseFloat) <= hi {
          assert p[i] == s[i];
        }
      }
      RateTotalBounded(p, parseFloat, lo, hi);
      var x, n, t := RateOf(r, parseFloat), |p| as real, RateTotal(p, parseFloat);
      assert lo <= x <= hi by {
        assert r == s[|s| - 1];
      }
      StepAtLeast(lo, n, t, 1.0, x, |s| as real, RateTotal(s, parseFloat));
      StepAtMost(hi, n, t, 1.0, x, |s| as real, RateTotal(s, parseFloat));
    }
  }

  /** When every parsed rate lies in [lo, hi] and no session count is negative, their session-weighted sum lies in [lo·S, hi·S] for S the total sessions. */
  lemma WeightedRateTotalBounded(s: seq<Insight>, parseFloat: ParseFn, lo: real, hi: real)
    requires RatesWithin(s, parseFloat, lo, hi) && NonNegativeSessions(s)
    ensures lo * (Total(s, SessionsOf) as real) <= WeightedRateTotal(s, parseFloat)
    ensures WeightedRateTotal(s, parseFloat) <= hi * (Total(s, SessionsOf) as real)
  {
    WeightedRateTotalAtLeast(s, parseFloat, lo, hi);
    WeightedRateTotalAtMost(s, parseFloat, lo, hi);
  }

  lemma {:induction false} WeightedRateTotalAtLeast(s: seq<Insight>, parseFloat: ParseFn, lo: real, hi: real)
    requires RatesWithin(s, parseFloat, lo, hi) && NonNegativeSessions(s)
    ensures lo * (Total(s, SessionsOf) as real) <= WeightedRateTotal(s, parseFloat)
  {
    if s != [] {
      var p, r := s[..|s| - 1], s[|s| - 1];
      WeightedPrefix(s, parseFloat, lo, hi);
      WeightedRateTotalAtLeast(p, parseFloat, lo, hi);
      WeightedUnfold(s, parseFloat);
      WeightedStepAtLeast(lo, hi, RateOf(r, parseFloat), r.Sessions as real,
                          Total(p, SessionsOf) as real, WeightedRateTotal(p, parseFloat),
                          Total(s, SessionsOf) as real, WeightedRateTotal(s, parseFloat));
    }
  }

  lemma {:induction false} WeightedRateTotalAtMost(s: seq<Insight>, parseFloat: ParseFn, lo: real, hi: real)
    requires RatesWithin(s, parseFloat, lo, hi) && NonNegativeSessions(s)
    ensures WeightedRateTotal(s, parseFloat) <= hi * (Total(s, SessionsOf) as real)
  {
    if s != [] {
      var p, r := s[..|s| - 1], s[|s| - 1];
      WeightedPrefix(s, parseFloat, lo, hi);
      WeightedRateTotalAtMost(p, parseFloat, lo, hi);
      WeightedUnfold(s, parseFloat);
      WeightedStepAtMost(lo, hi, RateOf(r, parseFloat), r.Sessions as real,
                          Total(p, SessionsOf) as real, WeightedRateTotal(p, parseFloat),
                          Total(s, SessionsOf) as real, WeightedRateTotal(s, parseFloat));
    }
  }

  /** The hypotheses of the weighted bound hold of every prefix and of the last record. */
  lemma WeightedPrefix(s: seq<Insight>, parseFloat: ParseFn, lo: real, hi: real)
    requires s != []
    requires RatesWithin(s, parseFloat, lo, hi) && NonNegativeSessions(s)
    ensures RatesWithin(s[..|s| - 1], parseFloat, lo, hi) && NonNegativeSessions(s[..|s| - 1])
    ensures lo <= RateOf(s[|s| - 1], parseFloat) <= hi && s[|s| - 1].Sessions >= 0
  {
    var p := s[..|s| - 1];
    forall i | 0 <= i < |p| ensures lo <= RateOf(p[i], parseFloat) <= hi && p[i].Sessions >= 0 {
      assert p[i] == s[i];
    }
  }

  predicate NewUsersWithinUsers(s: seq<Insight>) {
    forall i :: 0 <= i < |s| ==> 0 <= s[i].NewUsers <= s[i].TotalUsers
  }

  /** When each record's new users are between 0 and its users, the same holds of the totals. */
  lemma {:induction false} NewUsersBounded(s: seq<Insight>)
    requires NewUsersWithinUsers(s)
    ensures 0 <= Total(s, NewUsersOf) <= Total(s, UsersOf)
  {
    if s != [] {
      NewUsersBounded(s[..|s| - 1]);
    }
  }

  /** Multiplying by a non-negative weight keeps a value's bounds. */
  lemma ScaleWithin(x: real, w: real, lo: real, hi: real)
    requires lo <= x <= hi && 0.0 <= w
    ensures lo * w <= x * w <= hi * w
  {
    assert 0.0 <= (x - lo) * w && 0.0 <= (hi - x) * w;
  }

  /** Taking one more record adds its sessions to the total and its weighted rate to the weighted total. */
  lemma WeightedUnfold(s: seq<Insight>, parseFloat: ParseFn)
    requires s != []
    ensures var p, r := s[..|s| - 1], s[|s| - 1];
            && Total(s, SessionsOf) as real == Total(p, SessionsOf) as real + r.Sessions as real
            && WeightedRateTotal(s, parseFloat) == WeightedRateTotal(p, parseFloat) + RateOf(r, parseFloat) * (r.Sessions as real)
  {
  }

  /** The weighted lower bound lo·n <= total survives one more record whose rate x is at least lo and whose weight w is non-negative. */
  lemma WeightedStepAtLeast(lo: real, hi: real, x: real, w: real, n: real, total: real, n': real, total': real)
    requires lo <= x <= hi && 0.0 <= w
    requires lo * n <= total && n' == n + w && total' == total + x * w
    ensures lo * n' <= total'
  {
    ScaleWithin(x, w, lo, hi);
    StepAtLeast(lo, n, total, w, x * w, n', total');
  }

  /** The weighted upper bound total <= hi·n survives one more record whose rate x is at most hi and whose weight w is non-negative. */
  lemma WeightedStepAtMost(lo: real, hi: real, x: real, w: real, n: real, total: real, n': real, total': real)
    requires lo <= x <= hi && 0.0 <= w
    requires total <= hi * n && n' == n + w && total' == total + x * w
    ensures total' <= hi * n'
  {
    ScaleWithin(x, w, lo, hi);
    StepAtMost(hi, n, total, w, x * w, n', total');
  }

  /** A lower bound lo·n <= total survives adding w to n and at least lo·w to total. */
  lemma StepAtLeast(lo: real, n: real, total: real, w: real, v: real, n': real, total': real)
    requires lo * n <= total && lo * w <= v && n' == n + w && total' == total + v
    ensures lo * n' <= total'
  {
    assert lo * n' == lo * n + lo * w;
  }

  /** An upper bound total <= hi·n survives adding w to n and at most hi·w to total. */
  lemma StepAtMost(hi: real, n: real, total: real, w: real, v: real, n': real, total': real)
    requires total <= hi * n && v <= hi * w && n' == n + w && total' == total + v
    ensures total' <= hi * n'
  {
    assert hi * n' == hi * n + hi * w;
  }

  /** Dividing a sum bounded by lo·n and hi·n by n > 0 gives a value in [lo, hi]. */
  lemma MeanWithin(total: real, n: real, lo: real, hi: real)
    requires 0.0 < n && lo * n <= total <= hi * n
    ensures lo <= total / n <= hi
  {
    assert lo * n / n == lo && hi * n / n == hi;
  }

  /** A part of a positive whole is a fraction in [0, 1]. */
  lemma FractionWithin(part: real, whole: real)
    requires 0.0 <= part <= whole && 0.0 < whole
    ensures 0.0 <= part / whole <= 1.0
  {
  }
}
