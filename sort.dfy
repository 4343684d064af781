/**
 * Sorting a list of group statistics in place by one named field, ascending
 * or descending. The result is stated in terms of the comparator's `less`:
 * ascending leaves no pair out of order by `less`; descending, whose
 * comparator is `!less`, leaves the list non-increasing.
 */
module Sort {
  import opened Wrappers
  import opened Common

  /** Go's string `<`: byte-wise lexicographic. Comparing Unicode scalar values gives the same order as comparing their UTF-8 bytes. */
  predicate LexLess(a: string, b: string)
    decreases |a|
  {
    if |b| == 0 then false
    else if |a| == 0 then true
    else if a[0] != b[0] then a[0] < b[0]
    else LexLess(a[1..], b[1..])
  }

  lemma {:induction false} LexLessTrichotomy(a: string, b: string)
    ensures LexLess(a, b) || a == b || LexLess(b, a)
    ensures !(LexLess(a, b) && LexLess(b, a))
    decreases |a|
  {
    if |a| > 0 && |b| > 0 && a[0] == b[0] {
      LexLessTrichotomy(a[1..], b[1..]);
      if a[1..] == b[1..] {
        assert a == [a[0]] + a[1..] && b == [b[0]] + b[1..];
      }
    }
  }

  lemma {:induction false} LexLessTransitive(a: string, b: string, c: string)
    requires LexLess(a, b) && LexLess(b, c)
    ensures LexLess(a, c)
    decreases |a|
  {
    if |a| > 0 && a[0] == b[0] && b[0] == c[0] {
      LexLessTransitive(a[1..], b[1..], c[1..]);
    }
  }

  /** Float `<` on a ratio that may be undefined: false whenever one side is undefined, as Go's `<` is for NaN. */
  predicate RatioLess(a: Option<real>, b: Option<real>) {
    a.Some? && b.Some? && a.value < b.value
  }

  /** The `less` the Go comparator computes for the field; false for every pair when the field is unrecognised. */
  predicate Less(x: AggregatedMetrics, y: AggregatedMetrics, field: Option<Metric>) {
    match field
    case None => false
    case Some(m) =>
      match m
      case Name => LexLess(x.Name, y.Name)
      case AvgEngagementRate => x.AverageEngagementRate < y.AverageEngagementRate
      case TotalSessions => x.TotalSessions < y.TotalSessions
      case TotalPageViews => x.TotalPageViews < y.TotalPageViews
      case AvgSessionDuration => RatioLess(x.AverageSessionDuration, y.AverageSessionDuration)
      case BounceRate => RatioLess(x.BounceRate, y.BounceRate)
      case TotalNewUsers => x.TotalNewUsers < y.TotalNewUsers
      case TotalUsers => x.TotalUsers < y.TotalUsers
      case AvgEngagementDuration => x.AverageEngagementDuration < y.AverageEngagementDuration
      case DataPointCount => x.DataPointCount < y.DataPointCount
  }

  /** Ascending by the field, with no pair out of order by `less`. */
  ghost predicate SortedAscending(s: seq<AggregatedMetrics>, field: Option<Metric>) {
    forall i, j :: 0 <= i < j < |s| ==> !Less(s[j], s[i], field)
  }

  /** Descending by the field: no later element is greater than an earlier one. */
  ghost predicate SortedDescending(s: seq<AggregatedMetrics>, field: Option<Metric>) {
    forall i, j :: 0 <= i < j < |s| ==> !Less(s[i], s[j], field)
  }

  /** The order the implementation sorts by: a total preorder that places undefined ratios lowest. */
  predicate RatioLe(a: Option<real>, b: Option<real>) {
    a.None? || (b.Some? && a.value <= b.value)
  }

  predicate AscLe(x: AggregatedMetrics, y: AggregatedMetrics, m: Metric) {
    match m
    case Name => !LexLess(y.Name, x.Name)
    case AvgEngagementRate => x.AverageEngagementRate <= y.AverageEngagementRate
    case TotalSessions => x.TotalSessions <= y.TotalSessions
    case TotalPageViews => x.TotalPageViews <= y.TotalPageViews
    case AvgSessionDuration => RatioLe(x.AverageSessionDuration, y.AverageSessionDuration)
    case BounceRate => RatioLe(x.BounceRate, y.BounceRate)
    case TotalNewUsers => x.TotalNewUsers <= y.TotalNewUsers
    case TotalUsers => x.TotalUsers <= y.TotalUsers
    case AvgEngagementDuration => x.AverageEngagementDuration <= y.AverageEngagementDuration
    case DataPointCount => x.DataPointCount <= y.DataPointCount
  }

  predicate Le(x: AggregatedMetrics, y: AggregatedMetrics, m: Metric, desc: bool) {
    if desc then AscLe(y, x, m) else AscLe(x, y, m)
  }

  /** The sorting order never puts an element before one that is `less` than it. */
  lemma AscLeExcludesLess(x: AggregatedMetrics, y: AggregatedMetrics, m: Metric)
    requires AscLe(x, y, m)
    ensures !Less(y, x, Some(m))
  {
    if m == Name {
      LexLessTrichotomy(x.Name, y.Name);
    }
  }

  lemma AscLeTotal(x: AggregatedMetrics, y: AggregatedMetrics, m: Metric)
    ensures AscLe(x, y, m) || AscLe(y, x, m)
  {
    if m == Name {
      LexLessTrichotomy(x.Name, y.Name);
    }
  }

  lemma AscLeTransitive(x: AggregatedMetrics, y: AggregatedMetrics, z: AggregatedMetrics, m: Metric)
    requires AscLe(x, y, m) && AscLe(y, z, m)
    ensures AscLe(x, z, m)
  {
    if m == Name && LexLess(z.Name, x.Name) {
      LexLessTrichotomy(x.Name, y.Name);
      LexLessTrichotomy(y.Name, z.Name);
      if x.Name == y.Name {
      } else {
        LexLessTransitive(z.Name, x.Name, y.Name);
      }
    }
  }

  lemma LePreorder(m: Metric, desc: bool)
    ensures forall x, y :: Le(x, y, m, desc) || Le(y, x, m, desc)
    ensures forall x, y, z :: Le(x, y, m, desc) && Le(y, z, m, desc) ==> Le(x, z, m, desc)
  {
    forall x, y ensures Le(x, y, m, desc) || Le(y, x, m, desc) {
      AscLeTotal(x, y, m);
    }
    forall x, y, z | Le(x, y, m, desc) && Le(y, z, m, desc) ensures Le(x, z, m, desc) {
      if desc {
        AscLeTransitive(z, y, x, m);
      } else {
        AscLeTransitive(x, y, z, m);
      }
    }
  }

  /** le is total and transitive: a valid order to sort by. */
  ghost predicate Preorder<T(!new)>(le: (T, T) -> bool) {
    && (forall x, y :: le(x, y) || le(y, x))
    && (forall x, y, z {:trigger le(x, y), le(y, z), le(x, z)} :: le(x, y) && le(y, z) ==> le(x, z))
  }

  /** Straight insertion sort by a total preorder, exchanging neighbours in place. */
  method InsertionSort<T(!new)>(a: array<T>, le: (T, T) -> bool)
    requires Preorder(le)
    modifies a
    ensures multiset(a[..]) == old(multiset(a[..]))
    ensures forall p, q :: 0 <= p < q < a.Length ==> le(a[p], a[q])
  {
    var i := 0;
    while i < a.Length
      invariant 0 <= i <= a.Length
      invariant multiset(a[..]) == old(multiset(a[..]))
      invariant forall p, q :: 0 <= p < q < i ==> le(a[p], a[q])
    {
      InsertLast(a, i, le);
      i := i + 1;
    }
  }

  /** Moves a[i] left past every neighbour that must follow it, so that a[..i+1] becomes sorted. */
  method InsertLast<T(!new)>(a: array<T>, i: int, le: (T, T) -> bool)
    requires 0 <= i < a.Length
    requires Preorder(le)
    requires forall p, q :: 0 <= p < q < i ==> le(a[p], a[q])
    modifies a
    ensures multiset(a[..]) == old(multiset(a[..]))
    ensures forall p, q :: 0 <= p < q <= i ==> le(a[p], a[q])
  {
    var j := i;
    while j > 0 && !le(a[j - 1], a[j])
      invariant 0 <= j <= i
      invariant multiset(a[..]) == old(multiset(a[..]))
      invariant Inserting(a[..], j, i, le)
      decreases j
    {
      ghost var s := a[..];
      a[j - 1], a[j] := a[j], a[j - 1];
      assert a[..] == s[j - 1 := s[j]][j := s[j - 1]];
      SwapKeepsInserting(s, j, i, le);
      j := j - 1;
    }
    InsertionDone(a[..], j, i, le);
  }

  /**
   * While s[j] travels left towards its place in s[..i+1]: the other
   * elements of s[..i+1] are in order, and s[j] belongs before all those
   * after it.
   */
  ghost predicate Inserting<T(!new)>(s: seq<T>, j: int, i: int, le: (T, T) -> bool)
    requires 0 <= j <= i < |s|
  {
    && (forall p, q :: 0 <= p < q <= i && p != j && q != j ==> le(s[p], s[q]))
    && (forall q :: j < q <= i ==> le(s[j], s[q]))
  }

  lemma SwapKeepsInserting<T(!new)>(s: seq<T>, j: int, i: int, le: (T, T) -> bool)
    requires 0 < j <= i < |s|
    requires Preorder(le)
    requires Inserting(s, j, i, le) && !le(s[j - 1], s[j])
    ensures Inserting(s[j - 1 := s[j]][j := s[j - 1]], j - 1, i, le)
  {
    var t := s[j - 1 := s[j]][j := s[j - 1]];
    assert le(s[j], s[j - 1]);
    forall p, q | 0 <= p < q <= i && p != j - 1 && q != j - 1
      ensures le(t[p], t[q])
    {
      if q == j {
        assert le(s[p], s[j - 1]);
      } else if p == j {
        assert le(s[j - 1], s[q]);
      } else {
        assert le(s[p], s[q]);
      }
    }
  }

  lemma InsertionDone<T(!new)>(s: seq<T>, j: int, i: int, le: (T, T) -> bool)
    requires 0 <= j <= i < |s|
    requires Preorder(le)
    requires Inserting(s, j, i, le) && (j == 0 || le(s[j - 1], s[j]))
    ensures forall p, q :: 0 <= p < q <= i ==> le(s[p], s[q])
  {
    forall p, q | 0 <= p < q <= i
      ensures le(s[p], s[q])
    {
      if q == j && p < j - 1 {
        var x, y, z := s[p], s[j - 1], s[j];
        assert le(x, y) && le(y, z);
      }
    }
  }

  /**
   * Sorts the list in place by the named field; order "DESC" sorts
   * descending and any other order ascending. An unrecognised field name
   * leaves only the permutation promise.
   */
  method SortByField(metrics: array<AggregatedMetrics>, field: string, order: string)
    modifies metrics
    ensures multiset(metrics[..]) == old(multiset(metrics[..]))
    ensures order != Desc ==> SortedAscending(metrics[..], MetricFromName(field))
    ensures order == Desc ==> SortedDescending(metrics[..], MetricFromName(field))
  {
    var m := MetricFromName(field);
    if m.Some? {
      var desc := order == Desc;
      var le := (x, y) => Le(x, y, m.value, desc);
      LePreorder(m.value, desc);
      assert Preorder(le);
      InsertionSort(metrics, le);
      forall i, j | 0 <= i < j < metrics.Length
        ensures desc ==> !Less(metrics[i], metrics[j], m)
        ensures !desc ==> !Less(metrics[j], metrics[i], m)
      {
        if desc {
          AscLeExcludesLess(metrics[j], metrics[i], m.value);
        } else {
          AscLeExcludesLess(metrics[i], metrics[j], m.value);
        }
      }
    }
  }
}
